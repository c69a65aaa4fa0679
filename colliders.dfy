/** ColliderManager (Assets/Scripts/Utils/ColliderManager.cs): a fixed-depth
    octree over an area. Every entry (a box and the entity it belongs to) is
    stored in each leaf it reaches by descending through overlapping volumes;
    a query descends the same way and reports the first entry that passes its
    test. A `Node` is a C# struct whose `children` and `entries` lists are
    updated in place; here it is a value, and the node operations return the
    updated tree, which the manager stores back into its root. */
module Colliders {
  import opened Common
  import opened Geometry

  /** The C# `ushort` entity handle. Unlike `Common.EntityId`, which indexes
      the store's 65535-slot arrays, the collider only stores and returns
      it, so its whole range, 65535 included, is allowed. */
  type EntityID = x: int | 0 <= x < 0x1_0000

  /** The geometry a collider needs from Assets/Scripts/Utils/AABox.cs and
      Assets/Scripts/Utils/MathUtils.cs, which are not part of this model:
      `overlap(a, b)` is `AABox.Intersect(a, b)`, `octant(v, i)` is the box
      `AABox.Subdivide(v, subBoxes)` writes into `subBoxes[i]`, `rayHit(b, r)`
      is `AABox.Intersect(b, r, out rayTime)` (the time on a hit, None on a
      miss) and `normalize` is `FastNormalize`. */
  datatype BoxOps = BoxOps(
    overlap: (AABox, AABox) -> bool,
    octant: (AABox, int) -> AABox,
    rayHit: (AABox, Ray) -> Option<real>,
    normalize: Vec3 -> Vec3)

  datatype Entry = Entry(box: AABox, entity: EntityID)

  datatype Node = Node(volume: AABox, children: seq<Node>, entries: seq<Entry>)

  /** `LineTestData`: the line with its bounds and its ray, computed once per
      query. */
  datatype LineTestData = LineTestData(testLine: Line, testBounds: AABox, testRay: Ray)

  function MakeLineTestData(ops: BoxOps, line: Line): (d: LineTestData)
    ensures d.testLine == line && d.testBounds == GetBounds(line)
    ensures d.testRay == GetRay(line, ops.normalize)
  {
    LineTestData(line, GetBounds(line), GetRay(line, ops.normalize))
  }

  /** `new Node(volume)`: no children and no entries. */
  function Leaf(volume: AABox): Node {
    Node(volume, [], [])
  }

  /** The eight new leaves a leaf gets: one per octant of its volume. */
  function Octants(ops: BoxOps, volume: AABox): (r: seq<Node>)
    ensures |r| == 8
    ensures forall i :: 0 <= i < 8 ==> r[i] == Leaf(ops.octant(volume, i))
  {
    seq(8, i => Leaf(ops.octant(volume, i)))
  }

  // ---------------------------------------------------------------------
  // Shape of the tree

  /** Every leaf is `d` levels down, every inner node has the eight octants
      of its volume as children. */
  ghost predicate Shaped(ops: BoxOps, n: Node, d: nat)
    decreases n
  {
    if d == 0 then n.children == []
    else
      && |n.children| == 8
      && forall i :: 0 <= i < 8 ==>
        n.children[i].volume == ops.octant(n.volume, i) && Shaped(ops, n.children[i], d - 1)
  }

  /** No node holds an entry. */
  ghost predicate NoEntries(n: Node)
    decreases n
  {
    n.entries == [] && forall i :: 0 <= i < |n.children| ==> NoEntries(n.children[i])
  }

  /** Only leaves hold entries. */
  ghost predicate EntriesAtLeaves(n: Node)
    decreases n
  {
    && (|n.children| > 0 ==> n.entries == [])
    && forall i :: 0 <= i < |n.children| ==> EntriesAtLeaves(n.children[i])
  }

  lemma {:induction false} NoEntriesAtLeaves(n: Node)
    requires NoEntries(n)
    ensures EntriesAtLeaves(n)
    decreases n
  {
    forall i | 0 <= i < |n.children| ensures EntriesAtLeaves(n.children[i]) {
      NoEntriesAtLeaves(n.children[i]);
    }
  }

  /** A path of child indices from a node down to one of its descendants. */
  ghost predicate ValidPath(n: Node, p: seq<int>)
    decreases |p|
  {
    |p| == 0 || (0 <= p[0] < |n.children| && ValidPath(n.children[p[0]], p[1..]))
  }

  /** The node the path leads to. */
  ghost function At(n: Node, p: seq<int>): Node
    requires ValidPath(n, p)
    decreases |p|
  {
    if |p| == 0 then n else At(n.children[p[0]], p[1..])
  }

  /** The box overlaps the volume of every node on the path, its end
      included, in the argument order `Entry.Intersect(volume)` uses. */
  ghost predicate OverlapsAlong(ops: BoxOps, n: Node, p: seq<int>, box: AABox)
    requires ValidPath(n, p)
    decreases |p|
  {
    ops.overlap(box, n.volume) && (|p| == 0 || OverlapsAlong(ops, n.children[p[0]], p[1..], box))
  }

  // ---------------------------------------------------------------------
  // Node.Subdivide

  /** `Node.Subdivide`: a leaf gets the eight octants as children; an inner
      node passes the call to each of its children. */
  function Subdivided(ops: BoxOps, n: Node): Node
    decreases n
  {
    if |n.children| == 0 then n.(children := Octants(ops, n.volume))
    else n.(children := seq(|n.children|, i requires 0 <= i < |n.children| => Subdivided(ops, n.children[i])))
  }

  /** Subdividing a tree whose leaves are all at depth `d` puts them all at
      depth `d + 1`, and keeps the volume and the entries of the node. */
  lemma {:induction false} SubdivideDeepens(ops: BoxOps, n: Node, d: nat)
    requires Shaped(ops, n, d)
    ensures Shaped(ops, Subdivided(ops, n), d + 1)
    ensures Subdivided(ops, n).volume == n.volume && Subdivided(ops, n).entries == n.entries
    ensures NoEntries(n) ==> NoEntries(Subdivided(ops, n))
    decreases n
  {
    var s := Subdivided(ops, n);
    if d == 0 {
      assert forall i :: 0 <= i < 8 ==> s.children[i] == Leaf(ops.octant(n.volume, i));
    } else {
      forall i | 0 <= i < 8
        ensures s.children[i].volume == ops.octant(n.volume, i) && Shaped(ops, s.children[i], d)
        ensures NoEntries(n.children[i]) ==> NoEntries(s.children[i])
      {
        SubdivideDeepens(ops, n.children[i], d - 1);
      }
    }
  }

  method SubdivideNode(ops: BoxOps, n: Node) returns (r: Node)
    ensures r == Subdivided(ops, n)
    decreases n
  {
    var children: seq<Node> := [];
    if |n.children| == 0 {
      var i := 0;
      while i < 8
        invariant 0 <= i <= 8 && |children| == i
        invariant forall k :: 0 <= k < i ==> children[k] == Leaf(ops.octant(n.volume, k))
      {
        children := children + [Leaf(ops.octant(n.volume, i))];
        i := i + 1;
      }
    } else {
      var i := 0;
      while i < |n.children|
        invariant 0 <= i <= |n.children| && |children| == i
        invariant forall k :: 0 <= k < i ==> children[k] == Subdivided(ops, n.children[k])
      {
        var c := SubdivideNode(ops, n.children[i]);
        children := children + [c];
        i := i + 1;
      }
    }
    r := n.(children := children);
  }

  // ---------------------------------------------------------------------
  // Node.Add

  /** `Node.Add`: a node whose volume the entry's box overlaps passes the
      entry to all its children, or, as a leaf, appends it to its entries. */
  function Added(ops: BoxOps, n: Node, e: Entry): Node
    decreases n
  {
    if !ops.overlap(e.box, n.volume) then n
    else if |n.children| > 0 then
      n.(children := seq(|n.children|, i requires 0 <= i < |n.children| => Added(ops, n.children[i], e)))
    else n.(entries := n.entries + [e])
  }

  /** Adding keeps the shape of the tree and the rule that only leaves hold
      entries. */
  lemma {:induction false} AddKeepsShape(ops: BoxOps, n: Node, e: Entry, d: nat)
    requires Shaped(ops, n, d) && EntriesAtLeaves(n)
    ensures Shaped(ops, Added(ops, n, e), d) && EntriesAtLeaves(Added(ops, n, e))
    ensures Added(ops, n, e).volume == n.volume
    decreases n
  {
    var a := Added(ops, n, e);
    if ops.overlap(e.box, n.volume) && |n.children| > 0 {
      forall i | 0 <= i < |n.children|
        ensures a.children[i].volume == n.children[i].volume
        ensures d > 0 ==> Shaped(ops, a.children[i], d - 1)
        ensures EntriesAtLeaves(a.children[i])
      {
        AddKeepsShape(ops, n.children[i], e, if d > 0 then d - 1 else 0);
      }
    }
  }

  /** Where an entry goes: the node at the end of any path gains the entry
      exactly when it is a leaf and the entry's box overlaps every volume on
      the way down; everywhere else the entries stay as they were. */
  lemma {:induction false} AddPlacement(ops: BoxOps, n: Node, e: Entry, p: seq<int>)
    requires ValidPath(n, p)
    ensures ValidPath(Added(ops, n, e), p)
    ensures At(Added(ops, n, e), p).volume == At(n, p).volume
    ensures At(Added(ops, n, e), p).entries ==
      At(n, p).entries + (if At(n, p).children == [] && OverlapsAlong(ops, n, p, e.box) then [e] else [])
    decreases |p|
  {
    var a := Added(ops, n, e);
    if ops.overlap(e.box, n.volume) && |n.children| > 0 && |p| > 0 {
      assert a.children[p[0]] == Added(ops, n.children[p[0]], e);
      AddPlacement(ops, n.children[p[0]], e, p[1..]);
    }
  }

  method AddNode(ops: BoxOps, n: Node, e: Entry) returns (r: Node)
    ensures r == Added(ops, n, e)
    decreases n
  {
    r := n;
    if ops.overlap(e.box, n.volume) {
      if |n.children| > 0 {
        var children: seq<Node> := [];
        var i := 0;
        while i < |n.children|
          invariant 0 <= i <= |n.children| && |children| == i
          invariant forall k :: 0 <= k < i ==> children[k] == Added(ops, n.children[k], e)
        {
          var c := AddNode(ops, n.children[i], e);
          children := children + [c];
          i := i + 1;
        }
        r := n.(children := children);
      } else {
        r := n.(entries := n.entries + [e]);
      }
    }
  }

  // ---------------------------------------------------------------------
  // Node.ClearEntries

  /** `Node.ClearEntries`: every entry list of the tree emptied. */
  function Cleared(n: Node): Node
    decreases n
  {
    Node(n.volume, seq(|n.children|, i requires 0 <= i < |n.children| => Cleared(n.children[i])), [])
  }

  /** Clearing empties every entry list and keeps the shape; it undoes any
      number of additions, and clearing twice is clearing once. */
  lemma {:induction false} ClearProperties(ops: BoxOps, n: Node, d: nat)
    ensures NoEntries(Cleared(n)) && Cleared(n).volume == n.volume
    ensures Shaped(ops, n, d) ==> Shaped(ops, Cleared(n), d)
    ensures Cleared(Cleared(n)) == Cleared(n)
    decreases n
  {
    var c := Cleared(n);
    forall i | 0 <= i < |n.children|
      ensures NoEntries(c.children[i]) && c.children[i].volume == n.children[i].volume
      ensures d > 0 && Shaped(ops, n.children[i], d - 1) ==> Shaped(ops, c.children[i], d - 1)
      ensures Cleared(c.children[i]) == c.children[i]
    {
      ClearProperties(ops, n.children[i], if d > 0 then d - 1 else 0);
    }
    assert Cleared(c).children == c.children;
  }

  lemma {:induction false} ClearUndoesAdd(ops: BoxOps, n: Node, e: Entry)
    ensures Cleared(Added(ops, n, e)) == Cleared(n)
    decreases n
  {
    var a := Added(ops, n, e);
    if ops.overlap(e.box, n.volume) && |n.children| > 0 {
      forall i | 0 <= i < |n.children| ensures Cleared(a.children[i]) == Cleared(n.children[i]) {
        ClearUndoesAdd(ops, n.children[i], e);
      }
      assert Cleared(a).children == Cleared(n).children;
    }
  }

  method ClearNode(n: Node) returns (r: Node)
    ensures r == Cleared(n)
    decreases n
  {
    var children: seq<Node> := [];
    var i := 0;
    while i < |n.children|
      invariant 0 <= i <= |n.children| && |children| == i
      invariant forall k :: 0 <= k < i ==> children[k] == Cleared(n.children[k])
    {
      var c := ClearNode(n.children[i]);
      children := children + [c];
      i := i + 1;
    }
    r := Node(n.volume, children, []);
  }

  // ---------------------------------------------------------------------
  // Node.Intersect (both overloads)

  /** The search both `Intersect` overloads make: a node whose volume passes
      `nodeTest` asks its children in order, then its own entries in order,
      and reports the first entity found; any other node finds nothing. */
  function Find(n: Node, nodeTest: AABox -> bool, entryTest: Entry -> bool): Option<EntityID>
    decreases n, 1, 0
  {
    if nodeTest(n.volume) then FindFrom(n, 0, nodeTest, entryTest) else None
  }

  /** The search among the children from `i` on, then among the entries. */
  function FindFrom(n: Node, i: nat, nodeTest: AABox -> bool, entryTest: Entry -> bool): Option<EntityID>
    decreases n, 0, |n.children| - i
  {
    if i >= |n.children| then FirstEntry(n.entries, 0, entryTest)
    else
      match Find(n.children[i], nodeTest, entryTest)
      case Some(id) => Some(id)
      case None => FindFrom(n, i + 1, nodeTest, entryTest)
  }

  /** The entity of the first entry from `j` on that passes the test. */
  function FirstEntry(es: seq<Entry>, j: nat, entryTest: Entry -> bool): Option<EntityID>
    decreases |es| - j
  {
    if j >= |es| then None
    else if entryTest(es[j]) then Some(es[j].entity)
    else FirstEntry(es, j + 1, entryTest)
  }

  /** The entry is stored in the tree below a chain of nodes whose volumes
      all pass the test: the entries a search can reach. */
  ghost predicate Reachable(n: Node, nodeTest: AABox -> bool, en: Entry)
    decreases n
  {
    && nodeTest(n.volume)
    && (en in n.entries || exists k :: 0 <= k < |n.children| && Reachable(n.children[k], nodeTest, en))
  }

  /** A found entity belongs to an entry from `j` on that passes the test,
      and nothing is found only when no such entry exists. */
  lemma {:induction false} FirstEntrySpec(es: seq<Entry>, j: nat, entryTest: Entry -> bool)
    ensures FirstEntry(es, j, entryTest).Some? <==> exists k :: j <= k < |es| && entryTest(es[k])
    ensures FirstEntry(es, j, entryTest).Some? ==>
      exists k :: j <= k < |es| && entryTest(es[k]) && es[k].entity == FirstEntry(es, j, entryTest).value
    decreases |es| - j
  {
    if j < |es| && !entryTest(es[j]) {
      FirstEntrySpec(es, j + 1, entryTest);
    }
  }

  /** The search is exact: it finds something iff some reachable entry
      passes the entry test, and what it finds is the entity of such an
      entry. */
  lemma {:induction false} FindSpec(n: Node, nodeTest: AABox -> bool, entryTest: Entry -> bool)
    ensures Find(n, nodeTest, entryTest).Some? <==> exists en :: Reachable(n, nodeTest, en) && entryTest(en)
    ensures Find(n, nodeTest, entryTest).Some? ==>
      exists en :: Reachable(n, nodeTest, en) && entryTest(en) && en.entity == Find(n, nodeTest, entryTest).value
    decreases n, 1
  {
    if nodeTest(n.volume) {
      FindFromSpec(n, 0, nodeTest, entryTest);
      if exists en :: Reachable(n, nodeTest, en) && entryTest(en) {
        var en :| Reachable(n, nodeTest, en) && entryTest(en);
        if en !in n.entries {
          var k :| 0 <= k < |n.children| && Reachable(n.children[k], nodeTest, en);
        }
      }
    }
  }

  lemma {:induction false} FindFromSpec(n: Node, i: nat, nodeTest: AABox -> bool, entryTest: Entry -> bool)
    requires nodeTest(n.volume)
    ensures FindFrom(n, i, nodeTest, entryTest).Some? <==>
      || (exists k, en :: i <= k < |n.children| && Reachable(n.children[k], nodeTest, en) && entryTest(en))
      || (exists en :: en in n.entries && entryTest(en))
    ensures FindFrom(n, i, nodeTest, entryTest).Some? ==>
      exists en :: Reachable(n, nodeTest, en) && entryTest(en) && en.entity == FindFrom(n, i, nodeTest, entryTest).value
    decreases n, 0, |n.children| - i
  {
    var r := FindFrom(n, i, nodeTest, entryTest);
    if i >= |n.children| {
      FirstEntrySpec(n.entries, 0, entryTest);
      if exists en :: en in n.entries && entryTest(en) {
        var en :| en in n.entries && entryTest(en);
        var k :| 0 <= k < |n.entries| && n.entries[k] == en;
      }
      if r.Some? {
        var k :| 0 <= k < |n.entries| && entryTest(n.entries[k]) && n.entries[k].entity == r.value;
        assert Reachable(n, nodeTest, n.entries[k]);
      }
    } else {
      FindSpec(n.children[i], nodeTest, entryTest);
      FindFromSpec(n, i + 1, nodeTest, entryTest);
      if Find(n.children[i], nodeTest, entryTest).Some? {
        var en :| Reachable(n.children[i], nodeTest, en) && entryTest(en) && en.entity == r.value;
        assert Reachable(n, nodeTest, en);
      } else if exists k, en :: i <= k < |n.children| && Reachable(n.children[k], nodeTest, en) && entryTest(en) {
        var k, en :| i <= k < |n.children| && Reachable(n.children[k], nodeTest, en) && entryTest(en);
        assert k != i;
      }
    }
  }

  method FindNode(n: Node, nodeTest: AABox -> bool, entryTest: Entry -> bool) returns (hit: bool, entity: EntityID)
    ensures hit == Find(n, nodeTest, entryTest).Some?
    ensures entity == if hit then Find(n, nodeTest, entryTest).value else 0
    decreases n
  {
    if nodeTest(n.volume) {
      var i := 0;
      while i < |n.children|
        invariant 0 <= i <= |n.children|
        invariant Find(n, nodeTest, entryTest) == FindFrom(n, i, nodeTest, entryTest)
      {
        hit, entity := FindNode(n.children[i], nodeTest, entryTest);
        if hit {
          return;
        }
        i := i + 1;
      }
      var j := 0;
      while j < |n.entries|
        invariant 0 <= j <= |n.entries|
        invariant Find(n, nodeTest, entryTest) == FirstEntry(n.entries, j, entryTest)
      {
        if entryTest(n.entries[j]) {
          return true, n.entries[j].entity;
        }
        j := j + 1;
      }
    }
    return false, 0;
  }

  /** The test of the box overload, on a node's volume. */
  function BoxNodeTest(ops: BoxOps, box: AABox): AABox -> bool {
    (v: AABox) => ops.overlap(v, box)
  }

  /** `Entry.Intersect(box, out entity)`. */
  function BoxEntryTest(ops: BoxOps, box: AABox): Entry -> bool {
    (en: Entry) => ops.overlap(en.box, box)
  }

  /** The test of the line overload, on a node's volume: its bounds. */
  function LineNodeTest(ops: BoxOps, data: LineTestData): AABox -> bool {
    (v: AABox) => ops.overlap(v, data.testBounds)
  }

  /** `Entry.Intersect(intersectData, out entity)` as written: the bounds
      overlap, the ray hits the box, and the squared length of the line is
      at most the squared hit time. */
  predicate LineHit(ops: BoxOps, en: Entry, data: LineTestData) {
    && ops.overlap(en.box, data.testBounds)
    && match ops.rayHit(en.box, data.testRay)
      case None => false
      case Some(t) => SqrMagnitude(data.testLine) <= t * t
  }

  /** The line test as its comment describes it: the hit lies on the line,
      so the squared hit time is at most the squared length. */
  predicate LineHitIntended(ops: BoxOps, en: Entry, data: LineTestData) {
    && ops.overlap(en.box, data.testBounds)
    && match ops.rayHit(en.box, data.testRay)
      case None => false
      case Some(t) => t * t <= SqrMagnitude(data.testLine)
  }

  /** `Entry.Intersect(intersectData, out entity)` as written. */
  function LineEntryTest(ops: BoxOps, data: LineTestData): Entry -> bool {
    (en: Entry) => LineHit(ops, en, data)
  }

  /** The entry test with the corrected comparison. */
  function LineEntryTestIntended(ops: BoxOps, data: LineTestData): Entry -> bool {
    (en: Entry) => LineHitIntended(ops, en, data)
  }

  /** Whenever the ray enters an overlapping box strictly before the end of
      the line, the test as written misses it and the intended test hits. */
  lemma LineTestMissesInside(ops: BoxOps, en: Entry, data: LineTestData, t: real)
    requires ops.overlap(en.box, data.testBounds) && ops.rayHit(en.box, data.testRay) == Some(t)
    requires t * t < SqrMagnitude(data.testLine)
    ensures !LineHit(ops, en, data) && LineHitIntended(ops, en, data)
  {
    LineHitAt(ops, en, data, t);
  }

  /** Both line tests compare the squared hit time with the squared length,
      in opposite directions. */
  lemma LineHitAt(ops: BoxOps, en: Entry, data: LineTestData, t: real)
    requires ops.overlap(en.box, data.testBounds) && ops.rayHit(en.box, data.testRay) == Some(t)
    ensures LineHit(ops, en, data) <==> SqrMagnitude(data.testLine) <= t * t
    ensures LineHitIntended(ops, en, data) <==> t * t <= SqrMagnitude(data.testLine)
  {
  }

  // ---------------------------------------------------------------------
  // ColliderManager

  class ColliderManager {
    const ops: BoxOps
    /** The depth the constructor subdivided to. */
    ghost const depth: nat
    var root: Node

    ghost predicate Valid()
      reads this
    {
      Shaped(ops, root, depth) && EntriesAtLeaves(root)
    }

    /** A root over `area`, subdivided `depth` times (no times when `depth`
        is zero or less): every leaf is `depth` levels down, every inner
        node has its volume's eight octants as children, and no node holds
        an entry. */
    constructor(ops: BoxOps, area: AABox, depth: int)
      ensures Valid() && this.ops == ops && this.depth == (if depth > 0 then depth else 0)
      ensures root.volume == area && NoEntries(root)
    {
      this.ops := ops;
      this.depth := if depth > 0 then depth else 0;
      var r := Leaf(area);
      var i := 0;
      while i < depth
        invariant 0 <= i <= (if depth > 0 then depth else 0)
        invariant Shaped(ops, r, i) && NoEntries(r) && r.volume == area
      {
        SubdivideDeepens(ops, r, i);
        r := SubdivideNode(ops, r);
        i := i + 1;
      }
      NoEntriesAtLeaves(r);
      root := r;
    }

    /** `Add(box, entity)`: the entry goes to every leaf below a chain of
        volumes its box overlaps (`AddPlacement`). */
    method Add(box: AABox, entity: EntityID)
      requires Valid()
      modifies this
      ensures Valid() && root == Added(ops, old(root), Entry(box, entity))
    {
      AddKeepsShape(ops, root, Entry(box, entity), depth);
      root := AddNode(ops, root, Entry(box, entity));
    }

    /** `Intersect(box, out entity)`: a hit exactly when an entry stored
        below volumes that overlap the box has a box that overlaps it too;
        the entity is then that of the first such entry in the depth-first
        search, and 0 on a miss. */
    method IntersectBox(box: AABox) returns (hit: bool, entity: EntityID)
      ensures hit == Find(root, BoxNodeTest(ops, box), BoxEntryTest(ops, box)).Some?
      ensures hit <==> exists en :: Reachable(root, BoxNodeTest(ops, box), en) && ops.overlap(en.box, box)
      ensures hit ==> exists en :: Reachable(root, BoxNodeTest(ops, box), en) && ops.overlap(en.box, box) && en.entity == entity
      ensures hit ==> entity == Find(root, BoxNodeTest(ops, box), BoxEntryTest(ops, box)).value
      ensures !hit ==> entity == 0
    {
      FindSpec(root, BoxNodeTest(ops, box), BoxEntryTest(ops, box));
      hit, entity := FindNode(root, BoxNodeTest(ops, box), BoxEntryTest(ops, box));
    }

    /** `Intersect(line, out entity)` as written: a hit exactly when an
        entry stored below volumes that overlap the line's bounds passes
        `LineHit`, whose comparison accepts only ray hits at or past the
        line's end (`LineTestMissesInside`). */
    method IntersectLine(line: Line) returns (hit: bool, entity: EntityID)
      ensures var data := MakeLineTestData(ops, line);
        hit <==> exists en :: Reachable(root, LineNodeTest(ops, data), en) && LineHit(ops, en, data)
      ensures var data := MakeLineTestData(ops, line);
        hit ==> exists en :: Reachable(root, LineNodeTest(ops, data), en) && LineHit(ops, en, data) && en.entity == entity
      ensures var data := MakeLineTestData(ops, line);
        hit == Find(root, LineNodeTest(ops, data), LineEntryTest(ops, data)).Some?
      ensures var data := MakeLineTestData(ops, line);
        hit ==> entity == Find(root, LineNodeTest(ops, data), LineEntryTest(ops, data)).value
      ensures !hit ==> entity == 0
    {
      var data := MakeLineTestData(ops, line);
      FindSpec(root, LineNodeTest(ops, data), LineEntryTest(ops, data));
      hit, entity := FindNode(root, LineNodeTest(ops, data), LineEntryTest(ops, data));
    }

    /** `Intersect(line, out entity)` with the line test as intended: a hit
        exactly when an entry stored below volumes that overlap the line's
        bounds passes `LineHitIntended`. */
    method IntersectLineIntended(line: Line) returns (hit: bool, entity: EntityID)
      ensures var data := MakeLineTestData(ops, line);
        hit <==> exists en :: Reachable(root, LineNodeTest(ops, data), en) && LineHitIntended(ops, en, data)
      ensures var data := MakeLineTestData(ops, line);
        hit ==> exists en :: Reachable(root, LineNodeTest(ops, data), en) && LineHitIntended(ops, en, data) && en.entity == entity
      ensures var data := MakeLineTestData(ops, line);
        hit == Find(root, LineNodeTest(ops, data), LineEntryTestIntended(ops, data)).Some?
      ensures var data := MakeLineTestData(ops, line);
        hit ==> entity == Find(root, LineNodeTest(ops, data), LineEntryTestIntended(ops, data)).value
      ensures !hit ==> entity == 0
    {
      var data := MakeLineTestData(ops, line);
      FindSpec(root, LineNodeTest(ops, data), LineEntryTestIntended(ops, data));
      hit, entity := FindNode(root, LineNodeTest(ops, data), LineEntryTestIntended(ops, data));
    }

    /** `Clear()`: every entry list emptied, the tree kept. */
    method Clear()
      requires Valid()
      modifies this
      ensures Valid() && root == Cleared(old(root)) && NoEntries(root)
    {
      ClearProperties(ops, root, depth);
      root := ClearNode(root);
      NoEntriesAtLeaves(root);
    }
  }
}
