/** Vocabulary shared by every module: error-carrying results, entity ids and
    the C# integer operators whose semantics differ from Dafny's. */
module Common {

  /** The outcome of an operation that the C# code may end with an exception. */
  datatype Result<+T> = Ok(value: T) | Err(message: string) {
    predicate IsFailure() { Err? }
  }

  datatype Option<+T> = None | Some(value: T)

  /** `EntityID.MaxValue`: every per-entity array in the store has this length. */
  const MAX_ENTITIES: int := 65535

  /** An entity handle that indexes the per-entity arrays. The C# type is a
      ushort, whose value 65535 is past the end of every such array. */
  type EntityId = e: int | 0 <= e < MAX_ENTITIES

  /** The ids `0, 1, ..., n - 1` in ascending order, as the allocators'
      constructors push them. */
  function Ids(n: int): (r: seq<EntityId>)
    requires 0 <= n <= MAX_ENTITIES
    ensures |r| == n
    ensures forall i :: 0 <= i < n ==> r[i] == i
  {
    if n == 0 then [] else Ids(n - 1) + [n - 1]
  }

  /** No element occurs twice. */
  predicate Distinct<T(==)>(s: seq<T>) {
    forall i, j :: 0 <= i < j < |s| ==> s[i] != s[j]
  }

  /** C#'s `%` on int: truncates toward zero, so the remainder takes the sign of `a`. */
  function CMod(a: int, n: int): (r: int)
    requires n > 0
    ensures a >= 0 ==> 0 <= r < n
    ensures a < 0 ==> -n < r <= 0
  {
    if a >= 0 then a % n else -((-a) % n)
  }

  /** Taking C#'s `%` again changes nothing. */
  lemma CModIdempotent(a: int, n: int)
    requires n > 0
    ensures CMod(CMod(a, n), n) == CMod(a, n)
  {
    var r := CMod(a, n);
    if r >= 0 {
      DivModUnique(r, n, 0, r);
    } else {
      DivModUnique(-r, n, 0, -r);
    }
  }

  /** C#'s `/` on int for a non-negative dividend. */
  function CDiv(a: int, n: int): (r: int)
    requires a >= 0 && n > 0
    ensures r * n <= a < (r + 1) * n
  {
    a / n
  }

  lemma {:induction false} MulAtLeast(d: int, b: int)
    requires d >= 1 && b > 0
    ensures d * b >= b
    decreases d
  {
    assert d * b == b + (d - 1) * b;
    if d > 1 {
      MulAtLeast(d - 1, b);
    }
  }

  /** Division with remainder is unique: `a == q * b + r` with `0 <= r < b`
      fixes `a / b` and `a % b`. */
  lemma DivModUnique(a: int, b: int, q: int, r: int)
    requires b > 0 && 0 <= r < b && a == q * b + r
    ensures a % b == r && a / b == q
  {
    var q0 := a / b;
    var r0 := a % b;
    assert a == q0 * b + r0;
    assert (q - q0) * b == r0 - r;
    if q > q0 {
      MulAtLeast(q - q0, b);
    } else if q < q0 {
      MulAtLeast(q0 - q, b);
    }
  }
}
