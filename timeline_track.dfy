/** TimelineTrack (Assets/Scripts/Profiler/TimelineTrack.cs): a ring buffer of
    the last 100 work items of one thread, each with a start time, a stop
    time and whether it is still running. The stopwatch is not modelled: the
    elapsed time is passed to each call. TimelineItem's own file is not part
    of this model; the fields the track uses are. */
module TimelineTracks {

  const MAX_ITEM_COUNT: int := 100

  datatype TimelineItem = TimelineItem(startTime: real, stopTime: real, running: bool)

  /** `default(TimelineItem)`. */
  const EMPTY_ITEM: TimelineItem := TimelineItem(0.0, 0.0, false)

  /** `(currentItem + 1) % MAX_ITEM_COUNT` for a current item in
      `[-1, MAX_ITEM_COUNT)`, where C#'s and Dafny's `%` agree. */
  function NextSlot(currentItem: int): (r: int)
    requires -1 <= currentItem < MAX_ITEM_COUNT
    ensures 0 <= r < MAX_ITEM_COUNT
    ensures r == if currentItem + 1 == MAX_ITEM_COUNT then 0 else currentItem + 1
  {
    (currentItem + 1) % MAX_ITEM_COUNT
  }

  /** `LogStartWork` opens a new item when the timer runs and the current
      item, if there is one, has stopped. */
  predicate StartsItem(started: bool, count: int, current: TimelineItem) {
    started && (count == 0 || !current.running)
  }

  class TimelineTrack {
    const items: array<TimelineItem>
    var count: int
    var currentItem: int
    var started: bool

    /** The buffer holds 100 items. Until it is full the current item is the
        last one written, `count - 1`; `currentItem` is -1 only while no
        item has been written. */
    ghost predicate Valid()
      reads this
    {
      && items.Length == MAX_ITEM_COUNT
      && 0 <= count <= MAX_ITEM_COUNT
      && -1 <= currentItem < MAX_ITEM_COUNT
      && (count < MAX_ITEM_COUNT ==> currentItem == count - 1)
      && (count > 0 ==> 0 <= currentItem)
    }

    constructor()
      ensures Valid() && fresh(items)
      ensures count == 0 && currentItem == -1 && !started
      ensures forall i :: 0 <= i < MAX_ITEM_COUNT ==> items[i] == EMPTY_ITEM
    {
      items := new TimelineItem[MAX_ITEM_COUNT](_ => EMPTY_ITEM);
      count := 0;
      currentItem := -1;
      started := false;
    }

    /** `StartTimer`. */
    method StartTimer()
      modifies this
      ensures started && count == old(count) && currentItem == old(currentItem)
    {
      started := true;
    }

    /** `GetItems`: the first `count` slots of the buffer, in slot order. */
    method GetItems() returns (output: seq<TimelineItem>)
      requires Valid()
      ensures output == items[..count]
    {
      output := [];
      var i := 0;
      while i < count
        invariant 0 <= i <= count
        invariant output == items[..i]
      {
        output := output + [items[i]];
        i := i + 1;
      }
    }

    /** `LogStartWork` at time `now`: when `StartsItem` holds, the next slot
        round the ring gets a running item started at `now` and the count
        grows up to 100; otherwise nothing changes. */
    method LogStartWork(now: real)
      requires Valid()
      modifies this, items
      ensures Valid() && started == old(started)
      ensures var go := StartsItem(old(started), old(count),
          if old(count) == 0 then EMPTY_ITEM else old(items[currentItem]));
        && (go ==> currentItem == NextSlot(old(currentItem)))
        && (go ==> count == if old(count) < MAX_ITEM_COUNT then old(count) + 1 else old(count))
        && (go ==> items[..] == old(items[..])[currentItem := TimelineItem(now, 0.0, true)])
        && (!go ==> currentItem == old(currentItem) && count == old(count) && items[..] == old(items[..]))
    {
      if started && (count == 0 || !items[currentItem].running) {
        currentItem := (currentItem + 1) % MAX_ITEM_COUNT;
        if count < MAX_ITEM_COUNT {
          count := count + 1;
        }
        items[currentItem] := TimelineItem(now, 0.0, true);
      }
    }

    /** `LogEndWork` at time `now`: a running current item stops at `now`;
        otherwise nothing changes. */
    method LogEndWork(now: real)
      requires Valid()
      modifies items
      ensures Valid()
      ensures old(count) > 0 && old(items[currentItem]).running ==>
        items[..] == old(items[..])[currentItem := old(items[currentItem]).(running := false, stopTime := now)]
      ensures !(old(count) > 0 && old(items[currentItem]).running) ==> items[..] == old(items[..])
    {
      if count > 0 && items[currentItem].running {
        var current := items[currentItem];
        current := current.(running := false, stopTime := now);
        items[currentItem] := current;
      }
    }
  }

  /** Once the timer is started and the last item has stopped, starting and
      ending work leaves one more item (or as many, once full) whose start
      and stop times are the two times, and that is no longer running. */
  method StartThenEnd(track: TimelineTrack, start: real, stop: real)
    requires track.Valid() && track.started
    requires track.count == 0 || !track.items[track.currentItem].running
    modifies track, track.items
    ensures track.Valid()
    ensures track.count == if old(track.count) < MAX_ITEM_COUNT then old(track.count) + 1 else MAX_ITEM_COUNT
    ensures track.currentItem == NextSlot(old(track.currentItem))
    ensures track.items[track.currentItem] == TimelineItem(start, stop, false)
  {
    track.LogStartWork(start);
    track.LogEndWork(stop);
  }
}
