/** Logger (Assets/Scripts/Utils/Logger.cs): messages are queued by `Log` and
    handed, oldest first, to the print delegate by `Print`. The delegate is
    modelled by the sequence of messages it receives; whether one was given
    is a flag. The queue is drained by `printDelegate?.Invoke(Dequeue())`,
    and `?.` skips its argument when there is no delegate, so without one
    nothing is ever dequeued. */
module Logging {

  /** `$"Exception: '{exception.Message}'"`. */
  function ExceptionMessage(message: string): (r: string)
    ensures |r| == |message| + 13
    ensures r[..12] == "Exception: '" && r[|r| - 1] == '\''
    ensures r[12..|r| - 1] == message
  {
    "Exception: '" + message + "'"
  }

  /** The queue after one pass of `Print`'s loop body as written: the front
      message is dequeued only when there is a delegate to receive it. */
  function PrintStep(hasDelegate: bool, entries: seq<string>): (r: seq<string>)
    requires |entries| > 0
    ensures hasDelegate ==> r == entries[1..]
    ensures !hasDelegate ==> r == entries
  {
    if hasDelegate then entries[1..] else entries
  }

  /** The queue after `k` passes of the loop, or once it is empty. */
  function PrintSteps(hasDelegate: bool, entries: seq<string>, k: nat): seq<string> {
    if k == 0 || |entries| == 0 then entries
    else PrintSteps(hasDelegate, PrintStep(hasDelegate, entries), k - 1)
  }

  /** With a delegate, `k` passes dequeue `k` messages (or all of them). */
  lemma {:induction false} DelegateDrains(entries: seq<string>, k: nat)
    ensures PrintSteps(true, entries, k) == if k < |entries| then entries[k..] else []
  {
    if k > 0 && |entries| > 0 {
      DelegateDrains(entries[1..], k - 1);
      if k < |entries| {
        assert entries[1..][k - 1..] == entries[k..];
      }
    }
  }

  /** Without a delegate, a non-empty queue is the same after any number of
      passes, so the loop guard `logEntries.Count > 0` never becomes false
      and `Print` does not return. */
  lemma {:induction false} NoDelegateNeverDrains(entries: seq<string>, k: nat)
    requires |entries| > 0
    ensures PrintSteps(false, entries, k) == entries
    ensures |PrintSteps(false, entries, k)| > 0
  {
    if k > 0 {
      NoDelegateNeverDrains(entries, k - 1);
    }
  }

  class Logger {
    /** A print delegate was passed to the constructor (it was not null). */
    const hasDelegate: bool
    /** `logEntries`, front first. */
    var entries: seq<string>

    constructor(hasDelegate: bool)
      ensures this.hasDelegate == hasDelegate && entries == []
    {
      this.hasDelegate := hasDelegate;
      entries := [];
    }

    /** `Log(message)`: enqueues the message. */
    method Log(message: string)
      modifies this
      ensures entries == old(entries) + [message]
    {
      entries := entries + [message];
    }

    /** `Log(exception)`: enqueues the exception's message, quoted. */
    method LogException(message: string)
      modifies this
      ensures entries == old(entries) + [ExceptionMessage(message)]
    {
      Log("Exception: '" + message + "'");
    }

    /** `Print()` as written, for the calls that return: with a delegate it
        empties the queue, passing every message in the order it was logged;
        without one it returns only when the queue is already empty
        (`NoDelegateNeverDrains`). */
    method Print() returns (printed: seq<string>)
      requires hasDelegate || entries == []
      modifies this
      ensures entries == []
      ensures printed == old(entries)
    {
      printed := [];
      while |entries| > 0
        invariant printed + entries == old(entries)
        invariant hasDelegate || entries == []
        decreases |entries|
      {
        if hasDelegate {
          var message := entries[0];
          entries := PrintStep(hasDelegate, entries);
          printed := printed + [message];
        } else {
          assert false;
        }
      }
    }

    /** `Print()` as intended: every message is dequeued and, when there is
        a delegate, passed to it in the order it was logged; without one the
        queue is discarded. */
    method PrintIntended() returns (printed: seq<string>)
      modifies this
      ensures entries == []
      ensures printed == if hasDelegate then old(entries) else []
    {
      printed := [];
      ghost var dequeued: seq<string> := [];
      while |entries| > 0
        invariant dequeued + entries == old(entries)
        invariant printed == if hasDelegate then dequeued else []
        decreases |entries|
      {
        var message := entries[0];
        entries := entries[1..];
        dequeued := dequeued + [message];
        if hasDelegate {
          printed := printed + [message];
        }
      }
    }
  }
}
