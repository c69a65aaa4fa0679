/** ShiftRandomProvider (Assets/Scripts/Utils/Random/ShiftRandomProvider.cs):
    a 16-bit Fibonacci linear-feedback shift register with taps 16, 14, 13
    and 11. The parameterless constructor seeds it from the clock; here the
    seed is always passed in. */
module ShiftRandom {

  /** The C# `ushort`. */
  type UShort = bv16

  /** The number of shifts per `GetNext`. */
  const SHIFTS_PER_VALUE: nat := 7

  /** `ushort.MaxValue`, the divisor that maps the state into [0, 1]. */
  const USHORT_MAX: real := 65535.0

  /** The feedback bit: the exclusive or of bits 0, 2, 3 and 5. */
  function FeedbackBit(lfsr: UShort): (bit: UShort)
    ensures bit == 0 || bit == 1
  {
    ((lfsr >> 0) ^ (lfsr >> 2) ^ (lfsr >> 3) ^ (lfsr >> 5)) & 1
  }

  /** The state after one `Shift`: shifted right by one, the feedback bit
      entering at bit 15. */
  function Shifted(lfsr: UShort): (next: UShort)
    ensures next >> 15 == FeedbackBit(lfsr)
    ensures next & 0x7FFF == lfsr >> 1
  {
    (lfsr >> 1) | (FeedbackBit(lfsr) << 15)
  }

  /** A nonzero state stays nonzero: a state whose bits above bit 0 are all
      clear is 1, whose feedback bit is 1. */
  lemma ShiftKeepsNonzero(lfsr: UShort)
    requires lfsr != 0
    ensures Shifted(lfsr) != 0
  {
    if lfsr >> 1 == 0 {
      assert lfsr == 1;
    }
  }

  /** The state after `k` shifts. */
  function ShiftedTimes(lfsr: UShort, k: nat): UShort
    decreases k
  {
    if k == 0 then lfsr else ShiftedTimes(Shifted(lfsr), k - 1)
  }

  lemma {:induction false} ShiftedTimesNonzero(lfsr: UShort, k: nat)
    requires lfsr != 0
    ensures ShiftedTimes(lfsr, k) != 0
    decreases k
  {
    if k > 0 {
      ShiftKeepsNonzero(lfsr);
      ShiftedTimesNonzero(Shifted(lfsr), k - 1);
    }
  }

  /** `k` shifts followed by one more are `k + 1` shifts. */
  lemma {:induction false} ShiftedTimesStep(lfsr: UShort, k: nat)
    ensures ShiftedTimes(lfsr, k + 1) == Shifted(ShiftedTimes(lfsr, k))
    decreases k
  {
    if k > 0 {
      ShiftedTimesStep(Shifted(lfsr), k - 1);
    }
  }

  /** The real value of a 16-bit word. */
  function ToReal(x: UShort): real {
    (x as int) as real
  }

  class ShiftRandomProvider {
    var lfsr: UShort
    var bit: UShort

    /** The state is never zero: zero is a fixed point of the register. */
    ghost predicate Valid()
      reads this
    {
      lfsr != 0
    }

    /** A seed of zero is replaced by one; any other seed is the state. */
    constructor(seed: UShort)
      ensures Valid()
      ensures lfsr == (if seed > 0 then seed else 1) && bit == 0
    {
      lfsr := if seed > 0 then seed else 1;
      bit := 0;
    }

    /** `Shift(ref lfsr, ref bit)`. */
    method Shift()
      modifies this
      ensures bit == FeedbackBit(old(lfsr)) && lfsr == Shifted(old(lfsr))
    {
      bit := ((lfsr >> 0) ^ (lfsr >> 2) ^ (lfsr >> 3) ^ (lfsr >> 5)) & 1;
      lfsr := (lfsr >> 1) | (bit << 15);
    }

    /** Seven shifts, then the state divided by `ushort.MaxValue`: a value
        in (0, 1], since the state stays nonzero. */
    method GetNext() returns (result: real)
      requires Valid()
      modifies this
      ensures Valid()
      ensures lfsr == ShiftedTimes(old(lfsr), SHIFTS_PER_VALUE)
      ensures result == ToReal(lfsr) / USHORT_MAX
      ensures 0.0 < result <= 1.0
    {
      ghost var start := lfsr;
      var i := 0;
      while i < SHIFTS_PER_VALUE
        invariant 0 <= i <= SHIFTS_PER_VALUE
        invariant lfsr == ShiftedTimes(start, i)
      {
        ShiftedTimesStep(start, i);
        Shift();
        i := i + 1;
      }
      ShiftedTimesNonzero(start, SHIFTS_PER_VALUE);
      result := ToReal(lfsr) / USHORT_MAX;
    }
  }
}
