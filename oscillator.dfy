/** The Oscillator of Oscillator.cs: a non-zero integer that flips sign on
    every Oscillate call, and an active flag that Deactivate clears for good.

    The module has two layers. The value layer (OscillatorState, Call,
    Apply, Permitted, Run) describes a whole lifetime of an oscillator as
    the calls made on it, so that the interface invariants can be stated as
    lemmas over every sequence of calls. The class layer, Oscillator, is the
    object itself: its fields are updated in place, and each method is tied
    to Apply by its postcondition. */
module Oscillators {
  import opened Options

  // The constants Oscillate and SignHelper compute with.
  const NEGATIVE_ONE: int := -1
  const POSITIVE_ONE: int := 1
  const ZERO: int := 0

  /** What an oscillator holds: its current value and whether it is active. */
  datatype OscillatorState = OscillatorState(value: int, active: bool)

  /** The public calls a client can make on a constructed oscillator. */
  datatype Call = Oscillate | GetValue | GetActive | Deactivate

  /** What the code does on a call. It checks no precondition itself: no
      call changes the magnitude of the value or makes a zero value of a
      non-zero one, only Oscillate changes the value, only Deactivate
      changes the flag, and no call sets it. */
  function Apply(s: OscillatorState, c: Call): (r: OscillatorState)
    ensures r.value == s.value || r.value == -s.value
    ensures s.value != ZERO ==> r.value != ZERO
    ensures c != Oscillate ==> r.value == s.value
    ensures c != Deactivate ==> r.active == s.active
    ensures r.active ==> s.active
  {
    match c
    case Oscillate => s.(value := NEGATIVE_ONE * s.value)
    case Deactivate => s.(active := false)
    case GetValue => s
    case GetActive => s
  }

  /** The documented precondition of each call: Oscillate and Deactivate
      only while active, the getters always. */
  predicate Permitted(s: OscillatorState, c: Call)
    ensures (c == GetValue || c == GetActive) ==> Permitted(s, c)
    ensures !s.active ==> (Permitted(s, c) <==> c == GetValue || c == GetActive)
  {
    match c
    case Oscillate => s.active
    case Deactivate => s.active
    case GetValue => true
    case GetActive => true
  }

  /** The state after making `calls` in order, or None when one of them is
      made while its precondition does not hold. */
  function Run(s: OscillatorState, calls: seq<Call>): (r: Option<OscillatorState>)
    ensures r.Some? && r.value.active ==> s.active
    decreases |calls|
  {
    if calls == [] then Some(s)
    else if !Permitted(s, calls[0]) then None
    else Run(Apply(s, calls[0]), calls[1..])
  }

  /** The number of Oscillate calls in `calls`. */
  function Oscillations(calls: seq<Call>): nat
    decreases |calls|
  {
    if calls == [] then 0
    else (if calls[0] == Oscillate then 1 else 0) + Oscillations(calls[1..])
  }

  /** The interface invariant: the constructed value is non-zero, and the
      current value is that value or its opposite. */
  predicate Invariant(initial: int, s: OscillatorState)
    ensures Invariant(initial, s) ==> s.value != ZERO
    ensures Invariant(initial, s) ==> s.value * s.value == initial * initial
  {
    initial != ZERO && (s.value == initial || s.value == -initial)
  }

  /** Every permitted sequence of calls keeps the value at the constructed
      value or its opposite, so it never changes magnitude and is never 0. */
  lemma {:induction false} RunPreservesInvariant(initial: int, s: OscillatorState, calls: seq<Call>)
    requires Invariant(initial, s)
    ensures Run(s, calls).Some? ==> Invariant(initial, Run(s, calls).value)
    ensures Run(s, calls).Some? ==> Run(s, calls).value.value != ZERO
    decreases |calls|
  {
    if calls != [] && Permitted(s, calls[0]) {
      RunPreservesInvariant(initial, Apply(s, calls[0]), calls[1..]);
    }
  }

  /** The value after a permitted sequence of calls is the starting value
      after an even number of Oscillate calls, and its opposite after an odd
      number. */
  lemma {:induction false} RunValue(s: OscillatorState, calls: seq<Call>)
    requires Run(s, calls).Some?
    ensures Run(s, calls).value.value ==
      if Oscillations(calls) % 2 == 0 then s.value else -s.value
    decreases |calls|
  {
    if calls != [] {
      RunValue(Apply(s, calls[0]), calls[1..]);
    }
  }

  /** Oscillating twice returns to the starting value (5 becomes -5 becomes 5). */
  lemma OscillateTwice(s: OscillatorState)
    requires s.active
    ensures Run(s, [Oscillate, Oscillate]) == Some(s)
  {
  }

  /** After a permitted sequence of calls the oscillator is active exactly
      when it was active at the start and Deactivate was never called: no
      call re-activates it. */
  lemma {:induction false} RunActive(s: OscillatorState, calls: seq<Call>)
    requires Run(s, calls).Some?
    ensures Run(s, calls).value.active <==> s.active && Deactivate !in calls
    decreases |calls|
  {
    if calls != [] {
      RunActive(Apply(s, calls[0]), calls[1..]);
      assert calls == [calls[0]] + calls[1..];
    }
  }

  /** An inactive oscillator admits exactly the sequences that make neither
      an Oscillate nor a Deactivate call, and those leave its state alone. */
  lemma {:induction false} InactiveIsFrozen(s: OscillatorState, calls: seq<Call>)
    requires !s.active
    ensures Run(s, calls).Some? <==> Oscillate !in calls && Deactivate !in calls
    ensures Run(s, calls).Some? ==> Run(s, calls).value == s
    decreases |calls|
  {
    if calls != [] {
      InactiveIsFrozen(s, calls[1..]);
      assert calls == [calls[0]] + calls[1..];
    }
  }

  /** An oscillator object. `initial` is the value it was constructed with:
      the value is only ever that value or its opposite. */
  class Oscillator {
    var value: int
    var isActive: bool
    ghost var initial: int

    /** The state the object holds, as the value layer sees it. */
    ghost function State(): OscillatorState
      reads this
    {
      OscillatorState(value, isActive)
    }

    /** The object invariant. */
    ghost predicate Valid()
      reads this
    {
      Invariant(initial, State())
    }

    /** A new oscillator is active and holds `incVal`, which must be non-zero. */
    constructor (incVal: int)
      requires incVal != ZERO
      ensures Valid() && initial == incVal
      ensures value == incVal && isActive
    {
      value := incVal;
      isActive := true;
      initial := incVal;
    }

    /** The sign of the value, 1 or -1; a zero value counts as negative. */
    method SignHelper() returns (r: int)
      ensures r == POSITIVE_ONE || r == NEGATIVE_ONE
      ensures r == POSITIVE_ONE <==> value > ZERO
      ensures Valid() ==> r * value > ZERO
    {
      if value > ZERO {
        r := POSITIVE_ONE;
      } else {
        r := NEGATIVE_ONE;
      }
    }

    /** Changes the sign of the value; only allowed while active. */
    method Oscillate()
      requires Valid() && isActive
      modifies this
      ensures Valid() && initial == old(initial)
      ensures State() == Apply(old(State()), Call.Oscillate)
      ensures value == -old(value) && value != old(value)
      ensures isActive == old(isActive)
    {
      value := NEGATIVE_ONE * value;
    }

    /** The current value; allowed in either state. */
    method GetValue() returns (v: int)
      ensures v == value
      ensures Valid() ==> v != ZERO && (v == initial || v == -initial)
    {
      v := value;
    }

    /** Whether the oscillator is active; allowed in either state. */
    method GetActive() returns (a: bool)
      ensures a == isActive
    {
      a := isActive;
    }

    /** Makes the oscillator inactive for good; only allowed while active. */
    method Deactivate()
      requires Valid() && isActive
      modifies this
      ensures Valid() && initial == old(initial)
      ensures State() == Apply(old(State()), Call.Deactivate)
      ensures !isActive && value == old(value)
    {
      isActive := false;
    }
  }

  /** A client of the class: 5 becomes -5 becomes 5, for any non-zero start. */
  method OscillateTwiceRestores(incVal: int) returns (first: int, second: int)
    requires incVal != ZERO
    ensures first == -incVal && second == incVal
  {
    var o := new Oscillator(incVal);
    o.Oscillate();
    first := o.GetValue();
    o.Oscillate();
    second := o.GetValue();
  }

  /** A client of the class: after Deactivate the value can still be read,
      and it is the one held before. */
  method ReadAfterDeactivate(incVal: int) returns (v: int, active: bool)
    requires incVal != ZERO
    ensures v == -incVal && !active
  {
    var o := new Oscillator(incVal);
    o.Oscillate();
    o.Deactivate();
    v := o.GetValue();
    active := o.GetActive();
  }
}
