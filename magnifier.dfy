/** The Magnifier of Magnifier.cs: a non-zero integer value, a positive
    integer scale and an active flag. Magnify multiplies the value by the
    scale and may be applied repeatedly, Set_Scalar replaces the scale, and
    Deactivate clears the active flag for good.

    As for the oscillator, the value layer (MagnifierState, Call, Apply,
    Permitted, Run) states the interface invariants over every sequence of
    calls, and the class Magnifier is the object whose fields the methods
    update in place. */
module Magnifiers {
  import opened Options

  /** What a magnifier holds. */
  datatype MagnifierState = MagnifierState(value: int, scale: int, active: bool)

  /** The public calls a client can make on a constructed magnifier. */
  datatype Call = Magnify | SetScalar(incScalar: int) | GetValue | GetActive | Deactivate

  /** What the code does on a call. It checks no precondition itself: a
      permitted call keeps the invariant and the sign of the value, the
      getters change nothing, and no call sets the active flag. */
  function Apply(s: MagnifierState, c: Call): (r: MagnifierState)
    ensures Invariant(s) && Permitted(s, c) ==> Invariant(r) && (r.value > 0 <==> s.value > 0)
    ensures (c.GetValue? || c.GetActive?) ==> r == s
    ensures !c.Magnify? ==> r.value == s.value
    ensures r.active ==> s.active
  {
    match c
    case Magnify => s.(value := s.value * s.scale)
    case SetScalar(k) => s.(scale := k)
    case Deactivate => s.(active := false)
    case GetValue => s
    case GetActive => s
  }

  /** The documented precondition of each call: Magnify, Set_Scalar (with a
      positive argument) and Deactivate only while active, the getters always. */
  predicate Permitted(s: MagnifierState, c: Call)
    ensures (c.GetValue? || c.GetActive?) ==> Permitted(s, c)
    ensures !s.active ==> (Permitted(s, c) <==> c.GetValue? || c.GetActive?)
    ensures c.SetScalar? && Permitted(s, c) ==> c.incScalar > 0
  {
    match c
    case Magnify => s.active
    case SetScalar(k) => s.active && k > 0
    case Deactivate => s.active
    case GetValue => true
    case GetActive => true
  }

  /** The state after making `calls` in order, or None when one of them is
      made while its precondition does not hold. */
  function Run(s: MagnifierState, calls: seq<Call>): (r: Option<MagnifierState>)
    ensures r.Some? && r.value.active ==> s.active
    ensures r.Some? && s.scale > 0 ==> r.value.scale > 0
    decreases |calls|
  {
    if calls == [] then Some(s)
    else if !Permitted(s, calls[0]) then None
    else Run(Apply(s, calls[0]), calls[1..])
  }

  /** The interface invariant: a non-zero value and a positive scale. */
  predicate Invariant(s: MagnifierState)
    ensures Invariant(s) ==> s.value * s.scale != 0
  {
    s.value != 0 && s.scale > 0
  }

  /** A non-zero value times a positive scale is non-zero and keeps its sign. */
  lemma MagnifyKeepsSign(v: int, k: int)
    requires v != 0 && k > 0
    ensures v * k != 0 && (v * k > 0 <==> v > 0)
  {
  }

  /** Every permitted sequence of calls keeps the value non-zero, the scale
      positive, and the value's sign as it was. */
  lemma {:induction false} RunPreservesInvariant(s: MagnifierState, calls: seq<Call>)
    requires Invariant(s)
    ensures Run(s, calls).Some? ==> Invariant(Run(s, calls).value)
    ensures Run(s, calls).Some? ==> (Run(s, calls).value.value > 0 <==> s.value > 0)
    decreases |calls|
  {
    if calls != [] && Permitted(s, calls[0]) {
      if calls[0] == Magnify {
        MagnifyKeepsSign(s.value, s.scale);
      }
      RunPreservesInvariant(Apply(s, calls[0]), calls[1..]);
    }
  }

  /** `b` to the power `n`. */
  function Pow(b: int, n: nat): int
    decreases n
  {
    if n == 0 then 1 else b * Pow(b, n - 1)
  }

  /** `n` Magnify calls in a row. */
  function Magnifications(n: nat): seq<Call>
    decreases n
  {
    if n == 0 then [] else [Magnify] + Magnifications(n - 1)
  }

  /** Repeated magnification: from an active magnifier, n Magnify calls with
      a fixed scale leave the value at the starting value times scale^n and
      change nothing else. */
  lemma {:induction false} RepeatedMagnify(s: MagnifierState, n: nat)
    requires s.active
    ensures Run(s, Magnifications(n)) == Some(s.(value := s.value * Pow(s.scale, n)))
    decreases n
  {
    if n > 0 {
      var t := Apply(s, Magnify);
      assert Magnifications(n)[1..] == Magnifications(n - 1);
      RepeatedMagnify(t, n - 1);
      assert t.value * Pow(s.scale, n - 1) == s.value * Pow(s.scale, n) by {
        assert t.value == s.value * s.scale;
        assert Pow(s.scale, n) == s.scale * Pow(s.scale, n - 1);
      }
    }
  }

  /** After a permitted sequence of calls the magnifier is active exactly
      when it was active at the start and Deactivate was never called: no
      call re-activates it. */
  lemma {:induction false} RunActive(s: MagnifierState, calls: seq<Call>)
    requires Run(s, calls).Some?
    ensures Run(s, calls).value.active <==> s.active && Deactivate !in calls
    decreases |calls|
  {
    if calls != [] {
      RunActive(Apply(s, calls[0]), calls[1..]);
      assert calls == [calls[0]] + calls[1..];
    }
  }

  /** Whether `c` is one of the calls that change a magnifier. */
  predicate Mutates(c: Call)
  {
    c.Magnify? || c.SetScalar? || c.Deactivate?
  }

  /** An inactive magnifier admits exactly the sequences that make no
      Magnify, Set_Scalar or Deactivate call, and those leave its value,
      scale and state alone: it cannot be reset. */
  lemma {:induction false} InactiveIsFrozen(s: MagnifierState, calls: seq<Call>)
    requires !s.active
    ensures Run(s, calls).Some? <==> forall i :: 0 <= i < |calls| ==> !Mutates(calls[i])
    ensures Run(s, calls).Some? ==> Run(s, calls).value == s
    decreases |calls|
  {
    if calls != [] {
      InactiveIsFrozen(s, calls[1..]);
      assert forall i :: 1 <= i < |calls| ==> calls[i] == calls[1..][i - 1];
    }
  }

  /** The product of `factors`. */
  function Product(factors: seq<int>): int
    decreases |factors|
  {
    if factors == [] then 1 else Product(factors[..|factors| - 1]) * factors[|factors| - 1]
  }

  /** A product of positive factors is positive. */
  lemma {:induction false} ProductPositive(factors: seq<int>)
    requires forall i :: 0 <= i < |factors| ==> factors[i] > 0
    ensures Product(factors) > 0
    decreases |factors|
  {
    if factors != [] {
      var prefix := factors[..|factors| - 1];
      ProductPositive(prefix);
      MagnifyKeepsSign(Product(prefix), factors[|factors| - 1]);
    }
  }

  /** A magnifier object. `initial` is the value it was constructed with and
      `factors` the scales applied by the Magnify calls so far, so that the
      value is always the initial value times their product. */
  class Magnifier {
    var value: int
    var scale: int
    var isActive: bool
    ghost var initial: int
    ghost var factors: seq<int>

    /** The state the object holds, as the value layer sees it. */
    ghost function State(): MagnifierState
      reads this
    {
      MagnifierState(value, scale, isActive)
    }

    /** The object invariant. */
    ghost predicate Valid()
      reads this
    {
      Invariant(State()) && initial != 0 &&
      (forall i :: 0 <= i < |factors| ==> factors[i] > 0) &&
      value == initial * Product(factors)
    }

    /** A new magnifier is active and holds `incVal`, which must be non-zero,
        and `incScalar`, which must be positive. */
    constructor (incVal: int, incScalar: int)
      requires incVal != 0 && incScalar > 0
      ensures Valid() && initial == incVal && factors == []
      ensures value == incVal && scale == incScalar && isActive
    {
      value := incVal;
      scale := incScalar;
      isActive := true;
      initial := incVal;
      factors := [];
    }

    /** Multiplies the value by the scale; only allowed while active. */
    method Magnify()
      requires Valid() && isActive
      modifies this
      ensures Valid() && initial == old(initial)
      ensures factors == old(factors) + [old(scale)]
      ensures State() == Apply(old(State()), Call.Magnify)
      ensures value == old(value) * old(scale)
      ensures scale == old(scale) && isActive == old(isActive)
    {
      MagnifyKeepsSign(value, scale);
      value := value * scale;
      factors := factors + [scale];
      assert factors[..|factors| - 1] == old(factors);
    }

    /** Replaces the scale by `incScalar`, which must be positive; only
        allowed while active. */
    method SetScalar(incScalar: int)
      requires Valid() && isActive && incScalar > 0
      modifies this
      ensures Valid() && initial == old(initial) && factors == old(factors)
      ensures State() == Apply(old(State()), Call.SetScalar(incScalar))
      ensures scale == incScalar
      ensures value == old(value) && isActive == old(isActive)
    {
      scale := incScalar;
    }

    /** The magnified value; allowed in either state. It is never 0 and has
        the sign of the constructed value. */
    method GetValue() returns (v: int)
      ensures v == value
      ensures Valid() ==> v != 0 && (v > 0 <==> initial > 0)
    {
      v := value;
      if Valid() {
        ProductPositive(factors);
        MagnifyKeepsSign(initial, Product(factors));
      }
    }

    /** Whether the magnifier is active; allowed in either state. */
    method GetActive() returns (a: bool)
      ensures a == isActive
    {
      a := isActive;
    }

    /** Makes the magnifier inactive for good; only allowed while active. */
    method Deactivate()
      requires Valid() && isActive
      modifies this
      ensures Valid() && initial == old(initial) && factors == old(factors)
      ensures State() == Apply(old(State()), Call.Deactivate)
      ensures !isActive && value == old(value) && scale == old(scale)
    {
      isActive := false;
    }
  }

  /** A client of the class: magnifying twice, then once more after a new
      scale, multiplies the value by each scale in effect. */
  method MagnifyAndRescale(incVal: int, incScalar: int, newScalar: int) returns (twice: int, thrice: int)
    requires incVal != 0 && incScalar > 0 && newScalar > 0
    ensures twice == incVal * incScalar * incScalar
    ensures thrice == incVal * incScalar * incScalar * newScalar
  {
    var m := new Magnifier(incVal, incScalar);
    m.Magnify();
    m.Magnify();
    twice := m.GetValue();
    m.SetScalar(newScalar);
    m.Magnify();
    thrice := m.GetValue();
  }

  /** A client of the class: after Deactivate the magnified value can still
      be read, and it is the one held before. */
  method ReadAfterDeactivate(incVal: int, incScalar: int) returns (v: int, active: bool)
    requires incVal != 0 && incScalar > 0
    ensures v == incVal * incScalar && !active
  {
    var m := new Magnifier(incVal, incScalar);
    m.Magnify();
    m.Deactivate();
    v := m.GetValue();
    active := m.GetActive();
  }
}
