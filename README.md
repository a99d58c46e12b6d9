# Oscillator and Magnifier, modelled in Dafny

This project models the two small design-by-contract classes of the
repository:

- **Oscillator** (`Oscillator.cs`) holds a non-zero integer and an active flag.
  `Oscillate` changes the sign of the value, `SignHelper` gives the sign as 1
  or -1, the getters read the fields, and `Deactivate` makes the object
  inactive for good.
- **Magnifier** (`Magnifier.cs`) holds a non-zero integer value, a positive
  integer scale and an active flag. `Magnify` multiplies the value by the
  scale and may be repeated. `Set_Scalar` replaces the scale. The getters
  read the fields. `Deactivate` is one-way.

The C# source writes the contracts as comments and never checks them at run
time. The model keeps the code's behaviour and the documented contract
apart:

- `Apply` is what the code does on a call. It checks nothing.
- `Permitted` is the documented precondition of each call.
- `Run` gives the state after a sequence of calls. It is `None` as soon as
  one call is made while its precondition does not hold.

The interface invariants are lemmas over every call sequence `Run`
accepts. The classes `Oscillators.Oscillator` and `Magnifiers.Magnifier`
are the objects themselves. Their fields are updated in place, and their
methods require the documented preconditions. Each mutating method's
postcondition ties the new `State()` to `Apply` of the old one. A ghost
field `initial` records the constructed value. In the magnifier, a ghost
sequence `factors` records every scale that `Magnify` has applied, so the
object invariant can say that the value is `initial` times their product.

Files:
- `options.dfy`: the `Option` type.
- `oscillator.dfy`: module `Oscillators`.
- `magnifier.dfy`: module `Magnifiers`.

C# names are written in Dafny style: `Get_Value` becomes `GetValue`,
`Set_Scalar` becomes `SetScalar`, and the fields `is_active` become
`isActive`.

## Model

| member | source | states |
|---|---|---|
| `Oscillators.Apply` | Oscillator.cs:84-120 | what each public method does to (value, active), unchecked: `Oscillate` negates the value, `Deactivate` clears the flag, the getters change nothing; no call changes the value's magnitude, turns a non-zero value into 0, or sets the flag |
| `Oscillators.Permitted` | Oscillator.cs:53-56 | the documented preconditions (also Oscillator.cs:81 and :114): `Oscillate` and `Deactivate` only while active, the getters always; on an inactive oscillator exactly the getters are permitted |
| `Oscillators.Invariant` | Oscillator.cs:59-63 | the interface invariant: the constructed value is non-zero and the current value is it or its opposite; it implies the value is non-zero and has the constructed value's magnitude |
| `Oscillators.Run` | Oscillator.cs:49-63 | the state after a call sequence, `None` once a call breaks its precondition; an accepted sequence never turns an inactive oscillator active; what it does to the value is stated by `RunPreservesInvariant` and `RunValue` |
| `Oscillators.Oscillator.constructor` | Oscillator.cs:66-76 | given a non-zero value, the new oscillator is active, holds exactly that value and satisfies the invariant |
| `Oscillators.Oscillator.SignHelper` | Oscillator.cs:32-46 | returns 1 or -1; returns 1 exactly when the value is positive (so a zero value gives -1); under the invariant, result times value is positive; changes nothing |
| `Oscillators.Oscillator.Oscillate` | Oscillator.cs:78-87 | requires active; the new value is the negation of the old one and differs from it; the active flag is unchanged; the invariant is kept; the new state is `Apply` of the old one |
| `Oscillators.Oscillator.GetValue` | Oscillator.cs:89-98 | allowed in any state; returns the value, which under the invariant is non-zero and equal to the constructed value or its opposite; changes nothing |
| `Oscillators.Oscillator.GetActive` | Oscillator.cs:100-109 | allowed in any state; returns the active flag; changes nothing |
| `Oscillators.Oscillator.Deactivate` | Oscillator.cs:111-120 | requires active; afterwards inactive, with the value unchanged and the invariant kept |
| `Oscillators.RunPreservesInvariant` | Oscillator.cs:59-63 | every permitted call sequence keeps the value equal to the constructed value or its opposite, so it keeps its magnitude and is never 0 |
| `Oscillators.RunValue` | Oscillator.cs:59-62 | after a permitted call sequence, the value is the starting value after an even number of `Oscillate` calls and its opposite after an odd number |
| `Oscillators.OscillateTwice` | Oscillator.cs:8-9 | from an active state, two `Oscillate` calls return exactly to the starting state |
| `Oscillators.RunActive` | Oscillator.cs:51-58 | after a permitted call sequence, the oscillator is active if and only if it started active and `Deactivate` was never called; nothing re-activates it |
| `Oscillators.InactiveIsFrozen` | Oscillator.cs:55-58 | from an inactive state, a call sequence is permitted if and only if it contains no `Oscillate` and no `Deactivate`, and every permitted sequence leaves the state unchanged |
| `Oscillators.OscillateTwiceRestores` | Oscillator.cs:78-83 | a client that constructs with v and oscillates twice reads -v, then v |
| `Oscillators.ReadAfterDeactivate` | Oscillator.cs:55-56 | the value can still be read after `Deactivate`, and it is the value held before |
| `Magnifiers.Apply` | Magnifier.cs:65-113 | what each public method does to (value, scale, active), unchecked: `Magnify` multiplies the value by the scale, `Set_Scalar` replaces the scale, `Deactivate` clears the flag, the getters change nothing; a permitted call keeps the invariant and the value's sign, and no call sets the flag |
| `Magnifiers.Permitted` | Magnifier.cs:33-37 | the documented preconditions (also Magnifier.cs:62, :73-74 and :107): `Magnify`, `Set_Scalar` with a positive argument, and `Deactivate` only while active, the getters always; on an inactive magnifier exactly the getters are permitted |
| `Magnifiers.Invariant` | Magnifier.cs:40-41 | the interface invariant: a non-zero value and a positive scale; it implies the next magnified value is non-zero |
| `Magnifiers.Run` | Magnifier.cs:32-43 | the state after a call sequence, `None` once a call breaks its precondition; an accepted sequence keeps a positive scale positive and never turns an inactive magnifier active |
| `Magnifiers.Magnifier.constructor` | Magnifier.cs:45-57 | given a non-zero value and a positive scale, the new magnifier is active, holds exactly those two, has applied no factors yet and satisfies the invariant |
| `Magnifiers.Magnifier.Magnify` | Magnifier.cs:59-68 | requires active; the new value is the old value times the scale; the scale and the active flag are unchanged; the scale is added to the applied factors; the invariant is kept |
| `Magnifiers.Magnifier.SetScalar` | Magnifier.cs:70-80 | requires active and a positive argument; the scale becomes the argument; the value and the active flag are unchanged; the invariant is kept |
| `Magnifiers.Magnifier.GetValue` | Magnifier.cs:82-91 | allowed in any state; returns the value, which under the invariant is non-zero and has the sign of the constructed value; changes nothing |
| `Magnifiers.Magnifier.GetActive` | Magnifier.cs:93-102 | allowed in any state; returns the active flag; changes nothing |
| `Magnifiers.Magnifier.Deactivate` | Magnifier.cs:104-113 | requires active; afterwards inactive, with the value and the scale unchanged |
| `Magnifiers.RunPreservesInvariant` | Magnifier.cs:38-41 | every permitted call sequence keeps the value non-zero and the scale positive, and keeps the sign of the value |
| `Magnifiers.RepeatedMagnify` | Magnifier.cs:7-8 | from an active state, n `Magnify` calls make the value the start value times scale^n and change nothing else |
| `Magnifiers.RunActive` | Magnifier.cs:33-35 | after a permitted call sequence, the magnifier is active if and only if it started active and `Deactivate` was never called |
| `Magnifiers.InactiveIsFrozen` | Magnifier.cs:36-43 | from an inactive state, a call sequence is permitted if and only if it contains no `Magnify`, `Set_Scalar` or `Deactivate` call, and every permitted sequence leaves value, scale and flag unchanged |
| `Magnifiers.ProductPositive` | Magnifier.cs:40-41 | a product of positive scales is positive, which is what keeps the value non-zero and keeps its sign |
| `Magnifiers.MagnifyAndRescale` | Magnifier.cs:59-80 | a client that magnifies twice by k and then once by k2 after `Set_Scalar(k2)` reads v·k·k, then v·k·k·k2 |
| `Magnifiers.ReadAfterDeactivate` | Magnifier.cs:82-113 | the magnified value can still be read after `Deactivate`, and it is the value held before |

Notes on the source:
- The constructor comment gives both the value and the scalar as "non-zero"
  (Magnifier.cs:49). The interface invariant asks for a positive scalar
  (Magnifier.cs:41). The model requires a positive scalar, as `Set_Scalar`
  does.
- The code never checks these preconditions. Outside the contract,
  `Oscillate` still flips the sign of an inactive oscillator, and `Magnify`
  still multiplies. `Apply` models exactly that, and `Permitted` and `Run`
  rule those calls out.
- The Magnifier comments call `value` "the stored initial value"
  (Magnifier.cs:23) and say that `Get_Value` "Returns the magnified value"
  (Magnifier.cs:38-39, 83). The code of `Get_Value` (Magnifier.cs:88-91)
  returns the stored field. Right after construction that is `inc_val`, not
  `inc_val * inc_scalar`. The value is multiplied only by `Magnify`. The
  model follows the code: `GetValue` returns the field, and the constructor
  stores `incVal` unchanged.

## Left out

- `BlockOfficeAPI.cs`: every method is a stateless HTTP round trip with JSON parsing and a lock around shared headers. It keeps no client-side state worth modelling.
- `pokeguesser.py` and `lambda.py`: a chat bot and a prediction handler around image decoding and a trained model, all I/O and floating point.
- `MagnifierInterface`: its source is not part of this model. Any contract of its own, beyond what `Magnifier.cs` states, is not captured.
- Overriding `Oscillate` in descendant classes (Oscillator.cs:16-17): the descendants are not shown, so only the base behaviour is modelled.
- 32-bit integer width: values are unbounded `int`. C# `int` wraparound is not modelled. With wraparound, negating `int.MinValue` gives `int.MinValue` again, and `value * scale` can overflow, even to 0.
- C# access modifiers (`protected`, `private`) have no Dafny counterpart. The fields are ordinary class fields.
