# Takeable in Dafny

A model of the Rust crate `takeable`. The crate has one type, `Takeable<T>`: a
wrapper that always holds a single `T`. Its `borrow` and `borrow_result` calls
move the value out by ownership, hand it to a closure and put back whatever the
closure returns. The wrapper stores its value in an `Option<T>` field. If the
closure panics, the write-back never runs and the field stays `None`. From then
on the wrapper is unusable, and every call except `is_usable` panics with
"Takeable is not usable after a panic occurred in borrow or borrow_result".

The model has three modules:

- `Takeable` (takeable.dfy) has the data model and the wrapper.
  - `Option`, `Outcome` and `Result` are datatypes. `Outcome` says how a closure ended: `Returned` or `Panicked`. `Result` says how a call ended: a value, or a panic of kind `Error`.
  - `Error` has two kinds. `NotUsable` is the wrapper's own `expect` failure. `ClosurePanicked` is the closure's panic, passed on to the caller.
  - Spec functions give the effect of each operation on the slot: `Expect`, `AsMutSpec`, `BorrowResultSpec` and `BorrowSpec`.
  - The class `Takeable` holds the field `value`. `AsMut` and `DerefMut` end in the state and result of `AsMutSpec`, `BorrowResult` in those of `BorrowResultSpec`, and `Borrow` in those of `BorrowSpec`. `Refill`, the write-back, fills an empty slot. `IsUsable`, `AsRef`, `Deref` and `IntoInner` only read the field and state their results in terms of it. The constructors state the initial slot directly.
- `Lifecycle` (lifecycle.dfy) covers histories of calls on one wrapper. It proves by induction the two-state machine Usable/Unusable:
  - Unusable is absorbing.
  - A closure's panic is final.
  - A wrapper that starts usable ends usable exactly when no call failed.
- `Scenarios` (scenarios.dfy) replays the crate's tests `test_takeable` and `test_usable`, and the finding below.

In the crate, panics unwind the stack. Here they are explicit values. A closure
is a Dafny function value returning `Outcome`, and a call that would panic
returns `Err`.

## Model

| member | source | states |
|---|---|---|
| `Takeable.Expect` | src/lib.rs:61-63 | the accessors' `expect`: succeeds exactly on `Some`, returns the held value, and otherwise fails with NotUsable |
| `Takeable.AsMutSpec` | src/lib.rs:68-72 | `as_mut` fails exactly on an empty slot and never changes usability; on a held `v` the caller's writes `edit` land in the slot, which then holds `edit(v)`, and the reference designates the slot's new content |
| `Takeable.BorrowResultSpec` | src/lib.rs:93-103 | after `borrow_result` the wrapper is usable exactly when it was usable and the closure returned; the call completes exactly when the wrapper stays usable; the failure is NotUsable on an empty slot and the closure's panic otherwise |
| `Takeable.BorrowSpec` | src/lib.rs:84-89 | `borrow` keeps the wrapper usable exactly when the closure returns, and then the slot holds the closure's result; the call completes exactly when the wrapper stays usable, and otherwise fails with NotUsable on an empty slot or with the closure's panic |
| `Takeable.BorrowResultRoundTrip` | src/lib.rs:97-102 | a closure returning `(next, result)` on `v` makes the call yield `result` and leaves `Some(next)` |
| `Takeable.PanicLeavesUnusable` | src/lib.rs:36-40 | a panicking closure propagates its panic and leaves the slot `None` |
| `Takeable.UnusableRejectsBorrow` | src/lib.rs:97-99 | on an empty slot `borrow_result` fails with NotUsable, whatever the closure, and the slot stays `None` |
| `Takeable.BorrowUpdates` | src/lib.rs:84-89 | `borrow(f)` on `v` leaves `f(v)` and completes |
| `Takeable.BorrowComposes` | src/lib.rs:84-89 | `borrow(f); borrow(g)` on `v` leaves `g(f(v))` |
| `Takeable.Takeable.constructor` | src/lib.rs:54-56 | `new(v)` holds `Some(v)`, is usable, and `as_ref` returns `v` |
| `Takeable.Takeable.IsUsable` | src/lib.rs:110-112 | `is_usable` never fails, reads only, and is true exactly when the accessors succeed |
| `Takeable.Takeable.AsRef` | src/lib.rs:60-64 | `as_ref` returns the held value exactly when the slot is `Some`, fails with NotUsable otherwise, and changes nothing |
| `Takeable.Takeable.Deref` | src/lib.rs:115-121 | `deref` succeeds exactly when `is_usable` holds, returns the held value, and otherwise fails with NotUsable |
| `Takeable.Takeable.AsMut` | src/lib.rs:68-72 | `as_mut` with the caller's writes leaves the state given by `AsMutSpec` and keeps usability unchanged |
| `Takeable.Takeable.DerefMut` | src/lib.rs:123-128 | `deref_mut` has the same effect as `as_mut` |
| `Takeable.Takeable.IntoInner` | src/lib.rs:76-80 | `into_inner` returns the held value exactly when the wrapper is usable and otherwise fails with NotUsable |
| `Takeable.Takeable.Refill` | src/lib.rs:101 | the write-back is only ever made on an empty slot, which it fills with the closure's value |
| `Takeable.Takeable.BorrowResult` | src/lib.rs:93-103 | empties the slot, calls the closure and writes back only on normal return; the new state and result are those of `BorrowResultSpec`, and the call never makes an unusable wrapper usable |
| `Takeable.Takeable.Borrow` | src/lib.rs:84-89 | `borrow` is `borrow_result` with the closure `|v| (f(v), ())`; the new state is that of `BorrowSpec` |
| `Takeable.Takeable.DefaultAsWritten` | src/lib.rs:43 | the derived `Default` starts with an empty slot, so the wrapper is unusable |
| `Takeable.Takeable.DefaultCorrected` | src/lib.rs:105-108 | a default built as `new(T::default())` starts usable |
| `Lifecycle.Step` | src/lib.rs:36-40 | no call refills an empty slot; on an empty slot every call but `is_usable` fails with NotUsable; on a usable one a call fails only by a closure panic, and that panic empties the slot |
| `Lifecycle.Run` | src/lib.rs:105-108 | a history reports one status per call, and a wrapper ends usable only if it started usable |
| `Lifecycle.UnusableIsAbsorbing` | src/lib.rs:36-40 | from an empty slot every history keeps it empty, and every call but `is_usable` fails with NotUsable |
| `Lifecycle.NoPanicKeepsUsable` | src/lib.rs:105-108 | a usable wrapper whose closures never panic stays usable, and every call completes |
| `Lifecycle.EndsUsableIffNothingFailed` | src/lib.rs:105-108 | a wrapper that starts usable ends usable exactly when no call in the history failed |
| `Lifecycle.PanicIsFinal` | src/lib.rs:36-42 | after a closure panic the wrapper ends unusable, and every later call but `is_usable` fails with NotUsable |
| `Scenarios.TakeableScenario` | src/lib.rs:134-145 | 42, incremented through `deref_mut`, `as_mut` and `borrow`, then `borrow_result(|n| (n + 1, n))` yields 45 and `into_inner` yields 46 |
| `Scenarios.UsableScenario` | src/lib.rs:147-169 | the panic of the `borrow` closure propagates; the wrapper that panicked is unusable and the untouched one is usable |
| `Scenarios.DefaultAsWrittenScenario` | src/lib.rs:43 | a derived default is unusable from the start, and its first access fails with NotUsable |
| `Scenarios.DefaultCorrectedScenario` | src/lib.rs:105-108 | the corrected default is usable and holds `T::default()` |

## Left out

- src/unsafe_primitives.rs is not part of this model. It is not declared as a module of the crate, and the crate denies `unsafe_code`. The condition its `write_none` relies on, an empty slot at the write-back, is the `requires` of `Takeable.Takeable.Refill`.
- Stack unwinding and `Drop`: a panic is the value `Panicked` or `Err(...)`, not a non-local exit. The promise that an unusable wrapper is safe to drop (src/lib.rs:42) has no counterpart beyond the `None` state being an ordinary value.
- The derived `Clone`, `Copy`, `Debug`, `Eq`, `PartialEq`, `Ord`, `PartialOrd` and `Hash` implementations (src/lib.rs:43) are boilerplate and not modelled. The derived `Default` appears only under Findings.
- Closures are pure function values, so their own side effects are not modelled. Re-entrant use of the wrapper from inside a closure is not modelled either; Rust's borrow of `&mut self` already rules it out.
- `Takeable.UnusableRejectsBorrow`: states the result and the final slot, but not that the closure is never called. The model's `BorrowResult` does not call it on an empty slot, but a pure closure call cannot be observed in a contract.
- `Takeable.Takeable.AsMut`: the `&mut T` it returns is modelled as an edit function the caller applies through the reference. Aliasing and later writes through the reference are not modelled.
- `Takeable.Takeable.IntoInner`: does not model that the call consumes the wrapper. Rust's move semantics rule out any later use, so the model leaves the field as it was.
- `Lifecycle.Run`: `into_inner` is not one of the history's calls, because it consumes the wrapper and can only end a history.
- The tests use `u32`; the model uses `int`, because every value in them stays far below 2^32.
- There is no permanent-extraction `take()`: this revision of src/lib.rs has none. The doc comment at src/lib.rs:107-108 says a panicking closure is the only way to become unusable, and the model follows the code.

## Findings

| source | as written | input that shows it | evidently intended | confidence | as-written member | corrected member |
|---|---|---|---|---|---|---|
| src/lib.rs:43 | `#[derive(Default)]` builds `Takeable { value: None }`, which is unusable from the start | `Takeable::<u32>::default()`: `is_usable()` is false and `as_ref()` panics | the doc comment at src/lib.rs:107-108 says a wrapper always starts usable, so a default should be `new(T::default())` | medium, not executed | `Scenarios.DefaultAsWrittenScenario` | `Scenarios.DefaultCorrectedScenario` |
