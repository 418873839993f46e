/** The `Takeable<T>` wrapper: a slot that always holds one value, except that a
    closure may take the value out by ownership and hand a new one back. When
    that closure panics the value is never handed back and the wrapper becomes
    permanently unusable. */
module Takeable {

  /** Rust's `Option<T>`, the representation of the slot. */
  datatype Option<T> = None | Some(value: T)

  /** How a caller-supplied closure ends: it returns normally, or it panics and unwinds. */
  datatype Outcome<X> = Returned(value: X) | Panicked

  /** The two panics an operation on the wrapper can end in. */
  datatype Error =
    | NotUsable        // the wrapper's own `expect` on an empty slot, with NotUsableMessage
    | ClosurePanicked  // the closure's panic, propagated to the caller unchanged

  /** A call that either completes with a value or panics with an Error. */
  datatype Result<X> = Ok(value: X) | Err(error: Error)

  /** The message every accessor panics with on an empty slot. */
  const NotUsableMessage: string :=
    "Takeable is not usable after a panic occurred in borrow or borrow_result"

  /** `Option::expect` with NotUsableMessage: the held value, or a NotUsable panic. */
  function Expect<X>(slot: Option<X>): (r: Result<X>)
    ensures r.Ok? <==> slot.Some?
    ensures r.Ok? ==> slot == Some(r.value)
    ensures r.Err? ==> r.error == NotUsable
  {
    match slot
    case Some(v) => Ok(v)
    case None => Err(NotUsable)
  }

  /** What `as_mut` followed by the caller's writes through the returned
      reference does to the slot, and what the reference finally designates. */
  function AsMutSpec<T>(slot: Option<T>, edit: T -> T): (s: (Option<T>, Result<T>))
    ensures s.0.Some? <==> slot.Some?
    // the caller's writes through the reference land in the slot
    ensures slot.Some? ==> s.0 == Some(edit(slot.value))
    ensures s.1 == Expect(s.0)
  {
    match slot
    case None => (None, Err(NotUsable))
    case Some(v) => (Some(edit(v)), Ok(edit(v)))
  }

  /** What `borrow_result` does to the slot, and what the call yields. */
  function BorrowResultSpec<T, R>(slot: Option<T>, f: T -> Outcome<(T, R)>): (s: (Option<T>, Result<R>))
    // the wrapper is usable afterwards exactly when it was usable and the closure returned
    ensures s.0.Some? <==> slot.Some? && f(slot.value).Returned?
    // the call completes exactly when the wrapper is still usable afterwards
    ensures s.1.Ok? <==> s.0.Some?
    // an unusable wrapper panics at the `expect`; a usable one only with the closure's panic
    ensures s.1.Err? ==> s.1.error == (if slot.None? then NotUsable else ClosurePanicked)
  {
    match slot
    case None => (None, Err(NotUsable))
    case Some(v) =>
      match f(v)
      case Panicked => (None, Err(ClosurePanicked))
      case Returned((next, result)) => (Some(next), Ok(result))
  }

  /** The closure `|v| (f(v), ())` that `borrow` hands to `borrow_result`;
      a panic of `f` propagates through it. */
  function WithUnit<T>(f: T -> Outcome<T>): T -> Outcome<(T, ())>
  {
    v => match f(v)
         case Returned(next) => Returned((next, ()))
         case Panicked => Panicked
  }

  /** What `borrow` does to the slot: `borrow_result` with a unit result. */
  function BorrowSpec<T>(slot: Option<T>, f: T -> Outcome<T>): (s: (Option<T>, Result<()>))
    ensures s.0.Some? <==> slot.Some? && f(slot.value).Returned?
    ensures s.0.Some? ==> s.0.value == f(slot.value).value
    ensures s.1.Ok? <==> s.0.Some?
    ensures s.1.Err? ==> s.1.error == (if slot.None? then NotUsable else ClosurePanicked)
  {
    BorrowResultSpec(slot, WithUnit(f))
  }

  /** A closure that always returns normally with `h` of its argument. */
  function Total<T>(h: T -> T): T -> Outcome<T>
  {
    v => Returned(h(v))
  }

  /** A normal return of the closure with `(next, result)` yields `result`
      and leaves `next` in a still usable wrapper. */
  lemma BorrowResultRoundTrip<T, R>(v: T, f: T -> Outcome<(T, R)>, next: T, result: R)
    requires f(v) == Returned((next, result))
    ensures BorrowResultSpec(Some(v), f) == (Some(next), Ok(result))
  {
  }

  /** A panicking closure propagates its panic and leaves the wrapper unusable. */
  lemma PanicLeavesUnusable<T, R>(v: T, f: T -> Outcome<(T, R)>)
    requires f(v).Panicked?
    ensures BorrowResultSpec(Some(v), f) == (None, Err(ClosurePanicked))
  {
  }

  /** On an unusable wrapper `borrow_result` panics at the `expect`, whatever the closure. */
  lemma UnusableRejectsBorrow<T, R>(f: T -> Outcome<(T, R)>)
    ensures BorrowResultSpec(None, f) == (None, Err(NotUsable))
  {
  }

  /** `borrow(f)` with a closure that returns leaves `f(v)` in the slot and yields `()`. */
  lemma BorrowUpdates<T>(v: T, f: T -> T)
    ensures BorrowSpec(Some(v), Total(f)) == (Some(f(v)), Ok(()))
  {
  }

  /** `borrow(f); borrow(g)` leaves `g(f(v))`. */
  lemma BorrowComposes<T>(v: T, f: T -> T, g: T -> T)
    ensures BorrowSpec(BorrowSpec(Some(v), Total(f)).0, Total(g)) == (Some(g(f(v))), Ok(()))
  {
    BorrowUpdates(v, f);
    BorrowUpdates(f(v), g);
  }

  /** The wrapper. `value` is `Some` outside of `BorrowResult` unless a closure
      given to `Borrow` or `BorrowResult` panicked; then it is `None` for good. */
  class Takeable<T> {
    var value: Option<T>

    /** `Takeable::new`: a usable wrapper holding `v`. */
    constructor (v: T)
      ensures value == Some(v)
      ensures IsUsable() && AsRef() == Ok(v)
    {
      value := Some(v);
    }

    /** The derived `Default`, as written: the slot starts empty. */
    constructor DefaultAsWritten()
      ensures value == None
      ensures !IsUsable()
    {
      value := None;
    }

    /** `Default` as the documentation promises it: `new(T::default())`. */
    constructor DefaultCorrected(default: T)
      ensures value == Some(default)
      ensures IsUsable()
    {
      value := Some(default);
    }

    /** `is_usable`: never panics, reads only, and holds exactly when the accessors succeed. */
    function IsUsable(): (b: bool)
      reads this
      ensures b <==> AsRef().Ok?
    {
      value.Some?
    }

    /** `as_ref`: the held value, or a NotUsable panic on an empty slot. */
    function AsRef(): (r: Result<T>)
      reads this
      ensures r.Ok? <==> value.Some?
      ensures r.Ok? ==> value == Some(r.value)
      ensures r.Err? ==> r.error == NotUsable
    {
      Expect(value)
    }

    /** `Deref::deref`: the same access as `as_ref`. */
    function Deref(): (r: Result<T>)
      reads this
      ensures r.Ok? <==> IsUsable()
      ensures r.Ok? ==> value == Some(r.value)
      ensures r.Err? ==> r.error == NotUsable
    {
      AsRef()
    }

    /** `as_mut`, followed by the caller's writes `edit` through the returned
        reference; returns what the reference designates afterwards. */
    method AsMut(edit: T -> T) returns (r: Result<T>)
      modifies this
      ensures (value, r) == AsMutSpec(old(value), edit)
      ensures IsUsable() == old(IsUsable())
    {
      match value
      case None =>
        r := Err(NotUsable);
      case Some(v) =>
        value := Some(edit(v));
        r := Ok(edit(v));
    }

    /** `DerefMut::deref_mut`: the same access as `as_mut`. */
    method DerefMut(edit: T -> T) returns (r: Result<T>)
      modifies this
      ensures (value, r) == AsMutSpec(old(value), edit)
    {
      r := AsMut(edit);
    }

    /** `into_inner`: the held value, or a NotUsable panic on an empty slot. */
    method IntoInner() returns (r: Result<T>)
      ensures r.Ok? <==> IsUsable()
      ensures r.Ok? ==> value == Some(r.value)
      ensures r.Err? ==> r.error == NotUsable
    {
      r := Expect(value);
    }

    /** The write-back `self.value = Some(new)`. It always finds the slot
        empty, the condition the unchecked `write_none` relies on. */
    method Refill(next: T)
      requires value.None?
      modifies this
      ensures value == Some(next)
    {
      value := Some(next);
    }

    /** `borrow_result`: take the value out, hand it to `f`, and put back what
        `f` returns. A panic in `f` skips the write-back and leaves the slot empty. */
    method BorrowResult<R>(f: T -> Outcome<(T, R)>) returns (r: Result<R>)
      modifies this
      ensures (value, r) == BorrowResultSpec(old(value), f)
      ensures IsUsable() ==> old(IsUsable())
    {
      var taken := value;  // `self.value.take()`
      value := None;
      match taken
      case None =>
        r := Err(NotUsable);
      case Some(v) =>
        match f(v)
        case Panicked =>
          r := Err(ClosurePanicked);
        case Returned((next, result)) =>
          Refill(next);
          r := Ok(result);
    }

    /** `borrow`: `borrow_result` with the closure `|v| (f(v), ())`. */
    method Borrow(f: T -> Outcome<T>) returns (r: Result<()>)
      modifies this
      ensures (value, r) == BorrowSpec(old(value), f)
    {
      r := BorrowResult(WithUnit(f));
    }
  }
}
