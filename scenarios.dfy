/** The crate's own test scenarios, replayed against the model. */
module Scenarios {
  import opened Takeable

  /** `test_takeable`: 42, incremented through `deref_mut`, through `as_mut`
      and by `borrow`, then `borrow_result(|n| (n + 1, n))` yields 45 and
      `into_inner` yields 46. */
  method TakeableScenario() returns (out: Result<int>, inner: Result<int>)
    ensures out == Ok(45)
    ensures inner == Ok(46)
  {
    var t := new Takeable<int>(42);
    var r := t.DerefMut(n => n + 1);
    assert t.Deref() == Ok(43);
    r := t.AsMut(n => n + 1);
    assert t.AsRef() == Ok(44);
    var u := t.Borrow(Total(n => n + 1));
    assert t.Deref() == Ok(45);
    out := t.BorrowResult(n => Returned((n + 1, n)));
    inner := t.IntoInner();
  }

  /** `test_usable`: of two wrappers, the one whose `borrow` closure panicked
      propagates the panic and is unusable; the untouched one is usable. */
  method UsableScenario() returns (propagated: Result<()>, untouchedUsable: bool, panickedUsable: bool)
    ensures propagated == Err(ClosurePanicked)
    ensures untouchedUsable && !panickedUsable
  {
    var drop1 := new Takeable<()>(());
    var drop2 := new Takeable<()>(());
    propagated := drop2.Borrow(_ => Panicked);
    untouchedUsable := drop1.IsUsable();
    panickedUsable := drop2.IsUsable();
  }

  /** The derived `Default`, as written, starts unusable, and the first access panics. */
  method DefaultAsWrittenScenario<T>() returns (usable: bool, access: Result<T>)
    ensures !usable
    ensures access == Err(NotUsable)
  {
    var t := new Takeable<T>.DefaultAsWritten();
    usable := t.IsUsable();
    access := t.AsRef();
  }

  /** The corrected `Default` starts usable and holds `T::default()`. */
  method DefaultCorrectedScenario<T>(default: T) returns (usable: bool, access: Result<T>)
    ensures usable
    ensures access == Ok(default)
  {
    var t := new Takeable<T>.DefaultCorrected(default);
    usable := t.IsUsable();
    access := t.AsRef();
  }
}
