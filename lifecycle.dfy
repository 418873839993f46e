/** Histories of calls on one wrapper: the two-state machine Usable (`Some`)
    and Unusable (`None`), where Unusable is terminal. */
module Lifecycle {
  import opened Takeable

  /** One call on a wrapper that is still owned. `into_inner` is not among
      them: it consumes the wrapper, so it can only end a history. */
  datatype Op<!T, R> =
    | IsUsableOp
    | AsRefOp                                   // also `deref`
    | AsMutOp(edit: T -> T)                     // also `deref_mut`
    | BorrowOp(f: T -> Outcome<T>)
    | BorrowResultOp(g: T -> Outcome<(T, R)>)

  /** How one call ended. */
  datatype Status = Done | Failed(error: Error)

  function StatusOf<X>(r: Result<X>): (st: Status)
    ensures st.Done? <==> r.Ok?
    ensures st.Failed? ==> st.error == r.error
  {
    match r
    case Ok(_) => Done
    case Err(e) => Failed(e)
  }

  /** The slot after one call, and how the call ended. */
  function Step<T, R>(slot: Option<T>, op: Op<T, R>): (s: (Option<T>, Status))
    // no call turns an empty slot into a full one
    ensures s.0.Some? ==> slot.Some?
    // on an unusable wrapper every call but `is_usable` panics at the `expect`
    ensures slot.None? ==> s.1 == if op.IsUsableOp? then Done else Failed(NotUsable)
    // on a usable wrapper a call fails only by the closure's panic, which empties the slot
    ensures slot.Some? ==> (s.1.Done? <==> s.0.Some?)
    ensures slot.Some? && s.1.Failed? ==> s.1.error == ClosurePanicked
  {
    match op
    case IsUsableOp => (slot, Done)
    case AsRefOp => (slot, StatusOf(Expect(slot)))
    case AsMutOp(edit) =>
      var (next, r) := AsMutSpec(slot, edit);
      (next, StatusOf(r))
    case BorrowOp(f) =>
      var (next, r) := BorrowSpec(slot, f);
      (next, StatusOf(r))
    case BorrowResultOp(g) =>
      var (next, r) := BorrowResultSpec(slot, g);
      (next, StatusOf(r))
  }

  /** The slot after a history of calls, and how each call ended. */
  function Run<T, R>(slot: Option<T>, ops: seq<Op<T, R>>): (h: (Option<T>, seq<Status>))
    ensures |h.1| == |ops|
    // the wrapper ends usable only if it started usable
    ensures h.0.Some? ==> slot.Some?
    decreases |ops|
  {
    if |ops| == 0 then (slot, [])
    else
      var (next, status) := Step(slot, ops[0]);
      var (last, rest) := Run(next, ops[1..]);
      (last, [status] + rest)
  }

  /** Unusable is absorbing: from an empty slot the slot stays empty and
      every call except `is_usable` panics with NotUsable. */
  lemma {:induction false} UnusableIsAbsorbing<T, R>(ops: seq<Op<T, R>>)
    ensures Run(None, ops).0 == None
    ensures forall i :: 0 <= i < |ops| ==>
      Run(None, ops).1[i] == if ops[i].IsUsableOp? then Done else Failed(NotUsable)
    decreases |ops|
  {
    if |ops| > 0 {
      UnusableIsAbsorbing(ops[1..]);
      forall i | 0 < i < |ops|
        ensures Run(None, ops).1[i] == if ops[i].IsUsableOp? then Done else Failed(NotUsable)
      {
        assert ops[1..][i - 1] == ops[i];
      }
    }
  }

  /** A usable wrapper whose closures never panic stays usable, and every call completes. */
  lemma {:induction false} NoPanicKeepsUsable<T, R>(v: T, ops: seq<Op<T, R>>)
    requires forall i, x :: 0 <= i < |ops| && ops[i].BorrowOp? ==> ops[i].f(x).Returned?
    requires forall i, x :: 0 <= i < |ops| && ops[i].BorrowResultOp? ==> ops[i].g(x).Returned?
    ensures Run(Some(v), ops).0.Some?
    ensures forall i :: 0 <= i < |ops| ==> Run(Some(v), ops).1[i] == Done
    decreases |ops|
  {
    if |ops| > 0 {
      var (next, status) := Step(Some(v), ops[0]);
      if ops[0].BorrowOp? {
        assert ops[0].f(v).Returned?;
      } else if ops[0].BorrowResultOp? {
        assert ops[0].g(v).Returned?;
      }
      assert next.Some?;
      assert forall i :: 0 <= i < |ops| - 1 ==> ops[1..][i] == ops[i + 1];
      NoPanicKeepsUsable(next.value, ops[1..]);
    }
  }

  /** A wrapper that starts usable ends usable exactly when no call in the history failed. */
  lemma {:induction false} EndsUsableIffNothingFailed<T, R>(v: T, ops: seq<Op<T, R>>)
    ensures Run(Some(v), ops).0.Some? <==>
      forall i :: 0 <= i < |ops| ==> Run(Some(v), ops).1[i] == Done
    decreases |ops|
  {
    if |ops| > 0 {
      var (next, status) := Step(Some(v), ops[0]);
      var t := Run(next, ops[1..]);
      var h := Run(Some(v), ops);
      assert h == (t.0, [status] + t.1);
      if next.Some? {
        EndsUsableIffNothingFailed(next.value, ops[1..]);
        if h.0.Some? {
          forall i | 0 <= i < |ops|
            ensures h.1[i] == Done
          {
            if i > 0 {
              assert h.1[i] == t.1[i - 1];
            }
          }
        } else {
          var k :| 0 <= k < |t.1| && t.1[k] != Done;
          assert h.1[k + 1] == t.1[k];
        }
      } else {
        assert h.1[0] == status;
      }
    }
  }

  /** After a closure panics at call `i`, the wrapper ends unusable and every
      later call except `is_usable` panics with NotUsable. */
  lemma {:induction false} PanicIsFinal<T, R>(slot: Option<T>, ops: seq<Op<T, R>>, i: nat)
    requires i < |ops|
    requires Run(slot, ops).1[i] == Failed(ClosurePanicked)
    ensures Run(slot, ops).0 == None
    ensures forall j :: i < j < |ops| ==>
      Run(slot, ops).1[j] == if ops[j].IsUsableOp? then Done else Failed(NotUsable)
    decreases |ops|
  {
    var (next, status) := Step(slot, ops[0]);
    var t := Run(next, ops[1..]);
    assert Run(slot, ops).1 == [status] + t.1;
    if i == 0 {
      UnusableIsAbsorbing(ops[1..]);
      forall j | 0 < j < |ops|
        ensures Run(slot, ops).1[j] == if ops[j].IsUsableOp? then Done else Failed(NotUsable)
      {
        assert ops[1..][j - 1] == ops[j];
      }
    } else {
      PanicIsFinal(next, ops[1..], i - 1);
      forall j | i < j < |ops|
        ensures Run(slot, ops).1[j] == if ops[j].IsUsableOp? then Done else Failed(NotUsable)
      {
        assert ops[1..][j - 1] == ops[j];
      }
    }
  }
}
