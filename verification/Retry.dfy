/** Bounded retries: common/retry/operation.go. */
module Retry {
  datatype Attempt<+T> = Done(value: T) | Erred
  datatype Result<+T> = Succeeded(value: T) | Cancelled | GaveUp | NoAttempts

  const ATTEMPTS := 10

  // The outcome of attempts k, k + 1, ... below max.
  function Outcome<T>(k: nat, max: int, cancelled: nat -> bool, op: nat -> Attempt<T>): Result<T>
    decreases max - k
  {
    if k >= max then GaveUp
    else if cancelled(k) then Cancelled
    else if op(k).Done? then Succeeded(op(k).value)
    else Outcome(k + 1, max, cancelled, op)
  }

  // op(k) is the result of the k-th call; cancelled(k) says whether the context is over before it.
  method Do<T>(maxAttempts: int, cancelled: nat -> bool, op: nat -> Attempt<T>) returns (r: Result<T>)
    ensures r == if maxAttempts < 1 then NoAttempts else Outcome(0, maxAttempts, cancelled, op)
  {
    if maxAttempts < 1 {
      return NoAttempts;
    }
    for i := 0 to maxAttempts
      invariant Outcome(0, maxAttempts, cancelled, op) == Outcome(i, maxAttempts, cancelled, op)
    {
      if cancelled(i) {
        return Cancelled;
      }
      var ret := op(i);
      if ret.Done? {
        return Succeeded(ret.value);
      }
    }
    return GaveUp;
  }

  // A success is the result of the first attempt that works, all before it having failed, and no
  // attempt runs once the context is over.
  ghost predicate FirstSuccess<T>(max: int, cancelled: nat -> bool, op: nat -> Attempt<T>, from: nat, k: nat) {
    && from <= k < max && op(k).Done?
    && (forall j | from <= j <= k :: !cancelled(j))
    && (forall j | from <= j < k :: op(j).Erred?)
  }

  lemma {:induction false} SucceedsExactly<T>(from: nat, max: int, cancelled: nat -> bool, op: nat -> Attempt<T>)
    ensures Outcome(from, max, cancelled, op).Succeeded? <==> exists k :: FirstSuccess(max, cancelled, op, from, k)
    ensures forall k :: FirstSuccess(max, cancelled, op, from, k) ==>
        Outcome(from, max, cancelled, op) == Succeeded(op(k).value)
    decreases max - from
  {
    if from < max {
      SucceedsExactly(from + 1, max, cancelled, op);
      if !cancelled(from) && op(from).Done? {
        assert FirstSuccess(max, cancelled, op, from, from);
      }
      if !cancelled(from) && op(from).Erred? {
        forall k: nat ensures FirstSuccess(max, cancelled, op, from, k) ==
            FirstSuccess(max, cancelled, op, from + 1, k) {
          if FirstSuccess(max, cancelled, op, from + 1, k) {
            assert forall j | from <= j <= k :: !cancelled(j);
          }
        }
        assert Outcome(from, max, cancelled, op) == Outcome(from + 1, max, cancelled, op);
        if Outcome(from, max, cancelled, op).Succeeded? {
          var k: nat :| FirstSuccess(max, cancelled, op, from + 1, k);
          assert FirstSuccess(max, cancelled, op, from, k);
        }
      }
    }
  }

  // The attempts before the k-th ran in an open context and failed.
  ghost predicate FailedUntil<T>(cancelled: nat -> bool, op: nat -> Attempt<T>, from: nat, k: nat) {
    forall j | from <= j < k :: !cancelled(j) && op(j).Erred?
  }

  // Without a success it was cancelled exactly when the context was over before some attempt below the limit,
  // all before it having failed; otherwise the limit was reached.
  lemma {:induction false} EndsExactly<T>(from: nat, max: nat, cancelled: nat -> bool, op: nat -> Attempt<T>)
    requires from <= max
    ensures Outcome(from, max, cancelled, op).Cancelled? <==>
      exists k | from <= k < max :: cancelled(k) && FailedUntil(cancelled, op, from, k)
    ensures Outcome(from, max, cancelled, op).GaveUp? <==> FailedUntil(cancelled, op, from, max)
    decreases max - from
  {
    if from < max {
      EndsExactly(from + 1, max, cancelled, op);
      if !cancelled(from) && op(from).Erred? {
        forall k: nat | from < k ensures FailedUntil(cancelled, op, from, k) <==>
            FailedUntil(cancelled, op, from + 1, k) {
        }
        assert Outcome(from, max, cancelled, op) == Outcome(from + 1, max, cancelled, op);
      } else {
        assert forall k: nat :: from < k ==> !FailedUntil(cancelled, op, from, k);
      }
      if cancelled(from) {
        assert FailedUntil(cancelled, op, from, from);
      }
    }
  }

  // A database transaction whose effect depends only on the (unchanged) tables: it fails while the
  // database is down and otherwise always ends the same way.
  function Transaction<T>(up: nat -> bool, effect: Attempt<T>): nat -> Attempt<T> {
    (k: nat) => if up(k) then effect else Erred
  }

  function RunTransaction<T>(cancelled: nat -> bool, up: nat -> bool, effect: Attempt<T>): Result<T> {
    Outcome(0, ATTEMPTS, cancelled, Transaction(up, effect))
  }

  // Some attempt finds the database up before the context is over.
  ghost predicate Reachable(cancelled: nat -> bool, up: nat -> bool) {
    exists k :: FirstSuccess(ATTEMPTS, cancelled, Transaction(up, Done(())), 0, k)
  }

  // Retrying a transaction applies its effect once, if and only if it has one and the database is reached.
  lemma TransactionRunsOnce<T>(cancelled: nat -> bool, up: nat -> bool, effect: Attempt<T>)
    ensures RunTransaction(cancelled, up, effect).Succeeded? <==> effect.Done? && Reachable(cancelled, up)
    ensures RunTransaction(cancelled, up, effect).Succeeded? ==>
        RunTransaction(cancelled, up, effect).value == effect.value
  {
    SucceedsExactly(0, ATTEMPTS, cancelled, Transaction(up, effect));
    if effect.Done? {
      var here, there := Transaction(up, effect), Transaction(up, Done(()));
      assert forall j: nat :: here(j).Done? == there(j).Done?;
      forall k | FirstSuccess(ATTEMPTS, cancelled, here, 0, k) ensures FirstSuccess(ATTEMPTS, cancelled, there, 0, k) {}
      forall k | FirstSuccess(ATTEMPTS, cancelled, there, 0, k) ensures FirstSuccess(ATTEMPTS, cancelled, here, 0, k) {}
    }
  }

  // With the context open, an outage is survived if and only if it is over by the tenth attempt.
  lemma OutageSurvived(cancelled: nat -> bool, up: nat -> bool, failures: nat)
    requires forall k: nat :: !cancelled(k) && (up(k) <==> k >= failures)
    ensures Reachable(cancelled, up) <==> failures < 10
  {
    if failures < 10 {
      assert FirstSuccess(ATTEMPTS, cancelled, Transaction(up, Done(())), 0, failures);
    }
  }
}
