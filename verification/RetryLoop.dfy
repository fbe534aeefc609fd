/** agents/base.py: the retry loop of `run` and `run_structured` around one in-flight task, and the
    liveness predicate that can abort both. */
module RetryLoop {
  import opened Text

  /** What asking the liveness predicate gives. */
  datatype Liveness = Connected | Disconnected | PredicateError

  /** `_client_gone`: no predicate, and a predicate that fails, count as connected. */
  function ClientGone(liveness: Option<Liveness>): bool {
    liveness == Some(Disconnected)
  }

  datatype Answer = Answer(text: string)

  /** How an invocation ends by itself. */
  datatype Ending = Answered(answer: Answer) | StatusError(status: int) | OtherError

  // -------------------------------------------------------------------- one invocation

  /** One turn of the polling loop: the task has ended, or the predicate is asked. */
  datatype Poll = Ended(ending: Ending) | Pending(liveness: Liveness)

  /** What the caller sees; `Aborted` is a cancellation, which the retry loop does not catch. */
  datatype Invocation = Came(ending: Ending) | Aborted

  class Task {
    var done: bool
    var cancelled: bool

    constructor ()
      ensures !done && !cancelled
    {
      done, cancelled := false, false;
    }

    method Cancel()
      modifies this`cancelled
      ensures cancelled
    {
      cancelled := true;
    }

    method Settle()
      modifies this`done
      ensures done
    {
      done := true;
    }
  }

  /** A plain await: only the end of the task counts. */
  function PlainOutcome(polls: seq<Poll>): Invocation {
    if polls == [] then Aborted
    else if polls[0].Ended? then Came(polls[0].ending)
    else PlainOutcome(polls[1..])
  }

  /** With a predicate, the first poll that ends the loop decides. */
  function Outcome(polls: seq<Poll>): Invocation {
    if polls == [] then Aborted
    else
      match polls[0]
      case Ended(e) => Came(e)
      case Pending(l) => if ClientGone(Some(l)) then Aborted else Outcome(polls[1..])
  }

  /** The task ends with `e` at poll `i`, and no disconnect is seen before. */
  predicate EndsAt(polls: seq<Poll>, i: nat, e: Ending) {
    && i < |polls| && polls[i] == Ended(e)
    && forall j | 0 <= j < i :: polls[j].Pending? && polls[j].liveness != Disconnected
  }

  /** The call gives an ending exactly when the task ends before any disconnect is seen. */
  lemma {:induction false} EndsBeforeDisconnect(polls: seq<Poll>, e: Ending)
    ensures Outcome(polls) == Came(e) <==> exists i: nat :: EndsAt(polls, i, e)
  {
    if polls != [] {
      var rest := polls[1..];
      EndsBeforeDisconnect(rest, e);
      if Outcome(polls) == Came(e) {
        if polls[0].Ended? {
          assert EndsAt(polls, 0, e);
        } else {
          var i: nat :| EndsAt(rest, i, e);
          assert forall j | 0 < j <= i :: polls[j] == rest[j - 1];
          assert EndsAt(polls, i + 1, e);
        }
      }
      if i: nat :| EndsAt(polls, i, e) {
        if i > 0 {
          assert forall j | 0 <= j < i - 1 :: rest[j] == polls[j + 1];
          assert EndsAt(rest, i - 1, e);
        }
      }
    }
  }

  /** `_ainvoke_or_abort`. When the polls run out, the caller itself is cancelled while waiting; with a
      predicate supplied, the `finally` block runs in every case, so the task never outlives the call. */
  method AinvokeOrAbort(hasPredicate: bool, task: Task, polls: seq<Poll>) returns (r: Invocation)
    requires !task.done && !task.cancelled
    modifies task
    ensures r == if hasPredicate then Outcome(polls) else PlainOutcome(polls)
    ensures hasPredicate ==> task.done || task.cancelled
    ensures hasPredicate && r.Came? ==> task.done && !task.cancelled
    ensures hasPredicate && r.Aborted? ==> task.cancelled
  {
    if !hasPredicate {
      r := PlainOutcome(polls);
      return;
    }
    r := Aborted;
    var i := 0;
    while i < |polls|
      invariant i <= |polls| && Outcome(polls) == Outcome(polls[i..])
      invariant !task.done && !task.cancelled && r == Aborted
    {
      assert polls[i..][1..] == polls[i + 1..];
      match polls[i] {
        case Ended(e) =>
          task.Settle();
          r := Came(e);
          break;
        case Pending(l) =>
          if ClientGone(Some(l)) {
            task.Cancel();
            task.Settle();
            break;
          }
      }
      i := i + 1;
    }
    assert i == |polls| ==> polls[i..] == [];
    if !task.done { task.Cancel(); }
  }

  // -------------------------------------------------------------------- the retry loop

  /** One attempt: liveness before it, the polls of the invocation, liveness before a backoff. There is
      a predicate exactly when `before` has a value. */
  datatype Attempt = Attempt(before: Option<Liveness>, polls: seq<Poll>, after: Option<Liveness>) {
    function Invoked(): Invocation {
      if before.Some? then Outcome(polls) else PlainOutcome(polls)
    }
  }

  datatype Action = Dispatch(attempt: nat) | Sleep(seconds: nat) | SawDisconnect

  datatype Result = Success(answer: Answer) | Failed(ending: Ending) | Cancelled | NoAttempt

  predicate Transient(e: Ending) {
    e.StatusError? && e.status in {502, 503, 504}
  }

  function Pow2(n: nat): nat {
    if n == 0 then 1 else 2 * Pow2(n - 1)
  }

  /** Exponential backoff, capped at a minute. */
  function Backoff(attempt: nat): nat {
    if Pow2(attempt + 1) < 60 then Pow2(attempt + 1) else 60
  }

  /** The loop from attempt `i` on: the actions taken and how it ends. */
  function Retry(env: nat -> Attempt, max: nat, i: nat): (seq<Action>, Result)
    decreases max - i
  {
    if i >= max then ([], NoAttempt)
    else if ClientGone(env(i).before) then ([SawDisconnect], Cancelled)
    else
      match env(i).Invoked()
      case Aborted => ([Dispatch(i)], Cancelled)
      case Came(e) =>
        if e.Answered? then ([Dispatch(i)], Success(e.answer))
        else if !Transient(e) || i + 1 >= max then ([Dispatch(i)], Failed(e))
        else if ClientGone(env(i).after) then ([Dispatch(i), SawDisconnect], Cancelled)
        else
          var (rest, result) := Retry(env, max, i + 1);
          ([Dispatch(i), Sleep(Backoff(i))] + rest, result)
  }

  /** A non-positive limit makes no attempt at all. */
  method RunWithRetries(env: nat -> Attempt, maxAttempts: int) returns (log: seq<Action>, result: Result)
    ensures (log, result) == Retry(env, if maxAttempts < 0 then 0 else maxAttempts, 0)
  {
    log := [];
    var attempt: nat := 0;
    ghost var max: nat := if maxAttempts < 0 then 0 else maxAttempts;
    ghost var whole := Retry(env, max, 0);
    while attempt < maxAttempts
      invariant attempt <= max && whole.0 == log + Retry(env, max, attempt).0 && whole.1 == Retry(env, max, attempt).1
      decreases maxAttempts - attempt
    {
      if ClientGone(env(attempt).before) {
        return log + [SawDisconnect], Cancelled;
      }
      ghost var before := log;
      log := log + [Dispatch(attempt)];
      var task := new Task();
      var invocation := AinvokeOrAbort(env(attempt).before.Some?, task, env(attempt).polls);
      match invocation {
        case Aborted => return log, Cancelled;
        case Came(e) =>
          if e.Answered? { return log, Success(e.answer); }
          if !Transient(e) { return log, Failed(e); }
          if attempt < maxAttempts - 1 {
            if ClientGone(env(attempt).after) {
              assert before + [Dispatch(attempt), SawDisconnect] == log + [SawDisconnect];
              return log + [SawDisconnect], Cancelled;
            }
            ghost var rest := Retry(env, max, attempt + 1).0;
            assert before + ([Dispatch(attempt), Sleep(Backoff(attempt))] + rest) ==
              (log + [Sleep(Backoff(attempt))]) + rest;
            log := log + [Sleep(Backoff(attempt))];
          } else {
            return log, Failed(e);
          }
      }
      attempt := attempt + 1;
    }
    assert log + [] == log;
    result := NoAttempt;
  }

  // -------------------------------------------------------------------- every run

  function Dispatches(log: seq<Action>): nat {
    if log == [] then 0 else (if log[0].Dispatch? then 1 else 0) + Dispatches(log[1..])
  }

  function TotalSleep(log: seq<Action>): nat {
    if log == [] then 0 else (if log[0].Sleep? then log[0].seconds else 0) + TotalSleep(log[1..])
  }

  /** Attempt `i` failed in a way that is retried, and nobody was seen to have left around it. */
  predicate FailedTransiently(a: Attempt) {
    !ClientGone(a.before) && a.Invoked().Came? && Transient(a.Invoked().ending)
  }

  /** The run continues past attempt `i`. */
  ghost predicate Continues(env: nat -> Attempt, max: nat, i: nat) {
    i + 1 < max && FailedTransiently(env(i)) && !ClientGone(env(i).after)
  }

  /** Only an answer with status 502, 503 or 504 is retried, and only if an attempt is left and nobody is
      seen to have left. */
  lemma RetriedExactlyWhen(env: nat -> Attempt, max: nat, i: nat, e: Ending)
    requires i < max && env(i).before != Some(Disconnected) && env(i).Invoked() == Came(e)
    ensures var log := Retry(env, max, i).0;
      (|log| > 1 && log[1].Sleep?) <==>
        && i + 1 < max && env(i).after != Some(Disconnected)
        && e.StatusError? && (e.status == 502 || e.status == 503 || e.status == 504)
  {
    OneTurn(env, max, i);
  }

  /** The pause after attempt `i` doubles from two seconds on, up to a minute. */
  lemma BackoffIs(i: nat)
    ensures Backoff(i) == match i case 0 => 2 case 1 => 4 case 2 => 8 case 3 => 16 case 4 => 32 case _ => 60
  {
    assert Pow2(1) == 2 && Pow2(2) == 4 && Pow2(3) == 8 && Pow2(4) == 16 && Pow2(5) == 32;
    if i >= 5 { Pow2AtLeast(i + 1); }
  }

  lemma OneTurn(env: nat -> Attempt, max: nat, i: nat)
    requires i < max
    ensures var (log, result) := Retry(env, max, i);
      if Continues(env, max, i) then
        var (rest, end) := Retry(env, max, i + 1);
        result == end && |log| == 2 + |rest| && log[0] == Dispatch(i) && log[1] == Sleep(Backoff(i)) && log[2..] == rest
        && log[1..][1..] == rest
      else log == [SawDisconnect] || log == [Dispatch(i)] || log == [Dispatch(i), SawDisconnect]
  {
    if Continues(env, max, i) {
      var rest := Retry(env, max, i + 1).0;
      var step := [Dispatch(i), Sleep(Backoff(i))];
      assert (step + rest)[2..] == rest && (step + rest)[1..][1..] == rest;
    }
  }

  /** Nothing is dispatched, and nothing else happens, once a disconnect has been seen: by a check
      between the attempts, or by polling inside one, which aborts it. */
  lemma {:induction false} NothingAfterDisconnect(env: nat -> Attempt, max: nat, i: nat)
    requires i <= max
    ensures var (log, result) := Retry(env, max, i);
      && (forall k | 0 <= k < |log| && log[k].SawDisconnect? :: k == |log| - 1 && result.Cancelled?)
      && (forall k | 0 <= k < |log| && log[k].Dispatch? && env(log[k].attempt).Invoked().Aborted? ::
            k == |log| - 1 && result.Cancelled?)
    decreases max - i
  {
    if i < max {
      OneTurn(env, max, i);
      if Continues(env, max, i) {
        NothingAfterDisconnect(env, max, i + 1);
        var log := Retry(env, max, i).0;
        assert forall k | 2 <= k < |log| :: log[k] == log[2..][k - 2];
      }
    }
  }

  /** At most `max` dispatches occur, in order, each after a liveness check that saw no disconnect. */
  lemma {:induction false} DispatchesAreBounded(env: nat -> Attempt, max: nat, i: nat)
    requires i <= max
    ensures var log := Retry(env, max, i).0;
      && Dispatches(log) <= max - i
      && forall k | 0 <= k < |log| && log[k].Dispatch? ::
           i <= log[k].attempt < max && !ClientGone(env(log[k].attempt).before)
    decreases max - i
  {
    if i < max {
      OneTurn(env, max, i);
      var log := Retry(env, max, i).0;
      if Continues(env, max, i) {
        DispatchesAreBounded(env, max, i + 1);
        assert forall k | 2 <= k < |log| :: log[k] == log[2..][k - 2];
        assert Dispatches(log) == 1 + Dispatches(log[1..]) && Dispatches(log[1..]) == Dispatches(log[1..][1..]);
      } else if |log| == 2 {
        assert log[1..] == [SawDisconnect] && [SawDisconnect][1..] == [];
      } else {
        assert log[1..] == [];
      }
    }
  }

  /** Every pause is the backoff of an attempt that failed transiently while nobody was seen to leave. */
  lemma {:induction false} PausesAreBackoffs(env: nat -> Attempt, max: nat, i: nat)
    requires i <= max
    ensures var log := Retry(env, max, i).0;
      forall k | 0 <= k < |log| && log[k].Sleep? ::
        k > 0 && log[k - 1].Dispatch? && Continues(env, max, log[k - 1].attempt)
        && log[k].seconds == Backoff(log[k - 1].attempt)
    decreases max - i
  {
    if i < max {
      OneTurn(env, max, i);
      if Continues(env, max, i) {
        PausesAreBackoffs(env, max, i + 1);
        var log := Retry(env, max, i).0;
        var rest := Retry(env, max, i + 1).0;
        assert forall k | 2 <= k < |log| :: log[k] == rest[k - 2];
      }
    }
  }

  /** A run answers with what its last dispatch answered, or fails with what its last dispatch failed
      with; and it fails with a transient error only on the very last attempt. */
  lemma {:induction false} LastDispatchDecides(env: nat -> Attempt, max: nat, i: nat)
    requires i < max
    ensures var (log, result) := Retry(env, max, i);
      result.Success? || result.Failed? ==>
        (log != [] && log[|log| - 1].Dispatch? &&
         var last := log[|log| - 1].attempt;
         env(last).Invoked() == Came(if result.Success? then Answered(result.answer) else result.ending)
         && (result.Failed? && Transient(result.ending) ==> last == max - 1))
    decreases max - i
  {
    OneTurn(env, max, i);
    if Continues(env, max, i) {
      LastDispatchDecides(env, max, i + 1);
    }
  }

  /** The first attempt that does not continue decides: somebody has left, or it answers, or it fails. */
  lemma {:induction false} ResultIs(env: nat -> Attempt, max: nat, i: nat, j: nat)
    requires i <= j < max && (forall n | i <= n < j :: Continues(env, max, n)) && !Continues(env, max, j)
    ensures var a, result := env(j), Retry(env, max, i).1;
      if a.before == Some(Disconnected) then result == Cancelled
      else
        match a.Invoked()
        case Aborted => result == Cancelled
        case Came(e) =>
          if e.Answered? then result == Success(e.answer)
          else if e.StatusError? && e.status in {502, 503, 504} && j + 1 < max then result == Cancelled
          else result == Failed(e)
    decreases j - i
  {
    if i < j {
      assert Continues(env, max, i);
      OneTurn(env, max, i);
      ResultIs(env, max, i + 1, j);
    }
  }

  /** Without attempts nothing happens. */
  lemma NoAttempts(env: nat -> Attempt)
    ensures Retry(env, 0, 0) == ([], NoAttempt)
  {
  }

  /** A plain await gives the first ending of the task, whoever is still there. */
  lemma {:induction false} PlainEnding(polls: seq<Poll>, e: Ending)
    ensures PlainOutcome(polls) == Came(e) <==>
      exists i: nat :: i < |polls| && polls[i] == Ended(e) && forall j | 0 <= j < i :: polls[j].Pending?
  {
    if polls != [] {
      var rest := polls[1..];
      PlainEnding(rest, e);
      if PlainOutcome(polls) == Came(e) {
        if polls[0].Ended? {
          assert polls[0] == Ended(e);
        } else {
          var i: nat :| i < |rest| && rest[i] == Ended(e) && forall j | 0 <= j < i :: rest[j].Pending?;
          assert polls[i + 1] == Ended(e) && forall j | 0 < j <= i :: polls[j] == rest[j - 1];
        }
      }
      if i: nat :| i < |polls| && polls[i] == Ended(e) && forall j | 0 <= j < i :: polls[j].Pending? {
        if i > 0 { assert rest[i - 1] == Ended(e) && forall j | 0 <= j < i - 1 :: rest[j] == polls[j + 1]; }
      }
    }
  }

  /** The seconds slept in attempts `i` to `max - 2`, when all of them fail transiently. */
  function AllBackoffs(max: nat, i: nat): nat
    decreases max - i
  {
    if i + 1 >= max then 0 else Backoff(i) + AllBackoffs(max, i + 1)
  }

  /** A run fails with a transient error exactly when every attempt failed transiently and no
      disconnect was seen; it has then dispatched `max` times and slept every backoff. */
  lemma {:induction false} AllAttemptsFail(env: nat -> Attempt, max: nat, i: nat)
    requires i < max
    ensures var (log, result) := Retry(env, max, i);
      && ((result.Failed? && Transient(result.ending)) <==>
           (forall j | i <= j < max :: FailedTransiently(env(j)) && (j + 1 < max ==> !ClientGone(env(j).after))))
      && (result.Failed? && Transient(result.ending) ==>
           Dispatches(log) == max - i && TotalSleep(log) == AllBackoffs(max, i))
    decreases max - i
  {
    if FailedTransiently(env(i)) && i + 1 < max && !ClientGone(env(i).after) {
      AllAttemptsFail(env, max, i + 1);
      var rest := Retry(env, max, i + 1).0;
      var step := [Dispatch(i), Sleep(Backoff(i))];
      assert (step + rest)[1..][1..] == rest && (step + rest)[1..][0] == Sleep(Backoff(i));
    } else {
      assert [Dispatch(i)][1..] == [];
      assert !FailedTransiently(env(i)) || i + 1 == max || ClientGone(env(i).after);
    }
  }

  lemma {:induction false} Pow2AtLeast(n: nat)
    requires n >= 6
    ensures Pow2(n) >= 64
  {
    if n == 6 {
      assert Pow2(1) == 2 && Pow2(2) == 4 && Pow2(3) == 8 && Pow2(4) == 16 && Pow2(5) == 32;
    } else {
      Pow2AtLeast(n - 1);
    }
  }

  lemma {:induction false} MinuteBackoffs(max: nat, i: nat)
    requires 5 <= i < max
    ensures AllBackoffs(max, i) == 60 * (max - 1 - i)
    decreases max - i
  {
    Pow2AtLeast(i + 1);
    if i + 1 < max { MinuteBackoffs(max, i + 1); }
  }

  /** If all n >= 6 attempts fail transiently, the run sleeps 62 + 60 * (n - 6) seconds in total. */
  lemma TotalBackoff(env: nat -> Attempt, n: nat)
    requires n >= 6 && Retry(env, n, 0).1.Failed? && Transient(Retry(env, n, 0).1.ending)
    ensures TotalSleep(Retry(env, n, 0).0) == 62 + 60 * (n - 6)
  {
    AllAttemptsFail(env, n, 0);
    MinuteBackoffs(n, 5);
    assert Pow2(1) == 2 && Pow2(2) == 4 && Pow2(3) == 8 && Pow2(4) == 16 && Pow2(5) == 32;
    assert AllBackoffs(n, 4) == 32 + AllBackoffs(n, 5);
    assert AllBackoffs(n, 2) == 8 + AllBackoffs(n, 3) && AllBackoffs(n, 3) == 16 + AllBackoffs(n, 4);
    assert AllBackoffs(n, 0) == 2 + AllBackoffs(n, 1) && AllBackoffs(n, 1) == 4 + AllBackoffs(n, 2);
  }
}
