/** What the lockout and the reset allowance guarantee whatever order concurrent requests run in. */
module ThrottleRuns {
  import opened Numbers
  import opened Throttle

  // ---------------------------------------------------------------- sign-ins in flight

  /** Where one sign-in has got to: the lock is checked, then the password is tried, then the result is recorded. */
  datatype Call = Idle | Begun | Passed | Refused | Accepted

  /** One address: its row, the calls in flight, how many passwords have been tried, and how many were not recorded. */
  datatype Login = Login(row: Option<Row>, calls: seq<Call>, tried: nat, lost: nat)

  datatype LoginStep =
    | Begin(c: nat)
    | Check(c: nat, now: int)
    | Turned(c: nat)
    | Verify(c: nat, matches: bool)
    | RecordFailure(c: nat, now: int)
    | RecordLost(c: nat)
    | RecordSuccess(c: nat)

  predicate LoginEnabled(s: Login, step: LoginStep) {
    && step.c < |s.calls|
    && match step
       case Begin(c) => s.calls[c].Idle?
       case Check(c, _) => s.calls[c].Begun?
       case Turned(c) => s.calls[c].Begun? || s.calls[c].Passed? || s.calls[c].Accepted?
       case Verify(c, _) => s.calls[c].Passed?
       case RecordFailure(c, _) => s.calls[c].Refused?
       case RecordLost(c) => s.calls[c].Refused?
       case RecordSuccess(c) => s.calls[c].Accepted?
  }

  /**
   * `Turned` is a call that stops for another reason: enforced single sign-on, no password set, email unverified, or
   * a row that cannot be read. `RecordLost` is a wrong password whose transaction fails, so that nothing is counted.
   */
  function LoginApply(s: Login, step: LoginStep): Login
    requires LoginEnabled(s, step)
  {
    match step
    case Begin(c) => s.(calls := s.calls[c := Begun])
    case Check(c, now) => s.(calls := s.calls[c := if LockedAt(s.row, now) then Idle else Passed])
    case Turned(c) => s.(calls := s.calls[c := Idle])
    case Verify(c, matches) => s.(calls := s.calls[c := if matches then Accepted else Refused], tried := s.tried + 1)
    case RecordFailure(c, now) => s.(row := Some(Fail(s.row, now)), calls := s.calls[c := Idle])
    case RecordLost(c) => s.(calls := s.calls[c := Idle], lost := s.lost + 1)
    case RecordSuccess(c) => s.(row := None, calls := s.calls[c := Idle])
  }

  /** Every password tried is wrong, and no clock has yet reached the end of a lock. */
  predicate Guessing(s: Login, step: LoginStep) {
    && (step.Verify? ==> !step.matches)
    && ((step.Check? || step.RecordFailure?) && s.row.Some? && s.row.value.lockedUntil.Some? ==>
         step.now < s.row.value.lockedUntil.value)
  }

  ghost predicate GuessingRun(run: seq<Login>, steps: seq<LoginStep>) {
    && |run| == |steps| + 1 && ValidRow(run[0].row) && run[0].tried == 0 == run[0].lost
    && (forall c :: 0 <= c < |run[0].calls| ==> run[0].calls[c].Idle?)
    && forall i :: 0 <= i < |steps| ==>
         LoginEnabled(run[i], steps[i]) && Guessing(run[i], steps[i]) && run[i + 1] == LoginApply(run[i], steps[i])
  }

  /** How many calls have got exactly so far. */
  function Tally(calls: seq<Call>, at: Call): nat {
    if |calls| == 0 then 0 else Tally(calls[..|calls| - 1], at) + (if calls[|calls| - 1] == at then 1 else 0)
  }

  lemma {:induction false} TallyUpdated(calls: seq<Call>, c: nat, to: Call, at: Call)
    requires c < |calls|
    ensures Tally(calls[c := to], at) == Tally(calls, at) + (if to == at then 1 else 0) - (if calls[c] == at then 1 else 0)
  {
    var n := |calls| - 1;
    if c < n {
      TallyUpdated(calls[..n], c, to, at);
      assert calls[c := to][..n] == calls[..n][c := to];
    } else {
      assert calls[c := to][..n] == calls[..n];
    }
  }

  lemma {:induction false} TallyBounded(calls: seq<Call>, x: Call, y: Call)
    requires x != y
    ensures Tally(calls, x) + Tally(calls, y) <= |calls|
    ensures (exists c :: 0 <= c < |calls| && calls[c] != x && calls[c] != y) ==>
              Tally(calls, x) + Tally(calls, y) < |calls|
  {
    if |calls| > 0 {
      var n := |calls| - 1;
      TallyBounded(calls[..n], x, y);
      if calls[n] == x || calls[n] == y {
        forall c | 0 <= c < |calls| && calls[c] != x && calls[c] != y ensures calls[..n][c] == calls[c] {}
      }
    }
  }

  lemma {:induction false} NoneAt(calls: seq<Call>, at: Call)
    requires forall c :: 0 <= c < |calls| ==> calls[c] != at
    ensures Tally(calls, at) == 0
  {
    if |calls| > 0 { NoneAt(calls[..|calls| - 1], at); }
  }

  function Counted(row: Option<Row>): nat { if row.Some? then row.value.count else 0 }

  /**
   * From a row with `start` failures on it: every password tried is counted, about to be, or lost, and once the row is
   * locked only those already past the check can still be tried.
   */
  predicate LoginInv(s: Login, start: nat) {
    && ValidRow(s.row) && Tally(s.calls, Accepted) == 0
    && start + s.tried == Counted(s.row) + Tally(s.calls, Refused) + s.lost
    && (Counted(s.row) >= MAX_FAILURES && start < MAX_FAILURES ==>
         start + s.tried + Tally(s.calls, Passed) <= |s.calls| + MAX_FAILURES - 1 + s.lost)
  }

  lemma LoginInvKept(s: Login, step: LoginStep, start: nat)
    requires LoginEnabled(s, step) && Guessing(s, step) && LoginInv(s, start)
    ensures LoginInv(LoginApply(s, step), start)
  {
    var t, c := LoginApply(s, step), step.c;
    var to := t.calls[c];
    assert t.calls == s.calls[c := to];
    TallyUpdated(s.calls, c, to, Accepted);
    TallyUpdated(s.calls, c, to, Refused);
    TallyUpdated(s.calls, c, to, Passed);
    TallyBounded(t.calls, Refused, Passed);
  }

  lemma {:induction false} LoginInvHolds(run: seq<Login>, steps: seq<LoginStep>, n: nat)
    requires GuessingRun(run, steps) && n < |run|
    ensures LoginInv(run[n], Counted(run[0].row)) && |run[n].calls| == |run[0].calls|
  {
    if n == 0 {
      NoneAt(run[0].calls, Accepted);
      NoneAt(run[0].calls, Refused);
      NoneAt(run[0].calls, Passed);
    } else {
      LoginInvHolds(run, steps, n - 1);
      LoginInvKept(run[n - 1], steps[n - 1], Counted(run[0].row));
    }
  }

  /**
   * With n sign-ins in flight, at most n + 4 wrong passwords are tried before a lock ends, besides those whose
   * recording failed, and fewer when the row already carries failures.
   */
  lemma GuessesAreBounded(run: seq<Login>, steps: seq<LoginStep>, n: nat)
    requires GuessingRun(run, steps) && n < |run| && Counted(run[0].row) < 5
    ensures Counted(run[0].row) + run[n].tried <= |run[0].calls| + 4 + run[n].lost
  {
    LoginInvHolds(run, steps, n);
    TallyBounded(run[n].calls, Refused, Passed);
  }

  // ---------------------------------------------------------------- the bound is reached

  ghost predicate Reaches(run: seq<Login>, steps: seq<LoginStep>, s: Login) {
    GuessingRun(run, steps) && run[|steps|] == s
  }

  lemma Then(run: seq<Login>, steps: seq<LoginStep>, s: Login, step: LoginStep, t: Login)
    returns (run': seq<Login>, steps': seq<LoginStep>)
    requires Reaches(run, steps, s) && LoginEnabled(s, step) && Guessing(s, step) && t == LoginApply(s, step)
    ensures Reaches(run', steps', t) && run'[0] == run[0]
  {
    run', steps' := run + [t], steps + [step];
  }

  /** Some calls past the check, and the rest not begun. */
  function Ready(n: nat, passed: nat): (calls: seq<Call>)
    ensures |calls| == n
  {
    seq(n, c => if c < passed then Passed else Idle)
  }

  /** The row after `k` wrong passwords at once. */
  function FailedRow(k: nat): Option<Row> { if k == 0 then None else Some(Row(k, 0, None)) }

  /** One sign-in after another, `k` passwords can be tried before the fifth is counted. */
  lemma {:induction false} OneByOne(n: nat, k: nat) returns (run: seq<Login>, steps: seq<LoginStep>)
    requires n > 0 && k <= 4
    ensures Reaches(run, steps, Login(FailedRow(k), Ready(n, 0), k, 0)) && run[0] == Login(None, Ready(n, 0), 0, 0)
  {
    if k == 0 {
      run, steps := [Login(None, Ready(n, 0), 0, 0)], [];
    } else {
      run, steps := OneByOne(n, k - 1);
      var idle := Ready(n, 0);
      var s := Login(FailedRow(k - 1), idle, k - 1, 0);
      var s1 := s.(calls := idle[0 := Begun]);
      var s2 := s.(calls := idle[0 := Passed]);
      var s3 := s.(calls := idle[0 := Refused], tried := k);
      assert s1.calls[0 := Passed] == s2.calls && s2.calls[0 := Refused] == s3.calls && s3.calls[0 := Idle] == idle;
      run, steps := Then(run, steps, s, Begin(0), s1);
      run, steps := Then(run, steps, s1, Check(0, 0), s2);
      run, steps := Then(run, steps, s2, Verify(0, false), s3);
      run, steps := Then(run, steps, s3, RecordFailure(0, 0), Login(FailedRow(k), idle, k, 0));
    }
  }

  /** Then all `n` can pass the check before any of them tries. */
  lemma {:induction false} AllPass(n: nat, c: nat) returns (run: seq<Login>, steps: seq<LoginStep>)
    requires n > 0 && c <= n
    ensures Reaches(run, steps, Login(FailedRow(4), Ready(n, c), 4, 0)) && run[0] == Login(None, Ready(n, 0), 0, 0)
  {
    if c == 0 {
      run, steps := OneByOne(n, 4);
    } else {
      run, steps := AllPass(n, c - 1);
      var s := Login(FailedRow(4), Ready(n, c - 1), 4, 0);
      var s1 := s.(calls := s.calls[c - 1 := Begun]);
      assert s1.calls[c - 1 := Passed] == Ready(n, c);
      run, steps := Then(run, steps, s, Begin(c - 1), s1);
      run, steps := Then(run, steps, s1, Check(c - 1, 0), Login(FailedRow(4), Ready(n, c), 4, 0));
    }
  }

  /** And each of them tries. */
  lemma {:induction false} AllTry(n: nat, c: nat) returns (run: seq<Login>, steps: seq<LoginStep>, calls: seq<Call>)
    requires n > 0 && c <= n
    ensures |calls| == n && forall i :: c <= i < n ==> calls[i] == Passed
    ensures Reaches(run, steps, Login(FailedRow(4), calls, 4 + c, 0)) && run[0] == Login(None, Ready(n, 0), 0, 0)
  {
    if c == 0 {
      run, steps := AllPass(n, n);
      calls := Ready(n, n);
    } else {
      run, steps, calls := AllTry(n, c - 1);
      var s := Login(FailedRow(4), calls, 4 + c - 1, 0);
      calls := calls[c - 1 := Refused];
      run, steps := Then(run, steps, s, Verify(c - 1, false), Login(FailedRow(4), calls, 4 + c, 0));
    }
  }

  /** The bound is the best there is: from a clean row, `n` sign-ins can try n + 4 wrong passwords. */
  lemma BoundIsReached(n: nat) returns (run: seq<Login>, steps: seq<LoginStep>)
    requires n > 0
    ensures GuessingRun(run, steps) && |run[0].calls| == n && run[0].row == None
    ensures run[|steps|].tried == n + 4 && run[|steps|].lost == 0
  {
    var calls;
    run, steps, calls := AllTry(n, n);
  }

  // ---------------------------------------------------------------- reset requests in flight

  /** A caller of `tooManyResetRequests` between its two statements carries the clock it read. */
  datatype Asker = Resting | Asking(now: int)

  /** One address's reset row, its callers, the starts of its windows, and how many each window has allowed. */
  datatype Resets = Resets(row: Option<Row>, askers: map<int, Asker>, starts: seq<int>, allowed: seq<nat>)

  datatype ResetStep =
    | Ask(a: int, now: int)
    | Count(a: int)

  predicate ResetEnabled(s: Resets, step: ResetStep) {
    match step
    case Ask(a, _) => a !in s.askers || s.askers[a].Resting?
    case Count(a) => a in s.askers && s.askers[a].Asking?
  }

  function ResetApply(s: Resets, step: ResetStep): Resets
    requires ResetEnabled(s, step)
  {
    match step
    case Ask(a, now) =>
      var t := s.(row := ExpireWindow(s.row, now), askers := s.askers[a := Asking(now)]);
      if s.row.Some? && s.row.value.windowStart <= now - RESET_WINDOW_MS
      then t.(starts := s.starts + [now], allowed := s.allowed + [0])
      else t
    case Count(a) =>
      var now := s.askers[a].now;
      var row := CountOne(s.row, now);
      var t := s.(row := Some(row), askers := s.askers[a := Resting]);
      var u := if s.row.None? then t.(starts := s.starts + [now], allowed := s.allowed + [0]) else t;
      if row.count > RESET_MAX || |u.allowed| == 0 then u
      else u.(allowed := u.allowed[|u.allowed| - 1 := u.allowed[|u.allowed| - 1] + 1])
  }

  ghost predicate ResetRun(run: seq<Resets>, steps: seq<ResetStep>) {
    && |run| == |steps| + 1 && run[0] == Resets(None, map[], [], [])
    && forall i :: 0 <= i < |steps| ==> ResetEnabled(run[i], steps[i]) && run[i + 1] == ResetApply(run[i], steps[i])
  }

  /** The last window is the row's, it has allowed what it has counted up to three, and windows are well apart. */
  ghost predicate ResetInv(s: Resets) {
    && |s.allowed| == |s.starts| && (s.row.None? <==> |s.starts| == 0)
    && (s.row.Some? ==>
         && s.row.value.windowStart == s.starts[|s.starts| - 1]
         && s.allowed[|s.allowed| - 1] == if s.row.value.count <= RESET_MAX then s.row.value.count else RESET_MAX)
    && (forall i :: 0 <= i < |s.allowed| ==> s.allowed[i] <= RESET_MAX)
    && (forall i, j :: 0 <= i < j < |s.starts| ==> s.starts[i] + RESET_WINDOW_MS <= s.starts[j])
  }

  lemma ResetInvKept(s: Resets, step: ResetStep)
    requires ResetEnabled(s, step) && ResetInv(s)
    ensures ResetInv(ResetApply(s, step))
  {
  }

  lemma {:induction false} ResetInvHolds(run: seq<Resets>, steps: seq<ResetStep>, n: nat)
    requires ResetRun(run, steps) && n < |run|
    ensures ResetInv(run[n])
  {
    if n > 0 {
      ResetInvHolds(run, steps, n - 1);
      ResetInvKept(run[n - 1], steps[n - 1]);
    }
  }

  /** No window allows more than three requests, and windows start at least fifteen minutes apart, whoever races. */
  lemma ResetsAreRationed(run: seq<Resets>, steps: seq<ResetStep>, n: nat)
    requires ResetRun(run, steps) && n < |run|
    ensures |run[n].allowed| == |run[n].starts|
    ensures forall i :: 0 <= i < |run[n].allowed| ==> run[n].allowed[i] <= 3
    ensures forall i :: 0 <= i < |run[n].starts| - 1 ==> run[n].starts[i + 1] - run[n].starts[i] >= 900_000
  {
    ResetInvHolds(run, steps, n);
  }

  /** A request is allowed if and only if its window, which it may be the first of, has not allowed three already. */
  lemma FirstThreeAllowed(run: seq<Resets>, steps: seq<ResetStep>, n: nat)
    requires ResetRun(run, steps) && n < |steps| && steps[n].Count?
    ensures var s, t := run[n], run[n + 1];
            var w := |t.allowed| - 1;
            && |s.allowed| <= |t.allowed| <= |s.allowed| + 1 && |t.allowed| > 0
            && (|t.allowed| > |s.allowed| ==> t.allowed[w] == 1)
            && (|t.allowed| == |s.allowed| ==> t.allowed[w] == if s.allowed[w] < 3 then s.allowed[w] + 1 else s.allowed[w])
            && (forall i :: 0 <= i < w ==> t.allowed[i] == s.allowed[i])
  {
    ResetInvHolds(run, steps, n);
  }

  /** A window opens when nothing is counted yet, or fifteen minutes after the last one opened, and not before. */
  lemma WindowsOpen(run: seq<Resets>, steps: seq<ResetStep>, n: nat)
    requires ResetRun(run, steps) && n < |steps| && steps[n].Ask?
    ensures var s, t := run[n], run[n + 1];
            |t.starts| > |s.starts| <==> |s.starts| > 0 && s.starts[|s.starts| - 1] <= steps[n].now - 900_000
  {
    ResetInvHolds(run, steps, n);
  }
}
