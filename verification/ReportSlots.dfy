/** The bound on PDF rendering: two slots per process, one of them at most for public links. */
module ReportSlots {

  const MAX_ACTIVE_REPORTS := 2

  /** How far closing a job's browser context has got; the browser is closed only if its context would not. */
  datatype Cleanup = NotStarted | ClosingContext | ClosingBrowser | Closed | Stuck

  /** How far the job's own work has got. `Cleaning` waits for the cleanup before it settles. */
  datatype Work = Creating | Rendering | Cleaning | Settled

  datatype Job = Job(publicShare: bool, work: Work, context: bool, expired: bool, cleanup: Cleanup, released: bool)

  /** The module's counters, its jobs, and the jobs that released their slot, in order. */
  datatype State = State(active: int, publicActive: int, jobs: map<int, Job>, releases: seq<int>)

  datatype Step =
    | Admit(id: int, publicShare: bool)
    | Created(id: int)
    | CreateFailed(id: int)
    | RenderEnded(id: int)
    | Deadline(id: int)
    | ContextClosed(id: int, ok: bool)
    | BrowserClosed(id: int, ok: bool)
    | Settle(id: int)

  /** The module's two counters. */
  datatype Counters = Counters(active: int, publicActive: int)

  predicate Busy(c: Counters, publicShare: bool) {
    c.active >= MAX_ACTIVE_REPORTS || (publicShare && c.publicActive >= 1)
  }

  function AfterAdmit(c: Counters, publicShare: bool): Counters {
    if Busy(c, publicShare) then c
    else Counters(c.active + 1, c.publicActive + (if publicShare then 1 else 0))
  }

  /** A job gives its slot back once. */
  function AfterRelease(c: Counters, j: Job): Counters {
    if j.released then c
    else Counters(c.active - 1, c.publicActive - (if j.publicShare then 1 else 0))
  }

  /** The counters as the source keeps them, changed in place when a job is admitted and when it releases. */
  class Slots {
    var active: int
    var publicActive: int

    function Count(): Counters
      reads this
    {
      Counters(active, publicActive)
    }

    constructor ()
      ensures Count() == Counters(0, 0)
    {
      active, publicActive := 0, 0;
    }

    method Admit(publicShare: bool) returns (admitted: bool)
      modifies this
      ensures admitted <==> old(active) < 2 && (publicShare ==> old(publicActive) < 1)
      ensures Count() == AfterAdmit(old(Count()), publicShare)
    {
      if active >= MAX_ACTIVE_REPORTS || (publicShare && publicActive >= 1) { return false; }
      active := active + 1;
      if publicShare { publicActive := publicActive + 1; }
      admitted := true;
    }

    /** A job's `release`, which does nothing the second time. */
    method Release(job: Job) returns (after: Job)
      modifies this
      ensures after == job.(released := true)
      ensures Count() == AfterRelease(old(Count()), job)
      ensures AfterRelease(Count(), after) == Count()
    {
      after := job;
      if job.released { return; }
      after := job.(released := true);
      active := active - 1;
      if job.publicShare { publicActive := publicActive - 1; }
    }
  }

  predicate Enabled(s: State, step: Step) {
    match step
    case Admit(id, _) => id !in s.jobs
    case Created(id) => id in s.jobs && s.jobs[id].work.Creating?
    case CreateFailed(id) => id in s.jobs && s.jobs[id].work.Creating?
    case RenderEnded(id) => id in s.jobs && s.jobs[id].work.Rendering?
    case Deadline(id) => id in s.jobs && !s.jobs[id].work.Settled? && !s.jobs[id].expired
    case ContextClosed(id, _) => id in s.jobs && s.jobs[id].cleanup.ClosingContext?
    case BrowserClosed(id, _) => id in s.jobs && s.jobs[id].cleanup.ClosingBrowser?
    case Settle(id) =>
      id in s.jobs && s.jobs[id].work.Cleaning? && (s.jobs[id].cleanup.Closed? || s.jobs[id].cleanup.Stuck?)
  }

  /** `close`: the first call starts the cleanup, any later one joins it. */
  function Close(j: Job): Job { if j.cleanup.NotStarted? then j.(cleanup := ClosingContext) else j }

  function Put(s: State, id: int, j: Job): State { s.(jobs := s.jobs[id := j]) }

  function Recount(s: State, c: Counters): State { s.(active := c.active, publicActive := c.publicActive) }

  /** `release`, noting the jobs that gave a slot back. */
  function Release(s: State, id: int, j: Job): State {
    Recount(Put(s, id, j.(released := true)), AfterRelease(Counters(s.active, s.publicActive), j)).(
      releases := s.releases + (if j.released then [] else [id]))
  }

  function AdmitStep(s: State, id: int, publicShare: bool): State {
    var c := Counters(s.active, s.publicActive);
    if Busy(c, publicShare) then s
    else Recount(Put(s, id, Job(publicShare, Creating, false, false, NotStarted, false)), AfterAdmit(c, publicShare))
  }

  function Apply(s: State, step: Step): State
    requires Enabled(s, step)
  {
    match step
    case Admit(id, publicShare) => AdmitStep(s, id, publicShare)
    case Created(id) =>
      // a context that arrives after the deadline is closed rather than used
      var j := s.jobs[id].(context := true);
      if j.expired then Put(s, id, Close(j.(work := Cleaning))) else Put(s, id, j.(work := Rendering))
    case CreateFailed(id) => Release(s, id, s.jobs[id].(work := Settled))
    case RenderEnded(id) => Put(s, id, Close(s.jobs[id].(work := Cleaning)))
    case Deadline(id) =>
      var j := s.jobs[id].(expired := true);
      Put(s, id, if j.context then Close(j) else j)
    case ContextClosed(id, ok) =>
      if ok then Release(s, id, s.jobs[id].(cleanup := Closed))
      else Put(s, id, s.jobs[id].(cleanup := ClosingBrowser))
    case BrowserClosed(id, ok) =>
      if ok then Release(s, id, s.jobs[id].(cleanup := Closed)) else Put(s, id, s.jobs[id].(cleanup := Stuck))
    case Settle(id) => Put(s, id, s.jobs[id].(work := Settled))
  }

  ghost predicate IsRun(run: seq<State>, steps: seq<Step>) {
    && |run| == |steps| + 1 && run[0] == State(0, 0, map[], [])
    && forall i :: 0 <= i < |steps| ==> Enabled(run[i], steps[i]) && run[i + 1] == Apply(run[i], steps[i])
  }

  // ---------------------------------------------------------------- accounting

  function Holding(s: State): set<int> { set id | id in s.jobs && !s.jobs[id].released }

  function HoldingPublic(s: State): set<int> { set id | id in Holding(s) && s.jobs[id].publicShare }

  ghost predicate Accounted(s: State) {
    && s.active == |Holding(s)| <= MAX_ACTIVE_REPORTS
    && s.publicActive == |HoldingPublic(s)| <= 1
  }

  /** A job gives its slot back once its context or the browser has closed, or creation failed; until then it holds it. */
  predicate JobValid(j: Job) {
    && (j.released <==> j.cleanup.Closed? || (j.work.Settled? && !j.context))
    && (j.context <==> j.work.Rendering? || j.work.Cleaning? || (j.work.Settled? && !j.cleanup.NotStarted?))
    && (j.work.Cleaning? ==> !j.cleanup.NotStarted?)
    && (j.work.Rendering? && !j.cleanup.NotStarted? ==> j.expired)
    && (j.work.Creating? ==> j.cleanup.NotStarted?)
    && (j.expired && j.context ==> !j.cleanup.NotStarted?)
    && (j.work.Settled? ==> j.cleanup.NotStarted? || j.cleanup.Closed? || j.cleanup.Stuck?)
  }

  ghost predicate JobsValid(s: State) { forall id :: id in s.jobs ==> JobValid(s.jobs[id]) }

  /** The releases are the released jobs, each once. */
  ghost predicate ReleasedOnce(s: State) {
    && (forall id :: id in s.releases <==> id in s.jobs && s.jobs[id].released)
    && (forall i, j :: 0 <= i < j < |s.releases| ==> s.releases[i] != s.releases[j])
  }

  ghost predicate Inv(s: State) { Accounted(s) && JobsValid(s) && ReleasedOnce(s) }

  lemma JobsValidKept(s: State, step: Step)
    requires Enabled(s, step) && JobsValid(s)
    ensures JobsValid(Apply(s, step))
  {
  }

  lemma ReleasedOnceKept(s: State, step: Step)
    requires Enabled(s, step) && JobsValid(s) && ReleasedOnce(s)
    ensures ReleasedOnce(Apply(s, step))
  {
  }

  /** A step changes one job, and the counters follow whether it holds a slot. */
  lemma StepShape(s: State, step: Step)
    requires Enabled(s, step)
    ensures var t, id := Apply(s, step), step.id;
            if id !in t.jobs then t == s
            else
              var j := t.jobs[id];
              && t.jobs == s.jobs[id := j]
              && (id in s.jobs ==> s.jobs[id].publicShare == j.publicShare && (s.jobs[id].released ==> j.released))
              && (id !in s.jobs ==> !j.released && !Busy(Counters(s.active, s.publicActive), j.publicShare))
              && t.active == s.active - Holds(s, id) + Holds(t, id)
              && t.publicActive == s.publicActive - (if j.publicShare then Holds(s, id) else 0)
                                                  + (if j.publicShare then Holds(t, id) else 0)
  {
  }

  function Holds(s: State, id: int): int { if id in s.jobs && !s.jobs[id].released then 1 else 0 }

  function With(held: set<int>, id: int, holds: bool): set<int> { if holds then held + {id} else held - {id} }

  lemma SizeWith(held: set<int>, id: int, holds: bool)
    ensures |With(held, id, holds)| == |held| - (if id in held then 1 else 0) + (if holds then 1 else 0)
  {
    if id in held { assert held == held - {id} + {id}; }
  }

  /** The sets of holders change by at most the job that stepped. */
  lemma HoldersChange(s: State, t: State, id: int, j: Job)
    requires t.jobs == s.jobs[id := j]
    requires id in s.jobs ==> s.jobs[id].publicShare == j.publicShare
    ensures Holding(t) == With(Holding(s), id, !j.released)
    ensures HoldingPublic(t) == With(HoldingPublic(s), id, !j.released && j.publicShare)
  {
  }

  lemma AccountedKept(s: State, step: Step)
    requires Enabled(s, step) && Accounted(s)
    ensures Accounted(Apply(s, step))
  {
    var t, id := Apply(s, step), step.id;
    StepShape(s, step);
    hide Apply, Enabled;
    if id in t.jobs {
      var j := t.jobs[id];
      HoldersChange(s, t, id, j);
      SizeWith(Holding(s), id, !j.released);
      SizeWith(HoldingPublic(s), id, !j.released && j.publicShare);
      hide With;
    }
  }

  lemma {:induction false} InvHolds(run: seq<State>, steps: seq<Step>, n: nat)
    requires IsRun(run, steps) && n < |run|
    ensures Inv(run[n])
  {
    if n > 0 {
      InvHolds(run, steps, n - 1);
      hide Apply, Enabled, Accounted, JobsValid, ReleasedOnce;
      AccountedKept(run[n - 1], steps[n - 1]);
      JobsValidKept(run[n - 1], steps[n - 1]);
      ReleasedOnceKept(run[n - 1], steps[n - 1]);
    }
  }

  /** `active` is the admitted jobs that have not released, never above two, and one at most is public. */
  lemma SlotsAreAccounted(run: seq<State>, steps: seq<Step>, n: nat)
    requires IsRun(run, steps) && n < |run|
    ensures run[n].active == |Holding(run[n])| <= 2 && run[n].publicActive == |HoldingPublic(run[n])| <= 1
  {
    InvHolds(run, steps, n);
  }

  /** A job releases at most once, and only when its context or the browser has closed or it never had one. */
  lemma ReleasesAreEarned(run: seq<State>, steps: seq<Step>, n: nat, i: nat)
    requires IsRun(run, steps) && n < |run| && i < |run[n].releases|
    ensures var id := run[n].releases[i];
            && id in run[n].jobs
            && (run[n].jobs[id].cleanup.Closed? || (run[n].jobs[id].work.Settled? && !run[n].jobs[id].context))
            && forall k :: 0 <= k < |run[n].releases| && run[n].releases[k] == id ==> k == i
  {
    InvHolds(run, steps, n);
    assert run[n].releases[i] in run[n].releases;
  }

  // ---------------------------------------------------------------- every slot comes back

  /** How many of its calls a job can still be waiting on. */
  function Outstanding(j: Job): nat {
    (match j.work case Creating => 6 case Rendering => 4 case Cleaning => 2 case Settled => 0)
    + (match j.cleanup case NotStarted => 3 case ClosingContext => 2 case ClosingBrowser => 1 case _ => 0)
    + (if j.expired then 0 else 1)
  }

  /** Every step a job takes leaves it waiting on less, so it takes at most ten. */
  lemma StepsRunOut(s: State, step: Step)
    requires Enabled(s, step) && step.id in s.jobs
    ensures step.id in Apply(s, step).jobs
    ensures Outstanding(Apply(s, step).jobs[step.id]) < Outstanding(s.jobs[step.id]) <= 10
  {
  }

  /** A job that is waiting on nothing is settled, and has released unless neither context nor browser would close. */
  lemma QuietJobsReleased(run: seq<State>, steps: seq<Step>, n: nat, id: int)
    requires IsRun(run, steps) && n < |run| && id in run[n].jobs
    requires forall step: Step :: step.id == id ==> !Enabled(run[n], step)
    ensures run[n].jobs[id].work.Settled?
    ensures run[n].jobs[id].released <==> !run[n].jobs[id].cleanup.Stuck?
  {
    InvHolds(run, steps, n);
    var s := run[n];
    assert JobValid(s.jobs[id]);
    assert !Enabled(s, Created(id)) && !Enabled(s, RenderEnded(id)) && !Enabled(s, Settle(id));
    assert !Enabled(s, ContextClosed(id, true)) && !Enabled(s, BrowserClosed(id, true));
  }

  // ---------------------------------------------------------------- the deadline, and what closing comes to

  /** Past its deadline a job that has a context is closing it. */
  lemma DeadlineCloses(run: seq<State>, steps: seq<Step>, n: nat, id: int)
    requires IsRun(run, steps) && n < |run| && id in run[n].jobs && run[n].jobs[id].expired && run[n].jobs[id].context
    ensures !run[n].jobs[id].cleanup.NotStarted?
    ensures n < |steps| && run[n].jobs[id].cleanup.ClosingContext? && id in run[n + 1].jobs ==>
      run[n + 1].jobs[id].cleanup.ClosingContext? || steps[n] == ContextClosed(id, true) || steps[n] == ContextClosed(id, false)
  {
    InvHolds(run, steps, n);
    assert JobValid(run[n].jobs[id]);
  }

  /** A context that arrives before its deadline is rendered in; one that arrives later is closed. */
  lemma LateContextsClose(run: seq<State>, steps: seq<Step>, n: nat)
    requires IsRun(run, steps) && n < |steps| && steps[n].Created?
    ensures var before, after := run[n].jobs[steps[n].id], run[n + 1].jobs[steps[n].id];
            && after.context && (after.work.Rendering? <==> !before.expired)
            && (before.expired ==> after.work.Cleaning? && after.cleanup.ClosingContext?)
  {
    InvHolds(run, steps, n);
    assert JobValid(run[n].jobs[steps[n].id]);
  }

  ghost predicate Happened(steps: seq<Step>, n: nat, step: Step) {
    exists k :: 0 <= k < n && k < |steps| && steps[k] == step
  }

  /** The browser is closed only once the context would not close; a job is stuck only when neither would. */
  ghost predicate Caused(steps: seq<Step>, n: nat, id: int, cleanup: Cleanup) {
    match cleanup
    case NotStarted => true
    case ClosingContext => true
    case ClosingBrowser => Happened(steps, n, ContextClosed(id, false))
    case Closed =>
      || Happened(steps, n, ContextClosed(id, true))
      || (Happened(steps, n, ContextClosed(id, false)) && Happened(steps, n, BrowserClosed(id, true)))
    case Stuck => Happened(steps, n, ContextClosed(id, false)) && Happened(steps, n, BrowserClosed(id, false))
  }

  lemma HappenedStays(steps: seq<Step>, n: nat, step: Step)
    requires Happened(steps, n, step)
    ensures Happened(steps, n + 1, step)
  {
  }

  lemma CausedStays(steps: seq<Step>, n: nat, id: int, cleanup: Cleanup)
    requires Caused(steps, n, id, cleanup)
    ensures Caused(steps, n + 1, id, cleanup)
  {
    hide Happened;
    forall ok | Happened(steps, n, ContextClosed(id, ok)) ensures Happened(steps, n + 1, ContextClosed(id, ok)) {
      HappenedStays(steps, n, ContextClosed(id, ok));
    }
    forall ok | Happened(steps, n, BrowserClosed(id, ok)) ensures Happened(steps, n + 1, BrowserClosed(id, ok)) {
      HappenedStays(steps, n, BrowserClosed(id, ok));
    }
  }

  lemma JustHappened(steps: seq<Step>, n: nat)
    requires n < |steps|
    ensures Happened(steps, n + 1, steps[n])
  {
  }

  lemma CleanupMoves(s: State, step: Step, id: int)
    requires Enabled(s, step) && id in Apply(s, step).jobs
    ensures id !in s.jobs ==> Apply(s, step).jobs[id].cleanup.NotStarted?
    ensures id in s.jobs ==>
      var a, b := s.jobs[id].cleanup, Apply(s, step).jobs[id].cleanup;
      || a == b
      || (a.NotStarted? && b.ClosingContext?)
      || (step == ContextClosed(id, true) && a.ClosingContext? && b.Closed?)
      || (step == ContextClosed(id, false) && a.ClosingContext? && b.ClosingBrowser?)
      || (step == BrowserClosed(id, true) && a.ClosingBrowser? && b.Closed?)
      || (step == BrowserClosed(id, false) && a.ClosingBrowser? && b.Stuck?)
  {
  }

  /** Over every run, how far a job's closing has got goes back to what closed and what would not. */
  lemma {:induction false} CleanupsHaveCauses(run: seq<State>, steps: seq<Step>, n: nat, id: int)
    requires IsRun(run, steps) && n < |run| && id in run[n].jobs
    ensures Caused(steps, n, id, run[n].jobs[id].cleanup)
  {
    if n > 0 {
      var s, step := run[n - 1], steps[n - 1];
      CleanupMoves(s, step, id);
      JustHappened(steps, n - 1);
      if id in s.jobs {
        CleanupsHaveCauses(run, steps, n - 1, id);
        CausedStays(steps, n - 1, id, s.jobs[id].cleanup);
      }
      hide Apply, Enabled, Happened;
      if id in s.jobs && s.jobs[id].cleanup.ClosingBrowser? {
        assert Happened(steps, n, ContextClosed(id, false));
      }
    }
  }
}
