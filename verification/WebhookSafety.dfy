/** What holds of webhook delivery over every run: fenced claims, bounded attempts, spaced retries. */
module WebhookSafety {
  import opened Numbers
  import opened Webhooks

  // ---------------------------------------------------------------- the fence

  /** (attempts, nextAttemptAt), the token a claim is made and completed under, in lexicographic order. */
  predicate Before(attempts: nat, at: int, attempts': nat, at': int) {
    attempts < attempts' || (attempts == attempts' && at < at')
  }

  predicate AtMost(attempts: nat, at: int, attempts': nat, at': int) {
    attempts < attempts' || (attempts == attempts' && at <= at')
  }

  /** A row's token never goes back, a claim moves it strictly on, and so does a failed completion. */
  lemma TokenAdvances(s: State, step: Step, id: int)
    requires Enabled(s, step) && id in s.rows && id in Apply(s, step).rows && (id in s.used)
    ensures var d, e := s.rows[id], Apply(s, step).rows[id];
            && AtMost(d.attempts, d.nextAttemptAt, e.attempts, e.nextAttemptAt)
            && (e != d ==> Before(d.attempts, d.nextAttemptAt, e.attempts, e.nextAttemptAt))
  {
  }

  /** Delivered and failed are never left, nor is anything about such a row changed. */
  lemma TerminalIsFinal(s: State, step: Step, id: int)
    requires Enabled(s, step) && id in s.used && id in s.rows && s.rows[id].Terminal()
    ensures id in Apply(s, step).rows ==> Apply(s, step).rows[id] == s.rows[id]
    ensures id !in Apply(s, step).rows ==> step.Sweep? || Dropped(s, step, id)
  {
  }

  /** The delivery goes because its endpoint is being removed. */
  predicate Dropped(s: State, step: Step, id: int) {
    step.DropDeliveries? && id in s.rows && s.rows[id].endpoint == step.endpoint
  }

  /** What can take a delivery out of the table: the sweep of finished rows, or the removal of its endpoint. */
  predicate Removes(s: State, step: Step, id: int) {
    id in s.rows && ((step.Sweep? && s.rows[id].Terminal()) || Dropped(s, step, id))
  }

  /**
   * Over any stretch of a run: the token only moves forward, a finished row stays as it was, and a row is gone only
   * if it had finished and was swept or its endpoint was removed.
   */
  lemma {:induction false} RowsOnlyAdvance(run: seq<State>, steps: seq<Step>, m: nat, n: nat, id: int)
    requires IsRun(run, steps) && m <= n < |run| && id in run[m].rows
    ensures id in run[n].used
    ensures id in run[n].rows ==>
              var d, e := run[m].rows[id], run[n].rows[id];
              && AtMost(d.attempts, d.nextAttemptAt, e.attempts, e.nextAttemptAt)
              && (d.Terminal() ==> e == d)
    ensures id !in run[n].rows ==> exists k :: m <= k < n && Removes(run[k], steps[k], id)
  {
    if m == n {
      InvHolds(run, steps, m);
    } else {
      RowsOnlyAdvance(run, steps, m, n - 1, id);
      hide Apply, Enabled, Inv;
      RowAdvances(run[n - 1], steps[n - 1], id);
    }
  }

  lemma RowAdvances(s: State, step: Step, id: int)
    requires Enabled(s, step) && id in s.used
    ensures var t := Apply(s, step);
            && id in t.used && (id in t.rows ==> id in s.rows) && (id in s.rows && id !in t.rows ==> Removes(s, step, id))
            && (id in t.rows ==>
                 && AtMost(s.rows[id].attempts, s.rows[id].nextAttemptAt, t.rows[id].attempts, t.rows[id].nextAttemptAt)
                 && (s.rows[id].Terminal() ==> t.rows[id] == s.rows[id]))
  {
    UsedStays(s, step, id);
    if id in s.rows && id in Apply(s, step).rows {
      TokenAdvances(s, step, id);
      if s.rows[id].Terminal() { TerminalIsFinal(s, step, id); }
    }
    hide Apply, Enabled;
  }

  lemma UsedStays(s: State, step: Step, id: int)
    requires Enabled(s, step) && id in s.used
    ensures id in Apply(s, step).used
    ensures id in s.rows && id !in Apply(s, step).rows ==> Removes(s, step, id)
    ensures id !in s.rows ==> id !in Apply(s, step).rows
  {
  }

  // ---------------------------------------------------------------- the invariant

  function CountFor(outcomes: seq<Outcome>, id: int): nat {
    if |outcomes| == 0 then 0
    else CountFor(outcomes[..|outcomes| - 1], id) + (if outcomes[|outcomes| - 1].id == id then 1 else 0)
  }

  ghost predicate KnownIds(s: State) {
    && (forall id :: id in s.rows ==> id in s.used)
    && (forall i :: 0 <= i < |s.claims| ==> s.claims[i].id in s.used)
    && (forall i :: 0 <= i < |s.outcomes| ==> s.outcomes[i].id in s.used)
  }

  /** No claim is ahead of its row, and the claims on one delivery are strictly ordered. */
  ghost predicate ClaimsFenced(s: State) {
    && (forall i :: 0 <= i < |s.claims| ==>
         var c := s.claims[i];
         && c.until == c.at + CLAIM_LEASE_MS
         && (c.id in s.rows ==> AtMost(c.attempts, c.until, s.rows[c.id].attempts, s.rows[c.id].nextAttemptAt)))
    && (forall i, j :: 0 <= i < j < |s.claims| && s.claims[i].id == s.claims[j].id ==>
         && Before(s.claims[i].attempts, s.claims[i].until, s.claims[j].attempts, s.claims[j].until)
         && (s.claims[i].attempts == s.claims[j].attempts ==> s.claims[i].until <= s.claims[j].at))
  }

  /** What a worker holds, it once matched. */
  ghost predicate HeldWasClaimed(s: State) {
    forall w :: w in s.workers && s.workers[w].Posting? ==>
      exists i :: 0 <= i < |s.claims| && IsClaimOf(s.claims[i], w, s.workers[w].claimed, s.workers[w].until)
  }

  predicate IsClaimOf(c: Claim, w: int, d: Candidate, until: int) {
    c.worker == w && c.id == d.id && c.attempts == d.attempts && c.until == until
  }

  /** A delivery's attempt count is the number of outcomes recorded for it, and pending means some remain. */
  ghost predicate AttemptsCounted(s: State) {
    forall id :: CountedFor(s, id)
  }

  ghost predicate CountedFor(s: State, id: int) {
    && CountFor(s.outcomes, id) <= MAX_ATTEMPTS
    && (id !in s.used ==> CountFor(s.outcomes, id) == 0)
    && (id in s.rows ==>
         && s.rows[id].attempts == CountFor(s.outcomes, id)
         && (s.rows[id].status == Pending ==> s.rows[id].attempts < MAX_ATTEMPTS))
  }

  /** The n-th outcome of a delivery is numbered n. */
  ghost predicate OutcomesNumbered(s: State) {
    forall k :: 0 <= k < |s.outcomes| ==>
      s.outcomes[k].attempt == CountFor(s.outcomes[..k], s.outcomes[k].id) + 1
  }

  /** A delivery is delivered exactly when its last outcome was a success, and no earlier one can have been. */
  ghost predicate SuccessIsLast(s: State) {
    && (forall k :: 0 <= k < |s.outcomes| && Ok(s.outcomes[k].code) && s.outcomes[k].id in s.rows ==>
         var d := s.rows[s.outcomes[k].id]; d.status == Delivered && d.attempts == s.outcomes[k].attempt)
    && (forall id :: id in s.rows && s.rows[id].status == Delivered ==> Succeeded(s, id))
  }

  ghost predicate Succeeded(s: State, id: int) {
    exists k :: 0 <= k < |s.outcomes| && s.outcomes[k].id == id && Ok(s.outcomes[k].code)
  }

  /** In the log itself, swept and removed deliveries included: nothing is recorded after a success. */
  ghost predicate SuccessEnds(outcomes: seq<Outcome>) {
    forall k, l :: 0 <= k < l < |outcomes| && outcomes[k].id == outcomes[l].id ==> !Ok(outcomes[k].code)
  }

  ghost predicate LastFor(outcomes: seq<Outcome>, k: nat)
    requires k < |outcomes|
  {
    forall l :: k < l < |outcomes| ==> outcomes[l].id != outcomes[k].id
  }

  ghost predicate HeldUntil(s: State, id: int, attempts: nat, at: int) {
    exists i :: 0 <= i < |s.claims| && s.claims[i].id == id && s.claims[i].attempts == attempts && s.claims[i].until == at
  }

  /** A row as its last outcome left it, but for the due time, which only a later claim moves. */
  ghost predicate Shown(s: State, o: Outcome) {
    o.id in s.rows ==>
      var d := s.rows[o.id];
      && d.attempts == o.attempt && d.responseCode == o.code
      && d.status == (if Ok(o.code) then Delivered else if o.attempt >= MAX_ATTEMPTS then Failed else Pending)
      && d.deliveredAt == (if Ok(o.code) then Some(o.at) else None)
      && (!Ok(o.code) ==>
           d.nextAttemptAt == o.at + RetryDelayMs(o.attempt) || HeldUntil(s, o.id, o.attempt, d.nextAttemptAt))
  }

  ghost predicate Untried(s: State, id: int) { forall k :: 0 <= k < |s.outcomes| ==> s.outcomes[k].id != id }

  ghost predicate RowsShowLast(s: State) {
    && (forall k :: 0 <= k < |s.outcomes| && LastFor(s.outcomes, k) ==> Shown(s, s.outcomes[k]))
    && (forall id :: id in s.rows && Untried(s, id) ==>
         && s.rows[id].status == Pending && s.rows[id].attempts == 0
         && s.rows[id].responseCode == None && s.rows[id].deliveredAt == None)
  }

  /** A candidate names a delivery there has been, and that delivery's endpoint. */
  ghost predicate True(s: State, c: Candidate) {
    c.id in s.used && (c.id in s.rows ==> s.rows[c.id].endpoint == c.endpoint)
  }

  /** What a worker carries is true, and what it is about to record is the outcome it logged. */
  ghost predicate CarriesTruth(s: State, w: int)
    requires w in s.workers
  {
    match s.workers[w]
    case Idle => true
    case Draining(queue) => AllTrue(s, queue)
    case Posting(c, _, queue) => True(s, c) && AllTrue(s, queue)
    case Recording(k, c, ok, at, queue) =>
      && True(s, c) && AllTrue(s, queue) && k < |s.outcomes|
      && s.outcomes[k].id == c.id && s.outcomes[k].at == at && ok == Ok(s.outcomes[k].code)
  }

  ghost predicate AllTrue(s: State, queue: seq<Candidate>) { forall i :: 0 <= i < |queue| ==> True(s, queue[i]) }

  ghost predicate WorkersTrue(s: State) { forall w :: w in s.workers ==> CarriesTruth(s, w) }

  /** A pending row waits out the delay its last recorded failure set, from when that failure finished. */
  ghost predicate RetriesWait(s: State) {
    && (forall k :: 0 <= k < |s.outcomes| ==> Waits(s, s.outcomes[k]))
    && (forall i, k :: 0 <= i < |s.claims| && 0 <= k < |s.outcomes| ==> Spaced(s.claims[i], s.outcomes[k]))
  }

  ghost predicate Waits(s: State, o: Outcome) {
    o.id in s.rows && s.rows[o.id].status == Pending && s.rows[o.id].attempts == o.attempt ==>
      s.rows[o.id].nextAttemptAt >= o.at + RetryDelayMs(o.attempt)
  }

  predicate Spaced(c: Claim, o: Outcome) {
    c.id == o.id && c.attempts == o.attempt ==> c.at >= o.at + RetryDelayMs(o.attempt)
  }

  /** Each recorded outcome completes the latest claim there was, and belongs to the worker who made it. */
  ghost predicate OutcomesOwned(s: State) {
    forall k :: 0 <= k < |s.outcomes| ==> Owned(s, s.outcomes[k])
  }

  ghost predicate Owned(s: State, o: Outcome) {
    exists i :: 0 <= i < |s.claims| && Completes(s, i, o)
  }

  ghost predicate Completes(s: State, i: nat, o: Outcome)
    requires i < |s.claims|
  {
    var c := s.claims[i];
    && c.worker == o.worker && c.id == o.id && c.attempts + 1 == o.attempt && c.until == o.until
    && forall j :: i < j < |s.claims| && s.claims[j].id == o.id ==> s.claims[j].attempts >= o.attempt
  }

  /** Endpoint statistics are written at most once for each recorded outcome. */
  ghost predicate StatisticsOnce(s: State) {
    && (forall k :: k in s.recorded ==> k < |s.outcomes|)
    && (forall w :: w in s.workers && s.workers[w].Recording? ==>
         s.workers[w].outcome < |s.outcomes| && s.workers[w].outcome !in s.recorded)
    && (forall v, w :: v in s.workers && w in s.workers && s.workers[v].Recording? && s.workers[w].Recording? ==>
         v == w || s.workers[v].outcome != s.workers[w].outcome)
  }

  /** A delivery in the table has its endpoint. */
  ghost predicate EndpointsPresent(s: State) { forall id :: id in s.rows ==> s.rows[id].endpoint in s.endpoints }

  ghost predicate Inv(s: State) {
    && KnownIds(s) && EndpointsPresent(s) && ClaimsFenced(s) && HeldWasClaimed(s) && AttemptsCounted(s)
    && OutcomesNumbered(s) && SuccessIsLast(s) && SuccessEnds(s.outcomes) && RetriesWait(s) && OutcomesOwned(s)
    && StatisticsOnce(s) && RowsShowLast(s) && WorkersTrue(s)
  }

  // ---------------------------------------------------------------- it is kept by every step

  lemma KnownIdsKept(s: State, step: Step)
    requires Enabled(s, step) && KnownIds(s)
    ensures KnownIds(Apply(s, step))
  {
  }

  lemma EndpointsPresentKept(s: State, step: Step)
    requires Enabled(s, step) && EndpointsPresent(s)
    ensures EndpointsPresent(Apply(s, step))
  {
  }

  lemma ClaimsFencedKept(s: State, step: Step)
    requires Enabled(s, step) && KnownIds(s) && ClaimsFenced(s)
    ensures ClaimsFenced(Apply(s, step))
  {
    LogsGrow(s, step);
    var t := Apply(s, step);
    forall i | 0 <= i < |t.claims|
      ensures var c := t.claims[i];
              && c.until == c.at + CLAIM_LEASE_MS
              && (c.id in t.rows ==> AtMost(c.attempts, c.until, t.rows[c.id].attempts, t.rows[c.id].nextAttemptAt))
    {
      if i < |s.claims| { RowKeepsPace(s, step, s.claims[i].id); }
    }
  }

  /** A row that was there, if it still is, has a token no earlier than before; none comes back under a used id. */
  lemma RowKeepsPace(s: State, step: Step, id: int)
    requires Enabled(s, step) && KnownIds(s) && id in s.used
    ensures id in Apply(s, step).rows ==> id in s.rows
    ensures id in Apply(s, step).rows ==>
              var d, e := s.rows[id], Apply(s, step).rows[id];
              AtMost(d.attempts, d.nextAttemptAt, e.attempts, e.nextAttemptAt)
  {
  }

  lemma HeldWasClaimedKept(s: State, step: Step)
    requires Enabled(s, step) && HeldWasClaimed(s)
    ensures HeldWasClaimed(Apply(s, step))
  {
    var t := Apply(s, step);
    assert s.claims <= t.claims;
    forall w | w in t.workers && t.workers[w].Posting?
      ensures exists i :: 0 <= i < |t.claims| && IsClaimOf(t.claims[i], w, t.workers[w].claimed, t.workers[w].until)
    {
      if w in s.workers && s.workers[w] == t.workers[w] {
        var i :| 0 <= i < |s.claims| && IsClaimOf(s.claims[i], w, s.workers[w].claimed, s.workers[w].until);
        assert IsClaimOf(t.claims[i], w, t.workers[w].claimed, t.workers[w].until);
      } else {
        assert IsClaimOf(t.claims[|s.claims|], w, t.workers[w].claimed, t.workers[w].until);
      }
    }
  }

  lemma CountSnoc(outcomes: seq<Outcome>, o: Outcome, id: int)
    ensures CountFor(outcomes + [o], id) == CountFor(outcomes, id) + (if o.id == id then 1 else 0)
  {
    assert (outcomes + [o])[..|outcomes|] == outcomes;
  }

  lemma CountGrows(s: State, step: Step, id: int)
    requires Enabled(s, step)
    ensures var t := Apply(s, step);
            CountFor(t.outcomes, id) == CountFor(s.outcomes, id)
              + (if |t.outcomes| > |s.outcomes| && t.outcomes[|s.outcomes|].id == id then 1 else 0)
  {
    if step.Finish? && |Apply(s, step).outcomes| > |s.outcomes| {
      CountSnoc(s.outcomes, Apply(s, step).outcomes[|s.outcomes|], id);
    }
  }

  lemma AttemptsCountedKept(s: State, step: Step)
    requires Enabled(s, step) && KnownIds(s) && AttemptsCounted(s)
    ensures AttemptsCounted(Apply(s, step))
  {
    forall id ensures CountedFor(Apply(s, step), id) {
      CountGrows(s, step, id);
      hide CountFor;
      assert CountedFor(s, id);
    }
  }

  /** An outcome logged so far stays where it was. */
  lemma LogsGrow(s: State, step: Step)
    requires Enabled(s, step)
    ensures var t := Apply(s, step);
            && s.outcomes <= t.outcomes && |t.outcomes| <= |s.outcomes| + 1
            && s.claims <= t.claims && |t.claims| <= |s.claims| + 1
            && (forall k :: 0 <= k <= |s.outcomes| ==> t.outcomes[..k] == s.outcomes[..k])
            && (forall k :: 0 <= k < |s.outcomes| ==> t.outcomes[k] == s.outcomes[k])
            && (forall k :: 0 <= k < |s.claims| ==> t.claims[k] == s.claims[k])
  {
  }

  lemma OutcomesNumberedKept(s: State, step: Step)
    requires Enabled(s, step) && AttemptsCounted(s) && OutcomesNumbered(s)
    ensures OutcomesNumbered(Apply(s, step))
  {
    LogsGrow(s, step);
    var t := Apply(s, step);
    forall k | 0 <= k < |t.outcomes| ensures t.outcomes[k].attempt == CountFor(t.outcomes[..k], t.outcomes[k].id) + 1 {
      if k == |s.outcomes| {
        hide CountFor;
        assert t.outcomes[..k] == s.outcomes;
        assert CountedFor(s, t.outcomes[k].id);
      }
    }
  }

  lemma {:induction false} OutcomeWithin(outcomes: seq<Outcome>, k: nat)
    requires k < |outcomes|
    ensures CountFor(outcomes[..k], outcomes[k].id) + 1 <= CountFor(outcomes, outcomes[k].id)
  {
    var n := |outcomes| - 1;
    if k < n {
      OutcomeWithin(outcomes[..n], k);
      assert outcomes[..n][..k] == outcomes[..k];
    }
  }

  /** No outcome is numbered past its row's attempt count. */
  lemma NumberedWithin(s: State, k: nat)
    requires AttemptsCounted(s) && OutcomesNumbered(s) && k < |s.outcomes|
    ensures 1 <= s.outcomes[k].attempt <= CountFor(s.outcomes, s.outcomes[k].id)
    ensures s.outcomes[k].id in s.rows ==> s.outcomes[k].attempt <= s.rows[s.outcomes[k].id].attempts
  {
    OutcomeWithin(s.outcomes, k);
    assert CountedFor(s, s.outcomes[k].id);
  }

  /** An outcome is recorded only for a pending row, and a success leaves none pending. */
  lemma SuccessEndsKept(s: State, step: Step)
    requires Enabled(s, step) && SuccessIsLast(s) && SuccessEnds(s.outcomes)
    ensures SuccessEnds(Apply(s, step).outcomes)
  {
    LogsGrow(s, step);
    var t := Apply(s, step);
    forall k, l | 0 <= k < l < |t.outcomes| && t.outcomes[k].id == t.outcomes[l].id ensures !Ok(t.outcomes[k].code) {
      if l < |s.outcomes| { assert s.outcomes[k].id == s.outcomes[l].id; }
    }
  }

  lemma SuccessIsLastKept(s: State, step: Step)
    requires Enabled(s, step) && KnownIds(s) && SuccessIsLast(s)
    ensures SuccessIsLast(Apply(s, step))
  {
    LogsGrow(s, step);
    var t := Apply(s, step);
    forall id | id in t.rows && t.rows[id].status == Delivered ensures Succeeded(t, id) {
      if id in s.rows && s.rows[id].status == Delivered {
        assert Succeeded(s, id);
        var k :| 0 <= k < |s.outcomes| && s.outcomes[k].id == id && Ok(s.outcomes[k].code);
        assert t.outcomes[k].id == id && Ok(t.outcomes[k].code);
      } else {
        assert t.outcomes[|s.outcomes|].id == id && Ok(t.outcomes[|s.outcomes|].code);
      }
    }
    forall k | 0 <= k < |t.outcomes| && Ok(t.outcomes[k].code) && t.outcomes[k].id in t.rows
      ensures var d := t.rows[t.outcomes[k].id]; d.status == Delivered && d.attempts == t.outcomes[k].attempt
    {
      if k < |s.outcomes| { assert s.outcomes[k] == t.outcomes[k] && s.outcomes[k].id in s.used; }
    }
  }

  lemma WaitsKept(s: State, step: Step, k: nat)
    requires Enabled(s, step) && KnownIds(s) && AttemptsCounted(s) && OutcomesNumbered(s) && RetriesWait(s)
    requires k < |Apply(s, step).outcomes|
    ensures Waits(Apply(s, step), Apply(s, step).outcomes[k])
  {
    hide RetryDelayMs, CountFor;
    LogsGrow(s, step);
    if k < |s.outcomes| {
      NumberedWithin(s, k);
      assert Waits(s, s.outcomes[k]) && s.outcomes[k].id in s.used;
    }
  }

  lemma SpacedKept(s: State, step: Step, i: nat, k: nat)
    requires Enabled(s, step) && KnownIds(s) && AttemptsCounted(s) && OutcomesNumbered(s) && ClaimsFenced(s) && RetriesWait(s)
    requires i < |Apply(s, step).claims| && k < |Apply(s, step).outcomes|
    ensures Spaced(Apply(s, step).claims[i], Apply(s, step).outcomes[k])
  {
    hide RetryDelayMs, CountFor;
    LogsGrow(s, step);
    if k < |s.outcomes| {
      if i < |s.claims| { assert Spaced(s.claims[i], s.outcomes[k]); } else { assert Waits(s, s.outcomes[k]); }
    }
  }

  lemma RetriesWaitKept(s: State, step: Step)
    requires Enabled(s, step) && KnownIds(s) && AttemptsCounted(s) && OutcomesNumbered(s) && ClaimsFenced(s) && RetriesWait(s)
    ensures RetriesWait(Apply(s, step))
  {
    var t := Apply(s, step);
    forall k | 0 <= k < |t.outcomes| ensures Waits(t, t.outcomes[k]) { WaitsKept(s, step, k); }
    forall i, k | 0 <= i < |t.claims| && 0 <= k < |t.outcomes| ensures Spaced(t.claims[i], t.outcomes[k]) {
      SpacedKept(s, step, i, k);
    }
  }

  /** The worker whose completion matches holds the latest claim on that delivery. */
  lemma HolderIsLatest(s: State, w: int, i: nat, j: nat)
    requires ClaimsFenced(s) && WorkerAt(s, w).Posting?
    requires Holds(s.rows, WorkerAt(s, w).claimed, WorkerAt(s, w).until)
    requires i < j < |s.claims| && IsClaimOf(s.claims[i], w, WorkerAt(s, w).claimed, WorkerAt(s, w).until)
    ensures s.claims[j].id != s.claims[i].id
  {
  }

  lemma OutcomesOwnedKept(s: State, step: Step)
    requires Enabled(s, step) && KnownIds(s) && ClaimsFenced(s) && HeldWasClaimed(s)
    requires AttemptsCounted(s) && OutcomesNumbered(s) && OutcomesOwned(s)
    ensures OutcomesOwned(Apply(s, step))
  {
    LogsGrow(s, step);
    var t := Apply(s, step);
    forall k | 0 <= k < |t.outcomes| ensures Owned(t, t.outcomes[k]) {
      if k < |s.outcomes| {
        assert Owned(s, s.outcomes[k]);
        var i :| 0 <= i < |s.claims| && Completes(s, i, s.outcomes[k]);
        NumberedWithin(s, k);
        StillCompletes(s, step, i, k);
      } else {
        var w := step.w;
        var i :| 0 <= i < |s.claims| && IsClaimOf(s.claims[i], w, s.workers[w].claimed, s.workers[w].until);
        forall j | i < j < |t.claims| ensures t.claims[j].id != s.claims[i].id { HolderIsLatest(s, w, i, j); }
        assert Completes(t, i, t.outcomes[k]);
      }
    }
  }

  lemma StillCompletes(s: State, step: Step, i: nat, k: nat)
    requires Enabled(s, step) && KnownIds(s) && AttemptsCounted(s)
    requires i < |s.claims| && k < |s.outcomes| && Completes(s, i, s.outcomes[k])
    requires s.outcomes[k].id in s.rows ==> s.outcomes[k].attempt <= s.rows[s.outcomes[k].id].attempts
    ensures i < |Apply(s, step).claims| && Completes(Apply(s, step), i, Apply(s, step).outcomes[k])
  {
    hide CountFor;
    LogsGrow(s, step);
  }

  lemma StatisticsOnceKept(s: State, step: Step)
    requires Enabled(s, step) && StatisticsOnce(s)
    ensures StatisticsOnce(Apply(s, step))
  {
  }

  lemma LastShownKept(s: State, step: Step, k: nat)
    requires Enabled(s, step) && KnownIds(s) && RowsShowLast(s)
    requires k < |Apply(s, step).outcomes| && LastFor(Apply(s, step).outcomes, k)
    ensures Shown(Apply(s, step), Apply(s, step).outcomes[k])
  {
    LogsGrow(s, step);
    var t := Apply(s, step);
    var o := t.outcomes[k];
    if k < |s.outcomes| {
      hide RetryDelayMs, Apply, Enabled, HeldUntil, Ok;
      assert LastFor(s.outcomes, k);
      assert Shown(s, o) && o.id in s.used;
      if o.id in t.rows {
        UsedStays(s, step, o.id);
        if |t.outcomes| > |s.outcomes| { assert t.outcomes[|s.outcomes|].id != o.id; }
        RowMoves(s, step, o.id);
        if t.rows[o.id] != s.rows[o.id] {
          HeldNow(t, |s.claims|);
        } else if HeldUntil(s, o.id, o.attempt, s.rows[o.id].nextAttemptAt) {
          HeldStays(s, t, o.id, o.attempt, s.rows[o.id].nextAttemptAt);
        }
      }
    } else {
      hide *;
      NewOutcomeShows(s, step);
    }
  }

  /** A row as the outcome that has just been recorded leaves it. */
  lemma NewOutcomeShows(s: State, step: Step)
    requires Enabled(s, step) && |Apply(s, step).outcomes| == |s.outcomes| + 1
    ensures Shown(Apply(s, step), Apply(s, step).outcomes[|s.outcomes|])
  {
    hide RetryDelayMs, HeldUntil, ClaimRow, Claimable, Prune, Without, Recorded;
  }

  /** Short of a new outcome for it, only a claim changes a row, and only its due time. */
  lemma RowMoves(s: State, step: Step, id: int)
    requires Enabled(s, step) && id in s.used && id in s.rows && id in Apply(s, step).rows
    requires |Apply(s, step).outcomes| > |s.outcomes| ==> Apply(s, step).outcomes[|s.outcomes|].id != id
    ensures var d, t := s.rows[id], Apply(s, step);
            || t.rows[id] == d
            || (&& |t.claims| == |s.claims| + 1 && t.claims[|s.claims|].id == id && d.status == Pending
                && t.claims[|s.claims|].attempts == d.attempts
                && t.rows[id] == d.(nextAttemptAt := t.claims[|s.claims|].until))
  {
  }

  lemma HeldNow(s: State, i: nat)
    requires i < |s.claims|
    ensures HeldUntil(s, s.claims[i].id, s.claims[i].attempts, s.claims[i].until)
  {
  }

  lemma HeldStays(s: State, t: State, id: int, attempts: nat, at: int)
    requires HeldUntil(s, id, attempts, at) && s.claims <= t.claims
    ensures HeldUntil(t, id, attempts, at)
  {
    var i :| 0 <= i < |s.claims| && s.claims[i].id == id && s.claims[i].attempts == attempts && s.claims[i].until == at;
    assert t.claims[i] == s.claims[i];
  }

  lemma UntriedKept(s: State, step: Step, id: int)
    requires Enabled(s, step) && KnownIds(s) && RowsShowLast(s) && id in Apply(s, step).rows && Untried(Apply(s, step), id)
    ensures var d := Apply(s, step).rows[id];
            d.status == Pending && d.attempts == 0 && d.responseCode == None && d.deliveredAt == None
  {
    LogsGrow(s, step);
    var t := Apply(s, step);
    forall k | 0 <= k < |s.outcomes| ensures s.outcomes[k].id != id { assert t.outcomes[k].id != id; }
    assert Untried(s, id);
    if |t.outcomes| > |s.outcomes| { assert t.outcomes[|s.outcomes|].id != id; }
  }

  lemma RowsShowLastKept(s: State, step: Step)
    requires Enabled(s, step) && KnownIds(s) && RowsShowLast(s)
    ensures RowsShowLast(Apply(s, step))
  {
    var t := Apply(s, step);
    forall k | 0 <= k < |t.outcomes| && LastFor(t.outcomes, k) ensures Shown(t, t.outcomes[k]) {
      LastShownKept(s, step, k);
    }
    forall id | id in t.rows && Untried(t, id)
      ensures t.rows[id].status == Pending && t.rows[id].attempts == 0
      ensures t.rows[id].responseCode == None && t.rows[id].deliveredAt == None
    {
      UntriedKept(s, step, id);
    }
  }

  /** No step changes a delivery's endpoint, or gives a used id to another delivery. */
  lemma TrueStays(s: State, step: Step, c: Candidate)
    requires Enabled(s, step) && KnownIds(s) && True(s, c)
    ensures True(Apply(s, step), c)
  {
  }

  lemma AllTrueStays(s: State, step: Step, queue: seq<Candidate>)
    requires Enabled(s, step) && KnownIds(s) && AllTrue(s, queue)
    ensures AllTrue(Apply(s, step), queue)
  {
    forall i | 0 <= i < |queue| ensures True(Apply(s, step), queue[i]) {
      assert True(s, queue[i]);
      TrueStays(s, step, queue[i]);
    }
  }

  lemma SelectedIsTrue(s: State, step: Step)
    requires Enabled(s, step) && KnownIds(s) && step.Select?
    ensures AllTrue(s, step.picks)
  {
  }

  lemma CarriesTruthKept(s: State, step: Step, w: int)
    requires Enabled(s, step) && KnownIds(s) && WorkersTrue(s) && w in Apply(s, step).workers
    ensures CarriesTruth(Apply(s, step), w)
  {
    LogsGrow(s, step);
    if step.Select? { SelectedIsTrue(s, step); AllTrueStays(s, step, step.picks); }
    if w in s.workers {
      assert CarriesTruth(s, w);
      match s.workers[w] {
        case Idle =>
        case Draining(queue) =>
          AllTrueStays(s, step, queue);
          if |queue| > 0 {
            assert AllTrue(s, queue[1..]) && True(s, queue[0]);
            AllTrueStays(s, step, queue[1..]);
            TrueStays(s, step, queue[0]);
          }
        case Posting(c, _, queue) =>
          TrueStays(s, step, c);
          AllTrueStays(s, step, queue);
        case Recording(_, c, _, _, queue) =>
          TrueStays(s, step, c);
          AllTrueStays(s, step, queue);
      }
      hide True, AllTrue;
    }
  }

  lemma WorkersTrueKept(s: State, step: Step)
    requires Enabled(s, step) && KnownIds(s) && WorkersTrue(s)
    ensures WorkersTrue(Apply(s, step))
  {
    var t := Apply(s, step);
    forall w | w in t.workers ensures CarriesTruth(t, w) { CarriesTruthKept(s, step, w); }
  }

  /** Nothing any worker, crash, sweep or clock can do breaks the invariant. */
  lemma InvKept(s: State, step: Step)
    requires Enabled(s, step) && Inv(s)
    ensures Inv(Apply(s, step))
  {
    hide KnownIds, ClaimsFenced, HeldWasClaimed, AttemptsCounted, OutcomesNumbered, SuccessIsLast, SuccessEnds,
         RetriesWait, OutcomesOwned, StatisticsOnce, EndpointsPresent, RowsShowLast, WorkersTrue, Apply;
    KnownIdsKept(s, step);
    EndpointsPresentKept(s, step);
    ClaimsFencedKept(s, step);
    HeldWasClaimedKept(s, step);
    AttemptsCountedKept(s, step);
    OutcomesNumberedKept(s, step);
    SuccessIsLastKept(s, step);
    SuccessEndsKept(s, step);
    RetriesWaitKept(s, step);
    OutcomesOwnedKept(s, step);
    StatisticsOnceKept(s, step);
    RowsShowLastKept(s, step);
    WorkersTrueKept(s, step);
  }

  lemma {:induction false} InvHolds(run: seq<State>, steps: seq<Step>, n: nat)
    requires IsRun(run, steps) && n < |run|
    ensures Inv(run[n])
  {
    if n > 0 {
      InvHolds(run, steps, n - 1);
      InvKept(run[n - 1], steps[n - 1]);
    }
  }

  // ---------------------------------------------------------------- what a receiver can rely on

  /** No two claims on a delivery ever carry the same token, and a lease that has not been completed is exclusive. */
  lemma ClaimsAreFenced(run: seq<State>, steps: seq<Step>, n: nat, i: nat, j: nat)
    requires IsRun(run, steps) && n < |run| && i < j < |run[n].claims| && run[n].claims[i].id == run[n].claims[j].id
    ensures var c, d := run[n].claims[i], run[n].claims[j];
            && (c.attempts, c.until) != (d.attempts, d.until)
            && Before(c.attempts, c.until, d.attempts, d.until)
            && (c.attempts == d.attempts ==> c.at + 60_000 <= d.at)
  {
    InvHolds(run, steps, n);
  }

  /** Whoever records an outcome made the claim it completes, and nobody had claimed that delivery since. */
  lemma OnlyLatestClaimantRecords(run: seq<State>, steps: seq<Step>, n: nat)
    requires IsRun(run, steps) && n < |steps| && steps[n].Finish?
    requires Holds(run[n].rows, run[n].workers[steps[n].w].claimed, run[n].workers[steps[n].w].until)
    ensures exists i :: 0 <= i < |run[n].claims|
              && IsClaimOf(run[n].claims[i], steps[n].w, run[n].workers[steps[n].w].claimed, run[n].workers[steps[n].w].until)
              && forall j :: i < j < |run[n].claims| ==> run[n].claims[j].id != run[n].claims[i].id
  {
    InvHolds(run, steps, n);
    var s, w := run[n], steps[n].w;
    var i :| 0 <= i < |s.claims| && IsClaimOf(s.claims[i], w, s.workers[w].claimed, s.workers[w].until);
    forall j | i < j < |s.claims| ensures s.claims[j].id != s.claims[i].id { HolderIsLatest(s, w, i, j); }
  }

  /** The outcomes recorded for a delivery are its attempts, never more than four, swept or not. */
  lemma AttemptsAreOutcomes(run: seq<State>, steps: seq<Step>, n: nat, id: int)
    requires IsRun(run, steps) && n < |run|
    ensures CountFor(run[n].outcomes, id) <= 4
    ensures id in run[n].rows ==> run[n].rows[id].attempts == CountFor(run[n].outcomes, id)
    ensures id in run[n].rows ==> (run[n].rows[id].status == Delivered <==> Succeeded(run[n], id))
  {
    InvHolds(run, steps, n);
    assert CountedFor(run[n], id);
  }

  /**
   * Over every run a row is what its last answer made it: delivered if and only if that was a 2xx, and otherwise
   * failed after the fourth attempt and pending before it, due again after the delay of that attempt unless claimed.
   */
  lemma LastAnswerDecides(run: seq<State>, steps: seq<Step>, n: nat, k: nat)
    requires IsRun(run, steps) && n < |run| && k < |run[n].outcomes| && LastFor(run[n].outcomes, k)
    requires run[n].outcomes[k].id in run[n].rows
    ensures var o, d := run[n].outcomes[k], run[n].rows[run[n].outcomes[k].id];
            && d.responseCode == o.code && d.attempts == CountFor(run[n].outcomes, o.id)
            && (d.status == Delivered <==> o.code.Some? && 200 <= o.code.value < 300)
            && (d.status == Failed <==> d.attempts == 4 && !(o.code.Some? && 200 <= o.code.value < 300))
            && d.deliveredAt == (if d.status == Delivered then Some(o.at) else None)
            && (d.status == Pending ==>
                 || d.nextAttemptAt == o.at + (match d.attempts case 1 => 30_000 case 2 => 300_000 case _ => 1_800_000)
                 || HeldUntil(run[n], o.id, d.attempts, d.nextAttemptAt))
  {
    InvHolds(run, steps, n);
    assert Shown(run[n], run[n].outcomes[k]);
    assert CountedFor(run[n], run[n].outcomes[k].id);
    NumberedWithin(run[n], k);
  }

  /** A delivery no answer has been recorded for is pending and has no attempts. */
  lemma UntriedIsPending(run: seq<State>, steps: seq<Step>, n: nat, id: int)
    requires IsRun(run, steps) && n < |run| && id in run[n].rows && Untried(run[n], id)
    ensures run[n].rows[id].status == Pending && run[n].rows[id].attempts == 0 && run[n].rows[id].responseCode == None
  {
    InvHolds(run, steps, n);
  }

  /**
   * The statistics follow the answer: recording an outcome clears its endpoint's count after a 2xx and raises it by one
   * after anything else, parks it at the twentieth, touches no other endpoint, and happens once for each outcome.
   */
  lemma CountsFollowAnswers(run: seq<State>, steps: seq<Step>, n: nat)
    requires IsRun(run, steps) && n < |steps| && steps[n].Record?
    ensures var s, t, r := run[n], run[n + 1], run[n].workers[steps[n].w];
            && r.outcome < |s.outcomes| && r.outcome !in s.recorded && r.outcome in t.recorded
            && var o, e := s.outcomes[r.outcome], r.done.endpoint;
               && (o.id in s.rows ==> s.rows[o.id].endpoint == e) && t.rows == s.rows
               && (forall x :: x != e ==> (x in t.endpoints <==> x in s.endpoints))
               && (forall x :: x != e && x in s.endpoints ==> t.endpoints[x] == s.endpoints[x])
               && (e in t.endpoints <==> e in s.endpoints)
               && (e in s.endpoints && o.code.Some? && 200 <= o.code.value < 300 ==>
                    t.endpoints[e] == Endpoint(0, s.endpoints[e].active, Some(o.at)))
               && (e in s.endpoints && !(o.code.Some? && 200 <= o.code.value < 300) ==>
                    t.endpoints[e] == Endpoint(s.endpoints[e].failureCount + 1,
                      s.endpoints[e].active && r.done.failureCount + 1 < 20, Some(o.at)))
  {
    InvHolds(run, steps, n);
    assert CarriesTruth(run[n], steps[n].w);
  }

  /** What a claim takes was pending, due, and had an attempt left. */
  lemma ClaimsTakeWhatIsDue(run: seq<State>, steps: seq<Step>, n: nat)
    requires IsRun(run, steps) && n < |steps| && steps[n].TryClaim?
    ensures var s, c := run[n], WorkerAt(run[n], steps[n].w).queue[0];
            |run[n + 1].claims| > |s.claims| <==>
              && c.id in s.rows && s.rows[c.id].status == Pending && s.rows[c.id].attempts == c.attempts
              && s.rows[c.id].nextAttemptAt <= steps[n].now
    ensures |run[n + 1].claims| > |run[n].claims| ==>
            var c := run[n + 1].claims[|run[n].claims|];
            && c.id in run[n].rows && c.attempts == run[n].rows[c.id].attempts < 4
            && c.at == steps[n].now && run[n + 1].rows[c.id].nextAttemptAt == steps[n].now + 60_000
  {
    InvHolds(run, steps, n);
    assert CountedFor(run[n], WorkerAt(run[n], steps[n].w).queue[0].id);
  }

  /** A select passes over nothing that is due: a pending row whose time has come is picked, unless fifty as old are. */
  lemma NothingDueIsPassedOver(run: seq<State>, steps: seq<Step>, n: nat, id: int)
    requires IsRun(run, steps) && n < |steps| && steps[n].Select? && id in run[n].rows
    ensures var s, row, picks := run[n], run[n].rows[id], steps[n].picks;
            && (Picked(picks, id) ==> row.status == Pending && row.nextAttemptAt <= steps[n].now)
            && (row.status == Pending && row.nextAttemptAt <= steps[n].now && !Picked(picks, id) ==>
                  |picks| == 50 && forall i :: 0 <= i < |picks| ==>
                    picks[i].id in s.rows && s.rows[picks[i].id].createdAt <= row.createdAt)
  {
    InvHolds(run, steps, n);
    assert CountedFor(run[n], id);
    hide Inv, Apply;
  }

  /** What a select picks comes oldest first, once each, as the row and its endpoint's count then stood. */
  lemma PicksAreOldestFirst(run: seq<State>, steps: seq<Step>, n: nat)
    requires IsRun(run, steps) && n < |steps| && steps[n].Select?
    ensures var s, picks := run[n], steps[n].picks;
            && |picks| <= 50 && WorkerAt(run[n + 1], steps[n].w) == Draining(picks)
            && (forall i :: 0 <= i < |picks| ==> picks[i].id in s.rows && picks[i].endpoint in s.endpoints)
            && (forall i :: 0 <= i < |picks| ==>
                  picks[i] == Candidate(picks[i].id, s.rows[picks[i].id].attempts, s.rows[picks[i].id].endpoint,
                                        s.endpoints[picks[i].endpoint].failureCount))
            && (forall i, j :: 0 <= i < j < |picks| ==>
                  picks[i].id != picks[j].id && s.rows[picks[i].id].createdAt <= s.rows[picks[j].id].createdAt)
  {
    assert Enabled(run[n], steps[n]) && run[n + 1] == Apply(run[n], steps[n]);
  }

  /** What begins, and what an administrator restores: a delivery due at once, an endpoint with a clean count. */
  lemma BeginsClean(run: seq<State>, steps: seq<Step>, n: nat)
    requires IsRun(run, steps) && n < |steps|
    ensures var s, t := run[n], run[n + 1];
            match steps[n]
            case Emit(id, endpoint, now) =>
              t.rows == s.rows[id := Delivery(endpoint, Pending, 0, now, now, None, None)] && id !in s.rows
            case Register(endpoint) => t.endpoints == s.endpoints[endpoint := Endpoint(0, true, None)]
            case Resume(endpoint) =>
              && endpoint in s.endpoints
              && t.endpoints == s.endpoints[endpoint := Endpoint(0, true, s.endpoints[endpoint].lastAttemptAt)]
            case _ => true
  {
    InvHolds(run, steps, n);
  }

  /** The delays are the table's 0, 30, 300 and 1800 seconds, and the last again past its end. */
  lemma DelaysAre(attempt: nat)
    ensures RetryDelayMs(attempt) == 1000 * [0, 30, 300, 1800][if attempt < 4 then attempt else 3]
  {
  }

  /** An endpoint outlives its deliveries, so whatever a drain selects has one. */
  lemma EndpointsOutlive(run: seq<State>, steps: seq<Step>, n: nat, id: int)
    requires IsRun(run, steps) && n < |run| && id in run[n].rows
    ensures run[n].rows[id].endpoint in run[n].endpoints
  {
    InvHolds(run, steps, n);
  }

  /** At most one recorded outcome of a delivery is a success, and it is the last, whatever becomes of its row. */
  lemma DeliveredOnce(run: seq<State>, steps: seq<Step>, n: nat, k: nat, l: nat)
    requires IsRun(run, steps) && n < |run| && k < l < |run[n].outcomes|
    requires run[n].outcomes[k].id == run[n].outcomes[l].id
    ensures var code := run[n].outcomes[k].code; !(code.Some? && 200 <= code.value < 300)
  {
    InvHolds(run, steps, n);
  }

  /** Attempts two, three and four are claimed at least 30, 300 and 1800 seconds after the failure before them. */
  lemma RetriesAreSpaced(run: seq<State>, steps: seq<Step>, n: nat, i: nat, k: nat)
    requires IsRun(run, steps) && n < |run| && i < |run[n].claims| && k < |run[n].outcomes|
    requires run[n].claims[i].id == run[n].outcomes[k].id && run[n].claims[i].attempts == run[n].outcomes[k].attempt
    ensures run[n].claims[i].at - run[n].outcomes[k].at
         >= match run[n].claims[i].attempts case 1 => 30_000 case 2 => 300_000 case _ => 1_800_000
  {
    InvHolds(run, steps, n);
    assert Spaced(run[n].claims[i], run[n].outcomes[k]);
    NumberedWithin(run[n], k);
  }
}
