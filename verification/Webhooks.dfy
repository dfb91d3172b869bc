/** Outbound webhook delivery: several workers select, claim, post and complete rows of one table. */
module Webhooks {
  import opened Numbers

  const MAX_ATTEMPTS := 4
  const CLAIM_LEASE_MS := 60_000
  const FAILURE_LIMIT := 20
  const BATCH := 50

  /** `retryDelayMs`: how long after its n-th failure a delivery is due again; past the schedule, the last entry. */
  function RetryDelayMs(attempt: nat): nat {
    match attempt
    case 0 => 0
    case 1 => 30_000
    case 2 => 300_000
    case _ => 1_800_000
  }

  datatype Status = Pending | Delivered | Failed

  datatype Delivery = Delivery(
    endpoint: int, status: Status, attempts: nat, nextAttemptAt: int, createdAt: int,
    responseCode: Option<int>, deliveredAt: Option<int>)
  {
    predicate Terminal() { status != Pending }

    predicate Due(now: int) { status == Pending && attempts < MAX_ATTEMPTS && nextAttemptAt <= now }
  }

  datatype Endpoint = Endpoint(failureCount: nat, active: bool, lastAttemptAt: Option<int>)

  /** What a worker carries away from its select: the row as it was, and its endpoint's count as loaded. */
  datatype Candidate = Candidate(id: int, attempts: nat, endpoint: int, failureCount: nat)

  function Ok(code: Option<int>): bool { code.Some? && 200 <= code.value < 300 }

  // ---------------------------------------------------------------- the table's own statements

  predicate Picked(picks: seq<Candidate>, id: int) { exists i :: 0 <= i < |picks| && picks[i].id == id }

  /** `findMany`: what is due, the oldest first, as far as fifty rows go. */
  ghost predicate Selects(rows: map<int, Delivery>, endpoints: map<int, Endpoint>, now: int, picks: seq<Candidate>) {
    && |picks| <= BATCH
    && (forall i :: 0 <= i < |picks| ==>
         var c := picks[i];
         && c.id in rows && rows[c.id].Due(now)
         && c.attempts == rows[c.id].attempts && c.endpoint == rows[c.id].endpoint
         && c.endpoint in endpoints && c.failureCount == endpoints[c.endpoint].failureCount)
    && (forall i, j :: 0 <= i < j < |picks| ==>
         picks[i].id != picks[j].id && rows[picks[i].id].createdAt <= rows[picks[j].id].createdAt)
    && (forall id :: id in rows && rows[id].Due(now) && !Picked(picks, id) ==>
         |picks| == BATCH && forall i :: 0 <= i < |picks| ==> rows[picks[i].id].createdAt <= rows[id].createdAt)
  }

  /** The claim's `where`: still pending, still on the attempt we saw, and due. */
  predicate Claimable(rows: map<int, Delivery>, c: Candidate, now: int) {
    && c.id in rows && rows[c.id].status == Pending
    && rows[c.id].attempts == c.attempts && rows[c.id].nextAttemptAt <= now
  }

  function ClaimRow(rows: map<int, Delivery>, c: Candidate, now: int): map<int, Delivery> {
    if Claimable(rows, c, now) then rows[c.id := rows[c.id].(nextAttemptAt := now + CLAIM_LEASE_MS)] else rows
  }

  /** The completion's `where`: the row still carries exactly this claim. */
  predicate Holds(rows: map<int, Delivery>, c: Candidate, until: int) {
    && c.id in rows && rows[c.id].status == Pending
    && rows[c.id].attempts == c.attempts && rows[c.id].nextAttemptAt == until
  }

  function Completed(d: Delivery, code: Option<int>, at: int): Delivery {
    var n := d.attempts + 1;
    d.(attempts := n,
       responseCode := code,
       status := if Ok(code) then Delivered else if n >= MAX_ATTEMPTS then Failed else Pending,
       deliveredAt := if Ok(code) then Some(at) else None,
       nextAttemptAt := if Ok(code) then d.nextAttemptAt else at + RetryDelayMs(n))
  }

  function CompleteRow(rows: map<int, Delivery>, c: Candidate, until: int, code: Option<int>, at: int)
    : map<int, Delivery>
  {
    if Holds(rows, c, until) then rows[c.id := Completed(rows[c.id], code, at)] else rows
  }

  /** `recordAttempt`: one success clears the run of failures; a long enough run parks the endpoint. */
  function RecordAttempt(e: Endpoint, loaded: nat, ok: bool, at: int): Endpoint {
    Endpoint(if ok then 0 else e.failureCount + 1,
             if !ok && loaded + 1 >= FAILURE_LIMIT then false else e.active,
             Some(at))
  }

  function Recorded(endpoints: map<int, Endpoint>, endpoint: int, loaded: nat, ok: bool, at: int): map<int, Endpoint> {
    if endpoint in endpoints then endpoints[endpoint := RecordAttempt(endpoints[endpoint], loaded, ok, at)] else endpoints
  }

  /** A run of failures, each carrying the count as the one before left it. */
  function Failing(e: Endpoint, times: seq<int>): Endpoint {
    if |times| == 0 then e
    else
      var before := Failing(e, times[..|times| - 1]);
      RecordAttempt(before, before.failureCount, false, times[|times| - 1])
  }

  /** A run of failures parks a clean endpoint at the twentieth, and one success in between starts the count again. */
  lemma {:induction false} FailuresPark(e: Endpoint, times: seq<int>)
    requires e.active && e.failureCount < 20
    ensures Failing(e, times).failureCount == e.failureCount + |times|
    ensures Failing(e, times).active <==> e.failureCount + |times| < 20
    ensures forall at, loaded ::
      RecordAttempt(Failing(e, times), loaded, true, at) == Endpoint(0, Failing(e, times).active, Some(at))
  {
    if |times| > 0 { FailuresPark(e, times[..|times| - 1]); }
  }

  /** `pruneWebhookDeliveries`: finished rows that have aged out. */
  function Prune(rows: map<int, Delivery>, cutoff: int): map<int, Delivery> {
    map id | id in rows && id !in Aged(rows, cutoff) :: rows[id]
  }

  function Aged(rows: map<int, Delivery>, cutoff: int): set<int> {
    set id | id in rows && rows[id].Terminal() && rows[id].createdAt < cutoff
  }

  /** The deliveries of every endpoint but this one. */
  function Without(rows: map<int, Delivery>, endpoint: int): map<int, Delivery> {
    map id | id in rows && rows[id].endpoint != endpoint :: rows[id]
  }

  /** The two tables, changed in place by the statements above; each call is one atomic update. */
  class DeliveryStore {
    var rows: map<int, Delivery>
    var endpoints: map<int, Endpoint>

    constructor ()
      ensures rows == map[] && endpoints == map[]
    {
      rows, endpoints := map[], map[];
    }

    method Emit(id: int, endpoint: int, now: int)
      requires id !in rows
      modifies this`rows
      ensures rows == old(rows)[id := Delivery(endpoint, Pending, 0, now, now, None, None)]
    {
      rows := rows[id := Delivery(endpoint, Pending, 0, now, now, None, None)];
    }

    method Claim(c: Candidate, now: int) returns (count: nat)
      modifies this`rows
      ensures count == if c.id in old(rows) && old(rows)[c.id].status == Pending
        && old(rows)[c.id].attempts == c.attempts && old(rows)[c.id].nextAttemptAt <= now then 1 else 0
      ensures count == 1 ==> rows == old(rows)[c.id := old(rows)[c.id].(nextAttemptAt := now + 60_000)]
      ensures count != 1 ==> rows == old(rows)
      ensures rows == ClaimRow(old(rows), c, now)
    {
      count := 0;
      if c.id in rows {
        var d := rows[c.id];
        if d.status == Pending && d.attempts == c.attempts && d.nextAttemptAt <= now {
          rows := rows[c.id := d.(nextAttemptAt := now + CLAIM_LEASE_MS)];
          count := 1;
        }
      }
    }

    method Complete(c: Candidate, until: int, code: Option<int>, at: int) returns (count: nat)
      modifies this`rows
      ensures count == if c.id in old(rows) && old(rows)[c.id].status == Pending
        && old(rows)[c.id].attempts == c.attempts && old(rows)[c.id].nextAttemptAt == until then 1 else 0
      ensures count == 1 && code.Some? && 200 <= code.value < 300 ==>
        rows == old(rows)[c.id := old(rows)[c.id].(
          attempts := c.attempts + 1, responseCode := code, status := Delivered, deliveredAt := Some(at))]
      ensures count == 1 && !(code.Some? && 200 <= code.value < 300) ==>
        rows == old(rows)[c.id := old(rows)[c.id].(
          attempts := c.attempts + 1, responseCode := code, deliveredAt := None,
          status := if c.attempts + 1 >= 4 then Failed else Pending,
          nextAttemptAt := at + (match c.attempts case 0 => 30_000 case 1 => 300_000 case _ => 1_800_000))]
      ensures count != 1 ==> rows == old(rows)
      ensures rows == CompleteRow(old(rows), c, until, code, at)
    {
      count := 0;
      if c.id in rows && rows[c.id].status == Pending {
        var d := rows[c.id];
        if d.attempts == c.attempts && d.nextAttemptAt == until {
          rows := rows[c.id := Completed(d, code, at)];
          count := 1;
        }
      }
    }

    method Record(endpoint: int, loaded: nat, ok: bool, at: int)
      modifies this`endpoints
      ensures endpoints.Keys == old(endpoints.Keys)
      ensures forall e :: e in endpoints && e != endpoint ==> endpoints[e] == old(endpoints)[e]
      ensures endpoint in endpoints ==>
        var before, after := old(endpoints)[endpoint], endpoints[endpoint];
        && after.lastAttemptAt == Some(at)
        && after.failureCount == (if ok then 0 else before.failureCount + 1)
        && (before.active && !after.active <==> before.active && !ok && loaded + 1 >= 20)
        && (!before.active ==> !after.active)
      ensures endpoints == Recorded(old(endpoints), endpoint, loaded, ok, at)
    {
      if endpoint in endpoints {
        var e := endpoints[endpoint];
        var active := if !ok && loaded + 1 >= FAILURE_LIMIT then false else e.active;
        endpoints := endpoints[endpoint := Endpoint(if ok then 0 else e.failureCount + 1, active, Some(at))];
      }
    }

    method PruneOlder(now: int, olderThanMs: int) returns (count: nat)
      modifies this`rows
      ensures forall id :: id in rows <==>
        id in old(rows) && !(old(rows)[id].Terminal() && old(rows)[id].createdAt < now - olderThanMs)
      ensures forall id :: id in rows ==> rows[id] == old(rows)[id]
      ensures forall id :: id in old(rows) && old(rows)[id].status == Pending ==> id in rows
      ensures count + |rows| == |old(rows)|
      ensures rows == Prune(old(rows), now - olderThanMs)
    {
      var cutoff := now - olderThanMs;
      var aged := Aged(rows, cutoff);
      count := |aged|;
      assert Prune(rows, cutoff).Keys == rows.Keys - aged && aged <= rows.Keys;
      assert rows.Keys == (rows.Keys - aged) + aged;
      rows := Prune(rows, cutoff);
      assert |rows| == |rows.Keys|;
    }

    /** Removing an endpoint: its deliveries, whatever their status, and then itself. */
    method RemoveEndpoint(endpoint: int)
      modifies this
      ensures forall id :: id in rows <==> id in old(rows) && old(rows)[id].endpoint != endpoint
      ensures forall id :: id in rows ==> rows[id] == old(rows)[id]
      ensures endpoints == old(endpoints) - {endpoint}
    {
      rows := Without(rows, endpoint);
      endpoints := endpoints - {endpoint};
    }

    /** One candidate, from claim to statistics, when no other worker touches the tables in between. */
    method Attempt(c: Candidate, now: int, code: Option<int>, finishedAt: int) returns (outcome: Option<bool>)
      modifies this
      ensures outcome == if Claimable(old(rows), c, now) then Some(code.Some? && 200 <= code.value < 300) else None
      ensures rows == if Claimable(old(rows), c, now)
        then CompleteRow(ClaimRow(old(rows), c, now), c, now + CLAIM_LEASE_MS, code, finishedAt)
        else old(rows)
      ensures endpoints == if Claimable(old(rows), c, now)
        then Recorded(old(endpoints), c.endpoint, c.failureCount, code.Some? && 200 <= code.value < 300, finishedAt)
        else old(endpoints)
    {
      outcome := None;
      var claimUntil := now + CLAIM_LEASE_MS;
      var count := Claim(c, now);
      if count != 1 { return; }
      var completed := Complete(c, claimUntil, code, finishedAt);
      if completed != 1 { return; }
      Record(c.endpoint, c.failureCount, Ok(code), finishedAt);
      outcome := Some(Ok(code));
    }
  }

  // ---------------------------------------------------------------- every interleaving

  /** Where a worker is in its drain. */
  datatype Worker =
    | Idle
    | Draining(queue: seq<Candidate>)
    | Posting(claimed: Candidate, until: int, queue: seq<Candidate>)
    | Recording(outcome: nat, done: Candidate, ok: bool, at: int, queue: seq<Candidate>)

  /** A claim that matched: which attempt it is for, when it was made and how long it is held. */
  datatype Claim = Claim(worker: int, id: int, attempts: nat, at: int, until: int)

  /** An outcome that was recorded: the claim it completes, and what the receiver answered, if it did. */
  datatype Outcome = Outcome(worker: int, id: int, attempt: nat, until: int, code: Option<int>, at: int)

  /** The tables, the workers, and a log of what matched. Ids are never reused. */
  datatype State = State(
    rows: map<int, Delivery>, endpoints: map<int, Endpoint>, workers: map<int, Worker>,
    used: set<int>, claims: seq<Claim>, outcomes: seq<Outcome>, recorded: set<nat>)

  function WorkerAt(s: State, w: int): Worker { if w in s.workers then s.workers[w] else Idle }

  /**
   * One atomic step. Each carries its own clock reading, so clocks may disagree. An endpoint is removed in two: its
   * deliveries, and then itself once nothing refers to it.
   */
  datatype Step =
    | Emit(id: int, endpoint: int, now: int)
    | Select(w: int, now: int, picks: seq<Candidate>)
    | TryClaim(w: int, now: int)
    | Finish(w: int, code: Option<int>, at: int)
    | Record(w: int)
    | Crash(w: int)
    | Sweep(cutoff: int)
    | Register(endpoint: int)
    | Resume(endpoint: int)
    | DropDeliveries(endpoint: int)
    | DropEndpoint(endpoint: int)

  ghost predicate Enabled(s: State, step: Step) {
    match step
    case Emit(id, endpoint, now) => id !in s.used && endpoint in s.endpoints
    case Select(w, now, picks) => WorkerAt(s, w).Idle? && Selects(s.rows, s.endpoints, now, picks)
    case TryClaim(w, now) => WorkerAt(s, w).Draining? && |WorkerAt(s, w).queue| > 0
    case Finish(w, code, at) => WorkerAt(s, w).Posting?
    case Record(w) => WorkerAt(s, w).Recording?
    case Crash(w) => true
    case Sweep(cutoff) => true
    case Register(endpoint) => endpoint !in s.endpoints
    case Resume(endpoint) => endpoint in s.endpoints
    case DropDeliveries(endpoint) => true
    case DropEndpoint(endpoint) => forall id :: id in s.rows ==> s.rows[id].endpoint != endpoint
  }

  function Move(s: State, w: int, to: Worker): State { s.(workers := s.workers[w := to]) }

  function ClaimStep(s: State, w: int, now: int): State
    requires WorkerAt(s, w).Draining? && |WorkerAt(s, w).queue| > 0
  {
    var c, rest := WorkerAt(s, w).queue[0], WorkerAt(s, w).queue[1..];
    var until := now + CLAIM_LEASE_MS;
    if Claimable(s.rows, c, now) then
      Move(s, w, Posting(c, until, rest)).(
        rows := ClaimRow(s.rows, c, now), claims := s.claims + [Claim(w, c.id, c.attempts, now, until)])
    else Move(s, w, Draining(rest))
  }

  function FinishStep(s: State, w: int, code: Option<int>, at: int): State
    requires WorkerAt(s, w).Posting?
  {
    var Posting(c, until, rest) := WorkerAt(s, w);
    if Holds(s.rows, c, until) then
      Move(s, w, Recording(|s.outcomes|, c, Ok(code), at, rest)).(
        rows := CompleteRow(s.rows, c, until, code, at),
        outcomes := s.outcomes + [Outcome(w, c.id, c.attempts + 1, until, code, at)])
    else Move(s, w, Draining(rest))
  }

  function RecordStep(s: State, w: int): State
    requires WorkerAt(s, w).Recording?
  {
    var Recording(k, c, ok, at, rest) := WorkerAt(s, w);
    Move(s, w, Draining(rest)).(
      recorded := s.recorded + {k}, endpoints := Recorded(s.endpoints, c.endpoint, c.failureCount, ok, at))
  }

  ghost function Apply(s: State, step: Step): State
    requires Enabled(s, step)
  {
    match step
    case Emit(id, endpoint, now) =>
      s.(rows := s.rows[id := Delivery(endpoint, Pending, 0, now, now, None, None)], used := s.used + {id})
    case Select(w, now, picks) => Move(s, w, Draining(picks))
    case TryClaim(w, now) => ClaimStep(s, w, now)
    case Finish(w, code, at) => FinishStep(s, w, code, at)
    case Record(w) => RecordStep(s, w)
    case Crash(w) => Move(s, w, Idle)
    case Sweep(cutoff) => s.(rows := Prune(s.rows, cutoff))
    case Register(endpoint) => s.(endpoints := s.endpoints[endpoint := Endpoint(0, true, None)])
    case Resume(endpoint) =>
      s.(endpoints := s.endpoints[endpoint := s.endpoints[endpoint].(failureCount := 0, active := true)])
    case DropDeliveries(endpoint) => s.(rows := Without(s.rows, endpoint))
    case DropEndpoint(endpoint) => s.(endpoints := s.endpoints - {endpoint})
  }

  ghost predicate Initial(s: State) {
    s.rows == map[] && s.workers == map[] && s.used == {} && s.claims == [] && s.outcomes == [] && s.recorded == {}
  }

  /** A run: any number of steps by any workers, in any order. */
  ghost predicate IsRun(run: seq<State>, steps: seq<Step>) {
    && |run| == |steps| + 1 && Initial(run[0])
    && forall i :: 0 <= i < |steps| ==> Enabled(run[i], steps[i]) && run[i + 1] == Apply(run[i], steps[i])
  }
}
