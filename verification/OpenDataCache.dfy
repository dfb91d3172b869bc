/** The stale-while-refresh cache over open-data lookups: several processes, one table, and outages remembered briefly. */
module OpenDataCache {
  import opened Numbers

  const COOLOFF_MS := 120_000

  /** A stored answer. What a source says is opaque here, and survives the trip through JSON. */
  datatype Row = Row(value: int, fetchedAt: int)

  datatype Served = Served(value: int, fetchedAt: int, fromCache: bool)

  /** What a request does once it has read the table: one uninterrupted stretch of code. */
  datatype Decision = Refuse | Serve(served: Served, refresh: bool) | Wait

  function Decide(row: Option<Row>, cooling: bool, refreshing: bool, now: int, ttl: int): Decision {
    if row.None? then (if cooling then Refuse else Wait)
    else
      var served := Served(row.value.value, row.value.fetchedAt, true);
      Serve(served, now - row.value.fetchedAt > ttl && !refreshing && !cooling)
  }

  // The functions below are generic in what names a source: a key in one process, a process and key among several.

  predicate Cooling<K(==)>(coolingOff: map<K, int>, k: K, now: int) {
    (if k in coolingOff then coolingOff[k] else 0) > now
  }

  /** A look that starts a refresh marks its key, so that the next look does not. */
  function Marked<K(==)>(refreshing: set<K>, k: K, decision: Decision): set<K> {
    if decision.Serve? && decision.refresh then refreshing + {k} else refreshing
  }

  /** A waiting caller's failure is an outage unless the source answered "not found"; a refresh's always is. */
  predicate IsOutage(background: bool, notFound: bool) { background || !notFound }

  function AfterFailure<K(==)>(coolingOff: map<K, int>, k: K, background: bool, notFound: bool, now: int): map<K, int> {
    if IsOutage(background, notFound) then coolingOff[k := now + COOLOFF_MS] else coolingOff
  }

  function AfterSuccess<K(==)>(coolingOff: map<K, int>, k: K): map<K, int> { coolingOff - {k} }

  function AfterRefresh<K(==)>(refreshing: set<K>, k: K): set<K> { refreshing - {k} }

  /** `write`: one upsert, whose failure changes nothing and reaches nobody. */
  function AfterWrite(rows: map<string, Row>, key: string, value: int, now: int, stored: bool): map<string, Row> {
    if stored then rows[key := Row(value, now)] else rows
  }

  /** One process's memory, and the table, changed in place by the stretches of code between awaits. */
  class Cache {
    var refreshing: set<string>
    var coolingOff: map<string, int>
    var rows: map<string, Row>

    constructor ()
      ensures refreshing == {} && coolingOff == map[] && rows == map[]
    {
      refreshing, coolingOff, rows := {}, map[], map[];
    }

    /** From the read row to an answer, a refusal or a fetch. */
    method Look(key: string, row: Option<Row>, now: int, ttl: int) returns (decision: Decision)
      modifies this`refreshing
      ensures decision == Decide(row, Cooling(coolingOff, key, now), key in old(refreshing), now, ttl)
      ensures refreshing == Marked(old(refreshing), key, decision)
    {
      var cooling := Cooling(coolingOff, key, now);
      if cooling && row.None? { return Refuse; }
      if row.Some? {
        var served := Served(row.value.value, row.value.fetchedAt, true);
        var age := now - row.value.fetchedAt;
        if age <= ttl { return Serve(served, false); }
        if key !in refreshing && !cooling {
          refreshing := refreshing + {key};
          return Serve(served, true);
        }
        return Serve(served, false);
      }
      return Wait;
    }

    method FetchSucceeded(key: string)
      modifies this`coolingOff
      ensures coolingOff == AfterSuccess(old(coolingOff), key)
    {
      coolingOff := coolingOff - {key};
    }

    method FetchFailed(key: string, background: bool, notFound: bool, now: int)
      modifies this`coolingOff
      ensures coolingOff == AfterFailure(old(coolingOff), key, background, notFound, now)
    {
      if background || !notFound { coolingOff := coolingOff[key := now + COOLOFF_MS]; }
    }

    method Write(key: string, value: int, now: int, stored: bool)
      modifies this`rows
      ensures rows == AfterWrite(old(rows), key, value, now, stored)
    {
      if stored { rows := rows[key := Row(value, now)]; }
    }

    method RefreshDone(key: string)
      modifies this`refreshing
      ensures refreshing == AfterRefresh(old(refreshing), key)
    {
      refreshing := refreshing - {key};
    }
  }

  // ---------------------------------------------------------------- every interleaving

  /** Where one request, or one background refresh, is. A fetch carries the process it runs in and its key. */
  datatype Task =
    | Reading(p: int, key: string, ttl: int)
    | Read(p: int, key: string, ttl: int, row: Option<Row>)
    | Fetching(p: int, key: string, background: bool)
    | Writing(p: int, key: string, background: bool, value: int)
    | Ending(p: int, key: string)
    | Answered(key: string, served: Served)
    | Failed(key: string)
    | Done

  /**
   * What bears on outages, in order: a fetch started, a failure began a cool-off, or a success ended one. A failure
   * is kept with what was being fetched for and whether the source had answered "not found".
   */
  datatype Event =
    | Started(p: int, key: string, at: int)
    | Outage(p: int, key: string, at: int, background: bool, notFound: bool)
    | Recovered(p: int, key: string)

  /**
   * The table, what each process remembers under (process, key), the tasks, every answer a fetch has returned,
   * and the log.
   */
  datatype State = State(
    rows: map<string, Row>, refreshing: set<(int, string)>, coolingOff: map<(int, string), int>,
    tasks: map<int, Task>, fetched: set<(string, int)>, log: seq<Event>)

  datatype Step =
    | Request(id: int, p: int, key: string, ttl: int)
    | ReadRow(id: int, readable: bool)
    | Resolve(id: int, now: int, refresher: int)
    | FetchOk(id: int, value: int)
    | FetchFail(id: int, notFound: bool, now: int)
    | WriteRow(id: int, stored: bool, now: int)
    | EndRefresh(id: int)
    | Sweep(cutoff: int)

  predicate Enabled(s: State, step: Step) {
    match step
    case Request(id, _, _, _) => id !in s.tasks
    case ReadRow(id, _) => id in s.tasks && s.tasks[id].Reading?
    case Resolve(id, _, refresher) => id in s.tasks && s.tasks[id].Read? && refresher !in s.tasks
    case FetchOk(id, _) => id in s.tasks && s.tasks[id].Fetching?
    case FetchFail(id, _, _) => id in s.tasks && s.tasks[id].Fetching?
    case WriteRow(id, _, _) => id in s.tasks && s.tasks[id].Writing?
    case EndRefresh(id) => id in s.tasks && s.tasks[id].Ending?
    case Sweep(_) => true
  }

  predicate CoolingAt(s: State, p: int, key: string, now: int) {
    Cooling(s.coolingOff, (p, key), now)
  }

  function Put(s: State, id: int, t: Task): State { s.(tasks := s.tasks[id := t]) }

  function ResolveStep(s: State, id: int, now: int, refresher: int): State
    requires Enabled(s, Resolve(id, now, refresher))
  {
    var Read(p, key, ttl, row) := s.tasks[id];
    var decision := Decide(row, CoolingAt(s, p, key, now), (p, key) in s.refreshing, now, ttl);
    match decision
    case Refuse => Put(s, id, Failed(key))
    case Wait => Put(s, id, Fetching(p, key, false)).(log := s.log + [Started(p, key, now)])
    case Serve(served, refresh) =>
      var t := Put(s, id, Answered(key, served));
      if !refresh then t
      else Put(t, refresher, Fetching(p, key, true)).(
             refreshing := Marked(s.refreshing, (p, key), decision), log := s.log + [Started(p, key, now)])
  }

  function FailStep(s: State, id: int, notFound: bool, now: int): State
    requires Enabled(s, FetchFail(id, notFound, now))
  {
    var Fetching(p, key, background) := s.tasks[id];
    var t := Put(s, id, if background then Ending(p, key) else Failed(key));
    t.(coolingOff := AfterFailure(s.coolingOff, (p, key), background, notFound, now),
       log := s.log + (if IsOutage(background, notFound) then [Outage(p, key, now, background, notFound)] else []))
  }

  function WriteStep(s: State, id: int, stored: bool, now: int): State
    requires Enabled(s, WriteRow(id, stored, now))
  {
    var Writing(p, key, background, value) := s.tasks[id];
    var t := Put(s, id, if background then Ending(p, key) else Answered(key, Served(value, now, false)));
    t.(rows := AfterWrite(s.rows, key, value, now, stored))
  }

  function Apply(s: State, step: Step): State
    requires Enabled(s, step)
  {
    match step
    case Request(id, p, key, ttl) => Put(s, id, Reading(p, key, ttl))
    case ReadRow(id, readable) =>
      var Reading(p, key, ttl) := s.tasks[id];
      Put(s, id, Read(p, key, ttl, if readable && key in s.rows then Some(s.rows[key]) else None))
    case Resolve(id, now, refresher) => ResolveStep(s, id, now, refresher)
    case FetchOk(id, value) =>
      var Fetching(p, key, background) := s.tasks[id];
      Put(s, id, Writing(p, key, background, value)).(
        coolingOff := AfterSuccess(s.coolingOff, (p, key)), fetched := s.fetched + {(key, value)},
        log := s.log + [Recovered(p, key)])
    case FetchFail(id, notFound, now) => FailStep(s, id, notFound, now)
    case WriteRow(id, stored, now) => WriteStep(s, id, stored, now)
    case EndRefresh(id) =>
      var Ending(p, key) := s.tasks[id];
      Put(s, id, Done).(refreshing := AfterRefresh(s.refreshing, (p, key)))
    case Sweep(cutoff) => s.(rows := map key | key in s.rows && s.rows[key].fetchedAt >= cutoff :: s.rows[key])
  }

  ghost predicate IsRun(run: seq<State>, steps: seq<Step>) {
    && |run| == |steps| + 1 && run[0] == State(map[], {}, map[], map[], {}, [])
    && forall i :: 0 <= i < |steps| ==> Enabled(run[i], steps[i]) && run[i + 1] == Apply(run[i], steps[i])
  }

  // ---------------------------------------------------------------- nothing is invented

  /** Every value stored, read, about to be written or served came from a fetch for its key. */
  ghost predicate Sourced(s: State) {
    && (forall key :: key in s.rows ==> (key, s.rows[key].value) in s.fetched)
    && (forall id :: id in s.tasks ==> TaskSourced(s, s.tasks[id]))
  }

  predicate TaskSourced(s: State, t: Task) {
    match t
    case Read(_, key, _, row) => row.Some? ==> (key, row.value.value) in s.fetched
    case Writing(_, key, _, value) => (key, value) in s.fetched
    case Answered(key, served) => (key, served.value) in s.fetched
    case _ => true
  }

  lemma SourcedKept(s: State, step: Step)
    requires Enabled(s, step) && Sourced(s)
    ensures Sourced(Apply(s, step))
  {
    var t := Apply(s, step);
    forall id | id in t.tasks ensures TaskSourced(t, t.tasks[id]) { TaskStaysSourced(s, step, id); }
    forall key | key in t.rows ensures (key, t.rows[key].value) in t.fetched { RowStaysSourced(s, step, key); }
  }

  lemma TaskStaysSourced(s: State, step: Step, id: int)
    requires Enabled(s, step) && Sourced(s) && id in Apply(s, step).tasks
    ensures TaskSourced(Apply(s, step), Apply(s, step).tasks[id])
  {
    if id in s.tasks { assert TaskSourced(s, s.tasks[id]); }
    if step.Resolve? { ResolvedIsSourced(s, step, id); }
  }

  lemma ResolvedIsSourced(s: State, step: Step, id: int)
    requires Enabled(s, step) && step.Resolve? && Sourced(s) && id in Apply(s, step).tasks
    ensures TaskSourced(Apply(s, step), Apply(s, step).tasks[id])
  {
    assert TaskSourced(s, s.tasks[step.id]);
    if id in s.tasks { assert TaskSourced(s, s.tasks[id]); }
  }

  lemma RowStaysSourced(s: State, step: Step, key: string)
    requires Enabled(s, step) && Sourced(s) && key in Apply(s, step).rows
    ensures (key, Apply(s, step).rows[key].value) in Apply(s, step).fetched
  {
    if step.WriteRow? { assert TaskSourced(s, s.tasks[step.id]); }
  }

  // ---------------------------------------------------------------- one refresh for each key of a process

  /** The (process, key) a background refresh is running for. */
  function RefreshOf(t: Task): Option<(int, string)> {
    match t
    case Fetching(p, key, background) => if background then Some((p, key)) else None
    case Writing(p, key, background, _) => if background then Some((p, key)) else None
    case Ending(p, key) => Some((p, key))
    case _ => None
  }

  predicate Refreshes(s: State, id: int, k: (int, string)) { id in s.tasks && RefreshOf(s.tasks[id]) == Some(k) }

  /** `refreshing` is exactly the keys being refreshed, each by one task. */
  ghost predicate OneRefresh(s: State) {
    && (forall id, k :: Refreshes(s, id, k) ==> k in s.refreshing)
    && (forall i, j, k :: Refreshes(s, i, k) && Refreshes(s, j, k) ==> i == j)
    && (forall k :: k in s.refreshing ==> exists id :: Refreshes(s, id, k))
  }

  /** A step changes what one task refreshes; only a look at a stale row adds another. */
  lemma RefreshersChange(s: State, step: Step, id: int, k: (int, string))
    requires Enabled(s, step) && OneRefresh(s)
    ensures Refreshes(Apply(s, step), id, k) <==>
      || (Refreshes(s, id, k) && !(step.EndRefresh? && step.id == id))
      || (step.Resolve? && id == step.refresher && k in Apply(s, step).refreshing && k !in s.refreshing)
  {
  }

  lemma RefreshingChanges(s: State, step: Step)
    requires Enabled(s, step)
    ensures var t := Apply(s, step);
            if step.EndRefresh? then (
              && RefreshOf(s.tasks[step.id]).Some?
              && t.refreshing == s.refreshing - {RefreshOf(s.tasks[step.id]).value}
            ) else (
              && s.refreshing <= t.refreshing && (!step.Resolve? ==> t.refreshing == s.refreshing)
              && forall k, l :: k in t.refreshing - s.refreshing && l in t.refreshing - s.refreshing ==> k == l
            )
  {
  }

  lemma OneRefreshKept(s: State, step: Step)
    requires Enabled(s, step) && OneRefresh(s)
    ensures OneRefresh(Apply(s, step))
  {
    var t := Apply(s, step);
    forall id, k ensures Refreshes(t, id, k) <==>
      || (Refreshes(s, id, k) && !(step.EndRefresh? && step.id == id))
      || (step.Resolve? && id == step.refresher && k in t.refreshing && k !in s.refreshing)
    {
      RefreshersChange(s, step, id, k);
    }
    RefreshingChanges(s, step);
    assert step.EndRefresh? ==> Refreshes(s, step.id, RefreshOf(s.tasks[step.id]).value);
    hide Apply, Enabled, Refreshes, RefreshOf;
    forall k | k in t.refreshing ensures exists id :: Refreshes(t, id, k) {
      if k in s.refreshing {
        var id :| Refreshes(s, id, k);
        assert Refreshes(t, id, k);
      } else {
        assert Refreshes(t, step.refresher, k);
      }
    }
  }

  // ---------------------------------------------------------------- outages are respected

  /** The last outage or recovery logged for a process and key, if any. */
  function LastOutage(log: seq<Event>, p: int, key: string): Option<int> {
    if |log| == 0 then None
    else match log[|log| - 1]
      case Outage(q, k, at, _, _) => if q == p && k == key then Some(at) else LastOutage(log[..|log| - 1], p, key)
      case Recovered(q, k) => if q == p && k == key then None else LastOutage(log[..|log| - 1], p, key)
      case Started(_, _, _) => LastOutage(log[..|log| - 1], p, key)
  }

  /** The cool-off map is the log's last word on each key. */
  ghost predicate Remembered(s: State) {
    forall p, key :: RememberedFor(s, p, key)
  }

  ghost predicate RememberedFor(s: State, p: int, key: string) {
    var o := LastOutage(s.log, p, key);
    (if (p, key) in s.coolingOff then Some(s.coolingOff[(p, key)]) else None)
    == (if o.Some? then Some(o.value + COOLOFF_MS) else None)
  }

  /** No fetch began while the source was cooling off. */
  ghost predicate StartsRespect(log: seq<Event>) {
    forall i :: 0 <= i < |log| && log[i].Started? ==> StartRespects(log, i)
  }

  ghost predicate StartRespects(log: seq<Event>, i: nat)
    requires i < |log| && log[i].Started?
  {
    var o := LastOutage(log[..i], log[i].p, log[i].key);
    o.Some? ==> log[i].at >= o.value + COOLOFF_MS
  }

  lemma LastOutageSnoc(log: seq<Event>, e: Event, p: int, key: string)
    ensures LastOutage(log + [e], p, key) ==
      match e
      case Outage(q, k, at, _, _) => if q == p && k == key then Some(at) else LastOutage(log, p, key)
      case Recovered(q, k) => if q == p && k == key then None else LastOutage(log, p, key)
      case Started(_, _, _) => LastOutage(log, p, key)
  {
    assert (log + [e])[..|log|] == log;
  }

  lemma LogGrows(s: State, step: Step)
    requires Enabled(s, step)
    ensures var t := Apply(s, step);
            t.log == s.log || (|t.log| == |s.log| + 1 && t.log == s.log + [t.log[|s.log|]])
  {
  }

  lemma RememberedKept(s: State, step: Step)
    requires Enabled(s, step) && Remembered(s)
    ensures Remembered(Apply(s, step))
  {
    var t := Apply(s, step);
    LogGrows(s, step);
    forall p, key ensures RememberedFor(t, p, key) {
      assert RememberedFor(s, p, key);
      if |t.log| > |s.log| { LastOutageSnoc(s.log, t.log[|s.log|], p, key); }
      hide LastOutage;
    }
  }

  lemma StartsRespectKept(s: State, step: Step)
    requires Enabled(s, step) && Remembered(s) && StartsRespect(s.log)
    ensures StartsRespect(Apply(s, step).log)
  {
    var t := Apply(s, step);
    LogGrows(s, step);
    forall i | 0 <= i < |t.log| && t.log[i].Started? ensures StartRespects(t.log, i) {
      assert t.log[..i] == s.log[..i];
      if i < |s.log| {
        assert StartRespects(s.log, i);
      } else {
        assert s.log[..i] == s.log;
        assert RememberedFor(s, t.log[i].p, t.log[i].key);
      }
    }
  }

  ghost predicate Inv(s: State) { Sourced(s) && OneRefresh(s) && Remembered(s) && StartsRespect(s.log) }

  lemma {:induction false} InvHolds(run: seq<State>, steps: seq<Step>, n: nat)
    requires IsRun(run, steps) && n < |run|
    ensures Inv(run[n])
  {
    if n > 0 {
      InvHolds(run, steps, n - 1);
      hide Sourced, OneRefresh, Remembered, StartsRespect, Apply, Enabled;
      SourcedKept(run[n - 1], steps[n - 1]);
      OneRefreshKept(run[n - 1], steps[n - 1]);
      RememberedKept(run[n - 1], steps[n - 1]);
      StartsRespectKept(run[n - 1], steps[n - 1]);
    }
  }

  // ---------------------------------------------------------------- what a caller can rely on

  /** Whatever is served, fresh or stored, is an answer some fetch for that key returned. */
  lemma ServedWasFetched(run: seq<State>, steps: seq<Step>, n: nat, id: int)
    requires IsRun(run, steps) && n < |run| && id in run[n].tasks && run[n].tasks[id].Answered?
    ensures (run[n].tasks[id].key, run[n].tasks[id].served.value) in run[n].fetched
  {
    InvHolds(run, steps, n);
    assert TaskSourced(run[n], run[n].tasks[id]);
  }

  /** Stored evidence is replaced only by a fetched answer and lost only to the sweep; a failure leaves it as it was. */
  lemma EvidenceIsKept(run: seq<State>, steps: seq<Step>, n: nat, key: string)
    requires IsRun(run, steps) && n < |steps| && key in run[n].rows
    ensures key !in run[n + 1].rows ==> steps[n].Sweep? && run[n].rows[key].fetchedAt < steps[n].cutoff
    ensures key in run[n + 1].rows && run[n + 1].rows[key] != run[n].rows[key] ==>
      steps[n].WriteRow? && steps[n].stored && (key, run[n + 1].rows[key].value) in run[n].fetched
    ensures steps[n].FetchFail? ==> run[n + 1].rows == run[n].rows
  {
    InvHolds(run, steps, n);
    if steps[n].WriteRow? { assert TaskSourced(run[n], run[n].tasks[steps[n].id]); }
  }

  /** However many callers find a key stale at once, a process has one refresh of it under way. */
  lemma RefreshesAreSingle(run: seq<State>, steps: seq<Step>, n: nat, i: int, j: int)
    requires IsRun(run, steps) && n < |run| && i in run[n].tasks && j in run[n].tasks
    requires RefreshOf(run[n].tasks[i]).Some? && RefreshOf(run[n].tasks[i]) == RefreshOf(run[n].tasks[j])
    ensures i == j
  {
    InvHolds(run, steps, n);
    assert Refreshes(run[n], i, RefreshOf(run[n].tasks[i]).value);
    assert Refreshes(run[n], j, RefreshOf(run[n].tasks[i]).value);
  }

  /** After an outage, and until a success, a process asks a source nothing for two minutes. */
  lemma OutagesAreRespected(run: seq<State>, steps: seq<Step>, n: nat, i: nat, j: nat)
    requires IsRun(run, steps) && n < |run| && i < j < |run[n].log|
    requires run[n].log[i].Outage? && run[n].log[j].Started?
    requires run[n].log[i].p == run[n].log[j].p && run[n].log[i].key == run[n].log[j].key
    requires forall m :: i < m < j && !run[n].log[m].Started? ==>
      !(run[n].log[m].p == run[n].log[j].p && run[n].log[m].key == run[n].log[j].key)
    ensures run[n].log[j].at >= run[n].log[i].at + 120_000
  {
    InvHolds(run, steps, n);
    assert StartRespects(run[n].log, j);
    LastIs(run[n].log, i, j, run[n].log[j].p, run[n].log[j].key);
  }

  lemma {:induction false} LastIs(log: seq<Event>, i: nat, j: nat, p: int, key: string)
    requires i < j <= |log| && log[i].Outage? && log[i].p == p && log[i].key == key
    requires forall m :: i < m < j && !log[m].Started? ==> !(log[m].p == p && log[m].key == key)
    ensures LastOutage(log[..j], p, key) == Some(log[i].at)
  {
    assert log[..j][..j - 1] == log[..j - 1];
    if i < j - 1 { LastIs(log, i, j - 1, p, key); }
  }

  /** With nothing stored, a cooling source is refused at once. */
  lemma EmptyAndCooling(run: seq<State>, steps: seq<Step>, n: nat)
    requires IsRun(run, steps) && n < |steps| && steps[n].Resolve? && run[n].tasks[steps[n].id].row.None?
    ensures var task := run[n].tasks[steps[n].id];
            run[n + 1] == Put(run[n], steps[n].id, Failed(task.key))
            <==> (var o := LastOutage(run[n].log, task.p, task.key);
                  if o.Some? then steps[n].now < o.value + 120_000 else steps[n].now < 0)
  {
    InvHolds(run, steps, n);
    var task := run[n].tasks[steps[n].id];
    assert RememberedFor(run[n], task.p, task.key);
    hide LastOutage;
  }

  // ---------------------------------------------------------------- what "not found" does

  /** Failure `k` of the run is the one that began this cool-off. */
  ghost predicate Began(run: seq<State>, steps: seq<Step>, k: nat, e: Event)
    requires k < |steps| && k < |run|
  {
    && e.Outage? && steps[k].FetchFail? && steps[k].id in run[k].tasks
    && run[k].tasks[steps[k].id] == Fetching(e.p, e.key, e.background)
    && steps[k].notFound == e.notFound && steps[k].now == e.at
  }

  /** Every cool-off goes back to a failed fetch, and to "not found" only where that answered a background refresh. */
  lemma {:induction false} CooloffsHaveCauses(run: seq<State>, steps: seq<Step>, n: nat, i: nat)
    requires IsRun(run, steps) && n < |run| && i < |run[n].log| && run[n].log[i].Outage?
    ensures run[n].log[i].notFound ==> run[n].log[i].background
    ensures exists k :: 0 <= k < n && Began(run, steps, k, run[n].log[i])
  {
    var s, step := run[n - 1], steps[n - 1];
    LogGrows(s, step);
    if i < |s.log| {
      CooloffsHaveCauses(run, steps, n - 1, i);
    } else {
      FailureLogged(s, step);
      assert Began(run, steps, n - 1, run[n].log[i]);
    }
  }

  lemma FailureLogged(s: State, step: Step)
    requires Enabled(s, step) && |Apply(s, step).log| > |s.log| && Apply(s, step).log[|s.log|].Outage?
    ensures var e := Apply(s, step).log[|s.log|];
            && step.FetchFail? && s.tasks[step.id] == Fetching(e.p, e.key, e.background)
            && step.notFound == e.notFound && step.now == e.at && (e.notFound ==> e.background)
  {
  }

  /**
   * Over every run, "not found" begins a cool-off exactly when it answers a background refresh: then the source is
   * refused for two minutes, and otherwise what the process remembers of outages stays as it was.
   */
  lemma NotFoundCools(run: seq<State>, steps: seq<Step>, n: nat)
    requires IsRun(run, steps) && n < |steps| && steps[n].FetchFail? && steps[n].notFound
    ensures var task := run[n].tasks[steps[n].id];
            && (run[n + 1].log != run[n].log <==> task.background)
            && (task.background ==> LastOutage(run[n + 1].log, task.p, task.key) == Some(steps[n].now))
            && (!task.background ==> run[n + 1].coolingOff == run[n].coolingOff)
  {
    var s, t, task := run[n], run[n + 1], run[n].tasks[steps[n].id];
    if task.background {
      var e := Outage(task.p, task.key, steps[n].now, true, true);
      assert t.log == s.log + [e] && t.log[|s.log|] == e;
      LastOutageSnoc(s.log, e, task.p, task.key);
    }
  }

  /** A run that has got as far as this state, by these steps. */
  ghost predicate Reaches(run: seq<State>, steps: seq<Step>, s: State) {
    IsRun(run, steps) && run[|steps|] == s
  }

  lemma Goes(run: seq<State>, steps: seq<Step>, s: State, step: Step, t: State)
    requires Reaches(run, steps, s) && Enabled(s, step) && t == Apply(s, step)
    ensures Reaches(run + [t], steps + [step], t)
  {
  }

  /** How long an answer stays fresh in the run below: ten minutes, as flood warnings do. */
  const TTL := 600_000

  const START := State(map[], {}, map[], map[], {}, [])

  /** The first call has fetched and stored an answer. */
  const ANSWERED: State := State(
    map["key" := Row(7, 1)], {}, map[], map[1 := Answered("key", Served(7, 1, false))], {("key", 7)},
    [Started(0, "key", 1), Recovered(0, "key")])

  /** Just short of sixty days on, the second has found it stale, served it, and started a refresh. */
  const REFRESHING: State := ANSWERED.(
    refreshing := {(0, "key")}, log := ANSWERED.log + [Started(0, "key", 5_183_990_000)],
    tasks := ANSWERED.tasks[2 := Answered("key", Served(7, 1, true))][9 := Fetching(0, "key", true)])

  /** A second later the refresh has been told "not found". */
  const TOLD: State := REFRESHING.(
    tasks := REFRESHING.tasks[9 := Ending(0, "key")], coolingOff := map[(0, "key") := 5_184_111_000],
    log := REFRESHING.log + [Outage(0, "key", 5_183_991_000, true, true)])

  /** The row has gone: the sweep that runs at 5_184_010_000 takes what was fetched over sixty days before. */
  const SWEPT: State := TOLD.(rows := map[])

  lemma FirstCall() returns (run: seq<State>, steps: seq<Step>)
    ensures Reaches(run, steps, ANSWERED) && |steps| == 5
  {
    var s1 := Put(START, 1, Reading(0, "key", TTL));
    var s2 := Put(START, 1, Read(0, "key", TTL, None));
    var s3 := Put(START, 1, Fetching(0, "key", false)).(log := [Started(0, "key", 1)]);
    var s4 := Put(START, 1, Writing(0, "key", false, 7)).(fetched := {("key", 7)}, log := ANSWERED.log);
    run, steps := [START], [];
    run, steps := Then(run, steps, START, Request(1, 0, "key", TTL), s1);
    run, steps := Then(run, steps, s1, ReadRow(1, true), s2);
    run, steps := Then(run, steps, s2, Resolve(1, 1, 10), s3);
    run, steps := Then(run, steps, s3, FetchOk(1, 7), s4);
    run, steps := Then(run, steps, s4, WriteRow(1, true, 1), ANSWERED);
  }

  lemma Then(run: seq<State>, steps: seq<Step>, s: State, step: Step, t: State)
    returns (run': seq<State>, steps': seq<Step>)
    requires Reaches(run, steps, s) && Enabled(s, step) && t == Apply(s, step)
    ensures Reaches(run', steps', t) && run' == run + [t] && steps' == steps + [step]
  {
    run', steps' := run + [t], steps + [step];
    Goes(run, steps, s, step, t);
  }

  lemma SecondCall(run: seq<State>, steps: seq<Step>) returns (run': seq<State>, steps': seq<Step>)
    requires Reaches(run, steps, ANSWERED)
    ensures Reaches(run', steps', REFRESHING) && |steps'| == |steps| + 3
  {
    var s1 := Put(ANSWERED, 2, Reading(0, "key", TTL));
    var s2 := Put(ANSWERED, 2, Read(0, "key", TTL, Some(Row(7, 1))));
    run', steps' := Then(run, steps, ANSWERED, Request(2, 0, "key", TTL), s1);
    run', steps' := Then(run', steps', s1, ReadRow(2, true), s2);
    run', steps' := Then(run', steps', s2, Resolve(2, 5_183_990_000, 9), REFRESHING);
  }

  lemma ToldAndSwept(run: seq<State>, steps: seq<Step>) returns (run': seq<State>, steps': seq<Step>)
    requires Reaches(run, steps, REFRESHING)
    ensures Reaches(run', steps', SWEPT) && run' == run + [TOLD, SWEPT]
    ensures steps' == steps + [FetchFail(9, true, 5_183_991_000), Sweep(10_000)]
  {
    run', steps' := Then(run, steps, REFRESHING, FetchFail(9, true, 5_183_991_000), TOLD);
    run', steps' := Then(run', steps', TOLD, Sweep(10_000), SWEPT);
  }

  lemma ThirdCall(run: seq<State>, steps: seq<Step>) returns (run': seq<State>, steps': seq<Step>)
    requires Reaches(run, steps, SWEPT)
    ensures Reaches(run', steps', Put(SWEPT, 3, Failed("key"))) && |steps'| == |steps| + 3
    ensures run <= run' && steps <= steps'
    ensures steps'[|steps'| - 1] == Resolve(3, 5_184_020_000, 11)
    ensures run'[|steps'| - 1].tasks[3] == Read(0, "key", TTL, None)
  {
    var s1 := Put(SWEPT, 3, Reading(0, "key", TTL));
    var s2 := Put(SWEPT, 3, Read(0, "key", TTL, None));
    run', steps' := Then(run, steps, SWEPT, Request(3, 0, "key", TTL), s1);
    run', steps' := Then(run', steps', s1, ReadRow(3, true), s2);
    run', steps' := Then(run', steps', s2, Resolve(3, 5_184_020_000, 11), Put(SWEPT, 3, Failed("key")));
  }

  /**
   * Such a run, in milliseconds: an answer is stored and goes stale, its background refresh is told "not found", the
   * row turns sixty days old and is swept, and the next caller, who would have been told "not found", is refused as if
   * the source were down.
   */
  lemma NotFoundRefused() returns (run: seq<State>, steps: seq<Step>)
    ensures IsRun(run, steps) && |steps| == 13
    ensures steps[8] == FetchFail(9, true, 5_183_991_000) && run[8].tasks[9] == Fetching(0, "key", true)
    ensures steps[9] == Sweep(10_000)
    ensures steps[12] == Resolve(3, 5_184_020_000, 11) && run[12].tasks[3] == Read(0, "key", TTL, None)
    ensures run[13].tasks[3] == Failed("key")
  {
    run, steps := FirstCall();
    run, steps := SecondCall(run, steps);
    hide IsRun;
    run, steps := ToldAndSwept(run, steps);
    run, steps := ThirdCall(run, steps);
  }

  /**
   * Over every run, a caller whose read found a row is answered with that row at its own age. If it was stale, a task
   * is refreshing the key in this process or the source is cooling off; if it was fresh, nothing is started.
   */
  lemma StaleIsServedAndRefreshed(run: seq<State>, steps: seq<Step>, n: nat)
    requires IsRun(run, steps) && n < |steps| && steps[n].Resolve? && run[n].tasks[steps[n].id].row.Some?
    ensures var task, t := run[n].tasks[steps[n].id], run[n + 1];
            && t.tasks[steps[n].id] == Answered(task.key, Served(task.row.value.value, task.row.value.fetchedAt, true))
            && (steps[n].now - task.row.value.fetchedAt > task.ttl ==>
                 || (exists id :: Refreshes(t, id, (task.p, task.key)))
                 || CoolingAt(run[n], task.p, task.key, steps[n].now))
            && (steps[n].now - task.row.value.fetchedAt <= task.ttl ==>
                 t == Put(run[n], steps[n].id, t.tasks[steps[n].id]))
  {
    InvHolds(run, steps, n + 1);
    var task, t := run[n].tasks[steps[n].id], run[n + 1];
    assert (task.p, task.key) in t.refreshing ==> exists id :: Refreshes(t, id, (task.p, task.key));
  }


  // ---------------------------------------------------------------- reads, writes and the sweep

  /** A caller's read finds the row as stored, unless the read fails. */
  lemma ReadsSeeStored(run: seq<State>, steps: seq<Step>, n: nat)
    requires IsRun(run, steps) && n < |steps| && steps[n].ReadRow?
    ensures var id := steps[n].id;
            var Reading(p, key, ttl) := run[n].tasks[id];
            && run[n + 1].rows == run[n].rows
            && run[n + 1].tasks[id]
               == Read(p, key, ttl, if steps[n].readable && key in run[n].rows then Some(run[n].rows[key]) else None)
  {
  }

  /**
   * What a fetch returned is stored under its key at the time it is written, unless the write fails, and whether it
   * fails or not a caller who waited is answered with it as fresh.
   */
  lemma FetchedIsStored(run: seq<State>, steps: seq<Step>, n: nat)
    requires IsRun(run, steps) && n < |steps| && steps[n].WriteRow?
    ensures var id, now := steps[n].id, steps[n].now;
            var Writing(p, key, background, value) := run[n].tasks[id];
            && (key, value) in run[n].fetched
            && run[n + 1].rows == (if steps[n].stored then run[n].rows[key := Row(value, now)] else run[n].rows)
            && (!background ==> run[n + 1].tasks[id] == Answered(key, Served(value, now, false)))
  {
    InvHolds(run, steps, n);
    assert TaskSourced(run[n], run[n].tasks[steps[n].id]);
  }

  /** A fetch that answers ends the cool-off of its key, whoever asked, and what it answered goes to be written. */
  lemma SuccessEndsCooling(run: seq<State>, steps: seq<Step>, n: nat, now: nat)
    requires IsRun(run, steps) && n < |steps| && steps[n].FetchOk?
    ensures var id := steps[n].id;
            var Fetching(p, key, background) := run[n].tasks[id];
            && run[n + 1].tasks[id] == Writing(p, key, background, steps[n].value)
            && LastOutage(run[n + 1].log, p, key) == None
            && !CoolingAt(run[n + 1], p, key, now)
  {
    var Fetching(p, key, background) := run[n].tasks[steps[n].id];
    LastOutageSnoc(run[n].log, Recovered(p, key), p, key);
  }

  /** A waiting caller whose fetch failed is told so, and a refresh that failed ends. */
  lemma FailuresAreTold(run: seq<State>, steps: seq<Step>, n: nat)
    requires IsRun(run, steps) && n < |steps| && steps[n].FetchFail?
    ensures var id := steps[n].id;
            var Fetching(p, key, background) := run[n].tasks[id];
            && run[n + 1].tasks[id] == (if background then Ending(p, key) else Failed(key))
            && run[n + 1].rows == run[n].rows
            && (background || !steps[n].notFound ==>
                 LastOutage(run[n + 1].log, p, key) == Some(steps[n].now) && CoolingAt(run[n + 1], p, key, steps[n].now))
  {
    var s, t := run[n], run[n + 1];
    var Fetching(p, key, background) := s.tasks[steps[n].id];
    InvHolds(run, steps, n + 1);
    if background || !steps[n].notFound {
      var e := Outage(p, key, steps[n].now, background, steps[n].notFound);
      LastOutageSnoc(s.log, e, p, key);
      assert t.log == s.log + [e];
    }
  }

  /** The sweep takes exactly what was fetched before its cutoff. */
  lemma SweepTakesTheOld(run: seq<State>, steps: seq<Step>, n: nat, key: string)
    requires IsRun(run, steps) && n < |steps| && steps[n].Sweep? && key in run[n].rows
    ensures key in run[n + 1].rows <==> run[n].rows[key].fetchedAt >= steps[n].cutoff
    ensures key in run[n + 1].rows ==> run[n + 1].rows[key] == run[n].rows[key]
  {
  }
}
