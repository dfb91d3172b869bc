/** The sign-in lockout and the reset allowance: one table of counters, changed by conditional writes. */
module Throttle {
  import opened Numbers

  const MAX_FAILURES := 5
  const LOCK_MS := 900_000
  const RESET_MAX := 3
  const RESET_WINDOW_MS := 900_000

  datatype Row = Row(count: nat, windowStart: int, lockedUntil: Option<int>)

  /** A lock in force at a moment. */
  predicate LockedAt(row: Option<Row>, now: int) {
    row.Some? && row.value.lockedUntil.Some? && row.value.lockedUntil.value > now
  }

  // ---------------------------------------------------------------- recordFailure's three statements

  function ExpireLock(row: Option<Row>, now: int): Option<Row> {
    if row.Some? && row.value.lockedUntil.Some? && row.value.lockedUntil.value <= now
    then Some(Row(0, now, None))
    else row
  }

  function CountOne(row: Option<Row>, now: int): Row {
    if row.Some? then row.value.(count := row.value.count + 1) else Row(1, now, None)
  }

  function SetLock(row: Row, now: int): Row {
    if row.count >= MAX_FAILURES && row.lockedUntil.None? then row.(lockedUntil := Some(now + LOCK_MS)) else row
  }

  /** One `recordFailure`, its three statements in one transaction. */
  function Fail(row: Option<Row>, now: int): Row { SetLock(CountOne(ExpireLock(row, now), now), now) }

  /** `updateMany` over an expired window. */
  function ExpireWindow(row: Option<Row>, now: int): Option<Row> {
    if row.Some? && row.value.windowStart <= now - RESET_WINDOW_MS then Some(Row(0, now, None)) else row
  }

  function At(rows: map<string, Row>, key: string): Option<Row> {
    if key in rows then Some(rows[key]) else None
  }

  /** The table. Each method but `TooManyResetRequests` is one transaction. */
  class ThrottleStore {
    var rows: map<string, Row>

    constructor ()
      ensures rows == map[]
    {
      rows := map[];
    }

    method CheckLockout(email: string, now: int) returns (locked: bool, retryAfterMins: int)
      ensures locked <==> LockedAt(At(rows, "login:" + email), now)
      ensures locked ==>
        && retryAfterMins >= 1
        && now + 60_000 * (retryAfterMins - 1) < rows["login:" + email].lockedUntil.value <= now + 60_000 * retryAfterMins
    {
      locked, retryAfterMins := false, 0;
      var key := "login:" + email;
      if key in rows {
        var row := rows[key];
        if row.lockedUntil.Some? && row.lockedUntil.value > now {
          locked := true;
          retryAfterMins := (row.lockedUntil.value - now + 59_999) / 60_000;
        }
      }
    }

    method RecordFailure(email: string, now: int)
      modifies this
      ensures rows == old(rows)["login:" + email := Fail(At(old(rows), "login:" + email), now)]
    {
      var key := "login:" + email;
      if key in rows {
        var row := rows[key];
        if row.lockedUntil.Some? && row.lockedUntil.value <= now { rows := rows[key := Row(0, now, None)]; }
      }
      if key in rows {
        rows := rows[key := rows[key].(count := rows[key].count + 1)];
      } else {
        rows := rows[key := Row(1, now, None)];
      }
      if rows[key].count >= MAX_FAILURES && rows[key].lockedUntil.None? {
        rows := rows[key := rows[key].(lockedUntil := Some(now + LOCK_MS))];
      }
    }

    method RecordSuccess(email: string)
      modifies this
      ensures rows == old(rows) - {"login:" + email}
    {
      rows := rows - {"login:" + email};
    }

    method ResetExpired(email: string, now: int)
      modifies this
      ensures var key := "reset:" + email;
              rows == if key in old(rows) then old(rows)[key := ExpireWindow(At(old(rows), key), now).value] else old(rows)
    {
      var key := "reset:" + email;
      if key in rows && rows[key].windowStart <= now - RESET_WINDOW_MS {
        rows := rows[key := Row(0, now, None)];
      }
    }

    method CountRequest(email: string, now: int) returns (count: nat)
      modifies this
      ensures var key := "reset:" + email;
              && rows == old(rows)[key := CountOne(At(old(rows), key), now)]
              && count == rows[key].count
    {
      var key := "reset:" + email;
      if key in rows {
        rows := rows[key := rows[key].(count := rows[key].count + 1)];
      } else {
        rows := rows[key := Row(1, now, None)];
      }
      count := rows[key].count;
    }

    /** Two statements; another caller's may fall between them. */
    method TooManyResetRequests(email: string, now: int) returns (tooMany: bool)
      modifies this
      ensures var key := "reset:" + email;
              && rows == old(rows)[key := CountOne(ExpireWindow(At(old(rows), key), now), now)]
              && (tooMany <==> rows[key].count > 3)
              && (key !in old(rows) || old(rows)[key].windowStart <= now - 900_000 ==> rows[key] == Row(1, now, None))
              && (key in old(rows) && old(rows)[key].windowStart > now - 900_000 ==>
                   rows[key] == old(rows)[key].(count := old(rows)[key].count + 1))
    {
      ResetExpired(email, now);
      var count := CountRequest(email, now);
      tooMany := count > RESET_MAX;
    }
  }

  // ---------------------------------------------------------------- one address's lockout row

  /** A sign-in row as failures leave it: locked exactly when five have been counted. */
  predicate ValidRow(row: Option<Row>) {
    row.Some? ==> row.value.count >= 1 && (row.value.count >= MAX_FAILURES <==> row.value.lockedUntil.Some?)
  }

  /** A failure leaves five counted exactly when it leaves a lock, and never touches a lock in force. */
  lemma FailureLocks(row: Option<Row>, now: int)
    requires ValidRow(row)
    ensures ValidRow(Some(Fail(row, now)))
    ensures Fail(row, now).count >= 5 <==> Fail(row, now).lockedUntil.Some?
    ensures Fail(row, now).count == 5 ==> Fail(row, now).lockedUntil == Some(now + 900_000)
    ensures LockedAt(row, now) ==> Fail(row, now).lockedUntil == row.value.lockedUntil
    ensures LockedAt(row, now) ==> Fail(row, now).count == row.value.count + 1
    ensures !LockedAt(row, now) && row.Some? && row.value.lockedUntil.Some? ==> Fail(row, now) == Row(1, now, None)
  {
  }

  /** The row after a run of failures, at the times given. */
  function AfterFailures(times: seq<int>): Option<Row> {
    if |times| == 0 then None
    else Some(Fail(AfterFailures(times[..|times| - 1]), times[|times| - 1]))
  }

  /** The fifth failure sets a lock for fifteen minutes; failures inside it are counted and change nothing else. */
  lemma {:induction false} FifthFailureLocks(times: seq<int>)
    requires |times| > 0
    requires |times| > 5 ==> forall i :: 5 <= i < |times| ==> times[i] < times[4] + 900_000
    ensures AfterFailures(times) == Some(Row(|times|, times[0],
              if |times| >= 5 then Some(times[4] + 900_000) else None))
  {
    if |times| > 1 { FifthFailureLocks(times[..|times| - 1]); }
  }

  /** Once the lock has run out, the next failure starts again at one. */
  lemma ExpiryStartsAgain(times: seq<int>, now: int)
    requires |times| >= 5 && now >= times[4] + 900_000
    requires forall i :: 5 <= i < |times| ==> times[i] < times[4] + 900_000
    ensures AfterFailures(times + [now]) == Some(Row(1, now, None))
  {
    FifthFailureLocks(times);
    assert (times + [now])[..|times|] == times;
  }
}
