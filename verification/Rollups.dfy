/** Rolling the monthly ledger into quarters and years. */
module Rollups {
  import opened Numbers
  import opened Engine
  import opened Scheme

  datatype Periodicity = Month | Quarter | Year {
    function Size(): (n: nat)
      ensures n > 0
    {
      match this
      case Month => 1
      case Quarter => 3
      case Year => 12
    }
  }

  datatype PeriodRow = PeriodRow(from: nat, to: nat, cost: real, intr: real, rev: real, net: real, cum: real)

  function RowCost(r: CashflowRow): real { r.cost }

  function RowInterest(r: CashflowRow): real { r.intr }

  function RowRevenue(r: CashflowRow): real { r.rev }

  function RowNet(r: CashflowRow): real { r.net }

  function PeriodCost(p: PeriodRow): real { p.cost }

  function PeriodInterest(p: PeriodRow): real { p.intr }

  function PeriodRevenue(p: PeriodRow): real { p.rev }

  function PeriodNet(p: PeriodRow): real { p.net }

  /** Flows are summed; the cumulative position is a running balance, so the period closes on its last month's. */
  function Close(chunk: seq<CashflowRow>): PeriodRow
    requires |chunk| > 0
  {
    var last := chunk[|chunk| - 1];
    PeriodRow(chunk[0].m, last.m, SumOf(RowCost, chunk), SumOf(RowInterest, chunk), SumOf(RowRevenue, chunk),
              SumOf(RowNet, chunk), last.cum)
  }

  /** The length of the first period: the last one may be a stub. */
  function First(rows: seq<CashflowRow>, size: nat): nat { if size <= |rows| then size else |rows| }

  function Rolled(rows: seq<CashflowRow>, size: nat): seq<PeriodRow>
    requires size > 0
    decreases |rows|
  {
    if |rows| == 0 then []
    else [Close(rows[..First(rows, size)])] + Rolled(rows[First(rows, size)..], size)
  }

  lemma RolledFrom(rows: seq<CashflowRow>, i: nat, size: nat)
    requires size > 0 && i <= |rows|
    ensures i == |rows| ==> Rolled(rows[i..], size) == []
    ensures var end := if i + size <= |rows| then i + size else |rows|;
            i < |rows| ==> Rolled(rows[i..], size) == [Close(rows[i..end])] + Rolled(rows[end..], size)
  {
    hide Close;
    var end := if i + size <= |rows| then i + size else |rows|;
    if i < |rows| {
      assert rows[i..][..First(rows[i..], size)] == rows[i..end];
      assert rows[i..][First(rows[i..], size)..] == rows[end..];
    }
  }

  lemma HeadMoves(done: seq<PeriodRow>, head: PeriodRow, tail: seq<PeriodRow>)
    ensures done + [head] + tail == done + ([head] + tail)
    ensures done + [head] + [] == done + [head]
  {
  }

  method RollUpCashflow(rows: seq<CashflowRow>, period: Periodicity) returns (out: seq<PeriodRow>)
    ensures out == Rolled(rows, period.Size())
  {
    var size := period.Size();
    RolledFrom(rows, 0, size);
    hide Rolled, Close;
    out := [];
    var i := 0;
    assert rows[0..] == rows;
    while i < |rows|
      invariant 0 <= i
      invariant i <= |rows| ==> out + Rolled(rows[i..], size) == Rolled(rows, size)
      invariant i > |rows| ==> out == Rolled(rows, size)
      decreases |rows| - i
    {
      var end := if i + size <= |rows| then i + size else |rows|;
      var chunk := rows[i..end];
      RolledFrom(rows, i, size);
      RolledFrom(rows, end, size);
      HeadMoves(out, Close(chunk), Rolled(rows[end..], size));
      out := out + [Close(chunk)];
      i := i + size;
    }
  }

  /** A period of one month is that month; one month more adds its flows, and closes on that month's position. */
  lemma PeriodsAddUp(chunk: seq<CashflowRow>, r: CashflowRow)
    ensures Close([r]) == PeriodRow(r.m, r.m, r.cost, r.intr, r.rev, r.net, r.cum)
    ensures |chunk| > 0 ==>
      var p := Close(chunk);
      Close(chunk + [r])
      == PeriodRow(p.from, r.m, p.cost + r.cost, p.intr + r.intr, p.rev + r.rev, p.net + r.net, r.cum)
  {
    assert [r][..0] == [];
    assert SumOf(RowCost, [r][..0]) == 0.0 == SumOf(RowInterest, [r][..0]);
    assert SumOf(RowRevenue, [r][..0]) == 0.0 == SumOf(RowNet, [r][..0]);
    assert (chunk + [r])[..|chunk|] == chunk;
  }

  // ---------------------------------------------------------------- totals and balances

  /** Every column's total survives the roll-up exactly. */
  lemma {:induction false} TotalsKept(rows: seq<CashflowRow>, size: nat)
    requires size > 0
    ensures SumOf(PeriodCost, Rolled(rows, size)) == SumOf(RowCost, rows)
    ensures SumOf(PeriodInterest, Rolled(rows, size)) == SumOf(RowInterest, rows)
    ensures SumOf(PeriodRevenue, Rolled(rows, size)) == SumOf(RowRevenue, rows)
    ensures SumOf(PeriodNet, Rolled(rows, size)) == SumOf(RowNet, rows)
    decreases |rows|
  {
    if |rows| > 0 {
      var n := First(rows, size);
      TotalsKept(rows[n..], size);
      ColumnKept(RowCost, PeriodCost, rows, n, Close(rows[..n]), Rolled(rows[n..], size));
      ColumnKept(RowInterest, PeriodInterest, rows, n, Close(rows[..n]), Rolled(rows[n..], size));
      ColumnKept(RowRevenue, PeriodRevenue, rows, n, Close(rows[..n]), Rolled(rows[n..], size));
      ColumnKept(RowNet, PeriodNet, rows, n, Close(rows[..n]), Rolled(rows[n..], size));
    }
  }

  lemma ColumnKept(f: CashflowRow -> real, g: PeriodRow -> real, rows: seq<CashflowRow>, n: nat, head: PeriodRow,
                   tail: seq<PeriodRow>)
    requires 0 < n <= |rows| && g(head) == SumOf(f, rows[..n]) && SumOf(g, tail) == SumOf(f, rows[n..])
    ensures SumOf(g, [head] + tail) == SumOf(f, rows)
  {
    SumOfConcat(f, rows[..n], rows[n..]);
    assert rows[..n] + rows[n..] == rows;
    SumOfConcat(g, [head], tail);
    assert [head][..0] == [];
    assert SumOf(g, [head]) == SumOf(g, []) + g(head);
  }

  /** The balance row `i` opens with. */
  function Before(rows: seq<CashflowRow>, i: nat, opening: real): real
    requires i < |rows|
  {
    if i == 0 then opening else rows[i - 1].cum
  }

  function PeriodBefore(ps: seq<PeriodRow>, i: nat, opening: real): real
    requires i < |ps|
  {
    if i == 0 then opening else ps[i - 1].cum
  }

  /** A monthly ledger: consecutive months, each closing on the one before plus its own net. */
  ghost predicate Runs(rows: seq<CashflowRow>, opening: real) {
    && (forall i :: 0 <= i < |rows| ==> rows[i].cum == Before(rows, i, opening) + rows[i].net)
    && (forall i :: 0 < i < |rows| ==> rows[i].m == rows[i - 1].m + 1)
  }

  /** The same of periods: each closes on the one before plus its own net, and starts the month after it ended. */
  ghost predicate PeriodsRun(ps: seq<PeriodRow>, opening: real) {
    && (forall i :: 0 <= i < |ps| ==> ps[i].cum == PeriodBefore(ps, i, opening) + ps[i].net)
    && (forall i :: 0 < i < |ps| ==> ps[i].from == ps[i - 1].to + 1)
  }

  lemma {:induction false} ChunkCloses(rows: seq<CashflowRow>, opening: real, n: nat)
    requires Runs(rows, opening) && 0 < n <= |rows|
    ensures rows[n - 1].cum == opening + SumOf(RowNet, rows[..n])
  {
    assert rows[..n][..n - 1] == rows[..n - 1];
    if n == 1 {
      assert rows[..1][..0] == [] && SumOf(RowNet, []) == 0.0;
      assert SumOf(RowNet, rows[..1]) == SumOf(RowNet, []) + RowNet(rows[0]);
    } else {
      ChunkCloses(rows, opening, n - 1);
    }
  }

  /** Quarterly and yearly balances run on exactly as the monthly ones do, and end where they end. */
  lemma {:induction false} BalancesRun(rows: seq<CashflowRow>, size: nat, opening: real)
    requires size > 0 && Runs(rows, opening)
    ensures PeriodsRun(Rolled(rows, size), opening)
    ensures |rows| > 0 ==> |Rolled(rows, size)| > 0
    ensures |rows| > 0 ==> Rolled(rows, size)[0].from == rows[0].m
    ensures |rows| > 0 ==> Rolled(rows, size)[|Rolled(rows, size)| - 1].cum == rows[|rows| - 1].cum
    ensures |rows| > 0 ==> Rolled(rows, size)[|Rolled(rows, size)| - 1].to == rows[|rows| - 1].m
    decreases |rows|
  {
    if |rows| > 0 {
      var n := First(rows, size);
      ChunkCloses(rows, opening, n);
      var head, tail, rest := Close(rows[..n]), rows[n..], Rolled(rows[n..], size);
      TailRuns(rows, opening, n);
      BalancesRun(tail, size, head.cum);
      assert Rolled(rows, size) == [head] + rest;
      if |rest| > 0 {
        assert |tail| > 0;
      }
      hide Rolled, SumOf;
      PeriodsJoin(head, rest, opening);
    }
  }

  lemma TailRuns(rows: seq<CashflowRow>, opening: real, n: nat)
    requires Runs(rows, opening) && 0 < n <= |rows|
    ensures Runs(rows[n..], rows[n - 1].cum)
    ensures n < |rows| ==> rows[n].m == rows[n - 1].m + 1
  {
    var tail, open := rows[n..], rows[n - 1].cum;
    forall i | 0 <= i < |tail|
      ensures tail[i].cum == Before(tail, i, open) + tail[i].net && (i > 0 ==> tail[i].m == tail[i - 1].m + 1)
    {
      hide Runs;
      RunsAt(rows, opening, n + i);
      assert i > 0 ==> tail[i - 1] == rows[n + i - 1];
    }
    if n < |rows| { RunsAt(rows, opening, n); }
  }

  lemma RunsAt(rows: seq<CashflowRow>, opening: real, i: nat)
    requires Runs(rows, opening) && 0 < i < |rows|
    ensures rows[i].cum == rows[i - 1].cum + rows[i].net && rows[i].m == rows[i - 1].m + 1
  {
  }

  lemma PeriodsJoin(head: PeriodRow, rest: seq<PeriodRow>, opening: real)
    requires head.cum == opening + head.net && PeriodsRun(rest, head.cum)
    requires |rest| > 0 ==> rest[0].from == head.to + 1
    ensures PeriodsRun([head] + rest, opening)
  {
    var all := [head] + rest;
    forall i | 0 <= i < |all| ensures all[i].cum == PeriodBefore(all, i, opening) + all[i].net {
      if i > 0 { assert all[i] == rest[i - 1]; }
      if i > 1 { assert all[i - 1] == rest[i - 2]; }
    }
    forall i | 0 < i < |all| ensures all[i].from == all[i - 1].to + 1 {
      assert all[i] == rest[i - 1];
      if i > 1 { assert all[i - 1] == rest[i - 2]; }
    }
  }

  /** The appraisal's own ledger is such a ledger, so its roll-ups close as it does. */
  lemma LedgerRuns(input: AppraisalInput, shock: Shock)
    requires input.Valid()
    ensures Runs(Ledger(input, shock), 0.0)
  {
    hide ConstrSeries, RevSeries, LandGross, FlowOf, TotalMonths;
  }

  // ---------------------------------------------------------------- what a period covers

  function MonthsOf(period: Periodicity): nat {
    match period case Month => 1 case Quarter => 3 case Year => 12
  }

  /** Every period but the last covers a month, three or twelve, and the last what is left of that. */
  lemma {:induction false} PeriodsSpan(rows: seq<CashflowRow>, period: Periodicity, opening: real, i: nat)
    requires Runs(rows, opening) && i < |Rolled(rows, period.Size())|
    ensures var ps := Rolled(rows, period.Size());
            && (i + 1 < |ps| ==> ps[i].to - ps[i].from + 1 == MonthsOf(period))
            && 1 <= ps[i].to - ps[i].from + 1 <= MonthsOf(period)
    decreases |rows|
  {
    var size := period.Size();
    var n := First(rows, size);
    assert |rows| > 0;
    ConsecutiveMonths(rows, opening, n - 1);
    var rest := Rolled(rows[n..], size);
    assert Rolled(rows, size) == [Close(rows[..n])] + rest;
    assert Close(rows[..n]).from == rows[0].m && Close(rows[..n]).to == rows[n - 1].m;
    if |rest| > 0 { assert |rows[n..]| > 0 && n == size; }
    if i > 0 {
      TailRuns(rows, opening, n);
      PeriodsSpan(rows[n..], period, rows[n - 1].cum, i - 1);
      assert Rolled(rows, size)[i] == rest[i - 1];
    }
    hide Rolled, Close, Runs;
  }

  lemma {:induction false} ConsecutiveMonths(rows: seq<CashflowRow>, opening: real, k: nat)
    requires Runs(rows, opening) && k < |rows|
    ensures rows[k].m == rows[0].m + k
  {
    if k > 0 {
      ConsecutiveMonths(rows, opening, k - 1);
      RunsAt(rows, opening, k);
    }
    hide Runs;
  }
}
