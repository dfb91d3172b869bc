/** Matching saved units to the extracted units they came from, by recorded id alone. */
module UnitLinks {
  import opened Numbers

  /** The values a comparison shows; a saved unit's capital value stands against the original's. */
  datatype UnitValues = UnitValues(name: string, count: real, area: real, value: real)

  datatype LinkedUnit = LinkedUnit(id: Option<string>, values: UnitValues) {
    /** An absent id and an empty one are both no id. */
    predicate Has(key: string) { id == Some(key) && key != "" }

    predicate Linked() { id.Some? && id.value != "" }
  }

  datatype Row = Row(
    originalRow: Option<nat>, savedRow: Option<nat>,
    original: Option<UnitValues>, saved: Option<UnitValues>, changed: Option<bool>)

  function Count(units: seq<LinkedUnit>, key: string): nat {
    if |units| == 0 then 0
    else Count(units[..|units| - 1], key) + (if units[|units| - 1].Has(key) then 1 else 0)
  }

  /** `findIndex`: the first unit with the id, or the end. */
  function FindIndex(units: seq<LinkedUnit>, key: string, from: nat): (i: nat)
    requires from <= |units|
    ensures from <= i <= |units|
    ensures i < |units| ==> units[i].Has(key)
    ensures forall k :: from <= k < i ==> !units[k].Has(key)
    decreases |units| - from
  {
    if from == |units| || units[from].Has(key) then from else FindIndex(units, key, from + 1)
  }

  predicate OnBothSidesOnce(original: seq<LinkedUnit>, saved: seq<LinkedUnit>, u: LinkedUnit) {
    u.Linked() && Count(original, u.id.value) == 1 && Count(saved, u.id.value) == 1
  }

  /** The saved unit an original pairs with. */
  function Partner(original: seq<LinkedUnit>, saved: seq<LinkedUnit>, i: nat): Option<nat>
    requires i < |original|
  {
    var u := original[i];
    if OnBothSidesOnce(original, saved, u) && FindIndex(saved, u.id.value, 0) < |saved|
    then Some(FindIndex(saved, u.id.value, 0))
    else None
  }

  function OriginalRow(original: seq<LinkedUnit>, saved: seq<LinkedUnit>, i: nat): Row
    requires i < |original|
  {
    var before := original[i].values;
    match Partner(original, saved, i)
    case None => Row(Some(i + 1), None, Some(before), None, None)
    case Some(j) =>
      if j < |saved| then
        Row(Some(i + 1), Some(j + 1), Some(before), Some(saved[j].values), Some(before != saved[j].values))
      else Row(Some(i + 1), None, Some(before), None, None)
  }

  function OriginalRows(original: seq<LinkedUnit>, saved: seq<LinkedUnit>): (rows: seq<Row>)
    ensures |rows| == |original|
  {
    seq(|original|, i requires 0 <= i < |original| => OriginalRow(original, saved, i))
  }

  /** Saved units that the first `n` originals pair with. */
  function Matched(original: seq<LinkedUnit>, saved: seq<LinkedUnit>, n: nat): set<nat>
    requires n <= |original|
  {
    set i | 0 <= i < n && Partner(original, saved, i).Some? :: Partner(original, saved, i).value
  }

  function SavedRow(saved: seq<LinkedUnit>, j: nat): Row
    requires j < |saved|
  {
    Row(None, Some(j + 1), None, Some(saved[j].values), None)
  }

  /** Saved units among the first `n` that nothing matched, in order. */
  function Leftover(saved: seq<LinkedUnit>, matched: set<nat>, n: nat): seq<Row>
    requires n <= |saved|
  {
    if n == 0 then []
    else Leftover(saved, matched, n - 1) + (if n - 1 in matched then [] else [SavedRow(saved, n - 1)])
  }

  function Compare(original: seq<LinkedUnit>, saved: seq<LinkedUnit>): seq<Row> {
    OriginalRows(original, saved) + Leftover(saved, Matched(original, saved, |original|), |saved|)
  }

  /** `new Map` of how often each id occurs. */
  method CountIds(units: seq<LinkedUnit>) returns (counts: map<string, nat>)
    ensures forall key :: key != "" ==> Count(units, key) == if key in counts then counts[key] else 0
  {
    counts := map[];
    for k := 0 to |units|
      invariant forall key :: key != "" ==> Count(units[..k], key) == if key in counts then counts[key] else 0
    {
      assert units[..k + 1][..k] == units[..k];
      if units[k].Linked() {
        var key := units[k].id.value;
        counts := counts[key := (if key in counts then counts[key] else 0) + 1];
      }
    }
    assert units[..|units|] == units;
  }

  /** A phased scheme has no flat schedule to compare; otherwise originals first, then what they did not claim. */
  method CompareExtractionUnits(original: seq<LinkedUnit>, saved: seq<LinkedUnit>, phased: bool)
    returns (available: bool, rows: seq<Row>)
    ensures available == !phased
    ensures rows == if phased then [] else Compare(original, saved)
  {
    rows := [];
    if phased { return false, rows; }
    available := true;
    var originalCounts := CountIds(original);
    var savedCounts := CountIds(saved);
    var matched: set<nat> := {};
    for i := 0 to |original|
      invariant rows == OriginalRows(original, saved)[..i]
      invariant matched == Matched(original, saved, i)
    {
      var before := original[i].values;
      var savedIndex := |saved|;
      if original[i].Linked() {
        var key := original[i].id.value;
        if key in originalCounts && originalCounts[key] == 1 && key in savedCounts && savedCounts[key] == 1 {
          savedIndex := FindIndex(saved, key, 0);
        }
      }
      MatchedStep(original, saved, i);
      if savedIndex < |saved| {
        matched := matched + {savedIndex};
        var after := saved[savedIndex].values;
        rows := rows + [Row(Some(i + 1), Some(savedIndex + 1), Some(before), Some(after), Some(before != after))];
      } else {
        rows := rows + [Row(Some(i + 1), None, Some(before), None, None)];
      }
    }
    for j := 0 to |saved|
      invariant rows == OriginalRows(original, saved) + Leftover(saved, matched, j)
    {
      if j !in matched { rows := rows + [SavedRow(saved, j)]; }
    }
  }

  lemma MatchedStep(original: seq<LinkedUnit>, saved: seq<LinkedUnit>, n: nat)
    requires n < |original|
    ensures Matched(original, saved, n + 1)
         == Matched(original, saved, n)
            + (if Partner(original, saved, n).Some? then {Partner(original, saved, n).value} else {})
  {
    hide Partner;
  }

  // ---------------------------------------------------------------- ids and their places

  lemma {:induction false} CountAt(units: seq<LinkedUnit>, key: string, i: nat)
    requires i < |units| && units[i].Has(key)
    ensures Count(units, key) >= 1
  {
    if i < |units| - 1 { CountAt(units[..|units| - 1], key, i); }
  }

  lemma {:induction false} CountTwice(units: seq<LinkedUnit>, key: string, i: nat, j: nat)
    requires i < j < |units| && units[i].Has(key) && units[j].Has(key)
    ensures Count(units, key) >= 2
  {
    var init := units[..|units| - 1];
    if j < |units| - 1 { CountTwice(init, key, i, j); } else { CountAt(init, key, i); }
  }

  lemma {:induction false} CountedIsThere(units: seq<LinkedUnit>, key: string)
    requires Count(units, key) >= 1
    ensures exists i :: 0 <= i < |units| && units[i].Has(key)
  {
    var n := |units| - 1;
    if units[n].Has(key) {
    } else {
      CountedIsThere(units[..n], key);
      var i :| 0 <= i < n && units[..n][i].Has(key);
      assert units[i].Has(key);
    }
  }

  // ---------------------------------------------------------------- a one-to-one matching

  /** An original and a saved unit pair exactly when they carry the same id and it occurs once on each side. */
  lemma PairsExactly(original: seq<LinkedUnit>, saved: seq<LinkedUnit>, i: nat, j: nat)
    requires i < |original| && j < |saved|
    ensures Partner(original, saved, i) == Some(j)
      <==> (original[i].Linked() && saved[j].Has(original[i].id.value)
            && Count(original, original[i].id.value) == 1 && Count(saved, original[i].id.value) == 1)
  {
    if OnBothSidesOnce(original, saved, original[i]) && saved[j].Has(original[i].id.value) {
      var key := original[i].id.value;
      var f := FindIndex(saved, key, 0);
      if f < j { CountTwice(saved, key, f, j); }
    }
  }

  lemma PartnersDiffer(original: seq<LinkedUnit>, saved: seq<LinkedUnit>, i: nat, k: nat)
    requires i < k < |original| && Partner(original, saved, i).Some?
    ensures Partner(original, saved, k) != Partner(original, saved, i)
  {
    var j := Partner(original, saved, i).value;
    if Partner(original, saved, k) == Some(j) {
      CountTwice(original, original[i].id.value, i, k);
    }
  }

  lemma NewPartner(original: seq<LinkedUnit>, saved: seq<LinkedUnit>, n: nat)
    requires n < |original| && Partner(original, saved, n).Some?
    ensures Partner(original, saved, n).value !in Matched(original, saved, n)
  {
    hide Partner;
    forall i | 0 <= i < n && Partner(original, saved, i).Some?
      ensures Partner(original, saved, i) != Partner(original, saved, n)
    {
      PartnersDiffer(original, saved, i, n);
    }
  }

  lemma {:induction false} MatchedCount(original: seq<LinkedUnit>, saved: seq<LinkedUnit>, n: nat)
    requires n <= |original|
    ensures forall j :: j in Matched(original, saved, n) ==> j < |saved|
    ensures |Matched(original, saved, n)| == Pairs(original, saved, n)
  {
    hide Partner;
    if n > 0 {
      MatchedCount(original, saved, n - 1);
      MatchedStep(original, saved, n - 1);
      var p := Partner(original, saved, n - 1);
      if p.Some? {
        PartnerInRange(original, saved, n - 1);
        NewPartner(original, saved, n - 1);
      }
      hide Matched;
    }
  }

  lemma PartnerInRange(original: seq<LinkedUnit>, saved: seq<LinkedUnit>, i: nat)
    requires i < |original| && Partner(original, saved, i).Some?
    ensures Partner(original, saved, i).value < |saved|
  {
  }

  /** How many of the first `n` originals found a partner. */
  function Pairs(original: seq<LinkedUnit>, saved: seq<LinkedUnit>, n: nat): nat
    requires n <= |original|
  {
    if n == 0 then 0 else Pairs(original, saved, n - 1) + (if Partner(original, saved, n - 1).Some? then 1 else 0)
  }

  lemma {:induction false} LeftoverSize(saved: seq<LinkedUnit>, matched: set<nat>, n: nat)
    requires n <= |saved|
    ensures |Leftover(saved, matched, n)| == n - |set j | j in matched && j < n|
  {
    var below := set j | j in matched && j < n;
    if n == 0 {
      assert below == {};
    } else {
      LeftoverSize(saved, matched, n - 1);
      var less := set j | j in matched && j < n - 1;
      assert below == less + (if n - 1 in matched then {n - 1} else {});
    }
  }

  /** A leftover row shows one unmatched unit, and each unmatched unit is shown by exactly one of them. */
  lemma {:induction false} LeftoverRows(saved: seq<LinkedUnit>, matched: set<nat>, n: nat)
    requires n <= |saved|
    ensures forall row :: row in Leftover(saved, matched, n) ==> LeftoverRow(saved, matched, n, row)
    ensures forall j :: 0 <= j < n && j !in matched ==> SavedRow(saved, j) in Leftover(saved, matched, n)
    ensures forall k, l :: 0 <= k < l < |Leftover(saved, matched, n)| ==>
              Leftover(saved, matched, n)[k].savedRow != Leftover(saved, matched, n)[l].savedRow
  {
    if n > 0 {
      LeftoverRows(saved, matched, n - 1);
      var init, rows := Leftover(saved, matched, n - 1), Leftover(saved, matched, n);
      forall row | row in init ensures row.savedRow != Some(n) {
        assert LeftoverRow(saved, matched, n - 1, row);
      }
      forall k, l | 0 <= k < l < |rows| ensures rows[k].savedRow != rows[l].savedRow {
        assert rows[k] == init[k];
        if l < |init| { assert rows[l] == init[l]; }
      }
    }
  }

  ghost predicate LeftoverRow(saved: seq<LinkedUnit>, matched: set<nat>, n: nat, row: Row)
    requires n <= |saved|
  {
    && row.savedRow.Some? && row.originalRow == None
    && 1 <= row.savedRow.value <= n && row.savedRow.value - 1 !in matched
    && row == SavedRow(saved, row.savedRow.value - 1)
  }

  /** Which rows show saved unit `j`. */
  ghost function Showing(rows: seq<Row>, j: nat): set<nat> {
    set k | 0 <= k < |rows| && rows[k].savedRow == Some(j + 1)
  }

  lemma OriginalsFirst(original: seq<LinkedUnit>, saved: seq<LinkedUnit>)
    ensures |Compare(original, saved)| >= |original|
    ensures forall i :: 0 <= i < |original| ==> Compare(original, saved)[i].originalRow == Some(i + 1)
  {
    hide Partner, Matched, Leftover;
  }

  lemma LeftoversLast(original: seq<LinkedUnit>, saved: seq<LinkedUnit>)
    ensures forall k :: |original| <= k < |Compare(original, saved)| ==> Compare(original, saved)[k].originalRow == None
  {
    CompareTail(original, saved);
    hide Compare, Leftover, Matched;
    var matched := Matched(original, saved, |original|);
    LeftoverRows(saved, matched, |saved|);
    var rows, left := Compare(original, saved), Leftover(saved, matched, |saved|);
    forall k | |original| <= k < |rows| ensures rows[k].originalRow == None {
      assert rows[k] == left[k - |original|];
      assert LeftoverRow(saved, matched, |saved|, left[k - |original|]);
    }
  }

  /** Originals appear once each, in order, ahead of everything else; the rows are originals + saved - pairs. */
  lemma RowsAccounted(original: seq<LinkedUnit>, saved: seq<LinkedUnit>)
    ensures |Compare(original, saved)| == |original| + |saved| - Pairs(original, saved, |original|)
    ensures forall i :: 0 <= i < |original| && i < |Compare(original, saved)| ==>
              Compare(original, saved)[i].originalRow == Some(i + 1)
    ensures forall k :: |original| <= k < |Compare(original, saved)| ==> Compare(original, saved)[k].originalRow == None
  {
    OriginalsFirst(original, saved);
    LeftoversLast(original, saved);
    CompareTail(original, saved);
    hide *;
    var matched := Matched(original, saved, |original|);
    MatchedCount(original, saved, |original|);
    LeftoverSize(saved, matched, |saved|);
    assert matched == set j | j in matched && j < |saved|;
  }

  lemma MatchedShown(original: seq<LinkedUnit>, saved: seq<LinkedUnit>, i: nat)
    requires i < |original|
    ensures Compare(original, saved)[i].savedRow.Some? <==> Partner(original, saved, i).Some?
    ensures Partner(original, saved, i).Some? ==>
              Compare(original, saved)[i].savedRow == Some(Partner(original, saved, i).value + 1)
  {
  }

  /** A row that shows saved unit `j`: an original paired with it, or a leftover that nothing paired with. */
  lemma RowShows(original: seq<LinkedUnit>, saved: seq<LinkedUnit>, j: nat, k: nat)
    requires j < |saved| && k < |Compare(original, saved)| && Compare(original, saved)[k].savedRow == Some(j + 1)
    ensures k < |original| ==> Partner(original, saved, k) == Some(j)
    ensures j in Matched(original, saved, |original|) <==> k < |original|
  {
    hide Partner;
    CompareTail(original, saved);
    var matched := Matched(original, saved, |original|);
    if k < |original| {
      MatchedShown(original, saved, k);
    } else {
      LeftoverRows(saved, matched, |saved|);
      var row := Leftover(saved, matched, |saved|)[k - |original|];
      assert LeftoverRow(saved, matched, |saved|, row);
    }
  }

  lemma ShownAtMostOnce(original: seq<LinkedUnit>, saved: seq<LinkedUnit>, j: nat, k: nat, l: nat)
    requires j < |saved| && k < l < |Compare(original, saved)|
    ensures Compare(original, saved)[k].savedRow != Some(j + 1) || Compare(original, saved)[l].savedRow != Some(j + 1)
  {
    hide Partner;
    var rows, n := Compare(original, saved), |original|;
    CompareTail(original, saved);
    if rows[k].savedRow == Some(j + 1) == rows[l].savedRow {
      RowShows(original, saved, j, k);
      RowShows(original, saved, j, l);
      if l < n {
        PartnersDiffer(original, saved, k, l);
      } else {
        LeftoverRows(saved, Matched(original, saved, n), |saved|);
      }
    }
  }

  lemma ShownAtLeastOnce(original: seq<LinkedUnit>, saved: seq<LinkedUnit>, j: nat) returns (k: nat)
    requires j < |saved|
    ensures k < |Compare(original, saved)| && Compare(original, saved)[k].savedRow == Some(j + 1)
  {
    hide Partner, Leftover, Compare;
    var matched := Matched(original, saved, |original|);
    CompareTail(original, saved);
    if j in matched {
      k :| 0 <= k < |original| && Partner(original, saved, k) == Some(j);
      MatchedShown(original, saved, k);
    } else {
      LeftoverRows(saved, matched, |saved|);
      var l :| 0 <= l < |Leftover(saved, matched, |saved|)| && Leftover(saved, matched, |saved|)[l] == SavedRow(saved, j);
      k := |original| + l;
    }
  }

  /** Every saved unit appears on exactly one row. */
  lemma SavedShownOnce(original: seq<LinkedUnit>, saved: seq<LinkedUnit>, j: nat)
    requires j < |saved|
    ensures |Showing(Compare(original, saved), j)| == 1
  {
    hide Compare;
    var rows := Compare(original, saved);
    var at := ShownAtLeastOnce(original, saved, j);
    forall k | 0 <= k < |rows| && rows[k].savedRow == Some(j + 1) ensures k == at {
      if k < at { ShownAtMostOnce(original, saved, j, k, at); }
      if at < k { ShownAtMostOnce(original, saved, j, at, k); }
    }
    assert Showing(rows, j) == {at};
  }

  lemma CompareTail(original: seq<LinkedUnit>, saved: seq<LinkedUnit>)
    ensures var left := Leftover(saved, Matched(original, saved, |original|), |saved|);
            && |Compare(original, saved)| == |original| + |left|
            && forall k :: 0 <= k < |left| ==> Compare(original, saved)[|original| + k] == left[k]
  {
  }

  // ---------------------------------------------------------------- what a save accepts

  /** Every link is to a known extracted unit, and no two saved units claim the same one. */
  ghost predicate LinksSound(original: seq<LinkedUnit>, saved: seq<LinkedUnit>) {
    && (forall j :: 0 <= j < |saved| && saved[j].Linked() ==>
         exists i :: 0 <= i < |original| && original[i].Has(saved[j].id.value))
    && (forall j, k :: 0 <= j < k < |saved| && saved[j].Linked() ==> saved[k].id != saved[j].id)
  }

  /** `assertExtractionUnitLinks`: false where it throws. */
  method LinksAccepted(original: seq<LinkedUnit>, saved: seq<LinkedUnit>) returns (ok: bool)
    ensures ok <==> LinksSound(original, saved)
  {
    var known := set u | u in original && u.Linked() :: u.id.value;
    var seen: set<string> := {};
    for j := 0 to |saved|
      invariant seen == set k | 0 <= k < j && saved[k].Linked() :: saved[k].id.value
      invariant forall k :: 0 <= k < j && saved[k].Linked() ==> saved[k].id.value in known
      invariant forall i, k :: 0 <= i < k < j && saved[i].Linked() ==> saved[k].id != saved[i].id
    {
      if saved[j].Linked() {
        var key := saved[j].id.value;
        if key !in known { return false; }
        if key in seen { return false; }
        seen := seen + {key};
      }
    }
    ok := true;
  }

  lemma {:induction false} AbsentUncounted(units: seq<LinkedUnit>, key: string)
    requires forall i :: 0 <= i < |units| ==> !units[i].Has(key)
    ensures Count(units, key) == 0
  {
    if |units| > 0 { AbsentUncounted(units[..|units| - 1], key); }
  }

  lemma {:induction false} DistinctCountedOnce(units: seq<LinkedUnit>, key: string)
    requires forall j, k :: 0 <= j < k < |units| && units[j].Linked() ==> units[k].id != units[j].id
    ensures Count(units, key) <= 1
  {
    var n := |units| - 1;
    if n >= 0 {
      if units[n].Has(key) { AbsentUncounted(units[..n], key); } else { DistinctCountedOnce(units[..n], key); }
    }
  }

  /** A save that was accepted pairs every link whose id the extraction gave to one unit only. */
  lemma AcceptedLinksPair(original: seq<LinkedUnit>, saved: seq<LinkedUnit>, j: nat)
    requires LinksSound(original, saved) && j < |saved| && saved[j].Linked()
    requires Count(original, saved[j].id.value) == 1
    ensures exists i :: 0 <= i < |original| && Partner(original, saved, i) == Some(j)
  {
    var key := saved[j].id.value;
    DistinctCountedOnce(saved, key);
    CountAt(saved, key, j);
    CountedIsThere(original, key);
    var i :| 0 <= i < |original| && original[i].Has(key);
    PairsExactly(original, saved, i, j);
  }

  // ---------------------------------------------------------------- what the rows show

  /** The places at which an original and a saved unit carry one id that occurs once on each side. */
  predicate Pair(original: seq<LinkedUnit>, saved: seq<LinkedUnit>, i: nat, j: nat) {
    && i < |original| && j < |saved| && original[i].id.Some? && original[i].id.value != ""
    && saved[j].id == original[i].id
    && Count(original, original[i].id.value) == 1 && Count(saved, original[i].id.value) == 1
  }

  /** An original's row shows it beside the saved unit it pairs with, and says whether any of their values differ. */
  lemma PairedRowShows(original: seq<LinkedUnit>, saved: seq<LinkedUnit>, i: nat, j: nat)
    requires Pair(original, saved, i, j)
    ensures i < |Compare(original, saved)|
    ensures var row, a, b := Compare(original, saved)[i], original[i].values, saved[j].values;
            && row.originalRow == Some(i + 1) && row.savedRow == Some(j + 1)
            && row.original == Some(a) && row.saved == Some(b)
            && (row.changed == Some(false)
                <==> a.name == b.name && a.count == b.count && a.area == b.area && a.value == b.value)
            && row.changed.Some?
  {
    PairsExactly(original, saved, i, j);
    hide Leftover, Matched, Count;
  }

  lemma PartnerPairs(original: seq<LinkedUnit>, saved: seq<LinkedUnit>, i: nat)
    requires i < |original|
    ensures var p := Partner(original, saved, i); p.Some? ==> p.value < |saved| && Pair(original, saved, i, p.value)
  {
    var p := Partner(original, saved, i);
    if p.Some? {
      PartnerInRange(original, saved, i);
      PairsExactly(original, saved, i, p.value);
    }
    hide Partner, Count;
  }

  /** One that pairs with nothing is shown alone. */
  lemma UnpairedRowShows(original: seq<LinkedUnit>, saved: seq<LinkedUnit>, i: nat)
    requires i < |original| && forall j :: 0 <= j < |saved| ==> !Pair(original, saved, i, j)
    ensures i < |Compare(original, saved)|
    ensures Compare(original, saved)[i] == Row(Some(i + 1), None, Some(original[i].values), None, None)
  {
    PartnerPairs(original, saved, i);
    hide Leftover, Matched, Count, Partner;
  }

  lemma LeftoverAt(original: seq<LinkedUnit>, saved: seq<LinkedUnit>, k: nat) returns (j: nat)
    requires |original| <= k < |Compare(original, saved)|
    ensures j < |saved| && j !in Matched(original, saved, |original|)
    ensures Compare(original, saved)[k] == Row(None, Some(j + 1), None, Some(saved[j].values), None)
  {
    var matched := Matched(original, saved, |original|);
    hide *;
    CompareTail(original, saved);
    LeftoverRows(saved, matched, |saved|);
    j := LeftoverMeans(saved, matched, Leftover(saved, matched, |saved|)[k - |original|]);
  }

  lemma LeftoverMeans(saved: seq<LinkedUnit>, matched: set<nat>, row: Row) returns (j: nat)
    requires LeftoverRow(saved, matched, |saved|, row)
    ensures j < |saved| && j !in matched && row == Row(None, Some(j + 1), None, Some(saved[j].values), None)
  {
    j := row.savedRow.value - 1;
  }

  /** A row after the originals shows one saved unit, and it pairs with none of them. */
  lemma LeftoverRowShows(original: seq<LinkedUnit>, saved: seq<LinkedUnit>, k: nat)
    requires |original| <= k < |Compare(original, saved)|
    ensures exists j :: 0 <= j < |saved| && Compare(original, saved)[k] == Row(None, Some(j + 1), None, Some(saved[j].values), None)
                        && forall i :: 0 <= i < |original| ==> !Pair(original, saved, i, j)
  {
    hide *;
    var j := LeftoverAt(original, saved, k);
    forall i | 0 <= i < |original| ensures !Pair(original, saved, i, j) {
      NotMatched(original, saved, i, j);
    }
  }

  lemma NotMatched(original: seq<LinkedUnit>, saved: seq<LinkedUnit>, i: nat, j: nat)
    requires i < |original| && j < |saved| && j !in Matched(original, saved, |original|)
    ensures !Pair(original, saved, i, j)
  {
    PairsExactly(original, saved, i, j);
    hide Partner, Count;
  }
}
