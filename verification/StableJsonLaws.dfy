/** `stableStringify` is canonical and unambiguous: exactly which values print the same text. */
module StableJsonLaws {
  import opened JsonText
  import opened StableJson

  // ---------------------------------------------------------------- when two values are the same

  /** A number's text: not empty, and made only of digits, signs, a point and an exponent mark. */
  ghost predicate NumberPrinter(num: int -> Text) {
    forall n :: |num(n)| > 0 && forall i :: 0 <= i < |num(n)| ==> NumberUnit(num(n)[i])
  }

  predicate NumberUnit(u: Unit) { 48 <= u < 58 || u == 45 || u == 43 || u == 46 || u == 69 || u == 101 }

  /** What an array prints: one lone `undefined` leaves nothing between the brackets. */
  function Elements(items: seq<Json>): seq<Json> { if items == [Undefined] then [] else items }

  ghost predicate HasKey(es: seq<Entry>, key: Text) {
    exists i :: 0 <= i < |es| && es[i].key == key && !es[i].value.Undefined?
  }

  /**
   * The same value but for the order of keys, keys that hold `undefined`, a lone `undefined` in an array, numbers
   * the number printer cannot tell apart, and a non-finite number read as null.
   */
  ghost predicate Same(num: int -> Text, a: Json, b: Json)
    decreases a
  {
    match a
    case Undefined => b.Undefined?
    case Null => b.Null? || b.NotFinite?
    case NotFinite => b.Null? || b.NotFinite?
    case Bool(x) => b == Bool(x)
    case Num(n) => b.Num? && num(n) == num(b.n)
    case Str(s) => b == Str(s)
    case Arr(items) =>
      && b.Arr? && |Elements(items)| == |Elements(b.items)|
      && forall i :: 0 <= i < |items| && i < |Elements(items)| ==> Same(num, items[i], Elements(b.items)[i])
    case Obj(entries) =>
      && b.Obj? && (forall key :: HasKey(entries, key) <==> HasKey(b.entries, key))
      && forall i, j :: 0 <= i < |entries| && 0 <= j < |b.entries|
           && entries[i].key == b.entries[j].key && HasKey(entries, entries[i].key)
           ==> Same(num, entries[i].value, b.entries[j].value)
  }

  // ---------------------------------------------------------------- texts that cannot be confused

  /** What may follow a value: the end, a comma or a closing bracket. */
  predicate Stops(r: Text) { |r| == 0 || r[0] == COMMA || r[0] == CLOSE_BRACKET || r[0] == CLOSE_BRACE }

  /** Two texts of which neither can be read as the start of the other. */
  ghost predicate Clear(t: Text, u: Text) {
    forall r, r' :: Stops(r) && Stops(r') && t + r == u + r' ==> t == u && r == r'
  }

  predicate Starts(t: Text) { |t| == 0 || !Stops(t) }

  lemma FirstTellsApart(t: Text, u: Text)
    requires Starts(t) && Starts(u) && (|t| > 0 && |u| > 0 ==> t[0] != u[0]) && t != u
    ensures Clear(t, u)
  {
    forall r, r' | Stops(r) && Stops(r') ensures t + r != u + r' {
      assert |t| == 0 ==> t + r == r;
      assert |u| == 0 ==> u + r' == r';
      assert |t| > 0 ==> (t + r)[0] == t[0];
      assert |u| > 0 ==> (u + r')[0] == u[0];
    }
  }

  lemma EqualIsClear(t: Text)
    ensures Clear(t, t)
  {
    forall r, r' | Stops(r) && Stops(r') && t + r == t + r' ensures r == r' {
      assert (t + r)[|t|..] == r && (t + r')[|t|..] == r';
    }
  }

  lemma LongerNumberGoesOn(num: int -> Text, m: int, n: int, r: Text, r': Text)
    requires NumberPrinter(num) && |num(m)| < |num(n)| && Stops(r)
    ensures num(m) + r != num(n) + r'
  {
    var k := |num(m)|;
    assert (num(n) + r')[k] == num(n)[k];
    assert |r| > 0 ==> (num(m) + r)[k] == r[0];
  }

  /** Numbers are read greedily. */
  lemma NumbersAreClear(num: int -> Text, m: int, n: int)
    requires NumberPrinter(num)
    ensures Clear(num(m), num(n))
  {
    var t, u := num(m), num(n);
    forall r, r' | Stops(r) && Stops(r') && t + r == u + r' ensures t == u && r == r' {
      if |t| < |u| { LongerNumberGoesOn(num, m, n, r, r'); }
      if |u| < |t| { LongerNumberGoesOn(num, n, m, r', r); }
      assert (t + r)[..|t|] == t && (u + r')[..|u|] == u && (t + r)[|t|..] == r && (u + r')[|u|..] == r';
    }
  }

  lemma StringsAreClear(a: Text, b: Text)
    ensures Clear(Quote(a), Quote(b))
  {
    hide Quote;
    forall r, r' | Stops(r) && Stops(r') && Quote(a) + r == Quote(b) + r' ensures Quote(a) == Quote(b) && r == r' {
      QuoteIsClear(a, b, r, r');
    }
  }

  /** A list between brackets gives back its members, except that none and one empty member look alike. */
  lemma {:induction false} JoinSplits(ts: seq<Text>, us: seq<Text>, close: Unit, r: Text, r': Text)
    requires close == CLOSE_BRACKET || close == CLOSE_BRACE
    requires forall i :: 0 <= i < |ts| ==> Starts(ts[i])
    requires forall i :: 0 <= i < |us| ==> Starts(us[i])
    requires forall i, j :: 0 <= i < |ts| && 0 <= j < |us| ==> Clear(ts[i], us[j])
    requires Join(ts) + [close] + r == Join(us) + [close] + r'
    ensures r == r' && (ts == us || (ts == [] && us == [[]]) || (ts == [[]] && us == []))
  {
    if |ts| == 0 || |us| == 0 {
      NoMembers(ts, us, close, r, r');
    } else {
      var R, R' := Rest(ts, close, r), Rest(us, close, r');
      JoinIsFirst(ts, close, r);
      JoinIsFirst(us, close, r');
      assert Clear(ts[0], us[0]);
      assert R == R' && ts[0] == us[0];
      assert ts == [ts[0]] + ts[1..] && us == [us[0]] + us[1..];
      assert R[1..] == R'[1..] && R[0] == R'[0];
      if |ts| > 1 && |us| > 1 {
        assert R[1..] == Join(ts[1..]) + [close] + r && R'[1..] == Join(us[1..]) + [close] + r';
        JoinSplits(ts[1..], us[1..], close, r, r');
      } else if |ts| == 1 && |us| == 1 {
        assert R[1..] == r && R'[1..] == r';
      }
    }
  }

  function Rest(ts: seq<Text>, close: Unit, r: Text): Text
    requires |ts| > 0
  {
    if |ts| == 1 then [close] + r else [COMMA] + Join(ts[1..]) + [close] + r
  }

  lemma JoinIsFirst(ts: seq<Text>, close: Unit, r: Text)
    requires |ts| > 0
    requires close == CLOSE_BRACKET || close == CLOSE_BRACE
    ensures Join(ts) + [close] + r == ts[0] + Rest(ts, close, r) && Stops(Rest(ts, close, r))
  {
    if |ts| > 1 {
      var first, tail := ts[0], Join(ts[1..]);
      Regroup(first, [COMMA], tail);
      Regroup(first, [COMMA] + tail, [close]);
      Regroup(first, [COMMA] + tail + [close], r);
    } else {
      Regroup(ts[0], [close], r);
    }
  }

  lemma Regroup(a: Text, b: Text, c: Text)
    ensures a + b + c == a + (b + c)
  {
  }

  lemma NoMembers(ts: seq<Text>, us: seq<Text>, close: Unit, r: Text, r': Text)
    requires close == CLOSE_BRACKET || close == CLOSE_BRACE
    requires |ts| == 0 || |us| == 0
    requires forall i :: 0 <= i < |ts| ==> Starts(ts[i])
    requires forall i :: 0 <= i < |us| ==> Starts(us[i])
    requires Join(ts) + [close] + r == Join(us) + [close] + r'
    ensures r == r' && (ts == us || (ts == [] && us == [[]]) || (ts == [[]] && us == []))
  {
    if |ts| == 0 && |us| == 0 {
      assert ([close] + r)[1..] == r && ([close] + r')[1..] == r';
      assert Join(ts) + [close] + r == [close] + r && Join(us) + [close] + r' == [close] + r';
    } else if |ts| == 0 {
      OneEmptyMember(us, close, r', r);
    } else {
      OneEmptyMember(ts, close, r, r');
    }
  }

  lemma FirstUnit(t: Text, r: Text)
    ensures |t| > 0 ==> (t + r)[0] == t[0]
  {
  }

  lemma OneEmptyMember(ts: seq<Text>, close: Unit, r: Text, r': Text)
    requires close == CLOSE_BRACKET || close == CLOSE_BRACE
    requires |ts| > 0 && Starts(ts[0]) && Join(ts) + [close] + r == [] + [close] + r'
    ensures ts == [[]] && r == r'
  {
    JoinIsFirst(ts, close, r);
    FirstUnit(ts[0], Rest(ts, close, r));
    var t := ts[0] + Rest(ts, close, r);
    assert t == [close] + r';
    assert t[0] == close;
    assert t == Rest(ts, close, r);
    assert |ts| == 1;
    assert t[1..] == r && ([close] + r')[1..] == r';
  }

  ghost predicate Apart(ts: seq<Text>, us: seq<Text>) {
    && (forall i :: 0 <= i < |ts| ==> Starts(ts[i]))
    && (forall i :: 0 <= i < |us| ==> Starts(us[i]))
    && (forall i, j :: 0 <= i < |ts| && 0 <= j < |us| ==> Clear(ts[i], us[j]))
  }

  function Bracketed(open: Unit, ts: seq<Text>, close: Unit): Text { [open] + Join(ts) + [close] }

  lemma BracketsSplit(ts: seq<Text>, us: seq<Text>, open: Unit, close: Unit, r: Text, r': Text)
    requires close == CLOSE_BRACKET || close == CLOSE_BRACE
    requires Apart(ts, us) && Bracketed(open, ts, close) + r == Bracketed(open, us, close) + r'
    ensures Bracketed(open, ts, close) == Bracketed(open, us, close) && r == r'
    ensures ts == us || (ts == [] && us == [[]]) || (ts == [[]] && us == [])
  {
    hide Clear;
    var t, u := Bracketed(open, ts, close), Bracketed(open, us, close);
    assert (t + r)[1..] == Join(ts) + [close] + r && (u + r')[1..] == Join(us) + [close] + r';
    hide Join;
    JoinSplits(ts, us, close, r, r');
    assert t == (t + r)[..|t|] && u == (u + r)[..|u|];
  }

  lemma BracketsAreClear(ts: seq<Text>, us: seq<Text>, open: Unit, close: Unit)
    requires close == CLOSE_BRACKET || close == CLOSE_BRACE
    requires Apart(ts, us)
    ensures Clear(Bracketed(open, ts, close), Bracketed(open, us, close))
  {
    hide Apart, Bracketed;
    var t, u := Bracketed(open, ts, close), Bracketed(open, us, close);
    forall r, r' | Stops(r) && Stops(r') && t + r == u + r' ensures t == u && r == r' {
      BracketsSplit(ts, us, open, close, r, r');
    }
  }

  // ---------------------------------------------------------------- the printer's texts are clear of each other

  lemma PrintStarts(num: int -> Text, v: Json)
    requires NumberPrinter(num)
    ensures Starts(Print(num, v)) && (Print(num, v) == [] <==> v.Undefined?)
  {
    if v.Num? { assert NumberUnit(num(v.n)[0]); }
  }

  lemma FieldStarts(num: int -> Text, v: Json, i: nat)
    requires v.Obj? && i < |FieldTexts(num, v)|
    ensures Starts(FieldTexts(num, v)[i]) && |FieldTexts(num, v)[i]| > 0
  {
  }

  /** `"key":value` is split at the key's closing quote. */
  lemma FieldIsClear(k: Text, t: Text, k': Text, t': Text)
    requires Clear(t, t')
    ensures Clear(Quote(k) + [COLON] + t, Quote(k') + [COLON] + t')
  {
    hide Quote;
    var f, g := Quote(k) + [COLON] + t, Quote(k') + [COLON] + t';
    forall r, r' | Stops(r) && Stops(r') && f + r == g + r' ensures f == g && r == r' {
      assert f + r == Quote(k) + ([COLON] + t + r) && g + r' == Quote(k') + ([COLON] + t' + r');
      QuoteIsClear(k, k', [COLON] + t + r, [COLON] + t' + r');
      assert ([COLON] + t + r)[1..] == t + r && ([COLON] + t' + r')[1..] == t' + r';
    }
  }

  lemma KindsAreClear(num: int -> Text, a: Json, b: Json)
    requires NumberPrinter(num) && !(a.Num? && b.Num?) && !(a.Str? && b.Str?) && !(a.Arr? && b.Arr?) && !(a.Obj? && b.Obj?)
    ensures Clear(Print(num, a), Print(num, b))
  {
    PrintStarts(num, a);
    PrintStarts(num, b);
    if a.Num? { assert NumberUnit(num(a.n)[0]); }
    if b.Num? { assert NumberUnit(num(b.n)[0]); }
    if Print(num, a) == Print(num, b) {
      EqualIsClear(Print(num, a));
    } else {
      hide Clear;
      FirstTellsApart(Print(num, a), Print(num, b));
    }
  }

  /** No printed value can be taken for the start of another. */
  lemma {:induction false} PrintsAreClear(num: int -> Text, a: Json, b: Json)
    requires NumberPrinter(num)
    ensures Clear(Print(num, a), Print(num, b))
    decreases a
  {
    if a.Num? && b.Num? {
      NumbersAreClear(num, a.n, b.n);
    } else if a.Str? && b.Str? {
      StringsAreClear(a.s, b.s);
    } else if a.Arr? && b.Arr? {
      var ts, us := ItemTexts(num, a.items), ItemTexts(num, b.items);
      forall i | 0 <= i < |ts| ensures Starts(ts[i]) { PrintStarts(num, a.items[i]); }
      forall i | 0 <= i < |us| ensures Starts(us[i]) { PrintStarts(num, b.items[i]); }
      forall i, j | 0 <= i < |ts| && 0 <= j < |us| ensures Clear(ts[i], us[j]) {
        PrintsAreClear(num, a.items[i], b.items[j]);
      }
      BracketsAreClear(ts, us, OPEN_BRACKET, CLOSE_BRACKET);
    } else if a.Obj? && b.Obj? {
      var ts, us := FieldTexts(num, a), FieldTexts(num, b);
      var es, fs := Fields(a.entries), Fields(b.entries);
      DefinedIsFilter(a.entries);
      forall i | 0 <= i < |ts| ensures Starts(ts[i]) { FieldStarts(num, a, i); }
      forall i | 0 <= i < |us| ensures Starts(us[i]) { FieldStarts(num, b, i); }
      forall i, j | 0 <= i < |ts| && 0 <= j < |us| ensures Clear(ts[i], us[j]) {
        assert es[i] in a.entries;
        PrintsAreClear(num, es[i].value, fs[j].value);
        FieldIsClear(es[i].key, Print(num, es[i].value), fs[j].key, Print(num, fs[j].value));
      }
      BracketsAreClear(ts, us, OPEN_BRACE, CLOSE_BRACE);
    } else {
      KindsAreClear(num, a, b);
    }
  }
}
