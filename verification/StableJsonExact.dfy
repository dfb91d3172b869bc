/** The law `stableStringify` exists for: one text for each value, and one value for each text. */
module StableJsonExact {
  import opened JsonText
  import opened StableJson
  import opened StableJsonLaws

  function Keys(es: seq<Entry>): (r: seq<Text>)
    ensures |r| == |es| && forall i :: 0 <= i < |es| ==> r[i] == es[i].key
  {
    seq(|es|, i requires 0 <= i < |es| => es[i].key)
  }

  ghost predicate AscendingKeys(ks: seq<Text>) {
    forall i, j :: 0 <= i < j < |ks| ==> Less(ks[i], ks[j])
  }

  lemma NoneTogether(ks: seq<Text>, ls: seq<Text>)
    requires forall k :: k in ks <==> k in ls
    ensures |ks| == 0 <==> |ls| == 0
  {
    assert |ks| > 0 ==> ks[0] in ks;
    assert |ls| > 0 ==> ls[0] in ls;
  }

  /** There is only one way to put a set of keys in order, whatever sorts them. */
  lemma {:induction false} OrderIsUnique(ks: seq<Text>, ls: seq<Text>)
    requires AscendingKeys(ks) && AscendingKeys(ls) && forall k :: k in ks <==> k in ls
    ensures ks == ls
  {
    NoneTogether(ks, ls);
    if |ks| > 0 {
      assert ks[0] in ls && ls[0] in ks;
      FirstIsLeast(ks, ls[0]);
      FirstIsLeast(ls, ks[0]);
      if Less(ks[0], ls[0]) { LessIsStrict(ks[0], ls[0]); }
      assert ks[0] == ls[0];
      forall k ensures k in ks[1..] <==> k in ls[1..] {
        TailLacksFirst(ks, k);
        TailLacksFirst(ls, k);
      }
      OrderIsUnique(ks[1..], ls[1..]);
      assert ks == [ks[0]] + ks[1..] && ls == [ls[0]] + ls[1..];
    }
  }

  lemma FirstIsLeast(ks: seq<Text>, k: Text)
    requires AscendingKeys(ks) && k in ks
    ensures k == ks[0] || Less(ks[0], k)
  {
  }

  lemma TailLacksFirst(ks: seq<Text>, k: Text)
    requires AscendingKeys(ks) && |ks| > 0
    ensures k in ks[1..] <==> k in ks && k != ks[0]
  {
    forall i | 0 < i < |ks| ensures ks[i] != ks[0] { LessIsStrict(ks[0], ks[i]); }
    assert ks == [ks[0]] + ks[1..];
  }

  lemma FieldKeys(es: seq<Entry>, key: Text)
    requires DistinctKeys(es)
    ensures HasKey(es, key) <==> key in Keys(Fields(es))
    ensures AscendingKeys(Keys(Fields(es)))
  {
    FieldsAre(es);
    var fs := Fields(es);
    if HasKey(es, key) {
      var i :| 0 <= i < |es| && es[i].key == key && !es[i].value.Undefined?;
      assert es[i] in fs;
      var j :| 0 <= j < |fs| && fs[j] == es[i];
      assert Keys(fs)[j] == key;
    }
    if key in Keys(fs) {
      var j :| 0 <= j < |fs| && Keys(fs)[j] == key;
      assert fs[j] in es;
    }
  }

  /** The printed field of a key is its one defined entry. */
  lemma FieldAt(es: seq<Entry>, i: nat, p: nat)
    requires DistinctKeys(es) && i < |es| && p < |Fields(es)| && Fields(es)[p].key == es[i].key
    ensures Fields(es)[p] == es[i]
  {
    FieldsAre(es);
    assert Fields(es)[p] in es;
  }

  // ---------------------------------------------------------------- the same value prints the same

  lemma {:induction false} SamePrints(num: int -> Text, a: Json, b: Json)
    requires WellFormed(a) && WellFormed(b) && Same(num, a, b)
    ensures Print(num, a) == Print(num, b)
    decreases a
  {
    if a.Arr? {
      var xs, ys := Elements(a.items), Elements(b.items);
      ElementsJoin(num, a.items);
      ElementsJoin(num, b.items);
      forall i | 0 <= i < |xs| ensures Print(num, xs[i]) == Print(num, ys[i]) { SamePrints(num, a.items[i], ys[i]); }
      assert ItemTexts(num, xs) == ItemTexts(num, ys);
    } else if a.Obj? {
      SameFields(a.entries, b.entries);
      var es, fs := Fields(a.entries), Fields(b.entries);
      FieldsAre(a.entries);
      FieldsAre(b.entries);
      forall p | 0 <= p < |es| ensures es[p].key == fs[p].key && Print(num, es[p].value) == Print(num, fs[p].value) {
        assert Keys(es)[p] == Keys(fs)[p];
        assert es[p] in a.entries && fs[p] in b.entries;
        var i :| 0 <= i < |a.entries| && a.entries[i] == es[p];
        var j :| 0 <= j < |b.entries| && b.entries[j] == fs[p];
        assert HasKey(a.entries, a.entries[i].key);
        SamePrints(num, a.entries[i].value, b.entries[j].value);
      }
      assert FieldTexts(num, a) == FieldTexts(num, b);
    }
  }

  lemma ElementsJoin(num: int -> Text, items: seq<Json>)
    ensures Join(ItemTexts(num, items)) == Join(ItemTexts(num, Elements(items)))
  {
    if items == [Undefined] { assert ItemTexts(num, items) == [[]]; }
  }

  lemma SameFields(es: seq<Entry>, fs: seq<Entry>)
    requires DistinctKeys(es) && DistinctKeys(fs) && forall key :: HasKey(es, key) <==> HasKey(fs, key)
    ensures Keys(Fields(es)) == Keys(Fields(fs))
  {
    forall key ensures key in Keys(Fields(es)) <==> key in Keys(Fields(fs)) {
      FieldKeys(es, key);
      FieldKeys(fs, key);
    }
    FieldKeys(es, []);
    FieldKeys(fs, []);
    OrderIsUnique(Keys(Fields(es)), Keys(Fields(fs)));
  }

  // ---------------------------------------------------------------- the same text is the same value

  lemma ArraysSplit(num: int -> Text, a: Json, b: Json)
    requires NumberPrinter(num) && a.Arr? && b.Arr? && Print(num, a) == Print(num, b)
    ensures ItemTexts(num, Elements(a.items)) == ItemTexts(num, Elements(b.items))
  {
    var ts, us := ItemTexts(num, a.items), ItemTexts(num, b.items);
    forall i | 0 <= i < |ts| ensures Starts(ts[i]) { PrintStarts(num, a.items[i]); }
    forall i | 0 <= i < |us| ensures Starts(us[i]) { PrintStarts(num, b.items[i]); }
    forall i, j | 0 <= i < |ts| && 0 <= j < |us| ensures Clear(ts[i], us[j]) {
      PrintsAreClear(num, a.items[i], b.items[j]);
    }
    BracketsSplit(ts, us, OPEN_BRACKET, CLOSE_BRACKET, [], []);
    if |ts| == 1 { PrintStarts(num, a.items[0]); }
    if |us| == 1 { PrintStarts(num, b.items[0]); }
  }

  lemma ObjectsSplit(num: int -> Text, a: Json, b: Json)
    requires NumberPrinter(num) && a.Obj? && b.Obj? && Print(num, a) == Print(num, b)
    ensures var es, fs := Fields(a.entries), Fields(b.entries);
            |es| == |fs| && forall p :: 0 <= p < |es| ==>
              es[p].key == fs[p].key && Print(num, es[p].value) == Print(num, fs[p].value)
  {
    var ts, us := FieldTexts(num, a), FieldTexts(num, b);
    var es, fs := Fields(a.entries), Fields(b.entries);
    forall i | 0 <= i < |ts| ensures Starts(ts[i]) { FieldStarts(num, a, i); }
    forall i | 0 <= i < |us| ensures Starts(us[i]) { FieldStarts(num, b, i); }
    forall i, j | 0 <= i < |ts| && 0 <= j < |us| ensures Clear(ts[i], us[j]) {
      PrintsAreClear(num, es[i].value, fs[j].value);
      FieldIsClear(es[i].key, Print(num, es[i].value), fs[j].key, Print(num, fs[j].value));
    }
    BracketsSplit(ts, us, OPEN_BRACE, CLOSE_BRACE, [], []);
    if |ts| == 1 { FieldStarts(num, a, 0); }
    if |us| == 1 { FieldStarts(num, b, 0); }
    assert ts == us;
    forall p | 0 <= p < |es| ensures es[p].key == fs[p].key && Print(num, es[p].value) == Print(num, fs[p].value) {
      assert ts[p] == us[p];
      FieldSplits(es[p].key, Print(num, es[p].value), fs[p].key, Print(num, fs[p].value));
    }
  }

  lemma FieldSplits(k: Text, t: Text, k': Text, t': Text)
    requires Quote(k) + [COLON] + t == Quote(k') + [COLON] + t'
    ensures k == k' && t == t'
  {
    assert Quote(k) + ([COLON] + t) == Quote(k) + [COLON] + t;
    assert Quote(k') + ([COLON] + t') == Quote(k') + [COLON] + t';
    QuoteIsClear(k, k', [COLON] + t, [COLON] + t');
    assert ([COLON] + t)[1..] == t && ([COLON] + t')[1..] == t';
  }

  /** Values of one text are of one kind. */
  lemma KindsMatch(num: int -> Text, a: Json, b: Json)
    requires NumberPrinter(num) && Print(num, a) == Print(num, b)
    ensures (a.Undefined? <==> b.Undefined?) && (a.Null? || a.NotFinite? <==> b.Null? || b.NotFinite?)
    ensures (a.Bool? <==> b.Bool?) && (a.Num? <==> b.Num?) && (a.Str? <==> b.Str?)
    ensures (a.Arr? <==> b.Arr?) && (a.Obj? <==> b.Obj?)
  {
    if a.Num? { assert NumberUnit(num(a.n)[0]); }
    if b.Num? { assert NumberUnit(num(b.n)[0]); }
    PrintStarts(num, a);
    PrintStarts(num, b);
    assert |Print(num, a)| > 0 ==> Print(num, a)[0] == Print(num, b)[0];
  }

  lemma {:induction false} PrintsSame(num: int -> Text, a: Json, b: Json)
    requires NumberPrinter(num) && WellFormed(a) && WellFormed(b) && Print(num, a) == Print(num, b)
    ensures Same(num, a, b)
    decreases a
  {
    KindsMatch(num, a, b);
    if a.Str? {
      assert Quote(a.s) + [] == Quote(b.s) + [];
      QuoteIsClear(a.s, b.s, [], []);
    } else if a.Arr? {
      ArraysSplit(num, a, b);
      var xs, ys := Elements(a.items), Elements(b.items);
      forall i | 0 <= i < |a.items| && i < |xs| ensures Same(num, a.items[i], ys[i]) {
        assert ItemTexts(num, xs)[i] == ItemTexts(num, ys)[i];
        PrintsSame(num, a.items[i], ys[i]);
      }
    } else if a.Obj? {
      ObjectsSplit(num, a, b);
      var es, fs := Fields(a.entries), Fields(b.entries);
      assert Keys(es) == Keys(fs);
      forall key ensures HasKey(a.entries, key) <==> HasKey(b.entries, key) {
        FieldKeys(a.entries, key);
        FieldKeys(b.entries, key);
      }
      forall i, j | 0 <= i < |a.entries| && 0 <= j < |b.entries|
        && a.entries[i].key == b.entries[j].key && HasKey(a.entries, a.entries[i].key)
        ensures Same(num, a.entries[i].value, b.entries[j].value)
      {
        FieldKeys(a.entries, a.entries[i].key);
        var p :| 0 <= p < |es| && Keys(es)[p] == a.entries[i].key;
        FieldAt(a.entries, i, p);
        FieldAt(b.entries, j, p);
        PrintsSame(num, a.entries[i].value, b.entries[j].value);
      }
    }
  }

  /** Two values print one text exactly when they are the same value. */
  lemma TextIsCanonical(num: int -> Text, a: Json, b: Json)
    requires NumberPrinter(num) && WellFormed(a) && WellFormed(b)
    ensures Print(num, a) == Print(num, b) <==> Same(num, a, b)
  {
    if Print(num, a) == Print(num, b) { PrintsSame(num, a, b); }
    if Same(num, a, b) { SamePrints(num, a, b); }
  }

  // ---------------------------------------------------------------- the promise as documented

  /** Equal at every level but for the order of keys and keys that hold `undefined`. */
  ghost predicate Alike(a: Json, b: Json)
    decreases a
  {
    match a
    case Arr(items) =>
      b.Arr? && |items| == |b.items| && forall i :: 0 <= i < |items| ==> Alike(items[i], b.items[i])
    case Obj(entries) =>
      && b.Obj? && (forall key :: HasKey(entries, key) <==> HasKey(b.entries, key))
      && forall i, j :: 0 <= i < |entries| && 0 <= j < |b.entries|
           && entries[i].key == b.entries[j].key && HasKey(entries, entries[i].key)
           ==> Alike(entries[i].value, b.entries[j].value)
    case _ => a == b
  }

  /** A tree JSON can carry: no `undefined` inside an array, no NaN and no infinity. */
  ghost predicate Plain(v: Json) {
    match v
    case NotFinite => false
    case Arr(items) => forall i :: 0 <= i < |items| ==> !items[i].Undefined? && Plain(items[i])
    case Obj(entries) => forall i :: 0 <= i < |entries| ==> Plain(entries[i].value)
    case _ => true
  }

  ghost predicate Injective(num: int -> Text) {
    forall m, n :: num(m) == num(n) ==> m == n
  }

  lemma {:induction false} SameIsAlike(num: int -> Text, a: Json, b: Json)
    requires Plain(a) && Plain(b) && Injective(num)
    ensures Same(num, a, b) <==> Alike(a, b)
    decreases a
  {
    if a.Arr? && b.Arr? {
      assert |a.items| > 0 ==> !a.items[0].Undefined?;
      assert |b.items| > 0 ==> !b.items[0].Undefined?;
      forall i | 0 <= i < |a.items| && i < |b.items|
        ensures Same(num, a.items[i], b.items[i]) <==> Alike(a.items[i], b.items[i])
      {
        SameIsAlike(num, a.items[i], b.items[i]);
      }
    } else if a.Obj? && b.Obj? {
      forall i, j | 0 <= i < |a.entries| && 0 <= j < |b.entries|
        ensures Same(num, a.entries[i].value, b.entries[j].value) <==> Alike(a.entries[i].value, b.entries[j].value)
      {
        SameIsAlike(num, a.entries[i].value, b.entries[j].value);
      }
    }
  }

  /** On plain trees the text is the value, up to key order and undefined-valued keys. */
  lemma SameInputsSameText(num: int -> Text, a: Json, b: Json)
    requires NumberPrinter(num) && Injective(num)
    requires WellFormed(a) && WellFormed(b) && Plain(a) && Plain(b)
    ensures Print(num, a) == Print(num, b) <==> Alike(a, b)
  {
    TextIsCanonical(num, a, b);
    SameIsAlike(num, a, b);
  }

  /** An `undefined` inside an array is outside the promise: a lone one prints as an empty array. */
  lemma LoneUndefinedVanishes(num: int -> Text)
    ensures Print(num, Arr([Undefined])) == Print(num, Arr([])) && !Alike(Arr([Undefined]), Arr([]))
  {
    ElementsJoin(num, [Undefined]);
    assert Print(num, Arr([Undefined])) == Bracketed(OPEN_BRACKET, ItemTexts(num, [Undefined]), CLOSE_BRACKET);
    assert Print(num, Arr([])) == Bracketed(OPEN_BRACKET, ItemTexts(num, []), CLOSE_BRACKET);
  }

  /** `inputHashOf`: short of a collision on these two texts, an unchanged hash is an unchanged input. */
  lemma PinnedInputs(num: int -> Text, hash: Text -> int, a: Json, b: Json)
    requires NumberPrinter(num) && Injective(num)
    requires WellFormed(a) && WellFormed(b) && Plain(a) && Plain(b)
    requires hash(Print(num, a)) == hash(Print(num, b)) ==> Print(num, a) == Print(num, b)
    ensures hash(Print(num, a)) == hash(Print(num, b)) <==> Alike(a, b)
  {
    SameInputsSameText(num, a, b);
  }
}
