/** The printed text itself, character by character (RFC 8259), which the laws about sameness leave open. */
module JsonSamples {
  import opened Numbers
  import opened JsonText
  import opened StableJson

  /** A text of ASCII characters as UTF-16 units. */
  function Ascii(s: string): (t: Text)
    requires forall i :: 0 <= i < |s| ==> s[i] as int < 128
    ensures |t| == |s|
  {
    seq(|s|, i requires 0 <= i < |s| => s[i] as int)
  }

  /** The words and marks of a value that holds no other. */
  lemma ScalarsPrint(num: int -> Text, n: int, s: Text)
    ensures Print(num, Undefined) == []
    ensures Print(num, Null) == Ascii("null") == Print(num, NotFinite)
    ensures Print(num, Bool(true)) == Ascii("true") && Print(num, Bool(false)) == Ascii("false")
    ensures Print(num, Num(n)) == num(n)
    ensures Print(num, Str(s)) == Ascii("\"") + Body(s) + Ascii("\"")
  {
    hide Body;
    assert Ascii("\"") == [34];
  }

  /** Texts with commas between them. */
  ghost predicate Listed(whole: Text, texts: seq<Text>)
    decreases |texts|
  {
    var n := |texts| - 1;
    if n < 0 then whole == []
    else if n == 0 then whole == texts[0]
    else exists k :: 0 <= k <= |whole| && whole[k..] == Ascii(",") + texts[n] && Listed(whole[..k], texts[..n])
  }

  lemma {:induction false} JoinLists(texts: seq<Text>)
    ensures Listed(Join(texts), texts)
  {
    var n := |texts| - 1;
    if n > 0 {
      JoinLists(texts[..n]);
      JoinSnoc(texts[..n], texts[n]);
      assert texts == texts[..n] + [texts[n]];
      var whole, k := Join(texts), |Join(texts[..n])|;
      assert Ascii(",") == [COMMA];
      assert whole[k..] == Ascii(",") + texts[n] && whole[..k] == Join(texts[..n]);
    }
  }

  lemma {:induction false} JoinSnoc(texts: seq<Text>, t: Text)
    requires |texts| > 0
    ensures Join(texts + [t]) == Join(texts) + [COMMA] + t
  {
    if |texts| == 1 {
      assert texts + [t] == [texts[0], t] && [texts[0], t][1..] == [t];
    } else {
      JoinSnoc(texts[1..], t);
      assert (texts + [t])[1..] == texts[1..] + [t];
    }
  }

  /** An array prints its items in order, in brackets. */
  lemma ArrayPrints(num: int -> Text, items: seq<Json>)
    ensures exists whole: Text, texts: seq<Text> ::
      && Print(num, Arr(items)) == Ascii("[") + whole + Ascii("]") && Listed(whole, texts)
      && |texts| == |items| && forall i :: 0 <= i < |items| ==> texts[i] == Print(num, items[i])
  {
    var texts := ItemTexts(num, items);
    JoinLists(texts);
    assert Ascii("[") == [OPEN_BRACKET] && Ascii("]") == [CLOSE_BRACKET];
    assert texts == seq(|items|, i requires 0 <= i < |items| => Print(num, items[i]));
    assert Print(num, Arr(items)) == Ascii("[") + Join(texts) + Ascii("]");
  }

  /** `"key":value` */
  function EntryText(num: int -> Text, e: Entry): Text {
    Ascii("\"") + Body(e.key) + Ascii("\"") + Ascii(":") + Print(num, e.value)
  }

  /** Texts that are an object's defined entries in ascending order of key. */
  ghost predicate Entries(num: int -> Text, texts: seq<Text>, entries: seq<Entry>, es: seq<Entry>) {
    && |texts| == |es| && Ascending(es) && (forall e :: e in es <==> e in entries && e.value != Undefined)
    && forall i :: 0 <= i < |es| ==> texts[i] == EntryText(num, es[i])
  }

  lemma FieldsPrint(num: int -> Text, entries: seq<Entry>)
    requires DistinctKeys(entries)
    ensures Entries(num, FieldTexts(num, Obj(entries)), entries, Fields(entries))
  {
    var es, texts := Fields(entries), FieldTexts(num, Obj(entries));
    FieldsAre(entries);
    assert Ascii("\"") == [QUOTE] && Ascii(":") == [COLON];
    hide Body, Fields, Print;
    forall i | 0 <= i < |es| ensures texts[i] == EntryText(num, es[i]) {
      assert es[i] in entries;
    }
  }

  lemma ObjectText(num: int -> Text, entries: seq<Entry>)
    ensures Print(num, Obj(entries)) == Ascii("{") + Join(FieldTexts(num, Obj(entries))) + Ascii("}")
  {
    assert Ascii("{") == [OPEN_BRACE] && Ascii("}") == [CLOSE_BRACE];
    hide FieldTexts, Join;
  }

  /** An object prints its defined entries in braces, a quoted key, a colon and the value, in ascending order of key. */
  lemma ObjectPrints(num: int -> Text, entries: seq<Entry>) returns (whole: Text, texts: seq<Text>, es: seq<Entry>)
    requires DistinctKeys(entries)
    ensures Print(num, Obj(entries)) == Ascii("{") + whole + Ascii("}") && Listed(whole, texts)
    ensures Entries(num, texts, entries, es)
  {
    hide *;
    texts, es := FieldTexts(num, Obj(entries)), Fields(entries);
    whole := Join(texts);
    JoinLists(texts);
    FieldsPrint(num, entries);
    ObjectText(num, entries);
  }

  // ---------------------------------------------------------------- inside a quoted string

  /** The units JSON writes as a backslash and a letter. */
  function Letter(u: Unit): Option<char> {
    if u == 8 then Some('b') else if u == 9 then Some('t') else if u == 10 then Some('n') else if u == 12 then Some('f')
    else if u == 13 then Some('r') else if u == 34 then Some('"') else if u == 92 then Some('\\') else None
  }

  /** Other controls, and halves of a surrogate pair that stand alone, are a lower-case \u escape; the rest stand as they are. */
  lemma UnitsEscape(u: Unit)
    ensures Letter(u).Some? ==> Escape(u) == Ascii("\\") + [Letter(u).value as int]
    ensures Letter(u).None? && (u < 32 || 0xD800 <= u < 0xE000) ==>
      && |Escape(u)| == 6 && Escape(u)[..2] == Ascii("\\u")
      && (forall i :: 2 <= i < 6 ==> 48 <= Escape(u)[i] < 58 || 97 <= Escape(u)[i] < 103)
      && Hex4Value(Escape(u)[2..]) == Some(u)
    ensures Letter(u).None? && !(u < 32 || 0xD800 <= u < 0xE000) ==> Escape(u) == [u]
  {
    HexRoundTrip(u);
    assert Ascii("\\") == [92] && Ascii("\\u") == [92, 117];
    if Letter(u).None? && (u < 32 || 0xD800 <= u < 0xE000) {
      assert Escape(u)[2..] == Hex4(u);
    }
    hide Hex4Value, HexValue;
  }

  /** A string is its units escaped one by one, but that a high and a low half together stand as they are. */
  lemma BodyEscapes(s: Text)
    ensures Body([]) == []
    ensures |s| > 0 ==> Body(s) == if |s| >= 2 && 0xD800 <= s[0] < 0xDC00 && 0xDC00 <= s[1] < 0xE000
                                   then [s[0], s[1]] + Body(s[2..]) else Escape(s[0]) + Body(s[1..])
  {
    hide Escape;
  }

  /** The texts agree before `k`, where the first has ended or is the smaller. */
  predicate SmallerAt(a: Text, b: Text, k: nat) {
    k <= |a| && k < |b| && a[..k] == b[..k] && (k == |a| || a[k] < b[k])
  }

  lemma {:induction false} SmallerIsLess(a: Text, b: Text, k: nat)
    requires SmallerAt(a, b, k)
    ensures Less(a, b)
  {
    if k > 0 {
      assert a[0] == a[..k][0] && b[0] == b[..k][0];
      assert a[1..][..k - 1] == a[..k][1..] && b[1..][..k - 1] == b[..k][1..];
      SmallerIsLess(a[1..], b[1..], k - 1);
    }
  }

  lemma {:induction false} WhereSmaller(a: Text, b: Text) returns (k: nat)
    requires Less(a, b)
    ensures SmallerAt(a, b, k)
  {
    k := 0;
    if |a| > 0 && a[0] == b[0] {
      var j := WhereSmaller(a[1..], b[1..]);
      assert a[..j + 1] == [a[0]] + a[1..][..j] && b[..j + 1] == [b[0]] + b[1..][..j];
      k := j + 1;
    }
  }

  /** Keys are ordered by the first unit in which they differ, and a key before any longer one it begins. */
  lemma KeysCompare(a: Text, b: Text)
    ensures Less(a, b) <==> exists k: nat :: SmallerAt(a, b, k)
  {
    if Less(a, b) { var k := WhereSmaller(a, b); }
    if k: nat :| SmallerAt(a, b, k) { SmallerIsLess(a, b, k); }
  }
}
