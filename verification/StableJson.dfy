/** The canonical printer under the approval hash, `stableStringify`, and which values share its text. */
module StableJson {
  import opened JsonText

  const OPEN_BRACKET: Unit := 91
  const CLOSE_BRACKET: Unit := 93
  const OPEN_BRACE: Unit := 123
  const CLOSE_BRACE: Unit := 125

  /**
   * A JSON tree as JavaScript holds one. An object is its own entries in insertion order; `NotFinite` stands for
   * NaN and the infinities; a number is whatever the engine's number printer tells apart.
   */
  datatype Json =
    | Undefined
    | Null
    | NotFinite
    | Bool(b: bool)
    | Num(n: int)
    | Str(s: Text)
    | Arr(items: seq<Json>)
    | Obj(entries: seq<Entry>)

  datatype Entry = Entry(key: Text, value: Json)

  /** No object has two entries under one key. */
  ghost predicate WellFormed(v: Json) {
    match v
    case Arr(items) => forall i :: 0 <= i < |items| ==> WellFormed(items[i])
    case Obj(entries) => DistinctKeys(entries) && forall i :: 0 <= i < |entries| ==> WellFormed(entries[i].value)
    case _ => true
  }

  ghost predicate DistinctKeys(es: seq<Entry>) {
    forall i, j :: 0 <= i < j < |es| ==> es[i].key != es[j].key
  }

  // ---------------------------------------------------------------- sorting an object's entries

  /** `.filter(([, v]) => v !== undefined)` */
  function Defined(es: seq<Entry>): seq<Entry> {
    if |es| == 0 then []
    else if es[0].value.Undefined? then Defined(es[1..])
    else [es[0]] + Defined(es[1..])
  }

  function Insert(e: Entry, es: seq<Entry>): (r: seq<Entry>)
    ensures forall x :: x in r <==> x == e || x in es
  {
    if |es| == 0 then [e]
    else if Less(e.key, es[0].key) then [e] + es
    else [es[0]] + Insert(e, es[1..])
  }

  /** `.sort(([a], [b]) => (a < b ? -1 : a > b ? 1 : 0))` */
  function SortByKey(es: seq<Entry>): (r: seq<Entry>)
    ensures forall x :: x in r <==> x in es
  {
    if |es| == 0 then [] else Insert(es[0], SortByKey(es[1..]))
  }

  ghost predicate Ascending(es: seq<Entry>) {
    forall i, j :: 0 <= i < j < |es| ==> Less(es[i].key, es[j].key)
  }

  lemma {:induction false} DefinedIsFilter(es: seq<Entry>)
    ensures forall x :: x in Defined(es) <==> x in es && !x.value.Undefined?
    ensures DistinctKeys(es) ==> DistinctKeys(Defined(es))
  {
    if |es| > 0 {
      DefinedIsFilter(es[1..]);
      assert es == [es[0]] + es[1..];
    }
  }

  lemma {:induction false} InsertAscends(e: Entry, es: seq<Entry>)
    requires Ascending(es) && forall x :: x in es ==> x.key != e.key
    ensures Ascending(Insert(e, es))
  {
    if |es| > 0 && Less(e.key, es[0].key) {
      forall j | 0 < j < |es| ensures Less(e.key, es[j].key) { LessIsTransitive(e.key, es[0].key, es[j].key); }
    } else if |es| > 0 {
      InsertAscends(e, es[1..]);
      LessIsTotal(e.key, es[0].key);
      var r := Insert(e, es[1..]);
      forall j | 0 <= j < |r| ensures Less(es[0].key, r[j].key) {
        if r[j] != e { assert r[j] in es[1..]; }
      }
    }
  }

  lemma {:induction false} SortAscends(es: seq<Entry>)
    requires DistinctKeys(es)
    ensures Ascending(SortByKey(es))
  {
    if |es| > 0 {
      SortAscends(es[1..]);
      InsertAscends(es[0], SortByKey(es[1..]));
    }
  }

  function Fields(es: seq<Entry>): (r: seq<Entry>) { SortByKey(Defined(es)) }

  lemma FieldsAre(es: seq<Entry>)
    requires DistinctKeys(es)
    ensures forall x :: x in Fields(es) <==> x in es && !x.value.Undefined?
    ensures Ascending(Fields(es))
  {
    DefinedIsFilter(es);
    SortAscends(Defined(es));
  }

  // ---------------------------------------------------------------- the printer

  /** `texts.join(',')` */
  function Join(texts: seq<Text>): Text {
    if |texts| == 0 then []
    else if |texts| == 1 then texts[0]
    else texts[0] + [COMMA] + Join(texts[1..])
  }

  /** `stableStringify`. An undefined element of an array joins as the empty string. */
  function Print(num: int -> Text, v: Json): Text
    decreases v
  {
    match v
    case Undefined => []
    case Null => [110, 117, 108, 108]
    case NotFinite => [110, 117, 108, 108]
    case Bool(b) => if b then [116, 114, 117, 101] else [102, 97, 108, 115, 101]
    case Num(n) => num(n)
    case Str(s) => Quote(s)
    case Arr(items) =>
      [OPEN_BRACKET] + Join(seq(|items|, i requires 0 <= i < |items| => Print(num, items[i]))) + [CLOSE_BRACKET]
    case Obj(entries) =>
      [OPEN_BRACE] + Join(FieldTexts(num, v)) + [CLOSE_BRACE]
  }

  function FieldTexts(num: int -> Text, v: Json): (r: seq<Text>)
    requires v.Obj?
    ensures |r| == |Fields(v.entries)|
    decreases v, 0
  {
    var es := Fields(v.entries);
    assert forall x :: x in es ==> x in v.entries by { DefinedIsFilter(v.entries); }
    seq(|es|, i requires 0 <= i < |es| =>
      assert es[i] in v.entries; Quote(es[i].key) + [COLON] + Print(num, es[i].value))
  }

  function ItemTexts(num: int -> Text, items: seq<Json>): seq<Text> {
    seq(|items|, i requires 0 <= i < |items| => Print(num, items[i]))
  }
}
