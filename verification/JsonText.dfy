/** Text as UTF-16 code units, and the quoting of a string (section 7 of RFC 8259). */
module JsonText {
  import opened Numbers

  type Unit = x: int | 0 <= x < 0x1_0000

  type Text = seq<Unit>

  const QUOTE: Unit := 34
  const COMMA: Unit := 44
  const COLON: Unit := 58
  const BACKSLASH: Unit := 92
  const LOWER_U: Unit := 117

  // ---------------------------------------------------------------- order on keys

  /** `a < b` on two strings: by code unit, a prefix first. */
  predicate Less(a: Text, b: Text) {
    |b| > 0 && (|a| == 0 || a[0] < b[0] || (a[0] == b[0] && Less(a[1..], b[1..])))
  }

  lemma {:induction false} LessIsStrict(a: Text, b: Text)
    requires Less(a, b)
    ensures !Less(b, a) && a != b
  {
    if |a| > 0 && a[0] == b[0] { LessIsStrict(a[1..], b[1..]); }
  }

  lemma {:induction false} LessIsTransitive(a: Text, b: Text, c: Text)
    requires Less(a, b) && Less(b, c)
    ensures Less(a, c)
  {
    if |a| > 0 && a[0] == b[0] == c[0] { LessIsTransitive(a[1..], b[1..], c[1..]); }
  }

  lemma {:induction false} LessIsTotal(a: Text, b: Text)
    requires a != b
    ensures Less(a, b) || Less(b, a)
  {
    if |a| > 0 && |b| > 0 && a[0] == b[0] {
      assert a == [a[0]] + a[1..] && b == [b[0]] + b[1..];
      LessIsTotal(a[1..], b[1..]);
    }
  }

  // ---------------------------------------------------------------- quoting

  predicate High(u: Unit) { 0xD800 <= u < 0xDC00 }

  predicate Low(u: Unit) { 0xDC00 <= u < 0xE000 }

  function HexDigit(d: nat): Unit
    requires d < 16
  {
    if d < 10 then 48 + d else 87 + d
  }

  function HexValue(u: Unit): Option<nat> {
    if 48 <= u < 58 then Some(u - 48)
    else if 97 <= u < 103 then Some(u - 87)
    else if 65 <= u < 71 then Some(u - 55)
    else None
  }

  function Hex4(u: Unit): Text {
    [HexDigit(u / 4096), HexDigit(u / 256 % 16), HexDigit(u / 16 % 16), HexDigit(u % 16)]
  }

  function Hex4Value(t: Text): Option<Unit>
    requires |t| == 4
  {
    var a, b, c, d := HexValue(t[0]), HexValue(t[1]), HexValue(t[2]), HexValue(t[3]);
    if a.Some? && b.Some? && c.Some? && d.Some?
    then
      var n := a.value * 4096 + b.value * 256 + c.value * 16 + d.value;
      if n < 0x1_0000 then Some(n) else None
    else None
  }

  /** One unit as it is written when it is not half of a surrogate pair. */
  function Escape(u: Unit): Text {
    match u
    case 34 => [BACKSLASH, 34]
    case 92 => [BACKSLASH, 92]
    case 8 => [BACKSLASH, 98]
    case 12 => [BACKSLASH, 102]
    case 10 => [BACKSLASH, 110]
    case 13 => [BACKSLASH, 114]
    case 9 => [BACKSLASH, 116]
    case _ => if u < 32 || High(u) || Low(u) then [BACKSLASH, LOWER_U] + Hex4(u) else [u]
  }

  function Body(s: Text): Text {
    if |s| == 0 then []
    else if |s| >= 2 && High(s[0]) && Low(s[1]) then [s[0], s[1]] + Body(s[2..])
    else Escape(s[0]) + Body(s[1..])
  }

  /** `JSON.stringify` of a string. */
  function Quote(s: Text): Text { [QUOTE] + Body(s) + [QUOTE] }

  // ---------------------------------------------------------------- reading a quoted string back

  /** What a reader makes of the inside of a quoted string: the string, and what follows its closing quote. */
  function Read(t: Text): Option<(Text, Text)> {
    if |t| == 0 then None
    else if t[0] == QUOTE then Some(([], t[1..]))
    else if t[0] != BACKSLASH then After(t[0], Read(t[1..]))
    else if |t| == 1 then None
    else if t[1] == LOWER_U then
      if |t| < 6 || Hex4Value(t[2..6]).None? then None
      else After(Hex4Value(t[2..6]).value, Read(t[6..]))
    else if Unescape(t[1]).None? then None
    else After(Unescape(t[1]).value, Read(t[2..]))
  }

  function After(u: Unit, r: Option<(Text, Text)>): Option<(Text, Text)> {
    if r.None? then None else Some(([u] + r.value.0, r.value.1))
  }

  function Unescape(u: Unit): Option<Unit> {
    match u
    case 34 => Some(34)
    case 92 => Some(92)
    case 47 => Some(47)
    case 98 => Some(8)
    case 102 => Some(12)
    case 110 => Some(10)
    case 114 => Some(13)
    case 116 => Some(9)
    case _ => None
  }

  lemma DigitRoundTrip(d: nat)
    requires d < 16
    ensures HexValue(HexDigit(d)) == Some(d)
  {
  }

  lemma Nibbles(u: Unit)
    ensures u / 4096 < 16
    ensures u == u / 4096 * 4096 + u / 256 % 16 * 256 + u / 16 % 16 * 16 + u % 16
  {
    assert u / 256 == u / 4096 * 16 + u / 256 % 16;
    assert u / 16 == u / 256 * 16 + u / 16 % 16;
  }

  lemma HexRoundTrip(u: Unit)
    ensures Hex4Value(Hex4(u)) == Some(u)
  {
    Nibbles(u);
    DigitRoundTrip(u / 4096);
    DigitRoundTrip(u / 256 % 16);
    DigitRoundTrip(u / 16 % 16);
    DigitRoundTrip(u % 16);
    hide HexValue, HexDigit;
  }

  lemma EscapeReads(u: Unit, tail: Text)
    ensures Read(Escape(u) + tail) == After(u, Read(tail))
  {
    var t := Escape(u) + tail;
    assert t[|Escape(u)|..] == tail;
    if |Escape(u)| == 6 {
      HexRoundTrip(u);
      assert t[2..6] == Hex4(u);
    }
  }

  lemma VerbatimReads(u: Unit, tail: Text)
    requires u != QUOTE && u != BACKSLASH
    ensures Read([u] + tail) == After(u, Read(tail))
  {
    assert ([u] + tail)[1..] == tail;
  }

  lemma QuoteReads(rest: Text)
    ensures Read([QUOTE] + rest) == Some(([], rest))
  {
    assert ([QUOTE] + rest)[1..] == rest;
  }

  lemma BodyUnfolds(s: Text)
    ensures |s| == 0 ==> Body(s) == []
    ensures |s| > 0 ==> Body(s) == if |s| >= 2 && High(s[0]) && Low(s[1]) then [s[0], s[1]] + Body(s[2..])
                                   else Escape(s[0]) + Body(s[1..])
  {
    hide Escape;
  }

  /** Quoting loses nothing and is self-delimiting: a reader recovers the string and exactly what came after. */
  lemma {:induction false} ReadsBack(s: Text, rest: Text)
    ensures Read(Body(s) + [QUOTE] + rest) == Some((s, rest))
  {
    BodyUnfolds(s);
    hide Body, Read, Escape;
    var end := [QUOTE] + rest;
    if |s| == 0 {
      QuoteReads(rest);
      assert Body(s) + [QUOTE] + rest == end;
    } else if |s| >= 2 && High(s[0]) && Low(s[1]) {
      ReadsBack(s[2..], rest);
      var inner := Body(s[2..]) + [QUOTE] + rest;
      VerbatimReads(s[1], inner);
      VerbatimReads(s[0], [s[1]] + inner);
      assert Body(s) + [QUOTE] + rest == [s[0]] + ([s[1]] + inner);
      assert s == [s[0]] + ([s[1]] + s[2..]);
    } else {
      ReadsBack(s[1..], rest);
      var inner := Body(s[1..]) + [QUOTE] + rest;
      assert Body(s) + [QUOTE] + rest == Escape(s[0]) + inner;
      EscapeReads(s[0], inner);
      assert s == [s[0]] + s[1..];
    }
  }

  /** Two quoted strings that start the same text are the same string. */
  lemma QuoteIsClear(a: Text, b: Text, ra: Text, rb: Text)
    requires Quote(a) + ra == Quote(b) + rb
    ensures a == b && ra == rb
  {
    hide Body, Read;
    ReadsBack(a, ra);
    ReadsBack(b, rb);
    assert (Quote(a) + ra)[1..] == Body(a) + [QUOTE] + ra;
    assert (Quote(b) + rb)[1..] == Body(b) + [QUOTE] + rb;
  }
}
