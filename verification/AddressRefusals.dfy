/** What the reading of an address turns away, and what it lets by that is not a spelling of one. */
module AddressRefusals {
  import opened Numbers
  import opened Addresses
  import opened AddressText

  // ---------------------------------------------------------------- digits

  const LOWER := "0123456789abcdef"
  const UPPER := "0123456789ABCDEF"

  /** A digit in either case is worth its place in the sixteen, and nothing else is a digit. */
  lemma DigitsAre(c: char)
    ensures HexDigit(c) <==> c in LOWER || c in UPPER
    ensures forall k :: 0 <= k < 16 ==> HexDigit(LOWER[k]) && HexDigitValue(LOWER[k]) == k
    ensures forall k :: 0 <= k < 16 ==> HexDigit(UPPER[k]) && HexDigitValue(UPPER[k]) == k
  {
    if '0' <= c <= '9' {
      assert LOWER[c as int - '0' as int] == c;
    } else if 'a' <= c <= 'f' {
      assert LOWER[10 + c as int - 'a' as int] == c;
    } else if 'A' <= c <= 'F' {
      assert UPPER[10 + c as int - 'A' as int] == c;
    }
  }

  /** The twenty-five characters that count as white space. */
  lemma WhiteIs(c: char)
    ensures White(c)
       <==> c as int in [9, 10, 11, 12, 13, 32, 160, 5760, 8192, 8193, 8194, 8195, 8196, 8197, 8198, 8199, 8200, 8201,
                         8202, 8232, 8233, 8239, 8287, 12288, 65279]
  {
  }

  predicate AllHex(t: string) { forall i :: 0 <= i < |t| ==> HexDigit(t[i]) }

  predicate Starts(t: string, c: char) { |t| > 0 && t[0] == c }

  /** The signs and prefixes `parseInt` passes over. */
  predicate Passed(sign: string, prefix: string) {
    (sign == "" || sign == "+" || sign == "-") && (prefix == "" || prefix == "0x" || prefix == "0X")
  }

  lemma {:induction false} Trimmed(space: string, t: string)
    requires forall i :: 0 <= i < |space| ==> White(space[i])
    requires t == "" || !White(t[0])
    ensures Trim(space + t) == t
  {
    if |space| == 0 {
      assert space + t == t;
    } else {
      Trimmed(space[1..], t);
      assert (space + t)[1..] == space[1..] + t && (space + t)[0] == space[0];
    }
  }

  lemma {:induction false} PrefixStops(digits: string, rest: string)
    requires AllHex(digits) && (rest == "" || !HexDigit(rest[0]))
    ensures HexPrefix(digits + rest) == digits
  {
    if |digits| == 0 {
      assert digits + rest == rest;
    } else {
      PrefixStops(digits[1..], rest);
      assert (digits + rest)[1..] == digits[1..] + rest && (digits + rest)[0] == digits[0];
      assert [digits[0]] + digits[1..] == digits;
    }
  }

  lemma Parses(s: string, sign: string, prefix: string, v: string, digits: string)
    requires Passed(sign, prefix) && Trim(s) == sign + (prefix + v) && HexPrefix(v) == digits != ""
    requires v != "" && v[0] != '-' && v[0] != '+'
    requires prefix == "" ==> !(Starts(v, '0') && |v| >= 2 && (v[1] == 'x' || v[1] == 'X'))
    ensures var n: int := HexNumber(digits); ParseHex(s) == Some(if sign == "-" then -n else n)
  {
    hide HexPrefix, HexNumber, Trim;
    var t, u := Trim(s), prefix + v;
    if sign == "" { assert t == u; } else { assert t[1..] == u; }
    if prefix == "" { assert u == v; } else { assert u[2..] == v; }
  }

  /**
   * A number is read out of white space, a sign, an 0x and its digits, whatever stands after them. (A 0 before an x is
   * the prefix and not a digit.)
   */
  lemma NumberReads(space: string, sign: string, prefix: string, digits: string, rest: string)
    requires forall i :: 0 <= i < |space| ==> White(space[i])
    requires Passed(sign, prefix) && AllHex(digits) && digits != "" && (rest == "" || !HexDigit(rest[0]))
    requires prefix == "" && digits == "0" ==> !Starts(rest, 'x') && !Starts(rest, 'X')
    ensures var n: int := HexNumber(digits);
            ParseHex(space + (sign + (prefix + (digits + rest)))) == Some(if sign == "-" then -n else n)
  {
    PrefixStops(digits, rest);
    OpensWithDigit(digits, rest);
    hide HexPrefix, HexNumber, Trim, ParseHex;
    Trimmed(space, sign + (prefix + (digits + rest)));
    Parses(space + (sign + (prefix + (digits + rest))), sign, prefix, digits + rest, digits);
  }

  lemma OpensWithDigit(digits: string, rest: string)
    requires AllHex(digits) && digits != ""
    ensures var v := digits + rest;
            && v[0] == digits[0] && v[0] != '-' && v[0] != '+' && !White(v[0])
            && (Starts(v, '0') && |v| >= 2 && (v[1] == 'x' || v[1] == 'X') ==>
                  digits == "0" && (Starts(rest, 'x') || Starts(rest, 'X')))
  {
    var v := digits + rest;
    assert HexDigit(digits[0]);
    if |digits| > 1 {
      assert HexDigit(digits[1]) && v[1] == digits[1];
    } else if |rest| > 0 {
      assert v[1] == rest[0];
    }
  }

  /** A group of digits is its value up to 0xFFFF and refused above it; any number of leading zeros is allowed. */
  lemma WordReads(g: string)
    requires g != "" && AllHex(g)
    ensures Word(g) == if HexNumber(g) <= 0xFFFF then Some(HexNumber(g)) else None
  {
    NumberReads("", "", "", g, "");
    hide ParseHex, HexNumber;
    assert "" + ("" + ("" + (g + ""))) == g;
  }

  /** A group that opens with neither white space, a sign nor a digit has no value; nor has one below nothing. */
  lemma WordRefuses(g: string)
    requires g == "" || (!White(g[0]) && g[0] != '-' && g[0] != '+' && !HexDigit(g[0]))
    ensures Word(g) == None
  {
  }

  lemma NegativeRefused(digits: string)
    requires digits != "" && AllHex(digits)
    ensures Word("-" + digits) == if HexNumber(digits) == 0 then Some(0) else None
  {
    NumberReads("", "-", "", digits, "");
    hide ParseHex, HexNumber;
    assert "" + ("-" + ("" + (digits + ""))) == "-" + digits;
  }

  // ---------------------------------------------------------------- groups and gaps

  /** A group as the splitting sees it: anything between two colons. */
  predicate Plain(g: string) { g != "" && Lacks(g, ':') && Lacks(g, '.') }

  predicate AllPlain(gs: seq<string>) { forall i :: 0 <= i < |gs| ==> Plain(gs[i]) }

  lemma {:induction false} PlainIsSingle(gs: seq<string>)
    requires AllPlain(gs)
    ensures Single(Join(gs, ':')) && (|gs| > 0 ==> Join(gs, ':') != "")
  {
    if |gs| > 1 {
      PlainIsSingle(gs[1..]);
    }
  }

  lemma PlainGroups(gs: seq<string>)
    requires AllPlain(gs)
    ensures ToGroups(Join(gs, ':')) == gs
  {
    PlainIsSingle(gs);
    if |gs| > 0 {
      SplitOfJoin(gs, ':');
      NonEmptyKeeps(gs);
    }
  }

  lemma PlainHalves(left: seq<string>, right: seq<string>)
    requires AllPlain(left) && AllPlain(right)
    ensures SplitDouble(Layout(left, true, right)) == [Join(left, ':'), Join(right, ':')]
    ensures SplitDouble(Layout(left, false, [])) == [Join(left, ':')]
  {
    PlainIsSingle(left);
    PlainIsSingle(right);
    var a, b := Join(left, ':'), Join(right, ':');
    hide Join;
    DoubleSplits(a, b);
    DoubleSplits(b, "");
  }

  predicate Fits(left: seq<string>, gap: bool, right: seq<string>, wanted: nat) {
    if gap then |left| + |right| <= wanted else |left| == wanted
  }

  lemma GroupsCount(left: seq<string>, gap: bool, right: seq<string>, wanted: nat)
    requires AllPlain(left) && AllPlain(right) && (!gap ==> right == [])
    ensures Groups(Layout(left, gap, right), wanted).Some? <==> Fits(left, gap, right, wanted)
    ensures Fits(left, gap, right, wanted) ==>
      Groups(Layout(left, gap, right), wanted)
      == Some(left + ZeroGroups(if gap then wanted - |left| - |right| else 0) + right)
  {
    PlainHalves(left, right);
    PlainGroups(left);
    PlainGroups(right);
    hide Join, SplitDouble, ToGroups, Layout;
    assert left + ZeroGroups(0) + [] == left;
  }

  lemma LayoutIsPlain(left: seq<string>, gap: bool, right: seq<string>)
    requires AllPlain(left) && AllPlain(right)
    ensures !Dotted(Layout(left, gap, right))
  {
    JoinLacks(left, ':', '.');
    JoinLacks(right, ':', '.');
    assert Lacks(Layout(left, gap, right), '.');
  }

  /** Text is an address if and only if it has eight groups, or eight at most around one `::`, each with a value. */
  lemma GroupsDecide(left: seq<string>, gap: bool, right: seq<string>)
    requires AllPlain(left) && AllPlain(right) && (!gap ==> right == [])
    ensures Bytes(Layout(left, gap, right)).Some?
       <==> (if gap then |left| + |right| <= 8 else |left| == 8) && AllWords(left) && AllWords(right)
  {
    hide *;
    LayoutIsPlain(left, gap, right);
    UndottedBytes(Layout(left, gap, right));
    GroupsCount(left, gap, right, 8);
    FitsMeans(left, gap, right, 8);
    if Fits(left, gap, right, 8) {
      var n := if gap then 8 - |left| - |right| else 0;
      FlatZeros(n);
      WordsJoin(left, n, right);
    }
  }

  lemma UndottedBytes(s: string)
    requires !Dotted(s)
    ensures Bytes(s).Some? <==> Groups(s, 8).Some? && AllWords(Groups(s, 8).value)
  {
    hide Dotted, Groups, Word, Flat;
  }

  lemma FitsMeans(left: seq<string>, gap: bool, right: seq<string>, wanted: nat)
    ensures Fits(left, gap, right, wanted) <==> if gap then |left| + |right| <= wanted else |left| == wanted
  {
  }

  lemma WordsJoin(left: seq<string>, n: nat, right: seq<string>)
    requires AllWords(ZeroGroups(n))
    ensures AllWords(left + ZeroGroups(n) + right) <==> AllWords(left) && AllWords(right)
  {
    hide Word;
    var all := left + ZeroGroups(n) + right;
    if AllWords(all) {
      forall i | 0 <= i < |left| ensures Word(left[i]).Some? { assert all[i] == left[i]; }
      forall i | 0 <= i < |right| ensures Word(right[i]).Some? { assert all[|left| + n + i] == right[i]; }
    }
  }

  /** A second `::` is refused wherever it stands. */
  lemma SecondGapRefused(a: string, b: string, c: string)
    requires Single(a) && Single(b) && Lacks(c, '.') && Lacks(b, '.')
    ensures Bytes(a + "::" + b + "::" + c) == None
  {
    var s := a + "::" + b + "::" + c;
    DoubleSplits(a, b + "::" + c);
    DoubleSplits(b, c);
    assert s == a + "::" + (b + "::" + c);
    assert |SplitDouble(s)| > 2;
    UndottedAfter(a + "::" + b, c);
    assert s == (a + "::" + b) + "::" + c;
    hide SplitDouble, Tail;
  }

  lemma {:induction false} UndottedAfter(p: string, c: string)
    requires Lacks(c, '.')
    ensures !Dotted(p + "::" + c)
  {
    var s := p + "::" + c;
    AfterColon(p + ":", c);
    assert s == (p + ":") + ":" + c;
    forall i | 0 <= i < |Tail(s)| ensures Tail(s)[i] != '.' {
      assert Tail(s)[i] == s[LastColon(s) + 1 + i];
      assert s[LastColon(s) + 1 + i] == c[LastColon(s) + 1 + i - |p| - 2];
    }
  }

  lemma {:induction false} AfterColon(p: string, c: string)
    ensures LastColon(p + ":" + c) >= |p|
  {
    var s := p + ":" + c;
    if |c| == 0 {
      assert s[|s| - 1] == ':';
    } else {
      AfterColon(p, c[..|c| - 1]);
      assert s[..|s| - 1] == p + ":" + c[..|c| - 1];
    }
  }

  /** What is no address, and what does not read as the kind it is said to be, is not public. */
  lemma UnreadIsPrivate(family: Family, addr: string)
    requires family == V4 ==> IsV4(addr)
    requires IsPublicAddress(family, addr)
    ensures family == V4 || (family == V6 && Bytes(addr).Some?)
  {
    hide Bytes, IsV4, PublicBytes, V4IsReserved;
  }

  // ---------------------------------------------------------------- dotted quads

  /** The texts `isIP` calls IPv4 are exactly the four numbers up to 255 with dots between, and no leading zeros. */
  lemma QuadPrints(t: string)
    requires IsV4(t)
    ensures var q := Quad(t); DottedText((q[0], q[1], q[2], q[3])) == t
  {
    var parts, q := Split(t, '.'), Quad(t);
    assert forall i :: 0 <= i < 4 ==> Octet(parts[i]) && q[i] == DecNumber(parts[i]);
    OctetPrints(parts[0]);
    OctetPrints(parts[1]);
    OctetPrints(parts[2]);
    OctetPrints(parts[3]);
    JoinOfSplit(t, '.');
    hide Split, Octet, DecNumber, DecText, Quad, IsV4;
    assert parts == [DecText(q[0]), DecText(q[1]), DecText(q[2]), DecText(q[3])];
  }

  lemma {:induction false} JoinOfSplit(t: string, c: char)
    ensures Join(Split(t, c), c) == t
  {
    if |t| > 0 {
      JoinOfSplit(t[1..], c);
      var r := Split(t[1..], c);
      assert t == [t[0]] + t[1..];
      if t[0] == c {
        assert ([""] + r)[1..] == r;
      } else {
        var s := [[t[0]] + r[0]] + r[1..];
        assert s[1..] == r[1..];
      }
    }
  }

  lemma OctetPrints(t: string)
    requires Octet(t)
    ensures DecText(DecNumber(t)) == t
  {
    assert DecNumber("") == 0;
    FigureOf(t[0]);
    if |t| == 1 {
      assert t[..0] == "";
    } else if |t| == 2 {
      FigureOf(t[1]);
      assert t[..1][..0] == "" && t[..1][0] == t[0];
    } else {
      FigureOf(t[1]);
      FigureOf(t[2]);
      assert t[..2][..1][..0] == "" && t[..2][..1][0] == t[0] && t[..2][1] == t[1];
    }
  }

  lemma FigureOf(c: char)
    requires Digit(c)
    ensures DigitValue(c) < 10 && Figure(DigitValue(c)) == c
  {
  }

  /** After the right number of groups, text with a dot in it decides the address by being IPv4 or not. */
  lemma QuadDecides(sp: Spelling, t: string)
    requires sp.Valid() && sp.quad.Some? && Lacks(t, ':') && '.' in t
    ensures Bytes(Ending(sp, t)).Some? <==> IsV4(t)
    ensures IsV4(t) ==>
      Bytes(Ending(sp, t)) == Some(Denotes(sp)[..12] + Quad(t))
  {
    EndingSplits(sp, t);
    assert Dotted(Ending(sp, t));
    if IsV4(t) {
      QuadGroups(sp);
      FlatFilled(sp.left, sp.Missing(), sp.right);
      hide Ending, Groups, LastColon, IsV4, Quad, Word, Flat;
      DottedBytes(Ending(sp, t), sp.left + ZeroGroups(sp.Missing()) + sp.right);
      assert Denotes(sp)[..12] == GroupBytes(sp.left) + seq(2 * sp.Missing(), _ => 0) + GroupBytes(sp.right);
    }
  }
}
