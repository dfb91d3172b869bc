/** Every spelling of an IPv6 address reads back to its bytes (section 2.2 of RFC 4291). */
module AddressText {
  import opened Numbers
  import opened Addresses

  // ---------------------------------------------------------------- spellings

  /** One to four hexadecimal digits, in either case and with or without leading zeros. */
  predicate HexGroup(g: string) { 1 <= |g| <= 4 && forall i :: 0 <= i < |g| ==> HexDigit(g[i]) }

  predicate HexGroups(gs: seq<string>) { forall i :: 0 <= i < |gs| ==> HexGroup(gs[i]) }

  type Byte = x: nat | x <= 255

  /**
   * A way to write an address: groups, possibly a `::` between two lists of them, possibly a dotted quad at the end.
   * Without a `::` every group is in `left`.
   */
  datatype Spelling = Spelling(left: seq<string>, gap: bool, right: seq<string>, quad: Option<(Byte, Byte, Byte, Byte)>) {
    /** Eight groups, a dotted quad standing for two of them; a `::` for however many are missing. */
    ghost predicate Valid() {
      && HexGroups(left) && HexGroups(right)
      && (if gap then |left| + |right| <= Room() else |left| == Room() && right == [])
    }

    function Room(): nat { if quad.Some? then 6 else 8 }

    function Missing(): nat
      requires Valid()
    {
      if gap then Room() - |left| - |right| else 0
    }
  }

  function DecText(n: Byte): string {
    if n < 10 then [Figure(n)]
    else if n < 100 then [Figure(n / 10), Figure(n % 10)]
    else [Figure(n / 100), Figure(n / 10 % 10), Figure(n % 10)]
  }

  function Figure(d: nat): (c: char)
    requires d < 10
    ensures Digit(c) && DigitValue(c) == d
  {
    ('0' as int + d) as char
  }

  function DottedText(q: (Byte, Byte, Byte, Byte)): string {
    Join([DecText(q.0), DecText(q.1), DecText(q.2), DecText(q.3)], '.')
  }

  /** Groups either side of a `::`, or groups alone. */
  function Layout(left: seq<string>, gap: bool, right: seq<string>): string {
    if gap then Join(left, ':') + "::" + Join(right, ':') else Join(left, ':')
  }

  /** The spelling's groups with one more item after them. */
  function Ending(sp: Spelling, item: string): string {
    if sp.gap then Layout(sp.left, true, sp.right + [item]) else Layout(sp.left + [item], false, [])
  }

  function Print(sp: Spelling): string {
    if sp.quad.Some? then Ending(sp, DottedText(sp.quad.value)) else Layout(sp.left, sp.gap, sp.right)
  }

  /** The bytes a spelling denotes: its groups' values, zeros for the `::`, and the quad as it stands. */
  function Denotes(sp: Spelling): (r: seq<nat>)
    requires sp.Valid()
    ensures |r| == 16
  {
    GroupBytes(sp.left) + seq(2 * sp.Missing(), _ => 0) + GroupBytes(sp.right)
    + (if sp.quad.Some? then [sp.quad.value.0, sp.quad.value.1, sp.quad.value.2, sp.quad.value.3] else [])
  }

  function GroupBytes(gs: seq<string>): (r: seq<nat>)
    requires HexGroups(gs)
    ensures |r| == 2 * |gs|
  {
    if |gs| == 0 then []
    else GroupBytes(gs[..|gs| - 1]) + [HexNumber(gs[|gs| - 1]) / 256, HexNumber(gs[|gs| - 1]) % 256]
  }

  // ---------------------------------------------------------------- splitting what was joined

  predicate Lacks(s: string, c: char) { forall i :: 0 <= i < |s| ==> s[i] != c }

  predicate AllLack(parts: seq<string>, c: char) { forall i :: 0 <= i < |parts| ==> Lacks(parts[i], c) }

  lemma {:induction false} SplitFirst(p: string, rest: string, c: char)
    requires Lacks(p, c)
    ensures Split(p + [c] + rest, c) == [p] + Split(rest, c)
    ensures Split(p, c) == [p]
  {
    if |p| == 0 {
      assert p + [c] + rest == [c] + rest && ([c] + rest)[1..] == rest;
    } else {
      SplitFirst(p[1..], rest, c);
      assert (p + [c] + rest)[1..] == p[1..] + [c] + rest;
      assert [p[0]] + p[1..] == p;
    }
  }

  lemma {:induction false} SplitOfJoin(parts: seq<string>, c: char)
    requires |parts| > 0 && AllLack(parts, c)
    ensures Split(Join(parts, c), c) == parts
  {
    if |parts| == 1 {
      SplitFirst(parts[0], "", c);
    } else {
      SplitOfJoin(parts[1..], c);
      SplitFirst(parts[0], Join(parts[1..], c), c);
      assert [parts[0]] + parts[1..] == parts;
    }
  }

  lemma {:induction false} NonEmptyKeeps(parts: seq<string>)
    requires forall i :: 0 <= i < |parts| ==> parts[i] != ""
    ensures NonEmpty(parts) == parts
  {
    if |parts| > 0 { NonEmptyKeeps(parts[1..]); }
  }

  /** No two colons together, and none at either end. */
  predicate Single(s: string) {
    && (|s| > 0 ==> s[0] != ':' && s[|s| - 1] != ':')
    && forall i :: 0 <= i < |s| - 1 ==> s[i] != ':' || s[i + 1] != ':'
  }

  lemma {:induction false} JoinIsSingle(parts: seq<string>)
    requires HexGroups(parts)
    ensures Single(Join(parts, ':')) && (|parts| > 0 ==> Join(parts, ':') != "")
  {
    if |parts| > 1 { JoinIsSingle(parts[1..]); }
  }

  lemma {:induction false} DoubleSplits(a: string, b: string)
    requires |a| > 0 ==> a[|a| - 1] != ':'
    requires forall i :: 0 <= i < |a| - 1 ==> a[i] != ':' || a[i + 1] != ':'
    ensures SplitDouble(a + "::" + b) == [a] + SplitDouble(b)
    ensures SplitDouble(a) == [a]
  {
    var s := a + "::" + b;
    if |a| == 0 {
      assert s == "::" + b && s[2..] == b;
    } else {
      DoubleSplits(a[1..], b);
      assert s[1..] == a[1..] + "::" + b && s[0] == a[0];
      assert |a| >= 2 ==> s[1] == a[1];
      assert [a[0]] + a[1..] == a;
    }
  }

  lemma {:induction false} GroupsLackColons(gs: seq<string>)
    requires HexGroups(gs)
    ensures ToGroups(Join(gs, ':')) == gs
  {
    JoinIsSingle(gs);
    if |gs| > 0 {
      SplitOfJoin(gs, ':');
      NonEmptyKeeps(gs);
    }
  }

  lemma HalvesSplit(left: seq<string>, right: seq<string>)
    requires HexGroups(left) && HexGroups(right)
    ensures SplitDouble(Layout(left, true, right)) == [Join(left, ':'), Join(right, ':')]
    ensures SplitDouble(Layout(left, false, [])) == [Join(left, ':')]
  {
    JoinIsSingle(left);
    JoinIsSingle(right);
    var a, b := Join(left, ':'), Join(right, ':');
    hide Join;
    DoubleSplits(a, b);
    DoubleSplits(b, "");
  }

  /** The groups of a layout, with the zeros a `::` stands for. */
  lemma LayoutReads(left: seq<string>, gap: bool, right: seq<string>, wanted: nat)
    requires HexGroups(left) && HexGroups(right)
    requires if gap then |left| + |right| <= wanted else |left| == wanted && right == []
    ensures Groups(Layout(left, gap, right), wanted)
         == Some(left + ZeroGroups(if gap then wanted - |left| - |right| else 0) + right)
  {
    HalvesSplit(left, right);
    GroupsLackColons(left);
    GroupsLackColons(right);
    hide Join, SplitDouble, ToGroups, Layout;
    assert left + ZeroGroups(0) + [] == left;
  }

  // ---------------------------------------------------------------- the last item

  lemma {:induction false} LastColonAt(p: string, q: string)
    requires Lacks(q, ':')
    ensures LastColon(p + ":" + q) == |p|
    ensures LastColon(q) == -1
  {
    var s := p + ":" + q;
    if |q| == 0 {
      assert s[|s| - 1] == ':';
    } else {
      LastColonAt(p, q[..|q| - 1]);
      assert s[..|s| - 1] == p + ":" + q[..|q| - 1] && s[|s| - 1] == q[|q| - 1];
    }
  }

  lemma {:induction false} JoinLast(parts: seq<string>, item: string)
    requires |parts| > 0
    ensures Join(parts + [item], ':') == Join(parts, ':') + ":" + item
  {
    if |parts| > 1 {
      JoinLast(parts[1..], item);
      assert (parts + [item])[1..] == parts[1..] + [item];
    } else {
      assert (parts + [item])[1..] == [item];
    }
  }

  /** What stands before the last colon of a spelling that ends with one more item. */
  function Before(sp: Spelling): string {
    if !sp.gap then Join(sp.left, ':')
    else if |sp.right| == 0 then Join(sp.left, ':') + ":"
    else Join(sp.left, ':') + "::" + Join(sp.right, ':')
  }

  lemma EndingIs(sp: Spelling, item: string)
    requires sp.gap || |sp.left| > 0
    ensures Ending(sp, item) == Before(sp) + ":" + item
  {
    if !sp.gap {
      JoinLast(sp.left, item);
    } else if |sp.right| == 0 {
      assert sp.right + [item] == [item];
      assert Join([item], ':') == item;
      hide Join;
      assert Join(sp.left, ':') + "::" + item == Join(sp.left, ':') + ":" + ":" + item;
    } else {
      JoinLast(sp.right, item);
    }
  }

  /** A dotted quad is found at the end, and is swapped for one more group. */
  lemma EndingSplits(sp: Spelling, item: string)
    requires (sp.gap || |sp.left| > 0) && Lacks(item, ':')
    ensures Tail(Ending(sp, item)) == item
    ensures var s := Ending(sp, item); s[..LastColon(s) + 1] + "0" == Ending(sp, "0")
  {
    EndingIs(sp, item);
    EndingIs(sp, "0");
    LastColonAt(Before(sp), item);
    hide Ending, Before, LastColon;
    var s := Before(sp) + ":" + item;
    assert s[..|Before(sp)| + 1] == Before(sp) + ":";
  }

  /** Groups alone have no dotted quad at the end. */
  lemma PlainTail(sp: Spelling)
    requires sp.Valid() && sp.quad.None?
    ensures Lacks(Tail(Print(sp)), '.')
  {
    JoinLacks(sp.left, ':', '.');
    JoinLacks(sp.right, ':', '.');
    assert Lacks(Print(sp), '.');
  }

  lemma {:induction false} JoinLacks(parts: seq<string>, sep: char, c: char)
    requires AllLack(parts, c) && sep != c
    ensures Lacks(Join(parts, sep), c)
  {
    if |parts| > 1 { JoinLacks(parts[1..], sep, c); }
  }

  // ---------------------------------------------------------------- the values

  lemma {:induction false} PrefixIsAll(g: string)
    requires forall i :: 0 <= i < |g| ==> HexDigit(g[i])
    ensures HexPrefix(g) == g
  {
    if |g| > 0 {
      PrefixIsAll(g[1..]);
      assert [g[0]] + g[1..] == g;
    }
  }

  lemma {:induction false} HexIsBounded(g: string, bound: nat)
    requires forall i :: 0 <= i < |g| ==> HexDigit(g[i])
    requires bound == if |g| == 0 then 1 else if |g| == 1 then 16 else if |g| == 2 then 256 else if |g| == 3 then 4096 else 65536
    requires |g| <= 4
    ensures HexNumber(g) < bound
  {
    if |g| > 0 { HexIsBounded(g[..|g| - 1], bound / 16); }
  }

  lemma GroupReads(g: string)
    requires HexGroup(g)
    ensures Word(g) == Some(HexNumber(g))
  {
    PrefixIsAll(g);
    HexIsBounded(g, if |g| == 1 then 16 else if |g| == 2 then 256 else if |g| == 3 then 4096 else 65536);
    assert HexDigit(g[0]) && (|g| > 1 ==> HexDigit(g[1]));
    hide HexNumber;
    assert Trim(g) == g;
  }

  lemma ZeroReads()
    ensures HexGroup("0") && Word("0") == Some(0)
  {
    GroupReads("0");
    assert HexNumber("") == 0;
    assert "0"[..0] == "";
    assert HexNumber("0") == HexNumber("") * 16 + HexDigitValue('0');
  }

  lemma FlatAppends(a: seq<string>, b: seq<string>)
    requires AllWords(a) && AllWords(b)
    ensures AllWords(a + b) && Flat(a + b) == Flat(a) + Flat(b)
  {
    hide Word;
  }

  lemma {:induction false} FlatReads(gs: seq<string>)
    requires HexGroups(gs)
    ensures AllWords(gs) && Flat(gs) == GroupBytes(gs)
  {
    forall i | 0 <= i < |gs| ensures Word(gs[i]).Some? { GroupReads(gs[i]); }
    if |gs| > 0 {
      var n := |gs| - 1;
      FlatReads(gs[..n]);
      GroupReads(gs[n]);
      assert gs == gs[..n] + [gs[n]];
      FlatAppends(gs[..n], [gs[n]]);
    }
  }

  lemma FlatZeros(n: nat)
    ensures AllWords(ZeroGroups(n)) && Flat(ZeroGroups(n)) == seq(2 * n, _ => 0)
  {
    ZeroReads();
    hide Word;
  }

  lemma FlatFilled(left: seq<string>, n: nat, right: seq<string>)
    requires HexGroups(left) && HexGroups(right)
    ensures var all := left + ZeroGroups(n) + right;
            AllWords(all) && Flat(all) == GroupBytes(left) + seq(2 * n, _ => 0) + GroupBytes(right)
  {
    FlatReads(left);
    FlatReads(right);
    FlatZeros(n);
    FlatAppends(left, ZeroGroups(n));
    FlatAppends(left + ZeroGroups(n), right);
  }

  // ---------------------------------------------------------------- the dotted quad

  lemma DecReads(n: Byte)
    ensures Octet(DecText(n)) && DecNumber(DecText(n)) == n && Lacks(DecText(n), '.') && Lacks(DecText(n), ':')
  {
    DecValue(n);
    hide DecNumber;
  }

  lemma DecValue(n: Byte)
    ensures (forall i :: 0 <= i < |DecText(n)| ==> Digit(DecText(n)[i])) && DecNumber(DecText(n)) == n
  {
    assert DecNumber("") == 0;
    if n < 10 {
      DecSnoc("", n);
      assert "" + [Figure(n)] == DecText(n);
    } else if n < 100 {
      TwoFigures(n / 10, n % 10);
    } else {
      TwoFigures(n / 100, n / 10 % 10);
      hide DecNumber;
      var t := [Figure(n / 100), Figure(n / 10 % 10)];
      DecSnoc(t, n % 10);
      assert t + [Figure(n % 10)] == DecText(n);
    }
  }

  lemma DecSnoc(t: string, d: nat)
    requires (forall i :: 0 <= i < |t| ==> Digit(t[i])) && d < 10
    ensures DecNumber(t + [Figure(d)]) == DecNumber(t) * 10 + d
  {
    assert (t + [Figure(d)])[..|t|] == t;
  }

  lemma TwoFigures(d: nat, e: nat)
    requires d < 10 && e < 10
    ensures DecNumber([Figure(d), Figure(e)]) == d * 10 + e
  {
    DecSnoc("", d);
    DecSnoc([Figure(d)], e);
    assert "" + [Figure(d)] == [Figure(d)] && [Figure(d)] + [Figure(e)] == [Figure(d), Figure(e)];
  }

  lemma DottedReads(q: (Byte, Byte, Byte, Byte))
    ensures IsV4(DottedText(q)) && Quad(DottedText(q)) == [q.0, q.1, q.2, q.3]
    ensures Lacks(DottedText(q), ':') && '.' in DottedText(q)
  {
    DecReads(q.0);
    DecReads(q.1);
    DecReads(q.2);
    DecReads(q.3);
    hide DecText, DecNumber, Octet;
    var parts := [DecText(q.0), DecText(q.1), DecText(q.2), DecText(q.3)];
    SplitOfJoin(parts, '.');
    JoinOfFour(parts);
  }

  lemma JoinOfFour(parts: seq<string>)
    requires |parts| == 4 && AllLack(parts, ':')
    ensures Lacks(Join(parts, '.'), ':') && '.' in Join(parts, '.')
  {
    JoinLacks(parts, '.', ':');
    assert Join(parts, '.')[|parts[0]|] == '.';
  }

  // ---------------------------------------------------------------- every spelling

  lemma PlainReads(sp: Spelling)
    requires sp.Valid() && sp.quad.None?
    ensures Bytes(Print(sp)) == Some(Denotes(sp))
  {
    PlainTail(sp);
    LayoutReads(sp.left, sp.gap, sp.right, 8);
    FlatFilled(sp.left, sp.Missing(), sp.right);
    hide Layout, Groups, LastColon, Flat, GroupBytes, Word;
    assert !Dotted(Print(sp));
    var all := sp.left + ZeroGroups(sp.Missing()) + sp.right;
    assert Groups(Print(sp), 8) == Some(all);
    assert Denotes(sp) == GroupBytes(sp.left) + seq(2 * sp.Missing(), _ => 0) + GroupBytes(sp.right);
  }

  lemma QuadGroups(sp: Spelling)
    requires sp.Valid() && sp.quad.Some?
    ensures Groups(Ending(sp, "0"), 7) == Some(sp.left + ZeroGroups(sp.Missing()) + sp.right + ["0"])
  {
    ZeroReads();
    if sp.gap {
      LayoutReads(sp.left, true, sp.right + ["0"], 7);
      assert sp.left + ZeroGroups(sp.Missing()) + (sp.right + ["0"]) == sp.left + ZeroGroups(sp.Missing()) + sp.right + ["0"];
    } else {
      LayoutReads(sp.left + ["0"], false, [], 7);
      assert sp.left + ["0"] + ZeroGroups(0) + [] == sp.left + ZeroGroups(0) + sp.right + ["0"];
    }
  }

  lemma DottedBytes(addr: string, all: seq<string>)
    requires Dotted(addr) && IsV4(Tail(addr)) && |all| == 6 && AllWords(all)
    requires Groups(Head(addr), 7) == Some(all + ["0"])
    ensures Bytes(addr) == Some(Flat(all) + Quad(Tail(addr)))
  {
    ZeroReads();
    FlatAppends(all, ["0"]);
    hide Dotted, Tail, Head, IsV4, Quad, Groups, Word, Flat;
    assert (all + ["0"])[..6] == all;
  }

  lemma QuadReads(sp: Spelling)
    requires sp.Valid() && sp.quad.Some?
    ensures Bytes(Print(sp)) == Some(Denotes(sp))
  {
    hide LastColon, Flat, GroupBytes, Word, Groups, DottedText, IsV4, Quad, Layout, Bytes;
    var q := DottedText(sp.quad.value);
    DottedReads(sp.quad.value);
    EndingSplits(sp, q);
    QuadGroups(sp);
    FlatFilled(sp.left, sp.Missing(), sp.right);
    hide Ending;
    assert Print(sp) == Ending(sp, q) && Tail(Print(sp)) == q;
    assert Head(Print(sp)) == Ending(sp, "0");
    DottedBytes(Print(sp), sp.left + ZeroGroups(sp.Missing()) + sp.right);
  }

  /** However an address is written, it reads back to the bytes it denotes. */
  lemma SpellingReads(sp: Spelling)
    requires sp.Valid()
    ensures Bytes(Print(sp)) == Some(Denotes(sp))
  {
    if sp.quad.Some? { QuadReads(sp); } else { PlainReads(sp); }
  }

  /** Two spellings of one address cannot be told apart once read. */
  lemma SpellingsAgree(a: Spelling, b: Spelling)
    requires a.Valid() && b.Valid() && Denotes(a) == Denotes(b)
    ensures Bytes(Print(a)) == Bytes(Print(b)) && Bytes(Print(a)).Some?
    ensures IsPublicAddress(V6, Print(a)) == IsPublicAddress(V6, Print(b))
  {
    SpellingReads(a);
    SpellingReads(b);
  }
}
