/** `isPublicAddress` judges an address by the blocks it lies in, however it is written. */
module AddressBlocks {
  import opened Numbers
  import opened Addresses
  import opened AddressText

  datatype Block = Block(base: seq<nat>, bits: nat)

  /** The weight of the lowest bit a prefix of that many bits of one byte keeps. */
  function Step(bits: nat): (r: nat)
    requires bits < 8
    ensures r > 0
  {
    match bits
    case 0 => 256
    case 1 => 128
    case 2 => 64
    case 3 => 32
    case 4 => 16
    case 5 => 8
    case 6 => 4
    case 7 => 2
  }

  /** The address agrees with the block's base on its first `bits` bits. */
  predicate InBlock(b: seq<nat>, block: Block) {
    var whole := block.bits / 8;
    && whole < |b| && whole < |block.base|
    && (forall i :: 0 <= i < whole ==> b[i] == block.base[i])
    && b[whole] / Step(block.bits % 8) == block.base[whole] / Step(block.bits % 8)
  }

  predicate InAny(b: seq<nat>, blocks: seq<Block>) { exists k :: 0 <= k < |blocks| && InBlock(b, blocks[k]) }

  predicate AllBytes(b: seq<nat>) { forall i :: 0 <= i < |b| ==> b[i] <= 255 }

  /** The IPv4 blocks that are not globally routable. */
  function V4Blocks(): seq<Block> {
    [Block([0, 0, 0, 0], 8), Block([10, 0, 0, 0], 8), Block([127, 0, 0, 0], 8), Block([100, 64, 0, 0], 10),
     Block([169, 254, 0, 0], 16), Block([172, 16, 0, 0], 12), Block([192, 168, 0, 0], 16), Block([192, 0, 0, 0], 24),
     Block([192, 0, 2, 0], 24), Block([192, 88, 99, 0], 24), Block([198, 18, 0, 0], 15), Block([198, 51, 100, 0], 24),
     Block([203, 0, 113, 0], 24), Block([224, 0, 0, 0], 3)]
  }

  lemma FirstByte(o: seq<nat>, base: nat)
    requires |o| == 4 && AllBytes(o) && base <= 255
    ensures InBlock(o, Block([base, 0, 0, 0], 8)) <==> o[0] == base
  {
  }

  lemma ThreeBytes(o: seq<nat>, a: nat, b: nat, c: nat)
    requires |o| == 4 && AllBytes(o) && a <= 255 && b <= 255 && c <= 255
    ensures InBlock(o, Block([a, b, c, 0], 24)) <==> o[0] == a && o[1] == b && o[2] == c
  {
  }

  lemma PartBytes(o: seq<nat>, a: nat, b: nat, bits: nat)
    requires |o| == 4 && 8 < bits <= 16
    ensures bits < 16 ==>
      (InBlock(o, Block([a, b, 0, 0], bits)) <==> o[0] == a && o[1] / Step(bits - 8) == b / Step(bits - 8))
    ensures AllBytes(o) && b <= 255 && bits == 16 ==> (InBlock(o, Block([a, b, 0, 0], bits)) <==> o[0] == a && o[1] == b)
  {
  }

  lemma TopBits(o: seq<nat>)
    requires |o| == 4 && AllBytes(o)
    ensures InBlock(o, Block([224, 0, 0, 0], 3)) <==> o[0] >= 224
  {
  }

  lemma EachV4Block(o: seq<nat>)
    ensures InAny(o, V4Blocks()) <==>
      || InBlock(o, V4Blocks()[0]) || InBlock(o, V4Blocks()[1]) || InBlock(o, V4Blocks()[2]) || InBlock(o, V4Blocks()[3])
      || InBlock(o, V4Blocks()[4]) || InBlock(o, V4Blocks()[5]) || InBlock(o, V4Blocks()[6]) || InBlock(o, V4Blocks()[7])
      || InBlock(o, V4Blocks()[8]) || InBlock(o, V4Blocks()[9]) || InBlock(o, V4Blocks()[10]) || InBlock(o, V4Blocks()[11])
      || InBlock(o, V4Blocks()[12]) || InBlock(o, V4Blocks()[13])
  {
    hide InBlock;
  }

  lemma WholeBlocks(o: seq<nat>)
    requires |o| == 4 && AllBytes(o)
    ensures (InBlock(o, V4Blocks()[0]) || InBlock(o, V4Blocks()[1]) || InBlock(o, V4Blocks()[2])) <==>
      (o[0] == 0 || o[0] == 10 || o[0] == 127)
    ensures (InBlock(o, V4Blocks()[7]) || InBlock(o, V4Blocks()[8]) || InBlock(o, V4Blocks()[9])) <==>
      (o[0] == 192 && ((o[1] == 0 && (o[2] == 0 || o[2] == 2)) || (o[1] == 88 && o[2] == 99)))
    ensures (InBlock(o, V4Blocks()[11]) || InBlock(o, V4Blocks()[12])) <==>
      ((o[0] == 198 && o[1] == 51 && o[2] == 100) || (o[0] == 203 && o[1] == 0 && o[2] == 113))
  {
    hide InBlock;
    FirstByte(o, 0);
    FirstByte(o, 10);
    FirstByte(o, 127);
    ThreeBytes(o, 192, 0, 0);
    ThreeBytes(o, 192, 0, 2);
    ThreeBytes(o, 192, 88, 99);
    ThreeBytes(o, 198, 51, 100);
    ThreeBytes(o, 203, 0, 113);
  }

  lemma SplitBlocks(o: seq<nat>)
    requires |o| == 4 && AllBytes(o)
    ensures InBlock(o, V4Blocks()[3]) <==> o[0] == 100 && 64 <= o[1] <= 127
    ensures InBlock(o, V4Blocks()[4]) <==> o[0] == 169 && o[1] == 254
    ensures InBlock(o, V4Blocks()[5]) <==> o[0] == 172 && 16 <= o[1] <= 31
    ensures InBlock(o, V4Blocks()[6]) <==> o[0] == 192 && o[1] == 168
    ensures InBlock(o, V4Blocks()[10]) <==> o[0] == 198 && (o[1] == 18 || o[1] == 19)
    ensures InBlock(o, V4Blocks()[13]) <==> o[0] >= 224
  {
    hide InBlock;
    PartBytes(o, 100, 64, 10);
    PartBytes(o, 169, 254, 16);
    PartBytes(o, 172, 16, 12);
    PartBytes(o, 192, 168, 16);
    PartBytes(o, 198, 18, 15);
    TopBits(o);
  }

  /** An IPv4 address is refused exactly when it lies in one of the blocks. */
  lemma ReservedIsBlocks(o: seq<nat>)
    requires |o| == 4 && AllBytes(o)
    ensures V4IsReserved(o) <==> InAny(o, V4Blocks())
  {
    EachV4Block(o);
    WholeBlocks(o);
    SplitBlocks(o);
    hide InBlock, InAny, V4Blocks;
  }

  // ---------------------------------------------------------------- an IPv4 address inside an IPv6 one

  /** IPv4-mapped (section 2.5.5.2 of RFC 4291), NAT64 (section 2.1 of RFC 6052) and 6to4 (section 2 of RFC 3056). */
  predicate Wraps(b: seq<nat>, q: (Byte, Byte, Byte, Byte)) {
    && |b| == 16
    && var four := [q.0, q.1, q.2, q.3];
       || b == [0, 0, 0, 0, 0, 0, 0, 0, 0, 0, 0xFF, 0xFF] + four
       || b == [0x00, 0x64, 0xFF, 0x9B, 0, 0, 0, 0, 0, 0, 0, 0] + four
       || (b[..2] == [0x20, 0x02] && b[2..6] == four)
  }

  lemma WrappedBytes(b: seq<nat>, q: (Byte, Byte, Byte, Byte))
    requires Wraps(b, q)
    ensures PublicBytes(b) <==> !V4IsReserved([q.0, q.1, q.2, q.3])
  {
    hide V4IsReserved;
    var four := [q.0, q.1, q.2, q.3];
    if b == [0, 0, 0, 0, 0, 0, 0, 0, 0, 0, 0xFF, 0xFF] + four {
      assert b[12..16] == four;
      assert b[10] == 0xFF && b[11] == 0xFF;
    } else if b == [0x00, 0x64, 0xFF, 0x9B, 0, 0, 0, 0, 0, 0, 0, 0] + four {
      assert b[12..16] == four;
      assert b[1] == 0x64;
    } else {
      assert b[0] == b[..2][0] && b[1] == b[..2][1];
    }
  }

  /** However it is written, a wrapped IPv4 address is judged as that IPv4 address. */
  lemma WrappedIsJudgedAsInner(sp: Spelling, q: (Byte, Byte, Byte, Byte))
    requires sp.Valid() && Wraps(Denotes(sp), q)
    ensures IsV4(DottedText(q))
    ensures IsPublicAddress(V6, Print(sp)) <==> IsPublicAddress(V4, DottedText(q))
  {
    SpellingReads(sp);
    DottedReads(q);
    WrappedBytes(Denotes(sp), q);
    hide PublicBytes, Bytes, Denotes, Print, IsV4, Quad, DottedText, V4IsReserved, Wraps;
  }

  /** The inner address of a wrapped one. */
  function Inner(b: seq<nat>): (r: Option<seq<nat>>)
    requires |b| == 16
    ensures r.Some? ==> |r.value| == 4
  {
    if InBlock(b, MAPPED) || InBlock(b, NAT64) then Some(b[12..16])
    else if InBlock(b, SIX_TO_FOUR) then Some(b[2..6])
    else None
  }

  const MAPPED := Block([0, 0, 0, 0, 0, 0, 0, 0, 0, 0, 0xFF, 0xFF, 0, 0, 0, 0], 96)
  const NAT64 := Block([0x00, 0x64, 0xFF, 0x9B, 0, 0, 0, 0, 0, 0, 0, 0, 0, 0, 0, 0], 96)
  const SIX_TO_FOUR := Block([0x20, 0x02, 0, 0, 0, 0, 0, 0, 0, 0, 0, 0, 0, 0, 0, 0], 16)

  /** The IPv6 blocks that are not globally routable: ::/127, 100::/64, 2001:db8::/32, fc00::/7, fe80::/10, ff00::/8. */
  function V6Blocks(): seq<Block> {
    [Block([0, 0, 0, 0, 0, 0, 0, 0, 0, 0, 0, 0, 0, 0, 0, 0], 127),
     Block([0x01, 0x00, 0, 0, 0, 0, 0, 0, 0, 0, 0, 0, 0, 0, 0, 0], 64),
     Block([0x20, 0x01, 0x0D, 0xB8, 0, 0, 0, 0, 0, 0, 0, 0, 0, 0, 0, 0], 32),
     Block([0xFC, 0, 0, 0, 0, 0, 0, 0, 0, 0, 0, 0, 0, 0, 0, 0], 7),
     Block([0xFE, 0x80, 0, 0, 0, 0, 0, 0, 0, 0, 0, 0, 0, 0, 0, 0], 10),
     Block([0xFF, 0, 0, 0, 0, 0, 0, 0, 0, 0, 0, 0, 0, 0, 0, 0], 8)]
  }

  lemma WholeBytes(b: seq<nat>, block: Block, n: nat)
    requires |b| == 16 && |block.base| == 16 && AllBytes(b) && AllBytes(block.base) && n < 16 && block.bits == 8 * n
    ensures InBlock(b, block) <==> b[..n] == block.base[..n]
  {
    assert b[..n] == block.base[..n] <==> forall i :: 0 <= i < n ==> b[i] == block.base[i];
  }

  lemma MappedIs(b: seq<nat>)
    requires |b| == 16 && AllBytes(b)
    ensures InBlock(b, MAPPED) <==> AllZero(b, 0, 10) && b[10] == 0xFF && b[11] == 0xFF
  {
    WholeBytes(b, MAPPED, 12);
    hide InBlock;
    assert b[..12] == MAPPED.base[..12] <==> forall i :: 0 <= i < 12 ==> b[i] == MAPPED.base[i];
  }

  lemma Nat64Is(b: seq<nat>)
    requires |b| == 16 && AllBytes(b)
    ensures InBlock(b, NAT64) <==> b[0] == 0x00 && b[1] == 0x64 && b[2] == 0xFF && b[3] == 0x9B && AllZero(b, 4, 12)
  {
    WholeBytes(b, NAT64, 12);
    hide InBlock;
    assert b[..12] == NAT64.base[..12] <==> forall i :: 0 <= i < 12 ==> b[i] == NAT64.base[i];
  }

  lemma ShortBlocks(b: seq<nat>)
    requires |b| == 16 && AllBytes(b)
    ensures InBlock(b, SIX_TO_FOUR) <==> b[0] == 0x20 && b[1] == 0x02
    ensures InBlock(b, V6Blocks()[5]) <==> b[0] == 0xFF
  {
  }

  lemma Documentation(b: seq<nat>)
    requires |b| == 16 && AllBytes(b)
    ensures InBlock(b, V6Blocks()[2]) <==> b[0] == 0x20 && b[1] == 0x01 && b[2] == 0x0D && b[3] == 0xB8
  {
  }

  lemma OddBlocks(b: seq<nat>)
    requires |b| == 16 && AllBytes(b)
    ensures InBlock(b, V6Blocks()[3]) <==> b[0] / 2 * 2 == 0xFC
    ensures InBlock(b, V6Blocks()[4]) <==> b[0] == 0xFE && b[1] / 64 * 64 == 0x80
  {
  }

  lemma ZeroBlocks(b: seq<nat>)
    requires |b| == 16 && AllBytes(b)
    ensures InBlock(b, V6Blocks()[0]) <==> AllZero(b, 0, 15) && (b[15] == 0 || b[15] == 1)
    ensures InBlock(b, V6Blocks()[1]) <==> b[0] == 0x01 && b[1] == 0x00 && AllZero(b, 2, 8)
  {
    assert b[15] / 2 == 0 <==> (b[15] == 0 || b[15] == 1);
  }

  lemma EachV6Block(b: seq<nat>)
    ensures InAny(b, V6Blocks()) <==>
      || InBlock(b, V6Blocks()[0]) || InBlock(b, V6Blocks()[1]) || InBlock(b, V6Blocks()[2])
      || InBlock(b, V6Blocks()[3]) || InBlock(b, V6Blocks()[4]) || InBlock(b, V6Blocks()[5])
  {
    hide InBlock;
  }

  /** The tests over bytes, taken in order, amount to this: a wrapped address as its IPv4, any other by its block. */
  lemma PublicIsBlocks(b: seq<nat>)
    requires |b| == 16 && AllBytes(b)
    ensures PublicBytes(b) <==>
      (if Inner(b).Some? then !InAny(Inner(b).value, V4Blocks()) else !InAny(b, V6Blocks()))
  {
    MappedIs(b);
    Nat64Is(b);
    ShortBlocks(b);
    Documentation(b);
    OddBlocks(b);
    ZeroBlocks(b);
    EachV6Block(b);
    ReservedIsBlocks(b[12..16]);
    ReservedIsBlocks(b[2..6]);
    hide InBlock, InAny, V4IsReserved, V4Blocks, V6Blocks;
  }

  // ---------------------------------------------------------------- every address can be written

  function HexText(w: nat): (g: string)
    requires w <= 0xFFFF
    ensures HexGroup(g)
  {
    [HexFigure(w / 4096), HexFigure(w / 256 % 16), HexFigure(w / 16 % 16), HexFigure(w % 16)]
  }

  function HexFigure(d: nat): (c: char)
    requires d < 16
    ensures HexDigit(c) && HexDigitValue(c) == d
  {
    if d < 10 then Figure(d) else ('a' as int + d - 10) as char
  }

  lemma HexSnoc(g: string, c: char)
    requires (forall i :: 0 <= i < |g| ==> HexDigit(g[i])) && HexDigit(c)
    ensures HexNumber(g + [c]) == HexNumber(g) * 16 + HexDigitValue(c)
  {
    assert (g + [c])[..|g|] == g;
  }

  lemma FourDigits(w: nat)
    requires w <= 0xFFFF
    ensures HexNumber(HexText(w)) == w
  {
    var a, b, c, d := w / 4096, w / 256 % 16, w / 16 % 16, w % 16;
    assert w == ((a * 16 + b) * 16 + c) * 16 + d by {
      assert w / 256 == w / 4096 * 16 + w / 256 % 16;
      assert w / 16 == w / 256 * 16 + w / 16 % 16;
    }
    var g1, g2, g3 := [HexFigure(a)], [HexFigure(a), HexFigure(b)], [HexFigure(a), HexFigure(b), HexFigure(c)];
    HexSnoc("", HexFigure(a));
    HexSnoc(g1, HexFigure(b));
    HexSnoc(g2, HexFigure(c));
    HexSnoc(g3, HexFigure(d));
    assert HexNumber("") == 0;
    hide HexNumber, HexFigure, HexDigit, HexDigitValue;
    assert "" + g1 == g1 && g1 + [HexFigure(b)] == g2 && g2 + [HexFigure(c)] == g3;
    assert g3 + [HexFigure(d)] == HexText(w);
  }

  /** Eight full groups. */
  function Full(b: seq<nat>): Spelling
    requires |b| == 16 && AllBytes(b)
  {
    Spelling(seq(8, i requires 0 <= i < 8 => HexText(b[2 * i] * 256 + b[2 * i + 1])), false, [], None)
  }

  lemma FullAt(b: seq<nat>, i: nat)
    requires |b| == 16 && AllBytes(b) && i < 8
    ensures HexGroups(Full(b).left) && HexNumber(Full(b).left[i]) == b[2 * i] * 256 + b[2 * i + 1]
  {
    FourDigits(b[2 * i] * 256 + b[2 * i + 1]);
    hide HexText, HexNumber, HexGroup;
  }

  lemma GroupSnoc(gs: seq<string>, g: string)
    requires HexGroups(gs) && HexGroup(g)
    ensures GroupBytes(gs + [g]) == GroupBytes(gs) + [HexNumber(g) / 256, HexNumber(g) % 256]
  {
    assert (gs + [g])[..|gs|] == gs;
  }

  lemma TwoBytes(hi: nat, lo: nat)
    requires lo <= 255
    ensures (hi * 256 + lo) / 256 == hi && (hi * 256 + lo) % 256 == lo
  {
  }

  predicate Spells(g: string, hi: nat, lo: nat) { HexGroup(g) && lo <= 255 && HexNumber(g) == hi * 256 + lo }

  lemma {:induction false} SpelledBytes(gs: seq<string>, b: seq<nat>)
    requires |b| == 2 * |gs| && forall i :: 0 <= i < |gs| ==> Spells(gs[i], b[2 * i], b[2 * i + 1])
    ensures HexGroups(gs) && GroupBytes(gs) == b
  {
    if |gs| > 0 {
      var m := |gs| - 1;
      var hi, lo := b[2 * m], b[2 * m + 1];
      SpelledBytes(gs[..m], b[..2 * m]);
      assert Spells(gs[m], hi, lo);
      TwoBytes(hi, lo);
      GroupSnoc(gs[..m], gs[m]);
      hide HexNumber, HexGroup, GroupBytes;
      assert gs[..m] + [gs[m]] == gs;
      assert b == b[..2 * m] + [hi, lo];
    }
  }

  /** Any sixteen bytes can be written out and read back. */
  lemma EveryAddressReads(b: seq<nat>)
    requires |b| == 16 && AllBytes(b)
    ensures Full(b).Valid() && Denotes(Full(b)) == b && Bytes(Print(Full(b))) == Some(b)
  {
    var sp := Full(b);
    forall i | 0 <= i < 8 ensures Spells(sp.left[i], b[2 * i], b[2 * i + 1]) { FullAt(b, i); }
    SpelledBytes(sp.left, b);
    SpellingReads(sp);
    hide Print, Bytes, HexText, HexGroup;
  }
}
