/** Reading an IPv6 address from text, and deciding whether an address is publicly routable. */
module Addresses {
  import opened Numbers

  // ---------------------------------------------------------------- splitting text

  function Join(parts: seq<string>, sep: char): string {
    if |parts| == 0 then ""
    else if |parts| == 1 then parts[0]
    else parts[0] + [sep] + Join(parts[1..], sep)
  }

  /** `s.split(c)` */
  function Split(s: string, c: char): (r: seq<string>)
    ensures |r| > 0
  {
    if |s| == 0 then [""]
    else
      var r := Split(s[1..], c);
      if s[0] == c then [""] + r else [[s[0]] + r[0]] + r[1..]
  }

  /** `s.split('::')`, which looks for the separator from the left and never reuses a colon. */
  function SplitDouble(s: string): (r: seq<string>)
    ensures |r| > 0
  {
    if |s| < 2 then [s]
    else if s[0] == ':' && s[1] == ':' then [""] + SplitDouble(s[2..])
    else
      var r := SplitDouble(s[1..]);
      [[s[0]] + r[0]] + r[1..]
  }

  /** `.filter((x) => x !== '')` */
  function NonEmpty(parts: seq<string>): seq<string> {
    if |parts| == 0 then []
    else (if parts[0] == "" then [] else [parts[0]]) + NonEmpty(parts[1..])
  }

  /** `s.lastIndexOf(':')` */
  function LastColon(s: string): (r: int)
    ensures -1 <= r < |s|
  {
    if |s| == 0 then -1
    else if s[|s| - 1] == ':' then |s| - 1
    else LastColon(s[..|s| - 1])
  }

  // ---------------------------------------------------------------- numbers in text

  predicate Digit(c: char) { '0' <= c <= '9' }

  function DigitValue(c: char): nat
    requires Digit(c)
  {
    c as int - '0' as int
  }

  function DecNumber(t: string): nat
    requires forall i :: 0 <= i < |t| ==> Digit(t[i])
  {
    if |t| == 0 then 0 else DecNumber(t[..|t| - 1]) * 10 + DigitValue(t[|t| - 1])
  }

  predicate HexDigit(c: char) { Digit(c) || 'a' <= c <= 'f' || 'A' <= c <= 'F' }

  function HexDigitValue(c: char): nat
    requires HexDigit(c)
  {
    if Digit(c) then DigitValue(c)
    else if 'a' <= c <= 'f' then 10 + (c as int - 'a' as int)
    else 10 + (c as int - 'A' as int)
  }

  function HexNumber(t: string): nat
    requires forall i :: 0 <= i < |t| ==> HexDigit(t[i])
  {
    if |t| == 0 then 0 else HexNumber(t[..|t| - 1]) * 16 + HexDigitValue(t[|t| - 1])
  }

  /** The white space `parseInt` skips. */
  predicate White(c: char) {
    var n := c as int;
    || 9 <= n <= 13 || n == 32 || n == 0xA0 || n == 0x1680 || 0x2000 <= n <= 0x200A || n == 0x2028 || n == 0x2029
    || n == 0x202F || n == 0x205F || n == 0x3000 || n == 0xFEFF
  }

  function Trim(s: string): string {
    if |s| > 0 && White(s[0]) then Trim(s[1..]) else s
  }

  /** The longest run of hexadecimal digits at the front. */
  function HexPrefix(s: string): (r: string)
    ensures forall i :: 0 <= i < |r| ==> HexDigit(r[i])
  {
    if |s| > 0 && HexDigit(s[0]) then [s[0]] + HexPrefix(s[1..]) else ""
  }

  /** `Number.parseInt(s, 16)`: white space, a sign and an 0x are passed over, and so is whatever follows the digits. */
  function ParseHex(s: string): Option<int> {
    var t := Trim(s);
    var signed := |t| > 0 && (t[0] == '-' || t[0] == '+');
    var u := if signed then t[1..] else t;
    var v := if |u| >= 2 && u[0] == '0' && (u[1] == 'x' || u[1] == 'X') then u[2..] else u;
    var digits := HexPrefix(v);
    var n: int := HexNumber(digits);
    if digits == "" then None else Some(if signed && t[0] == '-' then -n else n)
  }

  /** A group's value, or none where the loop gives up. */
  function Word(group: string): (r: Option<nat>)
    ensures r.Some? ==> r.value <= 0xFFFF
  {
    var n := ParseHex(group);
    if n.None? || n.value < 0 || n.value > 0xFFFF then None else Some(n.value)
  }

  predicate Octet(t: string) {
    && 1 <= |t| <= 3 && (forall i :: 0 <= i < |t| ==> Digit(t[i]))
    && (|t| == 1 || t[0] != '0') && DecNumber(t) <= 255
  }

  /** `isIP(s) === 4` */
  predicate IsV4(s: string) {
    var parts := Split(s, '.');
    |parts| == 4 && forall i :: 0 <= i < |parts| ==> Octet(parts[i])
  }

  /** `s.split('.').map(Number)` */
  function Quad(s: string): (r: seq<nat>)
    requires IsV4(s)
    ensures |r| == 4 && forall i :: 0 <= i < 4 ==> r[i] <= 255
  {
    var parts := Split(s, '.');
    seq(4, i requires 0 <= i < 4 => assert Octet(parts[i]); DecNumber(parts[i]))
  }

  // ---------------------------------------------------------------- v6Bytes

  function ToGroups(s: string): seq<string> { if s == "" then [] else NonEmpty(Split(s, ':')) }

  function ZeroGroups(n: nat): seq<string> { seq(n, _ => "0") }

  /** The groups the text stands for, `::` filled out; none if there are too many or too few. */
  function Groups(head: string, wanted: nat): (r: Option<seq<string>>)
    ensures r.Some? ==> |r.value| == wanted
  {
    var halves := SplitDouble(head);
    if |halves| > 2 then None
    else
      var left := ToGroups(halves[0]);
      var right := if |halves| == 2 then ToGroups(halves[1]) else [];
      var fill := if |halves| == 2 then wanted - |left| - |right| else 0;
      if fill < 0 then None
      else
        var groups := left + ZeroGroups(fill) + right;
        if |groups| != wanted then None else Some(groups)
  }

  predicate AllWords(groups: seq<string>) {
    forall i :: 0 <= i < |groups| ==> Word(groups[i]).Some?
  }

  /** High byte then low byte of each group. */
  function Flat(groups: seq<string>): (r: seq<nat>)
    requires AllWords(groups)
    ensures |r| == 2 * |groups| && forall i :: 0 <= i < |r| ==> r[i] <= 255
  {
    seq(2 * |groups|, j requires 0 <= j < 2 * |groups| =>
      if j % 2 == 0 then Word(groups[j / 2]).value / 256 else Word(groups[j / 2]).value % 256)
  }

  function Tail(addr: string): string { addr[LastColon(addr) + 1..] }

  predicate Dotted(addr: string) { '.' in Tail(addr) }

  function Head(addr: string): string {
    if Dotted(addr) then addr[..LastColon(addr) + 1] + "0" else addr
  }

  /** The 16 bytes of an address, or none. */
  function Bytes(addr: string): (r: Option<seq<nat>>)
    ensures r.Some? ==> |r.value| == 16 && forall i :: 0 <= i < 16 ==> r.value[i] <= 255
  {
    if Dotted(addr) && !IsV4(Tail(addr)) then None
    else
      var groups := Groups(Head(addr), if Dotted(addr) then 7 else 8);
      if groups.None? || !AllWords(groups.value) then None
      else if Dotted(addr) then Some(Flat(groups.value[..6]) + Quad(Tail(addr)))
      else Some(Flat(groups.value))
  }

  /** `v6Bytes`, filling its buffer in place. */
  method V6Bytes(addr: string) returns (out: array?<nat>)
    ensures out == null <==> Bytes(addr).None?
    ensures out != null ==> fresh(out) && out[..] == Bytes(addr).value
  {
    hide ParseHex, Groups, IsV4, Quad, LastColon, HexNumber, Split, SplitDouble, Word;
    out := null;
    var tail: seq<nat> := [];
    var head := addr;
    var dot := LastColon(addr);
    var last := addr[dot + 1..];
    if '.' in last {
      if !IsV4(last) { return; }
      tail := Quad(last);
      head := addr[..dot + 1] + "0";
    }
    var wanted := if |tail| > 0 then 7 else 8;
    var found := Groups(head, wanted);
    if found.None? { return; }
    var groups := found.value;

    var buffer := new nat[16](_ => 0);
    var i := 0;
    var stop := if |tail| > 0 then 6 else 8;
    while i < |groups|
      invariant 0 <= i <= |groups|
      invariant forall k :: 0 <= k < i ==> Word(groups[k]).Some?
      invariant forall j :: 0 <= j < 2 * i && j < 2 * stop ==>
        buffer[j] == if j % 2 == 0 then Word(groups[j / 2]).value / 256 else Word(groups[j / 2]).value % 256
      invariant forall j :: 2 * i <= j < 16 ==> buffer[j] == 0
    {
      var n := Word(groups[i]);
      if n.None? { return; }
      if |tail| > 0 && i == |groups| - 1 { i := i + 1; break; }
      buffer[i * 2] := n.value / 256;
      buffer[i * 2 + 1] := n.value % 256;
      i := i + 1;
    }
    if |tail| > 0 {
      buffer[12], buffer[13], buffer[14], buffer[15] := tail[0], tail[1], tail[2], tail[3];
      assert buffer[..] == Flat(groups[..6]) + tail;
    } else {
      assert buffer[..] == Flat(groups);
    }
    out := buffer;
  }

  // ---------------------------------------------------------------- isPublicAddress

  /** `v4IsReserved` */
  predicate V4IsReserved(o: seq<nat>)
    requires |o| == 4
  {
    var a, b := o[0], o[1];
    || a == 0 || a == 10 || a == 127
    || (a == 100 && 64 <= b <= 127)
    || (a == 169 && b == 254)
    || (a == 172 && 16 <= b <= 31)
    || (a == 192 && b == 168)
    || (a == 192 && b == 0 && o[2] == 0)
    || (a == 192 && b == 0 && o[2] == 2)
    || (a == 192 && b == 88 && o[2] == 99)
    || (a == 198 && (b == 18 || b == 19))
    || (a == 198 && b == 51 && o[2] == 100)
    || (a == 203 && b == 0 && o[2] == 113)
    || a >= 224
  }

  predicate AllZero(b: seq<nat>, from: nat, to: nat)
    requires from <= to <= |b|
  {
    forall i :: from <= i < to ==> b[i] == 0
  }

  predicate PublicBytes(b: seq<nat>)
    requires |b| == 16
  {
    if AllZero(b, 0, 15) && (b[15] == 0 || b[15] == 1) then false
    else if AllZero(b, 0, 10) && b[10] == 0xFF && b[11] == 0xFF then !V4IsReserved(b[12..16])
    else if b[0] == 0x00 && b[1] == 0x64 && b[2] == 0xFF && b[3] == 0x9B && AllZero(b, 4, 12)
    then !V4IsReserved(b[12..16])
    else if b[0] == 0x20 && b[1] == 0x02 then !V4IsReserved(b[2..6])
    else if b[0] == 0x01 && b[1] == 0x00 && AllZero(b, 2, 8) then false
    else if b[0] == 0x20 && b[1] == 0x01 && b[2] == 0x0D && b[3] == 0xB8 then false
    else if b[0] / 2 * 2 == 0xFC then false
    else if b[0] == 0xFE && b[1] / 64 * 64 == 0x80 then false
    else b[0] != 0xFF
  }

  /** What Node's `isIP` made of the text. */
  datatype Family = NotAnAddress | V4 | V6

  /** `isPublicAddress`, given the family. */
  predicate IsPublicAddress(family: Family, addr: string)
    requires family == V4 ==> IsV4(addr)
  {
    match family
    case NotAnAddress => false
    case V4 => !V4IsReserved(Quad(addr))
    case V6 => Bytes(addr).Some? && PublicBytes(Bytes(addr).value)
  }
}
