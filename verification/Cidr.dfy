// IPv4 addresses and prefixes in CIDR notation (section 3.1 of RFC 4632), as
// Go's net.ParseCIDR reads them and net.IPNet.String prints them.
module Cidr {
  import opened Wrappers
  import opened Decimal

  type Byte = n: int | 0 <= n < 256
  type PrefixLength = n: int | 0 <= n <= 32

  datatype Addr = Addr(a: Byte, b: Byte, c: Byte, d: Byte)

  /** A prefix as stored: an address and a length. The address may have bits
      set after the prefix; `Masked` says that it has none. */
  datatype Net = Net(base: Addr, len: PrefixLength)

  const ANYWHERE := Net(Addr(0, 0, 0, 0), 0)

  // ---- Masking ----

  /** A byte without its last n bits. */
  function DropLow(x: Byte, n: nat): Byte {
    if n == 0 then x else DropLow(x / 2, n - 1)
  }

  /** A byte with its last n bits cleared. */
  function ClearLow(x: Byte, n: nat): (r: Byte)
    ensures r <= x
  {
    if n == 0 then x else 2 * ClearLow(x / 2, n - 1)
  }

  /** A byte with everything after its first k bits cleared. */
  function MaskByte(x: Byte, k: nat): Byte
    requires k <= 8
  {
    ClearLow(x, 8 - k)
  }

  /** How many bits of byte i a prefix of length n covers. */
  function BitsIn(n: PrefixLength, i: nat): (k: nat)
    requires i < 4
    ensures k <= 8
  {
    if n <= 8 * i then 0 else if n >= 8 * i + 8 then 8 else n - 8 * i
  }

  function MaskAddr(x: Addr, n: PrefixLength): Addr {
    Addr(MaskByte(x.a, BitsIn(n, 0)), MaskByte(x.b, BitsIn(n, 1)), MaskByte(x.c, BitsIn(n, 2)),
        MaskByte(x.d, BitsIn(n, 3)))
  }

  predicate Masked(net: Net) {
    net.base == MaskAddr(net.base, net.len)
  }

  /** Go's IPNet.Contains: equal after masking. */
  predicate Contains(net: Net, x: Addr) {
    MaskAddr(x, net.len) == MaskAddr(net.base, net.len)
  }

  // The reference meaning: an address is in a prefix when it shares the
  // prefix's leading bits.

  function Octet(x: Addr, i: nat): Byte
    requires i < 4
  {
    if i == 0 then x.a else if i == 1 then x.b else if i == 2 then x.c else x.d
  }

  /** Bit t of a byte, the most significant first. */
  function BitOf(x: Byte, t: nat): nat
    requires t < 8
  {
    DropLow(x, 7 - t) % 2
  }

  /** Bit j of an address, the most significant first. */
  function Bit(x: Addr, j: nat): nat
    requires j < 32
  {
    BitOf(Octet(x, j / 8), j % 8)
  }

  predicate SharesPrefix(x: Addr, y: Addr, n: PrefixLength) {
    forall j | 0 <= j < n :: Bit(x, j) == Bit(y, j)
  }

  lemma {:induction false} DropOneMore(x: Byte, n: nat)
    ensures DropLow(x, n + 1) == DropLow(x, n) / 2
  {
    if n > 0 {
      DropOneMore(x / 2, n - 1);
    }
  }

  lemma {:induction false} DropAll(x: Byte)
    ensures DropLow(x, 8) == 0
  {
    DropOneMore(x, 0);
    DropOneMore(x, 1);
    DropOneMore(x, 2);
    DropOneMore(x, 3);
    DropOneMore(x, 4);
    DropOneMore(x, 5);
    DropOneMore(x, 6);
    DropOneMore(x, 7);
  }

  /** The first k bits agree one by one exactly when they agree as a number. */
  lemma {:induction false} SameHighBits(x: Byte, y: Byte, k: nat)
    requires k <= 8
    ensures DropLow(x, 8 - k) == DropLow(y, 8 - k) <==> forall i | 0 <= i < k :: BitOf(x, i) == BitOf(y, i)
  {
    if k == 0 {
      DropAll(x);
      DropAll(y);
    } else {
      SameHighBits(x, y, k - 1);
      DropOneMore(x, 8 - k);
      DropOneMore(y, 8 - k);
      assert BitOf(x, k - 1) == DropLow(x, 8 - k) % 2 && BitOf(y, k - 1) == DropLow(y, 8 - k) % 2;
    }
  }

  lemma {:induction false} ClearComparesDropped(x: Byte, y: Byte, n: nat)
    ensures ClearLow(x, n) == ClearLow(y, n) <==> DropLow(x, n) == DropLow(y, n)
  {
    if n > 0 {
      ClearComparesDropped(x / 2, y / 2, n - 1);
    }
  }

  lemma {:induction false} ClearTwice(x: Byte, n: nat)
    ensures ClearLow(ClearLow(x, n), n) == ClearLow(x, n)
  {
    if n > 0 {
      ClearTwice(x / 2, n - 1);
    }
  }

  lemma MaskComparesByte(x: Addr, y: Addr, n: PrefixLength, i: nat)
    requires i < 4
    ensures MaskByte(Octet(x, i), BitsIn(n, i)) == MaskByte(Octet(y, i), BitsIn(n, i))
       <==> forall j | 8 * i <= j < 8 * i + BitsIn(n, i) :: Bit(x, j) == Bit(y, j)
  {
    var k := BitsIn(n, i);
    var p, q := Octet(x, i), Octet(y, i);
    ClearComparesDropped(p, q, 8 - k);
    SameHighBits(p, q, k);
    forall j | 8 * i <= j < 8 * i + k
      ensures Bit(x, j) == BitOf(p, j - 8 * i) && Bit(y, j) == BitOf(q, j - 8 * i)
    {
      assert j / 8 == i && j % 8 == j - 8 * i;
    }
    if forall j | 8 * i <= j < 8 * i + k :: Bit(x, j) == Bit(y, j) {
      forall t | 0 <= t < k ensures BitOf(p, t) == BitOf(q, t) {
        assert Bit(x, 8 * i + t) == Bit(y, 8 * i + t);
      }
    }
  }

  /** Masked comparison is exactly sharing the prefix bits. */
  lemma ContainsMeansSharedPrefix(net: Net, x: Addr)
    ensures Contains(net, x) <==> SharesPrefix(net.base, x, net.len)
  {
    var y, n := net.base, net.len;
    MaskComparesByte(x, y, n, 0);
    MaskComparesByte(x, y, n, 1);
    MaskComparesByte(x, y, n, 2);
    MaskComparesByte(x, y, n, 3);
    if Contains(net, x) {
      forall j | 0 <= j < n ensures Bit(y, j) == Bit(x, j) {
        if j < 8 { assert j < BitsIn(n, 0); }
        else if j < 16 { assert 8 <= j < 8 + BitsIn(n, 1); }
        else if j < 24 { assert 16 <= j < 16 + BitsIn(n, 2); }
        else { assert 24 <= j < 24 + BitsIn(n, 3); }
      }
    }
  }

  /** Masking a prefix keeps the set of addresses it stands for. */
  lemma MaskingKeepsMembers(base: Addr, n: PrefixLength, x: Addr)
    ensures Masked(Net(MaskAddr(base, n), n))
    ensures Contains(Net(MaskAddr(base, n), n), x) <==> SharesPrefix(base, x, n)
  {
    ClearTwice(base.a, 8 - BitsIn(n, 0));
    ClearTwice(base.b, 8 - BitsIn(n, 1));
    ClearTwice(base.c, 8 - BitsIn(n, 2));
    ClearTwice(base.d, 8 - BitsIn(n, 3));
    ContainsMeansSharedPrefix(Net(base, n), x);
  }

  // ---- Text ----

  predicate IsOctetText(s: string) {
    Plain(s) && Value(s) < 256
  }

  /** Dotted decimal: four octets, none with a leading zero. */
  function ParseAddr(s: string): Option<Addr> {
    var parts := Split(s, '.');
    if |parts| == 4 && forall i | 0 <= i < 4 :: IsOctetText(parts[i]) then
      Some(Addr(Value(parts[0]), Value(parts[1]), Value(parts[2]), Value(parts[3])))
    else None
  }

  function ParseLength(s: string): Option<PrefixLength> {
    if s != "" && AllDigits(s) && Value(s) <= 32 then Some(Value(s)) else None
  }

  datatype Parsed = Parsed(addr: Addr, net: Net)

  /** Go's net.ParseCIDR on IPv4 text: the written address and the masked prefix. */
  function ParseCIDR(s: string): Option<Parsed> {
    var i := IndexOf(s, '/');
    if i == |s| then None
    else
      var addr, len := ParseAddr(s[..i]), ParseLength(s[i + 1..]);
      if addr.None? || len.None? then None
      else Some(Parsed(addr.value, Net(MaskAddr(addr.value, len.value), len.value)))
  }

  function PrintAddr(x: Addr): string {
    Join([Print(x.a), Print(x.b), Print(x.c), Print(x.d)], '.')
  }

  /** Go's IPNet.String: prints the stored address, masked or not. */
  function PrintNet(net: Net): string {
    PrintAddr(net.base) + ['/'] + Print(net.len)
  }

  lemma PlainHasNo(s: string, c: char)
    requires Plain(s) && !IsDigit(c)
    ensures c !in s
  {
  }

  lemma {:induction false} JoinHasNo(parts: seq<string>, sep: char, c: char)
    requires |parts| >= 1 && c != sep
    requires forall i | 0 <= i < |parts| :: c !in parts[i]
    ensures c !in Join(parts, sep)
  {
    if |parts| > 1 {
      JoinHasNo(parts[1..], sep, c);
    }
  }

  lemma PrintedAddrParses(x: Addr)
    ensures ParseAddr(PrintAddr(x)) == Some(x)
    ensures '/' !in PrintAddr(x)
  {
    var parts := [Print(x.a), Print(x.b), Print(x.c), Print(x.d)];
    PrintIsPlain(x.a);
    PrintIsPlain(x.b);
    PrintIsPlain(x.c);
    PrintIsPlain(x.d);
    forall i | 0 <= i < 4 ensures IsOctetText(parts[i]) && '.' !in parts[i] && '/' !in parts[i] {
      PlainHasNo(parts[i], '.');
      PlainHasNo(parts[i], '/');
    }
    SplitOfJoin(parts, '.');
    JoinHasNo(parts, '.', '/');
  }

  /** The text of an address is unique: parsing and printing it changes nothing. */
  lemma ParsedAddrPrints(s: string)
    requires ParseAddr(s).Some?
    ensures PrintAddr(ParseAddr(s).value) == s
  {
    SplitIsInvertible(s, '.');
    var parts := Split(s, '.');
    assert parts == [parts[0], parts[1], parts[2], parts[3]];
    PrintOfValue(parts[0]);
    PrintOfValue(parts[1]);
    PrintOfValue(parts[2]);
    PrintOfValue(parts[3]);
  }

  lemma SlashAt(head: string, tail: string)
    requires '/' !in head
    ensures var text := head + ['/'] + tail;
            IndexOf(text, '/') == |head| && text[..|head|] == head && text[|head| + 1..] == tail
  {
    FirstIsIndexOf(head + ['/'] + tail, '/', |head|);
  }

  lemma PrintedLengthParses(n: PrefixLength)
    ensures ParseLength(Print(n)) == Some(n)
  {
    PrintIsPlain(n);
  }

  /** Printing a prefix and parsing it gives back its address, length and mask. */
  lemma PrintedNetParses(net: Net)
    ensures ParseCIDR(PrintNet(net)) == Some(Parsed(net.base, Net(MaskAddr(net.base, net.len), net.len)))
  {
    hide PrintAddr, ParseAddr, ParseLength, Print, MaskAddr, IndexOf;
    PrintedAddrParses(net.base);
    PrintedLengthParses(net.len);
    SlashAt(PrintAddr(net.base), Print(net.len));
  }

  /** What a CIDR text says, independently of how it is parsed: four octets
      without leading zeros, and a length in digits. */
  ghost predicate WritesNet(s: string, addr: Addr, len: PrefixLength) {
    exists digits: string ::
      && s == Print(addr.a) + "." + Print(addr.b) + "." + Print(addr.c) + "." + Print(addr.d) + "/" + digits
      && digits != "" && AllDigits(digits) && Value(digits) == len
  }

  lemma WrittenNetParses(s: string, addr: Addr, len: PrefixLength)
    requires WritesNet(s, addr, len)
    ensures ParseCIDR(s) == Some(Parsed(addr, Net(MaskAddr(addr, len), len)))
  {
    var digits: string :|
      && s == Print(addr.a) + "." + Print(addr.b) + "." + Print(addr.c) + "." + Print(addr.d) + "/" + digits
      && digits != "" && AllDigits(digits) && Value(digits) == len;
    DottedText(addr);
    hide PrintAddr, ParseAddr, Print, MaskAddr, IndexOf;
    PrintedAddrParses(addr);
    assert s == PrintAddr(addr) + ['/'] + digits;
    SlashAt(PrintAddr(addr), digits);
  }

  lemma DottedText(x: Addr)
    ensures PrintAddr(x) == Print(x.a) + "." + Print(x.b) + "." + Print(x.c) + "." + Print(x.d)
  {
    var parts := [Print(x.a), Print(x.b), Print(x.c), Print(x.d)];
    assert Join(parts[3..], '.') == parts[3];
    assert Join(parts[2..], '.') == parts[2] + "." + parts[3] by { assert parts[2..][1..] == parts[3..]; }
    assert Join(parts[1..], '.') == parts[1] + "." + Join(parts[2..], '.') by { assert parts[1..][1..] == parts[2..]; }
    assert Join(parts, '.') == parts[0] + "." + Join(parts[1..], '.');
    assert PrintAddr(x) == Print(x.a) + "." + (Print(x.b) + "." + (Print(x.c) + "." + Print(x.d)));
  }

  /** The parser accepts exactly those texts, and reads what they say. */
  lemma AcceptsExactlyWrittenNets(s: string)
    ensures ParseCIDR(s).Some? <==> exists addr, len :: WritesNet(s, addr, len)
    ensures ParseCIDR(s).Some? ==> WritesNet(s, ParseCIDR(s).value.addr, ParseCIDR(s).value.net.len)
  {
    forall addr, len | WritesNet(s, addr, len) ensures ParseCIDR(s).Some? {
      WrittenNetParses(s, addr, len);
    }
    if ParseCIDR(s).Some? {
      var i := IndexOf(s, '/');
      var addr := ParseCIDR(s).value.addr;
      assert s == s[..i] + ['/'] + s[i + 1..];
      ParsedAddrPrints(s[..i]);
      DottedText(addr);
      assert WritesNet(s, addr, ParseCIDR(s).value.net.len);
    }
  }

  /** The prefix length as written. */
  function LengthText(s: string): string {
    var i := IndexOf(s, '/');
    if i == |s| then "" else s[i + 1..]
  }

  /** A CIDR text that already is what the code would print: nothing set after
      the prefix, and no leading zero in the length. */
  predicate Canonical(s: string) {
    var p := ParseCIDR(s);
    p.Some? && p.value.addr == MaskAddr(p.value.addr, p.value.net.len) && Plain(LengthText(s))
  }

  lemma PartsReprint(addrText: string, lenText: string, addr: Addr, len: PrefixLength)
    requires ParseAddr(addrText) == Some(addr) && Plain(lenText) && Value(lenText) == len
    ensures PrintNet(Net(addr, len)) == addrText + ['/'] + lenText
  {
    ParsedAddrPrints(addrText);
    PrintOfValue(lenText);
  }

  lemma CanonicalParts(s: string) returns (i: nat, net: Net)
    requires Canonical(s)
    ensures i < |s| && s == s[..i] + ['/'] + s[i + 1..]
    ensures ParseAddr(s[..i]) == Some(net.base) && Plain(s[i + 1..]) && Value(s[i + 1..]) == net.len
    ensures ParseCIDR(s).value.net == net
  {
    i := IndexOf(s, '/');
    net := ParseCIDR(s).value.net;
  }

  lemma CanonicalReprints(s: string)
    requires Canonical(s)
    ensures PrintNet(ParseCIDR(s).value.net) == s
  {
    var i, net := CanonicalParts(s);
    PartsReprint(s[..i], s[i + 1..], net.base, net.len);
  }

  lemma PrintedMaskedIsCanonical(net: Net)
    requires Masked(net)
    ensures Canonical(PrintNet(net))
  {
    PrintedNetParses(net);
    PrintedAddrParses(net.base);
    PrintIsPlain(net.len);
    SlashAt(PrintAddr(net.base), Print(net.len));
    assert PrintNet(net)[|PrintAddr(net.base)| + 1..] == Print(net.len);
  }

  /** Reprinting the parsed prefix gives the same text exactly for canonical texts. */
  lemma ReprintsItselfExactlyWhenCanonical(s: string)
    requires ParseCIDR(s).Some?
    ensures PrintNet(ParseCIDR(s).value.net) == s <==> Canonical(s)
  {
    var p := ParseCIDR(s).value;
    if Canonical(s) {
      CanonicalReprints(s);
    }
    if PrintNet(p.net) == s {
      MaskingKeepsMembers(p.addr, p.net.len, p.addr);
      PrintedMaskedIsCanonical(p.net);
    }
  }
}
