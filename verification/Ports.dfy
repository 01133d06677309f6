// Ports and port ranges of a security-group rule: the text form and the
// 32-bit pair sent to the cloud (PortOrPortRange.ToRange).
module Ports {
  import opened Wrappers
  import opened Decimal

  const TWO_TO_THE_32: int := 0x1_0000_0000

  // The code keeps ports in 32 bits.
  type Port = n: int | 0 <= n < 0x1_0000_0000

  datatype PortError = NotANumber | FromAboveTo | BadFormat

  /** The (from, to) pointers of the code: a single port leaves `to` unset. */
  datatype PortRange = PortRange(from: Option<Port>, to: Option<Port>)

  /** Go's conversion of an int to uint32. */
  function ToUint32(n: int): Port {
    if 0 <= n < TWO_TO_THE_32 then n else n % TWO_TO_THE_32
  }

  function ToRange(ports: Option<string>): Result<PortRange, PortError> {
    if ports.None? then Ok(PortRange(None, None))
    else
      var parts := Split(ports.value, '-');
      if |parts| == 1 then OnePort(Atoi(parts[0]))
      else if |parts| == 2 then TwoPorts(Atoi(parts[0]), Atoi(parts[1]))
      else Err(BadFormat)
  }

  function OnePort(n: Option<int>): Result<PortRange, PortError> {
    if n.None? then Err(NotANumber) else Ok(PortRange(Some(ToUint32(n.value)), None))
  }

  function TwoPorts(from: Option<int>, to: Option<int>): Result<PortRange, PortError> {
    if from.None? || to.None? then Err(NotANumber)
    else if to.value < from.value then Err(FromAboveTo)
    else Ok(PortRange(Some(ToUint32(from.value)), Some(ToUint32(to.value))))
  }

  // What a port text says, independently of how it is parsed.

  /** An unsigned number as Go reads it: digits, perhaps after a plus sign. */
  ghost predicate Writes(s: string, n: nat) {
    var digits := if "+" <= s then s[1..] else s;
    digits != "" && AllDigits(digits) && Value(digits) == n && n <= 0x7FFF_FFFF_FFFF_FFFF
  }

  /** Two such numbers in ascending order with a dash between them. */
  ghost predicate WritesRange(s: string, lo: nat, hi: nat) {
    lo <= hi && exists a: string, b: string :: s == a + "-" + b && Writes(a, lo) && Writes(b, hi)
  }

  lemma WritesHasNoDash(s: string, n: nat)
    requires Writes(s, n)
    ensures '-' !in s && Atoi(s) == Some(n)
  {
    if "+" <= s {
      assert s == "+" + s[1..];
    } else {
      assert IsDigit(s[0]);
    }
  }

  lemma AtoiReads(s: string)
    requires '-' !in s
    ensures Atoi(s).Some? <==> exists n: nat :: Writes(s, n)
    ensures Atoi(s).Some? ==> Atoi(s).value >= 0 && Writes(s, Atoi(s).value)
  {
    if Atoi(s).Some? {
      assert s[0] in s;
      assert Writes(s, Atoi(s).value);
    }
    forall n: nat | Writes(s, n) ensures Atoi(s).Some? {
      WritesHasNoDash(s, n);
    }
  }

  lemma WrittenPortParses(s: string, n: nat)
    requires Writes(s, n)
    ensures ToRange(Some(s)) == Ok(PortRange(Some(ToUint32(n)), None))
  {
    WritesHasNoDash(s, n);
    SplitOnePart(s, '-');
  }

  lemma RangeSplits(a: string, b: string, lo: nat, hi: nat)
    requires Writes(a, lo) && Writes(b, hi)
    ensures Split(a + "-" + b, '-') == [a, b]
  {
    WritesHasNoDash(a, lo);
    WritesHasNoDash(b, hi);
    assert a + "-" + b == a + ['-'] + b;
    SplitAtSeparator(a, b, '-');
    SplitOnePart(b, '-');
  }

  lemma TwoPartsParse(s: string, a: string, b: string, lo: nat, hi: nat)
    requires Split(s, '-') == [a, b] && Atoi(a) == Some(lo) && Atoi(b) == Some(hi)
    ensures ToRange(Some(s)) == TwoPorts(Some(lo), Some(hi))
  {
  }

  lemma WrittenRangeParses(s: string, lo: nat, hi: nat)
    requires WritesRange(s, lo, hi)
    ensures ToRange(Some(s)) == Ok(PortRange(Some(ToUint32(lo)), Some(ToUint32(hi))))
  {
    hide ToRange, Atoi, Split, Writes;
    var a: string, b: string :| s == a + "-" + b && Writes(a, lo) && Writes(b, hi);
    assert Split(s, '-') == [a, b] by { RangeSplits(a, b, lo, hi); }
    assert Atoi(a) == Some(lo) && Atoi(b) == Some(hi) by {
      WritesHasNoDash(a, lo);
      WritesHasNoDash(b, hi);
    }
    TwoPartsParse(s, a, b, lo, hi);
  }

  /** The parser accepts exactly the texts that write a port or an ascending
      range; a written port has no dash and a written range has one. */
  lemma AcceptsExactlyWrittenPorts(s: string)
    ensures ToRange(Some(s)).Ok? <==>
              (exists n: nat :: Writes(s, n)) || (exists lo: nat, hi: nat :: WritesRange(s, lo, hi))
  {
    forall n: nat | Writes(s, n) ensures ToRange(Some(s)).Ok? {
      WrittenPortParses(s, n);
    }
    forall lo: nat, hi: nat | WritesRange(s, lo, hi) ensures ToRange(Some(s)).Ok? {
      WrittenRangeParses(s, lo, hi);
    }
    if ToRange(Some(s)).Ok? {
      SplitIsInvertible(s, '-');
      var parts := Split(s, '-');
      AtoiReads(parts[0]);
      if |parts| == 1 {
        assert Writes(s, Atoi(s).value);
      } else {
        AtoiReads(parts[1]);
        assert parts[1..] == [parts[1]];
        assert s == parts[0] + "-" + parts[1];
        assert WritesRange(s, Atoi(parts[0]).value, Atoi(parts[1]).value);
      }
    }
  }

  lemma PrintWrites(n: Port)
    ensures Writes(Print(n), n)
  {
    PrintIsPlain(n);
  }

  /** Printing a port and parsing it back is the identity. */
  lemma PrintedPortRoundTrips(n: Port)
    ensures ToRange(Some(Print(n))) == Ok(PortRange(Some(n), None))
  {
    PrintWrites(n);
    WrittenPortParses(Print(n), n);
  }

  /** Printing an ascending range and parsing it back is the identity. */
  lemma PrintedRangeRoundTrips(lo: Port, hi: Port)
    requires lo <= hi
    ensures ToRange(Some(Print(lo) + "-" + Print(hi))) == Ok(PortRange(Some(lo), Some(hi)))
  {
    PrintWrites(lo);
    PrintWrites(hi);
    WrittenRangeParses(Print(lo) + "-" + Print(hi), lo, hi);
  }

  /** The order test looks at the written numbers, not at the 32-bit ones. The
      written numbers survive exactly when the upper one is below 2^32. */
  lemma NumbersSurviveExactlyBelow32Bits(s: string, lo: nat, hi: nat, r: PortRange)
    requires WritesRange(s, lo, hi) && ToRange(Some(s)) == Ok(r)
    ensures r.from == Some(lo) && r.to == Some(hi) <==> hi < TWO_TO_THE_32
    ensures hi < TWO_TO_THE_32 ==> r.from.value <= r.to.value
  {
    WrittenRangeParses(s, lo, hi);
  }

  /** A range accepted as ascending that reaches the cloud descending. */
  lemma WrappedRangeIsDescending()
    ensures ToRange(Some("1-4294967296")) == Ok(PortRange(Some(1), Some(0)))
  {
    assert Value("1") == 10 * Value("1"[..0]) + 1;
    BigNumber();
    assert "1-4294967296" == "1" + "-" + "4294967296";
    WrittenRangeParses("1-4294967296", 1, 4294967296);
  }

  lemma BigNumber()
    ensures Writes("4294967296", 4294967296)
  {
    var s := "4294967296";
    assert s[..5] == "42949" && s[5..] == "67296";
    assert Value(s[..1]) == 4 by { assert s[..1][..0] == ""; }
    assert Value(s[..2]) == 42 by { assert s[..2][..1] == s[..1]; }
    assert Value(s[..3]) == 429 by { assert s[..3][..2] == s[..2]; }
    assert Value(s[..4]) == 4294 by { assert s[..4][..3] == s[..3]; }
    assert Value(s[..5]) == 42949 by { assert s[..5][..4] == s[..4]; }
    assert Value(s[..6]) == 429496 by { assert s[..6][..5] == s[..5]; }
    assert Value(s[..7]) == 4294967 by { assert s[..7][..6] == s[..6]; }
    assert Value(s[..8]) == 42949672 by { assert s[..8][..7] == s[..7]; }
    assert Value(s[..9]) == 429496729 by { assert s[..9][..8] == s[..8]; }
    assert Value(s) == 4294967296 by { assert s[..|s| - 1] == s[..9]; }
  }

  /** The cut to 32 bits, seen from the ports packets can have (below 2^16): a
      range covers the same ones exactly when the upper bound fits, or the wrap
      happens to be invisible there. */
  lemma WrapIsInvisibleExactly(lo: nat, hi: nat)
    requires lo <= hi
    ensures (forall port | 0 <= port < 0x1_0000 :: Between(lo, hi, port) <==> Between(ToUint32(lo), ToUint32(hi), port))
       <==> (hi < TWO_TO_THE_32
             || (lo < 0x1_0000 && ToUint32(hi) >= 0xFFFF)
             || (lo >= 0x1_0000 && (ToUint32(lo) >= 0x1_0000 || ToUint32(hi) < ToUint32(lo))))
  {
    var l, h := ToUint32(lo), ToUint32(hi);
    if hi >= TWO_TO_THE_32 {
      if lo < 0x1_0000 {
        if h < 0xFFFF { assert Between(lo, hi, 0xFFFF) && !Between(l, h, 0xFFFF); }
      } else if l < 0x1_0000 && l <= h {
        assert !Between(lo, hi, l) && Between(l, h, l);
      }
    }
  }

  predicate Between(lo: int, hi: int, port: int) {
    lo <= port <= hi
  }
}
