// Decimal text: the parts of Go's strconv and strings packages that the port
// and CIDR parsers stand on.
module Decimal {
  import opened Wrappers

  predicate IsDigit(c: char) {
    '0' <= c <= '9'
  }

  predicate AllDigits(s: string) {
    forall i | 0 <= i < |s| :: IsDigit(s[i])
  }

  function DigitValue(c: char): nat
    requires IsDigit(c)
  {
    (c - '0') as nat
  }

  function DigitChar(d: nat): char
    requires d < 10
  {
    '0' + d as char
  }

  /** The number written by a run of decimal digits. */
  function Value(s: string): nat
    requires AllDigits(s)
  {
    if s == "" then 0 else 10 * Value(s[..|s| - 1]) + DigitValue(s[|s| - 1])
  }

  /** The shortest decimal text of a number. */
  function Print(n: nat): string {
    if n < 10 then [DigitChar(n)] else Print(n / 10) + [DigitChar(n % 10)]
  }

  /** Digits without a superfluous leading zero. */
  predicate Plain(s: string) {
    s != "" && AllDigits(s) && (|s| > 1 ==> s[0] != '0')
  }

  lemma {:induction false} PrintIsPlain(n: nat)
    ensures Plain(Print(n)) && Value(Print(n)) == n
    ensures n > 0 ==> Print(n)[0] != '0'
  {
    if n >= 10 {
      PrintIsPlain(n / 10);
      assert Print(n)[..|Print(n)| - 1] == Print(n / 10);
      assert Print(n)[0] == Print(n / 10)[0];
    } else {
      assert Value([DigitChar(n)]) == 10 * Value([DigitChar(n)][..0]) + n;
    }
  }

  lemma {:induction false} ValueIsPositive(s: string)
    requires Plain(s) && |s| > 1
    ensures Value(s) >= 10
  {
    var init := s[..|s| - 1];
    if |init| > 1 {
      ValueIsPositive(init);
    } else {
      assert Value(init) == 10 * Value(init[..0]) + DigitValue(init[0]);
    }
  }

  lemma {:induction false} PrintOfValue(s: string)
    requires Plain(s)
    ensures Print(Value(s)) == s
  {
    var init := s[..|s| - 1];
    var last := s[|s| - 1];
    assert s == init + [last];
    if |s| > 1 {
      ValueIsPositive(s);
      assert Plain(init);
      PrintOfValue(init);
    }
  }

  const MAX_INT: nat := 0x7FFF_FFFF_FFFF_FFFF

  /** Go's strconv.Atoi on a platform with a 64-bit int. */
  function Atoi(s: string): (r: Option<int>)
    ensures r.Some? && '-' !in s ==> r.value >= 0
  {
    if s == "" then None
    else
      var digits := if s[0] == '-' || s[0] == '+' then s[1..] else s;
      if digits == "" || !AllDigits(digits) then None
      else
        var n: int := Value(digits);
        if s[0] == '-' then (if n <= MAX_INT + 1 then Some(-n) else None)
        else if n <= MAX_INT then Some(n)
        else None
  }

  /** The first position of a character, or the length when it is absent. */
  function IndexOf(s: string, c: char): (i: nat)
    ensures i <= |s|
    ensures i < |s| ==> s[i] == c
    ensures forall j | 0 <= j < i :: s[j] != c
    ensures i < |s| <==> c in s
  {
    if s == "" || s[0] == c then 0 else 1 + IndexOf(s[1..], c)
  }

  lemma FirstIsIndexOf(s: string, c: char, i: nat)
    requires i < |s| && s[i] == c && forall j | 0 <= j < i :: s[j] != c
    ensures IndexOf(s, c) == i
  {
  }

  /** Go's strings.Split with a one-character separator. */
  function Split(s: string, sep: char): (parts: seq<string>)
    ensures |parts| >= 1
  {
    var i := IndexOf(s, sep);
    if i == |s| then [s] else [s[..i]] + Split(s[i + 1..], sep)
  }

  function Join(parts: seq<string>, sep: char): string
    requires |parts| >= 1
  {
    if |parts| == 1 then parts[0] else parts[0] + [sep] + Join(parts[1..], sep)
  }

  /** Splitting loses nothing, and leaves no separator inside a part. */
  lemma {:induction false} SplitIsInvertible(s: string, sep: char)
    ensures Join(Split(s, sep), sep) == s
    ensures forall i | 0 <= i < |Split(s, sep)| :: sep !in Split(s, sep)[i]
  {
    var i := IndexOf(s, sep);
    if i < |s| {
      var head, tail := s[..i], s[i + 1..];
      assert Split(s, sep) == [head] + Split(tail, sep);
      assert s == head + [sep] + tail;
      assert sep !in head;
      hide Split, IndexOf, Join;
      SplitIsInvertible(tail, sep);
      JoinOfMore(head, Split(tail, sep), sep);
    }
  }

  lemma JoinOfMore(head: string, rest: seq<string>, sep: char)
    requires |rest| >= 1
    ensures Join([head] + rest, sep) == head + [sep] + Join(rest, sep)
  {
    assert ([head] + rest)[1..] == rest;
  }

  lemma SplitOnePart(s: string, sep: char)
    requires sep !in s
    ensures Split(s, sep) == [s]
  {
  }

  lemma SplitAtSeparator(head: string, tail: string, sep: char)
    requires sep !in head
    ensures Split(head + [sep] + tail, sep) == [head] + Split(tail, sep)
  {
    var s := head + [sep] + tail;
    FirstIsIndexOf(s, sep, |head|);
    assert s[..|head|] == head && s[|head| + 1..] == tail;
  }

  lemma {:induction false} SplitOfJoin(parts: seq<string>, sep: char)
    requires |parts| >= 1
    requires forall i | 0 <= i < |parts| :: sep !in parts[i]
    ensures Split(Join(parts, sep), sep) == parts
  {
    if |parts| == 1 {
      SplitOnePart(parts[0], sep);
    } else {
      SplitOfJoin(parts[1..], sep);
      SplitAtSeparator(parts[0], Join(parts[1..], sep), sep);
    }
  }
}
