/** The text primitives the address parsers rest on: splitting at a delimiter, and numbers as text. */
module Text {
  import opened Options

  // ---------------------------------------------------------------- splitting and joining

  /** The pieces between delimiters, at least one. */
  function Segments(s: string, d: char): (parts: seq<string>)
    ensures |parts| >= 1
  {
    if s == "" then [""]
    else if s[0] == d then [""] + Segments(s[1..], d)
    else var r := Segments(s[1..], d); [[s[0]] + r[0]] + r[1..]
  }

  /** `std::views::split`: like Segments, but the empty string has no pieces at all. */
  function Split(s: string, d: char): seq<string> {
    if s == "" then [] else Segments(s, d)
  }

  function Join(parts: seq<string>, d: char): string {
    if parts == [] then ""
    else if |parts| == 1 then parts[0]
    else parts[0] + [d] + Join(parts[1..], d)
  }

  predicate Free(parts: seq<string>, d: char) {
    forall p :: p in parts ==> d !in p
  }

  lemma {:induction false} SegmentsOfFree(s: string, d: char)
    requires d !in s
    ensures Segments(s, d) == [s]
  {
    if s != "" {
      SegmentsOfFree(s[1..], d);
      assert s == [s[0]] + s[1..];
    }
  }

  lemma {:induction false} SegmentsSplit(a: string, d: char, b: string)
    ensures Segments(a + [d] + b, d) == Segments(a, d) + Segments(b, d)
  {
    var s := a + [d] + b;
    if a == "" {
      assert s[1..] == b;
    } else {
      SegmentsSplit(a[1..], d, b);
      assert s[1..] == a[1..] + [d] + b;
      HeadJoined([a[0]], Segments(a[1..], d), Segments(b, d));
    }
  }

  lemma HeadJoined(c: string, r: seq<string>, t: seq<string>)
    requires r != []
    ensures (r + t)[0] == r[0] && (r + t)[1..] == r[1..] + t
    ensures [""] + (r + t) == [""] + r + t
    ensures [c + r[0]] + (r[1..] + t) == [c + r[0]] + r[1..] + t
  {
  }

  lemma {:induction false} SegmentsOfJoin(parts: seq<string>, d: char)
    requires parts != [] && Free(parts, d)
    ensures Segments(Join(parts, d), d) == parts
  {
    SegmentsOfFree(parts[0], d);
    if |parts| > 1 {
      SegmentsOfJoin(parts[1..], d);
      SegmentsSplit(parts[0], d, Join(parts[1..], d));
    }
  }

  lemma JoinPush(c: char, r: seq<string>, d: char)
    requires r != []
    ensures Join([[c] + r[0]] + r[1..], d) == [c] + Join(r, d)
  {
    var t := [[c] + r[0]] + r[1..];
    assert t[1..] == r[1..];
    if |r| > 1 {
      assert [c] + r[0] + [d] + Join(r[1..], d) == [c] + (r[0] + [d] + Join(r[1..], d));
    }
  }

  lemma JoinAfterEmpty(r: seq<string>, d: char)
    requires r != []
    ensures Join([""] + r, d) == [d] + Join(r, d)
  {
    assert ([""] + r)[1..] == r;
    assert "" + [d] == [d];
  }

  lemma {:induction false} JoinOfSegments(s: string, d: char)
    ensures Join(Segments(s, d), d) == s
  {
    if s != "" {
      hide Join;
      JoinOfSegments(s[1..], d);
      assert s == [s[0]] + s[1..];
      if s[0] == d {
        JoinAfterEmpty(Segments(s[1..], d), d);
      } else {
        JoinPush(s[0], Segments(s[1..], d), d);
      }
    }
  }

  lemma {:induction false} SegmentsAreFree(s: string, d: char)
    ensures Free(Segments(s, d), d)
  {
    if s != "" {
      SegmentsAreFree(s[1..], d);
    }
  }

  /** Splitting and joining undo each other, except that one empty piece joins to the empty string. */
  lemma SplitJoin(parts: seq<string>, d: char)
    requires Free(parts, d)
    ensures Split(Join(parts, d), d) == parts <==> parts != [""]
  {
    if parts != [] {
      SegmentsOfJoin(parts, d);
      if Join(parts, d) == "" {
        EmptyJoin(parts, d);
      }
    }
  }

  lemma EmptyJoin(parts: seq<string>, d: char)
    requires Join(parts, d) == ""
    ensures parts == [] || parts == [""]
  {
  }

  lemma JoinSplit(s: string, d: char)
    ensures Join(Split(s, d), d) == s && Free(Split(s, d), d) && Split(s, d) != [""]
  {
    JoinOfSegments(s, d);
    SegmentsAreFree(s, d);
  }

  lemma {:induction false} JoinConcat(a: seq<string>, b: seq<string>, d: char)
    requires a != [] && b != []
    ensures Join(a + b, d) == Join(a, d) + [d] + Join(b, d)
  {
    if |a| == 1 {
      assert (a + b)[1..] == b;
    } else {
      JoinConcat(a[1..], b, d);
      assert (a + b)[1..] == a[1..] + b;
      assert a[0] + [d] + (Join(a[1..], d) + [d] + Join(b, d)) == a[0] + [d] + Join(a[1..], d) + [d] + Join(b, d);
    }
  }

  lemma {:induction false} PieceChars(parts: seq<string>, d: char, p: string, c: char)
    requires p in parts && c in p
    ensures c in Join(parts, d)
  {
    if parts[0] != p {
      PieceChars(parts[1..], d, p, c);
    }
  }

  // ---------------------------------------------------------------- numbers

  /** The digit a character stands for in bases up to sixteen, in either case; 16 when none. */
  function DigitOf(c: char): nat {
    if '0' <= c <= '9' then (c - '0') as int
    else if 'a' <= c <= 'f' then 10 + (c - 'a') as int
    else if 'A' <= c <= 'F' then 10 + (c - 'A') as int
    else 16
  }

  const LOWER := ['0', '1', '2', '3', '4', '5', '6', '7', '8', '9', 'a', 'b', 'c', 'd', 'e', 'f']
  const UPPER := ['0', '1', '2', '3', '4', '5', '6', '7', '8', '9', 'A', 'B', 'C', 'D', 'E', 'F']

  /** The digits in their order, in either case, and no other character. */
  lemma DigitsInOrder(i: nat, c: char)
    requires i < 16
    ensures DigitOf(LOWER[i]) == i && DigitOf(UPPER[i]) == i && DigitChar(i) == LOWER[i]
    ensures DigitOf(c) == 16 <==> c !in LOWER && c !in UPPER
  {
    assert LOWER[0] == '0' && LOWER[9] == '9' && LOWER[10] == 'a' && LOWER[15] == 'f';
    assert UPPER[10] == 'A' && UPPER[15] == 'F';
    if DigitOf(c) != 16 {
      var k := DigitOf(c);
      assert c == LOWER[k] || c == UPPER[k];
    }
  }

  predicate IsDigit(c: char, base: nat) {
    DigitOf(c) < base
  }

  predicate AllDigits(s: string, base: nat) {
    forall c :: c in s ==> IsDigit(c, base)
  }

  /** The number a string of digits denotes, most significant first. */
  function Value(s: string, base: nat): nat {
    if s == "" then 0 else Value(s[..|s| - 1], base) * base + DigitOf(s[|s| - 1])
  }

  /** How many leading characters are digits. */
  function DigitPrefix(s: string, base: nat): (n: nat)
    ensures n <= |s| && AllDigits(s[..n], base)
    ensures n < |s| ==> !IsDigit(s[n], base)
  {
    if s == "" || !IsDigit(s[0], base) then 0
    else
      var n := 1 + DigitPrefix(s[1..], base);
      assert s[..n] == [s[0]] + s[1..][..n - 1];
      n
  }

  /** `std::from_chars` into an unsigned type with this maximum: reads the digits the text starts with;
      fails when there is none or the number does not fit. Where it stopped is not looked at. */
  function FromChars(s: string, base: nat, max: nat): Option<nat> {
    var n := DigitPrefix(s, base);
    if n == 0 || Value(s[..n], base) > max then None else Some(Value(s[..n], base))
  }

  /** On text made of digits only, nothing is left over. */
  lemma FromCharsWhole(s: string, base: nat, max: nat)
    requires AllDigits(s, base)
    ensures FromChars(s, base, max) == if s != "" && Value(s, base) <= max then Some(Value(s, base)) else None
  {
    var n := DigitPrefix(s, base);
    assert forall k :: 0 <= k < |s| ==> IsDigit(s[k], base);
    assert s[..|s|] == s;
  }

  /** In general it is: trailing text is silently dropped. */
  lemma FromCharsStopsEarly()
    ensures FromChars("1x", 10, 255) == Some(1) && !AllDigits("1x", 10)
  {
    assert "1x"[1] == 'x' && 'x' in "1x";
    assert DigitPrefix("1x", 10) == 1 by {
      assert "1x"[1..] == "x";
    }
    assert "1x"[..1] == "1";
    assert Value("1", 10) == 1 by {
      assert "1"[..0] == "";
    }
  }

  function Pow(base: nat, k: nat): nat {
    if k == 0 then 1 else base * Pow(base, k - 1)
  }

  /** The first digit weighs most. */
  lemma {:induction false} ValueFromLeft(c: char, s: string, base: nat)
    requires base == 10 || base == 16
    ensures Value([c] + s, base) == DigitOf(c) * Pow(base, |s|) + Value(s, base)
  {
    var t := [c] + s;
    if s == "" {
      assert t[..0] == "";
    } else {
      var last := |s| - 1;
      ValueFromLeft(c, s[..last], base);
      assert t[..|t| - 1] == [c] + s[..last];
      assert Pow(base, |s|) == base * Pow(base, last);
      Distribute(DigitOf(c), Pow(base, last), Value(s[..last], base), base);
    }
  }

  lemma Distribute(d: nat, p: nat, v: nat, base: nat)
    ensures (d * p + v) * base == d * (base * p) + v * base
  {
  }

  lemma {:induction false} ValueFits(s: string)
    requires AllDigits(s, 16)
    ensures Value(s, 16) < Pow(16, |s|)
  {
    if s != "" {
      assert s[|s| - 1] in s;
      ValueFits(s[..|s| - 1]);
    }
  }

  function DigitChar(n: nat): (c: char)
    requires n < 16
    ensures DigitOf(c) == n
  {
    if n < 10 then '0' + n as char else 'a' + (n - 10) as char
  }

  /** A number as text, without leading zeros. */
  function Print(n: nat, base: nat): string
    requires base == 10 || base == 16
  {
    if n < base then [DigitChar(n)] else Print(n / base, base) + [DigitChar(n % base)]
  }

  lemma {:induction false} PrintValue(n: nat, base: nat)
    requires base == 10 || base == 16
    ensures Print(n, base) != "" && AllDigits(Print(n, base), base) && Value(Print(n, base), base) == n
  {
    var s := Print(n, base);
    if n < base {
      assert s[..0] == "";
    } else {
      PrintValue(n / base, base);
      assert s[..|s| - 1] == Print(n / base, base);
    }
  }

  /** No text with the same value is shorter. */
  lemma {:induction false} PrintIsShortest(n: nat, base: nat, s: string)
    requires base == 10 || base == 16
    requires s != "" && AllDigits(s, base) && Value(s, base) == n
    ensures |Print(n, base)| <= |s|
  {
    if n >= base {
      var t := s[..|s| - 1];
      assert s[|s| - 1] in s;
      assert Value(t, base) == n / base;
      PrintIsShortest(n / base, base, t);
    }
  }

  lemma {:induction false} PrintLength(n: nat, k: nat)
    requires k > 0 && n < Pow(16, k)
    ensures |Print(n, 16)| <= k
  {
    if n >= 16 {
      PrintLength(n / 16, k - 1);
    }
  }
}
