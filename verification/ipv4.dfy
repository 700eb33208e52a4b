/** Dotted-quad addresses. */
module Ipv4 {
  import opened ByteOrder
  import opened Options
  import opened Text

  predicate IsIpv4Char(c: char) {
    '0' <= c <= '9' || c == '.'
  }

  predicate OnlyIpv4Chars(s: string) {
    forall i :: 0 <= i < |s| ==> IsIpv4Char(s[i])
  }

  /** A non-empty string of decimal digits, of any length, of value at most 255. */
  predicate IsOctet(s: string) {
    s != "" && AllDigits(s, 10) && Value(s, 10) <= 255
  }

  function Dotted(a: string, b: string, c: string, d: string): string {
    a + "." + b + "." + c + "." + d
  }

  function Positional(a: nat, b: nat, c: nat, d: nat): nat {
    ((a * 256 + b) * 256 + c) * 256 + d
  }

  lemma Shifted(high: nat, low: nat)
    requires low < 256
    ensures (high * 256 + low) / 256 == high && (high * 256 + low) % 256 == low
  {
  }

  lemma PositionalBytes(a: nat, b: nat, c: nat, d: nat) returns (v: UInt32)
    requires a < 256 && b < 256 && c < 256 && d < 256
    ensures v == Positional(a, b, c, d)
    ensures v / 0x100_0000 == a && v / 0x1_0000 % 256 == b && v / 256 % 256 == c && v % 256 == d
  {
    v := Positional(a, b, c, d);
    ghost var ab, abc := a * 256 + b, (a * 256 + b) * 256 + c;
    Shifted(abc, d);
    Shifted(ab, c);
    Shifted(a, b);
    Quotients(v);
  }

  function ReadOctet(s: string): (r: Option<Byte>) {
    FromChars(s, 10, 255)
  }

  predicate FourOctets(segments: seq<string>) {
    |segments| == 4 && forall i :: 0 <= i < 4 ==> ReadOctet(segments[i]).Some?
  }

  function ReadFour(segments: seq<string>): UInt32
    requires FourOctets(segments)
  {
    Positional(ReadOctet(segments[0]).value, ReadOctet(segments[1]).value, ReadOctet(segments[2]).value,
               ReadOctet(segments[3]).value)
  }

  /** What `parse_ipv4` computes. */
  function Read(hostname: string): Option<UInt32> {
    var segments := Split(hostname, '.');
    if OnlyIpv4Chars(hostname) && FourOctets(segments) then Some(ReadFour(segments)) else None
  }

  method ParseIpv4(hostname: string) returns (addr: Option<UInt32>)
    ensures addr == Read(hostname)
  {
    if !OnlyIpv4Chars(hostname) {
      return None;
    }
    var segments := Split(hostname, '.');
    var parts := new Byte[4](_ => 0);
    var i := 0;
    for it := 0 to |segments|
      invariant i == it <= 4
      invariant forall j :: 0 <= j < i ==> ReadOctet(segments[j]) == Some(parts[3 - j])
    {
      if i == 4 {
        return None;
      }
      var octet := ReadOctet(segments[it]);
      if octet.None? {
        return None;
      }
      parts[3 - i] := octet.value;
      i := i + 1;
    }
    if i != 4 {
      return None;
    }
    FourBytes(parts[..]);
    assert FourOctets(segments);
    return Some(FromBytes(parts[..]));
  }

  lemma FourBytes(bs: seq<Byte>)
    requires |bs| == 4
    ensures FromBytes(bs) == Positional(bs[3], bs[2], bs[1], bs[0]) < 0x1_0000_0000
  {
    assert bs[1..][1..] == bs[2..] && bs[2..][1..] == bs[3..] && bs[3..][1..] == [];
    assert FromBytes(bs[3..]) == bs[3];
    assert FromBytes(bs[2..]) == bs[2] as nat + 256 * (bs[3] as nat);
  }

  /** A piece of digits only: `from_chars` stopping early is impossible, so its end pointer need not be
      looked at. */
  lemma ReadIsOctet(s: string)
    requires AllDigits(s, 10) && ReadOctet(s).Some?
    ensures IsOctet(s) && ReadOctet(s).value == Value(s, 10)
  {
    FromCharsWhole(s, 10, 255);
  }

  lemma FourPieces(a: string, b: string, c: string, d: string)
    ensures Join([a, b, c, d], '.') == Dotted(a, b, c, d)
  {
    assert [a, b, c, d][1..] == [b, c, d] && [b, c, d][1..] == [c, d] && [c, d][1..] == [d];
    assert Join([c, d], '.') == c + "." + d;
    assert a + "." + (b + "." + (c + "." + d)) == Dotted(a, b, c, d);
  }

  lemma DigitsAreFree(s: string)
    requires AllDigits(s, 10)
    ensures '.' !in s && OnlyIpv4Chars(s)
  {
    forall i | 0 <= i < |s|
      ensures IsIpv4Char(s[i]) && s[i] != '.'
    {
      assert IsDigit(s[i], 10);
    }
  }

  lemma OctetFacts(s: string)
    requires IsOctet(s)
    ensures '.' !in s && OnlyIpv4Chars(s) && ReadOctet(s) == Some(Value(s, 10))
  {
    DigitsAreFree(s);
    FromCharsWhole(s, 10, 255);
  }

  /** Four octets joined by dots are read, as their big-endian positional value. */
  lemma DottedQuadRead(a: string, b: string, c: string, d: string)
    requires IsOctet(a) && IsOctet(b) && IsOctet(c) && IsOctet(d)
    ensures Read(Dotted(a, b, c, d)) == Some(Positional(Value(a, 10), Value(b, 10), Value(c, 10), Value(d, 10)))
  {
    hide Value, ReadOctet, OnlyIpv4Chars, IsOctet, Dotted, Split, Join, Positional;
    OctetFacts(a);
    OctetFacts(b);
    OctetFacts(c);
    OctetFacts(d);
    FourPieces(a, b, c, d);
    SplitJoin([a, b, c, d], '.');
    DottedChars(a, b, c, d);
  }

  lemma DottedChars(a: string, b: string, c: string, d: string)
    requires OnlyIpv4Chars(a) && OnlyIpv4Chars(b) && OnlyIpv4Chars(c) && OnlyIpv4Chars(d)
    ensures OnlyIpv4Chars(Dotted(a, b, c, d))
  {
    forall c' | c' in Dotted(a, b, c, d)
      ensures IsIpv4Char(c')
    {
    }
  }

  /** `parse_ipv4` accepts nothing else. */
  lemma ReadIsDottedQuad(hostname: string) returns (a: string, b: string, c: string, d: string)
    requires Read(hostname).Some?
    ensures IsOctet(a) && IsOctet(b) && IsOctet(c) && IsOctet(d) && hostname == Dotted(a, b, c, d)
  {
    var parts := Split(hostname, '.');
    a, b, c, d := parts[0], parts[1], parts[2], parts[3];
    forall p | p in parts
      ensures IsOctet(p)
    {
      PieceIsDigits(hostname, p);
      ReadIsOctet(p);
    }
    JoinSplit(hostname, '.');
    assert parts == [a, b, c, d];
    FourPieces(a, b, c, d);
  }

  lemma PieceIsDigits(hostname: string, p: string)
    requires OnlyIpv4Chars(hostname) && p in Split(hostname, '.')
    ensures AllDigits(p, 10)
  {
    JoinSplit(hostname, '.');
    forall c | c in p
      ensures IsDigit(c, 10)
    {
      PieceChars(Split(hostname, '.'), '.', p, c);
      assert IsIpv4Char(c);
    }
  }

  /** The host name is four octets joined by dots, and the address their positional value. */
  ghost predicate IsDottedQuad(hostname: string, addr: UInt32) {
    exists a, b, c, d ::
      && hostname == Dotted(a, b, c, d) && IsOctet(a) && IsOctet(b) && IsOctet(c) && IsOctet(d)
      && addr == Positional(Value(a, 10), Value(b, 10), Value(c, 10), Value(d, 10))
  }

  lemma ReadExactly(hostname: string, addr: UInt32)
    ensures Read(hostname) == Some(addr) <==> IsDottedQuad(hostname, addr)
  {
    hide Read, Value, IsOctet, Dotted, Positional;
    if Read(hostname) == Some(addr) {
      var a, b, c, d := ReadIsDottedQuad(hostname);
      DottedQuadRead(a, b, c, d);
    }
    if IsDottedQuad(hostname, addr) {
      var a, b, c, d :|
        && hostname == Dotted(a, b, c, d) && IsOctet(a) && IsOctet(b) && IsOctet(c) && IsOctet(d)
        && addr == Positional(Value(a, 10), Value(b, 10), Value(c, 10), Value(d, 10));
      DottedQuadRead(a, b, c, d);
    }
  }
}
