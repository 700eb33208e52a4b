/** Socket addresses: made from text, and printed. */
module Address {
  import opened ByteOrder
  import opened Options
  import opened Text
  import Ipv4
  import Ipv6
  import Ipv6Forms

  type Groups = g: seq<UInt16> | |g| == 8 witness [0, 0, 0, 0, 0, 0, 0, 0]

  /** `sockaddr_in` and `sockaddr_in6`; port, address and groups are in network order. */
  datatype Address =
    | V4(port: UInt16, addr: UInt32)
    | V6(port: UInt16, flowinfo: UInt32, groups: Groups, scope: UInt32)

  datatype Outcome = Ok(address: Address) | InvalidAddress

  /** What `address::from` yields. */
  function Parsed(hostname: string, port: UInt16): Outcome {
    var ipv4 := Ipv4.Read(hostname);
    var ipv6 := Ipv6.Read(hostname);
    if ipv4.Some? then Ok(V4(Htons(port), Htonl(ipv4.value)))
    else if ipv6.Some? then Ok(V6(Htons(port), 0, Ipv6.AllHtons(ipv6.value), 0))
    else InvalidAddress
  }

  method From(hostname: string, port: UInt16) returns (r: Outcome)
    ensures r == Parsed(hostname, port)
  {
    var ipv4 := Ipv4.ParseIpv4(hostname);
    if ipv4.Some? {
      return Ok(V4(Htons(port), Htonl(ipv4.value)));
    }
    var ipv6 := Ipv6.ParseIpv6(hostname);
    if ipv6.Some? {
      return Ok(V6(Htons(port), 0, ipv6.value, 0));
    }
    return InvalidAddress;
  }

  // ---------------------------------------------------------------- the two families do not overlap

  /** No text is an address of both families, so the order in which `from` tries them does not matter. */
  lemma FamiliesDisjoint(s: string)
    ensures !(Ipv4.Read(s).Some? && Ipv6.Read(s).Some?)
  {
    hide Ipv4.Read, Ipv4.IsOctet, Ipv4.Dotted;
    if Ipv4.Read(s).Some? {
      var a, b, c, d := Ipv4.ReadIsDottedQuad(s);
      DottedHasDot(a, b, c, d);
    }
  }

  lemma DottedHasDot(a: string, b: string, c: string, d: string)
    ensures '.' in Ipv4.Dotted(a, b, c, d)
  {
    assert Ipv4.Dotted(a, b, c, d) == a + ("." + (b + "." + c + "." + d));
  }

  // ---------------------------------------------------------------- what is accepted, and what it becomes

  lemma ReadEither(hostname: string)
    ensures Ipv4.Read(hostname).Some? ==> Ipv4.IsDottedQuad(hostname, Ipv4.Read(hostname).value)
    ensures Ipv6.Read(hostname).Some? ==> Ipv6Forms.Denotes(hostname, Ipv6.Read(hostname).value)
    ensures forall v: UInt32 :: Ipv4.IsDottedQuad(hostname, v) ==> Ipv4.Read(hostname) == Some(v)
    ensures forall g: seq<UInt16> :: Ipv6Forms.Denotes(hostname, g) ==> Ipv6.Read(hostname) == Some(g)
  {
    hide Ipv4.Read, Ipv6.Read, Ipv4.IsDottedQuad, Ipv6Forms.Denotes;
    if Ipv4.Read(hostname).Some? {
      Ipv4.ReadExactly(hostname, Ipv4.Read(hostname).value);
    }
    if Ipv6.Read(hostname).Some? {
      Ipv6Forms.ReadExactly(hostname, Ipv6.Read(hostname).value);
    }
    forall v: UInt32 | Ipv4.IsDottedQuad(hostname, v)
      ensures Ipv4.Read(hostname) == Some(v)
    {
      Ipv4.ReadExactly(hostname, v);
    }
    forall g: seq<UInt16> | Ipv6Forms.Denotes(hostname, g)
      ensures Ipv6.Read(hostname) == Some(g)
    {
      Ipv6Forms.ReadExactly(hostname, g);
    }
  }

  /** `from` fails exactly for text that is neither four octets joined by dots nor of one of the forms of
      IPv6 text. */
  lemma InvalidExactly(hostname: string, port: UInt16)
    ensures Parsed(hostname, port) == InvalidAddress <==>
            (forall v: UInt32 :: !Ipv4.IsDottedQuad(hostname, v)) &&
            (forall g: seq<UInt16> :: !Ipv6Forms.Denotes(hostname, g))
  {
    hide Ipv4.Read, Ipv6.Read, Ipv4.IsDottedQuad, Ipv6Forms.Denotes, Htons, Htonl, Ipv6.AllHtons;
    ReadEither(hostname);
  }

  /** Four octets joined by dots, of these values. */
  ghost predicate IsQuadOf(hostname: string, values: seq<nat>) {
    exists o1, o2, o3, o4 ::
      && hostname == o1 + "." + o2 + "." + o3 + "." + o4
      && Ipv4.IsOctet(o1) && Ipv4.IsOctet(o2) && Ipv4.IsOctet(o3) && Ipv4.IsOctet(o4)
      && values == [Value(o1, 10), Value(o2, 10), Value(o3, 10), Value(o4, 10)]
  }

  lemma QuadInMemory(hostname: string, v: UInt32)
    requires Ipv4.IsDottedQuad(hostname, v)
    ensures IsQuadOf(hostname, ToBytes(Htonl(v), 4))
  {
    hide ToBytes, Htonl, Value, Ipv4.Positional, Ipv4.IsOctet;
    var o1, o2, o3, o4 :|
      && hostname == Ipv4.Dotted(o1, o2, o3, o4)
      && Ipv4.IsOctet(o1) && Ipv4.IsOctet(o2) && Ipv4.IsOctet(o3) && Ipv4.IsOctet(o4)
      && v == Ipv4.Positional(Value(o1, 10), Value(o2, 10), Value(o3, 10), Value(o4, 10));
    OctetIsByte(o1);
    OctetIsByte(o2);
    OctetIsByte(o3);
    OctetIsByte(o4);
    var v' := Ipv4.PositionalBytes(Value(o1, 10), Value(o2, 10), Value(o3, 10), Value(o4, 10));
    FourBytesInMemory(v);
  }

  lemma OctetIsByte(o: string)
    requires Ipv4.IsOctet(o)
    ensures Value(o, 10) < 256
  {
  }

  lemma MemoryOfQuad(hostname: string, values: seq<nat>) returns (v: UInt32)
    requires IsQuadOf(hostname, values)
    ensures Ipv4.IsDottedQuad(hostname, v) && ToBytes(Htonl(v), 4) == values
  {
    hide ToBytes, Htonl, Value, Ipv4.Positional, Ipv4.IsOctet;
    var o1, o2, o3, o4 :|
      && hostname == o1 + "." + o2 + "." + o3 + "." + o4
      && Ipv4.IsOctet(o1) && Ipv4.IsOctet(o2) && Ipv4.IsOctet(o3) && Ipv4.IsOctet(o4)
      && values == [Value(o1, 10), Value(o2, 10), Value(o3, 10), Value(o4, 10)];
    OctetIsByte(o1);
    OctetIsByte(o2);
    OctetIsByte(o3);
    OctetIsByte(o4);
    v := Ipv4.PositionalBytes(Value(o1, 10), Value(o2, 10), Value(o3, 10), Value(o4, 10));
    assert hostname == Ipv4.Dotted(o1, o2, o3, o4);
    FourBytesInMemory(v);
  }

  /** It yields an IPv4 address exactly for the former, with these bytes in memory: the port's most
      significant first, then the octets as written. */
  lemma V4Exactly(hostname: string, port: UInt16, a: Address)
    requires a.V4?
    ensures Parsed(hostname, port) == Ok(a) <==>
            ToBytes(a.port, 2) == [port / 256, port % 256] && IsQuadOf(hostname, ToBytes(a.addr, 4))
  {
    hide Ipv4.Read, Ipv6.Read, Ipv4.IsDottedQuad, Ipv6Forms.Denotes, Htons, Htonl, Ipv6.AllHtons, ToBytes, IsQuadOf;
    ReadEither(hostname);
    PortInMemory(a.port, port);
    if Ipv4.Read(hostname).Some? {
      QuadInMemory(hostname, Ipv4.Read(hostname).value);
    }
    if IsQuadOf(hostname, ToBytes(a.addr, 4)) {
      var v := MemoryOfQuad(hostname, ToBytes(a.addr, 4));
      SameBytes(a.addr, Htonl(v), 4);
    }
  }

  /** An IPv6 address exactly for the latter, each group with its most significant byte first, and flow
      information and scope zero. */
  lemma V6Exactly(hostname: string, port: UInt16, a: Address)
    requires a.V6?
    ensures Parsed(hostname, port) == Ok(a) <==>
            ToBytes(a.port, 2) == [port / 256, port % 256] && a.flowinfo == 0 && a.scope == 0 &&
            exists g: Groups :: Ipv6Forms.Denotes(hostname, g) &&
              forall i :: 0 <= i < 8 ==> ToBytes(a.groups[i], 2) == [g[i] / 256, g[i] % 256]
  {
    hide Ipv4.Read, Ipv6.Read, Ipv4.IsDottedQuad, Ipv6Forms.Denotes, Htons, Htonl, ToBytes;
    ReadEither(hostname);
    FamiliesDisjoint(hostname);
    PortInMemory(a.port, port);
    forall g: Groups
      ensures a.groups == Ipv6.AllHtons(g) <==>
              forall i :: 0 <= i < 8 ==> ToBytes(a.groups[i], 2) == [g[i] / 256, g[i] % 256]
    {
      forall i | 0 <= i < 8
        ensures a.groups[i] == Htons(g[i]) <==> ToBytes(a.groups[i], 2) == [g[i] / 256, g[i] % 256]
      {
        PortInMemory(a.groups[i], g[i]);
      }
    }
  }

  lemma SameBytes(m: nat, n: nat, width: nat)
    requires m < Limit(width) && n < Limit(width)
    ensures m == n <==> ToBytes(m, width) == ToBytes(n, width)
  {
    NumberRestored(m, width);
    NumberRestored(n, width);
  }

  lemma PortInMemory(stored: UInt16, n: UInt16)
    ensures stored == Htons(n) <==> ToBytes(stored, 2) == [n / 256, n % 256]
  {
    Limits();
    TwoBytes(n);
    SwappedInMemory(n, 2);
    SameBytes(stored, Htons(n), 2);
  }

  // ---------------------------------------------------------------- printing

  function PrintedGroups(groups: seq<UInt16>): (r: seq<string>)
    ensures |r| == |groups| && forall i :: 0 <= i < |groups| ==> r[i] == Print(Ntohs(groups[i]), 16)
  {
    seq(|groups|, i requires 0 <= i < |groups| => Print(Ntohs(groups[i]), 16))
  }

  /** The host part of the printed form: the bytes of the address in memory order in decimal, or the
      groups in host order in hexadecimal. */
  function HostPart(a: Address): string {
    match a
    case V4(_, addr) =>
      var numbers := ToBytes(addr, 4);
      Ipv4.Dotted(Print(numbers[0], 10), Print(numbers[1], 10), Print(numbers[2], 10), Print(numbers[3], 10))
    case V6(_, _, groups, _) => Join(PrintedGroups(groups), ':')
  }

  /** `expr`: `host:port`, with brackets around an IPv6 host. */
  function Printed(a: Address): string {
    var port := Print(Ntohs(a.port), 10);
    if a.V4? then HostPart(a) + ":" + port else "[" + HostPart(a) + "]:" + port
  }

  /** The eight fields of the format string, with the colons between them. */
  function WithColons(p: seq<string>): string
    requires |p| == 8
  {
    p[0] + ":" + (p[1] + ":" + (p[2] + ":" + (p[3] + ":" + (p[4] + ":" + (p[5] + ":" + (p[6] + ":" + p[7]))))))
  }

  lemma {:induction false} EightJoined(p: seq<string>)
    requires |p| == 8
    ensures Join(p, ':') == WithColons(p)
  {
    forall i | 0 <= i < 7
      ensures Join(p[i..], ':') == p[i] + ":" + Join(p[i + 1..], ':')
    {
      assert p[i..][1..] == p[i + 1..];
    }
    assert p[0..] == p && Join(p[7..], ':') == p[7];
  }

  method Expr(a: Address) returns (s: string)
    ensures s == Printed(a)
  {
    match a
    case V4(port, addr) =>
      var numbers := ToBytes(addr, 4);
      s := Print(numbers[0], 10) + "." + Print(numbers[1], 10) + "." + Print(numbers[2], 10) + "." +
           Print(numbers[3], 10) + ":" + Print(Ntohs(port), 10);
    case V6(port, _, groups, _) =>
      var numbers := new UInt16[8](i requires 0 <= i < 8 => groups[i]);
      for i := 0 to 8
        invariant forall j :: 0 <= j < i ==> numbers[j] == Ntohs(groups[j])
        invariant forall j :: i <= j < 8 ==> numbers[j] == groups[j]
      {
        numbers[i] := Ntohs(numbers[i]);
      }
      ghost var p := PrintedGroups(groups);
      EightJoined(p);
      var fields := seq(8, i requires 0 <= i < 8 reads numbers => Print(numbers[i], 16));
      assert fields == p;
      var host := WithColons(fields);
      s := "[" + host + "]:" + Print(Ntohs(port), 10);
  }

  // ---------------------------------------------------------------- printing and parsing undo each other

  lemma OctetPrinted(n: Byte)
    ensures Ipv4.IsOctet(Print(n, 10)) && Value(Print(n, 10), 10) == n
  {
    PrintValue(n, 10);
  }

  lemma V4Restored(a: Address)
    requires a.V4?
    ensures Parsed(HostPart(a), Ntohs(a.port)) == Ok(a)
  {
    hide Print, Value, Ipv4.Read, Ipv4.Dotted, Swapped, Ipv4.IsOctet;
    var n := ToBytes(a.addr, 4);
    OctetPrinted(n[0]);
    OctetPrinted(n[1]);
    OctetPrinted(n[2]);
    OctetPrinted(n[3]);
    Ipv4.DottedQuadRead(Print(n[0], 10), Print(n[1], 10), Print(n[2], 10), Print(n[3], 10));
    AddressRestored(a.addr);
    NetworkOrderCancels(a.port);
  }

  lemma AddressRestored(addr: UInt32)
    ensures var n := ToBytes(addr, 4);
            var v := Ipv4.Positional(n[0], n[1], n[2], n[3]); v < 0x1_0000_0000 && Htonl(v) == addr
  {
    hide ToBytes, FromBytes, Ipv4.Positional;
    Limits();
    var n := ToBytes(addr, 4);
    var m := [n[3], n[2], n[1], n[0]];
    Ipv4.FourBytes(m);
    BytesRestored(m);
    assert Reversed(m) == n;
    NumberRestored(addr, 4);
  }

  lemma GroupPrinted(n: UInt16)
    ensures Ipv6.IsGroup(Print(n, 16)) && Ipv6.ReadGroup(Print(n, 16)) == Some(n)
  {
    assert Pow(16, 2) == 0x100;
    assert Pow(16, 4) == 0x1_0000;
    PrintValue(n, 16);
    PrintLength(n, 4);
    Ipv6Forms.GroupRead(Print(n, 16));
  }

  lemma V6Restored(a: Address)
    requires a.V6?
    ensures Parsed(HostPart(a), Ntohs(a.port)) == Ok(a.(flowinfo := 0, scope := 0))
  {
    hide Print, Ipv6.Read, Ipv4.Read, Swapped, Ipv6.ReadGroup, Ipv6.IsGroup, Join;
    var p := PrintedGroups(a.groups);
    forall i | 0 <= i < 8
      ensures Ipv6.IsGroup(p[i]) && Ipv6.ReadGroup(p[i]) == Some(Ntohs(a.groups[i]))
      ensures Htons(Ntohs(a.groups[i])) == a.groups[i]
    {
      GroupPrinted(Ntohs(a.groups[i]));
      NetworkOrderCancels(a.groups[i]);
    }
    Ipv6Forms.PlainRead(p);
    FamiliesDisjoint(HostPart(a));
    Ipv6Forms.GroupsRead([]);
    var groups := Ipv6Forms.Expanded(p, []);
    assert Ipv6.AllHtons(groups) == a.groups;
    NetworkOrderCancels(a.port);
  }

  /** An address survives printing its host part and parsing it back with the same port exactly when it
      has none of the two IPv6 fields that are not printed. */
  lemma HostPartRestoresAddress(a: Address)
    ensures Parsed(HostPart(a), Ntohs(a.port)) == Ok(a) <==> (a.V6? ==> a.flowinfo == 0 && a.scope == 0)
  {
    hide Parsed, HostPart, Swapped;
    if a.V4? {
      V4Restored(a);
    } else {
      V6Restored(a);
    }
  }

  /** The address without what is not printed. */
  function Visible(a: Address): Address {
    if a.V4? then a else a.(flowinfo := 0, scope := 0)
  }

  lemma PortPrinted(n: UInt16)
    ensures var p := Print(n, 10); ':' !in p && ']' !in p && Value(p, 10) == n
  {
    PrintValue(n, 10);
    assert forall c :: c in Print(n, 10) ==> IsDigit(c, 10);
  }

  lemma HostChars(a: Address)
    ensures a.V4? ==> HostPart(a) != "" && Ipv4.OnlyIpv4Chars(HostPart(a))
    ensures a.V6? ==> Ipv6.OnlyIpv6Chars(HostPart(a))
  {
    hide HostPart, Htons, Htonl, Ntohs, Ipv6.ReadSegments, Ipv6.Stripped, Ipv4.ReadFour, Ipv4.ReadOctet;
    if a.V4? {
      V4Restored(a);
    } else {
      V6Restored(a);
    }
  }

  /** The host and the port can be told apart in the printed form. */
  lemma PrintedPieces(a: Address)
    ensures var port := Print(Ntohs(a.port), 10);
            if a.V4? then Printed(a) != "" && Printed(a)[0] != '[' && Segments(Printed(a), ':') == [HostPart(a), port]
            else Printed(a)[0] == '[' && Segments(Printed(a), ']') == ["[" + HostPart(a), ":" + port]
  {
    hide HostPart, Print, Ntohs, Segments;
    var port := Print(Ntohs(a.port), 10);
    HostChars(a);
    PortPrinted(Ntohs(a.port));
    if a.V4? {
      assert ':' !in HostPart(a);
      assert Printed(a) == HostPart(a) + [':'] + port;
      SegmentsSplit(HostPart(a), ':', port);
      SegmentsOfFree(HostPart(a), ':');
      SegmentsOfFree(port, ':');
    } else {
      assert ']' !in "[" + HostPart(a);
      assert Printed(a) == "[" + HostPart(a) + [']'] + (":" + port);
      SegmentsSplit("[" + HostPart(a), ']', ":" + port);
      SegmentsOfFree("[" + HostPart(a), ']');
      SegmentsOfFree(":" + port, ']');
    }
  }

  /** An IPv4 address prints as its octets in decimal, most significant first, a colon and the port. */
  lemma V4Prints(port: UInt16, v: UInt32)
    ensures Printed(V4(Htons(port), Htonl(v))) ==
            Print(v / 0x100_0000, 10) + "." + Print(v / 0x1_0000 % 256, 10) + "." + Print(v / 256 % 256, 10) + "." +
            Print(v % 256, 10) + ":" + Print(port, 10)
  {
    hide Print, ToBytes, Htonl, Htons, Ntohs;
    FourBytesInMemory(v);
    NetworkOrderCancels(port);
  }

  /** An IPv6 address prints as its eight groups in hexadecimal, joined by colons, in brackets, a colon and
      the port; flow information and scope do not appear. */
  lemma V6Prints(port: UInt16, flowinfo: UInt32, g: Groups, scope: UInt32)
    ensures Printed(V6(Htons(port), flowinfo, Ipv6.AllHtons(g), scope)) ==
            "[" + Join([Print(g[0], 16), Print(g[1], 16), Print(g[2], 16), Print(g[3], 16), Print(g[4], 16),
                        Print(g[5], 16), Print(g[6], 16), Print(g[7], 16)], ':') + "]:" + Print(port, 10)
  {
    hide Print, Htons, Ntohs, Join;
    NetworkOrderCancels(port);
    forall i | 0 <= i < 8
      ensures Ntohs(Htons(g[i])) == g[i]
    {
      NetworkOrderCancels(g[i]);
    }
    assert PrintedGroups(Ipv6.AllHtons(g)) ==
           [Print(g[0], 16), Print(g[1], 16), Print(g[2], 16), Print(g[3], 16), Print(g[4], 16), Print(g[5], 16),
            Print(g[6], 16), Print(g[7], 16)];
  }

  /** Two addresses print alike exactly when they differ in nothing but unprinted fields. */
  lemma PrintedAlike(a: Address, b: Address)
    ensures Printed(a) == Printed(b) <==> Visible(a) == Visible(b)
  {
    hide Print, Ntohs, Htons, Parsed, Value, Segments;
    if Printed(a) == Printed(b) {
      PrintedPieces(a);
      PrintedPieces(b);
      PortPrinted(Ntohs(a.port));
      PortPrinted(Ntohs(b.port));
      hide HostPart, Printed;
      if a.V6? {
        assert ("[" + HostPart(a))[1..] == HostPart(a) &&
               (":" + Print(Ntohs(a.port), 10))[1..] == Print(Ntohs(a.port), 10);
        assert ("[" + HostPart(b))[1..] == HostPart(b) &&
               (":" + Print(Ntohs(b.port), 10))[1..] == Print(Ntohs(b.port), 10);
        V6Restored(a);
        V6Restored(b);
      } else {
        V4Restored(a);
        V4Restored(b);
      }
    }
  }
}
