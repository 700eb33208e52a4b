/** Which texts `parse_ipv6` accepts, and what they mean. */
module Ipv6Forms {
  import opened ByteOrder
  import opened Options
  import opened Text
  import opened Ipv6

  // ---------------------------------------------------------------- groups

  lemma GroupRead(p: string)
    requires IsGroup(p)
    ensures ReadGroup(p) == Some(Value(p, 16))
  {
    ValueFits(p);
    assert Pow(16, 1) == 0x10 && Pow(16, 2) == 0x100;
    assert Pow(16, 3) == 0x1000 && Pow(16, 4) == 0x1_0000;
    FromCharsWhole(p, 16, 0xffff);
  }

  lemma GroupsRead(parts: seq<string>)
    requires AreGroups(parts)
    ensures Readable(parts) && forall i :: 0 <= i < |parts| ==> Values(parts)[i] == Value(parts[i], 16)
  {
    forall i | 0 <= i < |parts|
      ensures ReadGroup(parts[i]) == Some(Value(parts[i], 16))
    {
      GroupRead(parts[i]);
    }
  }

  /** For text that passed the character filter, being readable is being made of groups. */
  lemma ReadableAreGroups(parts: seq<string>)
    requires forall p :: p in parts ==> AllDigits(p, 16)
    ensures Readable(parts) <==> AreGroups(parts)
  {
    if AreGroups(parts) {
      GroupsRead(parts);
    } else {
      var p :| p in parts && !IsGroup(p);
      FromCharsWhole(p, 16, 0xffff);
      assert ReadGroup(p).None?;
    }
  }

  lemma GroupChars(p: string)
    requires IsGroup(p)
    ensures p != "" && ':' !in p && OnlyIpv6Chars(p)
  {
    forall c | c in p
      ensures c != ':' && IsIpv6Char(c)
    {
      assert IsDigit(c, 16);
    }
  }

  lemma GroupsAreFree(parts: seq<string>)
    requires AreGroups(parts)
    ensures Free(parts, ':') && parts != [""] && "" !in parts
  {
    forall p | p in parts
      ensures ':' !in p && p != ""
    {
      GroupChars(p);
    }
    assert parts != [] ==> parts[0] in parts;
  }

  lemma {:induction false} JoinedChars(parts: seq<string>)
    requires AreGroups(parts)
    ensures OnlyIpv6Chars(Join(parts, ':'))
  {
    if parts != [] {
      GroupChars(parts[0]);
      JoinedChars(parts[1..]);
    }
  }

  /** Joined groups neither start nor end with a colon. */
  lemma {:induction false} JoinedEnds(parts: seq<string>)
    requires AreGroups(parts) && parts != []
    ensures var s := Join(parts, ':'); s != "" && s[0] != ':' && s[|s| - 1] != ':'
  {
    var p := parts[0];
    GroupChars(p);
    assert p[0] in p && p[|p| - 1] in p;
    if |parts| > 1 {
      JoinedEnds(parts[1..]);
    }
  }

  lemma PiecesAreDigits(s: string)
    requires OnlyIpv6Chars(s)
    ensures forall p :: p in Segments(s, ':') ==> AllDigits(p, 16)
  {
    SegmentsAreFree(s, ':');
    JoinOfSegments(s, ':');
    forall p | p in Segments(s, ':')
      ensures AllDigits(p, 16)
    {
      forall c | c in p
        ensures IsDigit(c, 16)
      {
        PieceChars(Segments(s, ':'), ':', p, c);
        assert IsIpv6Char(c);
      }
    }
  }

  // ---------------------------------------------------------------- reading lists of pieces

  /** Section 2.2 of RFC 4291: `::` stands for the zero groups that make the address eight groups long. */
  function Expanded(head: seq<string>, tail: seq<string>): (r: seq<UInt16>)
    requires AreGroups(head) && AreGroups(tail) && |head| + |tail| <= 8
    ensures |r| == 8
  {
    GroupsRead(head);
    GroupsRead(tail);
    Values(head) + Zeros(8 - |head| - |tail|) + Values(tail)
  }

  /** Group by group: the head's values, zeros, the tail's values. */
  lemma ExpandedAt(head: seq<string>, tail: seq<string>, i: nat)
    requires AreGroups(head) && AreGroups(tail) && |head| + |tail| <= 8 && i < 8
    ensures Expanded(head, tail)[i] ==
            if i < |head| then Value(head[i], 16)
            else if i < 8 - |tail| then 0 else Value(tail[i + |tail| - 8], 16)
  {
    hide ReadGroup, Value, IsGroup;
    GroupsRead(head);
    GroupsRead(tail);
  }

  lemma NoEmptyHead(head: seq<string>, more: seq<string>, room: nat)
    requires AreGroups(head) && |head| <= room
    requires |head| == room || more == [] || more[0] == ""
    ensures Heads(head + more, room) == |head| && (head + more)[..|head|] == head && Readable(head)
  {
    GroupsRead(head);
    GroupsAreFree(head);
    HeadsReached(head + more, |head|, room);
  }

  lemma ReadHeadOnly(head: seq<string>, more: seq<string>)
    requires AreGroups(head) && |head| <= 8 && (|head| == 8 || more == [])
    ensures ReadSegments(head + more) == Some(Expanded(head, []))
  {
    hide Heads, Readable, ReadGroup, IsGroup;
    NoEmptyHead(head, more, 8);
    GroupsRead([]);
    assert Values(head) + Zeros(8 - |head|) + Values([]) == Values(head) + Zeros(8 - |head|);
  }

  lemma ReadHeadAndTail(head: seq<string>, tail: seq<string>)
    requires AreGroups(head) && |head| <= 7
    requires Readable(tail) <==> AreGroups(tail)
    ensures ReadSegments(head + ([""] + tail)) ==
            if AreGroups(tail) && |head| + |tail| <= 7 then Some(Expanded(head, tail)) else None
  {
    hide Heads, Readable, ReadGroup, AreGroups;
    var segments := head + ([""] + tail);
    NoEmptyHead(head, [""] + tail, 8);
    assert segments[|head| + 1..] == tail;
  }

  // ---------------------------------------------------------------- reading text

  lemma StartsNoColons(head: seq<string>, x: string)
    requires AreGroups(head) && head != []
    ensures var s := Join(head, ':') + x; s != "" && s[0] != ':'
  {
    JoinedEnds(head);
  }

  lemma {:induction false} EndsInEmptyPiece(x: string)
    requires x == "" || x[|x| - 1] == ':'
    ensures "" in Segments(x, ':')
  {
    if x != "" {
      assert x == x[..|x| - 1] + [':'] + "";
      SegmentsSplit(x[..|x| - 1], ':', "");
      assert Segments("", ':') == [""];
      var n := |Segments(x[..|x| - 1], ':')|;
      assert Segments(x, ':')[n] == "";
    }
  }

  lemma EmptyPieceIsNoGroup(parts: seq<string>)
    requires "" in parts
    ensures !AreGroups(parts) && !Readable(parts)
  {
    EmptyIsNoGroup();
    var i :| 0 <= i < |parts| && parts[i] == "";
    assert ReadGroup(parts[i]).None?;
  }

  /** The pieces of `head::x`, once the parser has taken away a colon at its front or end. */
  lemma PiecesOfCompressed(head: seq<string>, x: string) returns (y: string)
    requires AreGroups(head)
    ensures var s := Join(head, ':') + "::" + x;
            if head != [] && x == "" then Split(Stripped(s), ':') == head + ([""] + [])
            else Split(Stripped(s), ':') == head + ([""] + Segments(y, ':'))
    ensures y == x || (x != "" && x[|x| - 1] == ':' && y == x[..|x| - 1] && (y == "" || y[|y| - 1] == ':'))
    ensures OnlyIpv6Chars(x) ==> OnlyIpv6Chars(y)
  {
    var s := Join(head, ':') + "::" + x;
    y := x;
    if head == [] {
      assert s == "::" + x;
      assert Stripped(s) == "" + [':'] + x;
      SegmentsSplit("", ':', x);
    } else {
      StartsNoColons(head, "::" + x);
      assert s == Join(head, ':') + ("::" + x);
      GroupsAreFree(head);
      SegmentsOfJoin(head, ':');
      if x == "" {
        assert Stripped(s) == Join(head, ':') + [':'] + "";
        SegmentsSplit(Join(head, ':'), ':', "");
      } else {
        if s[|s| - 2] == ':' && s[|s| - 1] == ':' {
          y := x[..|x| - 1];
        }
        assert Stripped(s) == Join(head, ':') + [':'] + ("" + [':'] + y);
        SegmentsSplit(Join(head, ':'), ':', "" + [':'] + y);
        SegmentsSplit("", ':', y);
      }
    }
  }

  /** What `head::x` means to `parse_ipv6`, for every x, when fewer than eight groups precede the `::`:
      the RFC's expansion when x is a list of groups, together at most seven and not all absent, and
      otherwise nothing. In particular a second `::`, an empty group after the `::`, eight groups or
      more, and a bare `::` are rejected. */
  lemma ReadCompressed(head: seq<string>, x: string)
    requires AreGroups(head) && |head| <= 7
    ensures var tail := Split(x, ':');
            Read(Join(head, ':') + "::" + x) ==
            if AreGroups(tail) && 1 <= |head| + |tail| <= 7 then Some(Expanded(head, tail)) else None
  {
    var s := Join(head, ':') + "::" + x;
    var tail := Split(x, ':');
    hide Segments, Heads, Readable, ReadGroup, IsGroup, ReadSegments, Stripped, Join, Expanded;
    JoinedChars(head);
    JoinSplit(x, ':');
    if !OnlyIpv6Chars(x) {
      if AreGroups(tail) {
        JoinedChars(tail);
      }
      var c :| c in x && !IsIpv6Char(c);
      assert c in s;
    } else {
      assert OnlyIpv6Chars(s);
      var y := PiecesOfCompressed(head, x);
      if head != [] && x == "" {
        ReadableAreGroups([]);
        ReadHeadAndTail(head, []);
      } else {
        PiecesAreDigits(y);
        ReadableAreGroups(Segments(y, ':'));
        ReadHeadAndTail(head, Segments(y, ':'));
        if y != x {
          EndsInEmptyPiece(y);
          EmptyPieceIsNoGroup(Segments(y, ':'));
          EndsInEmptyPiece(x);
          EmptyPieceIsNoGroup(Segments(x, ':'));
        } else if x == "" {
          EndsInEmptyPiece(y);
          EmptyPieceIsNoGroup(Segments(y, ':'));
        }
      }
    }
  }

  lemma InnerPieceEmpty(a: string, b: string)
    ensures "" in Split(a + "::" + b, ':')
  {
    var x := a + "::" + b;
    assert x == a + [':'] + ("" + [':'] + b);
    SegmentsSplit(a, ':', "" + [':'] + b);
    SegmentsSplit("", ':', b);
    assert Segments("", ':') == [""];
    hide Segments;
    var n := |Segments(a, ':')|;
    assert Split(x, ':')[n] == "";
  }

  /** A second `::` is never accepted. */
  lemma TwoCompressionsRejected(head: seq<string>, a: string, b: string)
    requires AreGroups(head) && |head| <= 7
    ensures Read(Join(head, ':') + "::" + (a + "::" + b)) == None
  {
    hide Read, Split, Join;
    InnerPieceEmpty(a, b);
    EmptyPieceIsNoGroup(Split(a + "::" + b, ':'));
    ReadCompressed(head, a + "::" + b);
  }

  // ---------------------------------------------------------------- exactly what is accepted

  /** The forms of text `parse_ipv6` accepts: the RFC's `head::tail` without the bare `::`; the same with a
      single colon when one side is absent; up to eight groups without `::`, missing ones being zero at
      the end; and eight groups followed by a colon and any text of address characters, ignored. */
  datatype Form = Compressed | LeadingColon | TrailingColon | Plain | Ignoring(rest: string)

  predicate IsForm(form: Form, head: seq<string>, tail: seq<string>) {
    && AreGroups(head) && AreGroups(tail)
    && match form {
         case Compressed => 1 <= |head| + |tail| <= 7
         case LeadingColon => head == [] && 1 <= |tail| <= 7
         case TrailingColon => 1 <= |head| <= 7 && tail == []
         case Plain => |head| <= 8 && tail == []
         case Ignoring(rest) => |head| == 8 && tail == [] && OnlyIpv6Chars(rest)
       }
  }

  function Written(form: Form, head: seq<string>, tail: seq<string>): string {
    match form
    case Compressed => Join(head, ':') + "::" + Join(tail, ':')
    case LeadingColon => ":" + Join(tail, ':')
    case TrailingColon => Join(head, ':') + ":"
    case Plain => Join(head, ':')
    case Ignoring(rest) => Join(head, ':') + ":" + rest
  }

  ghost predicate Denotes(s: string, groups: seq<UInt16>) {
    exists form, head, tail ::
      IsForm(form, head, tail) && s == Written(form, head, tail) && groups == Expanded(head, tail)
  }

  lemma CompressedRead(head: seq<string>, tail: seq<string>)
    requires IsForm(Compressed, head, tail)
    ensures Read(Written(Compressed, head, tail)) == Some(Expanded(head, tail))
  {
    hide Read, Expanded, Join, Split;
    GroupsAreFree(tail);
    SplitJoin(tail, ':');
    ReadCompressed(head, Join(tail, ':'));
  }

  lemma LeadingColonRead(tail: seq<string>)
    requires IsForm(LeadingColon, [], tail)
    ensures Read(Written(LeadingColon, [], tail)) == Some(Expanded([], tail))
  {
    var s := ":" + Join(tail, ':');
    JoinedChars(tail);
    JoinedEnds(tail);
    GroupsAreFree(tail);
    GroupsRead(tail);
    JoinAfterEmpty(tail, ':');
    assert Stripped(s) == s;
    assert s == Join([""] + tail, ':');
    SplitJoin([""] + tail, ':');
    hide ReadSegments, Expanded, Join, Split;
    ReadHeadAndTail([], tail);
    assert [] + ([""] + tail) == [""] + tail;
  }

  lemma TrailingColonRead(head: seq<string>)
    requires IsForm(TrailingColon, head, [])
    ensures Read(Written(TrailingColon, head, [])) == Some(Expanded(head, []))
  {
    var s := Join(head, ':') + ":";
    JoinedChars(head);
    JoinedEnds(head);
    GroupsAreFree(head);
    GroupsRead([]);
    assert Stripped(s) == s;
    assert s == Join(head, ':') + [':'] + "";
    SegmentsOfJoin(head, ':');
    SegmentsSplit(Join(head, ':'), ':', "");
    assert Segments("", ':') == [""] + [];
    hide ReadSegments, Expanded, Join;
    ReadHeadAndTail(head, []);
  }

  lemma PlainRead(head: seq<string>)
    requires IsForm(Plain, head, [])
    ensures Read(Written(Plain, head, [])) == Some(Expanded(head, []))
  {
    var s := Join(head, ':');
    JoinedChars(head);
    GroupsAreFree(head);
    SplitJoin(head, ':');
    if head != [] {
      JoinedEnds(head);
    }
    assert Stripped(s) == s;
    hide ReadSegments, Expanded, Join, Split;
    ReadHeadOnly(head, []);
    assert head + [] == head;
  }

  lemma IgnoringRead(head: seq<string>, rest: string)
    requires IsForm(Ignoring(rest), head, [])
    ensures Read(Written(Ignoring(rest), head, [])) == Some(Expanded(head, []))
  {
    var s := Join(head, ':') + ":" + rest;
    JoinedChars(head);
    JoinedEnds(head);
    GroupsAreFree(head);
    SegmentsOfJoin(head, ':');
    var kept := rest;
    if rest != "" && s[|s| - 2] == ':' && s[|s| - 1] == ':' {
      kept := rest[..|rest| - 1];
    }
    assert Stripped(s) == Join(head, ':') + [':'] + kept;
    SegmentsSplit(Join(head, ':'), ':', kept);
    assert OnlyIpv6Chars(s);
    hide ReadSegments, Expanded, Join, Segments;
    ReadHeadOnly(head, Segments(kept, ':'));
  }

  lemma FormRead(form: Form, head: seq<string>, tail: seq<string>)
    requires IsForm(form, head, tail)
    ensures Read(Written(form, head, tail)) == Some(Expanded(head, tail))
  {
    hide Read, Expanded, Written, AreGroups;
    match form
    case Compressed => CompressedRead(head, tail);
    case LeadingColon => LeadingColonRead(tail);
    case TrailingColon => TrailingColonRead(head);
    case Plain => PlainRead(head);
    case Ignoring(rest) => IgnoringRead(head, rest);
  }

  lemma StrippedCases(s: string)
    ensures var t := Stripped(s);
            || s == t
            || (s == ":" + t && t != "" && t[0] == ':')
            || (s == t + ":" && t != "" && t[|t| - 1] == ':')
  {
  }

  /** A colon at either end makes an empty piece there. */
  lemma ColonAtEnd(t: string)
    requires t != ""
    ensures t[0] == ':' ==> Segments(t, ':')[0] == "" && |Segments(t, ':')| >= 2
    ensures t[|t| - 1] == ':' ==> var segments := Segments(t, ':'); segments[|segments| - 1] == ""
  {
    if t[|t| - 1] == ':' {
      assert t == t[..|t| - 1] + [':'] + "";
      SegmentsSplit(t[..|t| - 1], ':', "");
      assert Segments("", ':') == [""];
    }
  }

  lemma StrippedChars(s: string)
    requires OnlyIpv6Chars(s)
    ensures OnlyIpv6Chars(Stripped(s))
  {
  }

  lemma NothingJoined()
    ensures Join([], ':') == ""
  {
  }

  lemma ReadSegmentsFacts(segments: seq<string>)
    requires ReadSegments(segments).Some?
    ensures var k := Heads(segments, 8);
            && k <= 8 && k <= |segments| && Readable(segments[..k])
            && (k != 8 && k != |segments| ==> segments[k] == "" && Readable(segments[k + 1..]) && |segments| <= 8)
  {
    hide Readable, Values;
  }

  lemma PiecesWithoutTail(s: string) returns (head: seq<string>, more: seq<string>)
    requires Read(s).Some?
    requires var segments := Split(Stripped(s), ':'); var k := Heads(segments, 8); k == 8 || k == |segments|
    ensures AreGroups(head) && |head| <= 8 && (|head| == 8 || more == [])
    ensures Split(Stripped(s), ':') == head + more && OnlyIpv6Chars(s)
  {
    hide Segments, Stripped, ReadSegments, Readable, Heads, IsGroup;
    var t := Stripped(s);
    var segments := Split(t, ':');
    var k := Heads(segments, 8);
    ReadSegmentsFacts(segments);
    head, more := segments[..k], segments[k..];
    StrippedChars(s);
    PiecesAreDigits(t);
    ReadableAreGroups(head);
  }

  /** Groups at both ends leave no colon there. */
  lemma NoColonsAround(t: string, head: seq<string>)
    requires t != "" && head != [] && AreGroups(head) && head <= Segments(t, ':')
    ensures t[0] != ':' && (Segments(t, ':') == head ==> t[|t| - 1] != ':')
  {
    ColonAtEnd(t);
    GroupsAreFree(head);
    assert head[0] == Segments(t, ':')[0] && head[|head| - 1] in head && head[0] in head;
  }

  /** Text without a `::` among its first eight pieces. */
  lemma ReadWithoutTail(s: string) returns (form: Form, head: seq<string>)
    requires Read(s).Some?
    requires var segments := Split(Stripped(s), ':'); var k := Heads(segments, 8); k == 8 || k == |segments|
    ensures IsForm(form, head, []) && s == Written(form, head, []) && Read(s) == Some(Expanded(head, []))
  {
    hide Read, Stripped, Heads, Segments, Join, IsGroup, Expanded;
    var more;
    head, more := PiecesWithoutTail(s);
    var t := Stripped(s);
    StrippedCases(s);
    JoinSplit(t, ':');
    NothingJoined();
    if head != [] {
      NoColonsAround(t, head);
    }
    if more == [] {
      form := Plain;
      assert head + more == head;
    } else {
      JoinConcat(head, more, ':');
      var rest := if s == t then Join(more, ':') else Join(more, ':') + ":";
      form := Ignoring(rest);
      assert s == Join(head, ':') + ":" + rest;
    }
    FormRead(form, head, []);
  }

  lemma PiecesWithTail(s: string) returns (head: seq<string>, tail: seq<string>)
    requires Read(s).Some?
    requires var segments := Split(Stripped(s), ':'); var k := Heads(segments, 8); k != 8 && k != |segments|
    ensures AreGroups(head) && AreGroups(tail) && 1 <= |head| + |tail| <= 7
    ensures Split(Stripped(s), ':') == head + ([""] + tail)
  {
    hide Segments, Join, Stripped, ReadSegments, Readable, Heads, IsGroup, Free;
    var t := Stripped(s);
    var segments := Split(t, ':');
    var k := Heads(segments, 8);
    ReadSegmentsFacts(segments);
    head, tail := segments[..k], segments[k + 1..];
    StrippedChars(s);
    JoinSplit(t, ':');
    PiecesAreDigits(t);
    ReadableAreGroups(head);
    ReadableAreGroups(tail);
    assert segments == head + ([""] + tail);
    assert head == [] && tail == [] ==> segments == [""];
  }

  /** A colon was taken away only next to the empty piece. */
  lemma ColonsOfPieces(t: string, head: seq<string>, tail: seq<string>)
    requires t != "" && Segments(t, ':') == head + ([""] + tail) && AreGroups(head) && AreGroups(tail)
    ensures t[0] == ':' ==> head == []
    ensures t[|t| - 1] == ':' ==> tail == []
  {
    ColonAtEnd(t);
    hide Segments, IsGroup;
    GroupsAreFree(head);
    GroupsAreFree(tail);
    var segments := head + ([""] + tail);
    assert head != [] ==> segments[0] == head[0];
    assert tail != [] ==> segments[|segments| - 1] == tail[|tail| - 1];
  }

  /** Text with one. */
  lemma ReadWithTail(s: string) returns (form: Form, head: seq<string>, tail: seq<string>)
    requires Read(s).Some?
    requires var segments := Split(Stripped(s), ':'); var k := Heads(segments, 8); k != 8 && k != |segments|
    ensures IsForm(form, head, tail) && s == Written(form, head, tail) && Read(s) == Some(Expanded(head, tail))
  {
    hide Read, Stripped, Heads, Segments, Join, IsGroup, Expanded;
    head, tail := PiecesWithTail(s);
    var t := Stripped(s);
    StrippedCases(s);
    JoinSplit(t, ':');
    JoinedAroundEmpty(head, tail);
    ColonsOfPieces(t, head, tail);
    form := if s == t && head == [] then LeadingColon else if s == t && tail == [] then TrailingColon else Compressed;
    NothingJoined();
    FormRead(form, head, tail);
  }

  lemma JoinedAroundEmpty(head: seq<string>, tail: seq<string>)
    ensures Join(head + ([""] + tail), ':') ==
            (if head == [] then "" else Join(head, ':') + ":") + (if tail == [] then "" else ":" + Join(tail, ':'))
  {
    if tail != [] {
      JoinAfterEmpty(tail, ':');
    } else {
      assert [""] + tail == [""];
    }
    if head == [] {
      assert head + ([""] + tail) == [""] + tail;
    } else {
      JoinConcat(head, [""] + tail, ':');
    }
  }

  /** `parse_ipv6` yields these groups exactly for the texts of one of the forms that denote them. */
  lemma ReadExactly(s: string, groups: seq<UInt16>)
    ensures Read(s) == Some(groups) <==> Denotes(s, groups)
  {
    hide Read, Expanded, Written, IsGroup, Stripped, Heads, Split;
    if Read(s) == Some(groups) {
      var segments := Split(Stripped(s), ':');
      var k := Heads(segments, 8);
      var form, head, tail;
      if k == 8 || k == |segments| {
        form, head := ReadWithoutTail(s);
        tail := [];
      } else {
        form, head, tail := ReadWithTail(s);
      }
      assert IsForm(form, head, tail) && s == Written(form, head, tail);
    }
    if Denotes(s, groups) {
      var form, head, tail :|
        IsForm(form, head, tail) && s == Written(form, head, tail) && groups == Expanded(head, tail);
      FormRead(form, head, tail);
    }
  }
}
