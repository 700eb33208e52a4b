/** Colon-separated addresses, with `::` expansion (section 2.2 of RFC 4291). */
module Ipv6 {
  import opened ByteOrder
  import opened Options
  import opened Text

  predicate IsIpv6Char(c: char) {
    '0' <= c <= '9' || 'a' <= c <= 'f' || 'A' <= c <= 'F' || c == ':'
  }

  predicate OnlyIpv6Chars(s: string) {
    forall c :: c in s ==> IsIpv6Char(c)
  }

  /** One to four hexadecimal digits, in either case. */
  predicate IsGroup(s: string) {
    1 <= |s| <= 4 && AllDigits(s, 16)
  }

  predicate AreGroups(parts: seq<string>) {
    forall p :: p in parts ==> IsGroup(p)
  }

  function Zeros(n: nat): (r: seq<UInt16>)
    ensures |r| == n && forall i :: 0 <= i < n ==> r[i] == 0
  {
    seq(n, i => 0)
  }

  // ---------------------------------------------------------------- what the parser computes

  /** One colon of a leading or else of a trailing `::` goes away. */
  function Stripped(s: string): string {
    if |s| >= 2 && s[0] == ':' && s[1] == ':' then s[1..]
    else if |s| >= 2 && s[|s| - 2] == ':' && s[|s| - 1] == ':' then s[..|s| - 1]
    else s
  }

  function ReadGroup(s: string): Option<UInt16> {
    if |s| > 4 then None else FromChars(s, 16, 0xffff)
  }

  predicate Readable(parts: seq<string>) {
    forall i :: 0 <= i < |parts| ==> ReadGroup(parts[i]).Some?
  }

  function Values(parts: seq<string>): (r: seq<UInt16>)
    requires Readable(parts)
    ensures |r| == |parts| && forall i :: 0 <= i < |parts| ==> Some(r[i]) == ReadGroup(parts[i])
  {
    seq(|parts|, i requires 0 <= i < |parts| => ReadGroup(parts[i]).value)
  }

  /** How many pieces come before an empty one, the end, or the ninth. */
  function Heads(segments: seq<string>, room: nat): (k: nat)
    ensures k <= room && k <= |segments| && forall i :: 0 <= i < k ==> segments[i] != ""
    ensures k < room && k < |segments| ==> segments[k] == ""
  {
    if room == 0 || segments == [] || segments[0] == "" then 0 else 1 + Heads(segments[1..], room - 1)
  }

  function ReadSegments(segments: seq<string>): (r: Option<seq<UInt16>>)
    ensures r.Some? ==> |r.value| == 8
  {
    var k := Heads(segments, 8);
    var head := segments[..k];
    if !Readable(head) then None
    else if k == 8 || k == |segments| then Some(Values(head) + Zeros(8 - k))
    else
      var tail := segments[k + 1..];
      if Readable(tail) && |segments| <= 8 then Some(Values(head) + Zeros(9 - |segments|) + Values(tail)) else None
  }

  /** The eight groups `parse_ipv6` finds, most significant first, before they go to network order. */
  function Read(hostname: string): (r: Option<seq<UInt16>>)
    ensures r.Some? ==> |r.value| == 8
  {
    if OnlyIpv6Chars(hostname) then ReadSegments(Split(Stripped(hostname), ':')) else None
  }

  function AllHtons(groups: seq<UInt16>): (r: seq<UInt16>)
    ensures |r| == |groups| && forall i :: 0 <= i < |groups| ==> r[i] == Htons(groups[i])
  {
    seq(|groups|, i requires 0 <= i < |groups| => Htons(groups[i]))
  }

  // ---------------------------------------------------------------- the parser

  lemma {:induction false} HeadsReached(segments: seq<string>, k: nat, room: nat)
    requires k <= |segments| && k <= room && forall i :: 0 <= i < k ==> segments[i] != ""
    requires k == room || k == |segments| || segments[k] == ""
    ensures Heads(segments, room) == k
  {
    if k > 0 {
      HeadsReached(segments[1..], k - 1, room - 1);
    }
  }

  lemma {:induction false} HeadsAtLeast(segments: seq<string>, k: nat, room: nat)
    requires k <= |segments| && k <= room && forall i :: 0 <= i < k ==> segments[i] != ""
    ensures Heads(segments, room) >= k
  {
    if k > 0 {
      HeadsAtLeast(segments[1..], k - 1, room - 1);
    }
  }

  lemma UnreadableHead(segments: seq<string>, i: nat)
    requires i < 8 && i < |segments| && forall j :: 0 <= j <= i ==> segments[j] != ""
    requires ReadGroup(segments[i]).None?
    ensures ReadSegments(segments) == None
  {
    HeadsAtLeast(segments, i + 1, 8);
    var head := segments[..Heads(segments, 8)];
    assert head[i] == segments[i];
  }

  lemma UnreadableTail(segments: seq<string>, k: nat, i: nat)
    requires k < i < |segments| && k < 8 && Heads(segments, 8) == k
    requires ReadGroup(segments[i]).None?
    ensures ReadSegments(segments) == None
  {
    assert segments[k + 1..][i - k - 1] == segments[i];
  }

  lemma ValuesAre(parts: seq<string>, values: seq<UInt16>)
    requires |values| == |parts| && forall i :: 0 <= i < |parts| ==> ReadGroup(parts[i]) == Some(values[i])
    ensures Readable(parts) && Values(parts) == values
  {
    hide ReadGroup;
  }

  lemma HeadOnly(segments: seq<string>, front: seq<UInt16>)
    requires Heads(segments, 8) == |front| && (|front| == 8 || |front| == |segments|)
    requires forall j :: 0 <= j < |front| ==> ReadGroup(segments[j]) == Some(front[j])
    ensures ReadSegments(segments) == Some(front + Zeros(8 - |front|))
  {
    hide ReadGroup, Heads;
    ValuesAre(segments[..|front|], front);
  }

  lemma HeadAndTail(segments: seq<string>, front: seq<UInt16>, back: seq<UInt16>)
    requires Heads(segments, 8) == |front| && |segments| == |front| + 1 + |back| <= 8
    requires forall j :: 0 <= j < |front| ==> ReadGroup(segments[j]) == Some(front[j])
    requires forall j :: 0 <= j < |back| ==> ReadGroup(segments[|front| + 1 + j]) == Some(back[j])
    ensures ReadSegments(segments) == Some(front + Zeros(9 - |segments|) + back)
  {
    hide ReadGroup, Heads;
    ValuesAre(segments[..|front|], front);
    ValuesAre(segments[|front| + 1..], back);
  }

  lemma TooMany(segments: seq<string>, k: nat)
    requires k < 8 < |segments| && Heads(segments, 8) == k
    ensures ReadSegments(segments) == None
  {
  }

  /** The first loop: the pieces up to an empty one, the end, or the ninth go to the front of `addr`. */
  method ReadHead(segments: seq<string>, addr: array<UInt16>) returns (ok: bool, at: nat)
    requires addr.Length == 8 && forall j :: 0 <= j < 8 ==> addr[j] == 0
    modifies addr
    ensures !ok ==> ReadSegments(segments) == None
    ensures ok ==> at <= 8 && at <= |segments| && at == Heads(segments, 8)
    ensures ok ==> forall j :: 0 <= j < at ==> ReadGroup(segments[j]) == Some(addr[j])
    ensures ok ==> forall j :: at <= j < 8 ==> addr[j] == 0
  {
    hide ReadSegments, ReadGroup, Heads;
    ok, at := false, 0;
    while at != 8 && at != |segments|
      invariant at <= 8 && at <= |segments|
      invariant forall j :: 0 <= j < at ==> segments[j] != "" && ReadGroup(segments[j]) == Some(addr[j])
      invariant forall j :: at <= j < 8 ==> addr[j] == 0
      decreases |segments| - at
    {
      if segments[at] == "" {
        break;
      }
      var group := ReadGroup(segments[at]);
      if group.None? {
        UnreadableHead(segments, at);
        return;
      }
      addr[at] := group.value;
      at := at + 1;
    }
    HeadsReached(segments, at, 8);
    ok := true;
  }

  /** The second loop: the pieces after the empty one at k go to `tail`. */
  method ReadTail(segments: seq<string>, k: nat, tail: array<UInt16>) returns (ok: bool, at: nat)
    requires tail.Length == 8 && k < 8 && k < |segments| && Heads(segments, 8) == k
    modifies tail
    ensures !ok ==> ReadSegments(segments) == None
    ensures ok ==> at <= 8 && k + 1 + at <= |segments| && (at < 8 ==> k + 1 + at == |segments|)
    ensures ok ==> forall j :: 0 <= j < at ==> ReadGroup(segments[k + 1 + j]) == Some(tail[j])
  {
    hide ReadSegments, ReadGroup, Heads;
    ok, at := false, 0;
    var it := k + 1;
    while at != 8 && it != |segments|
      invariant it == k + 1 + at && at <= 8 && it <= |segments|
      invariant forall j :: 0 <= j < at ==> ReadGroup(segments[k + 1 + j]) == Some(tail[j])
      decreases |segments| - it
    {
      var group := ReadGroup(segments[it]);
      if segments[it] == "" || group.None? {
        EmptyIsNoGroup();
        UnreadableTail(segments, k, it);
        return;
      }
      tail[at] := group.value;
      it, at := it + 1, at + 1;
    }
    ok := true;
  }

  /** The copy of the groups after `::` to the end of the address. */
  method PlaceTail(addr: array<UInt16>, at: nat, tail: array<UInt16>, count: nat)
    requires addr.Length == 8 && tail.Length == 8 && addr != tail && at + count == 8
    modifies addr
    ensures addr[..] == old(addr[..at]) + tail[..count]
  {
    for j := 0 to count
      invariant addr[..at] == old(addr[..at]) && addr[at..at + j] == tail[..j]
    {
      addr[at + j] := tail[j];
    }
    assert addr[..] == addr[..at] + addr[at..at + count];
  }

  /** All pieces: groups up to an empty piece go to the front of `addr`, those after it to its end. */
  method ReadPieces(segments: seq<string>) returns (ok: bool, addr: array<UInt16>)
    ensures fresh(addr) && addr.Length == 8
    ensures ReadSegments(segments) == if ok then Some(addr[..]) else None
  {
    hide ReadSegments, ReadGroup, Heads;
    addr := new UInt16[8](_ => 0);
    var tail := new UInt16[8](_ => 0);
    var at;
    ok, at := ReadHead(segments, addr);
    if !ok {
      return;
    }
    ghost var front := addr[..at];
    assert addr[..] == front + Zeros(8 - at);
    if at == 8 || at == |segments| {
      HeadOnly(segments, front);
    } else {
      var tailAt;
      ok, tailAt := ReadTail(segments, at, tail);
      if !ok {
        return;
      }
      var visible := at + tailAt;
      if visible >= 8 {
        TooMany(segments, at);
        return false, addr;
      }
      HeadAndTail(segments, front, tail[..tailAt]);
      assert addr[..8 - tailAt] == front + Zeros(8 - visible);
      PlaceTail(addr, at + (8 - visible), tail, tailAt);
    }
  }

  lemma EmptyIsNoGroup()
    ensures ReadGroup("") == None
  {
  }

  method ParseIpv6(hostname: string) returns (r: Option<seq<UInt16>>)
    ensures r == match Read(hostname) case Some(groups) => Some(AllHtons(groups)) case None => None
  {
    if !OnlyIpv6Chars(hostname) {
      return None;
    }
    var stripped := hostname;
    if "::" <= hostname {
      stripped := hostname[1..];
    } else if |hostname| >= 2 && hostname[|hostname| - 2..] == "::" {
      stripped := hostname[..|hostname| - 1];
    }
    var segments := Split(stripped, ':');
    var ok, addr := ReadPieces(segments);
    if !ok {
      return None;
    }
    ghost var groups := addr[..];
    for i := 0 to 8
      invariant forall j :: 0 <= j < i ==> addr[j] == Htons(groups[j])
      invariant forall j :: i <= j < 8 ==> addr[j] == groups[j]
    {
      addr[i] := Htons(addr[i]);
    }
    assert addr[..] == AllHtons(groups);
    return Some(addr[..]);
  }
}
