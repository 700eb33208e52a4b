/** What the event loop does between two of its heads: the specification of one dispatch and of the timer drain. */
module Dispatching {
  import opened Bits
  import opened Machine
  import opened Places
  import opened Runs
  import opened UserCode

  predicate Meets(n: Node, e: Mask) {
    n.mask & e != 0
  }

  /** The nodes of a list that an event reaches, and those it does not, in their order. */
  function Matching(list: seq<Node>, e: Mask): seq<Node> {
    if list == [] then []
    else Matching(list[..|list| - 1], e) + (if Meets(list[|list| - 1], e) then [list[|list| - 1]] else [])
  }

  function Unmatched(list: seq<Node>, e: Mask): seq<Node> {
    if list == [] then []
    else Unmatched(list[..|list| - 1], e) + (if Meets(list[|list| - 1], e) then [] else [list[|list| - 1]])
  }

  /** Each node resumed once, in order, with the event written into its awaiter. */
  function Firings(fd: int, nodes: seq<Node>, e: Mask): seq<Event> {
    seq(|nodes|, i requires 0 <= i < |nodes| => Fired(fd, nodes[i], e))
  }

  function Fires(log: seq<Event>): seq<Event> {
    if log == [] then []
    else Fires(log[..|log| - 1]) + (if log[|log| - 1].Fired? then [log[|log| - 1]] else [])
  }

  lemma {:induction false} FiresSplits(a: seq<Event>, b: seq<Event>)
    ensures Fires(a + b) == Fires(a) + Fires(b)
  {
    if b == [] {
      assert a + b == a;
    } else {
      assert (a + b)[..|a + b| - 1] == a + b[..|b| - 1];
      FiresSplits(a, b[..|b| - 1]);
    }
  }

  lemma {:induction false} PostsFireNothing(log: seq<Event>)
    requires forall e :: e in log ==> e.Posted?
    ensures Fires(log) == []
  {
    if log != [] {
      assert log[|log| - 1] in log;
      assert forall e :: e in log[..|log| - 1] ==> e in log;
      PostsFireNothing(log[..|log| - 1]);
    }
  }

  /** Every piece of the loop is steps of the machine; this is what they keep or only let grow. */
  ghost predicate Proceeds(w: World, v: World) {
    && Reaches(w, v)
    && w.log <= v.log && w.clock <= v.clock
    && |w.lists| <= |v.lists| && |w.focus| <= |v.focus|
    && |w.coros| <= |v.coros| && (forall c :: 0 <= c < |w.coros| && w.coros[c].done ==> v.coros[c].done)
    && w.destroyed <= v.destroyed && w.dangling <= v.dangling
  }

  /** Inside the handler, after p nodes of the original list: exactly the matching ones among them were
      resumed, and every list holds what it held (the spliced-out one nothing) and then what was posted. */
  ghost predicate HandledSoFar(w0: World, w: World, fd: Fd, e: Mask, list: seq<Node>, p: nat)
    requires p <= |list|
  {
    && w0.log <= w.log
    && Fires(Since(w0, w)) == Firings(fd, Matching(list[..p], e), e)
    && (forall x :: ListAt(w.lists, x) == (if x == fd then [] else ListAt(w0.lists, x)) + PostedOn(Since(w0, w), x))
  }

  ghost predicate Handling(w0: World, w: World, fd: Fd, e: Mask, list: seq<Node>, p: nat) {
    && p <= |list| && HandledSoFar(w0, w, fd, e, list, p)
    && w.active == {} && w.owed == 0 && w.at == fd && fd < |w.lists|
    && w.detached == Unmatched(list[..p], e) + list[p..]
  }

  lemma HandlingStarts(w0: World, fd: Fd, e: Mask)
    requires AtRest(w0) && fd < |w0.lists|
    ensures Handling(w0, Detach(w0, fd), fd, e, w0.lists[fd], 0)
  {
    var w := Detach(w0, fd);
    var list := w0.lists[fd];
    ListAtUpdate(w0.lists, fd, [], w.lists);
    assert Since(w0, w) == [] && list[..0] == [] && list[0..] == list;
  }

  lemma SplitStep(list: seq<Node>, e: Mask, p: nat)
    requires p < |list|
    ensures Matching(list[..p + 1], e) == Matching(list[..p], e) + (if Meets(list[p], e) then [list[p]] else [])
    ensures Unmatched(list[..p + 1], e) == Unmatched(list[..p], e) + (if Meets(list[p], e) then [] else [list[p]])
    ensures list[p..] == [list[p]] + list[p + 1..]
  {
    hide Meets;
    assert list[..p + 1][..p] == list[..p];
  }

  /** One firing between what was logged before and the posts of the resumed code. */
  lemma FiringLogged(before: seq<Event>, fired: Event, posts: seq<Event>)
    requires fired.Fired? && forall e :: e in posts ==> e.Posted?
    ensures Fires(before + [fired] + posts) == Fires(before) + [fired]
    ensures forall x :: PostedOn(before + [fired] + posts, x) == PostedOn(before, x) + PostedOn(posts, x)
  {
    assert [fired][..0] == [];
    FiresSplits(before + [fired], posts);
    FiresSplits(before, [fired]);
    PostsFireNothing(posts);
    forall x
      ensures PostedOn(before + [fired] + posts, x) == PostedOn(before, x) + PostedOn(posts, x)
    {
      PostedOnSplits(before + [fired], posts, x);
      PostedOnSplits(before, [fired], x);
    }
  }

  lemma HandlingSkips(w0: World, w: World, fd: Fd, e: Mask, list: seq<Node>, p: nat)
    requires Handling(w0, w, fd, e, list, p) && p < |list| && !Meets(list[p], e)
    ensures Handling(w0, w, fd, e, list, p + 1)
    ensures |Unmatched(list[..p + 1], e)| == |Unmatched(list[..p], e)| + 1
  {
    SplitStep(list, e, p);
  }

  lemma FiringHandled(w0: World, w: World, u: World, fd: Fd, e: Mask, list: seq<Node>, p: nat, i: nat)
    requires p < |list| && HandledSoFar(w0, w, fd, e, list, p) && Meets(list[p], e) && w.at == fd
    requires i < |w.detached| && w.detached[i] == list[p] && list[p].coro < |w.place| && list[p].coro < |w.coros|
    requires w.coros[list[p].coro].revent == e && OnlyPosts(Fire(w, i), u) && u.owed > 0 && u.count > 0
    ensures HandledSoFar(w0, Settle(u), fd, e, list, p + 1)
  {
    SplitStep(list, e, p);
    var m := Fire(w, i);
    var v := Settle(u);
    hide Meets, Matching, PostedOn, Fires;
    var fired := Fired(fd, list[p], e);
    assert Since(w0, v) == Since(w0, w) + [fired] + Since(m, u);
    FiringLogged(Since(w0, w), fired, Since(m, u));
    assert Firings(fd, Matching(list[..p + 1], e), e) == Firings(fd, Matching(list[..p], e), e) + [fired];
    forall x
      ensures ListAt(v.lists, x) == (if x == fd then [] else ListAt(w0.lists, x)) + PostedOn(Since(w0, v), x)
    {
      assert ListAt(m.lists, x) == ListAt(w.lists, x);
    }
  }

  /** The node at the iterator entered, its user code over at u, the counter settled. */
  lemma HandlingFires(w0: World, w: World, u: World, fd: Fd, e: Mask, list: seq<Node>, p: nat)
    requires Handling(w0, w, fd, e, list, p) && p < |list| && Meets(list[p], e)
    requires var i := |Unmatched(list[..p], e)|;
             i < |w.detached| && w.detached[i].coro < |w.place| && w.detached[i].coro < |w.coros| &&
             w.coros[w.detached[i].coro].revent == e && Extends(Fire(w, i), u)
    requires u.active == {} && u.count > 0
    ensures u.owed == 1 && Handling(w0, Settle(u), fd, e, list, p + 1)
    ensures |Unmatched(list[..p + 1], e)| == |Unmatched(list[..p], e)|
  {
    hide HandledSoFar, Reaches, OffDescriptors, OnlyPosts, Meets, Matching, Unmatched;
    SplitStep(list, e, p);
    var i := |Unmatched(list[..p], e)|;
    assert w.detached[i] == list[p];
    assert Fire(w, i).detached == Unmatched(list[..p + 1], e) + list[p + 1..];
    FiringHandled(w0, w, u, fd, e, list, p, i);
  }

  /** The effect of one dispatch of event e on fd, from loop to loop: the matching nodes were resumed,
      each once and in order, with the event; the list is the other old nodes and then the nodes posted
      meanwhile; every other list only gained the nodes posted on it. */
  ghost predicate Dispatched(w: World, v: World, fd: Fd, e: Mask) {
    && w.log <= v.log
    && Fires(Since(w, v)) == Firings(fd, Matching(ListAt(w.lists, fd), e), e)
    && ListAt(v.lists, fd) == Unmatched(ListAt(w.lists, fd), e) + PostedOn(Since(w, v), fd)
    && (forall x :: x != fd ==> ListAt(v.lists, x) == ListAt(w.lists, x) + PostedOn(Since(w, v), x))
  }

  // ---------------------------------------------------------------- the effect of a dispatch, bit by bit

  lemma MatchingStep(list: seq<Node>, e: Mask)
    requires list != []
    ensures var last := |list| - 1;
            Matching(list, e) == Matching(list[..last], e) + (if Meets(list[last], e) then [list[last]] else [])
    ensures var last := |list| - 1;
            Unmatched(list, e) == Unmatched(list[..last], e) + (if Meets(list[last], e) then [] else [list[last]])
  {
  }

  lemma NothingMatches(e: Mask)
    ensures Matching([], e) == [] && Unmatched([], e) == []
  {
  }

  /** The nodes resumed are those at the places the event meets, in order. */
  lemma {:induction false} MatchingPlaces(list: seq<Node>, e: Mask) returns (at: seq<nat>)
    ensures Increasing(at, |list|) && |Matching(list, e)| == |at|
    ensures forall k :: 0 <= k < |at| ==> Matching(list, e)[k] == list[at[k]]
    ensures forall i :: 0 <= i < |list| ==> (Meets(list[i], e) <==> i in at)
  {
    hide Meets, Matching, Unmatched, Placed;
    if list == [] {
      at := [];
      NothingMatches(e);
    } else {
      var last := |list| - 1;
      var before := MatchingPlaces(list[..last], e);
      var more := Meets(list[last], e);
      MatchingStep(list, e);
      PlacedMore(before, last, more);
      PlacedIs(before, last, more);
      at := Placed(before, last, more);
      assert forall i :: 0 <= i < last ==> list[..last][i] == list[i];
    }
  }

  /** The nodes kept are those at the other places, in order. */
  lemma {:induction false} UnmatchedPlaces(list: seq<Node>, e: Mask) returns (at: seq<nat>)
    ensures Increasing(at, |list|) && |Unmatched(list, e)| == |at|
    ensures forall k :: 0 <= k < |at| ==> Unmatched(list, e)[k] == list[at[k]]
    ensures forall i :: 0 <= i < |list| ==> (!Meets(list[i], e) <==> i in at)
  {
    hide Meets, Matching, Unmatched, Placed;
    if list == [] {
      at := [];
      NothingMatches(e);
    } else {
      var last := |list| - 1;
      var before := UnmatchedPlaces(list[..last], e);
      var more := !Meets(list[last], e);
      MatchingStep(list, e);
      PlacedMore(before, last, more);
      PlacedIs(before, last, more);
      at := Placed(before, last, more);
      assert forall i :: 0 <= i < last ==> list[..last][i] == list[i];
    }
  }

  /** The nodes posted on fd are those of the Posted events on it, in order. */
  lemma {:induction false} PostedPlaces(log: seq<Event>, fd: int) returns (at: seq<nat>)
    ensures Increasing(at, |log|) && |PostedOn(log, fd)| == |at|
    ensures forall k :: 0 <= k < |at| ==> log[at[k]] == Posted(fd, PostedOn(log, fd)[k])
    ensures forall i :: 0 <= i < |log| ==> (log[i].Posted? && log[i].fd == fd <==> i in at)
  {
    hide PostedOn, Placed;
    if log == [] {
      at := [];
      NothingPosted(fd);
    } else {
      var last := |log| - 1;
      var before := PostedPlaces(log[..last], fd);
      var more := log[last].Posted? && log[last].fd == fd;
      PostedStep(log, fd);
      PlacedMore(before, last, more);
      PlacedIs(before, last, more);
      at := Placed(before, last, more);
      assert forall i :: 0 <= i < last ==> log[..last][i] == log[i];
    }
  }

  lemma PostedStep(log: seq<Event>, fd: int)
    requires log != []
    ensures var last := log[|log| - 1];
            PostedOn(log, fd) ==
            PostedOn(log[..|log| - 1], fd) + (if last.Posted? && last.fd == fd then [last.node] else [])
  {
  }

  lemma NothingPosted(fd: int)
    ensures PostedOn([], fd) == []
  {
  }

  lemma {:induction false} FiresMembers(log: seq<Event>)
    ensures forall x :: x in Fires(log) <==> x in log && x.Fired?
  {
    if log != [] {
      var last := |log| - 1;
      FiresMembers(log[..last]);
      assert log == log[..last] + [log[last]];
    }
  }

  lemma MeetsMeans(n: Node, e: Mask)
    ensures Meets(n, e) <==> Asks(n.mask, e)
  {
  }

  lemma FiringsAre(fd: Fd, list: seq<Node>, e: Mask)
    ensures forall n :: n in list ==> (Meets(n, e) <==> Fired(fd, n, e) in Firings(fd, Matching(list, e), e))
    ensures forall x :: x in Firings(fd, Matching(list, e), e) ==>
              x.Fired? && x.fd == fd && x.revent == e && x.node in list && Meets(x.node, e)
  {
    hide Matching, Meets;
    var at := MatchingPlaces(list, e);
    var fired := Firings(fd, Matching(list, e), e);
    assert forall k :: 0 <= k < |at| ==> fired[k] == Fired(fd, list[at[k]], e) && at[k] in at;
    forall n | n in list
      ensures Meets(n, e) <==> Fired(fd, n, e) in fired
    {
      var i :| 0 <= i < |list| && list[i] == n;
      if Meets(n, e) {
        var k :| 0 <= k < |at| && at[k] == i;
        assert fired[k] == Fired(fd, n, e);
      }
    }
  }

  /** A dispatch of e on fd resumes a node of the list, with e, exactly if its mask and e share a bit, and
      nothing else. */
  lemma DispatchReaches(w: World, v: World, fd: Fd, e: Mask, n: Node)
    requires Dispatched(w, v, fd, e) && n in ListAt(w.lists, fd)
    ensures Asks(n.mask, e) <==> Fired(fd, n, e) in Since(w, v)
    ensures forall x :: x in Since(w, v) && x.Fired? ==> x.fd == fd && x.revent == e && x.node in ListAt(w.lists, fd)
  {
    hide Matching, Fires, Unmatched, ListAt, Meets, Firings, PostedOn, Asks;
    MeetsMeans(n, e);
    FiresMembers(Since(w, v));
    FiringsAre(fd, ListAt(w.lists, fd), e);
  }

  lemma KeptPlaces(list: seq<Node>, e: Mask) returns (at: seq<nat>)
    ensures Increasing(at, |list|) && |Unmatched(list, e)| == |at|
    ensures forall k :: 0 <= k < |at| ==> Unmatched(list, e)[k] == list[at[k]]
    ensures forall i :: 0 <= i < |list| ==> (!Asks(list[i].mask, e) <==> i in at)
  {
    hide Unmatched, Meets, Asks;
    at := UnmatchedPlaces(list, e);
    forall i | 0 <= i < |list|
      ensures Asks(list[i].mask, e) <==> Meets(list[i], e)
    {
      MeetsMeans(list[i], e);
    }
  }

  /** And it leaves in the list the old nodes whose masks share no bit with e, at their places `kept` and in
      their order, and then the nodes of the Posted events on fd, at their places `posts`. */
  lemma DispatchKeeps(w: World, v: World, fd: Fd, e: Mask) returns (kept: seq<nat>, posts: seq<nat>)
    requires Dispatched(w, v, fd, e)
    ensures var list := ListAt(w.lists, fd); var list' := ListAt(v.lists, fd); var log := Since(w, v);
            && Increasing(kept, |list|) && Increasing(posts, |log|) && |list'| == |kept| + |posts|
            && (forall i :: 0 <= i < |list| ==> (!Asks(list[i].mask, e) <==> i in kept))
            && (forall k :: 0 <= k < |kept| ==> list'[k] == list[kept[k]])
            && (forall i :: 0 <= i < |log| ==> (log[i].Posted? && log[i].fd == fd <==> i in posts))
            && (forall k :: 0 <= k < |posts| ==> log[posts[k]] == Posted(fd, list'[|kept| + k]))
  {
    hide Unmatched, PostedOn, Matching, Fires, Firings, Asks;
    kept := KeptPlaces(ListAt(w.lists, fd), e);
    posts := PostedPlaces(Since(w, v), fd);
  }

  /** One dispatch for each event of a batch, in order. */
  ghost predicate AllDispatched(batch: seq<(Fd, Mask)>, trail: seq<World>) {
    && |trail| == |batch| + 1
    && forall i :: 0 <= i < |batch| ==> Dispatched(trail[i], trail[i + 1], batch[i].0, batch[i].1)
  }

  lemma HandlingEnds(w0: World, w: World, fd: Fd, e: Mask)
    requires AtRest(w0) && fd < |w0.lists| && Handling(w0, w, fd, e, w0.lists[fd], |w0.lists[fd]|)
    ensures Dispatched(w0, Reattach(w), fd, e)
  {
    var list := w0.lists[fd];
    var v := Reattach(w);
    assert list[..|list|] == list && list[|list|..] == [];
    ListAtUpdate(w.lists, fd, w.detached + w.lists[fd], v.lists);
    assert Since(w0, v) == Since(w0, w);
    assert ListAt(w.lists, fd) == PostedOn(Since(w0, w), fd);
  }

  // ---------------------------------------------------------------- timers

  /** priority_queue::top: some node with the least time. */
  predicate IsTop(timers: multiset<TimeNode>, n: TimeNode) {
    n in timers && forall m :: m in timers ==> n.time <= m.time
  }

  lemma {:induction false} TopExists(timers: multiset<TimeNode>) returns (best: TimeNode)
    requires timers != multiset{}
    ensures IsTop(timers, best)
    decreases |timers|
  {
    best :| best in timers;
    var rest := timers - multiset{best};
    assert timers == rest + multiset{best};
    assert forall m :: m in timers ==> m == best || m in rest;
    if rest != multiset{} {
      var k := TopExists(rest);
      if k.time < best.time {
        best := k;
      }
    }
  }

  /** Time left until the earliest deadline. */
  ghost function TimeLeft(timers: multiset<TimeNode>, clock: int): (t: nat)
    ensures forall n :: IsTop(timers, n) ==> t == if n.time > clock then n.time - clock else 0
  {
    if n :| IsTop(timers, n) then (if n.time > clock then n.time - clock else 0) else 0
  }

  lemma TimePasses(timers: multiset<TimeNode>, n: TimeNode, head: int, later: int)
    requires IsTop(timers, n) && head < n.time && head < later
    ensures TimeLeft(timers, later) < TimeLeft(timers, head)
  {
  }

  /** duration_cast to milliseconds: truncation toward zero, from nanoseconds. */
  function Milliseconds(period: int): int {
    if period >= 0 then period / 1_000_000 else -((-period) / 1_000_000)
  }

  /** The timeout is the period toward zero, so a poll is refused exactly when the top deadline is a whole
      millisecond in the past; a second is a thousand of them. */
  lemma MillisecondsExactly(period: int)
    ensures period >= 0 ==> 0 <= Milliseconds(period) * 1_000_000 <= period < (Milliseconds(period) + 1) * 1_000_000
    ensures period <= 0 ==> (Milliseconds(period) - 1) * 1_000_000 < period <= Milliseconds(period) * 1_000_000 <= 0
    ensures Milliseconds(period) < 0 <==> period <= -1_000_000
    ensures Milliseconds(1_000_000_000) == 1000
  {
  }

  /** What epoll_wait may report: at most `room` events, each on a registered descriptor. */
  predicate IsReport(batch: seq<(Fd, Mask)>, kernel: map<int, Mask>, room: nat) {
    |batch| <= room && forall i :: 0 <= i < |batch| ==> batch[i].0 in kernel
  }

  lemma ReportInRange(w: World, batch: seq<(Fd, Mask)>, room: nat)
    requires Inv(w) && AtRest(w) && IsReport(batch, w.kernel, room)
    ensures forall i :: 0 <= i < |batch| ==> batch[i].0 < |w.lists|
  {
    hide Inv;
    forall i | 0 <= i < |batch|
      ensures batch[i].0 < |w.lists|
    {
      LoopHeadInterest(w, batch[i].0);
    }
  }

  /** Whenever some descriptor is waited on, `epoll_wait` gets a buffer with room. */
  lemma BufferHasRoom(w: World)
    requires Inv(w) && AtRest(w) && w.count > |w.timers|
    ensures |w.focus| > 0
  {
    hide Inv;
    LoopHeadCounts(w);
    var fd :| |ListAt(w.lists, fd)| > 0;
    LoopHeadInterest(w, fd);
  }

  lemma {:induction false} Below(s: set<int>, n: nat)
    requires forall x :: x in s ==> 0 <= x < n
    ensures |s| <= n
  {
    if n == 0 {
      assert forall x :: x !in s;
    } else {
      Below(s - {n - 1}, n - 1);
    }
  }

  /** One wait has room for every registered descriptor, mid-dispatch as well. */
  lemma BufferHasRoomForAll(w: World)
    requires Inv(w)
    ensures |w.kernel| <= |w.focus|
  {
    Below(w.kernel.Keys, |w.focus|);
  }

  lemma TimerOnlyHasNoWaiter(w: World)
    requires Inv(w) && AtRest(w) && NoDescriptors(w)
    ensures w.count == |w.timers|
  {
  }

  // ---------------------------------------------------------------- user code entered from the loop

  lemma LaunchTimerOnly(w: World, body: seq<Op>)
    requires NoDescriptors(w) && TimerOnly(body)
    ensures NoDescriptors(StartRoot(w, body))
  {
  }

  lemma LaunchCompletes(w: World, body: seq<Op>, u: World)
    requires AtRest(w) && Extends(StartRoot(w, body), u) && u.active == {}
    ensures AtRest(u) && Proceeds(StartRoot(w, body), u) && |u.coros| > |w.coros|
    ensures NoDescriptors(w) && TimerOnly(body) ==> NoDescriptors(u)
  {
    hide OffDescriptors, OnlyPosts, Reaches;
    if NoDescriptors(w) && TimerOnly(body) {
      LaunchTimerOnly(w, body);
    }
    PostsGrow(StartRoot(w, body), u);
  }

  lemma PostsGrow(w: World, v: World)
    requires OnlyPosts(w, v)
    ensures w.log <= v.log
  {
  }

  lemma WakeCompletes(w: World, n: TimeNode, u: World)
    requires AtRest(w) && IsTop(w.timers, n) && n.time <= w.clock && n.coro < |w.place|
    requires Inv(u) && Extends(PopTimer(w, n, w.clock), u) && u.active == {}
    ensures u.owed > 0 && u.count > 0 && Inv(Settle(u)) && AtRest(Settle(u)) && Proceeds(w, Settle(u))
    ensures w.log + [Woken(n.time, w.clock, n.coro)] <= u.log
    ensures NoDescriptors(w) ==> NoDescriptors(Settle(u))
  {
    hide OffDescriptors, OnlyPosts, Inv, Reaches;
    PostsGrow(PopTimer(w, n, w.clock), u);
    SettleKeepsInv(u);
    ReachesByStep(w, Expire(n, w.clock));
    ReachesOn(w, PopTimer(w, n, w.clock), u);
    ReachesByStep(u, Uncount);
    ReachesOn(w, u, Settle(u));
  }

  lemma ProceedsTick(w: World, v: World, now: int)
    requires Proceeds(w, v) && v.clock <= now
    ensures Proceeds(w, v.(clock := now))
    ensures NoDescriptors(v) ==> NoDescriptors(v.(clock := now))
  {
    hide Reaches;
    ReachesByStep(v, Tick(now));
    ReachesOn(w, v, v.(clock := now));
  }

  lemma ProceedsTransitive(u: World, v: World, w: World)
    requires Proceeds(u, v) && Proceeds(v, w)
    ensures Proceeds(u, w)
  {
    hide Reaches;
    ReachesOn(u, v, w);
  }

  /** At the iterator stands the next node of the original list. */
  lemma IteratorNode(w0: World, w: World, fd: Fd, e: Mask, list: seq<Node>, p: nat)
    requires Handling(w0, w, fd, e, list, p)
    ensures var it := |Unmatched(list[..p], e)|;
            p <= |list| && it <= |w.detached| && (it < |w.detached| <==> p < |list|) &&
            (p < |list| ==> w.detached[it] == list[p])
  {
  }

  lemma PokeHandled(w0: World, w: World, fd: Fd, e: Mask, list: seq<Node>, p: nat, c: nat)
    requires Handling(w0, w, fd, e, list, p) && c < |w.coros|
    ensures Handling(w0, Poke(w, c, e), fd, e, list, p)
  {
  }

  lemma OfferProceeds(w0: World, w: World, i: nat, e: Mask)
    requires Proceeds(w0, w) && Enabled(w, Offer(i, e))
    ensures Proceeds(w0, Poke(w, w.detached[i].coro, e))
  {
    hide Reaches;
    ReachesByStep(w, Offer(i, e));
    ReachesOn(w0, w, Poke(w, w.detached[i].coro, e));
  }

  lemma OfferHandled(w0: World, w: World, fd: Fd, e: Mask, list: seq<Node>, p: nat, it: nat)
    requires Inv(w) && Handling(w0, w, fd, e, list, p) && Proceeds(w0, w)
    requires it < |w.detached| && Meets(w.detached[it], e)
    ensures w.detached[it].coro < |w.coros| && var v := Poke(w, w.detached[it].coro, e);
            Inv(v) && Handling(w0, v, fd, e, list, p) && Proceeds(w0, v)
  {
    hide Inv, HandledSoFar, Proceeds;
    assert w.at > 0;
    FireKeepsInv(w, it);
    OfferProceeds(w0, w, it, e);
    PokeHandled(w0, w, fd, e, list, p, w.detached[it].coro);
    PokeKeepsInv(w, w.detached[it].coro, e);
  }

  lemma DispatchStarts(w0: World, fd: Fd, e: Mask)
    requires Inv(w0) && AtRest(w0) && fd < |w0.lists|
    ensures Inv(Detach(w0, fd)) && Handling(w0, Detach(w0, fd), fd, e, w0.lists[fd], 0) && Proceeds(w0, Detach(w0, fd))
    ensures Unmatched(w0.lists[fd][..0], e) == []
  {
    hide Inv, Handling, Reaches, Unmatched;
    DetachKeepsInv(w0, fd);
    HandlingStarts(w0, fd, e);
    ReachesByStep(w0, BeginDispatch(fd));
    NothingSkipped(w0.lists[fd], e);
  }

  lemma HandlingOver(w0: World, w: World, fd: Fd, e: Mask)
    requires fd < |w0.lists| && Handling(w0, w, fd, e, w0.lists[fd], |w0.lists[fd]|)
    ensures w.active == {} && w.owed == 0 && w.at == fd < |w.lists| && w.detached == Unmatched(w0.lists[fd], e)
  {
    var list := w0.lists[fd];
    assert list[..|list|] == list && list[|list|..] == [];
  }

  lemma ReattachProceeds(w0: World, w: World)
    requires Proceeds(w0, w) && 0 < w.at < |w.lists| && w.active == {} && w.owed == 0
    ensures Proceeds(w0, Reattach(w))
  {
    hide Reaches;
    ReachesByStep(w, EndDispatch);
    ReachesOn(w0, w, Reattach(w));
  }

  /** From loop to loop. */
  ghost predicate Completed(w: World, v: World, fd: Fd, e: Mask) {
    AtRest(v) && Proceeds(w, v) && Dispatched(w, v, fd, e)
  }

  lemma DispatchEnds(w0: World, w: World, fd: Fd, e: Mask)
    requires AtRest(w0) && fd < |w0.lists| && Handling(w0, w, fd, e, w0.lists[fd], |w0.lists[fd]|)
    requires Inv(w) && Proceeds(w0, w)
    ensures w.at == fd < |w.lists|
    ensures Inv(Reattach(w)) && Completed(w0, Reattach(w), fd, e)
  {
    HandlingOver(w0, w, fd, e);
    hide Inv, Dispatched, Handling, Proceeds, WithFocus, WithKernel, OrMask;
    HandlingEnds(w0, w, fd, e);
    ReattachProceeds(w0, w);
    ReattachKeepsInv(w);
  }

  /** The node at the iterator matches and carries the event. */
  ghost predicate Offered(w: World, e: Mask, nodes: seq<Node>, p: nat, it: nat) {
    && p < |nodes| && Meets(nodes[p], e) && it == |Unmatched(nodes[..p], e)|
    && it < |w.detached| && w.detached[it].coro < |w.coros| && w.coros[w.detached[it].coro].revent == e
  }

  /** Node it was entered in state w, and control is back in state v. */
  ghost predicate Entered(w: World, it: nat, v: World) {
    && it < |w.detached| && w.detached[it].coro < |w.coros| && w.detached[it].coro < |w.place|
    && Extends(Fire(w, it), v) && v.active == {}
  }

  ghost predicate Erased(w: World, v: World, nodes: seq<Node>, e: Mask, p: nat, it: nat) {
    && p < |nodes| && it == |Unmatched(nodes[..p + 1], e)| && it < |w.detached|
    && v.detached == w.detached[..it] + w.detached[it + 1..]
  }

  lemma OfferedFacts(w0: World, w: World, fd: Fd, e: Mask, nodes: seq<Node>, p: nat, it: nat)
    requires Handling(w0, w, fd, e, nodes, p) && Offered(w, e, nodes, p, it)
    ensures w.at > 0 && w.active == {} && it < |w.detached|
  {
  }

  lemma NothingSkipped(nodes: seq<Node>, e: Mask)
    ensures Unmatched(nodes[..0], e) == []
  {
  }

  lemma ProceedsReflexive(w: World)
    ensures Proceeds(w, w)
  {
    ReachesItself(w);
  }

  /** Enter a node, run its code to u, count it out: steps all. */
  lemma EntryReaches(w: World, it: nat, u: World)
    requires w.active == {} && w.owed == 0 && w.at > 0 && Entered(w, it, u) && u.owed > 0 && u.count > 0
    ensures Reaches(w, Settle(u))
  {
    hide Reaches, OnlyPosts, OffDescriptors;
    ReachesByStep(w, Enter(it));
    ReachesOn(w, Fire(w, it), u);
    ReachesByStep(u, Uncount);
    ReachesOn(w, u, Settle(u));
  }

  lemma NodeCompletes(w0: World, w: World, u: World, fd: Fd, e: Mask, nodes: seq<Node>, p: nat, it: nat)
    requires Handling(w0, w, fd, e, nodes, p) && Proceeds(w0, w) && Offered(w, e, nodes, p, it)
    requires Inv(u) && Entered(w, it, u)
    ensures u.owed > 0 && u.count > 0 && Inv(Settle(u)) && Proceeds(w0, Settle(u))
    ensures Handling(w0, Settle(u), fd, e, nodes, p + 1) && Erased(w, Settle(u), nodes, e, p, it)
  {
    hide Inv, HandledSoFar, OnlyPosts, Meets, Reaches, OffDescriptors;
    PostsGrow(Fire(w, it), u);
    SettleKeepsInv(u);
    HandlingFires(w0, w, u, fd, e, nodes, p);
    EntryReaches(w, it, u);
    ReachesOn(w0, w, Settle(u));
  }
}
