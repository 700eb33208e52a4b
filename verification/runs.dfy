/** Runs of the machine: which step may be taken when, and what holds in every state of every run. */
module Runs {
  import opened Options
  import opened Machine

  /** One atomic piece of code. The first group is user code on the call stack, the second the scheduler. */
  datatype Label =
    | SleepPass(c: nat, made: int, now: int)
    | SleepPark(c: nat, made: int, now: int)
    | WaitPark(c: nat)
    | Call(c: nat)
    | AwaitPass(c: nat)
    | AwaitPark(c: nat)
    | AddClient(c: nat)
    | SweepAll(c: nat)
    | CloseSocket(c: nat)
    | Return(c: nat)
    | Start(body: seq<Op>)
    | Tick(now: int)
    | Expire(node: TimeNode, now: int)
    | Uncount
    | BeginDispatch(fd: Fd)
    | Offer(i: nat, e: Mask)
    | Enter(i: nat)
    | EndDispatch

  predicate IsUser(l: Label) {
    l.SleepPass? || l.SleepPark? || l.WaitPark? || l.Call? || l.AwaitPass? || l.AwaitPark? || l.AddClient? ||
    l.SweepAll? || l.CloseSocket? || l.Return?
  }

  predicate Enabled(w: World, l: Label) {
    match l
    case SleepPass(c, made, now) =>
      CanRun(w, c) && w.coros[c].rest[0].Sleep? && w.clock <= made <= now && made + w.coros[c].rest[0].period <= now
    case SleepPark(c, made, now) =>
      CanRun(w, c) && w.coros[c].rest[0].Sleep? && w.clock <= made <= now < made + w.coros[c].rest[0].period
    case WaitPark(c) => CanRun(w, c) && w.coros[c].rest[0].Wait?
    case Call(c) => CanRun(w, c) && w.coros[c].rest[0].Spawn?
    case AwaitPass(c) =>
      CanRun(w, c) && w.coros[c].rest[0].Await? &&
      var k := w.coros[c].rest[0].k; k < |w.coros[c].kids| ==> IsDone(w.coros, w.coros[c].kids[k])
    case AwaitPark(c) =>
      CanRun(w, c) && w.coros[c].rest[0].Await? &&
      var k := w.coros[c].rest[0].k;
      k < |w.coros[c].kids| && w.coros[c].kids[k] < |w.coros| && !w.coros[w.coros[c].kids[k]].done
    case AddClient(c) => CanRun(w, c) && w.coros[c].rest[0].Serve?
    case SweepAll(c) => CanRun(w, c) && w.coros[c].rest[0].Sweep?
    case CloseSocket(c) => CanRun(w, c) && w.coros[c].rest[0].Close?
    case Return(c) => c in w.active && c < |w.coros| && c < |w.place| && w.coros[c].rest == []
    case Start(_) => AtRest(w)
    case Tick(now) => w.clock <= now
    case Expire(n, now) =>
      AtRest(w) && n in w.timers && n.time <= now && w.clock <= now && n.coro < |w.place| &&
      forall m :: m in w.timers ==> n.time <= m.time
    case Uncount => w.active == {} && w.owed > 0 && w.count > 0
    case BeginDispatch(fd) => AtRest(w) && fd < |w.lists|
    case Offer(i, e) =>
      w.active == {} && w.owed == 0 && w.at > 0 && i < |w.detached| && w.detached[i].coro < |w.coros| &&
      w.detached[i].mask & e != 0
    case Enter(i) =>
      w.active == {} && w.owed == 0 && w.at > 0 && i < |w.detached| && w.detached[i].coro < |w.coros| &&
      w.detached[i].coro < |w.place|
    case EndDispatch => w.active == {} && w.owed == 0 && 0 < w.at < |w.lists|
  }

  function Apply(w: World, l: Label): World
    requires Enabled(w, l)
  {
    match l
    case SleepPass(c, made, now) => Pass(w, c, now)
    case SleepPark(c, made, now) => ParkTimer(w, c, now, made + w.coros[c].rest[0].period)
    case WaitPark(c) =>
      var op := w.coros[c].rest[0];
      ParkFd(w, c, op.fd, Node(op.mask, c, op.proxy))
    case Call(c) => SpawnChild(w, c, w.coros[c].rest[0].body)
    case AwaitPass(c) => Pass(w, c, w.clock)
    case AwaitPark(c) => ParkAwait(w, c, w.coros[c].kids[w.coros[c].rest[0].k])
    case AddClient(c) => ServeClient(w, c, w.coros[c].rest[0].fd, w.coros[c].rest[0].body)
    case SweepAll(c) => SweepFinished(w, c)
    case CloseSocket(c) => CloseFd(w, c, w.coros[c].rest[0].fd)
    case Return(c) => Finish(w, c)
    case Start(body) => StartRoot(w, body)
    case Tick(now) => w.(clock := now)
    case Expire(n, now) => PopTimer(w, n, now)
    case Uncount => Settle(w)
    case BeginDispatch(fd) => Detach(w, fd)
    case Offer(i, e) => Poke(w, w.detached[i].coro, e)
    case Enter(i) => Fire(w, i)
    case EndDispatch => Reattach(w)
  }

  lemma StepKeepsInv(w: World, l: Label)
    requires Inv(w) && Enabled(w, l)
    ensures Inv(Apply(w, l))
  {
    hide Inv;
    match l {
      case SleepPass(c, made, now) => PassKeepsInv(w, c, now);
      case SleepPark(c, made, now) => ParkTimerKeepsInv(w, c, now, made + w.coros[c].rest[0].period);
      case WaitPark(c) =>
        var op := w.coros[c].rest[0];
        ParkFdKeepsInv(w, c, op.fd, Node(op.mask, c, op.proxy));
      case Call(c) => SpawnKeepsInv(w, c, w.coros[c].rest[0].body);
      case AwaitPass(c) => PassKeepsInv(w, c, w.clock);
      case AwaitPark(c) => ParkAwaitKeepsInv(w, c, w.coros[c].kids[w.coros[c].rest[0].k]);
      case AddClient(c) => ServeKeepsInv(w, c, w.coros[c].rest[0].fd, w.coros[c].rest[0].body);
      case SweepAll(c) => SweepKeepsInv(w, c);
      case CloseSocket(c) => CloseKeepsInv(w, c, w.coros[c].rest[0].fd);
      case Return(c) => FinishKeepsInv(w, c);
      case Start(body) => StartKeepsInv(w, body);
      case Tick(now) => TickKeepsInv(w, now);
      case Expire(n, now) => PopTimerKeepsInv(w, n, now);
      case Uncount => SettleKeepsInv(w);
      case BeginDispatch(fd) => DetachKeepsInv(w, fd);
      case Offer(i, e) => PokeKeepsInv(w, w.detached[i].coro, e);
      case Enter(i) => FireKeepsInv(w, i);
      case EndDispatch => ReattachKeepsInv(w);
    }
  }

  /** Steps taken one after the other. */
  ghost predicate IsPath(states: seq<World>, labels: seq<Label>) {
    && |states| == |labels| + 1
    && forall i :: 0 <= i < |labels| ==> Enabled(states[i], labels[i]) && states[i + 1] == Apply(states[i], labels[i])
  }

  ghost predicate IsRun(states: seq<World>, labels: seq<Label>) {
    IsPath(states, labels) && states[0] == INIT
  }

  /** Steps of running code and of the loop, no coroutine being started from outside, lead from w to v. */
  ghost predicate Leads(states: seq<World>, labels: seq<Label>, w: World, v: World) {
    && IsPath(states, labels) && states[0] == w && states[|labels|] == v
    && forall i :: 0 <= i < |labels| ==> !labels[i].Start?
  }

  ghost predicate Reaches(w: World, v: World) {
    exists states, labels :: Leads(states, labels, w, v)
  }

  lemma ReachesItself(w: World)
    ensures Reaches(w, w)
  {
    assert Leads([w], [], w, w);
  }

  lemma ReachesByStep(w: World, l: Label)
    requires Enabled(w, l) && !l.Start?
    ensures Reaches(w, Apply(w, l))
  {
    hide Enabled, Apply;
    var states := [w, Apply(w, l)];
    assert states[0] == w && states[1] == Apply(w, l);
    assert Leads(states, [l], w, Apply(w, l));
  }

  lemma PathsJoin(a: seq<World>, l: seq<Label>, b: seq<World>, m: seq<Label>)
    requires IsPath(a, l) && IsPath(b, m) && a[|l|] == b[0]
    ensures IsPath(a + b[1..], l + m) && (a + b[1..])[0] == a[0] && (a + b[1..])[|l + m|] == b[|m|]
  {
    hide Enabled, Apply;
    var s := a + b[1..];
    forall i | 0 <= i < |l + m|
      ensures Enabled(s[i], (l + m)[i]) && s[i + 1] == Apply(s[i], (l + m)[i])
    {
      if i < |l| {
        assert s[i] == a[i] && s[i + 1] == a[i + 1];
      } else {
        assert s[i] == b[i - |l|] && s[i + 1] == b[i - |l| + 1];
      }
    }
  }

  lemma ReachesOn(u: World, v: World, w: World)
    requires Reaches(u, v) && Reaches(v, w)
    ensures Reaches(u, w)
  {
    hide Enabled, Apply;
    var a, l :| Leads(a, l, u, v);
    var b, m :| Leads(b, m, v, w);
    PathsJoin(a, l, b, m);
    assert Leads(a + b[1..], l + m, u, w);
  }

  lemma InitInv()
    ensures Inv(INIT)
  {
    hide ListsOk, FocusOk, KernelOk;
    EmptyLists();
    EmptyInterest();
  }

  lemma EmptyLists()
    ensures ListsOk([], 0, [], [])
  {
    forall fd
      ensures WaitersOk(Waiters([], 0, [], fd), fd, [])
    {
      assert Waiters([], 0, [], fd) == [];
    }
  }

  lemma EmptyInterest()
    ensures FocusOk([], 0, [], {}) && KernelOk([], map[])
  {
  }

  /** Every state of every run satisfies the invariant. */
  lemma {:induction false} RunKeepsInv(states: seq<World>, labels: seq<Label>, i: nat)
    requires IsRun(states, labels) && i <= |labels|
    ensures Inv(states[i])
  {
    if i == 0 {
      InitInv();
    } else {
      RunKeepsInv(states, labels, i - 1);
      StepKeepsInv(states[i - 1], labels[i - 1]);
    }
  }

  /** A run goes on by what the scheduler's code does from its last state, and by starting a coroutine
      first if one is called from outside: so the states of the scheduler are states of runs. */
  lemma RunGoesOn(states: seq<World>, labels: seq<Label>, v: World)
    returns (states': seq<World>, labels': seq<Label>)
    requires IsRun(states, labels) && Reaches(states[|labels|], v)
    ensures IsRun(states', labels') && states'[|labels'|] == v && labels <= labels'
    ensures forall i :: |labels| <= i < |labels'| ==> !labels'[i].Start?
  {
    hide Enabled, Apply;
    var b, m :| Leads(b, m, states[|labels|], v);
    PathsJoin(states, labels, b, m);
    states', labels' := states + b[1..], labels + m;
  }

  lemma RunStarts(states: seq<World>, labels: seq<Label>, body: seq<Op>)
    requires IsRun(states, labels) && AtRest(states[|labels|])
    ensures IsRun(states + [StartRoot(states[|labels|], body)], labels + [Start(body)])
  {
    var w := states[|labels|];
    assert Enabled(w, Start(body)) && Apply(w, Start(body)) == StartRoot(w, body);
    hide Enabled, Apply;
    var b := [w, StartRoot(w, body)];
    assert IsPath(b, [Start(body)]);
    PathsJoin(states, labels, b, [Start(body)]);
    assert b[1..] == [StartRoot(w, body)];
  }

  // ---------------------------------------------------------------- no coroutine is ever lost

  /** The places that can bring a coroutine back: a node, the call stack, or the `prev` of an unfinished one. */
  datatype Home =
    | InQueue(node: TimeNode)
    | InList(fd: int, i: int)
    | InHandler(i: int)
    | OnStack
    | PrevOf(b: int)

  ghost predicate Awaits(w: World, c: nat, b: int) {
    0 <= b < |w.coros| && !w.coros[b].done && w.coros[b].prev == Some(c)
  }

  ghost predicate IsHome(w: World, c: nat, h: Home) {
    match h
    case InQueue(n) => n in w.timers && n.coro == c
    case InList(fd, i) => 0 <= fd < |w.lists| && 0 <= i < |w.lists[fd]| && w.lists[fd][i].coro == c
    case InHandler(i) => 0 <= i < |w.detached| && w.detached[i].coro == c
    case OnStack => c in w.active
    case PrevOf(b) => Awaits(w, c, b)
  }

  /** In every state the invariant allows, an unfinished coroutine has exactly one home (and its
      time node is queued once), a finished one has none, and neither has a destroyed one as long as
      nothing was destroyed before it was done. */
  lemma NoCoroutineLost(w: World, c: nat)
    requires Inv(w) && c < |w.coros|
    ensures w.coros[c].done <==> forall h :: !IsHome(w, c, h)
    ensures forall h, k :: IsHome(w, c, h) && IsHome(w, c, k) ==> h == k
    ensures forall n :: n in w.timers ==> w.timers[n] == 1
    ensures c in w.destroyed && w.dangling == {} ==> forall h :: !IsHome(w, c, h)
  {
    forall h | IsHome(w, c, h)
      ensures h == HomeAt(w, c) && !w.coros[c].done
    {
      HomeIsItsPlace(w, c, h);
    }
    if !w.coros[c].done {
      PlaceIsAHome(w, c);
    }
  }

  ghost function HomeAt(w: World, c: nat): Home
    requires c < |w.place|
  {
    match w.place[c]
    case Running => OnStack
    case Sleeping(t) => InQueue(TimeNode(t, c))
    case Awaiting(b) => PrevOf(b)
    case Finished => OnStack
    case Waiting(fd, n) =>
      if fd == w.at && n in w.detached then InHandler(IndexOf(w.detached, n))
      else InList(fd, IndexOf(ListAt(w.lists, fd), n))
  }

  ghost function IndexOf<T>(s: seq<T>, x: T): (i: nat)
    ensures x in s ==> i < |s| && s[i] == x
  {
    if s == [] || s[0] == x then 0 else 1 + IndexOf(s[1..], x)
  }

  lemma HomeIsItsPlace(w: World, c: nat, h: Home)
    requires Inv(w) && c < |w.coros| && IsHome(w, c, h)
    ensures !w.coros[c].done && h == HomeAt(w, c)
  {
    match h {
      case InQueue(n) =>
      case OnStack =>
      case PrevOf(b) =>
      case InList(fd, i) => ListHome(w, c, fd, i);
      case InHandler(i) => HandlerHome(w, c, i);
    }
  }

  lemma ListHome(w: World, c: nat, fd: int, i: int)
    requires Inv(w) && c < |w.coros| && IsHome(w, c, InList(fd, i))
    ensures !w.coros[c].done && InList(fd, i) == HomeAt(w, c)
  {
    hide Inv;
    WaiterPlaces(w, fd);
    var shift := if fd == w.at then |w.detached| else 0;
    assert Waiters(w.lists, w.at, w.detached, fd)[shift + i] == w.lists[fd][i];
    InListIsItsPlace(w.lists, w.at, w.detached, fd, i);
  }

  lemma HandlerHome(w: World, c: nat, i: int)
    requires Inv(w) && c < |w.coros| && IsHome(w, c, InHandler(i))
    ensures !w.coros[c].done && InHandler(i) == HomeAt(w, c)
  {
    hide Inv;
    WaiterPlaces(w, w.at);
    assert Waiters(w.lists, w.at, w.detached, w.at)[i] == w.detached[i];
    InHandlerIsItsPlace(w.lists, w.at, w.detached, i);
  }

  lemma WaiterPlaces(w: World, fd: int)
    requires Inv(w)
    ensures |w.coros| == |w.place|
    ensures var ws := Waiters(w.lists, w.at, w.detached, fd);
            NoDuplicates(ws) && forall i :: 0 <= i < |ws| ==>
              ws[i].coro < |w.coros| && w.place[ws[i].coro] == Waiting(fd, ws[i]) && !w.coros[ws[i].coro].done
  {
    var ws := Waiters(w.lists, w.at, w.detached, fd);
    assert WaitersOk(ws, fd, w.place);
    assert forall i :: 0 <= i < |ws| ==> ws[i] in ws;
  }

  lemma InListIsItsPlace(lists: seq<seq<Node>>, at: int, detached: seq<Node>, fd: int, i: int)
    requires 0 <= fd < |lists| && 0 <= i < |lists[fd]| && NoDuplicates(Waiters(lists, at, detached, fd))
    ensures fd == at ==> lists[fd][i] !in detached
    ensures IndexOf(lists[fd], lists[fd][i]) == i
  {
    var ws := Waiters(lists, at, detached, fd);
    var shift := if fd == at then |detached| else 0;
    var n := lists[fd][i];
    var j := IndexOf(lists[fd], n);
    assert ws[shift + i] == n && ws[shift + j] == n;
    if fd == at {
      assert forall k :: 0 <= k < |detached| ==> ws[k] == detached[k];
    }
  }

  lemma InHandlerIsItsPlace(lists: seq<seq<Node>>, at: int, detached: seq<Node>, i: int)
    requires 0 <= i < |detached| && NoDuplicates(Waiters(lists, at, detached, at))
    ensures detached[i] in detached && IndexOf(detached, detached[i]) == i
  {
    var ws := Waiters(lists, at, detached, at);
    var j := IndexOf(detached, detached[i]);
    assert ws[i] == detached[i] && ws[j] == detached[i];
  }

  lemma PlaceIsAHome(w: World, c: nat)
    requires Inv(w) && c < |w.coros| && !w.coros[c].done
    ensures IsHome(w, c, HomeAt(w, c))
  {
    match w.place[c] {
      case Running =>
      case Sleeping(t) =>
      case Awaiting(b) =>
      case Finished =>
      case Waiting(fd, n) =>
        assert n in Waiters(w.lists, w.at, w.detached, fd);
        assert n.coro == c;
    }
  }

  /** Following the awaited task again and again ends at a coroutine that is on the call stack or
      parked in a node: something will resume it. */
  lemma {:induction false} ChainReachesSomethingParked(w: World, c: nat) returns (path: seq<nat>)
    requires Inv(w) && c < |w.coros| && !w.coros[c].done
    ensures |path| > 0 && path[0] == c && forall i :: 0 <= i < |path| ==> path[i] < |w.coros|
    ensures forall i :: 0 <= i < |path| - 1 ==> Awaits(w, path[i], path[i + 1])
    ensures exists h: Home :: !h.PrevOf? && IsHome(w, path[|path| - 1], h)
    decreases |w.coros| - c
  {
    hide Inv, IsHome, HomeAt;
    SameLengths(w);
    PlaceIsAHome(w, c);
    if w.place[c].Awaiting? {
      var b := w.place[c].child;
      AwaitedFacts(w, c);
      var tail := ChainReachesSomethingParked(w, b);
      path := [c] + tail;
      assert path[|path| - 1] == tail[|tail| - 1];
    } else {
      path := [c];
      HomeKind(w, c);
      assert !HomeAt(w, c).PrevOf? && IsHome(w, path[|path| - 1], HomeAt(w, c));
    }
  }

  lemma SameLengths(w: World)
    requires Inv(w)
    ensures |w.coros| == |w.place| == |w.owner|
  {
  }

  lemma AwaitedFacts(w: World, c: nat)
    requires Inv(w) && c < |w.place| && w.place[c].Awaiting?
    ensures c < w.place[c].child < |w.coros| && !w.coros[w.place[c].child].done && Awaits(w, c, w.place[c].child)
  {
  }

  lemma HomeKind(w: World, c: nat)
    requires c < |w.place|
    ensures HomeAt(w, c).PrevOf? <==> w.place[c].Awaiting?
  {
  }

  // ---------------------------------------------------------------- what the loop may conclude from its counters

  lemma {:induction false} TotalPositive(lists: seq<seq<Node>>)
    ensures Total(lists) > 0 <==> exists fd :: |ListAt(lists, fd)| > 0
  {
    if lists != [] {
      var last := |lists| - 1;
      TotalPositive(lists[..last]);
      assert forall fd :: 0 <= fd < last ==> ListAt(lists, fd) == ListAt(lists[..last], fd);
      if Total(lists[..last]) > 0 {
        var fd :| |ListAt(lists[..last], fd)| > 0;
        assert |ListAt(lists, fd)| > 0;
      }
      if |lists[last]| > 0 {
        assert |ListAt(lists, last)| > 0;
      }
    }
  }

  lemma ParkedIsCounted(w: World, c: nat, h: Home)
    requires Inv(w) && AtRest(w) && !h.PrevOf? && IsHome(w, c, h)
    ensures w.count > 0
  {
    TotalPositive(w.lists);
    if h.InList? {
      assert |ListAt(w.lists, h.fd)| > 0;
    }
  }

  lemma NothingParkedAllDone(w: World, c: nat)
    requires Inv(w) && AtRest(w) && w.count == 0 && c < |w.coros|
    ensures w.coros[c].done
  {
    if !w.coros[c].done {
      var path := ChainReachesSomethingParked(w, c);
      var h: Home :| !h.PrevOf? && IsHome(w, path[|path| - 1], h);
      ParkedIsCounted(w, path[|path| - 1], h);
    }
  }

  lemma SomethingParkedNotDone(w: World) returns (c: nat)
    requires Inv(w) && AtRest(w) && w.count > 0
    ensures c < |w.coros| && !w.coros[c].done
  {
    if |w.timers| > 0 {
      var n :| n in w.timers;
      c := n.coro;
    } else {
      TotalPositive(w.lists);
      var fd :| |ListAt(w.lists, fd)| > 0;
      WaiterPlaces(w, fd);
      c := Waiters(w.lists, w.at, w.detached, fd)[0].coro;
    }
  }

  /** At a loop head: the subtraction `coro_count_ - time_nodes_.size()` does not wrap, it is positive
      exactly when some descriptor has a waiter, and `coro_count_` is zero exactly when every
      coroutine is done. */
  lemma LoopHeadCounts(w: World)
    requires Inv(w) && AtRest(w)
    ensures |w.timers| <= w.count
    ensures w.count > |w.timers| <==> exists fd :: |ListAt(w.lists, fd)| > 0
    ensures w.count == 0 <==> forall c :: 0 <= c < |w.coros| ==> w.coros[c].done
  {
    TotalPositive(w.lists);
    if w.count == 0 {
      forall c | 0 <= c < |w.coros|
        ensures w.coros[c].done
      {
        NothingParkedAllDone(w, c);
      }
    } else {
      var c := SomethingParkedNotDone(w);
    }
  }

  /** At a loop head the kernel's interest and `focus_` agree on every descriptor, and with the OR of the
      waiting masks exactly on those not severed (or whose waiters want nothing); every descriptor with a
      waiter has a slot in `focus_` and `evs_`, and every registered one a list. */
  lemma LoopHeadInterest(w: World, fd: int)
    requires Inv(w) && AtRest(w)
    ensures FocusAt(w.focus, fd) == OrMask(ListAt(w.lists, fd)) <==>
            fd !in w.severed || OrMask(ListAt(w.lists, fd)) == 0
    ensures fd in w.severed ==> FocusAt(w.focus, fd) == 0
    ensures fd in w.kernel <==> FocusAt(w.focus, fd) != 0
    ensures fd in w.kernel ==> w.kernel[fd] == FocusAt(w.focus, fd) && 0 < fd < |w.focus| && fd < |w.lists|
    ensures |ListAt(w.lists, fd)| > 0 ==> 0 < fd < |w.focus|
  {
  }

  // ---------------------------------------------------------------- over every run

  /** In every state of every run, wake-ups so far came in deadline order and none before its deadline. */
  lemma RunWakesInOrder(states: seq<World>, labels: seq<Label>, s: nat, i: nat, j: nat)
    requires IsRun(states, labels) && s <= |labels| && i <= j < |states[s].log|
    requires states[s].log[i].Woken? && states[s].log[j].Woken?
    ensures states[s].log[i].deadline <= states[s].log[j].deadline
    ensures states[s].log[i].deadline <= states[s].log[i].at
  {
    RunKeepsInv(states, labels, s);
  }

  /** In every state of every run, each coroutine started is finished or has exactly one home; destroyed
      frames are done unless some frame was destroyed too early. */
  lemma RunLosesNoCoroutine(states: seq<World>, labels: seq<Label>, s: nat, c: nat)
    requires IsRun(states, labels) && s <= |labels| && c < |states[s].coros|
    ensures states[s].coros[c].done <==> forall h :: !IsHome(states[s], c, h)
    ensures forall h, k :: IsHome(states[s], c, h) && IsHome(states[s], c, k) ==> h == k
    ensures c in states[s].destroyed && states[s].dangling == {} ==> states[s].coros[c].done
  {
    RunKeepsInv(states, labels, s);
    NoCoroutineLost(states[s], c);
  }

  /** In every state of every run where the loop is in control, its two counters and the three records
      of interest agree with what is really waiting. */
  lemma RunLoopHeads(states: seq<World>, labels: seq<Label>, s: nat, fd: int)
    requires IsRun(states, labels) && s <= |labels| && AtRest(states[s])
    ensures var w := states[s];
            && w.count == |w.timers| + Total(w.lists)
            && (w.count > |w.timers| <==> exists x :: |ListAt(w.lists, x)| > 0)
            && (w.count == 0 <==> forall c :: 0 <= c < |w.coros| ==> w.coros[c].done)
            && (FocusAt(w.focus, fd) == OrMask(ListAt(w.lists, fd)) <==>
                fd !in w.severed || OrMask(ListAt(w.lists, fd)) == 0)
            && (if FocusAt(w.focus, fd) == 0 then fd !in w.kernel
                else fd in w.kernel && w.kernel[fd] == FocusAt(w.focus, fd))
  {
    RunKeepsInv(states, labels, s);
    LoopHeadCounts(states[s]);
    LoopHeadInterest(states[s], fd);
  }
}
