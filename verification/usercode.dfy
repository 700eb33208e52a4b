/** What a resumed coroutine may do to the scheduler before control comes back, and how much work is left. */
module UserCode {
  import opened Options
  import opened Machine
  import opened Runs

  // ---------------------------------------------------------------- the work left

  function Cost(ops: seq<Op>): nat {
    if ops == [] then 0 else OpCost(ops[0]) + Cost(ops[1..])
  }

  function OpCost(op: Op): nat {
    match op
    case Spawn(body) => 2 + Cost(body)
    case Serve(_, body) => 2 + Cost(body)
    case _ => 1
  }

  function Weight(c: Coro): nat {
    if c.done then 0 else 1 + Cost(c.rest)
  }

  /** Operations not yet executed, over all frames and the bodies they have still to call. */
  function Work(coros: seq<Coro>): nat {
    if coros == [] then 0 else Work(coros[..|coros| - 1]) + Weight(coros[|coros| - 1])
  }

  lemma {:induction false} WorkUpdate(coros: seq<Coro>, c: nat, x: Coro)
    requires c < |coros|
    ensures Work(coros[c := x]) == Work(coros) - Weight(coros[c]) + Weight(x)
  {
    var last := |coros| - 1;
    if c == last {
      assert coros[c := x][..last] == coros[..last];
    } else {
      assert coros[c := x][..last] == coros[..last][c := x];
      WorkUpdate(coros[..last], c, x);
    }
  }

  lemma WorkAppend(coros: seq<Coro>, x: Coro)
    ensures Work(coros + [x]) == Work(coros) + Weight(x)
  {
    assert (coros + [x])[..|coros|] == coros;
  }

  // ---------------------------------------------------------------- programs without descriptors

  predicate TimerOnlyOp(op: Op) {
    match op
    case Wait(_, _, _) => false
    case Spawn(body) => TimerOnly(body)
    case Serve(_, body) => TimerOnly(body)
    case _ => true
  }

  predicate TimerOnly(ops: seq<Op>) {
    forall i :: 0 <= i < |ops| ==> TimerOnlyOp(ops[i])
  }

  ghost predicate OffDescriptors(coros: seq<Coro>, lists: seq<seq<Node>>) {
    && (forall c :: 0 <= c < |coros| ==> TimerOnly(coros[c].rest))
    && Total(lists) == 0
  }

  ghost predicate NoDescriptors(w: World) {
    OffDescriptors(w.coros, w.lists)
  }

  // ---------------------------------------------------------------- the effect of user code

  /** The nodes posted on fd, in order. */
  function PostedOn(log: seq<Event>, fd: int): seq<Node> {
    if log == [] then []
    else PostedOn(log[..|log| - 1], fd) +
         (if log[|log| - 1].Posted? && log[|log| - 1].fd == fd then [log[|log| - 1].node] else [])
  }

  lemma {:induction false} PostedOnSplits(a: seq<Event>, b: seq<Event>, fd: int)
    ensures PostedOn(a + b, fd) == PostedOn(a, fd) + PostedOn(b, fd)
  {
    if b == [] {
      assert a + b == a;
    } else {
      assert (a + b)[..|a + b| - 1] == a + b[..|b| - 1];
      PostedOnSplits(a, b[..|b| - 1], fd);
    }
  }

  /** The events between two states. */
  function Since(w: World, v: World): seq<Event>
    requires |w.log| <= |v.log|
  {
    v.log[|w.log|..]
  }

  /** The log grew by `Posted` events only, and each list by the nodes posted on it. */
  ghost predicate OnlyPosts(w: World, v: World) {
    && w.log <= v.log
    && (forall e :: e in Since(w, v) ==> e.Posted?)
    && (forall fd :: ListAt(v.lists, fd) == ListAt(w.lists, fd) + PostedOn(Since(w, v), fd))
  }

  /** Nothing parked is touched, nothing is dispatched, finished coroutines stay finished. */
  ghost predicate Undisturbed(w: World, v: World) {
    && |w.lists| <= |v.lists| && |w.focus| <= |v.focus|
    && (forall n :: n in w.timers ==> n in v.timers)
    && w.clock <= v.clock && w.at == v.at && w.detached == v.detached && w.owed == v.owed
    && |w.coros| <= |v.coros| && (forall c :: 0 <= c < |w.coros| && w.coros[c].done ==> v.coros[c].done)
    && w.destroyed <= v.destroyed && w.dangling <= v.dangling
  }

  /** What user code may do: take steps of the machine that post nodes and disturb nothing, and that
      stay off the descriptors if its programs are timer-only. */
  ghost predicate Extends(w: World, v: World) {
    Reaches(w, v) && OnlyPosts(w, v) && Undisturbed(w, v) && (NoDescriptors(w) ==> NoDescriptors(v))
  }

  lemma ExtendsReflexive(w: World)
    ensures Extends(w, w)
  {
    ReachesItself(w);
    NoPosts(w, w);
  }

  lemma NoPosts(w: World, v: World)
    requires v.log == w.log && v.lists == w.lists
    ensures OnlyPosts(w, v)
  {
    assert Since(w, v) == [];
  }

  lemma PostsTransitive(u: World, v: World, w: World)
    requires OnlyPosts(u, v) && OnlyPosts(v, w)
    ensures OnlyPosts(u, w)
  {
    assert Since(u, w) == Since(u, v) + Since(v, w);
    forall fd
      ensures ListAt(w.lists, fd) == ListAt(u.lists, fd) + PostedOn(Since(u, w), fd)
    {
      PostedOnSplits(Since(u, v), Since(v, w), fd);
    }
  }

  lemma ExtendsTransitive(u: World, v: World, w: World)
    requires Extends(u, v) && Extends(v, w)
    ensures Extends(u, w)
  {
    hide OffDescriptors, OnlyPosts, Reaches;
    ReachesOn(u, v, w);
    PostsTransitive(u, v, w);
  }

  /** One more node on one list. */
  lemma PostedOne(w: World, c: nat, fd: Fd, node: Node)
    requires CanRun(w, c)
    ensures OnlyPosts(w, ParkFd(w, c, fd, node))
  {
    hide WithList, WithFocus, WithKernel, OrMask, Total, Waiters;
    var v := ParkFd(w, c, fd, node);
    TotalWithList(w.lists, fd, ListAt(w.lists, fd) + [node]);
    assert Since(w, v) == [Posted(fd, node)];
    forall x
      ensures ListAt(v.lists, x) == ListAt(w.lists, x) + PostedOn(Since(w, v), x)
    {
      PostedOnOne(Posted(fd, node), x);
    }
  }

  lemma PostedOnOne(e: Event, fd: int)
    requires e.Posted?
    ensures PostedOn([e], fd) == if e.fd == fd then [e.node] else []
  {
    assert [e][..0] == [];
  }

  lemma PoppedFacts(coros: seq<Coro>, c: nat)
    requires c < |coros| && coros[c].rest != []
    ensures Cost(coros[c].rest) == OpCost(coros[c].rest[0]) + Cost(coros[c].rest[1..])
    ensures OpCost(coros[c].rest[0]) == match coros[c].rest[0]
                                        case Spawn(body) => 2 + Cost(body)
                                        case Serve(_, body) => 2 + Cost(body)
                                        case _ => 1
    ensures Work(Popped(coros, c)) == Work(coros) - (if coros[c].done then 0 else OpCost(coros[c].rest[0]))
    ensures TimerOnly(coros[c].rest) ==> TimerOnly(coros[c].rest[1..]) && TimerOnlyOp(coros[c].rest[0])
  {
    WorkUpdate(coros, c, coros[c].(rest := coros[c].rest[1..]));
  }

  lemma TimerOnlyStep(w: World, l: Label)
    requires IsUser(l) && Enabled(w, l) && NoDescriptors(w)
    ensures NoDescriptors(Apply(w, l))
  {
    hide WithDestroyed, Waited, WithoutFds, Departed, Unfinished, OrMask, WithFocus, WithKernel, Waiters, WithList,
         Total, ListAt, Work, Cost, OpCost;
    if l.Return? {
      WithDestroyedGrows(w, w.coros[l.c].kids);
    } else {
      PoppedFacts(w.coros, l.c);
      assert TimerOnly(w.coros[l.c].rest);
      if l.SweepAll? {
        WithDestroyedGrows(w, Tasks(Departed(w.coros, w.coros[l.c].clients)));
      }
    }
    var v := Apply(w, l);
    forall c | 0 <= c < |v.coros|
      ensures TimerOnly(v.coros[c].rest)
    {
      if c < |w.coros| {
        assert v.coros[c].rest == w.coros[c].rest || (c == l.c && v.coros[c].rest == w.coros[c].rest[1..]);
      }
    }
  }

  lemma StepRecords(w: World, l: Label)
    requires IsUser(l) && Enabled(w, l)
    ensures var v := Apply(w, l);
            && |w.focus| <= |v.focus| && w.destroyed <= v.destroyed && w.dangling <= v.dangling
            && |w.coros| <= |v.coros| && (forall c :: 0 <= c < |w.coros| && w.coros[c].done ==> v.coros[c].done)
  {
    hide Waiters, ListAt, OrMask, WithList, WithKernel, WithDestroyed, Waited, WithoutFds, Departed, Unfinished,
         IsDone, AtRest;
    if l.Return? {
      WithDestroyedGrows(w, w.coros[l.c].kids);
    } else if l.SweepAll? {
      var departed := Departed(w.coros, w.coros[l.c].clients);
      WithDestroyedGrows(w, Tasks(departed));
      WithoutFdsGrows(w.focus, departed);
    }
  }

  lemma StepUndisturbed(w: World, l: Label)
    requires IsUser(l) && Enabled(w, l)
    ensures Undisturbed(w, Apply(w, l))
  {
    hide Waiters, ListAt, OrMask, WithFocus, WithKernel, WithDestroyed, Waited, WithoutFds, Departed, Unfinished,
         IsDone, AtRest;
    StepRecords(w, l);
    if l.Return? {
      WithDestroyedGrows(w, w.coros[l.c].kids);
    } else if l.SweepAll? {
      WithDestroyedGrows(w, Tasks(Departed(w.coros, w.coros[l.c].clients)));
    }
  }

  lemma {:induction false} WithoutFdsGrows(focus: seq<Mask>, clients: seq<Client>)
    ensures |focus| <= |WithoutFds(focus, clients)|
  {
    if clients != [] {
      WithoutFdsGrows(focus, clients[..|clients| - 1]);
    }
  }

  lemma StepExtends(w: World, l: Label)
    requires IsUser(l) && Enabled(w, l)
    ensures Extends(w, Apply(w, l))
  {
    hide Undisturbed, OffDescriptors, OnlyPosts, Reaches;
    ReachesByStep(w, l);
    StepUndisturbed(w, l);
    if NoDescriptors(w) {
      TimerOnlyStep(w, l);
    }
    if l.WaitPark? {
      var op := w.coros[l.c].rest[0];
      PostedOne(w, l.c, op.fd, Node(op.mask, l.c, op.proxy));
    } else {
      NoPosts(w, Apply(w, l));
    }
  }

  lemma StepWorks(w: World, l: Label)
    requires IsUser(l) && Enabled(w, l) && !w.coros[l.c].done
    ensures Work(Apply(w, l).coros) < Work(w.coros)
  {
    hide Work, Cost, OpCost, TimerOnly, TimerOnlyOp, Waiters, ListAt, OrMask, WithList, WithFocus, WithKernel,
         Unfinished, Departed, WithDestroyed, WithoutFds, Waited;
    if l.Return? {
      WithDestroyedGrows(w, w.coros[l.c].kids);
      WorkUpdate(w.coros, l.c, w.coros[l.c].(done := true));
    } else {
      PoppedFacts(w.coros, l.c);
      var popped := Popped(w.coros, l.c);
      match l {
        case Call(c) =>
          var x := popped[c].(kids := popped[c].kids + [|w.coros|]);
          WorkUpdate(popped, c, x);
          WorkAppend(popped[c := x], Coro(w.coros[c].rest[0].body, [], [], None, false, 0));
        case AddClient(c) =>
          var x := popped[c].(clients := popped[c].clients + [Client(|w.coros|, w.coros[c].rest[0].fd)]);
          WorkUpdate(popped, c, x);
          WorkAppend(popped[c := x], Coro(w.coros[c].rest[0].body, [], [], None, false, 0));
        case AwaitPark(c) =>
          var b := w.coros[c].kids[w.coros[c].rest[0].k];
          WorkUpdate(popped, b, popped[b].(prev := Some(c)));
        case SweepAll(c) =>
          WithDestroyedGrows(w, Tasks(Departed(w.coros, w.coros[c].clients)));
          WorkUpdate(popped, c, popped[c].(clients := Unfinished(w.coros, w.coros[c].clients)));
        case _ =>
      }
    }
  }

  /** Every step of user code keeps the invariant, extends the state, and uses up work. */
  lemma UserStep(w: World, l: Label)
    requires Inv(w) && IsUser(l) && Enabled(w, l)
    ensures Inv(Apply(w, l)) && Extends(w, Apply(w, l))
    ensures Work(Apply(w, l).coros) < Work(w.coros)
  {
    RunningFacts(w, l.c);
    hide Inv, Extends;
    StepKeepsInv(w, l);
    StepExtends(w, l);
    StepWorks(w, l);
  }
}
