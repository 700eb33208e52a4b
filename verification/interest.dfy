/** The poller's interest over runs: what closing a socket under a waiter does to it, and when the buffer of
    events stays where it is while a batch is handled. */
module Interest {
  import opened Options
  import opened Bits
  import opened Growth
  import opened Machine
  import opened Runs

  // ---------------------------------------------------------------- closing under a waiter

  /** The socket or sockets closed by this step had nobody waiting on them. */
  ghost predicate ClosesFree(w: World, l: Label)
    requires Enabled(w, l)
  {
    match l
    case CloseSocket(c) => Waited(w, {w.coros[c].rest[0].fd}) == {}
    case SweepAll(c) => Waited(w, Descriptors(Departed(w.coros, w.coros[c].clients))) == {}
    case _ => true
  }

  lemma SeveredAfter(w: World, l: Label)
    requires Enabled(w, l) && ClosesFree(w, l)
    ensures Apply(w, l).severed <= w.severed
  {
    hide Waiters, ListAt, OrMask, WithList, WithFocus, WithKernel, WithDestroyed, WithoutFds, Waited, Departed,
         Unfinished, IsDone, AtRest;
    if l.Return? {
      WithDestroyedGrows(w, w.coros[l.c].kids);
    } else if l.SweepAll? {
      WithDestroyedGrows(w, Tasks(Departed(w.coros, w.coros[l.c].clients)));
    }
  }

  lemma {:induction false} NothingSevered(states: seq<World>, labels: seq<Label>, i: nat)
    requires IsRun(states, labels) && i <= |labels|
    requires forall j :: 0 <= j < i ==> ClosesFree(states[j], labels[j])
    ensures states[i].severed == {}
  {
    hide Enabled, Apply, ClosesFree;
    if i > 0 {
      NothingSevered(states, labels, i - 1);
      SeveredAfter(states[i - 1], labels[i - 1]);
    }
  }

  /** Over every run on which sockets are closed only when nobody waits on them: wherever the loop is in
      control, kernel, `focus_` and the OR of the waiting masks agree on every descriptor. */
  lemma RunInterestIsExact(states: seq<World>, labels: seq<Label>, i: nat, fd: int)
    requires IsRun(states, labels) && i <= |labels| && AtRest(states[i])
    requires forall j :: 0 <= j < i ==> ClosesFree(states[j], labels[j])
    ensures var w := states[i]; var mask := OrMask(ListAt(w.lists, fd));
            FocusAt(w.focus, fd) == mask &&
            if mask == 0 then fd !in w.kernel else fd in w.kernel && w.kernel[fd] == mask
  {
    hide Enabled, Apply, ClosesFree;
    NothingSevered(states, labels, i);
    RunLoopHeads(states, labels, i, fd);
  }

  /** In every state of every run where the loop is in control: a bit (or some bit of a mask b) is registered
      with the kernel for a descriptor exactly if some node in its list asks for it and the descriptor is
      not severed. */
  lemma RunBitsAreRegistered(states: seq<World>, labels: seq<Label>, i: nat, fd: int, b: Mask)
    requires IsRun(states, labels) && i <= |labels| && AtRest(states[i])
    ensures var w := states[i]; var list := ListAt(w.lists, fd);
            (fd in w.kernel && Asks(b, w.kernel[fd])) <==>
            fd !in w.severed && exists k :: 0 <= k < |list| && Asks(b, list[k].mask)
  {
    hide Enabled, Apply, OrMask, Inv, Asks, ListAt, AtRest;
    RunKeepsInv(states, labels, i);
    OrMaskAsks(ListAt(states[i].lists, fd), b);
    KernelAsks(states[i], fd, b);
  }

  lemma KernelAsks(w: World, fd: int, b: Mask)
    requires Inv(w) && AtRest(w)
    ensures (fd in w.kernel && Asks(b, w.kernel[fd])) <==> fd !in w.severed && Asks(b, OrMask(ListAt(w.lists, fd)))
  {
    hide OrMask, Inv, ListAt, Asks;
    LoopHeadInterest(w, fd);
    LoopHeadFocus(w, fd);
    AsksNothing(b);
  }

  lemma LoopHeadFocus(w: World, fd: int)
    requires Inv(w) && AtRest(w)
    ensures FocusAt(w.focus, fd) == if fd in w.severed then 0 else OrMask(ListAt(w.lists, fd))
  {
  }

  /** A close leaves the interest right exactly if the nodes in the list of the descriptor want nothing. */
  lemma CloseIsRightExactly(w: World, c: nat)
    requires Inv(w) && Enabled(w, CloseSocket(c))
    ensures var fd := w.coros[c].rest[0].fd; var v := Apply(w, CloseSocket(c));
            FocusAt(v.focus, fd) == OrMask(ListAt(v.lists, fd)) <==> OrMask(ListAt(w.lists, fd)) == 0
  {
    hide Inv, OrMask, WithKernel, Waited;
    FocusAtUpdate(w.focus, w.coros[c].rest[0].fd, 0);
  }

  // The smallest run on which it is not: one coroutine waits on a descriptor, another closes it.
  const NODE := Node(1, 0, false)
  const WAITER := [Wait(1, 1, false)]
  const CLOSER := [Close(1)]
  const WAITING := INIT.(count := 1, lists := [[], [NODE]], focus := [0, 1], kernel := map[1 := 1],
                         coros := [Coro([], [], [], None, false, 0)], place := [Waiting(1, NODE)], owner := [0],
                         log := [Posted(1, NODE)])
  const CLOSING := WAITING.(coros := WAITING.coros + [Coro(CLOSER, [], [], None, false, 0)],
                            place := [Waiting(1, NODE), Running], owner := [0, 1], active := {1})
  const CLOSED := CLOSING.(coros := WAITING.coros + [Coro([], [], [], None, false, 0)], focus := [0, 0],
                           kernel := map[], severed := {1})

  lemma WaiterWaits()
    ensures Enabled(INIT, Start(WAITER)) && var w := Apply(INIT, Start(WAITER));
            Enabled(w, WaitPark(0)) && Apply(w, WaitPark(0)) == WAITING
  {
    var w := Apply(INIT, Start(WAITER));
    assert w.coros == [Coro(WAITER, [], [], None, false, 0)];
    assert WAITER[1..] == [] && Popped(w.coros, 0) == WAITING.coros;
    assert BitCeil(2) == 2;
    var lists: seq<seq<Node>> := [];
    assert Grown(lists, 1, []) == [[], []];
    var focus: seq<Mask> := [];
    assert Grown(focus, 1, 0) == [0, 0];
    OneMask(NODE);
    assert WithList(lists, 1, [NODE]) == [[], [NODE]];
    assert WithFocus(focus, 1, 1) == [0, 1];
  }

  lemma OneMask(n: Node)
    ensures OrMask([n]) == n.mask
  {
    assert [n][..0] == [];
    assert OrMask([]) == 0;
    assert 0 | n.mask == n.mask;
  }

  lemma CloserCloses()
    ensures Enabled(WAITING, Start(CLOSER)) && Apply(WAITING, Start(CLOSER)) == CLOSING
    ensures Enabled(CLOSING, CloseSocket(1)) && Apply(CLOSING, CloseSocket(1)) == CLOSED
  {
    assert CLOSER[1..] == [];
    assert CLOSING.coros[1] == Coro(CLOSER, [], [], None, false, 0);
    assert Popped(CLOSING.coros, 1) == CLOSED.coros;
    assert WithFocus([0, 1], 1, 0) == [0, 0];
    assert Waiters(CLOSING.lists, 0, [], 1) == [NODE];
    assert Waited(CLOSING, {1}) == {1};
    assert WithKernel(CLOSING.kernel, 1, 0) == map[];
  }

  lemma CloserReturns()
    ensures Enabled(CLOSED, Return(1)) && var w := Apply(CLOSED, Return(1));
            AtRest(w) && w.lists == CLOSED.lists && w.focus == CLOSED.focus && w.kernel == CLOSED.kernel && w.count == 1
  {
    WithDestroyedGrows(CLOSED, []);
  }

  /** At its end the loop is in control, a node waits for the descriptor, and the kernel is not asked about
      it. */
  lemma WaiterCutOff() returns (states: seq<World>, labels: seq<Label>)
    ensures IsRun(states, labels) && var w := states[|labels|];
            AtRest(w) && ListAt(w.lists, 1) == [NODE] && OrMask(ListAt(w.lists, 1)) == 1 && FocusAt(w.focus, 1) == 0 &&
            1 !in w.kernel
  {
    hide Enabled, Apply, OrMask;
    WaiterWaits();
    CloserCloses();
    CloserReturns();
    OneMask(NODE);
    states := [INIT, Apply(INIT, Start(WAITER)), WAITING, CLOSING, CLOSED, Apply(CLOSED, Return(1))];
    labels := [Start(WAITER), WaitPark(0), Start(CLOSER), CloseSocket(1), Return(1)];
  }

  // ---------------------------------------------------------------- growth while a batch is handled

  /** The descriptors whose slot in `focus_` and `evs_` a step asks for. */
  function Touched(w: World, l: Label): set<int>
    requires Enabled(w, l)
  {
    match l
    case WaitPark(c) => {w.coros[c].rest[0].fd}
    case CloseSocket(c) => {w.coros[c].rest[0].fd}
    case SweepAll(c) => set fd | fd in Descriptors(Departed(w.coros, w.coros[c].clients)) :: fd
    case EndDispatch => {w.at}
    case _ => {}
  }

  lemma {:induction false} WithoutFdsSize(focus: seq<Mask>, clients: seq<Client>)
    ensures |focus| <= |WithoutFds(focus, clients)|
    ensures forall fd: int :: fd in Descriptors(clients) ==> fd < |WithoutFds(focus, clients)|
    ensures |WithoutFds(focus, clients)| == |focus| <==> forall fd: int :: fd in Descriptors(clients) ==> fd < |focus|
  {
    if clients != [] {
      var last := |clients| - 1;
      WithoutFdsSize(focus, clients[..last]);
      DescriptorsStep(clients[..last], clients[last]);
      assert clients == clients[..last] + [clients[last]];
      hide Descriptors;
      var x: int := clients[last].fd;
      assert x in Descriptors(clients);
    }
  }

  /** `focus_` and `evs_` keep their size in a step exactly if it asks for no slot beyond them, and have
      every slot it asked for afterwards. */
  lemma SizeAfter(w: World, l: Label)
    requires Enabled(w, l)
    ensures |w.focus| <= |Apply(w, l).focus|
    ensures forall fd :: fd in Touched(w, l) ==> fd < |Apply(w, l).focus|
    ensures |Apply(w, l).focus| == |w.focus| <==> forall fd :: fd in Touched(w, l) ==> fd < |w.focus|
  {
    hide Waiters, ListAt, OrMask, WithList, WithFocus, WithKernel, WithDestroyed, WithoutFds, Waited, Departed,
         Unfinished, IsDone, AtRest;
    if l.Return? {
      WithDestroyedGrows(w, w.coros[l.c].kids);
    } else if l.SweepAll? {
      var departed := Departed(w.coros, w.coros[l.c].clients);
      WithDestroyedGrows(w, Tasks(departed));
      WithoutFdsSize(w.focus, departed);
      assert forall fd: int :: fd in Touched(w, l) <==> fd in Descriptors(departed);
    } else if l.WaitPark? || l.CloseSocket? {
      OneSlot(w.focus, w.coros[l.c].rest[0].fd);
      assert w.coros[l.c].rest[0].fd in Touched(w, l);
    } else if l.EndDispatch? {
      OneSlot(w.focus, w.at);
      assert w.at in Touched(w, l);
    }
  }

  lemma OneSlot(focus: seq<Mask>, fd: nat)
    ensures forall mask :: fd < |WithFocus(focus, fd, mask)| && |focus| <= |WithFocus(focus, fd, mask)|
    ensures forall mask :: |WithFocus(focus, fd, mask)| == |focus| <==> fd < |focus|
  {
  }

  lemma {:induction false} SizesGrow(states: seq<World>, labels: seq<Label>, i: nat, j: nat)
    requires IsPath(states, labels) && i <= j <= |labels|
    ensures |states[i].focus| <= |states[j].focus|
    decreases j
  {
    hide Enabled, Apply;
    if i < j {
      SizesGrow(states, labels, i, j - 1);
      SizeAfter(states[j - 1], labels[j - 1]);
    }
  }

  lemma {:induction false} SizesStay(states: seq<World>, labels: seq<Label>, j: nat)
    requires IsPath(states, labels) && j <= |labels|
    requires forall i, fd :: 0 <= i < |labels| && fd in Touched(states[i], labels[i]) ==> fd < |states[0].focus|
    ensures |states[j].focus| == |states[0].focus|
  {
    hide Enabled, Apply, Touched;
    if j > 0 {
      SizesStay(states, labels, j - 1);
      SizeAfter(states[j - 1], labels[j - 1]);
    }
  }

  /** From the wait that filled the buffer to the end of the batch, whatever was dispatched and whatever that
      ran, the buffer was never resized exactly if no slot was asked for beyond its size at the wait. */
  lemma BufferStaysExactly(states: seq<World>, labels: seq<Label>)
    requires IsPath(states, labels)
    ensures |states[|labels|].focus| == |states[0].focus| <==>
            forall i, fd :: 0 <= i < |labels| && fd in Touched(states[i], labels[i]) ==> fd < |states[0].focus|
  {
    hide Enabled, Apply, Touched;
    if i, fd :| 0 <= i < |labels| && fd in Touched(states[i], labels[i]) && fd >= |states[0].focus| {
      SizeAfter(states[i], labels[i]);
      SizesGrow(states, labels, i + 1, |labels|);
    } else {
      SizesStay(states, labels, |labels|);
    }
  }
}
