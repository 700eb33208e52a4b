/** The scheduler and the poller as objects: their methods update fields in place, and each of them
    is one or more steps of the machine. */
module Scheduling {
  import opened Options
  import opened Bits
  import opened Growth
  import opened Machine
  import opened Runs
  import opened UserCode
  import opened Dispatching

  datatype CtlOp = Add | Mod | Del

  /** `s_period`, one second in ticks of the steady clock. */
  const S_PERIOD := 1_000_000_000

  class Poller {
    var focus: seq<Mask>
    var evsSize: nat
    /** The kernel's interest set; the program sees it only through `epoll_ctl` and `epoll_wait`. */
    var kernel: map<int, Mask>
    /** How many times `epoll_wait` was called. */
    ghost var asked: nat

    ghost predicate Valid()
      reads this
    {
      KernelOk(focus, kernel) && evsSize == |focus|
    }

    constructor ()
      ensures Valid() && focus == [] && kernel == map[] && asked == 0
    {
      asked := 0;
      focus := [];
      evsSize := 0;
      kernel := map[];
    }

    /** `adjust_size_`, with the repair of `bit_ceil(index)` to `bit_ceil(index + 1)`. */
    method AdjustSize(index: nat)
      requires Valid()
      modifies this`focus, this`evsSize, this`kernel
      ensures Valid() && kernel == old(kernel)
      ensures focus == Grown(old(focus), index, 0) && index < evsSize
    {
      if |focus| > index {
        return;
      }
      focus := Grown(focus, index, 0);
      evsSize := |focus|;
      assert forall fd :: FocusAt(focus, fd) == FocusAt(old(focus), fd);
    }

    /** The kernel's side of `epoll_ctl`. The requires are its rules: only an unregistered descriptor
        can be added, only a registered one can be changed or removed. */
    method EpollCtl(op: CtlOp, fd: Fd, mask: Mask)
      requires op == Add <==> fd !in kernel
      modifies this`kernel
      ensures kernel == if op == Del then old(kernel) - {fd} else old(kernel)[fd := mask]
    {
      kernel := if op == Del then kernel - {fd} else kernel[fd := mask];
    }

    /** `epoll_wait` into `evs_`, which must not be empty; a snapshot of what it reported. No event at
        all also stands for a timeout and for an interrupted call. */
    method EpollWait() returns (batch: seq<(Fd, Mask)>)
      requires evsSize > 0
      modifies this`asked
      ensures asked == old(asked) + 1
      ensures IsReport(batch, kernel, evsSize)
    {
      assert IsReport([], kernel, evsSize);
      batch :| IsReport(batch, kernel, evsSize);
      asked := asked + 1;
    }

    /** Bring the registration of fd from what `focus_` says to e; every call made to the kernel is legal. */
    method Subscribe(fd: Fd, e: Mask)
      requires Valid()
      modifies this`focus, this`evsSize, this`kernel
      ensures Valid()
      ensures focus == WithFocus(old(focus), fd, e) && kernel == WithKernel(old(kernel), fd, e)
    {
      SubscribeKeepsKernel(focus, kernel, fd, e);
      ghost var before := kernel;
      AdjustSize(fd);
      if focus[fd] != e {
        assert FocusAt(focus, fd) == focus[fd];
        if focus[fd] != 0 {
          EpollCtl(if e != 0 then Mod else Del, fd, e);
        } else {
          EpollCtl(Add, fd, e);
        }
      } else {
        assert FocusAt(focus, fd) == e;
        assert WithKernel(before, fd, e) == before;
      }
      focus := focus[fd := e];
    }
  }

  lemma ClockGoesOn(w: World, v: World)
    requires Proceeds(w, v)
    ensures w.clock <= v.clock
  {
  }

  lemma ListsStay(w: World, v: World)
    requires Proceeds(w, v)
    ensures |w.lists| <= |v.lists|
  {
  }

  lemma DispatchLogged(w: World, v: World, fd: Fd, e: Mask)
    requires Dispatched(w, v, fd, e) && fd < |w.lists|
    ensures w.log <= v.log
    ensures forall n :: n in w.lists[fd] ==> (Asks(n.mask, e) <==> Fired(fd, n, e) in Since(w, v))
  {
    DispatchGrows(w, v, fd, e);
    hide Dispatched, Since, Asks;
    forall n | n in w.lists[fd]
      ensures Asks(n.mask, e) <==> Fired(fd, n, e) in Since(w, v)
    {
      DispatchReaches(w, v, fd, e, n);
    }
  }

  lemma DispatchGrows(w: World, v: World, fd: Fd, e: Mask)
    requires Dispatched(w, v, fd, e)
    ensures w.log <= v.log
  {
  }

  lemma NothingDeparts(coros: seq<Coro>, focus: seq<Mask>, kernel: map<int, Mask>)
    ensures Departed(coros, []) == [] && Unfinished(coros, []) == []
    ensures WithoutFds(focus, []) == focus && kernel - Descriptors([]) == kernel
  {
  }

  /** Unsubscribing one more departed client. */
  lemma DepartedStep(focus: seq<Mask>, kernel: map<int, Mask>, departed: seq<Client>, x: Client)
    ensures WithoutFds(focus, departed + [x]) == WithFocus(WithoutFds(focus, departed), x.fd, 0)
    ensures WithKernel(kernel - Descriptors(departed), x.fd, 0) == kernel - Descriptors(departed + [x])
  {
    DescriptorsStep(departed, x);
    assert (departed + [x])[..|departed|] == departed;
  }

  /** Nothing was due at `drained`, and `period` was computed at v: the time left shrank if the poll was
      refused for a negative timeout, and it shrinks over a sleep. */
  ghost predicate Measured(head: World, drained: World, v: World, period: int) {
    && head.clock <= drained.clock && drained == head.(clock := drained.clock) && v == drained.(clock := v.clock)
    && drained.clock <= v.clock
    && (forall n :: n in drained.timers ==> n.time > drained.clock)
    && (v.timers == multiset{} ==> period == S_PERIOD)
    && (forall n :: IsTop(v.timers, n) ==>
          period == if n.time <= v.clock + S_PERIOD then n.time - v.clock else S_PERIOD)
  }

  lemma TimeRanOut(head: World, drained: World, v: World, period: int)
    requires Measured(head, drained, v, period) && Milliseconds(period) < 0
    ensures TimeLeft(v.timers, v.clock) < TimeLeft(head.timers, head.clock)
  {
    var n := TopExists(v.timers);
    TimePasses(v.timers, n, head.clock, v.clock);
  }

  lemma TimeSlept(head: World, drained: World, v: World, period: int, clock: int)
    requires Measured(head, drained, v, period) && v.timers != multiset{}
    requires clock >= v.clock && clock >= v.clock + period
    ensures TimeLeft(v.timers, clock) < TimeLeft(head.timers, head.clock)
  {
    var n := TopExists(v.timers);
    TimePasses(v.timers, n, head.clock, clock);
  }

  /** What the code after one operation of a coroutine is: go on, suspend, run a callee first, or
      (final suspend) transfer to the awaiting coroutine. */
  datatype Control = Continue | Suspended | Called(n: nat) | Transfer(p: nat)

  class Scheduler {
    var coroCount: nat
    var timeNodes: multiset<TimeNode>
    var descriptorNodes: seq<seq<Node>>
    const poller: Poller
    /** The coroutine frames, indexed by handle, and the steady clock. */
    var coros: seq<Coro>
    var clock: int

    ghost var place: seq<Place>
    ghost var owner: seq<nat>
    ghost var active: set<nat>
    var at: int
    var detached: seq<Node>
    ghost var owed: nat
    ghost var log: seq<Event>
    ghost var destroyed: set<nat>
    ghost var dangling: set<nat>
    ghost var severed: set<Fd>

    ghost function View(): World
      reads this, poller
    {
      World(coroCount, timeNodes, descriptorNodes, poller.focus, poller.kernel, coros, clock,
            place, owner, active, at, detached, owed, log, destroyed, dangling, severed)
    }

    ghost predicate Valid()
      reads this, poller
    {
      Inv(View()) && poller.Valid()
    }

    constructor ()
      ensures Valid() && AtRest(View()) && View() == INIT && NoDescriptors(View()) && fresh(poller)
    {
      coroCount, timeNodes, descriptorNodes, coros, clock := 0, multiset{}, [], [], 0;
      place, owner, active, at, detached, owed, log := [], [], {}, 0, [], 0, [];
      destroyed, dangling, severed := {}, {}, {};
      poller := new Poller();
      new;
      assert View() == INIT;
      InitInv();
    }

    /** steady_clock::now(): any reading that is not before the last one. */
    method Now() returns (now: int)
      modifies this`clock
      ensures old(clock) <= clock == now
    {
      now := *;
      if now < clock {
        now := clock;
      }
      clock := now;
    }

    /** `update_descriptor_`: accumulate the masks of the list, subscribe. */
    method UpdateDescriptor(fd: Fd)
      requires poller.Valid() && fd < |descriptorNodes|
      modifies this`severed, poller`focus, poller`evsSize, poller`kernel
      ensures poller.Valid() && severed == old(severed) - {fd}
      ensures poller.focus == WithFocus(old(poller.focus), fd, OrMask(descriptorNodes[fd]))
      ensures poller.kernel == WithKernel(old(poller.kernel), fd, OrMask(descriptorNodes[fd]))
    {
      var e: Mask := 0;
      var list := descriptorNodes[fd];
      for i := 0 to |list|
        invariant e == OrMask(list[..i])
      {
        assert list[..i + 1][..i] == list[..i];
        e := e | list[i].mask;
      }
      assert list[..|list|] == list;
      poller.Subscribe(fd, e);
      severed := severed - {fd};
    }

    /** scheduler::post_coro on a descriptor, for a coroutine or a proxy. */
    method PostNode(fd: Fd, node: Node)
      requires poller.Valid()
      modifies this`descriptorNodes, this`coroCount, this`log, this`severed
      modifies poller`focus, poller`evsSize, poller`kernel
      ensures poller.Valid() && severed == old(severed) - {fd}
      ensures descriptorNodes == WithList(old(descriptorNodes), fd, ListAt(old(descriptorNodes), fd) + [node])
      ensures coroCount == old(coroCount) + 1 && log == old(log) + [Posted(fd, node)]
      ensures poller.focus == WithFocus(old(poller.focus), fd, OrMask(ListAt(old(descriptorNodes), fd) + [node]))
      ensures poller.kernel == WithKernel(old(poller.kernel), fd, OrMask(ListAt(old(descriptorNodes), fd) + [node]))
    {
      descriptorNodes := Grown(descriptorNodes, fd, []);
      assert descriptorNodes[fd] == ListAt(old(descriptorNodes), fd);
      descriptorNodes := descriptorNodes[fd := descriptorNodes[fd] + [node]];
      log := log + [Posted(fd, node)];
      UpdateDescriptor(fd);
      coroCount := coroCount + 1;
    }

    /** scheduler::post_coro on a time point. */
    method PostTimer(tp: int, c: nat)
      modifies this`timeNodes, this`coroCount
      ensures timeNodes == old(timeNodes) + multiset{TimeNode(tp, c)} && coroCount == old(coroCount) + 1
    {
      timeNodes := timeNodes + multiset{TimeNode(tp, c)};
      coroCount := coroCount + 1;
    }

    // -------------------------------------------------------------- user code, one operation at a time

    /** A step of user code by c is enabled and is what happened. */
    twostate predicate Took(l: Label, c: nat)
      reads this, poller
    {
      IsUser(l) && l.c == c && Enabled(old(View()), l) && View() == Apply(old(View()), l)
    }

    /** The sleep awaiter's `await_suspend`. */
    method SuspendUntil(tp: int, c: nat)
      requires c < |place|
      modifies this
      ensures View() == old(View()).(timers := old(timeNodes) + multiset{TimeNode(tp, c)}, count := old(coroCount) + 1,
                                     place := old(place)[c := Sleeping(tp)], active := old(active) - {c})
    {
      PostTimer(tp, c);
      place, active := place[c := Sleeping(tp)], active - {c};
    }

    /** co_await async_sleep(period): fix the deadline, look at the clock again, suspend only if it
        is still in the future. */
    method AwaitSleep(c: nat) returns (next: Control, ghost l: Label)
      requires poller.Valid() && CanRun(View(), c) && coros[c].rest[0].Sleep?
      modifies this
      ensures Took(l, c) && poller.Valid()
      ensures next.Continue? || next.Suspended?
      ensures active == if next.Suspended? then old(active) - {c} else old(active)
      ensures if next.Continue? then
                l.SleepPass? && l.made + old(coros)[c].rest[0].period <= clock && timeNodes == old(timeNodes)
              else l.SleepPark? && clock < l.made + old(coros)[c].rest[0].period &&
                   timeNodes == old(timeNodes) + multiset{TimeNode(l.made + old(coros)[c].rest[0].period, c)}
      ensures old(clock) <= l.made <= clock
    {
      hide KernelOk, Waiters, ListAt, IsDone, OrMask, WithList, WithFocus, WithKernel, Unfinished;
      var period := coros[c].rest[0].period;
      var made := Now();
      var tp := made + period;
      var now := Now();
      coros := Popped(coros, c);
      if now >= tp {
        next, l := Continue, SleepPass(c, made, now);
      } else {
        SuspendUntil(tp, c);
        next, l := Suspended, SleepPark(c, made, now);
      }
    }

    /** The coroutine is past its co_await and suspended. */
    method Park(c: nat, p: Place)
      requires CanRun(View(), c)
      modifies this`coros, this`place, this`active
      ensures View() == old(View()).(coros := Popped(old(coros), c), place := old(place)[c := p],
                                     active := old(active) - {c})
    {
      coros := Popped(coros, c);
      place, active := place[c := p], active - {c};
    }

    /** co_await async_read, async_write, async_connect or async_accept. */
    method AwaitDescriptor(c: nat) returns (next: Control, ghost l: Label)
      requires poller.Valid() && CanRun(View(), c) && coros[c].rest[0].Wait?
      modifies this, poller`focus, poller`evsSize, poller`kernel
      ensures Took(l, c) && poller.Valid()
      ensures next == Suspended && active == old(active) - {c}
      ensures var op := old(coros)[c].rest[0];
              ListAt(descriptorNodes, op.fd) == ListAt(old(descriptorNodes), op.fd) + [Node(op.mask, c, op.proxy)]
    {
      hide WithList, WithFocus, WithKernel, OrMask, KernelOk;
      var op := coros[c].rest[0];
      var node := Node(op.mask, c, op.proxy);
      TotalWithList(descriptorNodes, op.fd, ListAt(descriptorNodes, op.fd) + [node]);
      PostNode(op.fd, node);
      Park(c, Waiting(op.fd, node));
      next, l := Suspended, WaitPark(c);
    }

    /** Call of a coroutine: make the frame, keep the task; the body starts at once. */
    method CallCoroutine(c: nat) returns (next: Control, ghost l: Label)
      requires poller.Valid() && CanRun(View(), c) && coros[c].rest[0].Spawn?
      modifies this
      ensures Took(l, c) && poller.Valid()
      ensures next == Called(old(|coros|)) && active == old(active) + {old(|coros|)}
    {
      var body := coros[c].rest[0].body;
      var n := |coros|;
      coros := Popped(coros, c);
      coros := coros[c := coros[c].(kids := coros[c].kids + [n])] + [Coro(body, [], [], None, false, 0)];
      place, owner, active := place + [Running], owner + [c], active + {n};
      next, l := Called(n), Call(c);
    }

    /** `add_client_`: call the session, keep its task with the socket in the list of clients. */
    method AddClient(c: nat) returns (next: Control, ghost l: Label)
      requires poller.Valid() && CanRun(View(), c) && coros[c].rest[0].Serve?
      modifies this
      ensures Took(l, c) && poller.Valid()
      ensures next == Called(old(|coros|)) && active == old(active) + {old(|coros|)}
    {
      var op := coros[c].rest[0];
      var n := |coros|;
      coros := Popped(coros, c);
      coros := coros[c := coros[c].(clients := coros[c].clients + [Client(n, op.fd)])]
               + [Coro(op.body, [], [], None, false, 0)];
      place, owner, active := place + [Running], owner + [c], active + {n};
      next, l := Called(n), Label.AddClient(c);
    }

    /** co_await of a task: ready if done, otherwise become its `prev` and suspend. */
    method AwaitTask(c: nat) returns (next: Control, ghost l: Label)
      requires poller.Valid() && CanRun(View(), c) && coros[c].rest[0].Await?
      requires forall i :: 0 <= i < |coros[c].kids| ==> coros[c].kids[i] < |coros|
      modifies this
      ensures Took(l, c) && poller.Valid()
      ensures next.Continue? || next.Suspended?
      ensures active == if next.Suspended? then old(active) - {c} else old(active)
    {
      var k := coros[c].rest[0].k;
      coros := Popped(coros, c);
      if k >= |coros[c].kids| || IsDone(coros, coros[c].kids[k]) {
        next, l := Continue, AwaitPass(c);
      } else {
        var b := coros[c].kids[k];
        coros := coros[b := coros[b].(prev := Some(c))];
        place, active := place[c := Awaiting(b)], active - {c};
        next, l := Suspended, AwaitPark(c);
      }
    }

    /** `~task` of each: the frames go. */
    ghost method DestroyTasks(tasks: seq<nat>)
      modifies this`destroyed, this`dangling
      ensures View() == WithDestroyed(old(View()), tasks)
    {
      hide WithDestroyed;
      WithDestroyedGrows(View(), tasks);
      var u := WithDestroyed(View(), tasks);
      destroyed, dangling := u.destroyed, u.dangling;
    }

    /** The loop of the sweep: the iterator either erases a finished client, whose socket unsubscribes
        and closes, or moves past an unfinished one. */
    method EraseFinished(clients: seq<Client>) returns (kept: seq<Client>)
      requires poller.Valid()
      modifies poller`focus, poller`evsSize, poller`kernel
      ensures kept == Unfinished(coros, clients) && poller.Valid()
      ensures poller.focus == WithoutFds(old(poller.focus), Departed(coros, clients))
      ensures poller.kernel == old(poller.kernel) - Descriptors(Departed(coros, clients))
    {
      hide WithFocus, WithKernel, KernelOk, Descriptors, WithoutFds, Departed, Unfinished, IsDone;
      kept := clients;
      var it := 0;
      ghost var seen := 0;
      assert clients[..0] == [] && kept[..0] == [];
      NothingDeparts(coros, poller.focus, poller.kernel);
      while it < |kept|
        invariant 0 <= it <= |kept| && 0 <= seen <= |clients| && poller.Valid()
        invariant kept[it..] == clients[seen..]
        invariant kept[..it] == Unfinished(coros, clients[..seen])
        invariant poller.focus == WithoutFds(old(poller.focus), Departed(coros, clients[..seen]))
        invariant poller.kernel == old(poller.kernel) - Descriptors(Departed(coros, clients[..seen]))
        decreases |kept| - it
      {
        assert kept[it] == kept[it..][0] == clients[seen];
        SweepStep(coros, clients[..seen], clients[seen]);
        assert clients[..seen + 1] == clients[..seen] + [clients[seen]];
        assert kept[it + 1..] == kept[it..][1..] == clients[seen + 1..];
        if IsDone(coros, kept[it].task) {
          DepartedStep(old(poller.focus), old(poller.kernel), Departed(coros, clients[..seen]), kept[it]);
          poller.Subscribe(kept[it].fd, 0);
          kept := kept[..it] + kept[it + 1..];
        } else {
          assert kept[..it + 1] == kept[..it] + [kept[it]];
          it := it + 1;
        }
        seen := seen + 1;
      }
      assert kept[..it] == kept && clients[..seen] == clients;
    }

    /** The server's sweep: finished clients leave the list, their tasks and sockets are destroyed. */
    method SweepClients(c: nat) returns (next: Control, ghost l: Label)
      requires poller.Valid() && CanRun(View(), c) && coros[c].rest[0].Sweep?
      modifies this, poller`focus, poller`evsSize, poller`kernel
      ensures Took(l, c) && poller.Valid()
      ensures next == Continue && active == old(active)
    {
      hide WithDestroyed, Waited, Descriptors, WithoutFds, Unfinished, Departed, KernelOk;
      var clients := coros[c].clients;
      ghost var more := Waited(View(), Descriptors(Departed(coros, clients)));
      WithDestroyedGrows(View(), Tasks(Departed(coros, clients)));
      DestroyTasks(Tasks(Departed(coros, clients)));
      var kept := EraseFinished(clients);
      severed := severed + more;
      coros := Popped(coros, c);
      coros := coros[c := coros[c].(clients := kept)];
      next, l := Continue, SweepAll(c);
    }

    /** ~socket: unsubscribe, close. */
    method CloseDescriptor(c: nat) returns (next: Control, ghost l: Label)
      requires poller.Valid() && CanRun(View(), c) && coros[c].rest[0].Close?
      modifies this, poller`focus, poller`evsSize, poller`kernel
      ensures Took(l, c) && poller.Valid()
      ensures next == Continue && active == old(active)
    {
      hide Waited, WithFocus, KernelOk;
      var fd := coros[c].rest[0].fd;
      severed := severed + Waited(View(), {fd});
      poller.Subscribe(fd, 0);
      coros := Popped(coros, c);
      next, l := Continue, CloseSocket(c);
    }

    /** The end of the body: the tasks held go; then final suspend, marking the frame done and
        transferring to `prev` if it is set. */
    method FinalSuspend(c: nat) returns (next: Control, ghost l: Label)
      requires poller.Valid() && c in active && c < |coros| && c < |place| && coros[c].rest == []
      requires coros[c].prev.Some? ==> coros[c].prev.value < |place|
      modifies this
      ensures Took(l, c) && poller.Valid()
      ensures match old(coros[c].prev)
              case None => next == Suspended && active == old(active) - {c}
              case Some(p) => next == Transfer(p) && active == old(active) - {c} + {p}
    {
      hide WithDestroyed, KernelOk;
      WithDestroyedGrows(View(), coros[c].kids);
      DestroyTasks(coros[c].kids);
      coros := coros[c := coros[c].(done := true)];
      l := Return(c);
      match coros[c].prev {
        case None =>
          place, active := place[c := Finished], active - {c};
          next := Suspended;
        case Some(p) =>
          place, active := place[c := Finished][p := Running], active - {c} + {p};
          next := Transfer(p);
      }
    }

    /** Run the next operation of c. */
    method Execute(c: nat) returns (next: Control, ghost l: Label)
      requires Valid() && c in active
      modifies this, poller`focus, poller`evsSize, poller`kernel
      ensures Took(l, c) && Valid() && Extends(old(View()), View())
      ensures Work(coros) < Work(old(coros))
      ensures match next
              case Continue => active == old(active)
              case Suspended => active == old(active) - {c}
              case Called(n) => n !in old(active) && active == old(active) + {n}
              case Transfer(p) => p !in old(active) && active == old(active) - {c} + {p}
    {
      hide Inv, Extends, Work, KernelOk;
      ghost var w := View();
      RunningFacts(w, c);
      ActiveFacts(w);
      if coros[c].rest == [] {
        FinishKeepsInv(w, c);
        next, l := FinalSuspend(c);
      } else {
        match coros[c].rest[0] {
          case Sleep(_) => next, l := AwaitSleep(c);
          case Wait(_, _, _) => next, l := AwaitDescriptor(c);
          case Spawn(_) => next, l := CallCoroutine(c);
          case Await(_) => next, l := AwaitTask(c);
          case Serve(_, _) => next, l := AddClient(c);
          case Sweep => next, l := SweepClients(c);
          case Close(_) => next, l := CloseDescriptor(c);
        }
      }
      UserStep(w, l);
    }

    /** handle.resume(): run until control comes back to the caller, through callees and transfers. */
    method Resume(c: nat)
      requires Valid() && c in active
      modifies this, poller`focus, poller`evsSize, poller`kernel
      ensures Valid() && Extends(old(View()), View())
      ensures active == old(active) - {c} && Work(coros) < Work(old(coros))
      decreases Work(coros)
    {
      hide Inv, Extends, Enabled, Apply, Work, KernelOk;
      ghost var w0 := View();
      ghost var others := active - {c};
      var cur := c;
      var running := true;
      ExtendsReflexive(w0);
      while running
        invariant Valid() && Extends(w0, View())
        invariant if running then cur !in others && active == others + {cur} else active == others
        invariant Work(coros) < Work(w0.coros) || (running && Work(coros) == Work(w0.coros))
        decreases Work(coros)
      {
        ghost var w := View();
        var next, l := Execute(cur);
        ExtendsTransitive(w0, w, View());
        match next {
          case Continue =>
          case Suspended =>
            running := false;
          case Called(n) =>
            ghost var v := View();
            Resume(n);
            ExtendsTransitive(w0, v, View());
          case Transfer(p) =>
            cur := p;
        }
      }
    }

    /** Calling a coroutine from ordinary code: it runs until it first suspends. */
    method Launch(body: seq<Op>)
      requires Valid() && AtRest(View())
      modifies this, poller`focus, poller`evsSize, poller`kernel
      ensures Valid() && AtRest(View()) && Proceeds(StartRoot(old(View()), body), View())
      ensures |coros| > old(|coros|)
      ensures NoDescriptors(old(View())) && TimerOnly(body) ==> NoDescriptors(View())
    {
      hide Inv, Extends, Proceeds, NoDescriptors, Work, KernelOk;
      ghost var w := View();
      var n := |coros|;
      StartKeepsInv(w, body);
      coros := coros + [Coro(body, [], [], None, false, 0)];
      place, owner, active := place + [Running], owner + [n], active + {n};
      assert View() == StartRoot(w, body);
      Resume(n);
      LaunchCompletes(w, body, View());
    }

    // -------------------------------------------------------------- the event loop

    /** `--coro_count_`. */
    method CountOut()
      requires coroCount > 0 && owed > 0
      modifies this`coroCount, this`owed
      ensures View() == Settle(old(View()))
    {
      coroCount, owed := coroCount - 1, owed - 1;
    }

    /** Pop the top node, resume its coroutine, count it out. */
    method WakeTop(n: TimeNode)
      requires Valid() && AtRest(View()) && IsTop(timeNodes, n) && n.time <= clock
      modifies this, poller`focus, poller`evsSize, poller`kernel
      ensures Valid() && AtRest(View()) && Proceeds(old(View()), View())
      ensures old(log) + [Woken(n.time, old(clock), n.coro)] <= log
      ensures Work(coros) < Work(old(coros))
      ensures NoDescriptors(old(View())) ==> NoDescriptors(View())
    {
      hide Inv, Extends, Proceeds, NoDescriptors, Work, KernelOk;
      ghost var w := View();
      PopTimerKeepsInv(w, n, clock);
      timeNodes := timeNodes - multiset{n};
      place, active, owed := place[n.coro := Running], active + {n.coro}, owed + 1;
      log := log + [Woken(n.time, clock, n.coro)];
      assert View() == PopTimer(w, n, clock);
      Resume(n.coro);
      WakeCompletes(w, n, View());
      CountOut();
    }

    /** The loop test: look at the top node, then at the clock. */
    method TopExpired() returns (n: TimeNode, due: bool)
      requires Valid() && timeNodes != multiset{}
      modifies this`clock
      ensures Valid() && old(clock) <= clock && View() == old(View()).(clock := clock)
      ensures IsTop(timeNodes, n) && (due <==> n.time <= clock)
    {
      hide Inv, IsTop, KernelOk;
      ghost var v := View();
      ghost var top := TopExists(timeNodes);
      n :| IsTop(timeNodes, n);
      var now := Now();
      TickKeepsInv(v, now);
      due := n.time <= now;
    }

    /** `handle_expired_time_nodes_`: drain every node whose time has come. */
    method HandleExpired() returns (any: bool)
      requires Valid() && AtRest(View())
      modifies this, poller`focus, poller`evsSize, poller`kernel
      ensures Valid() && AtRest(View()) && Proceeds(old(View()), View())
      ensures NoDescriptors(old(View())) ==> NoDescriptors(View())
      ensures any ==> Work(coros) < Work(old(coros))
      ensures !any ==> View() == old(View()).(clock := clock)
      ensures forall n :: n in timeNodes ==> n.time > clock
    {
      hide Inv, Proceeds, NoDescriptors, Work, KernelOk;
      ghost var w0 := View();
      any := false;
      ProceedsReflexive(w0);
      while timeNodes != multiset{}
        invariant Valid() && AtRest(View()) && Proceeds(w0, View())
        invariant NoDescriptors(w0) ==> NoDescriptors(View())
        invariant if any then Work(coros) < Work(w0.coros) else View() == w0.(clock := clock)
        decreases Work(coros)
      {
        ghost var v := View();
        var n, due := TopExpired();
        ProceedsTick(w0, v, clock);
        if !due {
          break;
        }
        ghost var u := View();
        WakeTop(n);
        ProceedsTransitive(w0, u, View());
        any := true;
      }
    }

    /** Inside the handler of event e on fd, p of its nodes dealt with since w0. */
    ghost predicate InHandler(w0: World, fd: Fd, e: Mask, nodes: seq<Node>, p: nat)
      reads this, poller
    {
      Valid() && Handling(w0, View(), fd, e, nodes, p) && Proceeds(w0, View())
    }

    lemma AtIterator(w0: World, fd: Fd, e: Mask, nodes: seq<Node>, p: nat)
      requires InHandler(w0, fd, e, nodes, p)
      ensures p <= |nodes|
      ensures var it := |Unmatched(nodes[..p], e)|;
              (it < |detached| <==> p < |nodes|) && (p < |nodes| ==> detached[it] == nodes[p])
      ensures p < |nodes| && !Meets(nodes[p], e) ==>
                InHandler(w0, fd, e, nodes, p + 1) && |Unmatched(nodes[..p + 1], e)| == |Unmatched(nodes[..p], e)| + 1
    {
      hide Inv, Proceeds, Meets, Handling, Unmatched, KernelOk;
      IteratorNode(w0, View(), fd, e, nodes, p);
      if p < |nodes| && !Meets(nodes[p], e) {
        HandlingSkips(w0, View(), fd, e, nodes, p);
      }
    }

    /** `it->revent = e`. */
    method Offer(it: nat, fd: Fd, e: Mask, ghost w0: World, ghost nodes: seq<Node>, ghost p: nat)
      requires InHandler(w0, fd, e, nodes, p) && it < |detached|
      requires p < |nodes| && Meets(nodes[p], e) && it == |Unmatched(nodes[..p], e)|
      modifies this`coros
      ensures InHandler(w0, fd, e, nodes, p) && Offered(View(), e, nodes, p, it)
    {
      hide Inv, Handling, Proceeds, Meets, Unmatched, KernelOk;
      ghost var w := View();
      IteratorNode(w0, w, fd, e, nodes, p);
      OfferHandled(w0, w, fd, e, nodes, p, it);
      var c := detached[it].coro;
      coros := coros[c := coros[c].(revent := e)];
      assert View() == Poke(w, c, e);
    }

    /** Enter the coroutine of the node at the iterator and run it until it suspends. */
    method EnterNode(it: nat)
      requires Valid() && 0 < at && active == {} && it < |detached|
      modifies this, poller`focus, poller`evsSize, poller`kernel
      ensures Valid() && Entered(old(View()), it, View())
    {
      hide Inv, Extends, KernelOk;
      ghost var w := View();
      FireKeepsInv(w, it);
      var node := detached[it];
      detached := detached[..it] + detached[it + 1..];
      place, active, owed := place[node.coro := Running], active + {node.coro}, owed + 1;
      log := log + [Fired(at, node, coros[node.coro].revent)];
      assert View() == Fire(w, it);
      Resume(node.coro);
    }

    /** Run the coroutine of the node at the iterator and count the node out. */
    method ResumeNode(it: nat, fd: Fd, e: Mask, ghost w0: World, ghost nodes: seq<Node>, ghost p: nat)
      requires InHandler(w0, fd, e, nodes, p) && Offered(View(), e, nodes, p, it)
      modifies this, poller`focus, poller`evsSize, poller`kernel
      ensures InHandler(w0, fd, e, nodes, p + 1) && Erased(old(View()), View(), nodes, e, p, it)
    {
      hide Inv, Proceeds, Handling, Offered, Entered, Erased, KernelOk;
      ghost var w := View();
      OfferedFacts(w0, w, fd, e, nodes, p, it);
      EnterNode(it);
      NodeCompletes(w0, w, View(), fd, e, nodes, p, it);
      CountOut();
    }

    /** Take the list of fd out of the scheduler. */
    method SpliceOut(fd: Fd, e: Mask) returns (list: seq<Node>)
      requires Valid() && AtRest(View()) && fd < |descriptorNodes|
      modifies this`at, this`detached, this`descriptorNodes
      ensures InHandler(old(View()), fd, e, list, 0) && list == old(descriptorNodes[fd]) == detached
    {
      hide Inv, Proceeds, Handling, KernelOk;
      ghost var w0 := View();
      list := descriptorNodes[fd];
      DispatchStarts(w0, fd, e);
      at, detached, descriptorNodes := fd, list, descriptorNodes[fd := []];
      assert View() == Detach(w0, fd);
    }

    /** The handler's loop over its local list. `refusals` is how often the proxy of the current node
        will still answer that it is not ready; the loop asks it again each time. */
    method HandleList(fd: Fd, e: Mask, nodes: seq<Node>, ghost w0: World) returns (list: seq<Node>)
      requires InHandler(w0, fd, e, nodes, 0) && nodes == detached
      modifies this, poller`focus, poller`evsSize, poller`kernel
      ensures InHandler(w0, fd, e, nodes, |nodes|) && list == detached
    {
      hide InHandler, Meets, Unmatched, Offered;
      list := nodes;
      var it := 0;
      ghost var p := 0;
      var refusals: nat := *;
      NothingSkipped(nodes, e);
      while it < |list|
        invariant InHandler(w0, fd, e, nodes, p) && list == detached
        invariant p <= |nodes| && it == |Unmatched(nodes[..p], e)|
        decreases |nodes| - p, refusals
      {
        AtIterator(w0, fd, e, nodes, p);
        var node := list[it];
        if Meets(node, e) {
          Offer(it, fd, e, w0, nodes, p);
          if node.proxy && refusals > 0 {
            refusals := refusals - 1;
          } else {
            ResumeNode(it, fd, e, w0, nodes, p);
            list := list[..it] + list[it + 1..];
            p, refusals := p + 1, *;
          }
        } else {
          it, p, refusals := it + 1, p + 1, *;
        }
      }
      AtIterator(w0, fd, e, nodes, p);
    }

    /** The handler's tail: splice what is left to the front, repair the interest. */
    method SpliceBack(fd: Fd, list: seq<Node>)
      requires poller.Valid() && at == fd < |descriptorNodes| && list == detached
      modifies this, poller`focus, poller`evsSize, poller`kernel
      ensures poller.Valid() && View() == Reattach(old(View()))
    {
      descriptorNodes := descriptorNodes[fd := list + descriptorNodes[fd]];
      UpdateDescriptor(fd);
      at, detached := 0, [];
    }

    /** The event handler of `handle_triggered_descriptor_nodes_`. */
    method Dispatch(fd: Fd, e: Mask)
      requires Valid() && AtRest(View()) && fd < |descriptorNodes|
      modifies this, poller`focus, poller`evsSize, poller`kernel
      ensures Valid() && AtRest(View()) && Proceeds(old(View()), View())
      ensures Dispatched(old(View()), View(), fd, e)
      ensures forall n :: n in old(descriptorNodes)[fd] ==>
                (Asks(n.mask, e) <==> Fired(fd, n, e) in Since(old(View()), View()))
    {
      hide Inv, Proceeds, Handling, Dispatched, Reattach, KernelOk;
      ghost var w0 := View();
      var list := SpliceOut(fd, e);
      list := HandleList(fd, e, list, w0);
      DispatchEnds(w0, View(), fd, e);
      SpliceBack(fd, list);
      DispatchLogged(w0, View(), fd, e);
    }

    /** `poller::poll` with the handler: nothing if the timeout is negative, otherwise dispatch each
        reported event, one after the other. */
    method Poll(period: int) returns (asked: bool, batch: seq<(Fd, Mask)>, ghost trail: seq<World>)
      requires Valid() && AtRest(View()) && coroCount > |timeNodes|
      modifies this, poller
      ensures Valid() && AtRest(View()) && Proceeds(old(View()), View())
      ensures asked <==> period > -1_000_000
      ensures !asked ==> View() == old(View()) && poller.asked == old(poller.asked)
      ensures asked ==> poller.asked == old(poller.asked) + 1
      ensures asked ==> IsReport(batch, old(poller.kernel), old(poller.evsSize))
      ensures asked ==> AllDispatched(batch, trail) && trail[0] == old(View()) && trail[|batch|] == View()
    {
      hide Inv, Proceeds, KernelOk, Dispatched, IsReport;
      ghost var w0 := View();
      ProceedsReflexive(w0);
      asked, batch, trail := Milliseconds(period) >= 0, [], [w0];
      MillisecondsExactly(period);
      if !asked {
        return;
      }
      BufferHasRoom(w0);
      batch := poller.EpollWait();
      ReportInRange(w0, batch, poller.evsSize);
      for i := 0 to |batch|
        invariant Valid() && AtRest(View()) && Proceeds(w0, View()) && |w0.lists| <= |descriptorNodes|
        invariant AllDispatched(batch[..i], trail) && trail[0] == w0 && trail[i] == View()
        invariant poller.asked == old(poller.asked) + 1
      {
        ghost var v := View();
        Dispatch(batch[i].0, batch[i].1);
        ProceedsTransitive(w0, v, View());
        ListsStay(w0, View());
        trail := trail + [View()];
      }
      assert batch[..|batch|] == batch;
    }

    /** std::this_thread::sleep_for: at least the period passes. */
    method SleepFor(period: int)
      modifies this`clock
      ensures clock >= old(clock) && clock >= old(clock) + period
    {
      clock := if period > 0 then clock + period else clock;
      var now := Now();
    }

    /** The period of one iteration: until the top deadline if that is within a second, else a second; the
        longest time, up to a second, that passes no deadline. */
    method Period() returns (period: int)
      requires Valid()
      modifies this`clock
      ensures Valid() && old(clock) <= clock && View() == old(View()).(clock := clock)
      ensures timeNodes == multiset{} ==> period == S_PERIOD
      ensures forall n :: IsTop(timeNodes, n) ==>
                period == if n.time <= clock + S_PERIOD then n.time - clock else S_PERIOD
      ensures period <= 1_000_000_000 && forall n :: n in timeNodes ==> period <= n.time - clock
      ensures period == 1_000_000_000 || exists n :: n in timeNodes && period == n.time - clock
    {
      hide Inv, KernelOk;
      ghost var v := View();
      var now := Now();
      TickKeepsInv(v, now);
      period := S_PERIOD;
      if timeNodes != multiset{} {
        ghost var top := TopExists(timeNodes);
        var n :| IsTop(timeNodes, n);
        if n.time <= now + S_PERIOD {
          period := n.time - now;
        }
      }
    }

    /** The event loop. It stops when nothing is pending, or when the environment has answered
        `patience` polls and descriptors are still waited on. */
    method Run(patience: nat)
      requires Valid() && AtRest(View())
      modifies this, poller
      ensures Valid() && AtRest(View()) && Proceeds(old(View()), View())
      ensures coroCount == 0 ==> forall c :: 0 <= c < |coros| ==> coros[c].done
      ensures coroCount != 0 ==> poller.asked == old(poller.asked) + patience
      ensures coroCount != 0 ==> exists fd :: |ListAt(descriptorNodes, fd)| > 0
      ensures NoDescriptors(old(View())) ==> coroCount == 0
    {
      hide Inv, Proceeds, KernelOk, NoDescriptors, Work, IsTop, TimeLeft, Milliseconds, IsReport, AllDispatched, ListAt,
           Measured;
      ghost var w0 := View();
      ProceedsReflexive(w0);
      var left: nat := patience;
      while coroCount != 0
        invariant left <= patience && poller.asked == old(poller.asked) + patience - left
        invariant Valid() && AtRest(View()) && Proceeds(w0, View())
        invariant NoDescriptors(w0) ==> NoDescriptors(View())
        decreases left, Work(coros), TimeLeft(timeNodes, clock)
      {
        ghost var head := View();
        var any := HandleExpired();
        ProceedsTransitive(w0, head, View());
        if any {
          continue;
        }
        ghost var drained := View();
        ClockGoesOn(head, drained);
        var period := Period();
        ProceedsTick(w0, drained, clock);
        ghost var v := View();
        LoopHeadCounts(v);
        if NoDescriptors(v) {
          TimerOnlyHasNoWaiter(v);
        }
        if coroCount > |timeNodes| {
          MillisecondsExactly(period);
          if Milliseconds(period) >= 0 && left == 0 {
            return;
          }
          var asked, batch, trail := Poll(period);
          ProceedsTransitive(w0, v, View());
          if asked {
            left := left - 1;
          } else {
            TimeRanOut(head, drained, v, period);
          }
        } else {
          SleepFor(period);
          TickKeepsInv(v, clock);
          ProceedsTick(w0, v, clock);
          assert View() == v.(clock := clock);
          TimeSlept(head, drained, v, period, clock);
        }
      }
      LoopHeadCounts(View());
    }
  }
}
