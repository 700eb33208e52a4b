/** When the destructors of tasks find them done: exactly what goes wrong when they do not, and the
    programs for which they always do. */
module Joining {
  import opened Options
  import opened Machine
  import opened Runs

  // ---------------------------------------------------------------- destroying tasks that are not done

  /** The tasks frame c holds are done. */
  ghost predicate HeldDone(w: World, c: nat) {
    c < |w.coros| && forall k :: k in w.coros[c].kids ==> IsDone(w.coros, k)
  }

  /** Nothing in the scheduler, on the stack or in a promise refers to a frame that was destroyed. */
  ghost predicate NothingDangles(w: World) {
    forall d, h :: d in w.destroyed ==> !IsHome(w, d, h)
  }

  lemma CleanStep(w: World, l: Label)
    requires Inv(w) && Enabled(w, l) && w.dangling == {} && (l.Return? ==> HeldDone(w, l.c))
    ensures Apply(w, l).dangling == {}
  {
    hide Inv, WithDestroyed, Waiters, ListAt, OrMask, WithList, WithFocus, WithKernel, WithoutFds, Waited, Departed;
    if l.Return? {
      DestroysDone(w, w.coros[l.c].kids);
      WithDestroyedGrows(w, w.coros[l.c].kids);
    } else if l.SweepAll? {
      var departed := Departed(w.coros, w.coros[l.c].clients);
      SweepMembers(w.coros, w.coros[l.c].clients);
      DestroysDone(w, Tasks(departed));
      WithDestroyedGrows(w, Tasks(departed));
    }
  }

  lemma DestroysDone(w: World, tasks: seq<nat>)
    requires Inv(w) && w.dangling == {} && forall k :: k in tasks ==> IsDone(w.coros, k)
    ensures WithDestroyed(w, tasks).dangling == {}
  {
    DestroyedMore(w, tasks);
  }

  /** A frame that returns while a task it holds is not done leaves a destroyed frame that something will
      resume. */
  lemma UnfinishedTaskDangles(w: World, c: nat) returns (k: nat, h: Home)
    requires Inv(w) && Enabled(w, Return(c)) && !HeldDone(w, c)
    ensures k in w.coros[c].kids && k in Apply(w, Return(c)).destroyed && IsHome(Apply(w, Return(c)), k, h)
  {
    var v := Apply(w, Return(c));
    hide Inv, IsHome, WithDestroyed;
    RunningFacts(w, c);
    k :| k in w.coros[c].kids && !IsDone(w.coros, k);
    HeldInRange(w, c);
    Frees(w, w.coros[c].kids);
    WithDestroyedGrows(w, w.coros[c].kids);
    StepKeepsInv(w, Return(c));
    NoCoroutineLost(v, k);
    h :| IsHome(v, k, h);
  }

  lemma HeldInRange(w: World, c: nat)
    requires Inv(w) && c < |w.coros|
    ensures forall k :: k in w.coros[c].kids ==> c < k < |w.coros|
  {
    KidsAfter(w.coros, w.place, w.owner, c);
  }

  lemma Frees(w: World, tasks: seq<nat>)
    requires Inv(w) && forall k :: k in tasks ==> k < |w.coros|
    ensures forall k :: k in tasks ==> k in WithDestroyed(w, tasks).destroyed
  {
    DestroyedMore(w, tasks);
  }

  lemma {:induction false} CleanSoFar(states: seq<World>, labels: seq<Label>, i: nat)
    requires IsRun(states, labels) && i <= |labels|
    requires forall j :: 0 <= j < i && labels[j].Return? ==> HeldDone(states[j], labels[j].c)
    ensures states[i].dangling == {}
  {
    hide Enabled, Apply, HeldDone;
    if i > 0 {
      CleanSoFar(states, labels, i - 1);
      RunKeepsInv(states, labels, i - 1);
      CleanStep(states[i - 1], labels[i - 1]);
    }
  }

  lemma CleanDangles(w: World)
    requires Inv(w) && w.dangling == {}
    ensures NothingDangles(w)
  {
    hide Inv, IsHome;
    forall d, h | d in w.destroyed
      ensures !IsHome(w, d, h)
    {
      DestroyedInRange(w, d);
      NoCoroutineLost(w, d);
    }
  }

  lemma DestroyedInRange(w: World, d: nat)
    requires Inv(w) && d in w.destroyed
    ensures d < |w.coros| && (w.dangling == {} ==> w.coros[d].done)
  {
  }

  /** A run never leaves a destroyed frame to be resumed exactly if every frame that returned on it found
      the tasks it held done. */
  lemma RunIsCleanExactly(states: seq<World>, labels: seq<Label>)
    requires IsRun(states, labels)
    ensures (forall i :: 0 <= i <= |labels| ==> NothingDangles(states[i])) <==>
            (forall i :: 0 <= i < |labels| && labels[i].Return? ==> HeldDone(states[i], labels[i].c))
  {
    hide Enabled, Apply, HeldDone, NothingDangles;
    if forall i :: 0 <= i < |labels| && labels[i].Return? ==> HeldDone(states[i], labels[i].c) {
      forall i | 0 <= i <= |labels|
        ensures NothingDangles(states[i])
      {
        RunKeepsInv(states, labels, i);
        CleanSoFar(states, labels, i);
        CleanDangles(states[i]);
      }
    } else {
      var i :| 0 <= i < |labels| && labels[i].Return? && !HeldDone(states[i], labels[i].c);
      RunKeepsInv(states, labels, i);
      var k, h := UnfinishedTaskDangles(states[i], labels[i].c);
      Dangling(states[i + 1], k, h);
    }
  }

  lemma Dangling(w: World, k: nat, h: Home)
    requires k in w.destroyed && IsHome(w, k, h)
    ensures !NothingDangles(w)
  {
  }

  // The smallest such run: a coroutine calls one that sleeps, and returns without awaiting it.
  const SLEEPER := [Sleep(5)]
  const CALLER := [Spawn(SLEEPER)]
  const STARTED := INIT.(coros := [Coro(CALLER, [], [], None, false, 0)], place := [Running], owner := [0],
                         active := {0})
  const CALLED := STARTED.(coros := [Coro([], [1], [], None, false, 0), Coro(SLEEPER, [], [], None, false, 0)],
                           place := [Running, Running], owner := [0, 0], active := {0, 1})
  const ASLEEP := CALLED.(coros := [Coro([], [1], [], None, false, 0), Coro([], [], [], None, false, 0)],
                          place := [Running, Sleeping(5)], active := {0}, timers := multiset{TimeNode(5, 1)},
                          count := 1)
  const ABANDONED := ASLEEP.(coros := [Coro([], [1], [], None, true, 0), Coro([], [], [], None, false, 0)],
                             place := [Finished, Sleeping(5)], active := {}, destroyed := {1}, dangling := {1})

  lemma CallerCalls()
    ensures Enabled(INIT, Start(CALLER)) && Apply(INIT, Start(CALLER)) == STARTED
    ensures Enabled(STARTED, Call(0)) && Apply(STARTED, Call(0)) == CALLED
  {
    assert CALLER[1..] == [];
    assert Popped(STARTED.coros, 0) == [Coro([], [], [], None, false, 0)];
    assert STARTED.place + [Running] == CALLED.place && STARTED.owner + [0] == CALLED.owner;
    var empty: seq<nat> := [];
    assert empty + [1] == [1];
    var coros := Apply(STARTED, Call(0)).coros;
    assert STARTED.coros[0].rest[0] == CALLER[0] && |coros| == 2;
    assert coros[0] == CALLED.coros[0] && coros[1] == CALLED.coros[1];
    assert coros == CALLED.coros;
  }

  lemma SleeperSleeps()
    ensures Enabled(CALLED, SleepPark(1, 0, 0)) && Apply(CALLED, SleepPark(1, 0, 0)) == ASLEEP
  {
    assert SLEEPER[1..] == [];
  }

  lemma CallerReturns()
    ensures Enabled(ASLEEP, Return(0)) && Apply(ASLEEP, Return(0)) == ABANDONED
  {
    assert Tree(ASLEEP.coros, 1) == {1};
    assert Freed(ASLEEP.coros, [1]) == {1} by {
      assert [1][0] == 1;
    }
  }

  lemma SleeperQueued()
    ensures Enabled(ABANDONED, Expire(TimeNode(5, 1), 5))
  {
  }

  /** The sleeper's frame is gone, and its node is still queued, to be popped and resumed. */
  lemma AbandonedSleeper() returns (states: seq<World>, labels: seq<Label>, n: TimeNode)
    ensures IsRun(states, labels) && var w := states[|labels|];
            n in w.timers && n.coro in w.destroyed && Enabled(w, Expire(n, n.time))
  {
    hide Enabled, Apply;
    CallerCalls();
    SleeperSleeps();
    CallerReturns();
    SleeperQueued();
    n := TimeNode(5, 1);
    states, labels := [INIT, STARTED, CALLED, ASLEEP, ABANDONED],
                      [Start(CALLER), Call(0), SleepPark(1, 0, 0), Return(0)];
  }

  // ---------------------------------------------------------------- awaiting

  /** co_await of a task comes back only when that task is done. */
  lemma AwaitReturnsWhenDone(w: World, l: Label, c: nat)
    requires Inv(w) && Enabled(w, l) && c < |w.place| && w.place[c].Awaiting?
    ensures c < |Apply(w, l).place| && w.place[c].child < |Apply(w, l).coros|
    ensures Apply(w, l).place[c] == w.place[c] || Apply(w, l).coros[w.place[c].child].done
  {
    hide Inv, Waiters, ListAt, OrMask, WithList, WithFocus, WithKernel, Unfinished, WithDestroyed, WithoutFds, Waited,
         Departed, IsDone, AtRest;
    AwaitedInRange(w, c);
    if l.Expire? {
      PopTimerKeepsInv(w, l.node, l.now);
    } else if l.Enter? {
      FireKeepsInv(w, l.i);
    } else if IsUser(l) {
      RunningFacts(w, l.c);
      if l.Return? {
        FinishKeepsInv(w, l.c);
        WithDestroyedGrows(w, w.coros[l.c].kids);
      } else if l.SweepAll? {
        WithDestroyedGrows(w, Tasks(Departed(w.coros, w.coros[l.c].clients)));
      }
    }
  }

  lemma AwaitedInRange(w: World, c: nat)
    requires Inv(w) && c < |w.place| && w.place[c].Awaiting?
    ensures |w.coros| == |w.place| && w.place[c].child < |w.coros|
  {
  }

  // ---------------------------------------------------------------- programs that join what they start

  /** From here on, with n tasks held and those in `open` not yet awaited, the program awaits them all. */
  predicate Joins(ops: seq<Op>, n: nat, open: set<nat>) {
    if ops == [] then open == {}
    else match ops[0]
      case Spawn(_) => Joins(ops[1..], n + 1, open + {n})
      case Await(k) => Joins(ops[1..], n, open - {k})
      case _ => Joins(ops[1..], n, open)
  }

  /** Frame c still joins: every unfinished task it holds is to be awaited, or is being awaited. */
  ghost predicate JoinsFrom(w: World, c: nat, open: set<nat>) {
    && c < |w.coros| && c < |w.place| && Joins(w.coros[c].rest, |w.coros[c].kids|, open)
    && (w.coros[c].done ==> w.coros[c].rest == [])
    && forall i :: 0 <= i < |w.coros[c].kids| ==>
         w.coros[c].kids[i] < |w.coros| &&
         (w.coros[w.coros[c].kids[i]].done || i in open || w.place[c] == Awaiting(w.coros[c].kids[i]))
  }

  /** What any step leaves of a frame it does not run. */
  ghost predicate LeftAlone(w: World, v: World, c: nat) {
    && |w.coros| <= |v.coros| && c < |w.coros|
    && v.coros[c].rest == w.coros[c].rest && v.coros[c].kids == w.coros[c].kids
    && (v.coros[c].done ==> w.coros[c].done || w.coros[c].rest == [])
    && (forall b :: 0 <= b < |w.coros| && w.coros[b].done ==> v.coros[b].done)
  }

  ghost predicate Elsewhere(l: Label, c: nat) {
    !IsUser(l) || l.c != c || l.Return?
  }

  /** Destroying frames touches nothing but the record. */
  lemma DestroysRecorded(w: World, l: Label)
    requires Enabled(w, l)
    ensures l.Return? ==> var u := WithDestroyed(w, w.coros[l.c].kids);
                          u == w.(destroyed := u.destroyed, dangling := u.dangling)
    ensures l.SweepAll? ==> var u := WithDestroyed(w, Tasks(Departed(w.coros, w.coros[l.c].clients)));
                            u == w.(destroyed := u.destroyed, dangling := u.dangling)
  {
    if l.Return? {
      WithDestroyedGrows(w, w.coros[l.c].kids);
    } else if l.SweepAll? {
      WithDestroyedGrows(w, Tasks(Departed(w.coros, w.coros[l.c].clients)));
    }
  }

  lemma DoneStays(w: World, l: Label, b: nat)
    requires Enabled(w, l) && b < |w.coros| && w.coros[b].done
    ensures |w.coros| <= |Apply(w, l).coros| && Apply(w, l).coros[b].done
  {
    hide Waiters, ListAt, Unfinished, OrMask, WithList, WithFocus, WithKernel, WithDestroyed, WithoutFds, Waited,
         Departed, IsDone, AtRest;
    DestroysRecorded(w, l);
  }

  lemma FrameKept(w: World, l: Label, c: nat)
    requires Enabled(w, l) && c < |w.coros| && Elsewhere(l, c)
    ensures var v := Apply(w, l);
            |w.coros| <= |v.coros| && v.coros[c].rest == w.coros[c].rest && v.coros[c].kids == w.coros[c].kids &&
            (v.coros[c].done ==> w.coros[c].done || w.coros[c].rest == [])
  {
    hide Waiters, ListAt, Unfinished, OrMask, WithList, WithFocus, WithKernel, WithDestroyed, WithoutFds, Waited,
         Departed, IsDone, AtRest;
    DestroysRecorded(w, l);
  }

  lemma OthersLeftAlone(w: World, l: Label, c: nat)
    requires Enabled(w, l) && c < |w.coros| && Elsewhere(l, c)
    ensures LeftAlone(w, Apply(w, l), c)
  {
    hide Enabled, Apply;
    FrameKept(w, l, c);
    forall b | 0 <= b < |w.coros| && w.coros[b].done
      ensures Apply(w, l).coros[b].done
    {
      DoneStays(w, l, b);
    }
  }

  lemma JoinsStep(ops: seq<Op>, n: nat, open: set<nat>)
    requires ops != [] && Joins(ops, n, open)
    ensures match ops[0]
            case Spawn(_) => Joins(ops[1..], n + 1, open + {n})
            case Await(k) => Joins(ops[1..], n, open - {k})
            case _ => Joins(ops[1..], n, open)
  {
  }

  /** What a user step leaves of the frame that takes it. */
  ghost predicate OwnEffect(w: World, v: World, c: nat) {
    && c < |w.coros| <= |v.coros| && c < |v.place| && w.coros[c].rest != []
    && (forall b :: 0 <= b < |w.coros| ==> v.coros[b].done == w.coros[b].done)
    && v.coros[c].rest == w.coros[c].rest[1..]
    && match w.coros[c].rest[0]
       case Spawn(_) => v.coros[c].kids == w.coros[c].kids + [|w.coros|] && |v.coros| > |w.coros|
       case Await(k) =>
         v.coros[c].kids == w.coros[c].kids &&
         (k < |w.coros[c].kids| ==>
            && w.coros[c].kids[k] < |w.coros|
            && (v.coros[w.coros[c].kids[k]].done || v.place[c] == Awaiting(w.coros[c].kids[k])))
       case _ => v.coros[c].kids == w.coros[c].kids
  }

  lemma OwnStepEffect(w: World, l: Label)
    requires Enabled(w, l) && IsUser(l) && !l.Return? && |w.coros| == |w.place| && w.place[l.c] == Running
    ensures OwnEffect(w, Apply(w, l), l.c)
  {
    hide Waiters, ListAt, OrMask, WithList, WithFocus, WithKernel, Unfinished, WithDestroyed, WithoutFds, Waited,
         Departed;
    DestroysRecorded(w, l);
  }

  lemma OwnStep(w: World, v: World, c: nat, open: set<nat>) returns (open': set<nat>)
    requires OwnEffect(w, v, c) && JoinsFrom(w, c, open) && w.place[c] == Running && !w.coros[c].done
    ensures JoinsFrom(v, c, open')
  {
    JoinsStep(w.coros[c].rest, |w.coros[c].kids|, open);
    hide Joins;
    var op := w.coros[c].rest[0];
    open' := if op.Spawn? then open + {|w.coros[c].kids|} else if op.Await? then open - {op.k} else open;
  }

  lemma AwayStep(w: World, v: World, c: nat, open: set<nat>)
    requires JoinsFrom(w, c, open) && LeftAlone(w, v, c) && c < |v.place|
    requires w.place[c].Awaiting? ==> w.place[c].child < |v.coros| &&
                                      (v.place[c] == w.place[c] || v.coros[w.place[c].child].done)
    ensures JoinsFrom(v, c, open)
  {
    hide Joins;
  }

  /** A frame that joins keeps joining, whatever step is taken. */
  lemma JoiningKept(w: World, l: Label, c: nat, open: set<nat>) returns (open': set<nat>)
    requires Inv(w) && Enabled(w, l) && JoinsFrom(w, c, open)
    ensures JoinsFrom(Apply(w, l), c, open')
  {
    hide Inv, JoinsFrom, LeftAlone, OwnEffect, Waiters, ListAt;
    StepKeepsInv(w, l);
    SameLengths(w);
    SameLengths(Apply(w, l));
    InRange(w, c, open);
    if Elsewhere(l, c) {
      open' := open;
      OthersLeftAlone(w, l, c);
      Grows(w, Apply(w, l), c);
      if w.place[c].Awaiting? {
        AwaitReturnsWhenDone(w, l, c);
      }
      AwayStep(w, Apply(w, l), c, open);
    } else {
      RunningFacts(w, c);
      OwnStepEffect(w, l);
      open' := OwnStep(w, Apply(w, l), c, open);
    }
  }

  lemma InRange(w: World, c: nat, open: set<nat>)
    requires JoinsFrom(w, c, open)
    ensures c < |w.coros|
  {
  }

  lemma Grows(w: World, v: World, c: nat)
    requires LeftAlone(w, v, c)
    ensures |w.coros| <= |v.coros|
  {
  }

  /** A body that awaits every task it holds, and so do the bodies it calls, at every depth. */
  predicate JoinsDeep(body: seq<Op>)
    decreases body, 1
  {
    Joins(body, 0, {}) && BodiesJoin(body)
  }

  predicate BodiesJoin(ops: seq<Op>)
    decreases ops, 0
  {
    forall i :: 0 <= i < |ops| ==>
      match ops[i]
      case Spawn(body) => JoinsDeep(body)
      case Serve(_, body) => JoinsDeep(body)
      case _ => true
  }

  /** A body that awaits every task it holds. */
  predicate JoinsAll(body: seq<Op>) {
    Joins(body, 0, {})
  }

  predicate Creates(l: Label, w: World, body: seq<Op>)
    requires Enabled(w, l)
  {
    match l
    case Call(c) => w.coros[c].rest[0].body == body
    case AddClient(c) => w.coros[c].rest[0].body == body
    case Start(b) => b == body
    case _ => false
  }

  lemma CreationJoins(w: World, l: Label, body: seq<Op>)
    requires Inv(w) && Enabled(w, l) && Creates(l, w, body) && JoinsAll(body)
    ensures JoinsFrom(Apply(w, l), |w.coros|, {})
  {
    SameLengths(w);
    hide Inv, Waiters, ListAt;
  }

  lemma {:induction false} JoiningOverRun(states: seq<World>, labels: seq<Label>, i: nat, j: nat, c: nat,
                                          open: set<nat>)
    returns (open': set<nat>)
    requires IsRun(states, labels) && i <= j <= |labels| && JoinsFrom(states[i], c, open)
    ensures JoinsFrom(states[j], c, open')
    decreases j
  {
    hide Inv, JoinsFrom;
    if i == j {
      open' := open;
    } else {
      open' := JoiningOverRun(states, labels, i, j - 1, c, open);
      RunKeepsInv(states, labels, j - 1);
      open' := JoiningKept(states[j - 1], labels[j - 1], c, open');
    }
  }

  lemma DoneFrameHoldsDone(w: World, c: nat, open: set<nat>)
    requires JoinsFrom(w, c, open) && w.coros[c].done && w.place[c].Finished?
    ensures forall i :: 0 <= i < |w.coros[c].kids| ==>
              w.coros[c].kids[i] < |w.coros| && w.coros[w.coros[c].kids[i]].done
  {
  }

  lemma DoneIsFinished(w: World, c: nat)
    requires Inv(w) && c < |w.coros| && w.coros[c].done
    ensures |w.coros| == |w.place| && w.place[c].Finished?
  {
  }

  /** A frame that joins finds, when it returns, the tasks it holds done. */
  lemma JoiningReturns(w: World, c: nat, open: set<nat>)
    requires Inv(w) && Enabled(w, Return(c)) && JoinsFrom(w, c, open)
    ensures HeldDone(w, c)
  {
    hide Inv;
    RunningFacts(w, c);
  }

  /** Over every run: when a frame whose body awaits everything it holds returns, all that is done, and
      nothing in the scheduler refers to it. So the destructors of its tasks destroy no suspended
      coroutine. */
  lemma JoinedFramesEndClean(states: seq<World>, labels: seq<Label>, i: nat, j: nat, body: seq<Op>, h: Home)
    requires IsRun(states, labels) && i < j < |labels| && labels[j] == Return(|states[i].coros|)
    requires Creates(labels[i], states[i], body) && JoinsAll(body)
    ensures var w := states[j]; var c := |states[i].coros|;
            HeldDone(w, c) && forall k :: k in w.coros[c].kids ==> !IsHome(w, k, h)
  {
    var c := |states[i].coros|;
    var w := states[j];
    hide Inv, IsHome, Enabled, Apply, JoinsAll, JoinsFrom, Creates;
    RunKeepsInv(states, labels, i);
    RunKeepsInv(states, labels, j);
    CreationJoins(states[i], labels[i], body);
    var open := JoiningOverRun(states, labels, i + 1, j, c, {});
    JoiningReturns(w, c, open);
    forall k | k in w.coros[c].kids
      ensures !IsHome(w, k, h)
    {
      NoCoroutineLost(w, k);
    }
  }

  // ---------------------------------------------------------------- runs of joining programs

  /** Every frame joins, and so will all the frames it is still to call. */
  ghost predicate AllJoin(w: World) {
    forall c :: 0 <= c < |w.coros| ==> BodiesJoin(w.coros[c].rest) && exists open :: JoinsFrom(w, c, open)
  }

  predicate StartsJoining(l: Label) {
    l.Start? ==> JoinsDeep(l.body)
  }

  lemma RestAfter(w: World, l: Label, c: nat)
    requires Enabled(w, l) && c < |w.coros|
    ensures var v := Apply(w, l);
            && c < |v.coros|
            && (v.coros[c].rest == w.coros[c].rest ||
                (w.coros[c].rest != [] && v.coros[c].rest == w.coros[c].rest[1..]))
  {
    hide Waiters, ListAt, Unfinished, OrMask, WithList, WithFocus, WithKernel, WithDestroyed, WithoutFds, Waited,
         Departed, IsDone, AtRest;
    DestroysRecorded(w, l);
  }

  lemma NewFrame(w: World, l: Label) returns (body: seq<Op>)
    requires Enabled(w, l) && |Apply(w, l).coros| > |w.coros|
    ensures Creates(l, w, body) && |Apply(w, l).coros| == |w.coros| + 1 && Apply(w, l).coros[|w.coros|].rest == body
  {
    hide Waiters, ListAt, Unfinished, OrMask, WithList, WithFocus, WithKernel, WithDestroyed, WithoutFds, Waited,
         Departed, IsDone, AtRest;
    DestroysRecorded(w, l);
    body := if l.Start? then l.body else if l.Call? || l.AddClient? then w.coros[l.c].rest[0].body else [];
  }

  lemma CreatedJoins(w: World, l: Label, body: seq<Op>)
    requires Enabled(w, l) && AllJoin(w) && StartsJoining(l) && Creates(l, w, body)
    ensures JoinsDeep(body)
  {
    if !l.Start? {
      assert BodiesJoin(w.coros[l.c].rest);
    }
  }

  lemma AllJoinStep(w: World, l: Label)
    requires Inv(w) && Enabled(w, l) && AllJoin(w) && StartsJoining(l)
    ensures AllJoin(Apply(w, l))
    ensures l.Return? ==> HeldDone(w, l.c)
  {
    hide Inv, Enabled, Apply, JoinsFrom, BodiesJoin, Creates, HeldDone;
    var v := Apply(w, l);
    forall c | 0 <= c < |v.coros|
      ensures BodiesJoin(v.coros[c].rest) && exists open :: JoinsFrom(v, c, open)
    {
      if c < |w.coros| {
        assert BodiesJoin(w.coros[c].rest);
        var open :| JoinsFrom(w, c, open);
        var open' := JoiningKept(w, l, c, open);
        RestAfter(w, l, c);
        if w.coros[c].rest != [] {
          TailJoins(w.coros[c].rest);
        }
      } else {
        var body := NewFrame(w, l);
        CreatedJoins(w, l, body);
        CreationJoins(w, l, body);
      }
    }
    if l.Return? {
      ReturnsInRange(w, l.c);
      assert BodiesJoin(w.coros[l.c].rest);
      var open :| JoinsFrom(w, l.c, open);
      JoiningReturns(w, l.c, open);
    }
  }

  lemma ReturnsInRange(w: World, c: nat)
    requires Enabled(w, Return(c))
    ensures c < |w.coros|
  {
  }

  lemma TailJoins(ops: seq<Op>)
    requires BodiesJoin(ops) && ops != []
    ensures BodiesJoin(ops[1..])
  {
  }

  lemma {:induction false} RunJoins(states: seq<World>, labels: seq<Label>, i: nat)
    requires IsRun(states, labels) && i <= |labels| && forall j :: 0 <= j < |labels| ==> StartsJoining(labels[j])
    ensures AllJoin(states[i])
  {
    hide Enabled, Apply, AllJoin, StartsJoining;
    if i == 0 {
      NothingToJoin();
    } else {
      RunJoins(states, labels, i - 1);
      RunKeepsInv(states, labels, i - 1);
      AllJoinStep(states[i - 1], labels[i - 1]);
    }
  }

  lemma NothingToJoin()
    ensures AllJoin(INIT)
  {
  }

  /** If every coroutine started from outside awaits all it holds, at every depth, then over the whole
      run every frame that returns finds its tasks done, and no destroyed frame is ever left to be
      resumed. */
  lemma JoiningRunsAreClean(states: seq<World>, labels: seq<Label>, i: nat)
    requires IsRun(states, labels) && i <= |labels| && forall j :: 0 <= j < |labels| ==> StartsJoining(labels[j])
    ensures states[i].dangling == {} && NothingDangles(states[i])
    ensures i < |labels| && labels[i].Return? ==> HeldDone(states[i], labels[i].c)
  {
    hide Enabled, Apply, AllJoin, StartsJoining, HeldDone, NothingDangles;
    forall j | 0 <= j < |labels| && labels[j].Return?
      ensures HeldDone(states[j], labels[j].c)
    {
      RunJoins(states, labels, j);
      RunKeepsInv(states, labels, j);
      AllJoinStep(states[j], labels[j]);
    }
    CleanSoFar(states, labels, i);
    RunIsCleanExactly(states, labels);
  }
}
