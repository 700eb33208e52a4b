/** The server: what its sweep of finished clients destroys, and what it may close. */
module Sessions {
  import opened Machine
  import opened Runs
  import opened Joining

  /** The sweep goes through the clients in order and decides each by itself: over a split list it is the
      two sweeps one after the other, and one client is kept exactly if it is unfinished. */
  lemma {:induction false} SweepInOrder(coros: seq<Coro>, a: seq<Client>, b: seq<Client>)
    ensures Unfinished(coros, a + b) == Unfinished(coros, a) + Unfinished(coros, b)
    ensures |b| == 1 ==> Unfinished(coros, b) == if IsDone(coros, b[0].task) then [] else b
  {
    hide Unfinished, Departed, IsDone;
    if b == [] {
      SweepStep(coros, a, Client(0, 1));
      assert a + b == a;
    } else {
      var last := |b| - 1;
      SweepInOrder(coros, a, b[..last]);
      SweepStep(coros, a + b[..last], b[last]);
      SweepStep(coros, b[..last], b[last]);
      assert a + b == a + b[..last] + [b[last]] && b == b[..last] + [b[last]];
    }
  }

  /** `async_session_`: call the handler, await it until it is done. */
  function SessionBody(handler: seq<Op>): seq<Op> {
    [Spawn(handler), Await(0)]
  }

  /** Whatever the handler is, its session awaits it. */
  lemma SessionsJoin(handler: seq<Op>)
    ensures JoinsAll(SessionBody(handler))
  {
    var body := SessionBody(handler);
    assert body[1..] == [Await(0)] && body[1..][1..] == [];
    assert Joins([], 1, {0} - {0});
    assert Joins(body[1..], 1, {0});
  }

  // ---------------------------------------------------------------- one client's life

  /** Client x of the server's coroutine o was added at step i. */
  ghost predicate Added(states: seq<World>, labels: seq<Label>, i: nat, o: nat, x: Client, body: seq<Op>)
    requires IsRun(states, labels)
  {
    && i < |labels| && labels[i] == AddClient(o) && o < |states[i].coros| && states[i].coros[o].rest != []
    && states[i].coros[o].rest[0] == Serve(x.fd, body) && x.task == |states[i].coros|
  }

  /** It was erased by the sweep at step j. */
  ghost predicate Swept(states: seq<World>, labels: seq<Label>, j: nat, o: nat, x: Client)
    requires IsRun(states, labels)
  {
    && j < |labels| && labels[j] == SweepAll(o) && o < |states[j].coros| && o < |states[j + 1].coros|
    && x in states[j].coros[o].clients && x !in states[j + 1].coros[o].clients
  }

  /** The sweep erases a client only when its session is done; then its socket is unsubscribed. */
  lemma SweepErasesDone(states: seq<World>, labels: seq<Label>, j: nat, o: nat, x: Client)
    requires IsRun(states, labels) && Swept(states, labels, j, o, x)
    ensures x.task < |states[j].coros| && states[j].coros[x.task].done && x.task in states[j + 1].destroyed
    ensures x.fd !in states[j + 1].kernel && FocusAt(states[j + 1].focus, x.fd) == 0
    ensures x.fd in states[j + 1].severed - states[j].severed ==>
              Waiters(states[j].lists, states[j].at, states[j].detached, x.fd) != []
  {
    var w := states[j];
    RunKeepsInv(states, labels, j);
    assert Enabled(w, SweepAll(o)) && states[j + 1] == SweepFinished(w, o);
    SweepCloses(w, o, x);
  }

  lemma SweepCloses(w: World, o: nat, x: Client)
    requires Inv(w) && Enabled(w, SweepAll(o)) && x in w.coros[o].clients && x !in SweepFinished(w, o).coros[o].clients
    ensures var v := SweepFinished(w, o);
            && IsDone(w.coros, x.task) && x.task in v.destroyed
            && x.fd !in v.kernel && FocusAt(v.focus, x.fd) == 0
            && (x.fd in v.severed - w.severed ==> Waiters(w.lists, w.at, w.detached, x.fd) != [])
  {
    hide Inv, Unfinished, Departed, WithDestroyed, Waiters, WithoutFds, IsDone;
    var departed := Departed(w.coros, w.coros[o].clients);
    SweepMembers(w.coros, w.coros[o].clients);
    assert x in departed;
    var n :| 0 <= n < |departed| && departed[n] == x;
    assert Tasks(departed)[n] == x.task && x.fd in Descriptors(departed);
    DepartedInRange(w, departed);
    Frees(w, Tasks(departed));
    WithDestroyedGrows(w, Tasks(departed));
    InterestDropped(w, departed);
  }

  lemma DepartedInRange(w: World, departed: seq<Client>)
    requires forall x :: x in departed ==> IsDone(w.coros, x.task)
    ensures forall k :: k in Tasks(departed) ==> k < |w.coros|
  {
  }

  lemma InterestDropped(w: World, departed: seq<Client>)
    requires Inv(w)
    ensures forall fd: int ::
              FocusAt(WithoutFds(w.focus, departed), fd) ==
              if fd in Descriptors(departed) then 0 else FocusAt(w.focus, fd)
  {
    WithoutFdsKeepsKernel(w.focus, w.kernel, departed);
  }

  /** The sweep drops the interest in the descriptors of the finished clients, and in no other. */
  lemma SweepUnsubscribes(states: seq<World>, labels: seq<Label>, j: nat, o: nat, fd: int)
    requires IsRun(states, labels) && j < |labels| && labels[j] == SweepAll(o)
    ensures o < |states[j].coros|
    ensures var w, v := states[j], states[j + 1];
            if exists x :: x in w.coros[o].clients && x.fd == fd && IsDone(w.coros, x.task) then
              fd !in v.kernel && FocusAt(v.focus, fd) == 0
            else
              FocusAt(v.focus, fd) == FocusAt(w.focus, fd) && (fd in v.kernel <==> fd in w.kernel) &&
              (fd in v.kernel ==> v.kernel[fd] == w.kernel[fd])
  {
    hide Inv, Unfinished, Departed, WithDestroyed, Waiters, WithoutFds, IsDone, Waited;
    var w := states[j];
    RunKeepsInv(states, labels, j);
    assert Enabled(w, SweepAll(o)) && states[j + 1] == SweepFinished(w, o);
    var departed := Departed(w.coros, w.coros[o].clients);
    SweepMembers(w.coros, w.coros[o].clients);
    WithDestroyedGrows(w, Tasks(departed));
    InterestDropped(w, departed);
    if x :| x in w.coros[o].clients && x.fd == fd && IsDone(w.coros, x.task) {
      assert x in departed;
      assert fd in Descriptors(departed);
    }
  }

  // ---------------------------------------------------------------- what destroying a frame takes away

  /** Each frame on the path holds the task of the next. */
  ghost predicate HoldsAlong(coros: seq<Coro>, path: seq<nat>, c: nat, k: nat) {
    && path != [] && path[0] == c && path[|path| - 1] == k
    && (forall i :: 0 <= i < |path| ==> path[i] < |coros|)
    && forall i :: 0 <= i < |path| - 1 ==> path[i + 1] in coros[path[i]].kids
  }

  ghost predicate KidsBehind(coros: seq<Coro>) {
    forall c, k {:trigger k in coros[c].kids} :: 0 <= c < |coros| && k in coros[c].kids ==> c < k < |coros|
  }

  lemma TreeStep(coros: seq<Coro>, c: nat, b: nat)
    requires c < |coros| && b in coros[c].kids && b > c
    ensures forall k :: k in Tree(coros, b) ==> k in Tree(coros, c)
  {
    var i :| 0 <= i < |coros[c].kids| && coros[c].kids[i] == b;
  }

  lemma {:induction false} PathInTree(coros: seq<Coro>, path: seq<nat>, c: nat, k: nat)
    requires KidsBehind(coros) && HoldsAlong(coros, path, c, k)
    ensures k in Tree(coros, c)
    decreases |path|
  {
    hide Tree;
    if |path| > 1 {
      var rest := path[1..];
      assert forall i :: 0 <= i < |rest| ==> rest[i] == path[i + 1];
      assert path[0 + 1] in coros[path[0]].kids;
      PathInTree(coros, rest, path[1], k);
      TreeStep(coros, c, path[1]);
    }
  }

  lemma {:induction false} TreeHasPath(coros: seq<Coro>, c: nat, k: nat) returns (path: seq<nat>)
    requires KidsBehind(coros) && c < |coros| && k in Tree(coros, c)
    ensures HoldsAlong(coros, path, c, k)
    decreases |coros| - c
  {
    if k == c {
      path := [c];
    } else {
      var i :| 0 <= i < |coros[c].kids| && coros[c].kids[i] > c && k in Tree(coros, coros[c].kids[i]);
      assert coros[c].kids[i] in coros[c].kids;
      path := TreeHasPath(coros, coros[c].kids[i], k);
      path := [c] + path;
    }
  }

  lemma KidsAreBehind(w: World)
    requires Inv(w)
    ensures KidsBehind(w.coros)
  {
  }

  lemma FreedAre(w: World, tasks: seq<nat>, k: nat)
    ensures k in WithDestroyed(w, tasks).destroyed <==>
            k in w.destroyed || exists b :: b in tasks && k in Tree(w.coros, b)
  {
    hide Tree;
    if b :| b in tasks && k in Tree(w.coros, b) {
      var i :| 0 <= i < |tasks| && tasks[i] == b;
    }
  }

  lemma FreedAlong(w: World, tasks: seq<nat>, k: nat)
    requires KidsBehind(w.coros) && forall b :: b in tasks ==> b < |w.coros|
    ensures k in WithDestroyed(w, tasks).destroyed <==>
            k in w.destroyed || exists b, path :: b in tasks && HoldsAlong(w.coros, path, b, k)
  {
    hide Tree, KidsBehind, HoldsAlong, WithDestroyed;
    FreedAre(w, tasks, k);
    if b :| b in tasks && k in Tree(w.coros, b) {
      var path := TreeHasPath(w.coros, b, k);
    }
    if b, path :| b in tasks && HoldsAlong(w.coros, path, b, k) {
      PathInTree(w.coros, path, b, k);
    }
  }

  lemma ReturnFrees(w: World, c: nat)
    requires Enabled(w, Return(c))
    ensures c < |w.coros| && Apply(w, Return(c)).destroyed == WithDestroyed(w, w.coros[c].kids).destroyed
  {
    hide WithDestroyed;
  }

  /** Over every run: a frame that returns destroys exactly what it holds, what that holds, and so on. */
  lemma ReturnDestroys(states: seq<World>, labels: seq<Label>, t: nat, c: nat, k: nat)
    requires IsRun(states, labels) && t < |labels| && labels[t] == Return(c)
    ensures k in states[t + 1].destroyed <==>
            k in states[t].destroyed || exists path :: HoldsAlong(states[t].coros, path, c, k) && |path| > 1
  {
    var w := states[t];
    hide Inv, Tree, KidsBehind, WithDestroyed, HoldsAlong, Enabled, Apply;
    RunKeepsInv(states, labels, t);
    KidsAreBehind(w);
    ReturnFrees(w, c);
    KidsInRange(w.coros, c);
    FreedAlong(w, w.coros[c].kids, k);
    PathsFrom(w.coros, c, k);
  }

  lemma PathsFrom(coros: seq<Coro>, c: nat, k: nat)
    requires c < |coros|
    ensures (exists b, path :: b in coros[c].kids && HoldsAlong(coros, path, b, k)) <==>
            (exists path :: HoldsAlong(coros, path, c, k) && |path| > 1)
  {
    hide HoldsAlong;
    if b, path :| b in coros[c].kids && HoldsAlong(coros, path, b, k) {
      PathBefore(coros, c, b, path, k);
    }
    if path :| HoldsAlong(coros, path, c, k) && |path| > 1 {
      PathBehind(coros, path, c, k);
    }
  }

  lemma KidsInRange(coros: seq<Coro>, c: nat)
    requires KidsBehind(coros) && c < |coros|
    ensures forall b :: b in coros[c].kids ==> b < |coros|
  {
  }

  lemma PathBefore(coros: seq<Coro>, c: nat, b: nat, path: seq<nat>, k: nat)
    requires c < |coros| && b in coros[c].kids && HoldsAlong(coros, path, b, k)
    ensures HoldsAlong(coros, [c] + path, c, k) && |[c] + path| > 1
  {
  }

  lemma PathBehind(coros: seq<Coro>, path: seq<nat>, c: nat, k: nat)
    requires HoldsAlong(coros, path, c, k) && |path| > 1
    ensures c < |coros| && path[1] in coros[c].kids && HoldsAlong(coros, path[1..], path[1], k)
  {
    assert forall i :: 0 <= i < |path| - 1 ==> path[1..][i] == path[i + 1];
    assert path[0 + 1] in coros[path[0]].kids;
  }

  /** And a sweep exactly the finished sessions, what they hold, and so on. */
  lemma SweepDestroys(states: seq<World>, labels: seq<Label>, t: nat, o: nat, k: nat)
    requires IsRun(states, labels) && t < |labels| && labels[t] == SweepAll(o)
    ensures o < |states[t].coros|
    ensures k in states[t + 1].destroyed <==>
            k in states[t].destroyed ||
            exists x, path :: x in states[t].coros[o].clients && IsDone(states[t].coros, x.task) &&
              HoldsAlong(states[t].coros, path, x.task, k)
  {
    var w := states[t];
    hide Inv, Tree, KidsBehind, WithDestroyed, Departed, Unfinished, Waited, WithoutFds, HoldsAlong, IsDone;
    RunKeepsInv(states, labels, t);
    KidsAreBehind(w);
    assert Enabled(w, SweepAll(o)) && states[t + 1] == SweepFinished(w, o);
    var departed := Departed(w.coros, w.coros[o].clients);
    SweepMembers(w.coros, w.coros[o].clients);
    DepartedInRange(w, departed);
    TasksOf(departed);
    FreedAlong(w, Tasks(departed), k);
    if x, path :| x in w.coros[o].clients && IsDone(w.coros, x.task) && HoldsAlong(w.coros, path, x.task, k) {
      assert x in departed;
    }
  }

  lemma TasksOf(clients: seq<Client>)
    ensures forall b :: b in Tasks(clients) <==> exists x :: x in clients && x.task == b
  {
    forall x | x in clients
      ensures x.task in Tasks(clients)
    {
      var i :| 0 <= i < |clients| && clients[i] == x;
      assert Tasks(clients)[i] == x.task;
    }
  }

  lemma {:induction false} DoneStaysOver(states: seq<World>, labels: seq<Label>, j: nat, m: nat, c: nat)
    requires IsRun(states, labels) && j <= m <= |labels| && IsDone(states[j].coros, c)
    ensures IsDone(states[m].coros, c)
    decreases m
  {
    hide Enabled, Apply;
    if j < m {
      DoneStaysOver(states, labels, j, m - 1, c);
      DoneStays(states[m - 1], labels[m - 1], c);
    }
  }

  lemma DoneIsNowhere(states: seq<World>, labels: seq<Label>, j: nat, m: nat, c: nat, h: Home)
    requires IsRun(states, labels) && j <= m <= |labels| && IsDone(states[j].coros, c)
    ensures IsDone(states[m].coros, c) && !IsHome(states[m], c, h)
  {
    hide Enabled, Apply, Inv, IsHome;
    DoneStaysOver(states, labels, j, m, c);
    RunKeepsInv(states, labels, m);
    NoCoroutineLost(states[m], c);
  }

  /** Over every run: when the sweep erases a client, its session and the handler the session called are
      done, and neither then nor at any later state m does anything refer to either of them. */
  lemma SweptClientsAreClean(states: seq<World>, labels: seq<Label>, i: nat, j: nat, m: nat, o: nat, x: Client,
                             handler: seq<Op>, h: Home)
    requires IsRun(states, labels) && i < j <= m <= |labels|
    requires Added(states, labels, i, o, x, SessionBody(handler)) && Swept(states, labels, j, o, x)
    ensures x.task < |states[j].coros| && states[j].coros[x.task].done && HeldDone(states[j], x.task)
    ensures !IsHome(states[m], x.task, h) && forall k :: k in states[j].coros[x.task].kids ==> !IsHome(states[m], k, h)
  {
    var w := states[j];
    hide Inv, IsHome, Enabled, Apply, JoinsAll, JoinsFrom, SessionBody;
    SweepErasesDone(states, labels, j, o, x);
    RunKeepsInv(states, labels, i);
    RunKeepsInv(states, labels, j);
    SessionsJoin(handler);
    AddedCreates(states, labels, i, o, x, SessionBody(handler));
    CreationJoins(states[i], labels[i], SessionBody(handler));
    var open := JoiningOverRun(states, labels, i + 1, j, x.task, {});
    DoneIsFinished(w, x.task);
    DoneFrameHoldsDone(w, x.task, open);
    DoneIsNowhere(states, labels, j, m, x.task, h);
    forall k | k in w.coros[x.task].kids
      ensures IsDone(w.coros, k) && !IsHome(states[m], k, h)
    {
      DoneIsNowhere(states, labels, j, m, k, h);
    }
  }

  lemma AddedCreates(states: seq<World>, labels: seq<Label>, i: nat, o: nat, x: Client, body: seq<Op>)
    requires IsRun(states, labels) && Added(states, labels, i, o, x, body)
    ensures Enabled(states[i], labels[i]) && Creates(labels[i], states[i], body)
  {
  }

  /** The client is put on the server's list when it is added. */
  lemma AddedIsListed(states: seq<World>, labels: seq<Label>, i: nat, o: nat, x: Client, body: seq<Op>)
    requires IsRun(states, labels) && Added(states, labels, i, o, x, body)
    ensures x.task < |states[i + 1].coros| && states[i + 1].coros[x.task].rest == body
    ensures o < |states[i + 1].coros| && states[i + 1].coros[o].clients == states[i].coros[o].clients + [x]
  {
    assert states[i + 1] == Apply(states[i], labels[i]);
  }

  /** Frame c called a body at step t, and at state m holds the task of the call. */
  ghost predicate HoldsCall(states: seq<World>, labels: seq<Label>, t: nat, m: nat, c: nat, body: seq<Op>)
    requires IsRun(states, labels)
  {
    && t < m <= |labels| && labels[t] == Call(c) && |states[t].coros| < |states[t + 1].coros|
    && states[t + 1].coros[|states[t].coros|].rest == body
    && c < |states[m].coros| && |states[t].coros| in states[m].coros[c].kids
  }

  ghost predicate StillToCall(w: World, c: nat, handler: seq<Op>) {
    c < |w.coros| && !w.coros[c].done && w.coros[c].rest != [] && w.coros[c].rest[0] == Spawn(handler)
  }

  lemma CallStep(w: World, l: Label, c: nat, handler: seq<Op>)
    requires Inv(w) && Enabled(w, l) && StillToCall(w, c, handler)
    ensures var v := Apply(w, l);
            StillToCall(v, c, handler) ||
            (l == Call(c) && c < |w.coros| < |v.coros| && v.coros[|w.coros|].rest == handler &&
             |w.coros| in v.coros[c].kids)
  {
    hide Inv, Waiters, ListAt, OrMask, WithList, WithFocus, WithKernel, Unfinished, WithDestroyed, WithoutFds, Waited,
         Departed, IsDone, AtRest;
    SameLengths(w);
    if Elsewhere(l, c) {
      FrameKept(w, l, c);
    } else {
      RunningFacts(w, c);
    }
  }

  lemma KidsKept(w: World, l: Label, c: nat, k: nat)
    requires Inv(w) && Enabled(w, l) && c < |w.coros| && k in w.coros[c].kids
    ensures c < |Apply(w, l).coros| && k in Apply(w, l).coros[c].kids
  {
    hide Inv, Enabled, Apply;
    SameLengths(w);
    if Elsewhere(l, c) {
      FrameKept(w, l, c);
    } else {
      RunningHere(w, l);
      OwnStepEffect(w, l);
    }
  }

  lemma RunningHere(w: World, l: Label)
    requires Inv(w) && Enabled(w, l) && IsUser(l)
    ensures l.c < |w.place| && w.place[l.c] == Running
  {
    hide Inv;
    RunningFacts(w, l.c);
  }

  lemma {:induction false} CallIsHeld(states: seq<World>, labels: seq<Label>, i: nat, m: nat, c: nat, handler: seq<Op>)
    requires IsRun(states, labels) && i <= m <= |labels| && StillToCall(states[i], c, handler)
    ensures StillToCall(states[m], c, handler) ||
            exists t :: i <= t < m && HoldsCall(states, labels, t, m, c, handler)
    decreases m
  {
    hide Inv, Enabled, Apply, StillToCall;
    if i < m {
      CallIsHeld(states, labels, i, m - 1, c, handler);
      var w, l := states[m - 1], labels[m - 1];
      RunKeepsInv(states, labels, m - 1);
      if StillToCall(w, c, handler) {
        CallStep(w, l, c, handler);
        assert states[m] == Apply(w, l);
        assert StillToCall(states[m], c, handler) || HoldsCall(states, labels, m - 1, m, c, handler);
      } else {
        var t :| i <= t < m - 1 && HoldsCall(states, labels, t, m - 1, c, handler);
        KidsKept(w, l, c, |states[t].coros|);
        assert HoldsCall(states, labels, t, m, c, handler);
      }
    }
  }

  lemma NewSession(states: seq<World>, labels: seq<Label>, i: nat, o: nat, x: Client, handler: seq<Op>)
    requires IsRun(states, labels) && Added(states, labels, i, o, x, SessionBody(handler))
    ensures StillToCall(states[i + 1], x.task, handler)
  {
    hide WithDestroyed, Inv;
    assert states[i + 1] == Apply(states[i], labels[i]);
  }

  /** Over every run: a session that is done called its handler, on its own stack, and the handler is done. */
  lemma SessionCalledHandler(states: seq<World>, labels: seq<Label>, i: nat, m: nat, o: nat, x: Client,
                             handler: seq<Op>) returns (t: nat)
    requires IsRun(states, labels) && i < m <= |labels| && Added(states, labels, i, o, x, SessionBody(handler))
    requires IsDone(states[m].coros, x.task)
    ensures i < t < m && labels[t] == Call(x.task) && |states[t].coros| < |states[t + 1].coros|
    ensures states[t + 1].coros[|states[t].coros|].rest == handler
    ensures IsDone(states[m].coros, |states[t].coros|)
  {
    hide Inv, Enabled, Apply, JoinsAll, JoinsFrom, HeldDone;
    RunKeepsInv(states, labels, i);
    RunKeepsInv(states, labels, m);
    SessionsJoin(handler);
    AddedCreates(states, labels, i, o, x, SessionBody(handler));
    CreationJoins(states[i], labels[i], SessionBody(handler));
    var open := JoiningOverRun(states, labels, i + 1, m, x.task, {});
    DoneIsFinished(states[m], x.task);
    DoneFrameHoldsDone(states[m], x.task, open);
    NewSession(states, labels, i, o, x, handler);
    CallIsHeld(states, labels, i + 1, m, x.task, handler);
    t :| i + 1 <= t < m && HoldsCall(states, labels, t, m, x.task, handler);
  }

  // ---------------------------------------------------------------- its socket

  /** A coroutine waits on a descriptor only by having been suspended on it. */
  lemma WaitingStep(w: World, l: Label, c: nat, fd: int)
    requires Inv(w) && Enabled(w, l) && c < |Apply(w, l).place| && Apply(w, l).place[c].Waiting? &&
             Apply(w, l).place[c].fd == fd
    ensures (c < |w.place| && w.place[c] == Apply(w, l).place[c]) ||
            (l == WaitPark(c) && c < |w.coros| && w.coros[c].rest != [] && w.coros[c].rest[0].Wait? &&
             w.coros[c].rest[0].fd == fd)
  {
    hide Inv, Waiters, ListAt, OrMask, WithList, WithFocus, WithKernel, Unfinished, WithDestroyed, WithoutFds, Waited,
         Departed;
    SameLengths(w);
    DestroysRecorded(w, l);
    if l.Enter? {
      FireKeepsInv(w, l.i);
    }
  }

  /** Step t suspended c on fd. */
  ghost predicate Suspends(states: seq<World>, labels: seq<Label>, t: nat, c: nat, fd: int)
    requires IsRun(states, labels)
  {
    && t < |labels| && labels[t] == WaitPark(c) && c < |states[t].coros| && states[t].coros[c].rest != []
    && states[t].coros[c].rest[0].Wait? && states[t].coros[c].rest[0].fd == fd
  }

  lemma {:induction false} WaiterWasSuspended(states: seq<World>, labels: seq<Label>, i: nat, j: nat, c: nat, fd: int)
    requires IsRun(states, labels) && i <= j <= |labels|
    requires c < |states[j].place| && states[j].place[c].Waiting? && states[j].place[c].fd == fd
    requires forall c :: 0 <= c < |states[i].place| ==> !(states[i].place[c].Waiting? && states[i].place[c].fd == fd)
    ensures exists t :: i <= t < j && Suspends(states, labels, t, c, fd)
    decreases j
  {
    hide Enabled, Apply, Inv;
    if i < j {
      RunKeepsInv(states, labels, j - 1);
      WaitingStep(states[j - 1], labels[j - 1], c, fd);
      if !Suspends(states, labels, j - 1, c, fd) {
        WaiterWasSuspended(states, labels, i, j - 1, c, fd);
      }
    }
  }

  /** When nothing was destroyed too early, a done frame and all that hangs on it wait nowhere. */
  lemma DoneTreesDoNotWait(w: World, c: nat, fd: int)
    requires Inv(w) && w.dangling == {} && IsDone(w.coros, c)
    requires forall n :: n in Waiters(w.lists, w.at, w.detached, fd) ==> n.coro in Tree(w.coros, c)
    ensures Waiters(w.lists, w.at, w.detached, fd) == []
  {
    var ws := Waiters(w.lists, w.at, w.detached, fd);
    if ws != [] {
      assert ws[0] in ws;
      WaiterPlaces(w, fd);
      DoneTree(w, c);
    }
  }

  lemma DoneTree(w: World, c: nat)
    requires Inv(w) && w.dangling == {} && IsDone(w.coros, c)
    ensures forall k :: k in Tree(w.coros, c) ==> IsDone(w.coros, k)
  {
    TreeOfDone(w.coros, c);
  }

  lemma NobodyWaits(w: World, fd: int)
    requires Inv(w) && Waiters(w.lists, w.at, w.detached, fd) == []
    ensures forall c :: 0 <= c < |w.place| ==> !(w.place[c].Waiting? && w.place[c].fd == fd)
  {
  }

  lemma WaitersArePlaced(w: World, fd: int)
    requires Inv(w)
    ensures forall n :: n in Waiters(w.lists, w.at, w.detached, fd) ==>
              n.coro < |w.place| && w.place[n.coro].Waiting? && w.place[n.coro].fd == fd
  {
    WaiterPlaces(w, fd);
  }

  /** Over every run on which nothing was destroyed too early: if nothing waited on a client's descriptor
      when it was accepted, and since then only its session and what hangs on it (its handler, the tasks
      the handler holds, and so on) suspended on it, then the sweep that erases the client finds nothing
      waiting there, so that closing the socket cuts nobody off. */
  lemma SweptSocketsAreFree(states: seq<World>, labels: seq<Label>, i: nat, j: nat, o: nat, x: Client, body: seq<Op>)
    requires IsRun(states, labels) && i < j && Added(states, labels, i, o, x, body) && Swept(states, labels, j, o, x)
    requires states[j].dangling == {}
    requires Waiters(states[i].lists, states[i].at, states[i].detached, x.fd) == []
    requires forall t, c :: i <= t < j && Suspends(states, labels, t, c, x.fd) ==> c in Tree(states[j].coros, x.task)
    ensures Waiters(states[j].lists, states[j].at, states[j].detached, x.fd) == []
    ensures x.fd in states[j + 1].severed ==> x.fd in states[j].severed
  {
    var w := states[j];
    hide Inv, Enabled, Apply, Waiters, Tree, IsDone;
    SweepErasesDone(states, labels, j, o, x);
    RunKeepsInv(states, labels, i);
    RunKeepsInv(states, labels, j);
    NobodyWaits(states[i], x.fd);
    WaitersArePlaced(w, x.fd);
    forall n | n in Waiters(w.lists, w.at, w.detached, x.fd)
      ensures n.coro in Tree(w.coros, x.task)
    {
      WaiterWasSuspended(states, labels, i, j, n.coro, x.fd);
    }
    DoneNow(w, x.task);
    DoneTreesDoNotWait(w, x.task, x.fd);
  }

  lemma DoneNow(w: World, c: nat)
    requires c < |w.coros| && w.coros[c].done
    ensures IsDone(w.coros, c)
  {
  }
}
