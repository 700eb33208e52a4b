/** The event loop as a step machine: coroutine frames, the scheduler's containers, the poller's
    `focus_`, the kernel's interest set, and what each atomic piece of code does to them. */
module Machine {
  import opened Options
  import opened Bits
  import opened Growth

  type Mask = bv32
  type Fd = n: int | 0 < n witness 1

  /** What a coroutine can do between two points where control may leave it. `Wait` with `proxy`
      is the accept awaiter, without it the read, write and connect awaiters. `Spawn` keeps the task
      in the calling frame; `Serve` keeps it, with its socket, in the server's list of clients, and
      `Sweep` erases the finished clients; `Close` is the destructor of a socket. */
  datatype Op =
    | Sleep(period: int)
    | Wait(fd: Fd, mask: Mask, proxy: bool)
    | Spawn(body: seq<Op>)
    | Await(k: nat)
    | Serve(fd: Fd, body: seq<Op>)
    | Sweep
    | Close(fd: Fd)

  /** One entry of the server's `clients_`. */
  datatype Client = Client(task: nat, fd: Fd)

  /** A coroutine frame: code left to run, tasks it holds, the clients it serves (which are not in the
      frame and outlive it), and its promise. */
  datatype Coro = Coro(rest: seq<Op>, kids: seq<nat>, clients: seq<Client>, prev: Option<nat>, done: bool, revent: Mask)

  datatype TimeNode = TimeNode(time: int, coro: nat)
  datatype Node = Node(mask: Mask, coro: nat, proxy: bool)

  /** Where a coroutine is; bookkeeping of the proof, not of the program. */
  datatype Place =
    | Running
    | Sleeping(until: int)
    | Waiting(fd: int, node: Node)
    | Awaiting(child: nat)
    | Finished

  datatype Event =
    | Posted(fd: int, node: Node)
    | Fired(fd: int, node: Node, revent: Mask)
    | Woken(deadline: int, at: int, coro: nat)

  /** The program's state, then the proof's bookkeeping: `active` is the set of coroutines on the
      call stack, `at` and `detached` are the descriptor being dispatched (0 for none) and the nodes
      of the handler's local list whose coroutine still waits, `owed` counts nodes taken out whose
      `--coro_count_` is still to come; `destroyed` are the frames destroyed so far, `dangling` those of
      them that were not done when they were (entering one is undefined in the program; the machine goes
      on as if it were alive), `severed` the descriptors closed while something waited on them and not
      brought up to date since. */
  datatype World = World(
    count: nat,
    timers: multiset<TimeNode>,
    lists: seq<seq<Node>>,
    focus: seq<Mask>,
    kernel: map<int, Mask>,
    coros: seq<Coro>,
    clock: int,
    place: seq<Place>,
    owner: seq<nat>,
    active: set<nat>,
    at: int,
    detached: seq<Node>,
    owed: nat,
    log: seq<Event>,
    destroyed: set<nat>,
    dangling: set<nat>,
    severed: set<Fd>)

  const INIT := World(0, multiset{}, [], [], map[], [], 0, [], [], {}, 0, [], 0, [], {}, {}, {})

  // ---------------------------------------------------------------- views of the containers

  function ListAt(lists: seq<seq<Node>>, fd: int): seq<Node> {
    if 0 <= fd < |lists| then lists[fd] else []
  }

  function FocusAt(focus: seq<Mask>, fd: int): Mask {
    if 0 <= fd < |focus| then focus[fd] else 0
  }

  /** Everything that waits on fd: the handler's local list first, then the posted nodes. */
  function Waiters(lists: seq<seq<Node>>, at: int, detached: seq<Node>, fd: int): seq<Node> {
    (if fd == at then detached else []) + ListAt(lists, fd)
  }

  /** The number of nodes in all descriptor lists. */
  function Total(lists: seq<seq<Node>>): nat {
    if lists == [] then 0 else Total(lists[..|lists| - 1]) + |lists[|lists| - 1]|
  }

  /** The mask `update_descriptor_` accumulates. */
  function OrMask(list: seq<Node>): Mask {
    if list == [] then 0 else OrMask(list[..|list| - 1]) | list[|list| - 1].mask
  }

  lemma OrMaskStep(list: seq<Node>)
    ensures OrMask([]) == 0
    ensures list != [] ==> OrMask(list) == Union(OrMask(list[..|list| - 1]), list[|list| - 1].mask)
  {
  }

  lemma {:induction false} OrMaskAsks(list: seq<Node>, b: Mask)
    ensures Asks(b, OrMask(list)) <==> exists i :: 0 <= i < |list| && Asks(b, list[i].mask)
  {
    hide Asks, OrMask, Union;
    OrMaskStep(list);
    if list == [] {
      AsksNothing(b);
    } else {
      var last := |list| - 1;
      OrMaskAsks(list[..last], b);
      AsksEither(b, OrMask(list[..last]), list[last].mask);
      assert forall i :: 0 <= i < last ==> list[..last][i] == list[i];
    }
  }

  /** The accumulated mask has the bits of every node's mask, and no other. */
  lemma OrMaskBits(list: seq<Node>, b: Mask)
    ensures b & OrMask(list) != 0 <==> exists i :: 0 <= i < |list| && b & list[i].mask != 0
  {
    hide OrMask, Asks;
    OrMaskAsks(list, b);
    AsksMeans(b, OrMask(list));
    forall i | 0 <= i < |list|
      ensures Asks(b, list[i].mask) <==> b & list[i].mask != 0
    {
      AsksMeans(b, list[i].mask);
    }
  }

  function WithList(lists: seq<seq<Node>>, fd: nat, list: seq<Node>): seq<seq<Node>> {
    Grown(lists, fd, [])[fd := list]
  }

  function WithFocus(focus: seq<Mask>, fd: nat, mask: Mask): seq<Mask> {
    Grown(focus, fd, 0)[fd := mask]
  }

  /** The kernel's interest set after `epoll_ctl` brought it to `mask` (0 removes the registration). */
  function WithKernel(kernel: map<int, Mask>, fd: int, mask: Mask): map<int, Mask> {
    if mask == 0 then kernel - {fd} else kernel[fd := mask]
  }

  predicate IsDone(coros: seq<Coro>, k: nat) {
    k < |coros| && coros[k].done
  }

  /** The clients a sweep keeps, and the tasks and sockets of those it erases. */
  function Unfinished(coros: seq<Coro>, clients: seq<Client>): seq<Client> {
    if clients == [] then []
    else
      var last := clients[|clients| - 1];
      Unfinished(coros, clients[..|clients| - 1]) + (if IsDone(coros, last.task) then [] else [last])
  }

  function Departed(coros: seq<Coro>, clients: seq<Client>): seq<Client> {
    if clients == [] then []
    else
      var last := clients[|clients| - 1];
      Departed(coros, clients[..|clients| - 1]) + (if IsDone(coros, last.task) then [last] else [])
  }

  function Tasks(clients: seq<Client>): seq<nat> {
    seq(|clients|, i requires 0 <= i < |clients| => clients[i].task)
  }

  lemma SweepStep(coros: seq<Coro>, clients: seq<Client>, x: Client)
    ensures Unfinished(coros, clients + [x]) ==
            if IsDone(coros, x.task) then Unfinished(coros, clients) else Unfinished(coros, clients) + [x]
    ensures Departed(coros, clients + [x]) ==
            if IsDone(coros, x.task) then Departed(coros, clients) + [x] else Departed(coros, clients)
    ensures Unfinished(coros, []) == [] && Departed(coros, []) == []
  {
    assert (clients + [x])[..|clients|] == clients;
  }

  lemma {:induction false} SweepMembers(coros: seq<Coro>, clients: seq<Client>)
    ensures forall x :: x in Unfinished(coros, clients) <==> x in clients && !IsDone(coros, x.task)
    ensures forall x :: x in Departed(coros, clients) <==> x in clients && IsDone(coros, x.task)
  {
    hide Unfinished, Departed, IsDone;
    if clients == [] {
      SweepStep(coros, [], Client(0, 1));
    } else {
      var last := |clients| - 1;
      SweepMembers(coros, clients[..last]);
      SweepStep(coros, clients[..last], clients[last]);
      assert clients == clients[..last] + [clients[last]];
    }
  }

  // ---------------------------------------------------------------- destroying frames and sockets

  /** What `handle.destroy()` takes away: the frame, and with it the tasks it holds, theirs, and so on. */
  function Tree(coros: seq<Coro>, c: nat): (t: set<nat>)
    ensures forall k :: k in t ==> k < |coros|
    ensures c < |coros| ==> c in t
    decreases if c < |coros| then |coros| - c else 0
  {
    if c >= |coros| then {}
    else {c} + set i, k | 0 <= i < |coros[c].kids| && coros[c].kids[i] > c && k in Tree(coros, coros[c].kids[i]) :: k
  }

  function Freed(coros: seq<Coro>, tasks: seq<nat>): (t: set<nat>)
    ensures forall k :: k in t ==> k < |coros|
  {
    set i, k | 0 <= i < |tasks| && k in Tree(coros, tasks[i]) :: k
  }

  lemma FreedThemselves(coros: seq<Coro>, tasks: seq<nat>)
    ensures forall k :: k in tasks && k < |coros| ==> k in Freed(coros, tasks)
  {
    forall k | k in tasks && k < |coros|
      ensures k in Freed(coros, tasks)
    {
      var i :| 0 <= i < |tasks| && tasks[i] == k;
      assert k in Tree(coros, tasks[i]);
    }
  }

  /** The record of frames destroyed, and of those destroyed before they were done. */
  function WithDestroyed(w: World, tasks: seq<nat>): World {
    var gone := Freed(w.coros, tasks) - w.destroyed;
    w.(destroyed := w.destroyed + gone, dangling := w.dangling + set k | k in gone && !IsDone(w.coros, k))
  }

  /** The interest in one client's descriptor after another dropped. */
  function WithoutFds(focus: seq<Mask>, clients: seq<Client>): seq<Mask> {
    if clients == [] then focus
    else WithFocus(WithoutFds(focus, clients[..|clients| - 1]), clients[|clients| - 1].fd, 0)
  }

  function Descriptors(clients: seq<Client>): set<Fd> {
    set i | 0 <= i < |clients| :: clients[i].fd
  }

  /** The descriptors among these that something waits on. */
  function Waited(w: World, fds: set<Fd>): set<Fd> {
    set fd | fd in fds && Waiters(w.lists, w.at, w.detached, fd) != []
  }

  // ---------------------------------------------------------------- the invariant

  ghost predicate TimersOk(timers: multiset<TimeNode>, place: seq<Place>) {
    && (forall n :: n in timers ==> timers[n] == 1 && n.coro < |place| && place[n.coro] == Sleeping(n.time))
    && (forall c :: 0 <= c < |place| && place[c].Sleeping? ==> TimeNode(place[c].until, c) in timers)
  }

  predicate NoDuplicates<T(==)>(s: seq<T>) {
    forall i, j :: 0 <= i < j < |s| ==> s[i] != s[j]
  }

  ghost predicate WaitersOk(waiters: seq<Node>, fd: int, place: seq<Place>) {
    && (forall n :: n in waiters ==> n.coro < |place| && place[n.coro] == Waiting(fd, n))
    && NoDuplicates(waiters)
  }

  ghost predicate ListsOk(lists: seq<seq<Node>>, at: int, detached: seq<Node>, place: seq<Place>) {
    && (forall fd :: WaitersOk(Waiters(lists, at, detached, fd), fd, place))
    && (forall c :: 0 <= c < |place| && place[c].Waiting? ==>
          place[c].node.coro == c && place[c].node in Waiters(lists, at, detached, place[c].fd))
  }

  ghost predicate ActiveOk(active: set<nat>, place: seq<Place>) {
    forall c: nat :: c in active <==> c < |place| && place[c].Running?
  }

  ghost predicate FramesOk(coros: seq<Coro>, place: seq<Place>, owner: seq<nat>) {
    && |coros| == |place| == |owner|
    && (forall c :: 0 <= c < |place| ==> (place[c].Finished? <==> coros[c].done))
    && (forall c, k {:trigger k in coros[c].kids} :: 0 <= c < |coros| && k in coros[c].kids ==>
          c < k < |coros| && owner[k] == c)
    && (forall c, x {:trigger x in coros[c].clients} :: 0 <= c < |coros| && x in coros[c].clients ==>
          c < x.task < |coros| && owner[x.task] == c)
  }

  ghost predicate ChainOk(coros: seq<Coro>, place: seq<Place>, owner: seq<nat>)
    requires |coros| == |place| == |owner|
  {
    && (forall b :: 0 <= b < |coros| && coros[b].prev.Some? ==>
          coros[b].prev.value < b && owner[b] == coros[b].prev.value)
    && (forall b :: 0 <= b < |coros| && coros[b].prev.Some? && !coros[b].done ==>
          place[coros[b].prev.value] == Awaiting(b))
    && (forall c :: 0 <= c < |place| && place[c].Awaiting? ==>
          c < place[c].child < |coros| && !coros[place[c].child].done && coros[place[c].child].prev == Some(c))
  }

  ghost predicate CountOk(w: World) {
    w.count == |w.timers| + Total(w.lists) + |w.detached| + w.owed
  }

  /** `focus_` is the OR of the masks posted on each descriptor, except on the one being dispatched and
      on those severed, where it is empty. */
  ghost predicate FocusOk(lists: seq<seq<Node>>, at: int, focus: seq<Mask>, severed: set<Fd>) {
    && (forall fd :: |ListAt(lists, fd)| > 0 ==> fd < |focus|)
    && (forall fd :: FocusAt(focus, fd) != 0 ==> 0 < fd < |lists|)
    && (forall fd: int :: (fd == at && at != 0) ||
                          FocusAt(focus, fd) == if fd in severed then 0 else OrMask(ListAt(lists, fd)))
    && ListAt(lists, 0) == []
  }

  /** The kernel is registered for exactly what `focus_` says. */
  ghost predicate KernelOk(focus: seq<Mask>, kernel: map<int, Mask>) {
    forall fd :: (fd in kernel <==> FocusAt(focus, fd) != 0) && (fd in kernel ==> kernel[fd] == FocusAt(focus, fd))
  }

  /** Wake-ups so far came in deadline order, none early, and none after a deadline still queued. */
  ghost predicate WakesOk(log: seq<Event>, timers: multiset<TimeNode>, clock: int) {
    && (forall i :: 0 <= i < |log| && log[i].Woken? ==> log[i].deadline <= log[i].at <= clock)
    && (forall i, n :: 0 <= i < |log| && log[i].Woken? && n in timers ==> log[i].deadline <= n.time)
    && (forall i, j :: 0 <= i < j < |log| && log[i].Woken? && log[j].Woken? ==> log[i].deadline <= log[j].deadline)
  }

  /** As long as no frame was destroyed too early, destroyed frames are done, and so is all that done
      frames hold. */
  ghost predicate DestroyedOk(destroyed: set<nat>, dangling: set<nat>, coros: seq<Coro>) {
    && dangling <= destroyed && (forall c :: c in destroyed ==> c < |coros|)
    && (dangling == {} ==>
          && (forall c :: c in destroyed ==> coros[c].done)
          && (forall c, k {:trigger k in coros[c].kids} :: 0 <= c < |coros| && coros[c].done && k in coros[c].kids ==>
                IsDone(coros, k)))
  }

  ghost predicate Inv(w: World) {
    && FramesOk(w.coros, w.place, w.owner)
    && ChainOk(w.coros, w.place, w.owner)
    && TimersOk(w.timers, w.place)
    && ListsOk(w.lists, w.at, w.detached, w.place)
    && ActiveOk(w.active, w.place)
    && CountOk(w)
    && FocusOk(w.lists, w.at, w.focus, w.severed)
    && KernelOk(w.focus, w.kernel)
    && WakesOk(w.log, w.timers, w.clock)
    && DestroyedOk(w.destroyed, w.dangling, w.coros)
    && 0 <= w.at && (w.at == 0 ==> w.detached == [])
  }

  /** The scheduler itself is in control and no node is outside its containers. */
  predicate AtRest(w: World) {
    w.active == {} && w.at == 0 && w.owed == 0
  }

  // ---------------------------------------------------------------- the steps of user code

  predicate CanRun(w: World, c: nat) {
    c in w.active && c < |w.coros| && c < |w.place| && w.coros[c].rest != []
  }

  function Popped(coros: seq<Coro>, c: nat): seq<Coro>
    requires c < |coros| && coros[c].rest != []
  {
    coros[c := coros[c].(rest := coros[c].rest[1..])]
  }

  /** The next operation completes without suspending. */
  function Pass(w: World, c: nat, now: int): World
    requires CanRun(w, c)
  {
    w.(coros := Popped(w.coros, c), clock := now)
  }

  /** scheduler::post_coro(tp, handle), called by the sleep awaiter at time `now`. */
  function ParkTimer(w: World, c: nat, now: int, tp: int): World
    requires CanRun(w, c)
  {
    w.(coros := Popped(w.coros, c), clock := now,
       timers := w.timers + multiset{TimeNode(tp, c)}, count := w.count + 1,
       place := w.place[c := Sleeping(tp)], active := w.active - {c})
  }

  /** scheduler::post_coro(fd, e, re, handle or proxy): append the node, bring the interest up to date. */
  function ParkFd(w: World, c: nat, fd: Fd, node: Node): World
    requires CanRun(w, c)
  {
    var list := ListAt(w.lists, fd) + [node];
    w.(coros := Popped(w.coros, c),
       lists := WithList(w.lists, fd, list),
       focus := WithFocus(w.focus, fd, OrMask(list)),
       kernel := WithKernel(w.kernel, fd, OrMask(list)),
       count := w.count + 1, severed := w.severed - {fd},
       place := w.place[c := Waiting(fd, node)], active := w.active - {c},
       log := w.log + [Posted(fd, node)])
  }

  /** A coroutine call: the frame is made, its owner holds the task, and its body starts at once. */
  function SpawnChild(w: World, c: nat, body: seq<Op>): World
    requires CanRun(w, c)
  {
    var coros := Popped(w.coros, c);
    w.(coros := coros[c := coros[c].(kids := coros[c].kids + [|coros|])] + [Coro(body, [], [], None, false, 0)],
       place := w.place + [Running], owner := w.owner + [c], active := w.active + {|coros|})
  }

  /** The server's `add_client_`: the session's frame is made and starts, task and socket go to the list. */
  function ServeClient(w: World, c: nat, fd: Fd, body: seq<Op>): World
    requires CanRun(w, c)
  {
    var coros := Popped(w.coros, c);
    w.(coros := coros[c := coros[c].(clients := coros[c].clients + [Client(|coros|, fd)])]
                + [Coro(body, [], [], None, false, 0)],
       place := w.place + [Running], owner := w.owner + [c], active := w.active + {|w.coros|})
  }

  /** co_await of a task that is not done. */
  function ParkAwait(w: World, c: nat, b: nat): World
    requires CanRun(w, c) && b < |w.coros|
  {
    var coros := Popped(w.coros, c);
    w.(coros := coros[b := coros[b].(prev := Some(c))],
       place := w.place[c := Awaiting(b)], active := w.active - {c})
  }

  /** The end of a body: the tasks the frame holds are destroyed; then final suspend, where control goes
      to the awaiting coroutine, or back to whoever resumed. */
  function Finish(w: World, c: nat): World
    requires c < |w.coros| && c < |w.place|
  {
    var u := WithDestroyed(w, w.coros[c].kids);
    var v := u.(coros := w.coros[c := w.coros[c].(done := true)],
                place := w.place[c := Finished], active := w.active - {c});
    match w.coros[c].prev
    case None => v
    case Some(p) => if p < |v.place| then v.(place := v.place[p := Running], active := v.active + {p}) else v
  }

  /** The server's sweep: of each finished client the task is destroyed and the socket unsubscribed and
      closed; the others stay in order. */
  function SweepFinished(w: World, c: nat): World
    requires CanRun(w, c)
  {
    var departed := Departed(w.coros, w.coros[c].clients);
    var u := WithDestroyed(w, Tasks(departed));
    var coros := Popped(w.coros, c);
    u.(coros := coros[c := coros[c].(clients := Unfinished(w.coros, w.coros[c].clients))],
       focus := WithoutFds(w.focus, departed), kernel := w.kernel - Descriptors(departed),
       severed := w.severed + Waited(w, Descriptors(departed)))
  }

  /** ~socket: unsubscribe, then close. */
  function CloseFd(w: World, c: nat, fd: Fd): World
    requires CanRun(w, c)
  {
    w.(coros := Popped(w.coros, c),
       focus := WithFocus(w.focus, fd, 0), kernel := WithKernel(w.kernel, fd, 0),
       severed := w.severed + Waited(w, {fd}))
  }

  // ---------------------------------------------------------------- the steps of the scheduler

  /** A coroutine called from outside any coroutine. */
  function StartRoot(w: World, body: seq<Op>): World {
    w.(coros := w.coros + [Coro(body, [], [], None, false, 0)],
       place := w.place + [Running], owner := w.owner + [|w.coros|], active := w.active + {|w.coros|})
  }

  /** Pop an expired time node and enter its coroutine. */
  function PopTimer(w: World, n: TimeNode, now: int): World
    requires n.coro < |w.place|
  {
    w.(clock := now, timers := w.timers - multiset{n}, owed := w.owed + 1,
       place := w.place[n.coro := Running], active := w.active + {n.coro},
       log := w.log + [Woken(n.time, now, n.coro)])
  }

  function Settle(w: World): World
    requires w.count > 0 && w.owed > 0
  {
    w.(count := w.count - 1, owed := w.owed - 1)
  }

  /** The handler splices the list of fd out of the scheduler. */
  function Detach(w: World, fd: Fd): World
    requires fd < |w.lists|
  {
    w.(at := fd, detached := w.lists[fd], lists := w.lists[fd := []])
  }

  /** Write the event into the awaiter of a matching node. */
  function Poke(w: World, c: nat, e: Mask): World
    requires c < |w.coros|
  {
    w.(coros := w.coros[c := w.coros[c].(revent := e)])
  }

  /** Enter the coroutine of node i of the detached nodes. */
  function Fire(w: World, i: nat): World
    requires i < |w.detached| && w.detached[i].coro < |w.place| && w.detached[i].coro < |w.coros|
  {
    var n := w.detached[i];
    w.(detached := w.detached[..i] + w.detached[i + 1..], owed := w.owed + 1,
       place := w.place[n.coro := Running], active := w.active + {n.coro},
       log := w.log + [Fired(w.at, n, w.coros[n.coro].revent)])
  }

  /** The handler splices what is left back to the front and repairs the interest. */
  function Reattach(w: World): World
    requires 0 < w.at < |w.lists|
  {
    var list := w.detached + w.lists[w.at];
    w.(lists := w.lists[w.at := list], at := 0, detached := [],
       severed := w.severed - {w.at},
       focus := WithFocus(w.focus, w.at, OrMask(list)),
       kernel := WithKernel(w.kernel, w.at, OrMask(list)))
  }

  // ---------------------------------------------------------------- every step keeps the invariant

  lemma {:induction false} TotalUpdate(lists: seq<seq<Node>>, fd: nat, list: seq<Node>)
    requires fd < |lists|
    ensures Total(lists[fd := list]) == Total(lists) - |lists[fd]| + |list|
  {
    var last := |lists| - 1;
    if fd == last {
      assert lists[fd := list][..last] == lists[..last];
    } else {
      assert lists[fd := list][..last] == lists[..last][fd := list];
      TotalUpdate(lists[..last], fd, list);
    }
  }

  lemma {:induction false} TotalPadded(lists: seq<seq<Node>>, more: seq<seq<Node>>)
    requires forall i :: 0 <= i < |more| ==> more[i] == []
    ensures Total(lists + more) == Total(lists)
  {
    if more == [] {
      assert lists + more == lists;
    } else {
      assert (lists + more)[..|lists + more| - 1] == lists + more[..|more| - 1];
      TotalPadded(lists, more[..|more| - 1]);
    }
  }

  lemma ListAtUpdate(lists: seq<seq<Node>>, fd: nat, list: seq<Node>, lists': seq<seq<Node>>)
    requires fd < |lists| && lists' == lists[fd := list]
    ensures forall x :: ListAt(lists', x) == if x == fd then list else ListAt(lists, x)
  {
  }

  lemma FocusAtUpdate(focus: seq<Mask>, fd: nat, mask: Mask)
    ensures forall x :: FocusAt(WithFocus(focus, fd, mask), x) == if x == fd then mask else FocusAt(focus, x)
  {
  }

  lemma TotalWithList(lists: seq<seq<Node>>, fd: nat, list: seq<Node>)
    ensures Total(WithList(lists, fd, list)) == Total(lists) - |ListAt(lists, fd)| + |list|
    ensures forall x :: ListAt(WithList(lists, fd, list), x) == if x == fd then list else ListAt(lists, x)
  {
    var g := Grown(lists, fd, []);
    assert g == lists + g[|lists|..];
    TotalPadded(lists, g[|lists|..]);
    TotalUpdate(g, fd, list);
  }

  /** `subscribe` keeps kernel and `focus_` in step. */
  lemma SubscribeKeepsKernel(focus: seq<Mask>, kernel: map<int, Mask>, fd: nat, mask: Mask)
    requires KernelOk(focus, kernel)
    ensures KernelOk(WithFocus(focus, fd, mask), WithKernel(kernel, fd, mask))
    ensures forall x :: FocusAt(WithFocus(focus, fd, mask), x) == if x == fd then mask else FocusAt(focus, x)
    ensures |focus| <= |WithFocus(focus, fd, mask)|
  {
  }

  /** Frames: only the code left, the event slot, the tasks held (fewer) or `done` changed. */
  lemma FramesUpdated(coros: seq<Coro>, place: seq<Place>, owner: seq<nat>, coros': seq<Coro>, place': seq<Place>)
    requires FramesOk(coros, place, owner) && |coros'| == |coros| && |place'| == |place|
    requires forall c, k :: 0 <= c < |coros| && k in coros'[c].kids ==> k in coros[c].kids
    requires forall c, x :: 0 <= c < |coros| && x in coros'[c].clients ==> x in coros[c].clients
    requires forall c :: 0 <= c < |coros| ==> (place'[c].Finished? <==> coros'[c].done)
    ensures FramesOk(coros', place', owner)
  {
  }

  lemma FramesExtended(coros: seq<Coro>, place: seq<Place>, owner: seq<nat>, coros': seq<Coro>, o: nat)
    requires FramesOk(coros, place, owner) && |coros'| == |coros| + 1
    requires forall c, k :: 0 <= c < |coros| && k in coros'[c].kids ==> k in coros[c].kids || (k == |coros| && c == o)
    requires forall c, x :: 0 <= c < |coros| && x in coros'[c].clients ==>
               x in coros[c].clients || (x.task == |coros| && c == o)
    requires forall c :: 0 <= c < |coros| ==> coros'[c].done == coros[c].done
    requires coros'[|coros|].kids == [] && coros'[|coros|].clients == [] && !coros'[|coros|].done
    ensures FramesOk(coros', place + [Running], owner + [o])
  {
  }

  /** Chain: a coroutine moved between places other than Awaiting. */
  lemma ChainUpdated(coros: seq<Coro>, place: seq<Place>, owner: seq<nat>, coros': seq<Coro>, c: nat, p: Place)
    requires |coros| == |place| == |owner| == |coros'| && c < |place|
    requires ChainOk(coros, place, owner) && !place[c].Awaiting? && !p.Awaiting?
    requires forall b :: 0 <= b < |coros| ==> coros'[b].prev == coros[b].prev && coros'[b].done == coros[b].done
    ensures ChainOk(coros', place[c := p], owner)
  {
  }

  lemma ChainExtended(coros: seq<Coro>, place: seq<Place>, owner: seq<nat>, coros': seq<Coro>, o: nat)
    requires |coros| == |place| == |owner| && |coros'| == |coros| + 1
    requires ChainOk(coros, place, owner)
    requires forall b :: 0 <= b < |coros| ==> coros'[b].prev == coros[b].prev && coros'[b].done == coros[b].done
    requires coros'[|coros|].prev == None
    ensures ChainOk(coros', place + [Running], owner + [o])
  {
  }

  lemma TimersMoved(timers: multiset<TimeNode>, place: seq<Place>, c: nat, p: Place)
    requires TimersOk(timers, place) && c < |place| && !place[c].Sleeping? && !p.Sleeping?
    ensures TimersOk(timers, place[c := p])
  {
  }

  lemma TimersExtended(timers: multiset<TimeNode>, place: seq<Place>)
    requires TimersOk(timers, place)
    ensures TimersOk(timers, place + [Running])
  {
  }

  lemma ListsMoved(lists: seq<seq<Node>>, at: int, detached: seq<Node>, place: seq<Place>, c: nat, p: Place)
    requires ListsOk(lists, at, detached, place) && c < |place| && !place[c].Waiting? && !p.Waiting?
    ensures ListsOk(lists, at, detached, place[c := p])
  {
    forall fd
      ensures WaitersOk(Waiters(lists, at, detached, fd), fd, place[c := p])
    {
      assert WaitersOk(Waiters(lists, at, detached, fd), fd, place);
    }
  }

  lemma ListsExtended(lists: seq<seq<Node>>, at: int, detached: seq<Node>, place: seq<Place>)
    requires ListsOk(lists, at, detached, place)
    ensures ListsOk(lists, at, detached, place + [Running])
  {
    forall fd
      ensures WaitersOk(Waiters(lists, at, detached, fd), fd, place + [Running])
    {
      assert WaitersOk(Waiters(lists, at, detached, fd), fd, place);
    }
  }

  lemma WaitersMoved(waiters: seq<Node>, fd: int, place: seq<Place>, c: nat, p: Place)
    requires WaitersOk(waiters, fd, place) && c < |place|
    requires forall n :: n in waiters ==> n.coro != c
    ensures WaitersOk(waiters, fd, place[c := p])
  {
  }

  lemma WaitersPosted(waiters: seq<Node>, fd: int, place: seq<Place>, n: Node)
    requires WaitersOk(waiters, fd, place) && n.coro < |place| && !place[n.coro].Waiting?
    ensures WaitersOk(waiters, fd, place[n.coro := Waiting(fd, n)])
    ensures WaitersOk(waiters + [n], fd, place[n.coro := Waiting(fd, n)])
  {
  }

  /** A node posted on fd goes behind everything that waits there. */
  lemma ListsPosted(lists: seq<seq<Node>>, at: int, detached: seq<Node>, place: seq<Place>, fd: nat, n: Node)
    requires ListsOk(lists, at, detached, place) && n.coro < |place| && !place[n.coro].Waiting?
    ensures ListsOk(WithList(lists, fd, ListAt(lists, fd) + [n]), at, detached, place[n.coro := Waiting(fd, n)])
  {
    var lists' := WithList(lists, fd, ListAt(lists, fd) + [n]);
    TotalWithList(lists, fd, ListAt(lists, fd) + [n]);
    hide WithList;
    forall x
      ensures WaitersOk(Waiters(lists', at, detached, x), x, place[n.coro := Waiting(fd, n)])
      ensures forall m :: m in Waiters(lists, at, detached, x) ==> m in Waiters(lists', at, detached, x)
      ensures x == fd ==> n in Waiters(lists', at, detached, x)
    {
      var ws := Waiters(lists, at, detached, x);
      assert Waiters(lists', at, detached, x) == if x == fd then ws + [n] else ws;
      assert WaitersOk(ws, x, place);
      if x == fd {
        WaitersPosted(ws, x, place, n);
      } else {
        WaitersMoved(ws, x, place, n.coro, Waiting(fd, n));
      }
    }
  }

  lemma ListsFired(lists: seq<seq<Node>>, at: int, detached: seq<Node>, place: seq<Place>, i: nat)
    requires ListsOk(lists, at, detached, place) && i < |detached|
    ensures detached[i].coro < |place| && place[detached[i].coro] == Waiting(at, detached[i])
    ensures ListsOk(lists, at, detached[..i] + detached[i + 1..], place[detached[i].coro := Running])
  {
    var n := detached[i];
    var rest := detached[..i] + detached[i + 1..];
    assert WaitersOk(Waiters(lists, at, detached, at), at, place);
    assert Waiters(lists, at, detached, at)[i] == n;
    forall x
      ensures WaitersOk(Waiters(lists, at, rest, x), x, place[n.coro := Running])
      ensures forall m :: m in Waiters(lists, at, detached, x) ==> m == n || m in Waiters(lists, at, rest, x)
    {
      var ws := Waiters(lists, at, detached, x);
      assert WaitersOk(ws, x, place);
      if x == at {
        WithoutOne(ws, i);
        assert Waiters(lists, at, rest, x) == ws[..i] + ws[i + 1..];
      }
      WaitersMoved(Waiters(lists, at, rest, x), x, place, n.coro, Running);
    }
  }

  lemma WithoutOne<T>(s: seq<T>, i: nat)
    requires NoDuplicates(s) && i < |s|
    ensures NoDuplicates(s[..i] + s[i + 1..])
    ensures forall x :: x in s[..i] + s[i + 1..] <==> x in s && x != s[i]
  {
    assert s == s[..i] + [s[i]] + s[i + 1..];
    forall x | x in s && x != s[i]
      ensures x in s[..i] + s[i + 1..]
    {
      var k :| 0 <= k < |s| && s[k] == x;
      assert x == if k < i then s[..i][k] else s[i + 1..][k - i - 1];
    }
  }

  /** Taking a list out of the scheduler, or putting it back, changes nothing about who waits where. */
  lemma ListsRearranged(lists: seq<seq<Node>>, at: int, detached: seq<Node>, place: seq<Place>,
                        lists': seq<seq<Node>>, at': int, detached': seq<Node>)
    requires ListsOk(lists, at, detached, place)
    requires forall x :: Waiters(lists', at', detached', x) == Waiters(lists, at, detached, x)
    ensures ListsOk(lists', at', detached', place)
  {
    forall x
      ensures WaitersOk(Waiters(lists', at', detached', x), x, place)
    {
      assert WaitersOk(Waiters(lists, at, detached, x), x, place);
    }
  }

  lemma ChainAwaited(coros: seq<Coro>, place: seq<Place>, owner: seq<nat>, coros': seq<Coro>, c: nat, b: nat)
    requires |coros| == |place| == |owner| == |coros'| && c < b < |place|
    requires ChainOk(coros, place, owner) && place[c].Running? && owner[b] == c && !coros[b].done
    requires coros'[b].prev == Some(c)
    requires forall x :: 0 <= x < |coros| ==>
               coros'[x].done == coros[x].done && (x != b ==> coros'[x].prev == coros[x].prev)
    ensures ChainOk(coros', place[c := Awaiting(b)], owner)
  {
  }

  lemma ChainFinished(coros: seq<Coro>, place: seq<Place>, owner: seq<nat>, c: nat)
    requires FramesOk(coros, place, owner) && ChainOk(coros, place, owner) && c < |place| && place[c].Running?
    ensures var coros' := coros[c := coros[c].(done := true)];
            match coros[c].prev
            case None => ChainOk(coros', place[c := Finished], owner)
            case Some(p) =>
              p < c && place[p] == Awaiting(c) && ChainOk(coros', place[c := Finished][p := Running], owner)
  {
  }

  lemma DestroyedKept(destroyed: set<nat>, dangling: set<nat>, coros: seq<Coro>, coros': seq<Coro>)
    requires DestroyedOk(destroyed, dangling, coros) && |coros| <= |coros'|
    requires forall c :: 0 <= c < |coros| ==> coros'[c].done == coros[c].done
    requires forall c, k :: 0 <= c < |coros| && coros[c].done && k in coros'[c].kids ==> k in coros[c].kids
    requires forall c :: |coros| <= c < |coros'| ==> !coros'[c].done
    ensures DestroyedOk(destroyed, dangling, coros')
  {
  }

  /** When all that done frames hold is done, destroying a done frame takes nothing else away. */
  lemma {:induction false} TreeOfDone(coros: seq<Coro>, c: nat)
    requires forall c, k {:trigger k in coros[c].kids} ::
               0 <= c < |coros| && coros[c].done && k in coros[c].kids ==> IsDone(coros, k)
    requires IsDone(coros, c)
    ensures forall k :: k in Tree(coros, c) ==> IsDone(coros, k)
    decreases |coros| - c
  {
    forall i | 0 <= i < |coros[c].kids| && coros[c].kids[i] > c
      ensures forall k :: k in Tree(coros, coros[c].kids[i]) ==> IsDone(coros, k)
    {
      assert coros[c].kids[i] in coros[c].kids;
      TreeOfDone(coros, coros[c].kids[i]);
    }
  }

  lemma FreedDone(coros: seq<Coro>, tasks: seq<nat>)
    requires forall c, k {:trigger k in coros[c].kids} ::
               0 <= c < |coros| && coros[c].done && k in coros[c].kids ==> IsDone(coros, k)
    requires forall k :: k in tasks ==> IsDone(coros, k)
    ensures forall k :: k in Freed(coros, tasks) ==> IsDone(coros, k)
  {
    forall i | 0 <= i < |tasks|
      ensures forall k :: k in Tree(coros, tasks[i]) ==> IsDone(coros, k)
    {
      TreeOfDone(coros, tasks[i]);
    }
  }

  /** Destroying tasks keeps the records right, and marks a frame as dangling exactly if one of the tasks
      is not done. */
  lemma DestroyedMore(w: World, tasks: seq<nat>)
    requires DestroyedOk(w.destroyed, w.dangling, w.coros) && forall k :: k in tasks ==> k < |w.coros|
    ensures var v := WithDestroyed(w, tasks);
            && DestroyedOk(v.destroyed, v.dangling, w.coros)
            && (w.dangling == {} ==> (v.dangling == {} <==> forall k :: k in tasks ==> IsDone(w.coros, k)))
            && (forall k :: k in tasks ==> k in v.destroyed)
  {
    hide Tree, Freed;
    var v := WithDestroyed(w, tasks);
    FreedThemselves(w.coros, tasks);
    if w.dangling == {} {
      if forall k :: k in tasks ==> IsDone(w.coros, k) {
        FreedDone(w.coros, tasks);
      } else {
        var k :| k in tasks && !IsDone(w.coros, k);
        assert k in Freed(w.coros, tasks) - w.destroyed;
        assert k in v.dangling;
      }
    }
  }

  /** Appending an event that is not a wake-up. */
  lemma WakesLogged(log: seq<Event>, timers: multiset<TimeNode>, clock: int, e: Event)
    requires WakesOk(log, timers, clock) && !e.Woken?
    ensures WakesOk(log + [e], timers, clock)
  {
  }

  lemma FocusUpdated(lists: seq<seq<Node>>, at: int, focus: seq<Mask>, severed: set<Fd>, fd: Fd, list: seq<Node>)
    requires FocusOk(lists, at, focus, severed)
    ensures FocusOk(WithList(lists, fd, list), at, WithFocus(focus, fd, OrMask(list)), severed - {fd})
  {
    TotalWithList(lists, fd, list);
    FocusAtUpdate(focus, fd, OrMask(list));
  }

  lemma ActiveMoved(active: set<nat>, place: seq<Place>, c: nat, p: Place)
    requires ActiveOk(active, place) && c < |place|
    ensures ActiveOk(if p.Running? then active + {c} else active - {c}, place[c := p])
  {
  }

  /** What the invariant says about a coroutine on the call stack and the tasks it holds. */
  lemma RunningFacts(w: World, c: nat)
    requires Inv(w) && c in w.active
    ensures |w.coros| == |w.place| == |w.owner| && c < |w.coros| && w.place[c] == Running && !w.coros[c].done
    ensures forall i :: 0 <= i < |w.coros[c].kids| ==>
              c < w.coros[c].kids[i] < |w.coros| && w.owner[w.coros[c].kids[i]] == c
  {
    forall i | 0 <= i < |w.coros[c].kids|
      ensures c < w.coros[c].kids[i] < |w.coros| && w.owner[w.coros[c].kids[i]] == c
    {
      KidFacts(w.coros, w.place, w.owner, c, w.coros[c].kids[i]);
    }
  }

  lemma ActiveFacts(w: World)
    requires Inv(w)
    ensures forall c: nat :: c in w.active <==> c < |w.place| && w.place[c].Running?
  {
  }

  lemma KidFacts(coros: seq<Coro>, place: seq<Place>, owner: seq<nat>, c: nat, k: nat)
    requires FramesOk(coros, place, owner) && c < |coros| && k in coros[c].kids
    ensures c < k < |coros| && owner[k] == c
  {
  }

  lemma PassKeepsInv(w: World, c: nat, now: int)
    requires Inv(w) && CanRun(w, c) && w.clock <= now
    ensures Inv(Pass(w, c, now))
  {
    hide FramesOk, ChainOk, TimersOk, ListsOk, ActiveOk, FocusOk, KernelOk, WakesOk, DestroyedOk;
    RunningFacts(w, c);
    var v := Pass(w, c, now);
    WakesLater(w.log, w.timers, w.clock, now);
    FramesUpdated(w.coros, w.place, w.owner, v.coros, v.place) by { FinishedIffDone(w); }
    assert w.place[c := Running] == w.place;
    ChainUpdated(w.coros, w.place, w.owner, v.coros, c, Running);
    DestroyedKept(w.destroyed, w.dangling, w.coros, v.coros);
  }

  lemma FinishedIffDone(w: World)
    requires FramesOk(w.coros, w.place, w.owner)
    ensures |w.coros| == |w.place| == |w.owner|
    ensures forall c :: 0 <= c < |w.place| ==> (w.place[c].Finished? <==> w.coros[c].done)
  {
  }

  lemma WakesLater(log: seq<Event>, timers: multiset<TimeNode>, clock: int, now: int)
    requires WakesOk(log, timers, clock) && clock <= now
    ensures WakesOk(log, timers, now)
  {
  }

  lemma WakesQueued(log: seq<Event>, timers: multiset<TimeNode>, clock: int, n: TimeNode)
    requires WakesOk(log, timers, clock) && clock < n.time
    ensures WakesOk(log, timers + multiset{n}, clock)
  {
  }

  lemma WakesWoken(log: seq<Event>, timers: multiset<TimeNode>, clock: int, n: TimeNode)
    requires WakesOk(log, timers, clock) && n in timers && n.time <= clock
    requires forall m :: m in timers ==> n.time <= m.time
    ensures WakesOk(log + [Woken(n.time, clock, n.coro)], timers - multiset{n}, clock)
  {
  }

  lemma TimersQueued(timers: multiset<TimeNode>, place: seq<Place>, c: nat, tp: int)
    requires TimersOk(timers, place) && c < |place| && !place[c].Sleeping?
    ensures TimersOk(timers + multiset{TimeNode(tp, c)}, place[c := Sleeping(tp)])
  {
    assert TimeNode(tp, c) !in timers;
  }

  lemma TimersPopped(timers: multiset<TimeNode>, place: seq<Place>, n: TimeNode)
    requires TimersOk(timers, place) && n in timers
    ensures n.coro < |place| && place[n.coro] == Sleeping(n.time)
    ensures TimersOk(timers - multiset{n}, place[n.coro := Running])
  {
  }

  lemma ParkTimerKeepsInv(w: World, c: nat, now: int, tp: int)
    requires Inv(w) && CanRun(w, c) && w.clock <= now < tp
    ensures Inv(ParkTimer(w, c, now, tp))
  {
    hide FramesOk, ChainOk, TimersOk, ListsOk, ActiveOk, FocusOk, KernelOk, WakesOk, DestroyedOk;
    RunningFacts(w, c);
    var v := ParkTimer(w, c, now, tp);
    FramesUpdated(w.coros, w.place, w.owner, v.coros, v.place) by { FinishedIffDone(w); }
    ChainUpdated(w.coros, w.place, w.owner, v.coros, c, Sleeping(tp));
    ListsMoved(w.lists, w.at, w.detached, w.place, c, Sleeping(tp));
    TimersQueued(w.timers, w.place, c, tp);
    ActiveMoved(w.active, w.place, c, Sleeping(tp));
    WakesLater(w.log, w.timers, w.clock, now);
    WakesQueued(w.log, w.timers, now, TimeNode(tp, c));
    DestroyedKept(w.destroyed, w.dangling, w.coros, v.coros);
  }

  lemma ParkFdKeepsInv(w: World, c: nat, fd: Fd, node: Node)
    requires Inv(w) && CanRun(w, c) && node.coro == c
    ensures Inv(ParkFd(w, c, fd, node))
  {
    hide FramesOk, ChainOk, TimersOk, ListsOk, ActiveOk, FocusOk, KernelOk, WakesOk, DestroyedOk;
    RunningFacts(w, c);
    var v := ParkFd(w, c, fd, node);
    var list := ListAt(w.lists, fd) + [node];
    FramesUpdated(w.coros, w.place, w.owner, v.coros, v.place) by { FinishedIffDone(w); }
    ChainUpdated(w.coros, w.place, w.owner, v.coros, c, Waiting(fd, node));
    TimersMoved(w.timers, w.place, c, Waiting(fd, node));
    ListsPosted(w.lists, w.at, w.detached, w.place, fd, node);
    TotalWithList(w.lists, fd, list);
    FocusUpdated(w.lists, w.at, w.focus, w.severed, fd, list);
    SubscribeKeepsKernel(w.focus, w.kernel, fd, OrMask(list));
    WakesLogged(w.log, w.timers, w.clock, Posted(fd, node));
    ActiveMoved(w.active, w.place, c, Waiting(fd, node));
    DestroyedKept(w.destroyed, w.dangling, w.coros, v.coros);
  }

  lemma ActiveExtended(active: set<nat>, place: seq<Place>)
    requires ActiveOk(active, place)
    ensures ActiveOk(active + {|place|}, place + [Running])
  {
  }

  lemma SpawnKeepsInv(w: World, c: nat, body: seq<Op>)
    requires Inv(w) && CanRun(w, c)
    ensures Inv(SpawnChild(w, c, body))
  {
    hide FramesOk, ChainOk, TimersOk, ListsOk, ActiveOk, FocusOk, KernelOk, WakesOk, DestroyedOk;
    RunningFacts(w, c);
    var v := SpawnChild(w, c, body);
    FramesExtended(w.coros, w.place, w.owner, v.coros, c);
    ChainExtended(w.coros, w.place, w.owner, v.coros, c);
    TimersExtended(w.timers, w.place);
    ListsExtended(w.lists, w.at, w.detached, w.place);
    ActiveExtended(w.active, w.place);
    DestroyedKept(w.destroyed, w.dangling, w.coros, v.coros);
  }

  lemma ServeKeepsInv(w: World, c: nat, fd: Fd, body: seq<Op>)
    requires Inv(w) && CanRun(w, c)
    ensures Inv(ServeClient(w, c, fd, body))
  {
    hide FramesOk, ChainOk, TimersOk, ListsOk, ActiveOk, FocusOk, KernelOk, WakesOk, DestroyedOk;
    RunningFacts(w, c);
    var v := ServeClient(w, c, fd, body);
    FramesExtended(w.coros, w.place, w.owner, v.coros, c);
    ChainExtended(w.coros, w.place, w.owner, v.coros, c);
    TimersExtended(w.timers, w.place);
    ListsExtended(w.lists, w.at, w.detached, w.place);
    ActiveExtended(w.active, w.place);
    DestroyedKept(w.destroyed, w.dangling, w.coros, v.coros);
  }

  lemma StartKeepsInv(w: World, body: seq<Op>)
    requires Inv(w)
    ensures Inv(StartRoot(w, body))
  {
    hide FramesOk, ChainOk, TimersOk, ListsOk, ActiveOk, FocusOk, KernelOk, WakesOk, DestroyedOk;
    FinishedIffDone(w);
    var v := StartRoot(w, body);
    FramesExtended(w.coros, w.place, w.owner, v.coros, |w.coros|);
    ChainExtended(w.coros, w.place, w.owner, v.coros, |w.coros|);
    TimersExtended(w.timers, w.place);
    ListsExtended(w.lists, w.at, w.detached, w.place);
    ActiveExtended(w.active, w.place);
    DestroyedKept(w.destroyed, w.dangling, w.coros, v.coros);
  }

  lemma ParkAwaitKeepsInv(w: World, c: nat, b: nat)
    requires Inv(w) && CanRun(w, c) && b in w.coros[c].kids && b < |w.coros| && !w.coros[b].done
    ensures Inv(ParkAwait(w, c, b))
  {
    hide FramesOk, ChainOk, TimersOk, ListsOk, ActiveOk, FocusOk, KernelOk, WakesOk, DestroyedOk;
    RunningFacts(w, c);
    var v := ParkAwait(w, c, b);
    FramesUpdated(w.coros, w.place, w.owner, v.coros, v.place) by { FinishedIffDone(w); }
    ChainAwaited(w.coros, w.place, w.owner, v.coros, c, b);
    TimersMoved(w.timers, w.place, c, Awaiting(b));
    ListsMoved(w.lists, w.at, w.detached, w.place, c, Awaiting(b));
    ActiveMoved(w.active, w.place, c, Awaiting(b));
    DestroyedKept(w.destroyed, w.dangling, w.coros, v.coros);
  }

  lemma FramesFinished(coros: seq<Coro>, place: seq<Place>, owner: seq<nat>, c: nat)
    requires FramesOk(coros, place, owner) && c < |place| && !coros[c].done
    ensures FramesOk(coros[c := coros[c].(done := true)], place[c := Finished], owner)
  {
    var coros' := coros[c := coros[c].(done := true)];
    FramesUpdated(coros, place, owner, coros', place[c := Finished]);
  }

  lemma FramesMoved(coros: seq<Coro>, place: seq<Place>, owner: seq<nat>, c: nat, p: Place)
    requires FramesOk(coros, place, owner) && c < |place| && !place[c].Finished? && !p.Finished?
    ensures FramesOk(coros, place[c := p], owner)
  {
  }

  lemma DestroyedFinished(w: World, c: nat)
    requires DestroyedOk(w.destroyed, w.dangling, w.coros) && c < |w.coros| && !w.coros[c].done
    requires forall k :: k in w.coros[c].kids ==> c < k < |w.coros|
    ensures var u := WithDestroyed(w, w.coros[c].kids);
            DestroyedOk(u.destroyed, u.dangling, w.coros[c := w.coros[c].(done := true)])
  {
    hide WithDestroyed;
    DestroyedMore(w, w.coros[c].kids);
    var u := WithDestroyed(w, w.coros[c].kids);
    WithDestroyedGrows(w, w.coros[c].kids);
  }

  lemma WithDestroyedGrows(w: World, tasks: seq<nat>)
    ensures var u := WithDestroyed(w, tasks);
            w.destroyed <= u.destroyed && w.dangling <= u.dangling &&
            u == w.(destroyed := u.destroyed, dangling := u.dangling)
  {
    hide Freed;
  }

  lemma KidsAfter(coros: seq<Coro>, place: seq<Place>, owner: seq<nat>, c: nat)
    requires FramesOk(coros, place, owner) && c < |coros|
    ensures forall k :: k in coros[c].kids ==> c < k < |coros|
    ensures forall x :: x in coros[c].clients ==> c < x.task < |coros|
  {
  }

  lemma FinishKeepsInv(w: World, c: nat)
    requires Inv(w) && c in w.active
    ensures |w.coros| == |w.place| && c < |w.coros| && Inv(Finish(w, c))
    ensures w.coros[c].prev.Some? ==> w.coros[c].prev.value < |w.place| && w.place[w.coros[c].prev.value] == Awaiting(c)
  {
    hide FramesOk, ChainOk, TimersOk, ListsOk, ActiveOk, FocusOk, KernelOk, WakesOk, DestroyedOk, WithDestroyed;
    RunningFacts(w, c);
    KidsAfter(w.coros, w.place, w.owner, c);
    WithDestroyedGrows(w, w.coros[c].kids);
    DestroyedFinished(w, c);
    var coros := w.coros[c := w.coros[c].(done := true)];
    var mid := w.place[c := Finished];
    FramesFinished(w.coros, w.place, w.owner, c);
    ChainFinished(w.coros, w.place, w.owner, c);
    TimersMoved(w.timers, w.place, c, Finished);
    ListsMoved(w.lists, w.at, w.detached, w.place, c, Finished);
    ActiveMoved(w.active, w.place, c, Finished);
    match w.coros[c].prev {
      case None =>
      case Some(p) =>
        FramesMoved(coros, mid, w.owner, p, Running);
        TimersMoved(w.timers, mid, p, Running);
        ListsMoved(w.lists, w.at, w.detached, mid, p, Running);
        ActiveMoved(w.active - {c}, mid, p, Running);
    }
  }

  /** Dropping the interest in descriptors one after the other: focus_ and kernel stay in step. */
  lemma {:induction false} WithoutFdsKeepsKernel(focus: seq<Mask>, kernel: map<int, Mask>, clients: seq<Client>)
    requires KernelOk(focus, kernel)
    ensures KernelOk(WithoutFds(focus, clients), kernel - Descriptors(clients))
    ensures |focus| <= |WithoutFds(focus, clients)|
    ensures forall fd: int ::
              FocusAt(WithoutFds(focus, clients), fd) == if fd in Descriptors(clients) then 0 else FocusAt(focus, fd)
  {
    if clients == [] {
      assert kernel - Descriptors([]) == kernel;
    } else {
      var last := |clients| - 1;
      WithoutFdsKeepsKernel(focus, kernel, clients[..last]);
      DescriptorsStep(clients[..last], clients[last]);
      assert clients == clients[..last] + [clients[last]];
      hide WithFocus, KernelOk, Descriptors;
      SubscribeKeepsKernel(WithoutFds(focus, clients[..last]), kernel - Descriptors(clients[..last]),
                           clients[last].fd, 0);
      assert kernel - Descriptors(clients[..last]) - {clients[last].fd} == kernel - Descriptors(clients);
    }
  }

  lemma DescriptorsStep(clients: seq<Client>, x: Client)
    ensures Descriptors(clients + [x]) == Descriptors(clients) + {x.fd}
  {
    var more := clients + [x];
    assert more[|clients|] == x;
    assert forall i :: 0 <= i < |clients| ==> more[i] == clients[i];
  }

  lemma FocusDropped(w: World, fds: set<Fd>, focus: seq<Mask>)
    requires FocusOk(w.lists, w.at, w.focus, w.severed) && |w.focus| <= |focus|
    requires forall fd: int :: FocusAt(focus, fd) == if fd in fds then 0 else FocusAt(w.focus, fd)
    ensures FocusOk(w.lists, w.at, focus, w.severed + Waited(w, fds))
  {
    forall fd: int
      ensures (fd == w.at && w.at != 0) ||
              FocusAt(focus, fd) == if fd in w.severed + Waited(w, fds) then 0 else OrMask(ListAt(w.lists, fd))
    {
      assert fd in fds && Waiters(w.lists, w.at, w.detached, fd) == [] ==> ListAt(w.lists, fd) == [] || fd == w.at;
    }
  }

  lemma SweepKeepsInv(w: World, c: nat)
    requires Inv(w) && CanRun(w, c)
    ensures Inv(SweepFinished(w, c))
  {
    hide FramesOk, ChainOk, TimersOk, ListsOk, ActiveOk, FocusOk, KernelOk, WakesOk, DestroyedOk, WithDestroyed,
         Waited, Descriptors;
    RunningFacts(w, c);
    KidsAfter(w.coros, w.place, w.owner, c);
    SweepMembers(w.coros, w.coros[c].clients);
    var departed := Departed(w.coros, w.coros[c].clients);
    DestroyedMore(w, Tasks(departed));
    WithDestroyedGrows(w, Tasks(departed));
    WithoutFdsKeepsKernel(w.focus, w.kernel, departed);
    FocusDropped(w, Descriptors(departed), WithoutFds(w.focus, departed));
    var v := SweepFinished(w, c);
    FramesUpdated(w.coros, w.place, w.owner, v.coros, v.place) by { FinishedIffDone(w); }
    assert w.place[c := Running] == w.place;
    ChainUpdated(w.coros, w.place, w.owner, v.coros, c, Running);
    DestroyedKept(v.destroyed, v.dangling, w.coros, v.coros);
  }

  lemma CloseKeepsInv(w: World, c: nat, fd: Fd)
    requires Inv(w) && CanRun(w, c)
    ensures Inv(CloseFd(w, c, fd))
  {
    hide FramesOk, ChainOk, TimersOk, ListsOk, ActiveOk, FocusOk, KernelOk, WakesOk, DestroyedOk, Waited, WithFocus;
    RunningFacts(w, c);
    var v := CloseFd(w, c, fd);
    SubscribeKeepsKernel(w.focus, w.kernel, fd, 0);
    FocusDropped(w, {fd}, v.focus);
    FramesUpdated(w.coros, w.place, w.owner, v.coros, v.place) by { FinishedIffDone(w); }
    assert w.place[c := Running] == w.place;
    ChainUpdated(w.coros, w.place, w.owner, v.coros, c, Running);
    DestroyedKept(w.destroyed, w.dangling, w.coros, v.coros);
  }

  lemma PopTimerKeepsInv(w: World, n: TimeNode, now: int)
    requires Inv(w) && n in w.timers && n.time <= now && w.clock <= now
    requires forall m :: m in w.timers ==> n.time <= m.time
    ensures n.coro < |w.place| == |w.coros| && w.place[n.coro] == Sleeping(n.time) && Inv(PopTimer(w, n, now))
  {
    hide FramesOk, ChainOk, TimersOk, ListsOk, ActiveOk, FocusOk, KernelOk, WakesOk, DestroyedOk;
    FinishedIffDone(w);
    TimersPopped(w.timers, w.place, n);
    var v := PopTimer(w, n, now);
    FramesUpdated(w.coros, w.place, w.owner, v.coros, v.place);
    ChainUpdated(w.coros, w.place, w.owner, v.coros, n.coro, Running);
    ListsMoved(w.lists, w.at, w.detached, w.place, n.coro, Running);
    ActiveMoved(w.active, w.place, n.coro, Running);
    WakesLater(w.log, w.timers, w.clock, now);
    WakesWoken(w.log, w.timers, now, n);
  }

  lemma TickKeepsInv(w: World, now: int)
    requires Inv(w) && w.clock <= now
    ensures Inv(w.(clock := now))
  {
    WakesLater(w.log, w.timers, w.clock, now);
  }

  lemma SettleKeepsInv(w: World)
    requires Inv(w) && w.owed > 0
    ensures w.count > 0 && Inv(Settle(w))
  {
    hide FramesOk, ChainOk, TimersOk, ListsOk, ActiveOk, FocusOk, KernelOk, WakesOk, DestroyedOk;
  }

  lemma DetachKeepsInv(w: World, fd: Fd)
    requires Inv(w) && w.at == 0 && fd < |w.lists|
    ensures Inv(Detach(w, fd))
  {
    hide FramesOk, ChainOk, TimersOk, ListsOk, ActiveOk, FocusOk, KernelOk, WakesOk, DestroyedOk;
    var v := Detach(w, fd);
    TotalUpdate(w.lists, fd, []);
    FocusDetached(w.lists, w.focus, w.severed, fd);
    ListsRearranged(w.lists, w.at, w.detached, w.place, v.lists, v.at, v.detached);
  }

  lemma FocusDetached(lists: seq<seq<Node>>, focus: seq<Mask>, severed: set<Fd>, fd: Fd)
    requires FocusOk(lists, 0, focus, severed) && fd < |lists|
    ensures FocusOk(lists[fd := []], fd, focus, severed)
  {
    ListAtUpdate(lists, fd, [], lists[fd := []]);
  }

  lemma PokeKeepsInv(w: World, c: nat, e: Mask)
    requires Inv(w) && c < |w.coros|
    ensures Inv(Poke(w, c, e))
  {
    hide FramesOk, ChainOk, TimersOk, ListsOk, ActiveOk, FocusOk, KernelOk, WakesOk, DestroyedOk;
    FinishedIffDone(w);
    var v := Poke(w, c, e);
    FramesUpdated(w.coros, w.place, w.owner, v.coros, v.place);
    ChainPoked(w.coros, w.place, w.owner, v.coros);
    DestroyedKept(w.destroyed, w.dangling, w.coros, v.coros);
  }

  lemma ChainPoked(coros: seq<Coro>, place: seq<Place>, owner: seq<nat>, coros': seq<Coro>)
    requires |coros| == |place| == |owner| == |coros'| && ChainOk(coros, place, owner)
    requires forall b :: 0 <= b < |coros| ==> coros'[b].prev == coros[b].prev && coros'[b].done == coros[b].done
    ensures ChainOk(coros', place, owner)
  {
  }

  lemma FireKeepsInv(w: World, i: nat)
    requires Inv(w) && 0 < w.at && i < |w.detached|
    ensures w.detached[i].coro < |w.coros| == |w.place|
    ensures w.place[w.detached[i].coro] == Waiting(w.at, w.detached[i])
    ensures Inv(Fire(w, i))
  {
    hide FramesOk, ChainOk, TimersOk, ListsOk, ActiveOk, FocusOk, KernelOk, WakesOk, DestroyedOk;
    FinishedIffDone(w);
    var n := w.detached[i];
    ListsFired(w.lists, w.at, w.detached, w.place, i);
    var v := Fire(w, i);
    FramesUpdated(w.coros, w.place, w.owner, v.coros, v.place);
    ChainUpdated(w.coros, w.place, w.owner, v.coros, n.coro, Running);
    TimersMoved(w.timers, w.place, n.coro, Running);
    ActiveMoved(w.active, w.place, n.coro, Running);
    WakesLogged(w.log, w.timers, w.clock, Fired(w.at, n, w.coros[n.coro].revent));
  }

  lemma WaitersReattached(lists: seq<seq<Node>>, at: int, detached: seq<Node>, lists': seq<seq<Node>>)
    requires 0 < at < |lists| && lists' == lists[at := detached + lists[at]]
    ensures forall x :: Waiters(lists', 0, [], x) == Waiters(lists, at, detached, x)
  {
  }

  lemma ReattachKeepsInv(w: World)
    requires Inv(w) && 0 < w.at < |w.lists|
    ensures Inv(Reattach(w))
  {
    hide FramesOk, ChainOk, TimersOk, ListsOk, ActiveOk, FocusOk, KernelOk, WakesOk, DestroyedOk;
    var v := Reattach(w);
    var list := w.detached + w.lists[w.at];
    TotalUpdate(w.lists, w.at, list);
    FocusReattached(w.lists, w.at, w.focus, w.severed, list);
    WaitersReattached(w.lists, w.at, w.detached, v.lists);
    SubscribeKeepsKernel(w.focus, w.kernel, w.at, OrMask(list));
    ListsRearranged(w.lists, w.at, w.detached, w.place, v.lists, v.at, v.detached);
  }

  lemma FocusReattached(lists: seq<seq<Node>>, at: int, focus: seq<Mask>, severed: set<Fd>, list: seq<Node>)
    requires FocusOk(lists, at, focus, severed) && 0 < at < |lists|
    ensures FocusOk(lists[at := list], 0, WithFocus(focus, at, OrMask(list)), severed - {at})
  {
    ListAtUpdate(lists, at, list, lists[at := list]);
    FocusAtUpdate(focus, at, OrMask(list));
  }
}
