/** Where wake-ups and posted nodes come from: each goes back to the operation that asked for it. */
module Provenance {
  import opened Machine
  import opened Runs

  /** Step t suspended c in an async_sleep of this period, made at `made`, until made + period. */
  ghost predicate SleptUntil(states: seq<World>, labels: seq<Label>, t: nat, c: nat, deadline: int)
    requires IsRun(states, labels)
  {
    && t < |labels| && labels[t].SleepPark? && labels[t].c == c
    && c < |states[t].coros| && states[t].coros[c].rest != [] && states[t].coros[c].rest[0].Sleep?
    && deadline == labels[t].made + states[t].coros[c].rest[0].period
    && states[t].clock <= labels[t].made <= labels[t].now < deadline
  }

  /** Step t suspended the node's coroutine in a wait on fd for the node's mask, by proxy or not. */
  ghost predicate WaitedFor(states: seq<World>, labels: seq<Label>, t: nat, fd: int, n: Node)
    requires IsRun(states, labels)
  {
    && t < |labels| && labels[t] == WaitPark(n.coro) && n.coro < |states[t].coros| && states[t].coros[n.coro].rest != []
    && fd > 0 && states[t].coros[n.coro].rest[0] == Wait(fd, n.mask, n.proxy)
  }

  /** What a step adds to the timer queue, to the log, and where a coroutine going on after its sleep is. */
  lemma StepAdds(w: World, l: Label)
    requires Enabled(w, l)
    ensures forall n :: n in Apply(w, l).timers && n !in w.timers ==>
              l.SleepPark? && n == TimeNode(l.made + w.coros[l.c].rest[0].period, l.c)
    ensures w.log <= Apply(w, l).log <= w.log + Apply(w, l).log[|w.log|..] && |Apply(w, l).log| <= |w.log| + 1
    ensures forall i :: |w.log| <= i < |Apply(w, l).log| && Apply(w, l).log[i].Woken? ==>
              l.Expire? && Apply(w, l).log[i] == Woken(l.node.time, l.now, l.node.coro) && l.node in w.timers
    ensures forall i :: |w.log| <= i < |Apply(w, l).log| && Apply(w, l).log[i].Posted? ==>
              l.WaitPark? && Apply(w, l).log[i].node.coro == l.c &&
              w.coros[l.c].rest[0] == var p := Apply(w, l).log[i]; Wait(p.fd, p.node.mask, p.node.proxy)
    ensures l.SleepPark? ==>
              Apply(w, l).timers == w.timers + multiset{TimeNode(l.made + w.coros[l.c].rest[0].period, l.c)} &&
              l.now < l.made + w.coros[l.c].rest[0].period
    ensures l.SleepPass? ==> l.made + w.coros[l.c].rest[0].period <= l.now == Apply(w, l).clock
  {
    hide Waiters, ListAt, OrMask, WithList, WithFocus, WithKernel, WithDestroyed, WithoutFds, Waited, Departed,
         Unfinished, IsDone, AtRest;
    if l.Return? {
      WithDestroyedGrows(w, w.coros[l.c].kids);
    } else if l.SweepAll? {
      WithDestroyedGrows(w, Tasks(Departed(w.coros, w.coros[l.c].clients)));
    }
  }

  lemma {:induction false} QueuedWasSlept(states: seq<World>, labels: seq<Label>, s: nat, n: TimeNode) returns (t: nat)
    requires IsRun(states, labels) && s <= |labels| && n in states[s].timers
    ensures t < s && SleptUntil(states, labels, t, n.coro, n.time)
  {
    hide Apply;
    var w := states[s - 1];
    if n in w.timers {
      t := QueuedWasSlept(states, labels, s - 1, n);
    } else {
      StepAdds(w, labels[s - 1]);
      t := s - 1;
    }
  }

  /** Over every run: a coroutine is woken only out of a sleep it went into, with the deadline fixed when the
      sleep was made, and not before made + period; going on without suspending, it is not before either. */
  lemma {:induction false} WokenWasSlept(states: seq<World>, labels: seq<Label>, s: nat, i: nat) returns (t: nat)
    requires IsRun(states, labels) && s <= |labels| && i < |states[s].log| && states[s].log[i].Woken?
    ensures var e := states[s].log[i];
            t < s && SleptUntil(states, labels, t, e.coro, e.deadline) &&
            labels[t].made + states[t].coros[e.coro].rest[0].period <= e.at
  {
    hide Enabled, Apply, SleptUntil;
    var w := states[s - 1];
    StepAdds(w, labels[s - 1]);
    if i < |w.log| {
      t := WokenWasSlept(states, labels, s - 1, i);
      assert states[s].log[i] == w.log[i];
    } else {
      t := QueuedWasSlept(states, labels, s - 1, labels[s - 1].node);
      SleptMeans(states, labels, t, labels[s - 1].node.coro, labels[s - 1].node.time);
      RunWakesInOrder(states, labels, s, i, i);
    }
    SleptMeans(states, labels, t, states[s].log[i].coro, states[s].log[i].deadline);
    RunWakesInOrder(states, labels, s, i, i);
  }

  lemma SleptMeans(states: seq<World>, labels: seq<Label>, t: nat, c: nat, deadline: int)
    requires IsRun(states, labels) && SleptUntil(states, labels, t, c, deadline)
    ensures t < |labels| && labels[t].SleepPark? && c < |states[t].coros| && states[t].coros[c].rest != []
    ensures states[t].coros[c].rest[0].Sleep? && deadline == labels[t].made + states[t].coros[c].rest[0].period
  {
  }

  /** Over every run: a coroutine goes past a sleep at once only when made + period is over. */
  lemma PassedIsOver(states: seq<World>, labels: seq<Label>, t: nat)
    requires IsRun(states, labels) && t < |labels| && labels[t].SleepPass?
    ensures labels[t].c < |states[t].coros| && states[t].coros[labels[t].c].rest != []
    ensures states[t].coros[labels[t].c].rest[0].Sleep?
    ensures states[t].clock <= labels[t].made
    ensures labels[t].made + states[t].coros[labels[t].c].rest[0].period <= states[t + 1].clock
  {
    StepAdds(states[t], labels[t]);
  }

  /** Over every run: a node is posted only by a wait on its descriptor, for its mask, by its coroutine. */
  lemma {:induction false} PostedWasWaited(states: seq<World>, labels: seq<Label>, s: nat, i: nat) returns (t: nat)
    requires IsRun(states, labels) && s <= |labels| && i < |states[s].log| && states[s].log[i].Posted?
    ensures t < s && WaitedFor(states, labels, t, states[s].log[i].fd, states[s].log[i].node)
  {
    hide Apply;
    var w := states[s - 1];
    StepAdds(w, labels[s - 1]);
    if i < |w.log| {
      assert states[s].log[i] == w.log[i];
      t := PostedWasWaited(states, labels, s - 1, i);
    } else {
      t := s - 1;
    }
  }

  lemma WaitListed(w: World, c: nat)
    requires Enabled(w, WaitPark(c))
    ensures var op := w.coros[c].rest[0]; var v := Apply(w, WaitPark(c));
            && ListAt(v.lists, op.fd) == ListAt(w.lists, op.fd) + [Node(op.mask, c, op.proxy)]
            && forall x: int :: x != op.fd ==> ListAt(v.lists, x) == ListAt(w.lists, x)
  {
    hide WithList, ListAt;
    var op := w.coros[c].rest[0];
    TotalWithList(w.lists, op.fd, ListAt(w.lists, op.fd) + [Node(op.mask, c, op.proxy)]);
  }
}
