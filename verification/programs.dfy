/** Whole programs: coroutines launched one after the other on a fresh scheduler, then the event loop. */
module Programs {
  import opened Machine
  import opened Runs
  import opened UserCode
  import opened Dispatching
  import opened Joining
  import opened Scheduling

  /** A run that starts one more coroutine and goes on to v. */
  lemma RunLaunches(states: seq<World>, labels: seq<Label>, body: seq<Op>, v: World)
    returns (states': seq<World>, labels': seq<Label>)
    requires IsRun(states, labels) && AtRest(states[|labels|]) && Proceeds(StartRoot(states[|labels|], body), v)
    requires JoinsDeep(body) && forall i :: 0 <= i < |labels| ==> StartsJoining(labels[i])
    ensures IsRun(states', labels') && states'[|labels'|] == v
    ensures forall i :: 0 <= i < |labels'| ==> StartsJoining(labels'[i])
  {
    hide Enabled, Apply, Reaches, AtRest, StartRoot, JoinsDeep;
    RunStarts(states, labels, body);
    var started := labels + [Start(body)];
    states', labels' := RunGoesOn(states + [StartRoot(states[|labels|], body)], started, v);
    forall i | 0 <= i < |labels'|
      ensures StartsJoining(labels'[i])
    {
      assert i < |started| ==> labels'[i] == started[i];
    }
  }

  lemma RunContinues(states: seq<World>, labels: seq<Label>, v: World)
    returns (states': seq<World>, labels': seq<Label>)
    requires IsRun(states, labels) && Proceeds(states[|labels|], v)
    requires forall i :: 0 <= i < |labels| ==> StartsJoining(labels[i])
    ensures IsRun(states', labels') && states'[|labels'|] == v
    ensures forall i :: 0 <= i < |labels'| ==> StartsJoining(labels'[i])
  {
    hide Enabled, Apply, Reaches, JoinsDeep;
    states', labels' := RunGoesOn(states, labels, v);
    forall i | 0 <= i < |labels'|
      ensures StartsJoining(labels'[i])
    {
      assert i < |labels| ==> labels'[i] == labels[i];
    }
  }

  /** Any number of coroutine trees that sleep, call and await, that touch no descriptor, and in which
      every coroutine awaits what it holds: launched on a fresh scheduler and run, all of them finish,
      without a single poll. What happened is a run of the machine on which every frame that returned
      found the tasks it held done, so that no destroyed frame was ever left to be resumed. */
  method RunTimerPrograms(bodies: seq<seq<Op>>)
    returns (s: Scheduler, ghost states: seq<World>, ghost labels: seq<Label>)
    requires forall i :: 0 <= i < |bodies| ==> TimerOnly(bodies[i]) && JoinsDeep(bodies[i])
    ensures s.Valid() && s.coroCount == 0 && |s.coros| >= |bodies|
    ensures forall c :: 0 <= c < |s.coros| ==> s.coros[c].done
    ensures IsRun(states, labels) && states[|labels|] == s.View()
    ensures forall i :: 0 <= i <= |labels| ==> NothingDangles(states[i])
    ensures forall i :: 0 <= i < |labels| && labels[i].Return? ==> HeldDone(states[i], labels[i].c)
  {
    hide Inv, Proceeds, KernelOk, OffDescriptors, TimerOnly, JoinsDeep, Enabled, Apply, NothingDangles, HeldDone,
         StartsJoining;
    s := new Scheduler();
    states, labels := [INIT], [];
    for i := 0 to |bodies|
      invariant fresh(s) && fresh(s.poller)
      invariant s.Valid() && AtRest(s.View()) && NoDescriptors(s.View()) && |s.coros| >= i
      invariant IsRun(states, labels) && states[|labels|] == s.View()
      invariant forall i :: 0 <= i < |labels| ==> StartsJoining(labels[i])
    {
      s.Launch(bodies[i]);
      states, labels := RunLaunches(states, labels, bodies[i], s.View());
    }
    ghost var launched := s.View();
    s.Run(0);
    FramesStay(launched, s.View());
    states, labels := RunContinues(states, labels, s.View());
    forall i | 0 <= i <= |labels|
      ensures NothingDangles(states[i]) && (i < |labels| && labels[i].Return? ==> HeldDone(states[i], labels[i].c))
    {
      JoiningRunsAreClean(states, labels, i);
    }
  }

  lemma FramesStay(w: World, v: World)
    requires Proceeds(w, v)
    ensures |w.coros| <= |v.coros|
  {
  }
}
