/** The worker thread's code over the step machine, and what holds over every interleaving. */
module LogWorker {
  import opened Options
  import opened LogFormat
  import opened LogMachine
  import opened Places
  import Text

  // ---------------------------------------------------------------- every interleaving

  ghost predicate IsRun(f: Formats, states: seq<World>, labels: seq<Label>) {
    && |states| == |labels| + 1 && states[0] == INIT
    && forall i :: 0 <= i < |labels| ==>
         Enabled(f, states[i], labels[i]) && states[i + 1] == Apply(f, states[i], labels[i])
  }

  lemma InitInv(f: Formats)
    ensures Inv(f, INIT)
  {
    hide Line;
  }

  lemma {:induction false} RunKeepsInv(f: Formats, states: seq<World>, labels: seq<Label>, i: nat)
    requires IsRun(f, states, labels) && i <= |labels|
    ensures Inv(f, states[i])
  {
    hide Inv;
    if i == 0 {
      InitInv(f);
    } else {
      RunKeepsInv(f, states, labels, i - 1);
      StepKeepsInv(f, states[i - 1], labels[i - 1]);
    }
  }

  /** In every interleaving the counter of an existing logger is its records counted but not appended,
      those in `logs_`, those of the batch not released, and one while its buffer exists; nothing is
      held of a logger that does not exist. */
  lemma RunCountsReferences(f: Formats, states: seq<World>, labels: seq<Label>, i: nat, l: nat)
    requires IsRun(f, states, labels) && i <= |labels|
    ensures var w := states[i];
            var held := CountIn(w.counted, l) + CountIn(w.logs, l) + CountIn(w.batch, l) +
                        if l in w.buffers then 1 else 0;
            if l in w.alive then l in w.refs && w.refs[l] == held else held == 0
  {
    RunKeepsInv(f, states, labels, i);
    ReferencesHeld(f, states[i], l);
  }

  lemma ReferencesHeld(f: Formats, w: World, l: nat)
    requires Inv(f, w)
    ensures if l in w.alive then l in w.refs && w.refs[l] == Held(w, l) else Held(w, l) == 0
  {
  }

  /** The loggers whose records and buffers the worker still has exist, and no decrement underflows. (The
      logger it may still have to notify is another matter, see below.) */
  lemma WorkerTouchesTheLiving(f: Formats, w: World)
    requires Inv(f, w)
    ensures w.batch != [] ==> var l := w.batch[0].logger; l in w.alive && l in w.refs && w.refs[l] > 0
    ensures forall l :: l in w.buffers ==> l in w.alive && l in w.refs && w.refs[l] > 0
    ensures w.writing.Some? ==> w.writing.value in w.buffers
  {
    forall l | l in w.buffers
      ensures l in w.alive && l in w.refs && w.refs[l] > 0
    {
      ReferencesHeld(f, w, l);
    }
    if w.batch != [] {
      var l := w.batch[0].logger;
      ReferencesHeld(f, w, l);
      CountSplits([w.batch[0]], w.batch[1..], l);
      CountOfOne(w.batch[0], l);
      assert w.batch == [w.batch[0]] + w.batch[1..];
    }
  }

  lemma ShapeOf(f: Formats, w: World)
    requires Inv(f, w)
    ensures w.phase != Writing ==> w.writing == None
    ensures w.phase == Idle ==> !w.final && w.head == Fresh && w.notify == None
    ensures w.phase != Signalling ==> w.calling == None
  {
  }

  /** What other threads do cannot touch the worker's locals or the backends. */
  predicate Interfered(w: World, v: World) {
    && v == w.(alive := v.alive, refs := v.refs, counted := v.counted, logs := v.logs, waiters := v.waiters,
               stop := v.stop, left := v.left, appended := v.appended)
    && w.appended <= v.appended && (w.stop ==> v.stop)
  }

  lemma ProducersInterfere(f: Formats, w: World, b: Label)
    requires Enabled(f, w, b) && IsProducer(b)
    ensures Interfered(w, Apply(f, w, b))
  {
    hide Line;
  }

  lemma InterferedNever(w: World)
    ensures Interfered(w, w)
  {
  }

  lemma InterferedTwice(u: World, v: World, w: World)
    requires Interfered(u, v) && Interfered(v, w)
    ensures Interfered(u, w)
  {
  }

  lemma InterferedKeeps(w: World, v: World)
    requires Interfered(w, v)
    ensures v.phase == w.phase && v.batch == w.batch && v.head == w.head && v.buffers == w.buffers &&
            v.writing == w.writing
    ensures v.notify == w.notify && v.calling == w.calling && Kept(w, v)
  {
  }

  /** What holds across the first two loops of `drain_`: the batch that was swapped out, the waiters taken
      with it, and the flags raised stay as they are, and history goes on. */
  predicate Kept(w: World, v: World) {
    && v.taken == w.taken && v.final == w.final && v.swapped == w.swapped && v.flagged == w.flagged
    && w.appended <= v.appended && (w.stop ==> v.stop)
  }

  lemma KeptMeans(w: World, v: World)
    requires Kept(w, v)
    ensures v.taken == w.taken && v.final == w.final && v.swapped == w.swapped && v.flagged == w.flagged
    ensures w.appended <= v.appended && (w.stop ==> v.stop)
  {
  }

  lemma KeptAlways(w: World)
    ensures Kept(w, w)
  {
  }

  lemma KeptTwice(u: World, v: World, w: World)
    requires Kept(u, v) && Kept(v, w)
    ensures Kept(u, w)
  {
  }

  predicate IsGroupingOrWriting(b: Label) {
    b.Reference? || b.Absorb? || b.Release? || b.BeginWriting? || b.Write? || b.Unreference? || b.Notify?
  }

  /** Where a step of the first two loops leaves the worker. */
  lemma WorkerStep(f: Formats, w: World, b: Label)
    requires Enabled(f, w, b) && IsGroupingOrWriting(b)
    ensures var v := Apply(f, w, b);
            && Kept(w, v) && v.phase == (if b.BeginWriting? then Writing else w.phase)
            && v.batch == (if b.Release? then w.batch[1..] else w.batch)
            && v.head == (if b.Reference? then Counted else if b.Absorb? then Absorbed
                          else if b.Release? then Fresh else w.head)
            && v.writing == (if b.Write? then Some(b.l) else if b.Unreference? then None else w.writing)
            && (b.Reference? ==> w.batch[0].logger in v.buffers)
            && (b.Absorb? ==> v.buffers.Keys == w.buffers.Keys)
            && (b.Write? || b.Notify? ==> v.buffers == w.buffers)
            && (b.Notify? ==> v.notify == None)
            && (b.Reference? || b.Absorb? || b.BeginWriting? || b.Write? ==> v.notify == w.notify)
            && (b.Unreference? ==> v.buffers == w.buffers - {w.writing.value})
  {
    hide Line;
  }

  /** Where the worker stands when it has no notification to make. */
  lemma HandsFree(f: Formats, w: World)
    requires Inv(f, w)
    ensures w.batch != [] && w.head != Fresh ==> w.batch[0].logger in w.buffers
    ensures w.batch != [] ==> HasText(f(w.batch[0].logger), w.batch[0].record)
    ensures w.head != Fresh ==> w.batch != []
  {
    hide HasText, RefsOk, TextOk, FlushOk, DistinctIds;
    assert w.batch != [] ==> w.batch[0] in w.batch;
  }

  lemma GroupingGoesOn(f: Formats, w: World) returns (b: Label)
    requires Inv(f, w) && w.phase == Grouping && w.notify == None
    ensures !IsProducer(b) && Enabled(f, w, b)
  {
    hide Inv, HasText, Queue;
    WorkerTouchesTheLiving(f, w);
    HandsFree(f, w);
    b := if w.batch == [] then BeginWriting
         else if w.head == Fresh then Reference else if w.head == Counted then Absorb else Release;
  }

  lemma WritingGoesOn(f: Formats, w: World) returns (b: Label)
    requires Inv(f, w) && w.phase == Writing && w.notify == None
    ensures !IsProducer(b) && Enabled(f, w, b)
  {
    hide Inv, HasText, Queue;
    WorkerTouchesTheLiving(f, w);
    if w.buffers == map[] {
      b := BeginSignalling;
    } else if w.writing.Some? {
      b := Unreference;
    } else {
      var l :| l in w.buffers;
      b := Write(l);
    }
  }

  /** The worker is never stuck before it has ended. */
  lemma WorkerGoesOn(f: Formats, w: World) returns (b: Label)
    requires Inv(f, w) && w.phase != Ended
    ensures !IsProducer(b) && Enabled(f, w, b)
  {
    hide Inv, HasText, Queue;
    if w.notify.Some? {
      b := Notify;
    } else if w.calling.Some? {
      b := NotifyWaiter;
    } else if w.phase == Grouping {
      b := GroupingGoesOn(f, w);
    } else if w.phase == Writing {
      b := WritingGoesOn(f, w);
    } else if w.phase == Idle {
      b := Swap;
    } else {
      b := if w.taken == [] then EndDrain else Signal;
    }
  }

  /** Refinement of the synchronous logger: at every step of every interleaving, what a logger's backend
      got, then its grouped text, then the lines of its records not grouped and not swapped out, are the
      lines of all records appended, in order. */
  lemma RunRefinesSynchronousLogger(f: Formats, states: seq<World>, labels: seq<Label>, i: nat, l: nat)
    requires IsRun(f, states, labels) && i <= |labels|
    ensures var w := states[i];
            OutAt(w.out, l) + Grouped(w, l) + LinesOf(f, Ungrouped(w), l) + LinesOf(f, w.logs, l) ==
            LinesOf(f, w.appended, l)
    ensures states[i].phase == Ended ==> OutAt(states[i].out, l) == LinesOf(f, states[i].appended, l)
  {
    var w := states[i];
    RunKeepsInv(f, states, labels, i);
    AllLines(f, w, l);
    if w.phase == Ended {
      EndedWrote(f, w, l);
    }
  }

  lemma AllLines(f: Formats, w: World, l: nat)
    requires Inv(f, w)
    ensures OutAt(w.out, l) + Grouped(w, l) + LinesOf(f, Ungrouped(w), l) + LinesOf(f, w.logs, l) ==
            LinesOf(f, w.appended, l)
  {
    hide LinesOf, OutAt, Grouped, Ungrouped, RefsOk, FlushOk, TextOk, ShapeOk;
    TextFacts(f, w, l);
    LinesSplit(f, w.appended[..w.swapped], w.logs, l);
  }

  lemma EndedWrote(f: Formats, w: World, l: nat)
    requires Inv(f, w) && w.phase == Ended
    ensures OutAt(w.out, l) == LinesOf(f, w.appended, l)
    ensures w.waiters == [] && w.taken == []
  {
    hide LinesOf, OutAt, RefsOk, FlushOk, Known;
    NothingInHand(f, w, l);
    assert w.appended[..w.swapped] == w.appended;
  }

  // ---------------------------------------------------------------- what a backend's output looks like

  /** The rendering without its trailing newlines. */
  ghost predicate IsTextOf(text: string, rendering: string) {
    && text <= rendering && (text == [] || text[|text| - 1] != '\n')
    && forall k :: |text| <= k < |rendering| ==> rendering[k] == '\n'
  }

  /** The places of the records of logger l. */
  ghost predicate AreTheirs(s: seq<Entry>, l: nat, at: seq<nat>) {
    Increasing(at, |s|) && forall i :: 0 <= i < |s| ==> (s[i].logger == l <==> i in at)
  }

  /** These texts, at these places of the history, are those of the records of logger l, in order. */
  ghost predicate AreTexts(f: Formats, s: seq<Entry>, l: nat, texts: seq<string>, at: seq<nat>) {
    && AreTheirs(s, l, at) && |texts| == |at|
    && (forall k :: 0 <= k < |at| ==> IsTextOf(texts[k], Rendered(f(l), s[at[k]].record)))
  }

  lemma {:induction false} JoinMore(texts: seq<string>, t: string)
    ensures Text.Join(texts + [t] + [""], '\n') == Text.Join(texts + [""], '\n') + t + "\n"
  {
    var more := texts + [t] + [""];
    if texts == [] {
      assert more == [t, ""] && more[1..] == [""];
      assert texts + [""] == [""];
    } else {
      JoinMore(texts[1..], t);
      assert more[1..] == texts[1..] + [t] + [""];
      assert (texts + [""])[1..] == texts[1..] + [""];
    }
  }

  lemma PlaceAdded(s: seq<Entry>, l: nat, at: seq<nat>)
    requires s != [] && AreTheirs(s[..|s| - 1], l, at)
    ensures AreTheirs(s, l, Placed(at, |s| - 1, s[|s| - 1].logger == l))
    ensures forall k :: 0 <= k < |at| ==> at[k] < |s| - 1
  {
    hide Placed;
    var n := |s| - 1;
    assert forall i :: 0 <= i < n ==> s[..n][i] == s[i];
    PlacedMore(at, n, s[n].logger == l);
  }

  lemma TextAdded(f: Formats, s: seq<Entry>, l: nat, texts: seq<string>, at: seq<nat>)
    requires s != [] && AreTexts(f, s[..|s| - 1], l, texts, at)
    ensures var last := s[|s| - 1]; var more := last.logger == l;
            AreTexts(f, s, l, if more then texts + [Stripped(Rendered(f(l), last.record))] else texts,
                     Placed(at, |s| - 1, more))
  {
    hide Stripped, Rendered, IsTextOf, AreTheirs;
    PlaceAdded(s, l, at);
    StrippedIsText(Rendered(f(l), s[|s| - 1].record));
    PlacesAre(s, l, Placed(at, |s| - 1, s[|s| - 1].logger == l));
  }

  lemma PlacesAre(s: seq<Entry>, l: nat, at: seq<nat>)
    requires AreTheirs(s, l, at)
    ensures forall k :: 0 <= k < |at| ==> at[k] < |s|
  {
  }

  lemma StrippedIsText(rendering: string)
    ensures IsTextOf(Stripped(rendering), rendering)
  {
    StrippedIsMaximal(rendering);
  }

  lemma LineAdded(f: Formats, s: seq<Entry>, l: nat)
    requires s != []
    ensures var last := s[|s| - 1];
            LinesOf(f, s, l) == LinesOf(f, s[..|s| - 1], l) +
                                (if last.logger == l then Stripped(Rendered(f(l), last.record)) + "\n" else "")
  {
  }

  /** What the synchronous logger writes: the texts of the records, in order, each followed by a newline. */
  lemma {:induction false} LinesAreTerminated(f: Formats, s: seq<Entry>, l: nat)
    returns (texts: seq<string>, at: seq<nat>)
    ensures AreTexts(f, s, l, texts, at) && LinesOf(f, s, l) == Text.Join(texts + [""], '\n')
  {
    hide Stripped, Rendered, Placed, LinesOf, Text.Join, IsTextOf;
    if s == [] {
      texts, at := [], [];
      NoLines(f, l);
      NothingJoined();
    } else {
      var last := s[|s| - 1];
      texts, at := LinesAreTerminated(f, s[..|s| - 1], l);
      TextAdded(f, s, l, texts, at);
      LineAdded(f, s, l);
      at := Placed(at, |s| - 1, last.logger == l);
      if last.logger == l {
        var t := Stripped(Rendered(f(l), last.record));
        JoinMore(texts, t);
        assert LinesOf(f, s[..|s| - 1], l) + (t + "\n") == LinesOf(f, s[..|s| - 1], l) + t + "\n";
        texts := texts + [t];
      } else {
        assert LinesOf(f, s[..|s| - 1], l) + "" == LinesOf(f, s[..|s| - 1], l);
      }
    }
  }

  lemma NothingJoined()
    ensures Text.Join([] + [""], '\n') == ""
  {
  }

  lemma {:induction false} TerminatedEnds(texts: seq<string>)
    requires texts != []
    ensures var out := Text.Join(texts + [""], '\n'); out != "" && out[|out| - 1] == '\n'
  {
    var n := |texts| - 1;
    JoinMore(texts[..n], texts[n]);
    assert texts[..n] + [texts[n]] == texts;
  }

  lemma TerminatedSplits(texts: seq<string>)
    requires forall t :: t in texts ==> '\n' !in t
    ensures Text.Segments(Text.Join(texts + [""], '\n'), '\n') == texts + [""]
  {
    Text.SegmentsOfJoin(texts + [""], '\n');
  }

  /** Over every run, when the worker has ended: a backend's output is, for the records of its logger in the
      order they were appended, their renderings without trailing newlines, each followed by one newline; so
      it ends in one unless there are none, and when no text has one inside, splitting it at the newlines
      gives the texts back. */
  lemma EndedOutput(f: Formats, states: seq<World>, labels: seq<Label>, i: nat, l: nat)
    returns (texts: seq<string>, at: seq<nat>)
    requires IsRun(f, states, labels) && i <= |labels| && states[i].phase == Ended
    ensures AreTexts(f, states[i].appended, l, texts, at)
    ensures var out := OutAt(states[i].out, l);
            && out == Text.Join(texts + [""], '\n')
            && (texts != [] ==> out != "" && out[|out| - 1] == '\n')
            && ((forall t :: t in texts ==> '\n' !in t) ==> Text.Segments(out, '\n') == texts + [""])
  {
    hide Inv, LinesOf, Text.Join, Text.Segments, OutAt, AreTexts;
    RunKeepsInv(f, states, labels, i);
    EndedWrote(f, states[i], l);
    texts, at := LinesAreTerminated(f, states[i].appended, l);
    if texts != [] {
      TerminatedEnds(texts);
    }
    if forall t :: t in texts ==> '\n' !in t {
      TerminatedSplits(texts);
    }
  }

  /** ~logger passes its wait only when every record of the logger has been written, and no record, buffer
      or count of it is left. */
  lemma DestroyedOnlyWhenWritten(f: Formats, states: seq<World>, labels: seq<Label>, i: nat, l: nat)
    requires IsRun(f, states, labels) && i < |labels| && labels[i] == Destroy(l)
    ensures OutAt(states[i].out, l) == LinesOf(f, states[i].appended, l)
    ensures Held(states[i + 1], l) == 0 && l !in states[i + 1].alive
  {
    RunKeepsInv(f, states, labels, i);
    RunKeepsInv(f, states, labels, i + 1);
    ReferencesHeld(f, states[i], l);
    ReferencesHeld(f, states[i + 1], l);
    NothingHeldAllWritten(f, states[i], l);
  }

  lemma NothingHeldAllWritten(f: Formats, w: World, l: nat)
    requires Inv(f, w) && Held(w, l) == 0
    ensures OutAt(w.out, l) == LinesOf(f, w.appended, l)
  {
    hide LinesOf, OutAt, Inv, CountIn;
    AllLines(f, w, l);
    UncountedHasNoLines(f, w.logs, l);
    UncountedHasNoLines(f, w.batch, l);
    if w.batch != [] {
      CountSplits([w.batch[0]], w.batch[1..], l);
      assert w.batch == [w.batch[0]] + w.batch[1..];
      UncountedHasNoLines(f, w.batch[1..], l);
    }
    assert OutAt(w.out, l) + "" + "" + "" == OutAt(w.out, l);
  }

  lemma {:induction false} UncountedHasNoLines(f: Formats, s: seq<Entry>, l: nat)
    requires CountIn(s, l) == 0
    ensures LinesOf(f, s, l) == ""
  {
    if s != [] {
      UncountedHasNoLines(f, s[..|s| - 1], l);
    }
  }

  lemma {:induction false} HistoryGrows(f: Formats, states: seq<World>, labels: seq<Label>, i: nat, j: nat)
    requires IsRun(f, states, labels) && i <= j <= |labels|
    ensures states[i].appended <= states[j].appended
    decreases j
  {
    hide Apply, Enabled, OutAt;
    if i < j {
      HistoryGrows(f, states, labels, i, j - 1);
      OnlyGrows(f, states[j - 1], labels[j - 1], 0);
    }
  }

  lemma {:induction false} QueueGrows(f: Formats, states: seq<World>, labels: seq<Label>, i: nat, j: nat)
    requires IsRun(f, states, labels) && i <= j <= |labels|
    ensures Queue(states[i]) <= Queue(states[j])
    decreases j
  {
    hide Enabled, Apply, Queue, Inv;
    if i < j {
      QueueGrows(f, states, labels, i, j - 1);
      RunKeepsInv(f, states, labels, j - 1);
      ShapeHolds(f, states[j - 1]);
      QueueAfter(f, states[j - 1], labels[j - 1]);
    }
  }

  lemma ShapeHolds(f: Formats, w: World)
    requires Inv(f, w)
    ensures ShapeOk(w) && DistinctIds(Queue(w))
  {
  }

  /** A flush is known by its id: the waiter whose flag is up is the one that registered under it, with the
      length of the history then. */
  lemma RegisteredAs(f: Formats, states: seq<World>, labels: seq<Label>, i: nat, j: nat, x: Waiter)
    requires IsRun(f, states, labels) && i < j <= |labels| && labels[i] == Register(x.id) && x in states[j].flagged
    ensures x.mark == |states[i].appended|
  {
    hide Enabled, Apply, Inv, ShapeOk;
    RunKeepsInv(f, states, labels, i);
    RunKeepsInv(f, states, labels, j);
    ShapeHolds(f, states[i]);
    ShapeHolds(f, states[j]);
    QueueAfter(f, states[i], labels[i]);
    QueueGrows(f, states, labels, i + 1, j);
    var n := |Queue(states[i])|;
    assert Queue(states[i + 1])[n] == Waiter(x.id, |states[i].appended|);
    var k :| 0 <= k < |states[j].flagged| && states[j].flagged[k] == x;
    assert Queue(states[j])[k] == x && Queue(states[j])[n] == Waiter(x.id, |states[i].appended|);
  }

  /** When the flag of a flush that registered at step i is seen set at step j, in any interleaving and
      also by the final drain, every record appended before step i has been written. */
  lemma FlushedRecordsAreWritten(f: Formats, states: seq<World>, labels: seq<Label>, i: nat, j: nat, x: Waiter, l: nat)
    requires IsRun(f, states, labels) && i < j <= |labels| && labels[i] == Register(x.id) && x in states[j].flagged
    ensures LinesOf(f, states[i].appended, l) <= OutAt(states[j].out, l)
  {
    hide LinesOf, OutAt, RefsOk, TextOk, ShapeOk, Apply, Enabled;
    RegisteredAs(f, states, labels, i, j, x);
    RunKeepsInv(f, states, labels, j);
    HistoryGrows(f, states, labels, i, j);
    assert MarkWritten(f, states[j], x);
    assert states[j].appended[..x.mark] == states[i].appended;
  }

  // ---------------------------------------------------------------- notifying a logger that is gone

  /** A logger exists until it is destroyed, and is never made again. */
  lemma LivesOn(f: Formats, w: World, b: Label, l: nat)
    requires Enabled(f, w, b) && l in w.refs
    ensures l in Apply(f, w, b).refs
    ensures l in Apply(f, w, b).alive <==> l in w.alive && b != Destroy(l)
  {
    hide Enabled, Apply;
    if IsProducer(b) {
      ProducersLeaveAlone(f, w, b, l);
    } else {
      WorkerLeavesAlone(f, w, b, l);
    }
  }

  lemma ProducersLeaveAlone(f: Formats, w: World, b: Label, l: nat)
    requires Enabled(f, w, b) && l in w.refs && IsProducer(b)
    ensures l in Apply(f, w, b).refs
    ensures l in Apply(f, w, b).alive <==> l in w.alive && b != Destroy(l)
  {
    hide Line, OutAt, HasText, Queue, ToNotify;
  }

  lemma WorkerLeavesAlone(f: Formats, w: World, b: Label, l: nat)
    requires Enabled(f, w, b) && l in w.refs && !IsProducer(b)
    ensures l in Apply(f, w, b).refs && Apply(f, w, b).alive == w.alive
  {
    hide Line, OutAt, HasText, Queue, ToNotify;
  }

  lemma {:induction false} AliveUntilDestroyed(f: Formats, states: seq<World>, labels: seq<Label>, i: nat, j: nat,
                                          l: nat)
    requires IsRun(f, states, labels) && i <= j <= |labels| && l in states[i].refs && l in states[i].alive
    ensures l in states[j].refs
    ensures l in states[j].alive <==> forall t :: i <= t < j ==> labels[t] != Destroy(l)
    decreases j
  {
    hide Enabled, Apply;
    if i < j {
      AliveUntilDestroyed(f, states, labels, i, j - 1, l);
      LivesOn(f, states[j - 1], labels[j - 1], l);
    }
  }

  lemma DecrementFacts(f: Formats, w: World, b: Label, l: nat)
    requires Inv(f, w) && Enabled(f, w, b) && (b.Release? || b.Unreference?) && Apply(f, w, b).notify == Some(l)
    ensures l in w.alive && l in w.refs
  {
    WorkerTouchesTheLiving(f, w);
  }

  /** Step i brought the counter of logger l to zero and the notification is due up to state j: then the
      logger still exists exactly if it was not destroyed in between, which nothing prevents. */
  lemma NotifiedExistsExactly(f: Formats, states: seq<World>, labels: seq<Label>, i: nat, j: nat, l: nat)
    requires IsRun(f, states, labels) && i < j <= |labels| && (labels[i].Release? || labels[i].Unreference?)
    requires forall t :: i < t <= j ==> states[t].notify == Some(l)
    ensures l in states[j].alive <==> forall t :: i < t < j ==> labels[t] != Destroy(l)
  {
    hide Enabled, Apply, Inv;
    RunKeepsInv(f, states, labels, i);
    assert states[i + 1].notify == Some(l);
    DecrementFacts(f, states[i], labels[i], l);
    LivesOn(f, states[i], labels[i], l);
    AliveUntilDestroyed(f, states, labels, i + 1, j, l);
  }

  lemma Goes(f: Formats, states: seq<World>, labels: seq<Label>, b: Label)
    returns (states': seq<World>, labels': seq<Label>)
    requires IsRun(f, states, labels) && Enabled(f, states[|labels|], b)
    ensures IsRun(f, states', labels') && |labels'| == |labels| + 1 &&
            states'[|labels'|] == Apply(f, states[|labels|], b)
  {
    hide Enabled, Apply;
    states', labels' := states + [Apply(f, states[|labels|], b)], labels + [b];
  }

  // One record, logged, written, and its logger destroyed before the worker came to notify it.

  function TakenOver(r: Record): World {
    INIT.(alive := {0}, refs := map[0 := 1], phase := Grouping, batch := [Entry(0, r)], appended := [Entry(0, r)],
          swapped := 1)
  }

  lemma LogOne(f: Formats, r: Record) returns (states: seq<World>, labels: seq<Label>)
    requires HasText(f(0), r)
    ensures IsRun(f, states, labels) && states[|labels|] == TakenOver(r)
  {
    hide HasText, Line;
    var e := Entry(0, r);
    states, labels := Goes(f, [INIT], [], Create(0));
    assert states[|labels|] == INIT.(alive := {0}, refs := map[0 := 0]);
    states, labels := Goes(f, states, labels, CountRecord(e));
    assert states[|labels|] == INIT.(alive := {0}, refs := map[0 := 1], counted := [e]);
    states, labels := Goes(f, states, labels, AppendRecord(0));
    assert states[|labels|] == INIT.(alive := {0}, refs := map[0 := 1], logs := [e], appended := [e]);
    states, labels := Goes(f, states, labels, Swap);
  }

  function Released(f: Formats, r: Record): World {
    TakenOver(r).(batch := [], buffers := map[0 := "" + Line(f(0), r)])
  }

  lemma GroupOne(f: Formats, r: Record)
    requires HasText(f(0), r)
    ensures Enabled(f, TakenOver(r), Reference) && Enabled(f, Apply(f, TakenOver(r), Reference), Absorb)
    ensures var w := Apply(f, Apply(f, TakenOver(r), Reference), Absorb);
            Enabled(f, w, Release) && Apply(f, w, Release) == Released(f, r)
  {
    hide HasText, Line;
    var w := TakenOver(r);
    var u := Apply(f, w, Reference);
    assert u == w.(head := Counted, refs := map[0 := 2], buffers := map[0 := ""]);
    var v := Apply(f, u, Absorb);
    assert v == u.(head := Absorbed, buffers := map[0 := "" + Line(f(0), r)]);
    assert Apply(f, v, Release).refs == map[0 := 1];
  }

  function Dropped(f: Formats, r: Record): World {
    Released(f, r).(phase := Writing, out := map[0 := "" + ("" + Line(f(0), r))], refs := map[0 := 0], buffers := map[],
                    notify := Some(0))
  }

  lemma WriteOne(f: Formats, r: Record)
    ensures Enabled(f, Released(f, r), BeginWriting) && Enabled(f, Apply(f, Released(f, r), BeginWriting), Write(0))
    ensures var w := Apply(f, Apply(f, Released(f, r), BeginWriting), Write(0));
            Enabled(f, w, Unreference) && Apply(f, w, Unreference) == Dropped(f, r)
  {
    hide HasText, Line;
    var u := Apply(f, Released(f, r), BeginWriting);
    var v := Apply(f, u, Write(0));
    assert v.out == map[0 := "" + ("" + Line(f(0), r))];
    assert Apply(f, v, Unreference).refs == map[0 := 0];
    assert Apply(f, v, Unreference).buffers == map[];
  }

  lemma DestroyOne(f: Formats, r: Record)
    ensures Enabled(f, Dropped(f, r), Destroy(0)) && Apply(f, Dropped(f, r), Destroy(0)).notify == Some(0)
    ensures 0 !in Apply(f, Dropped(f, r), Destroy(0)).alive
  {
    hide Line;
  }

  /** Whatever the formats: a run after which the worker's next step is to notify a logger that is gone. */
  lemma GoneBeforeNotified(f: Formats, r: Record) returns (states: seq<World>, labels: seq<Label>)
    requires HasText(f(0), r)
    ensures IsRun(f, states, labels) && var w := states[|labels|];
            w.notify == Some(0) && 0 !in w.alive && Enabled(f, w, Notify)
  {
    states, labels := LogOne(f, r);
    GroupOne(f, r);
    WriteOne(f, r);
    DestroyOne(f, r);
    NotifyEnabled(f, Apply(f, Dropped(f, r), Destroy(0)));
    hide Enabled, Apply, TakenOver, Released, Dropped;
    states, labels := Goes(f, states, labels, Reference);
    states, labels := Goes(f, states, labels, Absorb);
    states, labels := Goes(f, states, labels, Release);
    states, labels := Goes(f, states, labels, BeginWriting);
    states, labels := Goes(f, states, labels, Write(0));
    states, labels := Goes(f, states, labels, Unreference);
    states, labels := Goes(f, states, labels, Destroy(0));
  }

  lemma NotifyEnabled(f: Formats, w: World)
    ensures Enabled(f, w, Notify) <==> w.notify.Some?
  {
  }

  // ---------------------------------------------------------------- what an owner can do about it

  /** A flush registered at step r, behind the last record of logger l, whose flag is up at state d. */
  ghost predicate FlushedBehind(states: seq<World>, labels: seq<Label>, r: nat, d: nat, x: Waiter, l: nat) {
    && r < d <= |labels| && |states| == |labels| + 1 && labels[r] == Register(x.id)
    && CountIn(states[r].counted, l) == 0
    && (forall t :: r <= t < d ==> !(labels[t].CountRecord? && labels[t].e.logger == l))
    && x in states[d].flagged
  }

  /** The owner of l has seen such a flush return, or the worker end. */
  ghost predicate MayGo(states: seq<World>, labels: seq<Label>, d: nat, l: nat) {
    && d <= |labels| && |states| == |labels| + 1
    && (states[d].phase == Ended || exists r, x :: FlushedBehind(states, labels, r, d, x, l))
  }

  /** Nobody has anything of logger l, and no notification of it is due. */
  ghost predicate Untouched(w: World, l: nat) {
    Held(w, l) == 0 && w.notify != Some(l)
  }

  lemma NotifyAfter(f: Formats, w: World, b: Label)
    requires Enabled(f, w, b)
    ensures var n := Apply(f, w, b).notify;
            n == w.notify || n == None ||
            (b.Release? && n == Some(w.batch[0].logger)) || (b.Unreference? && n == w.writing)
  {
    hide Line, HasText, Queue, OutAt;
  }

  lemma UntouchedStays(f: Formats, w: World, b: Label, l: nat)
    requires Inv(f, w) && Enabled(f, w, b) && Untouched(w, l) && !(b.CountRecord? && b.e.logger == l)
    ensures Untouched(Apply(f, w, b), l)
  {
    hide RefsOk, TextOk, FlushOk, RendersOk, Held, Line, HasText;
    HeldAfter(f, w, b, l);
    HeldBefore(f, w, b, l);
    NotifyAfter(f, w, b);
  }

  /** Since m records were appended, none of logger l has been, and none is about to be. */
  ghost predicate NoneSince(w: World, m: nat, l: nat) {
    m <= |w.appended| && CountIn(w.counted, l) == 0 && CountIn(w.appended[m..], l) == 0
  }

  lemma NoneSinceStays(f: Formats, w: World, b: Label, m: nat, l: nat)
    requires Enabled(f, w, b) && NoneSince(w, m, l) && !(b.CountRecord? && b.e.logger == l)
    ensures NoneSince(Apply(f, w, b), m, l)
  {
    hide CountIn, Line, HasText, Queue, OutAt;
    if b.AppendRecord? {
      CountMoved(w.counted, b.i, l);
      CountSplits(w.appended[m..], [w.counted[b.i]], l);
      assert (w.appended + [w.counted[b.i]])[m..] == w.appended[m..] + [w.counted[b.i]];
    } else if b.CountRecord? {
      CountSplits(w.counted, [b.e], l);
      CountOfOne(b.e, l);
    }
  }

  lemma {:induction false} NoneSinceOver(f: Formats, states: seq<World>, labels: seq<Label>, r: nat, s: nat, m: nat,
                                          l: nat)
    requires IsRun(f, states, labels) && r <= s <= |labels| && NoneSince(states[r], m, l)
    requires forall t :: r <= t < s ==> !(labels[t].CountRecord? && labels[t].e.logger == l)
    ensures NoneSince(states[s], m, l)
    decreases s
  {
    hide Enabled, Apply, NoneSince;
    if r < s {
      NoneSinceOver(f, states, labels, r, s - 1, m, l);
      NoneSinceStays(f, states[s - 1], labels[s - 1], m, l);
    }
  }

  lemma {:induction false} UntouchedOver(f: Formats, states: seq<World>, labels: seq<Label>, s: nat, d: nat, l: nat)
    requires IsRun(f, states, labels) && s <= d <= |labels| && Untouched(states[s], l)
    requires forall t :: s <= t < d ==> !(labels[t].CountRecord? && labels[t].e.logger == l)
    ensures Untouched(states[d], l)
    decreases d
  {
    hide Enabled, Apply, Untouched, Inv;
    if s < d {
      UntouchedOver(f, states, labels, s, d - 1, l);
      RunKeepsInv(f, states, labels, d - 1);
      UntouchedStays(f, states[d - 1], labels[d - 1], l);
    }
  }

  /** When a flag goes up, the worker has nothing in its hands. */
  lemma SignalUntouched(f: Formats, w: World, l: nat)
    requires Inv(f, w) && Enabled(f, w, Signal) && NoneSince(w, w.taken[0].mark, l)
    ensures Untouched(Apply(f, w, Signal), l)
  {
    hide RefsOk, RendersOk, CountIn, LinesOf, Line, DistinctIds, MarkWritten;
    var m := w.taken[0].mark;
    assert w.taken[0] in w.taken;
    assert w.appended[m..] == w.appended[m..w.swapped] + w.logs;
    CountSplits(w.appended[m..w.swapped], w.logs, l);
    CountNone(l);
  }

  lemma FlaggedAfter(f: Formats, w: World, b: Label, x: Waiter)
    requires Enabled(f, w, b) && x in Apply(f, w, b).flagged
    ensures x in w.flagged || (b == Signal && w.taken != [] && w.taken[0] == x)
  {
    hide Line, HasText, Queue, OutAt;
  }

  lemma {:induction false} RaisedAt(f: Formats, states: seq<World>, labels: seq<Label>, r: nat, d: nat, x: Waiter)
    returns (s: nat)
    requires IsRun(f, states, labels) && r <= d <= |labels| && x !in states[r].flagged && x in states[d].flagged
    ensures r <= s < d && labels[s] == Signal && states[s].taken != [] && states[s].taken[0] == x
    decreases d
  {
    hide Enabled, Apply;
    FlaggedAfter(f, states[d - 1], labels[d - 1], x);
    if x in states[d - 1].flagged {
      s := RaisedAt(f, states, labels, r, d - 1, x);
    } else {
      s := d - 1;
    }
  }

  lemma FreshWaiter(f: Formats, w: World, id: nat)
    requires Enabled(f, w, Register(id))
    ensures Waiter(id, |w.appended|) !in w.flagged
  {
    assert forall i :: 0 <= i < |w.flagged| ==> Queue(w)[i] == w.flagged[i];
  }

  lemma FlushedIsUntouched(f: Formats, states: seq<World>, labels: seq<Label>, r: nat, d: nat, x: Waiter, l: nat)
    requires IsRun(f, states, labels) && FlushedBehind(states, labels, r, d, x, l)
    ensures Untouched(states[d], l)
  {
    var m := |states[r].appended|;
    RegisteredAs(f, states, labels, r, d, x);
    assert NoneSince(states[r], m, l) by {
      assert states[r].appended[m..] == [];
    }
    hide Enabled, Apply, Inv, Untouched, NoneSince, CountIn;
    FreshWaiter(f, states[r], x.id);
    var s := RaisedAt(f, states, labels, r, d, x);
    NoneSinceOver(f, states, labels, r, s, m, l);
    RunKeepsInv(f, states, labels, s);
    SignalUntouched(f, states[s], l);
    UntouchedOver(f, states, labels, s + 1, d, l);
  }

  lemma EndedIsUntouched(f: Formats, w: World, l: nat)
    requires Inv(f, w) && w.phase == Ended
    ensures Untouched(w, l)
  {
    hide RefsOk, RendersOk, TextOk, FlushOk, DistinctIds;
    CountNone(l);
  }

  lemma {:induction false} GoneStays(f: Formats, states: seq<World>, labels: seq<Label>, d: nat, j: nat, l: nat)
    requires IsRun(f, states, labels) && d < j <= |labels| && labels[d] == Destroy(l)
    ensures l in states[j].refs && l !in states[j].alive
    decreases j
  {
    if d + 1 < j {
      GoneStays(f, states, labels, d, j - 1, l);
      LivesOn(f, states[j - 1], labels[j - 1], l);
    }
  }

  lemma CountedExists(f: Formats, w: World, b: Label)
    requires Enabled(f, w, b) && b.CountRecord?
    ensures b.e.logger in w.alive
  {
  }

  lemma {:induction false} GoneWasDestroyed(f: Formats, states: seq<World>, labels: seq<Label>, j: nat, l: nat)
    returns (d: nat)
    requires IsRun(f, states, labels) && j <= |labels| && l in states[j].refs && l !in states[j].alive
    ensures d < j && labels[d] == Destroy(l)
  {
    hide Enabled, Apply;
    var w := states[j - 1];
    if l in w.refs {
      LivesOn(f, w, labels[j - 1], l);
      if l in w.alive {
        d := j - 1;
      } else {
        d := GoneWasDestroyed(f, states, labels, j - 1, l);
      }
    } else {
      NewIsAlive(f, w, labels[j - 1], l);
    }
  }

  lemma NewIsAlive(f: Formats, w: World, b: Label, l: nat)
    requires Enabled(f, w, b) && l !in w.refs && l in Apply(f, w, b).refs
    ensures l in Apply(f, w, b).alive
  {
    hide Line, HasText, Queue, OutAt;
  }

  lemma NotifiedIsKnown(f: Formats, w: World)
    requires Inv(f, w) && w.notify.Some?
    ensures w.notify.value in w.refs
  {
  }

  lemma GoneStaysUntouched(f: Formats, states: seq<World>, labels: seq<Label>, d: nat, j: nat, l: nat)
    requires IsRun(f, states, labels) && d < j <= |labels| && labels[d] == Destroy(l) && Untouched(states[d], l)
    ensures Untouched(states[j], l)
  {
    hide Enabled, Apply, Untouched;
    forall t | d <= t < j
      ensures !(labels[t].CountRecord? && labels[t].e.logger == l)
    {
      if labels[t].CountRecord? && d < t {
        CountedExists(f, states[t], labels[t]);
        GoneStays(f, states, labels, d, t, l);
      }
    }
    UntouchedOver(f, states, labels, d, j, l);
  }

  lemma DestroyKeepsNotify(f: Formats, w: World, l: nat)
    requires Inv(f, w) && Enabled(f, w, Destroy(l))
    ensures Apply(f, w, Destroy(l)).notify == w.notify && Held(w, l) == 0
  {
    ReferencesHeld(f, w, l);
  }

  /** The destruction of logger l at step d is safe, in that the worker will never come to notify it
      afterwards, exactly if no notification of it is due at that moment. */
  lemma DestroyIsSafeExactly(f: Formats, states: seq<World>, labels: seq<Label>, d: nat, l: nat)
    requires IsRun(f, states, labels) && d < |labels| && labels[d] == Destroy(l)
    ensures (forall j :: d < j <= |labels| ==> states[j].notify != Some(l)) <==> states[d].notify != Some(l)
  {
    hide Enabled, Apply, Inv, Held;
    RunKeepsInv(f, states, labels, d);
    DestroyKeepsNotify(f, states[d], l);
    if states[d].notify != Some(l) {
      forall j | d < j <= |labels|
        ensures states[j].notify != Some(l)
      {
        GoneStaysUntouched(f, states, labels, d, j, l);
      }
    } else {
      assert states[d + 1].notify == Some(l);
    }
  }

  /** If every logger is destroyed only after a flush behind its last record was seen to return, or after
      the worker ended, then in every interleaving the logger the worker has to notify exists. */
  lemma ConsiderateOwnersAreSafe(f: Formats, states: seq<World>, labels: seq<Label>, j: nat, l: nat)
    requires IsRun(f, states, labels) && j <= |labels| && states[j].notify == Some(l)
    requires forall d, l :: 0 <= d < |labels| && labels[d] == Destroy(l) ==> MayGo(states, labels, d, l)
    ensures l in states[j].alive
  {
    hide Enabled, Apply, Inv, FlushedBehind;
    RunKeepsInv(f, states, labels, j);
    NotifiedIsKnown(f, states[j]);
    if l !in states[j].alive {
      var d := GoneWasDestroyed(f, states, labels, j, l);
      MayGoUntouched(f, states, labels, d, l);
      GoneStaysUntouched(f, states, labels, d, j, l);
    }
  }

  lemma MayGoUntouched(f: Formats, states: seq<World>, labels: seq<Label>, d: nat, l: nat)
    requires IsRun(f, states, labels) && MayGo(states, labels, d, l)
    ensures Untouched(states[d], l)
  {
    hide Enabled, Apply, Inv, FlushedBehind, Untouched;
    if states[d].phase == Ended {
      RunKeepsInv(f, states, labels, d);
      EndedIsUntouched(f, states[d], l);
    } else {
      var r, x :| FlushedBehind(states, labels, r, d, x, l);
      FlushedIsUntouched(f, states, labels, r, d, x, l);
    }
  }

  // ---------------------------------------------------------------- notifying a flush that returned

  lemma RaisedIsInside(f: Formats, w: World)
    requires Inv(f, w) && Enabled(f, w, Signal)
    ensures w.taken[0] !in Apply(f, w, Signal).left
  {
    hide RefsOk, TextOk, FlushOk, RendersOk, Line, HasText;
    var x := w.taken[0];
    assert Queue(w)[|w.flagged|] == x;
    assert forall i :: 0 <= i < |w.flagged| ==> Queue(w)[i] == w.flagged[i];
    assert x !in w.flagged;
  }

  lemma LeftAfter(f: Formats, w: World, b: Label, x: Waiter)
    requires Enabled(f, w, b)
    ensures x in Apply(f, w, b).left <==> x in w.left || b == Leave(x)
  {
    hide Line, HasText, Queue, OutAt;
  }

  lemma {:induction false} InsideUntilLeft(f: Formats, states: seq<World>, labels: seq<Label>, i: nat, j: nat,
                                          x: Waiter)
    requires IsRun(f, states, labels) && i <= j <= |labels| && x !in states[i].left
    ensures x !in states[j].left <==> forall t :: i <= t < j ==> labels[t] != Leave(x)
    decreases j
  {
    hide Enabled, Apply;
    if i < j {
      InsideUntilLeft(f, states, labels, i, j - 1, x);
      LeftAfter(f, states[j - 1], labels[j - 1], x);
    }
  }

  /** The window of a flush: from its flag going up at step i to the notification of the condition
      variable it owns, it is still inside `flush` exactly if it did not return in between. */
  lemma CalledIsInsideExactly(f: Formats, states: seq<World>, labels: seq<Label>, i: nat, j: nat, x: Waiter)
    requires IsRun(f, states, labels) && i < j <= |labels| && labels[i] == Signal
    requires states[i].taken != [] && x == states[i].taken[0]
    ensures x !in states[j].left <==> forall t :: i < t < j ==> labels[t] != Leave(x)
  {
    RunKeepsInv(f, states, labels, i);
    RaisedIsInside(f, states[i]);
    hide Enabled, Apply, Inv;
    InsideUntilLeft(f, states, labels, i + 1, j, x);
  }

  /** A flush whose flag is up is not taken again: once its notification is over, none is made. */
  lemma FlaggedStays(f: Formats, w: World, b: Label, x: Waiter)
    requires Inv(f, w) && Enabled(f, w, b) && x in w.flagged && w.calling != Some(x)
    ensures x in Apply(f, w, b).flagged && Apply(f, w, b).calling != Some(x)
  {
    hide RefsOk, TextOk, FlushOk, RendersOk, Line, HasText, ToNotify;
    if b.Signal? {
      var i :| 0 <= i < |w.flagged| && w.flagged[i] == x;
      assert Queue(w)[i] == x && Queue(w)[|w.flagged|] == w.taken[0];
    }
  }

  lemma {:induction false} FlaggedStaysOver(f: Formats, states: seq<World>, labels: seq<Label>, d: nat, j: nat,
                                          x: Waiter)
    requires IsRun(f, states, labels) && d <= j <= |labels| && x in states[d].flagged && states[d].calling != Some(x)
    ensures x in states[j].flagged && states[j].calling != Some(x)
    decreases j
  {
    hide Enabled, Apply, Inv;
    if d < j {
      FlaggedStaysOver(f, states, labels, d, j - 1, x);
      RunKeepsInv(f, states, labels, j - 1);
      FlaggedStays(f, states[j - 1], labels[j - 1], x);
    }
  }

  lemma LeaveKeepsCalling(f: Formats, w: World, x: Waiter)
    requires Enabled(f, w, Leave(x))
    ensures x in w.flagged && Apply(f, w, Leave(x)).calling == w.calling
  {
  }

  /** The return of flush x at step d is safe, in that the worker will never come to notify the condition
      variable that goes with it, exactly if its notification is not due at that moment. */
  lemma LeaveIsSafeExactly(f: Formats, states: seq<World>, labels: seq<Label>, d: nat, x: Waiter)
    requires IsRun(f, states, labels) && d < |labels| && labels[d] == Leave(x)
    ensures (forall j :: d < j <= |labels| ==> states[j].calling != Some(x)) <==> states[d].calling != Some(x)
  {
    hide Enabled, Apply, Inv;
    LeaveKeepsCalling(f, states[d], x);
    if states[d].calling != Some(x) {
      forall j | d < j <= |labels|
        ensures states[j].calling != Some(x)
      {
        FlaggedStaysOver(f, states, labels, d, j, x);
      }
    } else {
      assert states[d + 1].calling == Some(x);
    }
  }

  /** A run on which it is not: one flush, nothing logged, and it returned between its flag and its
      notification. */
  lemma ReturnedBeforeNotified(f: Formats) returns (states: seq<World>, labels: seq<Label>, x: Waiter)
    ensures IsRun(f, states, labels) && var w := states[|labels|];
            w.calling == Some(x) && x in w.left && Enabled(f, w, NotifyWaiter)
  {
    hide Enabled, Apply;
    states, labels, x := FlushOne(f);
    FlagOne(f, x);
    states, labels := Goes(f, states, labels, Signal);
    states, labels := Goes(f, states, labels, Leave(x));
  }

  lemma FlagOne(f: Formats, x: Waiter)
    ensures Enabled(f, INIT.(phase := Signalling, taken := [x]), Signal)
    ensures var w := Apply(f, INIT.(phase := Signalling, taken := [x]), Signal);
            Enabled(f, w, Leave(x)) && var v := Apply(f, w, Leave(x));
            v.calling == Some(x) && x in v.left && Enabled(f, v, NotifyWaiter)
  {
    hide Line, HasText, ToNotify;
  }

  lemma FlushOne(f: Formats) returns (states: seq<World>, labels: seq<Label>, x: Waiter)
    ensures IsRun(f, states, labels) && states[|labels|] == INIT.(phase := Signalling, taken := [x])
  {
    hide Line, HasText;
    x := Waiter(0, 0);
    states, labels := Goes(f, [INIT], [], Register(0));
    assert states[|labels|] == INIT.(waiters := [x]);
    states, labels := Goes(f, states, labels, Swap);
    assert states[|labels|] == INIT.(phase := Grouping, taken := [x]);
    states, labels := Goes(f, states, labels, BeginWriting);
    states, labels := Goes(f, states, labels, BeginSignalling);
  }

  // ---------------------------------------------------------------- the worker's code

  class Worker {
    const formats: Formats
    // loggers: which exist, `ref_`, what the backend was given
    var alive: set<nat>
    var refs: map<nat, nat>
    var out: map<nat, string>
    // producers between `++ref_` and `append`
    var counted: seq<Entry>
    // `logs_`, `waiters_`, `stop_`
    var logs: seq<Entry>
    var waiters: seq<Waiter>
    var stop: bool
    // the worker thread: its place in the code, and the locals of `loop_` and `drain_`
    var phase: Phase
    var batch: seq<Entry>
    var head: Head
    var buffers: map<nat, string>
    var writing: Option<nat>
    var notify: Option<nat>
    var taken: seq<Waiter>
    var calling: Option<Waiter>
    var final: bool
    // flushes that returned
    var left: set<Waiter>
    // history
    var appended: seq<Entry>
    var swapped: nat
    var flagged: seq<Waiter>

    function View(): World
      reads this
    {
      World(alive, refs, out, counted, logs, waiters, stop, phase, batch, head, buffers, writing, notify, taken,
            calling, final, left, appended, swapped, flagged)
    }

    ghost predicate Valid()
      reads this
    {
      Inv(formats, View())
    }

    constructor (formats: Formats)
      ensures Valid() && View() == INIT && this.formats == formats
    {
      this.formats := formats;
      alive, refs, out, counted, logs, waiters, stop := {}, map[], map[], [], [], [], false;
      phase, batch, head, buffers, writing, taken, final := Idle, [], Fresh, map[], None, [], false;
      notify, calling, left := None, None, {};
      appended, swapped, flagged := [], 0, [];
      new;
      InitInv(formats);
    }

    /** A logger comes into being. */
    method Construct(l: nat)
      requires Valid() && Enabled(formats, View(), Create(l))
      modifies this
      ensures Valid() && View() == Apply(formats, old(View()), Create(l))
    {
      hide Inv, Line, OutAt;
      StepKeepsInv(formats, View(), Create(l));
      alive := alive + {l};
      refs := refs[l := 0];
    }

    /** `log`, past the level check: the record is counted before it is appended. */
    method Log(e: Entry)
      requires Valid() && Enabled(formats, View(), CountRecord(e))
      modifies this
      ensures Valid() && View() == Apply(formats, old(View()), CountRecord(e))
    {
      hide Inv, Line, OutAt;
      StepKeepsInv(formats, View(), CountRecord(e));
      refs := refs[e.logger := refs[e.logger] + 1];
      counted := counted + [e];
    }

    /** `append`, under the lock, of a record some producer has counted. */
    method Append(i: nat)
      requires Valid() && Enabled(formats, View(), AppendRecord(i))
      modifies this
      ensures Valid() && View() == Apply(formats, old(View()), AppendRecord(i))
    {
      hide Inv, Line, OutAt;
      StepKeepsInv(formats, View(), AppendRecord(i));
      logs := logs + [counted[i]];
      appended := appended + [counted[i]];
      counted := counted[..i] + counted[i + 1..];
    }

    /** `flush`, up to its wait. */
    method Flush(id: nat)
      requires Valid() && Enabled(formats, View(), Register(id))
      modifies this
      ensures Valid() && View() == Apply(formats, old(View()), Register(id))
    {
      hide Inv, Line, OutAt;
      StepKeepsInv(formats, View(), Register(id));
      waiters := waiters + [Waiter(id, |appended|)];
    }

    /** The end of a `flush` that saw its flag. */
    method EndFlush(x: Waiter)
      requires Valid() && Enabled(formats, View(), Leave(x))
      modifies this
      ensures Valid() && View() == Apply(formats, old(View()), Leave(x))
    {
      hide Inv, Line, OutAt;
      StepKeepsInv(formats, View(), Leave(x));
      left := left + {x};
    }

    /** `~worker`. */
    method RequestStop()
      requires Valid() && Enabled(formats, View(), Stop)
      modifies this
      ensures Valid() && View() == Apply(formats, old(View()), Stop)
    {
      hide Inv, Line, OutAt;
      StepKeepsInv(formats, View(), Stop);
      stop := true;
    }

    /** `~logger`, past its wait. */
    method Destruct(l: nat)
      requires Valid() && Enabled(formats, View(), Destroy(l))
      modifies this
      ensures Valid() && View() == Apply(formats, old(View()), Destroy(l))
    {
      hide Inv, Line, OutAt;
      StepKeepsInv(formats, View(), Destroy(l));
      alive := alive - {l};
    }

    /** One step of some other thread. */
    method OtherStep(b: Label)
      requires Valid() && IsProducer(b) && Enabled(formats, View(), b)
      modifies this
      ensures Valid() && Interfered(old(View()), View())
    {
      hide Inv, Enabled, Apply, Interfered;
      ProducersInterfere(formats, View(), b);
      match b
      case Create(l) => Construct(l);
      case CountRecord(e) => Log(e);
      case AppendRecord(i) => Append(i);
      case Register(id) => Flush(id);
      case Leave(x) => EndFlush(x);
      case Stop => RequestStop();
      case Destroy(l) => Destruct(l);
    }

    /** Any number of steps of other threads. */
    method Interfere()
      requires Valid()
      modifies this
      ensures Valid() && Interfered(old(View()), View()) && Kept(old(View()), View())
      ensures phase == old(phase) && batch == old(batch) && head == old(head) && buffers == old(buffers)
      ensures writing == old(writing) && notify == old(notify) && calling == old(calling)
    {
      hide Inv, Enabled, Apply, Interfered, Kept;
      InterferedNever(View());
      var n: nat := *;
      while n > 0
        invariant Valid() && Interfered(old(View()), View())
      {
        var b: Label := *;
        if IsProducer(b) && Enabled(formats, View(), b) {
          ghost var v := View();
          OtherStep(b);
          InterferedTwice(old(View()), v, View());
        }
        n := n - 1;
      }
      InterferedKeeps(old(View()), View());
    }

    /** `reference_`. */
    method AddReference(l: nat)
      requires l in refs
      modifies this`refs
      ensures View() == old(View()).(refs := old(refs)[l := old(refs)[l] + 1])
    {
      refs := refs[l := refs[l] + 1];
    }

    /** `unreference_`, up to the decrement and its test. */
    method DropReference(l: nat)
      requires l in refs && refs[l] > 0
      modifies this`refs, this`notify
      ensures View() == old(View()).(refs := old(refs)[l := old(refs)[l] - 1], notify := ToNotify(old(refs), l))
    {
      notify := ToNotify(refs, l);
      refs := refs[l := refs[l] - 1];
    }

    /** The buffer of the first record's logger: a reference is taken when it is made. */
    method OpenBuffer()
      requires Valid() && Enabled(formats, View(), Reference)
      modifies this
      ensures Valid() && View() == Apply(formats, old(View()), Reference)
    {
      hide Inv, Line, OutAt, HasText, ToNotify;
      StepKeepsInv(formats, View(), Reference);
      var l := batch[0].logger;
      if l !in buffers {
        AddReference(l);
        buffers := buffers[l := ""];
      }
      head := Counted;
    }

    method AbsorbRecord()
      requires Valid() && Enabled(formats, View(), Absorb)
      modifies this
      ensures Valid() && View() == Apply(formats, old(View()), Absorb)
    {
      hide Inv, HasText, Stripped, Rendered, Queue, ToNotify;
      StepKeepsInv(formats, View(), Absorb);
      var e := batch[0];
      var text := Format(formats(e.logger), e.record);
      buffers := buffers[e.logger := buffers[e.logger] + (text + "\n")];
      head := Absorbed;
    }

    method ReleaseRecord()
      requires Valid() && Enabled(formats, View(), Release)
      modifies this
      ensures Valid() && View() == Apply(formats, old(View()), Release)
    {
      hide Inv, Line, OutAt, HasText, ToNotify;
      StepKeepsInv(formats, View(), Release);
      DropReference(batch[0].logger);
      batch := batch[1..];
      head := Fresh;
    }

    /** `cv_.notify_one()` of the logger whose counter the worker brought to zero. */
    method NotifyLogger()
      requires Valid() && Enabled(formats, View(), Notify)
      modifies this
      ensures Valid() && View() == Apply(formats, old(View()), Notify)
    {
      hide Inv, Line;
      StepKeepsInv(formats, View(), Notify);
      notify := None;
    }

    /** The rest of `unreference_`, after the decrement; others may act in between. */
    method NotifyIfLast()
      requires Valid() && (phase == Grouping || phase == Writing)
      modifies this
      ensures Valid() && notify == None && Kept(old(View()), View())
      ensures phase == old(phase) && batch == old(batch) && head == old(head) && buffers == old(buffers)
      ensures writing == old(writing)
    {
      hide Inv, Apply, Interfered, Kept;
      Interfere();
      if notify.Some? {
        ghost var v := View();
        WorkerStep(formats, View(), Notify);
        NotifyLogger();
        KeptTwice(old(View()), v, View());
      }
    }

    /** Format the first record into its logger's buffer. */
    method BufferRecord()
      requires Valid() && phase == Grouping && batch != [] && head == Fresh && notify == None
      modifies this
      ensures Valid() && phase == Grouping && head == Absorbed && batch == old(batch) && Kept(old(View()), View())
    {
      hide Inv, Apply, Interfered, Kept, HasText;
      WorkerTouchesTheLiving(formats, View());
      HandsFree(formats, View());
      WorkerStep(formats, View(), Reference);
      OpenBuffer();
      ghost var v := View();
      Interfere();
      KeptTwice(old(View()), v, View());
      v := View();
      WorkerStep(formats, View(), Absorb);
      AbsorbRecord();
      KeptTwice(old(View()), v, View());
    }

    /** First loop of `drain_`, one record: reference the logger if its buffer is new, format into the
        buffer, release the record's reference. */
    method GroupRecord()
      requires Valid() && phase == Grouping && batch != [] && head == Fresh && notify == None
      modifies this
      ensures Valid() && phase == Grouping && head == Fresh && batch == old(batch[1..]) && notify == None
      ensures Kept(old(View()), View())
    {
      hide Inv, Apply, Interfered, Kept;
      BufferRecord();
      ghost var v := View();
      Interfere();
      KeptTwice(old(View()), v, View());
      v := View();
      WorkerTouchesTheLiving(formats, View());
      WorkerStep(formats, View(), Release);
      HandsFree(formats, View());
      ReleaseRecord();
      KeptTwice(old(View()), v, View());
      v := View();
      NotifyIfLast();
      KeptTwice(old(View()), v, View());
    }

    method GiveToBackend(l: nat)
      requires Valid() && Enabled(formats, View(), Write(l))
      modifies this
      ensures Valid() && View() == Apply(formats, old(View()), Write(l))
    {
      hide Inv, Line;
      StepKeepsInv(formats, View(), Write(l));
      out := out[l := OutAt(out, l) + buffers[l]];
      writing := Some(l);
    }

    /** The buffer is done with: only now is the logger free to go. */
    method CloseBuffer()
      requires Valid() && Enabled(formats, View(), Unreference)
      modifies this
      ensures Valid() && View() == Apply(formats, old(View()), Unreference)
    {
      hide Inv, Line, OutAt, HasText, ToNotify;
      StepKeepsInv(formats, View(), Unreference);
      DropReference(writing.value);
      buffers := buffers - {writing.value};
      writing := None;
    }

    /** Second loop of `drain_`, one buffer: write it, release the buffer's reference. */
    method WriteBuffer(l: nat)
      requires Valid() && phase == Writing && writing == None && notify == None && l in buffers
      modifies this
      ensures Valid() && phase == Writing && writing == None && notify == None && buffers == old(buffers) - {l}
      ensures Kept(old(View()), View())
    {
      hide Inv, Apply, Interfered, Kept;
      WorkerStep(formats, View(), Write(l));
      GiveToBackend(l);
      ghost var v := View();
      Interfere();
      KeptTwice(old(View()), v, View());
      v := View();
      WorkerTouchesTheLiving(formats, View());
      WorkerStep(formats, View(), Unreference);
      CloseBuffer();
      KeptTwice(old(View()), v, View());
      v := View();
      NotifyIfLast();
      KeptTwice(old(View()), v, View());
    }

    /** Third loop of `drain_`, one waiter: raise its flag. */
    method RaiseFlag()
      requires Valid() && Enabled(formats, View(), Signal)
      modifies this
      ensures Valid() && View() == Apply(formats, old(View()), Signal)
    {
      hide Inv, Line, OutAt;
      StepKeepsInv(formats, View(), Signal);
      flagged := flagged + [taken[0]];
      calling := Some(taken[0]);
      taken := taken[1..];
    }

    /** `cv.notify_one()` of the flush whose flag went up. */
    method NotifyFlush()
      requires Valid() && Enabled(formats, View(), NotifyWaiter)
      modifies this
      ensures Valid() && View() == Apply(formats, old(View()), NotifyWaiter)
    {
      hide Inv, Line, OutAt;
      StepKeepsInv(formats, View(), NotifyWaiter);
      calling := None;
    }

    method ReleaseWaiter()
      requires Valid() && phase == Signalling && calling == None && taken != []
      modifies this
      ensures Valid() && phase == Signalling && calling == None && taken == old(taken[1..])
      ensures flagged == old(flagged + [taken[0]])
      ensures final == old(final) && swapped == old(swapped) && old(appended) <= appended && (old(stop) ==> stop)
    {
      hide Inv, Line, OutAt, Kept, Interfered;
      RaiseFlag();
      ghost var v := View();
      Interfere();
      KeptMeans(v, View());
      NotifyFlush();
    }

    /** `drain_`, with other threads at work between any two of its atomic pieces: afterwards every
        logger's backend got exactly the lines of all records swapped out so far, and every waiter taken
        is flagged, in order. */
    method Drain()
      requires Valid() && phase == Grouping && head == Fresh && notify == None
      modifies this
      ensures Valid() && phase == (if old(final) then Ended else Idle)
      ensures swapped == old(swapped) && old(appended) <= appended && (old(stop) ==> stop) && swapped <= |appended|
      ensures forall l :: OutAt(out, l) == LinesOf(formats, appended[..swapped], l)
      ensures flagged == old(flagged + taken)
    {
      hide Inv, LinesOf, OutAt, Apply, Kept;
      DrainRecords();
      ghost var v := View();
      DrainBuffers();
      KeptTwice(old(View()), v, View());
      KeptMeans(old(View()), View());
      RaiseFlags();
      Written();
    }

    method DrainRecords()
      requires Valid() && phase == Grouping && head == Fresh && notify == None
      modifies this
      ensures Valid() && phase == Writing && writing == None && notify == None && Kept(old(View()), View())
    {
      hide Inv, Apply, Kept, Interfered;
      KeptAlways(View());
      while batch != []
        invariant Valid() && phase == Grouping && head == Fresh && notify == None && Kept(old(View()), View())
        decreases |batch|
      {
        ghost var v := View();
        GroupRecord();
        KeptTwice(old(View()), v, View());
        v := View();
        Interfere();
        KeptTwice(old(View()), v, View());
      }
      ShapeOf(formats, View());
      StepKeepsInv(formats, View(), BeginWriting);
      WorkerStep(formats, View(), BeginWriting);
      ghost var v := View();
      BeginBuffers();
      KeptTwice(old(View()), v, View());
    }

    method BeginBuffers()
      requires Valid() && Enabled(formats, View(), BeginWriting)
      modifies this
      ensures Valid() && View() == Apply(formats, old(View()), BeginWriting)
    {
      hide Inv;
      StepKeepsInv(formats, View(), BeginWriting);
      phase := Writing;
    }

    method DrainBuffers()
      requires Valid() && phase == Writing && writing == None && notify == None
      modifies this
      ensures Valid() && phase == Writing && buffers == map[] && notify == None && Kept(old(View()), View())
    {
      hide Inv, Apply, Kept, Interfered;
      KeptAlways(View());
      while buffers != map[]
        invariant Valid() && phase == Writing && writing == None && notify == None && Kept(old(View()), View())
        decreases |buffers|
      {
        var l :| l in buffers;
        assert buffers.Keys == (buffers - {l}).Keys + {l};
        ghost var v := View();
        WriteBuffer(l);
        KeptTwice(old(View()), v, View());
        v := View();
        Interfere();
        KeptTwice(old(View()), v, View());
      }
    }

    method RaiseFlags()
      requires Valid() && phase == Writing && buffers == map[] && notify == None
      modifies this
      ensures Valid() && phase == (if old(final) then Ended else Idle) && flagged == old(flagged + taken)
      ensures swapped == old(swapped) && old(appended) <= appended && (old(stop) ==> stop)
    {
      hide Inv, OutAt, Line, HasText, ToNotify, Queue;
      ShapeOf(formats, View());
      TurnToWaiters();
      ReleaseWaiters();
      LeaveDrain();
    }

    method ReleaseWaiters()
      requires Valid() && phase == Signalling && calling == None
      modifies this
      ensures Valid() && phase == Signalling && calling == None && taken == [] && flagged == old(flagged + taken)
      ensures final == old(final) && swapped == old(swapped) && old(appended) <= appended && (old(stop) ==> stop)
    {
      hide Inv, Kept, Interfered;
      while taken != []
        invariant Valid() && phase == Signalling && calling == None && final == old(final)
        invariant flagged + taken == old(flagged + taken)
        invariant swapped == old(swapped) && old(appended) <= appended && (old(stop) ==> stop)
        decreases |taken|
      {
        ReleaseWaiter();
        ghost var v := View();
        Interfere();
        KeptMeans(v, View());
      }
    }

    method TurnToWaiters()
      requires Valid() && Enabled(formats, View(), BeginSignalling)
      modifies this`phase
      ensures Valid() && View() == Apply(formats, old(View()), BeginSignalling)
    {
      hide Inv, OutAt, Line;
      StepKeepsInv(formats, View(), BeginSignalling);
      phase := Signalling;
    }

    method LeaveDrain()
      requires Valid() && Enabled(formats, View(), EndDrain)
      modifies this`phase
      ensures Valid() && View() == Apply(formats, old(View()), EndDrain)
    {
      hide Inv, OutAt, Line;
      StepKeepsInv(formats, View(), EndDrain);
      phase := if final then Ended else Idle;
    }

    /** With the drain over, nothing is in the worker's hands. */
    lemma Written()
      requires Valid() && (phase == Idle || phase == Ended)
      ensures swapped <= |appended| && forall l :: OutAt(out, l) == LinesOf(formats, appended[..swapped], l)
    {
      SwappedWithin(formats, View());
      forall l
        ensures OutAt(out, l) == LinesOf(formats, appended[..swapped], l)
      {
        NothingInHand(formats, View(), l);
      }
    }

    /** `loop_`: swap and drain until `stop_`, then drain what is left. `rounds` bounds how long the
        environment lets it run before setting `stop_`. */
    method Loop(rounds: nat) returns (ended: bool)
      requires Valid() && phase == Idle
      modifies this
      ensures Valid() && old(appended) <= appended && (ended <==> phase == Ended) && (ended <==> stop)
      ensures ended ==> forall l :: OutAt(out, l) == LinesOf(formats, appended, l)
      ensures ended ==> forall l :: l in alive ==> l in refs && refs[l] == 0
    {
      hide Inv, LinesOf, OutAt, Line;
      var more := rounds;
      while !stop && more > 0
        invariant Valid() && phase == Idle && old(appended) <= appended
        decreases more
      {
        Interfere();
        ShapeOf(formats, View());
        SwapOut();
        Interfere();
        Drain();
        Interfere();
        more := more - 1;
      }
      ended := stop;
      if stop {
        ShapeOf(formats, View());
        TakeRest();
        Drain();
        Finished();
      }
    }

    /** Under the lock: take the records and the waiters. */
    method SwapOut()
      requires Valid() && phase == Idle
      modifies this
      ensures Valid() && View() == Apply(formats, old(View()), Swap)
    {
      hide Inv, Line, OutAt;
      StepKeepsInv(formats, View(), Swap);
      SwapLogs();
      SwapWaiters();
    }

    /** `logs_.swap(ready)`, with which the worker enters `drain_`. */
    method SwapLogs()
      modifies this
      ensures View() == old(View()).(phase := Grouping, batch := old(logs), logs := [], swapped := |old(appended)|)
    {
      phase, batch, logs, swapped := Grouping, logs, [], |appended|;
    }

    /** `waiters.swap(waiters_)`. */
    method SwapWaiters()
      modifies this
      ensures View() == old(View()).(taken := old(waiters), waiters := [])
    {
      taken, waiters := waiters, [];
    }

    /** The final drain takes what is left; the source iterates over `logs_` itself, which nobody appends
        to any more. */
    method TakeRest()
      requires Valid() && phase == Idle && stop
      modifies this
      ensures Valid() && View() == Apply(formats, old(View()), FinalSwap)
    {
      hide Inv, Line, OutAt;
      StepKeepsInv(formats, View(), FinalSwap);
      SwapLogs();
      SwapWaiters();
      final := true;
    }

    lemma Finished()
      requires Valid() && phase == Ended
      ensures forall l :: OutAt(out, l) == LinesOf(formats, appended, l)
      ensures forall l :: l in alive ==> l in refs && refs[l] == 0
    {
      forall l
        ensures OutAt(out, l) == LinesOf(formats, appended, l)
        ensures l in alive ==> l in refs && refs[l] == 0
      {
        EndedWrote(formats, View(), l);
        ReferencesHeld(formats, View(), l);
      }
    }
  }
}
