/** The background log worker as an interleaving of atomic steps: any number of producers, one worker,
    and the loggers' reference counters. */
module LogMachine {
  import opened Options
  import opened LogFormat

  datatype Entry = Entry(logger: nat, record: Record)

  /** A thread inside `flush`; `mark` is how many records had been appended when it registered. */
  datatype Waiter = Waiter(id: nat, mark: nat)

  /** Each logger's formatter. */
  type Formats = nat -> seq<Segment>

  /** Where the worker is: outside `drain_`, in one of its three loops, or past the final drain. */
  datatype Phase = Idle | Grouping | Writing | Signalling | Ended

  /** How far the worker is with the first record of its batch. */
  datatype Head = Fresh | Counted | Absorbed

  /** Loggers (which exist, their `ref_`, what their backend was given); producers past `++ref_` but
      not yet in `append`; the worker's shared fields; the worker's locals, among them the logger whose
      counter it brought to zero and the flush whose flag it raised, each still to be notified; the
      flushes that returned; and the history. */
  datatype World = World(
    alive: set<nat>,
    refs: map<nat, nat>,
    out: map<nat, string>,
    counted: seq<Entry>,
    logs: seq<Entry>,
    waiters: seq<Waiter>,
    stop: bool,
    phase: Phase,
    batch: seq<Entry>,
    head: Head,
    buffers: map<nat, string>,
    writing: Option<nat>,
    notify: Option<nat>,
    taken: seq<Waiter>,
    calling: Option<Waiter>,
    final: bool,
    left: set<Waiter>,
    appended: seq<Entry>,
    swapped: nat,
    flagged: seq<Waiter>)

  const INIT := World({}, map[], map[], [], [], [], false, Idle, [], Fresh, map[], None, None, [], None, false, {},
                      [], 0, [])

  // ---------------------------------------------------------------- the synchronous logger

  /** What a logger that formats and writes each record at once has written after these records. */
  function LinesOf(f: Formats, s: seq<Entry>, l: nat): string {
    if s == [] then ""
    else LinesOf(f, s[..|s| - 1], l) + LineFor(f, s[|s| - 1], l)
  }

  function LineFor(f: Formats, e: Entry, l: nat): string {
    if e.logger == l then Line(f(l), e.record) else ""
  }

  lemma {:induction false} LinesSplit(f: Formats, a: seq<Entry>, b: seq<Entry>, l: nat)
    ensures LinesOf(f, a + b, l) == LinesOf(f, a, l) + LinesOf(f, b, l)
  {
    hide LineFor;
    if b == [] {
      assert a + b == a;
    } else {
      assert (a + b)[..|a + b| - 1] == a + b[..|b| - 1];
      LinesSplit(f, a, b[..|b| - 1], l);
    }
  }

  lemma LinesOfOne(f: Formats, e: Entry, l: nat)
    ensures LinesOf(f, [e], l) == LineFor(f, e, l)
  {
    hide LineFor;
    assert [e][..0] == [];
    assert "" + LineFor(f, e, l) == LineFor(f, e, l);
  }

  function CountIn(s: seq<Entry>, l: nat): nat {
    if s == [] then 0 else CountIn(s[..|s| - 1], l) + if s[|s| - 1].logger == l then 1 else 0
  }

  lemma {:induction false} CountSplits(a: seq<Entry>, b: seq<Entry>, l: nat)
    ensures CountIn(a + b, l) == CountIn(a, l) + CountIn(b, l)
  {
    if b == [] {
      assert a + b == a;
    } else {
      assert (a + b)[..|a + b| - 1] == a + b[..|b| - 1];
      CountSplits(a, b[..|b| - 1], l);
    }
  }

  lemma CountOfOne(e: Entry, l: nat)
    ensures CountIn([e], l) == if e.logger == l then 1 else 0
  {
    assert [e][..0] == [];
  }

  // ---------------------------------------------------------------- the invariant

  function OutAt(out: map<nat, string>, l: nat): string {
    if l in out then out[l] else ""
  }

  /** How many references to logger l are out: records counted, pending, in the batch, and its buffer. */
  function Held(w: World, l: nat): nat {
    CountIn(w.counted, l) + CountIn(w.logs, l) + CountIn(w.batch, l) + if l in w.buffers then 1 else 0
  }

  /** Grouped text not yet given to the backend. */
  function Grouped(w: World, l: nat): string {
    if l in w.buffers && w.writing != Some(l) then w.buffers[l] else ""
  }

  /** Records of the batch whose text is not in a buffer yet. */
  function Ungrouped(w: World): seq<Entry> {
    if w.head == Absorbed && w.batch != [] then w.batch[1..] else w.batch
  }

  /** Output, grouped text and ungrouped records of logger l, put together. */
  function Known(f: Formats, w: World, l: nat): string {
    OutAt(w.out, l) + Grouped(w, l) + LinesOf(f, Ungrouped(w), l)
  }

  ghost predicate RefsOk(w: World) {
    forall l :: if l in w.alive then l in w.refs && w.refs[l] == Held(w, l) else Held(w, l) == 0
  }

  ghost predicate TextOk(f: Formats, w: World) {
    && w.swapped <= |w.appended| && w.logs == w.appended[w.swapped..]
    && forall l :: Known(f, w, l) == LinesOf(f, w.appended[..w.swapped], l)
  }

  ghost predicate MarkWritten(f: Formats, w: World, x: Waiter) {
    x.mark <= |w.appended| && forall l :: LinesOf(f, w.appended[..x.mark], l) <= OutAt(w.out, l)
  }

  ghost predicate FlushOk(f: Formats, w: World) {
    && (forall x :: x in w.waiters ==> x.mark <= |w.appended|)
    && (forall x :: x in w.taken ==> x.mark <= w.swapped)
    && (forall x :: x in w.flagged ==> MarkWritten(f, w, x))
  }

  /** Flushes in the order they registered: flagged, taken by the worker, waiting to be. */
  function Queue(w: World): seq<Waiter> {
    w.flagged + w.taken + w.waiters
  }

  predicate DistinctIds(queue: seq<Waiter>) {
    forall i, j :: 0 <= i < j < |queue| ==> queue[i].id != queue[j].id
  }

  /** Every record on its way to a buffer has a rendering the formatter can finish. */
  ghost predicate RendersOk(f: Formats, w: World) {
    forall e :: e in w.counted || e in w.logs || e in w.batch ==> HasText(f(e.logger), e.record)
  }

  predicate NotifyOk(w: World) {
    && (w.notify.Some? ==> (w.phase == Grouping || w.phase == Writing) && w.head == Fresh && w.writing == None)
    && (w.notify.Some? ==> w.notify.value in w.refs)
    && (w.calling.Some? ==> w.phase == Signalling)
  }

  predicate QueueOk(w: World) {
    (forall x :: x in w.left ==> x in w.flagged) && DistinctIds(Queue(w))
  }

  predicate ShapeOk(w: World) {
    && NotifyOk(w) && QueueOk(w)
    && (w.phase != Grouping ==> w.batch == [] && w.head == Fresh)
    && (w.phase != Writing ==> w.writing == None)
    && (w.phase != Grouping && w.phase != Writing ==> w.buffers == map[])
    && (w.head != Fresh ==> w.batch != [] && w.batch[0].logger in w.buffers)
    && (w.writing.Some? ==> w.writing.value in w.buffers)
    && (w.stop ==> w.counted == [])
    && (w.final ==> w.stop && w.logs == [] && w.waiters == [])
    && (w.phase == Idle ==> !w.final && w.taken == [])
    && (w.phase == Ended ==> w.final && w.taken == [])
  }

  ghost predicate Inv(f: Formats, w: World) {
    RefsOk(w) && TextOk(f, w) && FlushOk(f, w) && RendersOk(f, w) && ShapeOk(w)
  }

  // ---------------------------------------------------------------- the steps

  datatype Label =
    // producers and owners of loggers
    | Create(l: nat)
    | CountRecord(e: Entry)
    | AppendRecord(i: nat)
    | Register(id: nat)
    | Leave(x: Waiter)
    | Stop
    | Destroy(l: nat)
    // the worker
    | Swap
    | FinalSwap
    | Reference
    | Absorb
    | Release
    | BeginWriting
    | Write(l: nat)
    | Unreference
    | Notify
    | BeginSignalling
    | Signal
    | NotifyWaiter
    | EndDrain

  predicate IsProducer(b: Label) {
    b.Create? || b.CountRecord? || b.AppendRecord? || b.Register? || b.Leave? || b.Stop? || b.Destroy?
  }

  /** When a step may be taken. Hypotheses on the environment: records are logged to existing loggers and
      before `stop_`, and what they render to is not just newlines; `stop_` is set when no append is under
      way; a logger is destroyed once. While a notification is due the worker does nothing else. */
  predicate Enabled(f: Formats, w: World, b: Label) {
    match b
    case Create(l) => l !in w.alive && l !in w.refs
    case CountRecord(e) => e.logger in w.alive && e.logger in w.refs && !w.stop && HasText(f(e.logger), e.record)
    case AppendRecord(i) => i < |w.counted| && !w.stop
    case Register(id) => !w.stop && forall i :: 0 <= i < |Queue(w)| ==> Queue(w)[i].id != id
    case Leave(x) => x in w.flagged && x !in w.left
    case Stop => w.counted == []
    case Destroy(l) => l in w.alive && l in w.refs && w.refs[l] == 0
    case Swap => w.phase == Idle
    case FinalSwap => w.phase == Idle && w.stop
    case Reference =>
      w.phase == Grouping && w.notify == None && w.batch != [] && w.head == Fresh && w.batch[0].logger in w.refs
    case Absorb =>
      w.phase == Grouping && w.batch != [] && w.head == Counted && w.batch[0].logger in w.buffers &&
      HasText(f(w.batch[0].logger), w.batch[0].record)
    case Release =>
      w.phase == Grouping && w.batch != [] && w.head == Absorbed && w.batch[0].logger in w.refs &&
      w.refs[w.batch[0].logger] > 0
    case BeginWriting => w.phase == Grouping && w.notify == None && w.batch == []
    case Write(l) => w.phase == Writing && w.notify == None && w.writing == None && l in w.buffers
    case Unreference =>
      w.phase == Writing && w.writing.Some? && w.writing.value in w.refs && w.refs[w.writing.value] > 0
    case Notify => w.notify.Some?
    case BeginSignalling => w.phase == Writing && w.notify == None && w.buffers == map[]
    case Signal => w.phase == Signalling && w.calling == None && w.taken != []
    case NotifyWaiter => w.calling.Some?
    case EndDrain => w.phase == Signalling && w.calling == None && w.taken == []
  }

  /** Whom `unreference_` has to notify: the logger whose counter reached zero. */
  function ToNotify(refs: map<nat, nat>, l: nat): Option<nat> {
    if l in refs && refs[l] == 1 then Some(l) else None
  }

  function Apply(f: Formats, w: World, b: Label): World
    requires Enabled(f, w, b)
  {
    match b
    case Create(l) => w.(alive := w.alive + {l}, refs := w.refs[l := 0])
    case CountRecord(e) => w.(refs := w.refs[e.logger := w.refs[e.logger] + 1], counted := w.counted + [e])
    case AppendRecord(i) =>
      w.(counted := w.counted[..i] + w.counted[i + 1..], logs := w.logs + [w.counted[i]],
         appended := w.appended + [w.counted[i]])
    case Register(id) => w.(waiters := w.waiters + [Waiter(id, |w.appended|)])
    case Leave(x) => w.(left := w.left + {x})
    case Stop => w.(stop := true)
    case Destroy(l) => w.(alive := w.alive - {l})
    case Swap =>
      w.(phase := Grouping, batch := w.logs, logs := [], taken := w.waiters, waiters := [], swapped := |w.appended|)
    case FinalSwap =>
      w.(phase := Grouping, batch := w.logs, logs := [], taken := w.waiters, waiters := [], swapped := |w.appended|,
         final := true)
    case Reference =>
      var l := w.batch[0].logger;
      if l in w.buffers then w.(head := Counted)
      else w.(head := Counted, refs := w.refs[l := w.refs[l] + 1], buffers := w.buffers[l := ""])
    case Absorb =>
      var e := w.batch[0];
      w.(head := Absorbed, buffers := w.buffers[e.logger := w.buffers[e.logger] + Line(f(e.logger), e.record)])
    case Release =>
      var l := w.batch[0].logger;
      w.(head := Fresh, refs := w.refs[l := w.refs[l] - 1], batch := w.batch[1..], notify := ToNotify(w.refs, l))
    case BeginWriting => w.(phase := Writing)
    case Write(l) => w.(out := w.out[l := OutAt(w.out, l) + w.buffers[l]], writing := Some(l))
    case Unreference =>
      var l := w.writing.value;
      w.(refs := w.refs[l := w.refs[l] - 1], buffers := w.buffers - {l}, writing := None, notify := ToNotify(w.refs, l))
    case Notify => w.(notify := None)
    case BeginSignalling => w.(phase := Signalling)
    case Signal => w.(flagged := w.flagged + [w.taken[0]], taken := w.taken[1..], calling := Some(w.taken[0]))
    case NotifyWaiter => w.(calling := None)
    case EndDrain => w.(phase := if w.final then Ended else Idle)
  }

  // ---------------------------------------------------------------- every step keeps the invariant

  lemma StepKeepsShape(f: Formats, w: World, b: Label)
    requires ShapeOk(w) && Enabled(f, w, b)
    ensures ShapeOk(Apply(f, w, b))
  {
    hide Line, OutAt, HasText, Queue, QueueOk, NotifyOk, ToNotify;
    StepKeepsQueue(f, w, b);
    StepKeepsNotify(f, w, b);
  }

  lemma StepKeepsNotify(f: Formats, w: World, b: Label)
    requires ShapeOk(w) && Enabled(f, w, b)
    ensures NotifyOk(Apply(f, w, b))
  {
    hide Line, OutAt, HasText, Queue, QueueOk;
  }

  lemma StepKeepsQueue(f: Formats, w: World, b: Label)
    requires ShapeOk(w) && Enabled(f, w, b)
    ensures QueueOk(Apply(f, w, b))
  {
    hide Line, OutAt, HasText, Queue, DistinctIds, NotifyOk, ToNotify;
    QueueAfter(f, w, b);
  }

  /** The queue of flushes changes by registration only. */
  lemma QueueAfter(f: Formats, w: World, b: Label)
    requires ShapeOk(w) && Enabled(f, w, b)
    ensures Queue(Apply(f, w, b)) == Queue(w) + if b.Register? then [Waiter(b.id, |w.appended|)] else []
    ensures DistinctIds(Queue(Apply(f, w, b)))
  {
    hide Line, OutAt, HasText, DistinctIds, NotifyOk, ToNotify;
    if b.Signal? {
      OneFlagged(w.flagged, w.taken, w.waiters);
      assert Queue(w) + [] == Queue(w);
    } else if b.Register? {
      DistinctMore(Queue(w), Waiter(b.id, |w.appended|));
    } else {
      assert Queue(w) + [] == Queue(w);
    }
  }

  lemma OneFlagged(flagged: seq<Waiter>, taken: seq<Waiter>, waiters: seq<Waiter>)
    requires taken != []
    ensures flagged + [taken[0]] + taken[1..] + waiters == flagged + taken + waiters
  {
  }

  lemma DistinctMore(queue: seq<Waiter>, x: Waiter)
    requires DistinctIds(queue) && forall i :: 0 <= i < |queue| ==> queue[i].id != x.id
    ensures DistinctIds(queue + [x])
  {
  }

  /** What the step does to the references of logger l. */
  lemma HeldAfter(f: Formats, w: World, b: Label, l: nat)
    requires ShapeOk(w) && Enabled(f, w, b)
    ensures Held(Apply(f, w, b), l) ==
            Held(w, l)
            + (if b.CountRecord? && b.e.logger == l then 1 else 0)
            + (if b.Reference? && w.batch[0].logger == l && l !in w.buffers then 1 else 0)
            - (if b.Release? && w.batch[0].logger == l then 1 else 0)
            - (if b.Unreference? && w.writing.value == l then 1 else 0)
  {
    hide Line, OutAt, CountIn, ShapeOk, HasText, Queue, ToNotify;
    ShapeFacts(w);
    CountNone(l);
    if b.CountRecord? {
      CountSplits(w.counted, [b.e], l);
      CountOfOne(b.e, l);
    } else if b.AppendRecord? {
      CountMoved(w.counted, b.i, l);
      CountSplits(w.logs, [w.counted[b.i]], l);
      CountOfOne(w.counted[b.i], l);
    } else if b.Release? || b.Reference? {
      CountSplits([w.batch[0]], w.batch[1..], l);
      CountOfOne(w.batch[0], l);
      assert w.batch == [w.batch[0]] + w.batch[1..];
    }
  }

  /** A logger the worker references or releases is held. */
  lemma HeldBefore(f: Formats, w: World, b: Label, l: nat)
    requires ShapeOk(w) && Enabled(f, w, b)
    ensures (b.Reference? || b.Release?) && w.batch[0].logger == l ==> Held(w, l) > 0
    ensures b.Unreference? && w.writing.value == l ==> Held(w, l) > 0
  {
    hide Line, OutAt, CountIn, ShapeOk, HasText, Queue, ToNotify;
    ShapeFacts(w);
    if b.Release? || b.Reference? {
      CountSplits([w.batch[0]], w.batch[1..], l);
      CountOfOne(w.batch[0], l);
      assert w.batch == [w.batch[0]] + w.batch[1..];
    }
  }

  lemma ShapeFacts(w: World)
    requires ShapeOk(w)
    ensures w.phase == Idle ==> w.batch == [] && w.buffers == map[] && w.taken == [] && w.head == Fresh
    ensures w.writing.Some? ==> w.writing.value in w.buffers
  {
  }

  lemma StepKeepsRefs(f: Formats, w: World, b: Label)
    requires RefsOk(w) && ShapeOk(w) && Enabled(f, w, b)
    ensures RefsOk(Apply(f, w, b))
  {
    hide Line, OutAt, CountIn, ShapeOk, Held, HasText, Queue, ToNotify;
    var v := Apply(f, w, b);
    forall l
      ensures if l in v.alive then l in v.refs && v.refs[l] == Held(v, l) else Held(v, l) == 0
    {
      assert if l in w.alive then l in w.refs && w.refs[l] == Held(w, l) else Held(w, l) == 0;
      HeldAfter(f, w, b, l);
      HeldBefore(f, w, b, l);
    }
  }

  lemma CountNone(l: nat)
    ensures CountIn([], l) == 0
  {
  }

  lemma CountMoved(s: seq<Entry>, i: nat, l: nat)
    requires i < |s|
    ensures CountIn(s, l) == CountIn(s[..i] + s[i + 1..], l) + CountIn([s[i]], l)
  {
    assert s == s[..i] + [s[i]] + s[i + 1..];
    hide CountIn;
    CountSplits(s[..i] + [s[i]], s[i + 1..], l);
    CountSplits(s[..i], [s[i]], l);
    CountSplits(s[..i], s[i + 1..], l);
  }

  lemma UngroupedAfter(w: World)
    requires w.batch != []
    ensures w.head != Absorbed ==> Ungrouped(w) == w.batch
    ensures w.head == Absorbed ==> Ungrouped(w) == w.batch[1..]
    ensures w.batch == [w.batch[0]] + w.batch[1..]
  {
  }

  lemma AbsorbText(f: Formats, w: World, l: nat)
    requires ShapeOk(w) && Enabled(f, w, Absorb)
    ensures Known(f, Apply(f, w, Absorb), l) == Known(f, w, l)
  {
    hide LinesOf, Line, LineFor, OutAt;
    var e := w.batch[0];
    UngroupedAfter(w);
    LinesSplit(f, [e], w.batch[1..], l);
    LinesOfOne(f, e, l);
    GroupedMore(f, w, l);
    Regroup(OutAt(w.out, l), Grouped(w, l), LineFor(f, e, l), LinesOf(f, w.batch[1..], l));
  }

  lemma GroupedMore(f: Formats, w: World, l: nat)
    requires ShapeOk(w) && Enabled(f, w, Absorb)
    ensures Grouped(Apply(f, w, Absorb), l) == Grouped(w, l) + LineFor(f, w.batch[0], l)
  {
    hide Line;
    assert Grouped(w, l) + "" == Grouped(w, l);
  }

  lemma Regroup(a: string, b: string, c: string, d: string)
    ensures a + b + (c + d) == a + (b + c) + d
  {
  }

  lemma WriteText(f: Formats, w: World, x: nat, l: nat)
    requires ShapeOk(w) && Enabled(f, w, Write(x))
    ensures Known(f, Apply(f, w, Write(x)), l) == Known(f, w, l)
  {
    hide LinesOf, Line, HasText, ToNotify;
    var v := Apply(f, w, Write(x));
    assert OutAt(v.out, l) + Grouped(v, l) == OutAt(w.out, l) + Grouped(w, l);
  }

  lemma QuietText(f: Formats, w: World, b: Label, l: nat)
    requires ShapeOk(w) && Enabled(f, w, b) && !b.Swap? && !b.FinalSwap? && !b.Absorb? && !b.Write?
    ensures Known(f, Apply(f, w, b), l) == Known(f, w, l)
  {
    hide LinesOf, Line, HasText, Queue, ToNotify, QueueOk, NotifyOk;
  }

  /** The text of logger l under the worker's hands is as long as before, in every step but a swap. */
  lemma TextAfter(f: Formats, w: World, b: Label, l: nat)
    requires ShapeOk(w) && Enabled(f, w, b) && !b.Swap? && !b.FinalSwap?
    ensures Known(f, Apply(f, w, b), l) == Known(f, w, l)
  {
    hide Known, ShapeOk;
    if b.Absorb? {
      AbsorbText(f, w, l);
    } else if b.Write? {
      WriteText(f, w, b.l, l);
    } else {
      QuietText(f, w, b, l);
    }
  }

  lemma SwapText(f: Formats, w: World, b: Label, l: nat)
    requires ShapeOk(w) && TextOk(f, w) && Enabled(f, w, b) && (b.Swap? || b.FinalSwap?)
    ensures Known(f, Apply(f, w, b), l) == LinesOf(f, w.appended, l)
  {
    hide LinesOf, Line, ShapeOk, TextOk, OutAt;
    ShapeFacts(w);
    TextFacts(f, w, l);
    LinesSplit(f, w.appended[..w.swapped], w.logs, l);
    NoLines(f, l);
    assert OutAt(w.out, l) + "" + "" == OutAt(w.out, l);
  }

  lemma TextFacts(f: Formats, w: World, l: nat)
    requires TextOk(f, w)
    ensures w.swapped <= |w.appended| && w.appended == w.appended[..w.swapped] + w.logs
    ensures Known(f, w, l) == LinesOf(f, w.appended[..w.swapped], l)
  {
  }

  lemma NoLines(f: Formats, l: nat)
    ensures LinesOf(f, [], l) == ""
  {
  }

  lemma StepKeepsText(f: Formats, w: World, b: Label)
    requires TextOk(f, w) && ShapeOk(w) && Enabled(f, w, b)
    ensures TextOk(f, Apply(f, w, b))
  {
    hide LinesOf, Known, ShapeOk, Line, OutAt, HasText, Queue, ToNotify;
    var v := Apply(f, w, b);
    if b.Swap? || b.FinalSwap? {
      forall l
        ensures Known(f, v, l) == LinesOf(f, v.appended[..v.swapped], l)
      {
        SwapText(f, w, b, l);
        assert v.appended[..v.swapped] == w.appended;
      }
    } else {
      assert v.appended[..v.swapped] == w.appended[..w.swapped];
      assert v.logs == v.appended[v.swapped..];
      forall l
        ensures Known(f, v, l) == LinesOf(f, v.appended[..v.swapped], l)
      {
        TextAfter(f, w, b, l);
      }
    }
  }

  lemma {:induction false} LinesGrow(f: Formats, s: seq<Entry>, m: nat, n: nat, l: nat)
    requires m <= n <= |s|
    ensures LinesOf(f, s[..m], l) <= LinesOf(f, s[..n], l)
  {
    hide LinesOf;
    assert s[..n] == s[..m] + s[m..n];
    LinesSplit(f, s[..m], s[m..n], l);
  }

  /** The history and each logger's output only grow. */
  lemma OnlyGrows(f: Formats, w: World, b: Label, l: nat)
    requires Enabled(f, w, b)
    ensures w.appended <= Apply(f, w, b).appended && OutAt(w.out, l) <= OutAt(Apply(f, w, b).out, l)
  {
    hide Line, HasText, Queue, ToNotify;
  }

  lemma WrittenStays(f: Formats, w: World, b: Label, x: Waiter)
    requires Enabled(f, w, b) && MarkWritten(f, w, x)
    ensures MarkWritten(f, Apply(f, w, b), x)
  {
    var v := Apply(f, w, b);
    hide LinesOf, OutAt, Apply;
    OnlyGrows(f, w, b, 0);
    assert v.appended[..x.mark] == w.appended[..x.mark];
    forall l
      ensures LinesOf(f, v.appended[..x.mark], l) <= OutAt(v.out, l)
    {
      OnlyGrows(f, w, b, l);
    }
  }

  /** With nothing grouped or left to group, everything swapped out has been written. */
  lemma NothingInHand(f: Formats, w: World, l: nat)
    requires TextOk(f, w) && w.batch == [] && (w.buffers == map[])
    ensures OutAt(w.out, l) == LinesOf(f, w.appended[..w.swapped], l)
  {
    hide LinesOf, OutAt;
    TextFacts(f, w, l);
    NoLines(f, l);
    assert OutAt(w.out, l) + "" + "" == OutAt(w.out, l);
  }

  lemma SignalShows(f: Formats, w: World)
    requires Inv(f, w) && Enabled(f, w, Signal)
    ensures MarkWritten(f, Apply(f, w, Signal), w.taken[0])
  {
    var x := w.taken[0];
    assert x in w.taken;
    forall l
      ensures LinesOf(f, w.appended[..x.mark], l) <= OutAt(w.out, l)
    {
      NothingInHand(f, w, l);
      LinesGrow(f, w.appended, x.mark, w.swapped, l);
    }
  }

  lemma StepKeepsFlush(f: Formats, w: World, b: Label)
    requires Inv(f, w) && Enabled(f, w, b)
    ensures FlushOk(f, Apply(f, w, b))
  {
    hide RefsOk, TextOk, RendersOk, MarkWritten, ShapeOk, Line, OutAt, HasText, Queue, ToNotify;
    var v := Apply(f, w, b);
    if b.Signal? {
      SignalShows(f, w);
    }
    SwappedWithin(f, w);
    forall x | x in v.flagged
      ensures MarkWritten(f, v, x)
    {
      if x in w.flagged {
        WrittenStays(f, w, b, x);
      }
    }
  }

  lemma SwappedWithin(f: Formats, w: World)
    requires TextOk(f, w)
    ensures w.swapped <= |w.appended|
  {
  }

  lemma StepKeepsRenders(f: Formats, w: World, b: Label)
    requires RendersOk(f, w) && Enabled(f, w, b)
    ensures RendersOk(f, Apply(f, w, b))
  {
    hide Line, OutAt, HasText, Queue;
  }

  lemma StepKeepsInv(f: Formats, w: World, b: Label)
    requires Inv(f, w) && Enabled(f, w, b)
    ensures Inv(f, Apply(f, w, b))
  {
    hide RefsOk, TextOk, FlushOk, RendersOk, ShapeOk, Enabled, Apply;
    StepKeepsRenders(f, w, b);
    StepKeepsShape(f, w, b);
    StepKeepsRefs(f, w, b);
    StepKeepsText(f, w, b);
    StepKeepsFlush(f, w, b);
  }
}
