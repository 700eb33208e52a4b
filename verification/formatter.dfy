/** Log formats: the scanner of the formatter's constructor, `repr`, and `format`. */
module LogFormat {
  import opened Options
  import Text

  datatype Meta = Datetime | Level | Topic | Thread | Location | Message
  datatype Segment = Raw(text: string) | Field(meta: Meta)

  datatype Severity = DebugLevel | InfoLevel | WarningLevel | ErrorLevel | FatalLevel

  /** `level_string`. */
  function LevelString(v: Severity): string {
    match v
    case DebugLevel => "DEBUG"
    case InfoLevel => "INFO"
    case WarningLevel => "WARNING"
    case ErrorLevel => "ERROR"
    case FatalLevel => "FATAL"
  }

  predicate OnlyNewlines(s: string) {
    forall k :: 0 <= k < |s| ==> s[k] == '\n'
  }

  function SomeDate(): (s: string)
    ensures !OnlyNewlines(s)
  {
    assert "0"[0] == '0';
    "0"
  }

  /** A timestamp as `fmt` prints it, of which only this much is said. */
  type DateText = s: string | !OnlyNewlines(s) witness SomeDate()

  /** What `format` is given. */
  datatype Record = Record(datetime: DateText, level: Severity, topic: string, thread: nat, file: string,
                           line: nat, message: string)

  function NameOf(m: Meta): string {
    match m
    case Datetime => "datetime"
    case Level => "level"
    case Topic => "topic"
    case Thread => "thread"
    case Location => "location"
    case Message => "message"
  }

  function MetaOf(name: string): Option<Meta> {
    if name == "datetime" then Some(Datetime)
    else if name == "level" then Some(Level)
    else if name == "topic" then Some(Topic)
    else if name == "thread" then Some(Thread)
    else if name == "location" then Some(Location)
    else if name == "message" then Some(Message)
    else None
  }

  lemma NamesAreKnown(m: Meta)
    ensures MetaOf(NameOf(m)) == Some(m) && '}' !in NameOf(m)
  {
    assert |NameOf(Datetime)| == 8 && |NameOf(Level)| == 5 && |NameOf(Topic)| == 5 && |NameOf(Thread)| == 6;
    assert NameOf(Level)[0] == 'l' && NameOf(Topic)[0] == 't';
    assert NameOf(Datetime)[0] == 'd' && NameOf(Location)[0] == 'l';
    assert |NameOf(Location)| == 8 && |NameOf(Message)| == 7;
  }

  lemma NameOfMeta(name: string)
    requires MetaOf(name).Some?
    ensures NameOf(MetaOf(name).value) == name
  {
  }

  // ---------------------------------------------------------------- the grammar

  /** A format is literal text and placeholders; the last one may lack its closing brace. */
  datatype Piece = Literal(text: string) | Placeholder(name: string) | Unclosed(text: string)

  predicate OpensAt(f: string, i: int) {
    0 <= i && i + 1 < |f| && f[i] == '%' && f[i + 1] == '{'
  }

  /** Where the first "%{" is, or the length. */
  function FindOpen(f: string): (i: nat)
    ensures i <= |f| && (i < |f| ==> OpensAt(f, i)) && forall k :: 0 <= k < i ==> !OpensAt(f, k)
  {
    if f == [] then 0
    else if OpensAt(f, 0) then 0
    else
      var r := FindOpen(f[1..]);
      assert forall k :: 1 <= k ==> (OpensAt(f, k) <==> OpensAt(f[1..], k - 1));
      r + 1
  }

  predicate ClosesAt(f: string, j: int) {
    0 <= j < |f| && f[j] == '}'
  }

  /** Where the first '}' is, or the length. */
  function FindClose(f: string): (j: nat)
    ensures j <= |f| && (j < |f| ==> ClosesAt(f, j)) && forall k :: 0 <= k < j ==> !ClosesAt(f, k)
  {
    if f == [] then 0
    else if ClosesAt(f, 0) then 0
    else
      var r := FindClose(f[1..]);
      assert forall k :: 1 <= k ==> (ClosesAt(f, k) <==> ClosesAt(f[1..], k - 1));
      r + 1
  }

  function Pieces(f: string): seq<Piece>
    decreases |f|
  {
    var i := FindOpen(f);
    LiteralPiece(f[..i]) + if i == |f| then [] else AfterOpen(f[i + 2..])
  }

  function LiteralPiece(text: string): seq<Piece> {
    if text == [] then [] else [Literal(text)]
  }

  /** Just inside a placeholder. */
  function AfterOpen(f: string): seq<Piece>
    decreases |f|
  {
    var j := FindClose(f);
    if j == |f| then [Unclosed("%{" + f)] else [Placeholder(f[..j])] + Pieces(f[j + 1..])
  }

  function Spelled(p: Piece): string {
    match p
    case Literal(t) => t
    case Placeholder(n) => "%{" + n + "}"
    case Unclosed(t) => t
  }

  function Spell(ps: seq<Piece>): string {
    if ps == [] then "" else Spelled(ps[0]) + Spell(ps[1..])
  }

  lemma {:induction false} SpellSplits(a: seq<Piece>, b: seq<Piece>)
    ensures Spell(a + b) == Spell(a) + Spell(b)
  {
    if a == [] {
      assert a + b == b;
    } else {
      assert (a + b)[1..] == a[1..] + b;
      SpellSplits(a[1..], b);
    }
  }

  /** The pieces cover the format: no character is lost, shared or out of place. */
  lemma {:induction false} PiecesCover(f: string)
    ensures Spell(Pieces(f)) == f
    decreases |f|
  {
    hide Spell, Pieces, AfterOpen, LiteralPiece;
    var i := FindOpen(f);
    PiecesUnfold(f);
    SpellLiteral(f[..i]);
    if i < |f| {
      AfterOpenCovers(f[i + 2..]);
      SpellSplits(LiteralPiece(f[..i]), AfterOpen(f[i + 2..]));
      assert f == f[..i] + ("%{" + f[i + 2..]);
    } else {
      assert LiteralPiece(f[..i]) + [] == LiteralPiece(f[..i]) && f[..i] == f;
    }
  }

  lemma {:induction false} AfterOpenCovers(f: string)
    ensures Spell(AfterOpen(f)) == "%{" + f
    decreases |f|
  {
    hide Spell, Pieces, Spelled;
    var j := FindClose(f);
    if j < |f| {
      PiecesCover(f[j + 1..]);
      SpellOne(Placeholder(f[..j]));
      SpellSplits([Placeholder(f[..j])], Pieces(f[j + 1..]));
      CloseSpelled(f, j);
    } else {
      SpellOne(Unclosed("%{" + f));
      UnclosedSpelled(f);
    }
  }

  lemma CloseSpelled(f: string, j: nat)
    requires ClosesAt(f, j)
    ensures Spelled(Placeholder(f[..j])) + f[j + 1..] == "%{" + f
  {
    assert f == f[..j] + "}" + f[j + 1..];
  }

  lemma UnclosedSpelled(f: string)
    ensures Spelled(Unclosed("%{" + f)) == "%{" + f
  {
  }

  lemma SpellOne(p: Piece)
    ensures Spell([p]) == Spelled(p)
  {
    assert [p][1..] == [];
  }

  lemma SpellLiteral(text: string)
    ensures Spell(LiteralPiece(text)) == text
  {
  }

  // ---------------------------------------------------------------- segments

  /** Known placeholders become fields; unknown ones and an unclosed tail are dropped. */
  function SegmentOf(p: Piece): seq<Segment> {
    match p
    case Literal(t) => [Raw(t)]
    case Placeholder(n) => if MetaOf(n).Some? then [Field(MetaOf(n).value)] else []
    case Unclosed(_) => []
  }

  function SegmentsOf(ps: seq<Piece>): seq<Segment> {
    if ps == [] then [] else SegmentOf(ps[0]) + SegmentsOf(ps[1..])
  }

  function Parse(f: string): seq<Segment> {
    SegmentsOf(Pieces(f))
  }

  lemma {:induction false} SegmentsSplit(a: seq<Piece>, b: seq<Piece>)
    ensures SegmentsOf(a + b) == SegmentsOf(a) + SegmentsOf(b)
  {
    if a == [] {
      assert a + b == b;
    } else {
      assert (a + b)[1..] == a[1..] + b;
      SegmentsSplit(a[1..], b);
    }
  }

  /** The fold both `repr` and `format` are: raw text as it is, each field as `show` says. */
  function Fold(segs: seq<Segment>, show: Meta -> string): string {
    if segs == [] then ""
    else Fold(segs[..|segs| - 1], show) + Shown(segs[|segs| - 1], show)
  }

  function Shown(seg: Segment, show: Meta -> string): string {
    match seg
    case Raw(t) => t
    case Field(m) => show(m)
  }

  lemma {:induction false} FoldSplits(a: seq<Segment>, b: seq<Segment>, show: Meta -> string)
    ensures Fold(a + b, show) == Fold(a, show) + Fold(b, show)
  {
    if b == [] {
      assert a + b == a;
    } else {
      assert (a + b)[..|a + b| - 1] == a + b[..|b| - 1];
      FoldSplits(a, b[..|b| - 1], show);
    }
  }

  lemma FoldOne(seg: Segment, show: Meta -> string)
    ensures Fold([seg], show) == Shown(seg, show)
  {
    assert [seg][..0] == [];
    assert "" + Shown(seg, show) == Shown(seg, show);
  }

  function Spelling(m: Meta): string {
    "%{" + NameOf(m) + "}"
  }

  function Repr(segs: seq<Segment>): string {
    Fold(segs, Spelling)
  }

  function FieldText(r: Record, m: Meta): string {
    match m
    case Datetime => r.datetime
    case Level => LevelString(r.level)
    case Topic => r.topic
    case Thread => Text.Print(r.thread, 10)
    case Location => r.file + ":" + Text.Print(r.line, 10)
    case Message => r.message
  }

  function Shows(r: Record): Meta -> string {
    m => FieldText(r, m)
  }

  function Rendered(segs: seq<Segment>, r: Record): string {
    Fold(segs, Shows(r))
  }

  // ---------------------------------------------------------------- the scanner

  /** What is still to come, seen from either state of the scanner. */
  function Remaining(f: string, inside: bool): seq<Segment> {
    SegmentsOf(if inside then AfterOpen(f) else Pieces(f))
  }

  lemma OpenFound(f: string, i: nat)
    requires OpensAt(f, i) && forall k :: 0 <= k < i ==> !OpensAt(f, k)
    ensures Remaining(f, false) == (if i == 0 then [] else [Raw(f[..i])]) + Remaining(f[i + 2..], true)
  {
    assert FindOpen(f) == i;
    SegmentsSplit(LiteralPiece(f[..i]), AfterOpen(f[i + 2..]));
    LiteralSegments(f[..i]);
  }

  lemma LiteralSegments(text: string)
    ensures SegmentsOf(LiteralPiece(text)) == if text == [] then [] else [Raw(text)]
  {
  }

  lemma NoOpen(f: string)
    requires forall k :: 0 <= k < |f| ==> !OpensAt(f, k)
    ensures Remaining(f, false) == if f == [] then [] else [Raw(f)]
  {
    assert FindOpen(f) == |f| && f[..|f|] == f;
    LiteralSegments(f);
  }

  lemma SegmentsOfOne(p: Piece)
    ensures SegmentsOf([p]) == SegmentOf(p)
  {
    assert [p][1..] == [];
  }

  lemma CloseFound(f: string, j: nat)
    requires ClosesAt(f, j) && forall k :: 0 <= k < j ==> !ClosesAt(f, k)
    ensures Remaining(f, true) == SegmentOf(Placeholder(f[..j])) + Remaining(f[j + 1..], false)
  {
    assert FindClose(f) == j;
    SegmentsOfOne(Placeholder(f[..j]));
    SegmentsSplit([Placeholder(f[..j])], Pieces(f[j + 1..]));
  }

  lemma NoClose(f: string)
    requires forall k :: 0 <= k < |f| ==> !ClosesAt(f, k)
    ensures Remaining(f, true) == []
  {
    assert FindClose(f) == |f|;
    SegmentsOfOne(Unclosed("%{" + f));
  }

  lemma Advance(done: seq<Segment>, more: seq<Segment>, rest: seq<Segment>)
    ensures done + (more + rest) == (done + more) + rest
  {
  }

  /** The constructor's index-and-state scanner computes the grammar's segments, on every string. */
  method Scan(format: string) returns (segments: seq<Segment>)
    ensures segments == Parse(format)
  {
    hide Remaining, Parse, MetaOf, SegmentOf;
    segments := [];
    var meta := false;
    var s := 0;
    var i := 0;
    assert format[0..] == format;
    StartOfScan(format);
    while i < |format|
      invariant s <= i <= |format|
      invariant meta ==> forall k :: s <= k < i ==> !ClosesAt(format, k)
      invariant !meta ==> forall k :: s <= k < i ==> !OpensAt(format, k)
      invariant segments + Remaining(format[s..], meta) == Parse(format)
    {
      var c := format[i];
      if !meta && c == '%' && i < |format| - 1 && format[i + 1] == '{' {
        SeenOpen(format, s, i);
        Advance(segments, if i == s then [] else [Raw(format[s..i])], Remaining(format[i + 2..], true));
        if i != s {
          segments := segments + [Raw(format[s..i])];
        }
        s := i + 2;
        i := i + 1;
        meta := true;
      } else if meta && c == '}' {
        SeenClose(format, s, i);
        var name := format[s..i];
        Named(name);
        Advance(segments, SegmentOf(Placeholder(name)), Remaining(format[i + 1..], false));
        match MetaOf(name) {
          case Some(m) => segments := segments + [Field(m)];
          case None =>
        }
        s := i + 1;
        meta := false;
      }
      i := i + 1;
    }
    SeenEnd(format, s, meta);
    if !meta && s != |format| {
      segments := segments + [Raw(format[s..])];
    }
  }

  lemma StartOfScan(format: string)
    ensures Remaining(format, false) == Parse(format)
  {
  }

  lemma Named(name: string)
    ensures SegmentOf(Placeholder(name)) == match MetaOf(name) { case Some(m) => [Field(m)] case None => [] }
  {
  }

  lemma SeenOpen(format: string, s: nat, i: nat)
    requires s <= i && OpensAt(format, i) && forall k :: s <= k < i ==> !OpensAt(format, k)
    ensures Remaining(format[s..], false) ==
            (if i == s then [] else [Raw(format[s..i])]) + Remaining(format[i + 2..], true)
  {
    hide Remaining;
    assert forall k :: 0 <= k ==> (OpensAt(format[s..], k) <==> OpensAt(format, s + k));
    OpenFound(format[s..], i - s);
    assert format[s..][..i - s] == format[s..i] && format[s..][i - s + 2..] == format[i + 2..];
  }

  lemma SeenClose(format: string, s: nat, i: nat)
    requires s <= i && ClosesAt(format, i) && forall k :: s <= k < i ==> !ClosesAt(format, k)
    ensures Remaining(format[s..], true) == SegmentOf(Placeholder(format[s..i])) + Remaining(format[i + 1..], false)
  {
    hide Remaining, SegmentOf;
    assert forall k :: 0 <= k ==> (ClosesAt(format[s..], k) <==> ClosesAt(format, s + k));
    CloseFound(format[s..], i - s);
    assert format[s..][..i - s] == format[s..i] && format[s..][i - s + 1..] == format[i + 1..];
  }

  lemma SeenEnd(format: string, s: nat, meta: bool)
    requires s <= |format|
    requires meta ==> forall k :: s <= k < |format| ==> !ClosesAt(format, k)
    requires !meta ==> forall k :: s <= k < |format| ==> !OpensAt(format, k)
    ensures Remaining(format[s..], meta) == if meta || s == |format| then [] else [Raw(format[s..])]
  {
    hide Remaining;
    if meta {
      assert forall k :: 0 <= k ==> (ClosesAt(format[s..], k) <==> ClosesAt(format, s + k));
      NoClose(format[s..]);
    } else {
      assert forall k :: 0 <= k ==> (OpensAt(format[s..], k) <==> OpensAt(format, s + k));
      NoOpen(format[s..]);
    }
  }

  /** `repr`: append each segment's spelling. */
  method ReprOf(segments: seq<Segment>) returns (repr: string)
    ensures repr == Repr(segments)
  {
    repr := "";
    for i := 0 to |segments|
      invariant repr == Repr(segments[..i])
    {
      assert segments[..i + 1][..i] == segments[..i];
      match segments[i] {
        case Raw(t) => repr := repr + t;
        case Field(m) => repr := repr + ("%{" + NameOf(m) + "}");
      }
    }
    assert segments[..|segments|] == segments;
  }

  /** The rendering holds something besides newlines. */
  predicate HasText(segments: seq<Segment>, r: Record) {
    !OnlyNewlines(Rendered(segments, r))
  }

  /** `format`: append each segment's text, then drop trailing newlines. The source looks at the last
      character without a length test, so the rendering must hold something besides newlines. */
  method Format(segments: seq<Segment>, r: Record) returns (log: string)
    requires HasText(segments, r)
    ensures log == Stripped(Rendered(segments, r))
  {
    log := "";
    for i := 0 to |segments|
      invariant log == Rendered(segments[..i], r)
    {
      assert segments[..i + 1][..i] == segments[..i];
      match segments[i] {
        case Raw(t) => log := log + t;
        case Field(m) => log := log + FieldText(r, m);
      }
    }
    assert segments[..|segments|] == segments;
    ghost var k :| 0 <= k < |log| && log[k] != '\n';
    while log[|log| - 1] == '\n'
      invariant k < |log| && log[k] != '\n' && Stripped(log) == Stripped(Rendered(segments, r))
      decreases |log|
    {
      log := log[..|log| - 1];
    }
  }

  function Stripped(log: string): string {
    if log == [] || log[|log| - 1] != '\n' then log else Stripped(log[..|log| - 1])
  }

  /** Stripping takes off newlines at the end, all of them and nothing else. */
  lemma {:induction false} StrippedIsMaximal(log: string)
    ensures Stripped(log) <= log && (Stripped(log) == [] || Stripped(log)[|Stripped(log)| - 1] != '\n')
    ensures forall k :: |Stripped(log)| <= k < |log| ==> log[k] == '\n'
  {
    if log != [] && log[|log| - 1] == '\n' {
      StrippedIsMaximal(log[..|log| - 1]);
    }
  }

  // ---------------------------------------------------------------- parsing and printing undo each other

  predicate IsKnown(p: Piece) {
    p.Literal? || (p.Placeholder? && MetaOf(p.name).Some?)
  }

  /** Every placeholder is closed and known. */
  predicate AllKnown(ps: seq<Piece>) {
    forall i :: 0 <= i < |ps| ==> IsKnown(ps[i])
  }

  predicate TailsShow(ps: seq<Piece>) {
    forall i :: 0 <= i < |ps| ==> (ps[i].Unclosed? ==> ps[i].text != "")
  }

  lemma {:induction false} PiecesTailsShow(f: string, inside: bool)
    ensures TailsShow(if inside then AfterOpen(f) else Pieces(f))
    decreases |f|
  {
    if inside {
      var j := FindClose(f);
      if j < |f| {
        PiecesTailsShow(f[j + 1..], false);
      }
    } else {
      var i := FindOpen(f);
      if i < |f| {
        PiecesTailsShow(f[i + 2..], true);
      }
    }
  }

  lemma ReprOfPiece(p: Piece)
    ensures IsKnown(p) ==> Repr(SegmentOf(p)) == Spelled(p)
    ensures !IsKnown(p) ==> Repr(SegmentOf(p)) == ""
  {
    if p.Placeholder? && MetaOf(p.name).Some? {
      NameOfMeta(p.name);
    }
    match p {
      case Literal(t) => FoldOne(Raw(t), Spelling);
      case Placeholder(n) =>
        if MetaOf(n).Some? {
          FoldOne(Field(MetaOf(n).value), Spelling);
        }
      case Unclosed(_) =>
    }
  }

  lemma {:induction false} ReprOfPieces(ps: seq<Piece>)
    requires TailsShow(ps)
    ensures |Repr(SegmentsOf(ps))| <= |Spell(ps)|
    ensures AllKnown(ps) ==> Repr(SegmentsOf(ps)) == Spell(ps)
    ensures !AllKnown(ps) ==> |Repr(SegmentsOf(ps))| < |Spell(ps)|
  {
    hide SegmentOf, IsKnown, Fold;
    if ps != [] {
      ReprOfPieces(ps[1..]);
      FoldSplits(SegmentOf(ps[0]), SegmentsOf(ps[1..]), Spelling);
      ReprOfPiece(ps[0]);
      assert AllKnown(ps) <==> IsKnown(ps[0]) && AllKnown(ps[1..]);
      UnknownShows(ps[0]);
    } else {
      NothingShown();
    }
  }

  lemma UnknownShows(p: Piece)
    ensures !IsKnown(p) && (p.Unclosed? ==> p.text != "") ==> |Spelled(p)| > 0
  {
  }

  lemma NothingShown()
    ensures Repr([]) == ""
  {
  }

  /** `repr` of the parsed format is the format itself exactly if every placeholder is known and closed. */
  lemma ReprRestoresFormat(f: string)
    ensures Repr(Parse(f)) == f <==> AllKnown(Pieces(f))
  {
    PiecesTailsShow(f, false);
    PiecesCover(f);
    ReprOfPieces(Pieces(f));
  }

  predicate OpensNowhere(t: string) {
    forall k :: 0 <= k < |t| ==> !OpensAt(t, k)
  }

  /** Segment lists a format can stand for: raw pieces not empty, without "%{", never two in a row. */
  predicate Canonical(segs: seq<Segment>) {
    && (forall i :: 0 <= i < |segs| && segs[i].Raw? ==> segs[i].text != "" && OpensNowhere(segs[i].text))
    && (forall i :: 0 <= i < |segs| - 1 ==> !(segs[i].Raw? && segs[i + 1].Raw?))
  }

  lemma PlaceholderParsed(name: string, rest: string)
    requires forall k :: 0 <= k < |name| ==> !ClosesAt(name, k)
    ensures AfterOpen(name + "}" + rest) == [Placeholder(name)] + Pieces(rest)
  {
    var f := name + "}" + rest;
    assert ClosesAt(f, |name|);
    assert forall k :: 0 <= k < |name| ==> (ClosesAt(f, k) <==> ClosesAt(name, k));
    assert FindClose(f) == |name|;
    assert f[..|name|] == name && f[|name| + 1..] == rest;
  }

  lemma OpenParsed(t: string, rest: string)
    requires OpensNowhere(t)
    ensures Pieces(t + "%{" + rest) == LiteralPiece(t) + AfterOpen(rest)
  {
    var f := t + "%{" + rest;
    assert OpensAt(f, |t|);
    assert forall k :: 0 <= k < |t| - 1 ==> (OpensAt(f, k) <==> OpensAt(t, k));
    assert |t| > 0 ==> !OpensAt(f, |t| - 1);
    assert FindOpen(f) == |t|;
    assert f[..|t|] == t && f[|t| + 2..] == rest;
  }

  lemma {:induction false} CanonicalRestored(segs: seq<Segment>)
    requires Canonical(segs)
    ensures Parse(Repr(segs)) == segs
  {
    if segs == [] {
      assert Repr([]) == "" && FindOpen("") == 0;
    } else if segs[0].Field? {
      CanonicalRestored(segs[1..]);
      FieldRestored([], segs[0].meta, segs[1..]);
      assert segs == [] + [segs[0]] + segs[1..];
    } else if |segs| == 1 {
      RawRestored(segs[0].text);
      assert segs == [Raw(segs[0].text)];
    } else {
      CanonicalRestored(segs[2..]);
      FieldRestored([segs[0]], segs[1].meta, segs[2..]);
      assert segs == [segs[0]] + [segs[1]] + segs[2..];
    }
  }

  lemma RawRestored(t: string)
    requires t != "" && OpensNowhere(t)
    ensures Parse(Repr([Raw(t)])) == [Raw(t)]
  {
    FoldOne(Raw(t), Spelling);
    NoOpen(t);
  }

  /** A field in front of something restored, behind nothing or one raw piece. */
  lemma FieldRestored(front: seq<Segment>, m: Meta, rest: seq<Segment>)
    requires |front| <= 1 && Parse(Repr(rest)) == rest
    requires front != [] ==> front[0].Raw? && front[0].text != "" && OpensNowhere(front[0].text)
    ensures Parse(Repr(front + [Field(m)] + rest)) == front + [Field(m)] + rest
  {
    hide Fold, Pieces, AfterOpen, MetaOf, NameOf;
    var t := if front == [] then "" else front[0].text;
    var after := NameOf(m) + "}" + Repr(rest);
    FoldSplits(front + [Field(m)], rest, Spelling);
    FoldSplits(front, [Field(m)], Spelling);
    FoldOne(Field(m), Spelling);
    NothingShown();
    if front != [] {
      FoldOne(Raw(t), Spelling);
      assert front == [Raw(t)];
    }
    assert Repr(front + [Field(m)] + rest) == t + "%{" + after;
    OpenParsed(t, after);
    NamesAreKnown(m);
    PlaceholderParsed(NameOf(m), Repr(rest));
    SegmentsSplit(LiteralPiece(t), AfterOpen(after));
    LiteralSegments(t);
    SegmentsSplit([Placeholder(NameOf(m))], Pieces(Repr(rest)));
    SegmentsOfOne(Placeholder(NameOf(m)));
  }

  lemma TextBeforeOpen(f: string, i: nat)
    requires i <= |f| && forall k :: 0 <= k < i ==> !OpensAt(f, k)
    ensures OpensNowhere(f[..i])
  {
    assert forall k :: 0 <= k < i - 1 ==> (OpensAt(f[..i], k) <==> OpensAt(f, k));
  }

  lemma KnownSplits(a: seq<Piece>, b: seq<Piece>)
    requires AllKnown(a + b)
    ensures AllKnown(a) && AllKnown(b)
  {
    assert forall i :: 0 <= i < |a| ==> a[i] == (a + b)[i];
    assert forall i :: 0 <= i < |b| ==> b[i] == (a + b)[|a| + i];
  }

  lemma RawThenCanonical(t: string, segs: seq<Segment>)
    requires OpensNowhere(t) && Canonical(segs) && (segs != [] ==> segs[0].Field?)
    ensures Canonical((if t == [] then [] else [Raw(t)]) + segs)
  {
  }

  lemma FieldThenCanonical(m: Meta, segs: seq<Segment>)
    requires Canonical(segs)
    ensures Canonical([Field(m)] + segs)
  {
  }

  lemma {:induction false} KnownIsCanonical(f: string, inside: bool)
    requires AllKnown(if inside then AfterOpen(f) else Pieces(f))
    ensures Canonical(Remaining(f, inside))
    ensures inside ==> Remaining(f, true) != [] && Remaining(f, true)[0].Field?
    decreases |f|
  {
    hide MetaOf, Canonical, Remaining, AllKnown, OpensNowhere;
    if inside {
      var j := FindClose(f);
      if j < |f| {
        KnownSplits([Placeholder(f[..j])], Pieces(f[j + 1..]));
        OneKnown(Placeholder(f[..j]));
        KnownIsCanonical(f[j + 1..], false);
        CloseFound(f, j);
        FieldThenCanonical(MetaOf(f[..j]).value, Remaining(f[j + 1..], false));
      } else {
        OneKnown(Unclosed("%{" + f));
      }
    } else {
      var i := FindOpen(f);
      TextBeforeOpen(f, i);
      if i == |f| {
        assert f[..i] == f;
        NoOpen(f);
        NothingCanonical();
        RawThenCanonical(f, []);
        assert (if f == [] then [] else [Raw(f)]) + [] == if f == [] then [] else [Raw(f)];
      } else {
        KnownSplits(LiteralPiece(f[..i]), AfterOpen(f[i + 2..]));
        KnownIsCanonical(f[i + 2..], true);
        OpenFound(f, i);
        RawThenCanonical(f[..i], Remaining(f[i + 2..], true));
      }
    }
  }

  lemma OneKnown(p: Piece)
    requires AllKnown([p])
    ensures IsKnown(p)
  {
    assert [p][0] == p;
  }

  lemma NothingCanonical()
    ensures Canonical([])
  {
  }

  /** The scanner applied to a printed segment list returns the list exactly if the list is canonical. */
  lemma ParseRestoresSegments(segs: seq<Segment>)
    ensures Parse(Repr(segs)) == segs <==> Canonical(segs)
  {
    if Canonical(segs) {
      CanonicalRestored(segs);
    }
    if Parse(Repr(segs)) == segs {
      ReprRestoresFormat(Repr(segs));
      KnownIsCanonical(Repr(segs), false);
    }
  }

  // ---------------------------------------------------------------- placeholders are substituted where they stand

  /** Every "%{" is closed. */
  predicate Closed(f: string, inside: bool := false)
    decreases |f|
  {
    if inside then FindClose(f) < |f| && Closed(f[FindClose(f) + 1..], false)
    else FindOpen(f) == |f| || Closed(f[FindOpen(f) + 2..], true)
  }

  lemma Regroup(a: string, i: nat, mid: string, b: string)
    requires i + |mid| <= |a| && a[i..i + |mid|] == mid
    ensures a + b == a[..i] + mid + (a[i + |mid|..] + b)
  {
    assert a == a[..i] + mid + a[i + |mid|..];
  }

  lemma PiecesUnfold(f: string)
    ensures Pieces(f) == LiteralPiece(f[..FindOpen(f)]) +
                         if FindOpen(f) == |f| then [] else AfterOpen(f[FindOpen(f) + 2..])
  {
  }

  lemma AfterOpenUnfold(f: string)
    requires FindClose(f) < |f|
    ensures AfterOpen(f) == [Placeholder(f[..FindClose(f)])] + Pieces(f[FindClose(f) + 1..])
  {
  }

  lemma Associate<T>(a: seq<T>, b: seq<T>, c: seq<T>)
    ensures a + (b + c) == a + b + c
  {
  }

  lemma {:induction false} PiecesJoin(a: string, b: string)
    requires Closed(a, false) && (b == [] || OpensAt(b, 0))
    ensures Pieces(a + b) == Pieces(a) + Pieces(b)
    decreases |a|, 1
  {
    hide Pieces, AfterOpen, OpensNowhere;
    var i := FindOpen(a);
    TextBeforeOpen(a, i);
    if i == |a| {
      assert a[..i] == a;
      LiteralThen(a, b);
    } else {
      PiecesUnfold(a);
      AfterOpenJoins(a[i + 2..], b);
      Regroup(a, i, "%{", b);
      OpenParsed(a[..i], a[i + 2..] + b);
      Associate(LiteralPiece(a[..i]), AfterOpen(a[i + 2..]), Pieces(b));
    }
  }

  lemma {:induction false} AfterOpenJoins(a: string, b: string)
    requires Closed(a, true) && (b == [] || OpensAt(b, 0))
    ensures AfterOpen(a + b) == AfterOpen(a) + Pieces(b)
    decreases |a|, 0
  {
    hide Pieces, AfterOpen, OpensAt;
    var j := FindClose(a);
    AfterOpenUnfold(a);
    PiecesJoin(a[j + 1..], b);
    Regroup(a, j, "}", b);
    NameBeforeClose(a, j);
    PlaceholderParsed(a[..j], a[j + 1..] + b);
    Associate([Placeholder(a[..j])], Pieces(a[j + 1..]), Pieces(b));
  }

  lemma NameBeforeClose(a: string, j: nat)
    requires j <= |a| && forall k :: 0 <= k < j ==> !ClosesAt(a, k)
    ensures forall k :: 0 <= k < |a[..j]| ==> !ClosesAt(a[..j], k)
  {
    assert forall k :: 0 <= k < j ==> (ClosesAt(a[..j], k) <==> ClosesAt(a, k));
  }

  lemma LiteralThen(a: string, b: string)
    requires OpensNowhere(a) && (b == [] || OpensAt(b, 0))
    ensures Pieces(a + b) == Pieces(a) + Pieces(b)
  {
    hide Pieces, AfterOpen, OpensNowhere;
    AllLiteral(a);
    NoText();
    if b == [] {
      assert a + b == a;
      AllLiteral(b);
    } else {
      StartsOpen(b);
      OpenParsed(a, b[2..]);
      OpenParsed("", b[2..]);
      assert "" + "%{" + b[2..] == "%{" + b[2..];
      Associate(a, "%{", b[2..]);
    }
  }

  lemma NoText()
    ensures OpensNowhere("")
  {
  }

  lemma StartsOpen(b: string)
    requires OpensAt(b, 0)
    ensures |b| >= 2 && b == "%{" + b[2..]
  {
  }

  lemma AllLiteral(a: string)
    requires OpensNowhere(a)
    ensures Pieces(a) == LiteralPiece(a)
  {
    assert FindOpen(a) == |a| && a[..|a|] == a;
  }

  /** A known placeholder is replaced where it stands, whatever surrounds it: the segments, and with them
      the rendering, of a closed prefix, a placeholder and any rest are those of the three parts. */
  lemma PlaceholderIsSubstituted(a: string, m: Meta, b: string, r: Record)
    requires Closed(a)
    ensures Parse(a + ("%{" + NameOf(m) + "}" + b)) == Parse(a) + [Field(m)] + Parse(b)
    ensures Rendered(Parse(a + ("%{" + NameOf(m) + "}" + b)), r) ==
            Rendered(Parse(a), r) + FieldText(r, m) + Rendered(Parse(b), r)
  {
    hide Pieces, AfterOpen, NameOf, MetaOf, Fold, FieldText, SegmentsOf, Closed;
    var tail := "%{" + NameOf(m) + "}" + b;
    NamesAreKnown(m);
    PlaceholderFirst(NameOf(m), b);
    PiecesJoin(a, tail);
    SegmentsSplit(Pieces(a), Pieces(tail));
    SegmentsSplit([Placeholder(NameOf(m))], Pieces(b));
    SegmentsOfOne(Placeholder(NameOf(m)));
    FoldSplits(Parse(a) + [Field(m)], Parse(b), Shows(r));
    FoldSplits(Parse(a), [Field(m)], Shows(r));
    FoldOne(Field(m), Shows(r));
    assert Parse(a) + ([Field(m)] + Parse(b)) == Parse(a) + [Field(m)] + Parse(b);
  }

  lemma OpenFirst(after: string)
    ensures Pieces("%{" + after) == AfterOpen(after) && OpensAt("%{" + after, 0)
  {
    hide Pieces, AfterOpen;
    assert "%{" + after == "" + "%{" + after;
    OpenParsed("", after);
  }

  lemma PlaceholderFirst(name: string, b: string)
    requires '}' !in name
    ensures Pieces("%{" + name + "}" + b) == [Placeholder(name)] + Pieces(b) && OpensAt("%{" + name + "}" + b, 0)
  {
    hide Pieces, AfterOpen;
    var after := name + "}" + b;
    assert "%{" + name + "}" + b == "%{" + after;
    OpenFirst(after);
    PlaceholderParsed(name, b);
  }

  /** An unknown placeholder contributes nothing, wherever it stands. */
  lemma UnknownIsDropped(a: string, name: string, b: string)
    requires Closed(a) && '}' !in name
    requires name !in ["datetime", "level", "topic", "thread", "location", "message"]
    ensures Parse(a + ("%{" + name + "}" + b)) == Parse(a) + Parse(b)
  {
    hide Pieces, AfterOpen, SegmentsOf, Closed, OpensNowhere;
    var tail := "%{" + name + "}" + b;
    PlaceholderFirst(name, b);
    PiecesJoin(a, tail);
    SegmentsSplit(Pieces(a), Pieces(tail));
    SegmentsSplit([Placeholder(name)], Pieces(b));
    SegmentsOfOne(Placeholder(name));
  }

  /** So does a tail behind a "%{" that is never closed. */
  lemma UnclosedIsDropped(a: string, tail: string)
    requires Closed(a) && '}' !in tail
    ensures Parse(a + ("%{" + tail)) == Parse(a)
  {
    hide Pieces, AfterOpen, SegmentsOf, Closed, OpensNowhere;
    OpenFirst(tail);
    PiecesJoin(a, "%{" + tail);
    SegmentsSplit(Pieces(a), AfterOpen(tail));
    NoClose(tail);
  }

  /** And text with no "%{" stands for itself. */
  lemma LiteralIsKept(text: string)
    requires text != "" && forall i :: 0 <= i < |text| - 1 ==> !(text[i] == '%' && text[i + 1] == '{')
    ensures Parse(text) == [Raw(text)]
  {
    NoOpen(text);
  }

  // ---------------------------------------------------------------- formats that always render to something

  lemma TextOfSegment(segs: seq<Segment>, r: Record, i: nat)
    requires i < |segs| && !OnlyNewlines(Shown(segs[i], Shows(r)))
    ensures HasText(segs, r)
  {
    var a, b := segs[..i], segs[i + 1..];
    assert segs == a + [segs[i]] + b;
    FoldSplits(a + [segs[i]], b, Shows(r));
    FoldSplits(a, [segs[i]], Shows(r));
    FoldOne(segs[i], Shows(r));
    hide Fold, Shown, FieldText;
    var text := Shown(segs[i], Shows(r));
    var k :| 0 <= k < |text| && text[k] != '\n';
    var whole := Rendered(segs, r);
    assert whole == Fold(a, Shows(r)) + text + Fold(b, Shows(r));
    assert whole[|Fold(a, Shows(r))| + k] != '\n';
  }

  lemma {:induction false} NewlinesOnly(segs: seq<Segment>, r: Record)
    requires forall i :: 0 <= i < |segs| ==> OnlyNewlines(Shown(segs[i], Shows(r)))
    ensures OnlyNewlines(Rendered(segs, r))
  {
    hide Shown, FieldText;
    if segs != [] {
      var last := |segs| - 1;
      NewlinesOnly(segs[..last], r);
      assert forall i :: 0 <= i < last ==> segs[..last][i] == segs[i];
      assert Rendered(segs, r) == Rendered(segs[..last], r) + Shown(segs[last], Shows(r));
    }
  }

  /** A record can be formatted exactly if some segment shows something besides newlines. */
  lemma HasTextExactly(segs: seq<Segment>, r: Record)
    ensures HasText(segs, r) <==> exists i :: 0 <= i < |segs| && !OnlyNewlines(Shown(segs[i], Shows(r)))
  {
    if i :| 0 <= i < |segs| && !OnlyNewlines(Shown(segs[i], Shows(r))) {
      TextOfSegment(segs, r, i);
    } else {
      NewlinesOnly(segs, r);
    }
  }

  /** Whether a segment shows something in every record: literal text with a character besides newlines,
      and every field but the two the program's user fills in. */
  predicate AlwaysShows(seg: Segment) {
    match seg
    case Raw(t) => !OnlyNewlines(t)
    case Field(m) => m != Topic && m != Message
  }

  lemma NumberShows(n: nat)
    ensures !OnlyNewlines(Text.Print(n, 10))
  {
    Text.PrintValue(n, 10);
    var s := Text.Print(n, 10);
    assert s[0] in s && Text.IsDigit(s[0], 10);
  }

  lemma LevelShows(v: Severity)
    ensures !OnlyNewlines(LevelString(v))
  {
    var s := LevelString(v);
    assert |s| > 0 && s[0] != '\n';
  }

  lemma AlwaysShown(seg: Segment, r: Record)
    requires AlwaysShows(seg)
    ensures !OnlyNewlines(Shown(seg, Shows(r)))
  {
    LevelShows(r.level);
    NumberShows(r.thread);
    var place := r.file + ":" + Text.Print(r.line, 10);
    assert place[|r.file|] == ':';
  }

  /** A record of a program that set no topic and logs the empty message. */
  const SILENT := Record(SomeDate(), DebugLevel, "", 0, "", 0, "")

  /** `format` has a result for every record exactly if the format holds literal text with a character
      besides newlines, or a date, level, thread or location. */
  lemma AlwaysHasTextExactly(segs: seq<Segment>)
    ensures (forall r :: HasText(segs, r)) <==> exists i :: 0 <= i < |segs| && AlwaysShows(segs[i])
  {
    if i :| 0 <= i < |segs| && AlwaysShows(segs[i]) {
      forall r
        ensures HasText(segs, r)
      {
        AlwaysShown(segs[i], r);
        TextOfSegment(segs, r, i);
      }
    } else {
      assert !HasText(segs, SILENT) by {
        NewlinesOnly(segs, SILENT);
      }
    }
  }

  // ---------------------------------------------------------------- the fields by name

  lemma OneField(m: Meta, r: Record)
    ensures Parse(Spelling(m)) == [Field(m)] && Rendered(Parse(Spelling(m)), r) == FieldText(r, m)
  {
    hide Parse, Spelling, FieldText, OpensNowhere;
    CanonicalRestored([Field(m)]);
    FoldOne(Field(m), Spelling);
    FoldOne(Field(m), Shows(r));
  }

  lemma Spellings()
    ensures Spelling(Datetime) == "%{datetime}" && Spelling(Level) == "%{level}" && Spelling(Topic) == "%{topic}"
    ensures Spelling(Thread) == "%{thread}" && Spelling(Location) == "%{location}" && Spelling(Message) == "%{message}"
  {
  }

  /** What each placeholder is replaced by. */
  lemma FieldsAreNamed(r: Record)
    ensures Rendered(Parse("%{datetime}"), r) == r.datetime
    ensures r.level.DebugLevel? ==> Rendered(Parse("%{level}"), r) == "DEBUG"
    ensures r.level.InfoLevel? ==> Rendered(Parse("%{level}"), r) == "INFO"
    ensures r.level.WarningLevel? ==> Rendered(Parse("%{level}"), r) == "WARNING"
    ensures r.level.ErrorLevel? ==> Rendered(Parse("%{level}"), r) == "ERROR"
    ensures r.level.FatalLevel? ==> Rendered(Parse("%{level}"), r) == "FATAL"
    ensures Rendered(Parse("%{topic}"), r) == r.topic
    ensures Rendered(Parse("%{thread}"), r) == Text.Print(r.thread, 10)
    ensures Rendered(Parse("%{location}"), r) == r.file + ":" + Text.Print(r.line, 10)
    ensures Rendered(Parse("%{message}"), r) == r.message
  {
    hide Rendered, Parse, Spelling;
    Spellings();
    OneField(Datetime, r);
    OneField(Level, r);
    OneField(Topic, r);
    OneField(Thread, r);
    OneField(Location, r);
    OneField(Message, r);
  }

  /** `logger::default_format()`. */
  const DEFAULT_FORMAT :=
    "[" + "%{datetime}" + "] [" + "%{level}" + "] [" + "%{thread}" + "] [" + "%{location}" + "] " + "%{message}"

  const DEFAULT_SEGMENTS :=
    [Raw("["), Field(Datetime), Raw("] ["), Field(Level), Raw("] ["), Field(Thread), Raw("] ["), Field(Location),
     Raw("] "), Field(Message)]

  lemma RawBetween()
    ensures OpensNowhere("[") && OpensNowhere("] [") && OpensNowhere("] ") && !OnlyNewlines("[")
  {
    assert "["[0] == '[';
  }

  lemma PrintedFirst(t: string)
    ensures Repr([Raw(t)]) == t
  {
    FoldOne(Raw(t), Spelling);
  }

  lemma PrintedNext(segs: seq<Segment>, m: Meta, t: string)
    ensures Repr(segs + [Field(m)]) == Repr(segs) + Spelling(m)
    ensures Repr(segs + [Field(m), Raw(t)]) == Repr(segs) + Spelling(m) + t
  {
    assert (segs + [Field(m)])[..|segs|] == segs;
    assert (segs + [Field(m), Raw(t)])[..|segs| + 1] == segs + [Field(m)];
  }

  lemma DefaultPrinted()
    ensures Repr(DEFAULT_SEGMENTS) == DEFAULT_FORMAT
  {
    hide Spelling, Repr;
    Spellings();
    PrintedFirst("[");
    var a := [Raw("[")];
    var b := a + [Field(Datetime), Raw("] [")];
    var c := b + [Field(Level), Raw("] [")];
    var d := c + [Field(Thread), Raw("] [")];
    var e := d + [Field(Location), Raw("] ")];
    PrintedNext(a, Datetime, "] [");
    PrintedNext(b, Level, "] [");
    PrintedNext(c, Thread, "] [");
    PrintedNext(d, Location, "] ");
    PrintedNext(e, Message, "");
    assert e + [Field(Message)] == DEFAULT_SEGMENTS;
  }

  /** The segments of the default format. */
  lemma DefaultSegments()
    ensures Parse(DEFAULT_FORMAT) ==
            [Raw("["), Field(Datetime), Raw("] ["), Field(Level), Raw("] ["), Field(Thread), Raw("] ["),
             Field(Location), Raw("] "), Field(Message)]
  {
    hide Parse, Repr, OpensNowhere;
    RawBetween();
    DefaultPrinted();
    CanonicalRestored(DEFAULT_SEGMENTS);
  }

  /** With it every record has a rendering, with the empty format none has. */
  lemma DefaultFormatHasText(r: Record)
    ensures HasText(Parse(DEFAULT_FORMAT), r) && !HasText(Parse(""), r)
  {
    hide HasText, Parse, OnlyNewlines, Rendered;
    RawBetween();
    DefaultSegments();
    TextOfSegment(Parse(DEFAULT_FORMAT), r, 0);
    EmptyFormat(r);
  }

  lemma EmptyFormat(r: Record)
    ensures !HasText(Parse(""), r)
  {
    assert FindOpen("") == 0;
  }

  /** What the worker appends to a logger's buffer for one record. */
  function Line(segs: seq<Segment>, r: Record): string {
    Stripped(Rendered(segs, r)) + "\n"
  }
}
