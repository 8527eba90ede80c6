/** The recorder of an assistant message's display shape, against the stream of what was emitted:
    characters, markers for reasoning blocks and tool cards, and the places where the recorder
    was asked for its payload. */
module Segments {
  import opened Wrappers

  datatype Segment = Text(text: string) | Thinking(index: int) | Tool(card: nat)

  datatype Token = Ch(c: char) | Mark(segment: Segment) | Cut

  type Stream = seq<Token>

  // ---------------------------------------------------------------- the normal form

  function Chars(text: string): Stream {
    seq(|text|, i requires 0 <= i < |text| => Ch(text[i]))
  }

  /** The length of the run of characters a stream begins with. */
  function RunLength(st: Stream): (n: nat)
    ensures n <= |st|
    ensures forall i | 0 <= i < n :: st[i].Ch?
    ensures n < |st| ==> !st[n].Ch?
  {
    if st == [] || !st[0].Ch? then 0 else 1 + RunLength(st[1..])
  }

  function Spelled(st: Stream): string
    requires forall i | 0 <= i < |st| :: st[i].Ch?
  {
    seq(|st|, i requires 0 <= i < |st| => st[i].c)
  }

  /** Every longest run of characters becomes one text, every marker the segment it marks. */
  function Normal(st: Stream): seq<Segment>
    decreases |st|
  {
    if st == [] then []
    else match st[0]
      case Cut => Normal(st[1..])
      case Mark(segment) => [segment] + Normal(st[1..])
      case Ch(_) => var n := RunLength(st); [Text(Spelled(st[..n]))] + Normal(st[n..])
  }

  lemma {:induction false} RunLengthOfSum(a: Stream, b: Stream)
    requires a != [] && (b == [] || a[|a| - 1].Ch? ==> b == [] || !b[0].Ch?)
    ensures RunLength(a + b) == RunLength(a)
    decreases |a|
  {
    if a[0].Ch? {
      assert (a + b)[1..] == a[1..] + b;
      if |a| == 1 {
        assert a[1..] + b == b;
      } else {
        RunLengthOfSum(a[1..], b);
      }
    }
  }

  /** Where no run of characters is torn, the normal form of a whole is that of its parts. */
  lemma {:induction false} NormalOfSum(a: Stream, b: Stream)
    requires a == [] || b == [] || !a[|a| - 1].Ch? || !b[0].Ch?
    ensures Normal(a + b) == Normal(a) + Normal(b)
    decreases |a|
  {
    if a == [] {
      assert a + b == b;
    } else if b == [] {
      assert a + b == a;
    } else {
      var n := if a[0].Ch? then RunLength(a) else 1;
      RunLengthOfSum(a, b);
      assert (a + b)[n..] == a[n..] + b;
      assert (a + b)[..n] == a[..n];
      NormalOfSum(a[n..], b);
    }
  }

  lemma NormalOfText(text: string)
    ensures Normal(Chars(text)) == if text == "" then [] else [Text(text)]
  {
    var st := Chars(text);
    if text != "" {
      assert RunLength(st) == |st|;
      assert st[..|st|] == st;
      assert Spelled(st) == text;
      assert Normal(st[|st|..]) == [];
    }
  }

  // ---------------------------------------------------------------- what the normal form keeps

  /** The body text of a message. */
  function TextOf(segments: seq<Segment>): string {
    if segments == [] then "" else (if segments[0].Text? then segments[0].text else "") + TextOf(segments[1..])
  }

  function Emitted(st: Stream): string {
    if st == [] then "" else (if st[0].Ch? then [st[0].c] else "") + Emitted(st[1..])
  }

  predicate Markers(st: Stream) {
    forall i | 0 <= i < |st| && st[i].Mark? :: !st[i].segment.Text?
  }

  function MarkersOf(st: Stream): seq<Segment> {
    if st == [] then [] else (if st[0].Mark? then [st[0].segment] else []) + MarkersOf(st[1..])
  }

  function Placed(segments: seq<Segment>): seq<Segment> {
    if segments == [] then [] else (if segments[0].Text? then [] else [segments[0]]) + Placed(segments[1..])
  }

  /** The first `n` tokens are characters. */
  lemma {:induction false} EmittedRun(st: Stream, n: nat)
    requires n <= |st| && forall i | 0 <= i < n :: st[i].Ch?
    ensures Emitted(st) == Spelled(st[..n]) + Emitted(st[n..])
    ensures MarkersOf(st) == MarkersOf(st[n..])
    decreases n
  {
    if n == 0 {
      assert st[0..] == st;
    } else {
      EmittedRun(st[1..], n - 1);
      assert st[1..][..n - 1] == st[1..n] && st[1..][n - 1..] == st[n..];
      assert Spelled(st[..n]) == [st[0].c] + Spelled(st[1..n]);
    }
  }

  /** Nothing emitted is lost, doubled or moved: the texts together are the emitted characters, and
      the markers come in the order they were placed in. */
  lemma {:induction false} NormalKeepsEverything(st: Stream)
    requires Markers(st)
    ensures TextOf(Normal(st)) == Emitted(st)
    ensures Placed(Normal(st)) == MarkersOf(st)
    decreases |st|
  {
    if st != [] {
      var n := if st[0].Ch? then RunLength(st) else 1;
      assert Markers(st[n..]);
      NormalKeepsEverything(st[n..]);
      if st[0].Ch? {
        EmittedRun(st, n);
        assert Normal(st)[1..] == Normal(st[n..]);
      } else if st[0].Mark? {
        assert Normal(st)[1..] == Normal(st[1..]);
      }
    }
  }

  lemma {:induction false} NormalHasNoEmptyText(st: Stream)
    requires Markers(st)
    ensures forall i | 0 <= i < |Normal(st)| && Normal(st)[i].Text? :: Normal(st)[i].text != ""
    decreases |st|
  {
    if st != [] {
      var n := if st[0].Ch? then RunLength(st) else 1;
      assert Markers(st[n..]);
      NormalHasNoEmptyText(st[n..]);
    }
  }

  // ---------------------------------------------------------------- when texts stand side by side

  /** Two characters with one or more cuts, and nothing else, between them. */
  predicate Torn(st: Stream, i: nat, j: nat) {
    i + 1 < j < |st| && st[i].Ch? && st[j].Ch? && forall k | i < k < j :: st[k] == Cut
  }

  ghost predicate HasTear(st: Stream) {
    exists i: nat, j: nat :: Torn(st, i, j)
  }

  predicate SideBySide(segments: seq<Segment>, a: nat) {
    a + 1 < |segments| && segments[a].Text? && segments[a + 1].Text?
  }

  ghost predicate HasAdjacentTexts(segments: seq<Segment>) {
    exists a: nat :: SideBySide(segments, a)
  }

  /** After any cuts comes a character. */
  ghost predicate OpensWithText(st: Stream) {
    exists j: nat :: j < |st| && st[j].Ch? && forall k | 0 <= k < j :: st[k] == Cut
  }

  lemma {:induction false} NormalOpens(st: Stream)
    requires Markers(st)
    ensures Normal(st) != [] && Normal(st)[0].Text? <==> OpensWithText(st)
    decreases |st|
  {
    if st != [] && st[0] == Cut {
      var rest := st[1..];
      assert forall k | 0 < k < |st| :: st[k] == rest[k - 1];
      NormalOpens(rest);
      if OpensWithText(rest) {
        var j: nat :| j < |rest| && rest[j].Ch? && forall k | 0 <= k < j :: rest[k] == Cut;
        assert st[j + 1].Ch?;
      }
      if OpensWithText(st) {
        var j: nat :| j < |st| && st[j].Ch? && forall k | 0 <= k < j :: st[k] == Cut;
        assert rest[j - 1].Ch?;
      }
    } else if st != [] && st[0].Ch? {
      assert OpensWithText(st);
    }
  }

  lemma AdjacentInSum(first: Segment, rest: seq<Segment>)
    ensures HasAdjacentTexts([first] + rest)
       <==> HasAdjacentTexts(rest) || (first.Text? && rest != [] && rest[0].Text?)
  {
    var all := [first] + rest;
    if HasAdjacentTexts(rest) {
      var a: nat :| SideBySide(rest, a);
      assert SideBySide(all, a + 1);
    }
    if first.Text? && rest != [] && rest[0].Text? { assert SideBySide(all, 0); }
    if HasAdjacentTexts(all) {
      var a: nat :| SideBySide(all, a);
      if a > 0 { assert SideBySide(rest, a - 1); }
    }
  }

  /** A tear is in the rest of the stream, or between the run at its start and the rest. */
  lemma TearInRest(st: Stream, n: nat)
    requires 0 < n <= |st| && forall i | 0 < i < n :: st[i] != Cut
    requires n < |st| ==> !(st[n - 1].Ch? && st[n].Ch?)
    ensures HasTear(st) <==> HasTear(st[n..]) || (st[n - 1].Ch? && OpensWithText(st[n..]))
  {
    var rest := st[n..];
    assert forall k | n <= k < |st| :: st[k] == rest[k - n];
    if HasTear(rest) {
      var i: nat, j: nat :| Torn(rest, i, j);
      assert Torn(st, i + n, j + n);
    }
    if st[n - 1].Ch? && OpensWithText(rest) {
      var j: nat :| j < |rest| && rest[j].Ch? && forall k | 0 <= k < j :: rest[k] == Cut;
      assert Torn(st, n - 1, j + n);
    }
    if HasTear(st) {
      var i: nat, j: nat :| Torn(st, i, j);
      if i >= n {
        assert Torn(rest, i - n, j - n);
      } else {
        assert st[i + 1] == Cut;
        assert i == n - 1 && rest[j - n].Ch?;
      }
    }
  }

  /** The normal form has two adjacent texts exactly where the recorder was asked for its payload
      between two characters with nothing else between them. */
  lemma {:induction false} AdjacentIffTorn(st: Stream)
    requires Markers(st)
    ensures HasAdjacentTexts(Normal(st)) <==> HasTear(st)
    decreases |st|
  {
    if st != [] {
      var n := if st[0].Ch? then RunLength(st) else 1;
      var rest := st[n..];
      assert Markers(rest);
      AdjacentIffTorn(rest);
      TearInRest(st, n);
      NormalOpens(rest);
      if st[0].Ch? {
        AdjacentInSum(Text(Spelled(st[..n])), Normal(rest));
      } else if st[0].Mark? {
        AdjacentInSum(st[0].segment, Normal(rest));
      }
    }
  }

  // ---------------------------------------------------------------- the recorder

  datatype Op = AddText(delta: string) | AddThinking(index: int) | AddTools(count: nat) | Reset | Payload

  function ToolMarks(from: nat, end: nat): Stream
    requires from <= end
  {
    seq(end - from, i requires 0 <= i < end - from => Mark(Tool(from + i)))
  }

  /** What was emitted since the last reset, and how many cards have their place. */
  datatype History = History(stream: Stream, placed: nat)

  const FRESH := History([], 0)

  function Next(h: History, op: Op): History {
    match op
    case AddText(delta) => h.(stream := h.stream + Chars(delta))
    case AddThinking(index) => h.(stream := h.stream + [Mark(Thinking(index))])
    case AddTools(count) =>
      if count > h.placed then History(h.stream + ToolMarks(h.placed, count), count) else h
    case Payload => h.(stream := h.stream + [Cut])
    case Reset => FRESH
  }

  /** The history after the first `n` calls on a fresh recorder. */
  function Played(ops: seq<Op>, n: nat): History
    requires n <= |ops|
  {
    if n == 0 then FRESH else Next(Played(ops, n - 1), ops[n - 1])
  }

  /** What is shown of a history; None stands for an empty list. */
  function Shown(h: History): Option<seq<Segment>> {
    var n := Normal(h.stream);
    if n == [] then None else Some(n)
  }

  lemma PlaceOne(st: Stream, from: nat, index: nat)
    requires from <= index
    ensures Normal(st + ToolMarks(from, index + 1)) == Normal(st + ToolMarks(from, index)) + [Tool(index)]
  {
    assert st + ToolMarks(from, index + 1) == st + ToolMarks(from, index) + [Mark(Tool(index))];
    NormalOfSum(st + ToolMarks(from, index), [Mark(Tool(index))]);
  }

  class SegmentRecorder {
    var segments: seq<Segment>
    var pending: string
    var placed: nat
    ghost var history: History
    ghost var closed: Stream      // the stream without the text run that is still open

    ghost predicate Valid()
      reads this
    {
      && placed == history.placed
      && history.stream == closed + Chars(pending)
      && (closed == [] || !closed[|closed| - 1].Ch?)
      && segments == Normal(closed)
    }

    constructor ()
      ensures Valid() && history == FRESH
    {
      segments, pending, placed := [], "", 0;
      history, closed := FRESH, [];
    }

    method Reset()
      modifies this
      ensures Valid() && history == Next(old(history), Op.Reset)
    {
      segments, pending, placed := [], "", 0;
      history, closed := FRESH, [];
    }

    method AddText(delta: string)
      requires Valid()
      modifies this
      ensures Valid() && history == Next(old(history), Op.AddText(delta))
    {
      ghost var grown := Chars(pending + delta);
      assert Chars(pending) + Chars(delta) == grown;
      assert closed + Chars(pending) + Chars(delta) == closed + grown;
      if delta != "" { pending := pending + delta; }
      history := Next(history, Op.AddText(delta));
    }

    /** Closes the open text run. */
    method FlushText()
      requires Valid()
      modifies `segments, `pending
      ensures pending == "" && segments == Normal(history.stream)
    {
      NormalOfSum(closed, Chars(pending));
      NormalOfText(pending);
      if pending != "" {
        segments := segments + [Text(pending)];
        pending := "";
      }
    }

    /** The history goes on with something that is no character; nothing is open then. */
    ghost method Close(h: History)
      requires pending == "" && placed == h.placed && segments == Normal(h.stream)
      requires h.stream != [] && !h.stream[|h.stream| - 1].Ch?
      modifies `closed, `history
      ensures Valid() && history == h
    {
      history, closed := h, h.stream;
      assert closed + Chars("") == closed;
    }

    method AddThinking(index: int)
      requires Valid()
      modifies this
      ensures Valid() && history == Next(old(history), Op.AddThinking(index))
    {
      FlushText();
      NormalOfSum(history.stream, [Mark(Thinking(index))]);
      segments := segments + [Thinking(index)];
      Close(Next(history, Op.AddThinking(index)));
    }

    method AddTools(count: nat)
      requires Valid()
      modifies this
      ensures Valid() && history == Next(old(history), Op.AddTools(count))
    {
      if count <= placed { return; }
      FlushText();
      PlaceCards(count, history.stream);
      MarksAreLast(history.stream, history.placed, count);
      Close(Next(history, Op.AddTools(count)));
    }

    lemma MarksAreLast(st: Stream, from: nat, end: nat)
      requires from < end
      ensures var all := st + ToolMarks(from, end); all != [] && all[|all| - 1] == Mark(Tool(end - 1))
    {
    }

    method PlaceCards(count: nat, ghost before: Stream)
      requires placed < count && segments == Normal(before)
      modifies `segments, `placed
      ensures segments == Normal(before + ToolMarks(old(placed), count)) && placed == count
    {
      assert before + ToolMarks(placed, placed) == before;
      for index := placed to count
        invariant placed == old(placed) && segments == Normal(before + ToolMarks(placed, index))
      {
        PlaceOne(before, placed, index);
        segments := segments + [Tool(index)];
      }
      placed := count;
    }

    /** The final list. */
    method Payload() returns (r: Option<seq<Segment>>)
      requires Valid()
      modifies this
      ensures Valid() && history == Next(old(history), Op.Payload)
      ensures r == Shown(old(history))
    {
      FlushText();
      NormalOfSum(history.stream, [Cut]);
      assert Normal([Cut]) == Normal([Cut][1..]) == [];
      Close(Next(history, Op.Payload));
      r := Snapshot();
    }

    method Snapshot() returns (r: Option<seq<Segment>>)
      requires Valid()
      ensures r == Shown(history)
    {
      NormalOfSum(closed, Chars(pending));
      NormalOfText(pending);
      var list := segments;
      if pending != "" { list := list + [Text(pending)]; }
      assert list == Normal(history.stream);
      r := if list == [] then None else Some(list);
    }

    method Perform(op: Op)
      requires Valid()
      modifies this
      ensures Valid() && history == Next(old(history), op)
    {
      match op
      case AddText(delta) => AddText(delta);
      case AddThinking(index) => AddThinking(index);
      case AddTools(count) => AddTools(count);
      case Reset => Reset();
      case Payload => var _ := Payload();
    }
  }

  /** Any run of calls on a fresh recorder ends with the normal form of its history on show. */
  method Record(ops: seq<Op>) returns (r: Option<seq<Segment>>)
    ensures r == Shown(Played(ops, |ops|))
  {
    var recorder := new SegmentRecorder();
    for i := 0 to |ops|
      invariant recorder.Valid() && recorder.history == Played(ops, i) && fresh(recorder)
    {
      recorder.Perform(ops[i]);
    }
    r := recorder.Snapshot();
  }

  // ---------------------------------------------------------------- what is on show

  /** The deltas since the last reset, joined. */
  function Deltas(ops: seq<Op>, n: nat): string
    requires n <= |ops|
  {
    if n == 0 || ops[n - 1].Reset? then ""
    else Deltas(ops, n - 1) + if ops[n - 1].AddText? then ops[n - 1].delta else ""
  }

  function CardsOf(segments: seq<Segment>): seq<nat> {
    if segments == [] then [] else (if segments[0].Tool? then [segments[0].card] else []) + CardsOf(segments[1..])
  }

  function UpTo(n: nat): seq<nat> { seq(n, i => i) }

  lemma {:induction false} SumOfEmitted(a: Stream, b: Stream)
    ensures Emitted(a + b) == Emitted(a) + Emitted(b)
    decreases |a|
  {
    if a == [] {
      assert a + b == b;
    } else {
      var first := if a[0].Ch? then [a[0].c] else "";
      assert (a + b)[0] == a[0] && (a + b)[1..] == a[1..] + b;
      SumOfEmitted(a[1..], b);
      assert Emitted(a + b) == first + (Emitted(a[1..]) + Emitted(b));
    }
  }

  lemma {:induction false} SumOfMarkers(a: Stream, b: Stream)
    ensures MarkersOf(a + b) == MarkersOf(a) + MarkersOf(b)
    decreases |a|
  {
    if a == [] {
      assert a + b == b;
    } else {
      var first := if a[0].Mark? then [a[0].segment] else [];
      assert (a + b)[0] == a[0] && (a + b)[1..] == a[1..] + b;
      SumOfMarkers(a[1..], b);
      assert MarkersOf(a + b) == first + (MarkersOf(a[1..]) + MarkersOf(b));
    }
  }

  lemma {:induction false} SumOfCards(a: seq<Segment>, b: seq<Segment>)
    ensures CardsOf(a + b) == CardsOf(a) + CardsOf(b)
    decreases |a|
  {
    if a == [] {
      assert a + b == b;
    } else {
      var first := if a[0].Tool? then [a[0].card] else [];
      assert (a + b)[0] == a[0] && (a + b)[1..] == a[1..] + b;
      SumOfCards(a[1..], b);
      assert CardsOf(a + b) == first + (CardsOf(a[1..]) + CardsOf(b));
    }
  }

  lemma {:induction false} CardsArePlaced(segments: seq<Segment>)
    ensures CardsOf(Placed(segments)) == CardsOf(segments)
  {
    if segments != [] {
      CardsArePlaced(segments[1..]);
      var first := if segments[0].Text? then [] else [segments[0]];
      SumOfCards(first, Placed(segments[1..]));
    }
  }

  lemma CharsAreEmitted(text: string)
    ensures Emitted(Chars(text)) == text && MarkersOf(Chars(text)) == []
  {
    var st := Chars(text);
    EmittedRun(st, |st|);
    assert st[..|st|] == st && Spelled(st) == text && Emitted(st[|st|..]) == "";
  }

  /** What a stream amounts to: its characters, and its cards in order. */
  ghost predicate AmountsTo(h: History, text: string) {
    && Emitted(h.stream) == text && CardsOf(MarkersOf(h.stream)) == UpTo(h.placed)
  }

  lemma MarkFollows(st: Stream, segment: Segment)
    requires !segment.Text?
    ensures Emitted(st + [Mark(segment)]) == Emitted(st)
    ensures CardsOf(MarkersOf(st + [Mark(segment)]))
         == CardsOf(MarkersOf(st)) + if segment.Tool? then [segment.card] else []
  {
    var last := [Mark(segment)];
    assert last[1..] == [] && Emitted(last) == "" && MarkersOf(last) == [segment];
    SumOfEmitted(st, last);
    SumOfMarkers(st, last);
    assert [segment][1..] == [];
    SumOfCards(MarkersOf(st), [segment]);
  }

  lemma NextMark(st: Stream, from: nat, end: nat)
    requires from <= end
    ensures st + ToolMarks(from, end + 1) == st + ToolMarks(from, end) + [Mark(Tool(end))]
    ensures st + ToolMarks(from, from) == st
    ensures UpTo(end) + [end] == UpTo(end + 1)
  {
  }

  lemma ToolMarksFollow(st: Stream, from: nat, end: nat)
    requires from <= end && CardsOf(MarkersOf(st)) == UpTo(from)
    ensures Emitted(st + ToolMarks(from, end)) == Emitted(st)
    ensures CardsOf(MarkersOf(st + ToolMarks(from, end))) == UpTo(end)
  {
    NextMark(st, from, from);
    for k := from to end
      invariant Emitted(st + ToolMarks(from, k)) == Emitted(st)
      invariant CardsOf(MarkersOf(st + ToolMarks(from, k))) == UpTo(k)
    {
      NextMark(st, from, k);
      MarkFollows(st + ToolMarks(from, k), Tool(k));
    }
  }

  lemma TextFollows(st: Stream, text: string)
    ensures Emitted(st + Chars(text)) == Emitted(st) + text && MarkersOf(st + Chars(text)) == MarkersOf(st)
  {
    CharsAreEmitted(text);
    SumOfEmitted(st, Chars(text));
    SumOfMarkers(st, Chars(text));
    assert MarkersOf(st) + [] == MarkersOf(st);
  }

  lemma CutFollows(st: Stream)
    ensures Emitted(st + [Cut]) == Emitted(st) && MarkersOf(st + [Cut]) == MarkersOf(st)
  {
    assert [Cut][1..] == [];
    SumOfEmitted(st, [Cut]);
    SumOfMarkers(st, [Cut]);
    assert MarkersOf(st) + [] == MarkersOf(st) && Emitted(st) + "" == Emitted(st);
  }

  lemma CallFollows(h: History, op: Op, text: string)
    requires AmountsTo(h, text)
    ensures AmountsTo(Next(h, op), if op.Reset? then "" else text + if op.AddText? then op.delta else "")
  {
    assert text + "" == text;
    match op
    case AddText(delta) => TextFollows(h.stream, delta);
    case AddThinking(index) => MarkFollows(h.stream, Thinking(index));
    case AddTools(count) => if count > h.placed { ToolMarksFollow(h.stream, h.placed, count); }
    case Payload => CutFollows(h.stream);
    case Reset =>
  }

  lemma CallKeepsMarkers(h: History, op: Op)
    requires Markers(h.stream)
    ensures Markers(Next(h, op).stream)
  {
    if op.AddTools? && op.count > h.placed {
      var st := ToolMarks(h.placed, op.count);
      assert forall i | 0 <= i < |st| :: !st[i].segment.Text?;
    }
  }

  lemma {:induction false} StreamOfHistory(ops: seq<Op>, n: nat)
    requires n <= |ops|
    ensures Markers(Played(ops, n).stream) && AmountsTo(Played(ops, n), Deltas(ops, n))
    decreases n
  {
    if n > 0 {
      StreamOfHistory(ops, n - 1);
      CallKeepsMarkers(Played(ops, n - 1), ops[n - 1]);
      CallFollows(Played(ops, n - 1), ops[n - 1], Deltas(ops, n - 1));
    }
  }

  lemma {:induction false} NoPayloadNoCut(ops: seq<Op>, n: nat)
    requires n <= |ops| && forall i | 0 <= i < n :: ops[i] != Op.Payload
    ensures Cut !in Played(ops, n).stream
    decreases n
  {
    if n > 0 { NoPayloadNoCut(ops, n - 1); }
  }

  /** What is on show after any run: the texts together are all deltas since the last reset, the
      cards are 0, 1, .. once each and in order, no text is empty, and two texts are side by side
      exactly if the payload was asked for in the middle of a text. */
  lemma ShownFaithfully(ops: seq<Op>, n: nat)
    requires n <= |ops|
    ensures var h := Played(ops, n); var segments := Normal(h.stream);
            && TextOf(segments) == Deltas(ops, n)
            && CardsOf(segments) == UpTo(h.placed)
            && (forall i | 0 <= i < |segments| && segments[i].Text? :: segments[i].text != "")
            && (HasAdjacentTexts(segments) <==> HasTear(h.stream))
  {
    var h := Played(ops, n);
    StreamOfHistory(ops, n);
    NormalKeepsEverything(h.stream);
    NormalHasNoEmptyText(h.stream);
    AdjacentIffTorn(h.stream);
    CardsArePlaced(Normal(h.stream));
  }

  lemma NoCutNoTear(st: Stream)
    ensures Cut !in st ==> !HasTear(st)
  {
    if HasTear(st) {
      var i: nat, j: nat :| Torn(st, i, j);
      assert st[i + 1] == Cut;
    }
  }

  /** In particular never where the payload was not asked for at all. */
  lemma NoPayloadNoSplit(ops: seq<Op>, n: nat)
    requires n <= |ops| && forall i | 0 <= i < n :: ops[i] != Op.Payload
    ensures !HasAdjacentTexts(Normal(Played(ops, n).stream))
  {
    NoPayloadNoCut(ops, n);
    ShownFaithfully(ops, n);
    NoCutNoTear(Played(ops, n).stream);
  }

  /** Whatever came before: a text run that goes on after a payload request is split there. */
  lemma PayloadSplitsText(h: History, before: string, after: string)
    requires before != "" && after != ""
    ensures HasTear(Next(Next(Next(h, AddText(before)), Op.Payload), AddText(after)).stream)
  {
    var st := h.stream + Chars(before) + [Cut] + Chars(after);
    var i := |h.stream| + |before| - 1;
    assert st[i] == Chars(before)[|before| - 1] && st[i + 1] == Cut && st[i + 2] == Chars(after)[0];
    assert Torn(st, i, i + 2);
  }

  // ---------------------------------------------------------------- everything in its place

  /** What is on show, taken apart again. */
  function Flat(segments: seq<Segment>): Stream {
    if segments == [] then []
    else (if segments[0].Text? then Chars(segments[0].text) else [Mark(segments[0])]) + Flat(segments[1..])
  }

  /** A stream without the places where the payload was asked for. */
  function Uncut(st: Stream): Stream {
    if st == [] then [] else (if st[0].Cut? then [] else [st[0]]) + Uncut(st[1..])
  }

  /** How many cards the first `n` calls have announced since the last reset. */
  function Cards(ops: seq<Op>, n: nat): nat
    requires n <= |ops|
  {
    if n == 0 || ops[n - 1].Reset? then 0
    else
      var before := Cards(ops, n - 1);
      if ops[n - 1].AddTools? && ops[n - 1].count > before then ops[n - 1].count else before
  }

  /** What the first `n` calls have said since the last reset: characters, reasoning blocks and new
      cards, one after the other. */
  function Said(ops: seq<Op>, n: nat): Stream
    requires n <= |ops|
  {
    if n == 0 then []
    else
      var before := Said(ops, n - 1);
      match ops[n - 1]
      case AddText(delta) => before + Chars(delta)
      case AddThinking(index) => before + [Mark(Thinking(index))]
      case AddTools(_) => before + ToolMarks(Cards(ops, n - 1), Cards(ops, n))
      case Payload => before
      case Reset => []
  }

  lemma {:induction false} UncutOfSum(a: Stream, b: Stream)
    ensures Uncut(a + b) == Uncut(a) + Uncut(b)
    decreases |a|
  {
    if a == [] {
      assert a + b == b;
    } else {
      assert (a + b)[0] == a[0] && (a + b)[1..] == a[1..] + b;
      UncutOfSum(a[1..], b);
    }
  }

  lemma {:induction false} UncutKeeps(st: Stream)
    requires Cut !in st
    ensures Uncut(st) == st
    decreases |st|
  {
    if st != [] {
      UncutKeeps(st[1..]);
      assert st == [st[0]] + st[1..];
    }
  }

  lemma CharsOfSpelled(st: Stream)
    requires forall i | 0 <= i < |st| :: st[i].Ch?
    ensures Chars(Spelled(st)) == st
  {
  }

  lemma {:induction false} FlatOfNormal(st: Stream)
    requires Markers(st)
    ensures Flat(Normal(st)) == Uncut(st)
    decreases |st|
  {
    if st != [] {
      var n := if st[0].Ch? then RunLength(st) else 1;
      assert Markers(st[n..]);
      FlatOfNormal(st[n..]);
      assert st == st[..n] + st[n..];
      UncutOfSum(st[..n], st[n..]);
      if st[0].Ch? {
        CharsOfSpelled(st[..n]);
        UncutKeeps(st[..n]);
        assert Normal(st)[1..] == Normal(st[n..]);
      } else if st[0].Mark? {
        assert Normal(st)[1..] == Normal(st[1..]);
        assert st[..1] == [st[0]];
        UncutKeeps(st[..1]);
      } else {
        assert st[..1] == [Cut];
        assert [Cut][1..] == [];
      }
    }
  }

  lemma {:induction false} StreamIsWhatWasSaid(ops: seq<Op>, n: nat)
    requires n <= |ops|
    ensures Uncut(Played(ops, n).stream) == Said(ops, n) && Played(ops, n).placed == Cards(ops, n)
    decreases n
  {
    if n > 0 {
      StreamIsWhatWasSaid(ops, n - 1);
      CallSays(Played(ops, n - 1), ops[n - 1], Said(ops, n - 1), Cards(ops, n - 1), Cards(ops, n));
    }
  }

  lemma CallSays(h: History, op: Op, said: Stream, cards: nat, more: nat)
    requires Uncut(h.stream) == said && h.placed == cards
    requires more == if op.Reset? then 0 else if op.AddTools? && op.count > cards then op.count else cards
    ensures var t := Next(h, op);
            && t.placed == more
            && Uncut(t.stream) == match op
                                  case AddText(delta) => said + Chars(delta)
                                  case AddThinking(index) => said + [Mark(Thinking(index))]
                                  case AddTools(_) => said + ToolMarks(cards, more)
                                  case Payload => said
                                  case Reset => []
  {
    match op
    case AddText(delta) => UncutOfSum(h.stream, Chars(delta)); UncutKeeps(Chars(delta));
    case AddThinking(index) =>
      var last: Stream := [Mark(Thinking(index))];
      UncutOfSum(h.stream, last);
      UncutKeeps(last);
    case AddTools(count) =>
      UncutOfSum(h.stream, ToolMarks(cards, more));
      UncutKeeps(ToolMarks(cards, more));
      assert said + [] == said;
    case Payload =>
      var last: Stream := [Cut];
      UncutOfSum(h.stream, last);
      assert last[1..] == [] && Uncut(last) == [];
    case Reset =>
  }

  /** After any run, what is on show is what was said, character by character and marker by marker, each
      in its place; payload requests move nothing. */
  lemma ShownInPlace(ops: seq<Op>, n: nat)
    requires n <= |ops|
    ensures match Shown(Played(ops, n))
            case None => Said(ops, n) == []
            case Some(segments) => segments != [] && Flat(segments) == Said(ops, n)
  {
    StreamOfHistory(ops, n);
    FlatOfNormal(Played(ops, n).stream);
    StreamIsWhatWasSaid(ops, n);
  }
}
