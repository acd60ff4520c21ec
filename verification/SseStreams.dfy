/**
 What the frame guard means for a whole stream: it reads every document of lines and
 events in the sense of section 9.2.5 of the WHATWG HTML Living Standard, in any chunks.
 */
module SseStreams {
  import opened Common
  import opened SseFrameGuard

  // ----- Chunk independence -----

  lemma FirstBreakAppend(a: Bytes, b: Bytes)
    ensures FirstBreak(a) < |a| ==> FirstBreak(a + b) == FirstBreak(a)
    ensures FirstBreak(a) == |a| ==> FirstBreak(a + b) >= |a|
  {
    if a != [] && a[0] != LF && a[0] != CR {
      assert (a + b)[1..] == a[1..] + b;
      FirstBreakAppend(a[1..], b);
    }
  }

  /** A drained buffer holds no complete line. */
  lemma {:induction false} DrainSettles(p: Policy, st: State)
    ensures Drain(p, st).Released? ==> Settled(p, Drain(p, st).state)
    decreases |st.buffer|
  {
    if BreakWidth(st.buffer) > 0 {
      var (line, cut) := CutLine(st);
      DrainSettles(p, cut.(lines := cut.lines + [line]));
      DrainSettles(p, State(cut.buffer, [], 0));
    }
  }

  predicate Settled(p: Policy, st: State) {
    BreakWidth(st.buffer) == 0 && st.size + |st.buffer| <= p.maxBytes
  }

  lemma CutLineAppend(st: State, b: Bytes)
    requires BreakWidth(st.buffer) > 0
    ensures BreakWidth(Append(st, b).buffer) == BreakWidth(st.buffer)
    ensures CutLine(Append(st, b)) == (CutLine(st).0, Append(CutLine(st).1, b))
  {
    FirstBreakAppend(st.buffer, b);
    var i, w := FirstBreak(st.buffer), BreakWidth(st.buffer);
    assert (st.buffer + b)[..i] == st.buffer[..i];
    assert (st.buffer + b)[i + w..] == st.buffer[i + w..] + b;
  }

  /** Draining in the middle of a stream loses nothing. */
  lemma {:induction false} DrainAppend(p: Policy, st: State, b: Bytes)
    ensures match Drain(p, st)
            case Raised(e, _) => Drain(p, Append(st, b)).Raised? && Drain(p, Append(st, b)).error == e
            case Released(fs, next) => Drain(p, Append(st, b)) == Prepend(fs, Drain(p, Append(next, b)))
    decreases |st.buffer|
  {
    if BreakWidth(st.buffer) == 0 {
      if st.size + |st.buffer| <= p.maxBytes {
        PrependPrepend([], [], Drain(p, Append(st, b)));
      }
    } else {
      CutLineAppend(st, b);
      var (line, cut) := CutLine(st);
      if cut.size <= p.maxBytes {
        if line != [] {
          DrainAppend(p, cut.(lines := cut.lines + [line]), b);
        } else {
          var closed := State(cut.buffer, [], 0);
          DrainAppend(p, closed, b);
          if EventError(p, cut.lines).None? && Drain(p, closed).Released? {
            PrependPrepend([Frame(cut.lines)], Drain(p, closed).frames,
                           Drain(p, Append(Drain(p, closed).state, b)));
          }
        }
      }
    }
  }

  /** However a stream is cut into chunks, the successive calls give the frames of one
      call on the whole stream, or end in the same first error. */
  lemma {:induction false} ChunkIndependence(p: Policy, st: State, chunks: seq<Bytes>)
    requires Settled(p, st)
    ensures Same(FeedAll(p, st, chunks), Feed(p, st, Concat(chunks)))
    decreases |chunks|
  {
    hide FirstBreak, CutLine;
    if chunks == [] {
      assert Append(st, []) == st;
    } else {
      hide Drain, BreakWidth;
      var first, rest := chunks[0], chunks[1..];
      DrainAppend(p, Append(st, first), Concat(rest));
      assert Append(Append(st, first), Concat(rest)) == Append(st, Concat(chunks));
      DrainSettles(p, Append(st, first));
      var o := Feed(p, st, first);
      if o.Released? {
        ChunkIndependence(p, o.state, rest);
      }
    }
  }

  // ----- Documents -----

  datatype Terminator = EndLF | EndCR | EndCRLF

  function TerminatorBytes(t: Terminator): Bytes {
    match t
    case EndLF => [LF]
    case EndCR => [CR]
    case EndCRLF => [CR, LF]
  }

  datatype Line = Line(text: Bytes, end: Terminator)

  function LineText(l: Line): Bytes {
    l.text + TerminatorBytes(l.end)
  }

  function LinesText(ls: seq<Line>): Bytes {
    if ls == [] then [] else LineText(ls[0]) + LinesText(ls[1..])
  }

  function Texts(ls: seq<Line>): (r: seq<Bytes>)
    ensures |r| == |ls|
  {
    if ls == [] then [] else [ls[0].text] + Texts(ls[1..])
  }

  /** An event: non-empty lines closed by a blank line. */
  datatype Event = Event(body: seq<Line>, blank: Terminator)

  function EventLines(e: Event): seq<Line> {
    e.body + [Line([], e.blank)]
  }

  /** Complete events, the lines of the event still open, and an incomplete line. */
  datatype Document = Document(events: seq<Event>, open: seq<Line>, tail: Bytes)

  function AllLines(events: seq<Event>, open: seq<Line>): seq<Line> {
    if events == [] then open else EventLines(events[0]) + AllLines(events[1..], open)
  }

  function Text(d: Document): Bytes {
    LinesText(AllLines(d.events, d.open)) + d.tail
  }

  predicate ProperBody(body: seq<Line>) {
    forall i :: 0 <= i < |body| ==> body[i].text != [] && Clean(body[i].text)
  }

  predicate ProperTail(tail: Bytes) {
    Clean(tail) || (tail[|tail| - 1] == CR && Clean(tail[..|tail| - 1]))
  }

  /** Something follows, and it is not the LF that would make the CR a CRLF. */
  predicate NoLF(after: Bytes) {
    after != [] && after[0] != LF
  }

  /** A lone CR ends a line only when it is known that no LF follows it. */
  predicate LoneCR(ls: seq<Line>, tail: Bytes) {
    ls == [] || (
      && (ls[0].end == EndCR ==> NoLF(LinesText(ls[1..]) + tail))
      && LoneCR(ls[1..], tail))
  }

  predicate WellFormed(d: Document) {
    && (forall e <- d.events :: ProperBody(e.body))
    && ProperBody(d.open)
    && ProperTail(d.tail)
    && LoneCR(AllLines(d.events, d.open), d.tail)
  }

  /** Every byte stream is the text of a document, so speaking of documents leaves
      no stream out. */
  lemma {:induction false} EveryStreamIsADocument(s: Bytes) returns (d: Document)
    ensures WellFormed(d) && Text(d) == s
    decreases |s|
  {
    var w := BreakWidth(s);
    var i := FirstBreak(s);
    if w == 0 {
      d := Document([], [], s);
      if i < |s| {
        assert s[..|s| - 1] == s[..i];
      } else {
        assert s[..i] == s;
      }
    } else {
      var rest := s[i + w..];
      var end := if s[i] == LF then EndLF else if w == 2 then EndCRLF else EndCR;
      var line := Line(s[..i], end);
      assert s == LineText(line) + rest;
      var later := EveryStreamIsADocument(rest);
      d := AddLine(line, later);
    }
  }

  /** The document with one more line in front. */
  lemma AddLine(line: Line, later: Document) returns (d: Document)
    requires Clean(line.text)
    requires (forall e <- later.events :: ProperBody(e.body)) && ProperBody(later.open)
    ensures (forall e <- d.events :: ProperBody(e.body)) && ProperBody(d.open)
    ensures d.tail == later.tail
    ensures AllLines(d.events, d.open) == [line] + AllLines(later.events, later.open)
  {
    if line.text == [] {
      d := Document([Event([], line.end)] + later.events, later.open, later.tail);
      assert EventLines(d.events[0]) == [line];
    } else if later.events == [] {
      d := Document([], [line] + later.open, later.tail);
    } else {
      var e := later.events[0];
      var longer := Event([line] + e.body, e.blank);
      d := Document([longer] + later.events[1..], later.open, later.tail);
      assert EventLines(longer) == [line] + EventLines(e);
      assert d.events[1..] == later.events[1..];
    }
  }

  // ----- Reading a document -----

  lemma {:induction false} FirstBreakAt(s: Bytes, i: nat)
    requires i < |s| && Clean(s[..i]) && (s[i] == LF || s[i] == CR)
    ensures FirstBreak(s) == i
  {
    if i > 0 {
      assert s[0] == s[..i][0];
      assert s[1..][..i - 1] == s[..i][1..];
      FirstBreakAt(s[1..], i - 1);
    }
  }

  /** A line is cut off exactly where its terminator says. */
  lemma CutsOneLine(l: Line, rest: Bytes, done: seq<Bytes>, n: nat)
    requires Clean(l.text)
    requires l.end == EndCR ==> NoLF(rest)
    ensures BreakWidth(LineText(l) + rest) == |TerminatorBytes(l.end)|
    ensures CutLine(State(LineText(l) + rest, done, n)) == (l.text, State(rest, done, n + |LineText(l)|))
  {
    var s := LineText(l) + rest;
    assert s[..|l.text|] == l.text;
    assert s[|l.text|] == TerminatorBytes(l.end)[0];
    FirstBreakAt(s, |l.text|);
    assert s[|LineText(l)|..] == rest;
  }

  lemma DrainsLine(p: Policy, l: Line, rest: Bytes, done: seq<Bytes>, n: nat)
    requires Clean(l.text) && l.text != []
    requires l.end == EndCR ==> NoLF(rest)
    ensures
      var o := Drain(p, State(LineText(l) + rest, done, n));
      var m := n + |LineText(l)|;
      if m <= p.maxBytes then o == Drain(p, State(rest, done + [l.text], m))
      else o.Raised? && o.error == TooLarge
  {
    hide FirstBreak, EventError, LineText;
    CutsOneLine(l, rest, done, n);
  }

  /** The lines of one event are taken in, unless their bytes pass the limit. */
  lemma {:induction false} DrainsBody(p: Policy, body: seq<Line>, rest: Bytes, done: seq<Bytes>, n: nat)
    requires ProperBody(body) && LoneCR(body, rest) && n <= p.maxBytes
    ensures
      var o := Drain(p, State(LinesText(body) + rest, done, n));
      var m := n + |LinesText(body)|;
      if m <= p.maxBytes then o == Drain(p, State(rest, done + Texts(body), m))
      else o.Raised? && o.error == TooLarge
    decreases |body|
  {
    hide Drain;
    if body == [] {
      assert LinesText(body) + rest == rest;
      assert done + Texts(body) == done;
    } else {
      var l, more := body[0], body[1..];
      var after := LinesText(more) + rest;
      assert LinesText(body) + rest == LineText(l) + after;
      var here, next := State(LineText(l) + after, done, n), State(after, done + [l.text], n + |LineText(l)|);
      assert |LinesText(body)| == |LineText(l)| + |LinesText(more)|;
      DrainsLine(p, l, after, done, n);
      if n + |LineText(l)| <= p.maxBytes {
        assert Drain(p, here) == Drain(p, next);
        DrainsBody(p, more, rest, done + [l.text], n + |LineText(l)|);
        assert (done + [l.text]) + Texts(more) == done + Texts(body);
      }
      assert here == State(LinesText(body) + rest, done, n);
    }
  }

  lemma {:induction false} LinesTextAppend(a: seq<Line>, b: seq<Line>)
    ensures LinesText(a + b) == LinesText(a) + LinesText(b)
    ensures Texts(a + b) == Texts(a) + Texts(b)
  {
    if a == [] {
      assert a + b == b;
    } else {
      assert (a + b)[1..] == a[1..] + b;
      LinesTextAppend(a[1..], b);
    }
  }

  /** Splitting the lone-CR condition at a line boundary. */
  lemma {:induction false} SplitLoneCR(a: seq<Line>, b: seq<Line>, tail: Bytes)
    requires LoneCR(a + b, tail)
    ensures LoneCR(a, LinesText(b) + tail) && LoneCR(b, tail)
  {
    if a == [] {
      assert a + b == b;
    } else {
      assert (a + b)[1..] == a[1..] + b;
      hide LinesText, Texts, ProperTail;
      SplitLoneCR(a[1..], b, tail);
      LinesTextAppend(a[1..], b);
      assert LinesText(a[1..] + b) + tail == LinesText(a[1..]) + (LinesText(b) + tail);
    }
  }

  function EventSize(e: Event): nat {
    |LinesText(e.body)| + |TerminatorBytes(e.blank)|
  }

  /** Why an event is refused: its bytes pass the limit, or its fields are unacceptable. */
  function Verdict(p: Policy, e: Event): Option<GuardError> {
    if EventSize(e) > p.maxBytes then Some(TooLarge) else EventError(p, Texts(e.body))
  }

  lemma DrainsBlank(p: Policy, blank: Terminator, rest: Bytes, texts: seq<Bytes>, n: nat)
    requires blank == EndCR ==> NoLF(rest)
    ensures
      var o := Drain(p, State(TerminatorBytes(blank) + rest, texts, n));
      var refused := if n + |TerminatorBytes(blank)| > p.maxBytes then Some(TooLarge) else EventError(p, texts);
      match refused
      case None => o == Prepend([Frame(texts)], Drain(p, State(rest, [], 0)))
      case Some(err) => o.Raised? && o.error == err
  {
    CutsOneLine(Line([], blank), rest, texts, n);
    assert LineText(Line([], blank)) == TerminatorBytes(blank);
  }

  lemma EventLinesText(e: Event, rest: Bytes)
    requires LoneCR(EventLines(e), rest)
    ensures LinesText(EventLines(e)) == LinesText(e.body) + TerminatorBytes(e.blank)
    ensures LoneCR(e.body, TerminatorBytes(e.blank) + rest)
    ensures e.blank == EndCR ==> NoLF(rest)
  {
    var blank := Line([], e.blank);
    LinesTextAppend(e.body, [blank]);
    assert LinesText([blank]) == TerminatorBytes(e.blank);
    SplitLoneCR(e.body, [blank], rest);
    assert LinesText([]) + rest == rest;
  }

  lemma DrainsEvent(p: Policy, e: Event, rest: Bytes)
    requires ProperBody(e.body) && LoneCR(EventLines(e), rest)
    ensures
      var o := Drain(p, State(LinesText(EventLines(e)) + rest, [], 0));
      match Verdict(p, e)
      case None => o == Prepend([Frame(Texts(e.body))], Drain(p, State(rest, [], 0)))
      case Some(err) => o.Raised? && o.error == err
  {
    hide Drain, EventError, LoneCR;
    EventLinesText(e, rest);
    var after := TerminatorBytes(e.blank) + rest;
    assert LinesText(EventLines(e)) + rest == LinesText(e.body) + after;
    DrainsBody(p, e.body, after, [], 0);
    var m := |LinesText(e.body)|;
    if m <= p.maxBytes {
      assert [] + Texts(e.body) == Texts(e.body);
      DrainsBlank(p, e.blank, rest, Texts(e.body), m);
    }
  }

  /** Index of the first event refused, or the number of events. */
  function FirstRefused(p: Policy, events: seq<Event>): (k: nat)
    ensures k <= |events|
    ensures forall i :: 0 <= i < k ==> Verdict(p, events[i]) == None
    ensures k < |events| ==> Verdict(p, events[k]).Some?
  {
    if events == [] || Verdict(p, events[0]).Some? then 0 else 1 + FirstRefused(p, events[1..])
  }

  function Frames(events: seq<Event>): (r: seq<Bytes>)
    ensures |r| == |events|
    ensures forall i :: 0 <= i < |r| ==> r[i] == Frame(Texts(events[i].body))
  {
    if events == [] then [] else [Frame(Texts(events[0].body))] + Frames(events[1..])
  }

  /** What the guard must do with a document. */
  predicate Reads(p: Policy, d: Document, o: Outcome) {
    var k := FirstRefused(p, d.events);
    var pending := |LinesText(d.open)| + |d.tail|;
    match o
    case Released(fs, st) =>
      && k == |d.events|
      && pending <= p.maxBytes
      && fs == Frames(d.events)
      && st == State(d.tail, Texts(d.open), |LinesText(d.open)|)
    case Raised(e, _) =>
      if k < |d.events| then Verdict(p, d.events[k]) == Some(e)
      else e == TooLarge && pending > p.maxBytes
  }

  /** The part of a document after its last event is kept, or is too long. */
  lemma DrainsOpen(p: Policy, open: seq<Line>, tail: Bytes)
    requires ProperBody(open) && ProperTail(tail) && LoneCR(open, tail)
    ensures
      var o := Drain(p, State(LinesText(open) + tail, [], 0));
      if |LinesText(open)| + |tail| <= p.maxBytes
      then o == Released([], State(tail, Texts(open), |LinesText(open)|))
      else o.Raised? && o.error == TooLarge
  {
    hide Drain;
    DrainsBody(p, open, tail, [], 0);
    assert [] + Texts(open) == Texts(open);
    DrainsTail(p, tail, Texts(open), |LinesText(open)|);
  }

  lemma DrainsTail(p: Policy, tail: Bytes, done: seq<Bytes>, n: nat)
    requires ProperTail(tail)
    ensures
      var st := State(tail, done, n);
      Drain(p, st) == if n + |tail| > p.maxBytes then Raised(TooLarge, st) else Released([], st)
  {
    if Clean(tail) {
      assert FirstBreak(tail) == |tail|;
    } else {
      assert FirstBreak(tail) == |tail| - 1;
    }
  }

  lemma FirstRefusedStep(p: Policy, events: seq<Event>)
    requires events != []
    ensures FirstRefused(p, events) == if Verdict(p, events[0]).Some? then 0 else 1 + FirstRefused(p, events[1..])
  {
  }

  lemma {:induction false} DrainsDocument(p: Policy, d: Document)
    requires WellFormed(d)
    ensures Reads(p, d, Drain(p, State(Text(d), [], 0)))
    decreases |d.events|
  {
    hide Drain, Verdict, FirstRefused, LoneCR, LinesText, Texts, EventLines, Frame;
    if d.events == [] {
      DrainsOpen(p, d.open, d.tail);
    } else {
      var e := d.events[0];
      var less := d.(events := d.events[1..]);
      var later := AllLines(less.events, d.open);
      SplitLoneCR(EventLines(e), later, d.tail);
      LinesTextAppend(EventLines(e), later);
      assert Text(d) == LinesText(EventLines(e)) + Text(less);
      DrainsEvent(p, e, Text(less));
      DrainsDocument(p, less);
      FirstRefusedStep(p, d.events);
    }
  }

  /** The guard against the grammar: fed any document in any chunks, it releases the
      frames of all its events exactly when none is refused and the open part fits;
      otherwise it raises the error of the first refused event, or the size error. */
  lemma ReadsEveryDocument(p: Policy, d: Document, chunks: seq<Bytes>)
    requires WellFormed(d) && Concat(chunks) == Text(d)
    ensures Reads(p, d, FeedAll(p, FRESH, chunks))
  {
    DrainsDocument(p, d);
    ChunkIndependence(p, FRESH, chunks);
    assert Append(FRESH, Text(d)) == State(Text(d), [], 0);
  }

  // ----- Bounds -----

  lemma {:induction false} BodyBytes(body: seq<Line>)
    ensures |LinesText(body)| >= TotalLength(Texts(body)) + |body|
  {
    if body != [] {
      assert Texts(body)[1..] == Texts(body[1..]);
      BodyBytes(body[1..]);
    }
  }

  lemma {:induction false} JoinLength(parts: seq<Bytes>)
    requires parts != []
    ensures |Join(parts, [LF])| == TotalLength(parts) + |parts| - 1
  {
    if |parts| > 1 {
      JoinLength(parts[1..]);
    } else {
      assert TotalLength(parts[1..]) == 0;
    }
  }

  lemma {:induction false} TotalLengthAppend(a: seq<Bytes>, x: Bytes)
    ensures TotalLength(a + [x]) == TotalLength(a) + |x|
  {
    if a == [] {
      assert a + [x] == [x];
    } else {
      assert (a + [x])[1..] == a[1..] + [x];
      TotalLengthAppend(a[1..], x);
    }
  }

  lemma {:induction false} DataFitsInLines(p: Policy, lines: seq<Bytes>, f: Fields)
    ensures match ReadLines(p, lines, f)
            case None => true
            case Some(g) =>
              TotalLength(g.data) + |g.data| <= TotalLength(f.data) + |f.data| + TotalLength(lines) + |lines|
    decreases |lines|
  {
    if lines != [] {
      TotalLengthAppend(f.data, FieldValue(lines[0]));
      var g := ReadLine(p, lines[0], f);
      if g.Some? {
        DataFitsInLines(p, lines[1..], g.value);
      }
    }
  }

  /** The data-size check of `_finish_event` cannot fire: an event within the byte
      limit is refused only for its name or its endpoint. */
  lemma DataSizeCheckIsDead(p: Policy, e: Event)
    requires EventSize(e) <= p.maxBytes
    ensures Verdict(p, e) != Some(TooLarge)
  {
    DataFitsInLines(p, Texts(e.body), Fields(MESSAGE_NAME, []));
    BodyBytes(e.body);
  }

  lemma FrameLength(p: Policy, e: Event)
    requires EventSize(e) <= p.maxBytes
    ensures
      var f := Frame(Texts(e.body));
      |f| <= p.maxBytes || (f == [LF, LF] && p.maxBytes == 1)
  {
    BodyBytes(e.body);
    if e.body != [] {
      JoinLength(Texts(e.body));
    } else {
      assert Frame(Texts(e.body)) == [LF, LF];
    }
  }

  /** After a successful run of calls the retained bytes are bounded (so `finish` does
      not raise), and every frame is bounded too. The one exception is exact: an event
      without lines is released as two line feeds, which pass a limit of one byte. */
  lemma FrameBounds(p: Policy, chunks: seq<Bytes>)
    ensures match FeedAll(p, FRESH, chunks)
            case Raised(_, _) => true
            case Released(fs, st) =>
              && st.size + |st.buffer| <= p.maxBytes
              && forall i :: 0 <= i < |fs| ==> |fs[i]| <= p.maxBytes || (fs[i] == [LF, LF] && p.maxBytes == 1)
  {
    hide FeedAll, EventError, Join, Texts, LinesText;
    var d := EveryStreamIsADocument(Concat(chunks));
    ReadsEveryDocument(p, d, chunks);
    var o := FeedAll(p, FRESH, chunks);
    if o.Released? {
      forall i | 0 <= i < |o.frames|
        ensures |o.frames[i]| <= p.maxBytes || (o.frames[i] == [LF, LF] && p.maxBytes == 1)
      {
        assert Verdict(p, d.events[i]) == None;
        FrameLength(p, d.events[i]);
      }
    }
  }

  // ----- What is refused -----

  /** Values of the event fields of an event, in order. */
  function EventNames(lines: seq<Bytes>): seq<Bytes> {
    if lines == [] then []
    else if !IsComment(lines[0]) && FieldName(lines[0]) == EVENT_FIELD
    then [FieldValue(lines[0])] + EventNames(lines[1..])
    else EventNames(lines[1..])
  }

  /** Values of the data fields of an event, in order. */
  function DataValues(lines: seq<Bytes>): seq<Bytes> {
    if lines == [] then []
    else if !IsComment(lines[0]) && FieldName(lines[0]) == DATA_FIELD
    then [FieldValue(lines[0])] + DataValues(lines[1..])
    else DataValues(lines[1..])
  }

  /** The last event field names the event. */
  function EventName(lines: seq<Bytes>): Bytes {
    var names := EventNames(lines);
    if names == [] then MESSAGE_NAME else names[|names| - 1]
  }

  predicate AllUtf8(p: Policy, names: seq<Bytes>) {
    forall i :: 0 <= i < |names| ==> p.utf8(names[i])
  }

  lemma AllUtf8Cons(p: Policy, name: Bytes, names: seq<Bytes>)
    ensures AllUtf8(p, [name] + names) <==> p.utf8(name) && AllUtf8(p, names)
  {
    var all := [name] + names;
    assert all[0] == name && all[1..] == names;
    if AllUtf8(p, all) {
      assert forall i :: 0 <= i < |names| ==> names[i] == all[i + 1];
    }
  }

  lemma {:induction false} ReadLinesMeans(p: Policy, lines: seq<Bytes>, f: Fields)
    ensures
      var names := EventNames(lines);
      match ReadLines(p, lines, f)
      case None => !AllUtf8(p, names)
      case Some(g) =>
        && AllUtf8(p, names)
        && g.data == f.data + DataValues(lines)
        && g.name == (if names == [] then f.name else names[|names| - 1])
    decreases |lines|
  {
    if lines != [] {
      hide FieldName, FieldValue, AllUtf8;
      AllUtf8Cons(p, FieldValue(lines[0]), EventNames(lines[1..]));
      var next := ReadLine(p, lines[0], f);
      if next.Some? {
        ReadLinesMeans(p, lines[1..], next.value);
      }
    }
  }

  /** An event within the byte limit is refused exactly when one of its names is not
      UTF-8, or it advertises an endpoint that the policy does not allow. */
  lemma RefusedExactlyWhen(p: Policy, e: Event)
    requires EventSize(e) <= p.maxBytes
    ensures
      var lines := Texts(e.body);
      Verdict(p, e).Some? <==>
        || !AllUtf8(p, EventNames(lines))
        || (p.validateEndpoint && EventName(lines) == ENDPOINT_NAME
            && !EndpointAllowed(p, Join(DataValues(lines), [LF])))
  {
    hide ReadLines, EndpointAllowed, EventNames, DataValues, Texts, AllUtf8;
    var lines := Texts(e.body);
    ReadLinesMeans(p, lines, Fields(MESSAGE_NAME, []));
    assert [] + DataValues(lines) == DataValues(lines);
    DataSizeCheckIsDead(p, e);
  }

  /** The endpoint event is an authorization boundary: whatever the server sends, in
      whatever chunks, a guard that validates endpoints releases none that is not allowed. */
  lemma ReleasedEndpointsAreAllowed(p: Policy, d: Document, chunks: seq<Bytes>, i: nat)
    requires WellFormed(d) && Concat(chunks) == Text(d)
    requires p.validateEndpoint && FeedAll(p, FRESH, chunks).Released?
    requires i < |d.events| && EventName(Texts(d.events[i].body)) == ENDPOINT_NAME
    ensures EndpointAllowed(p, Join(DataValues(Texts(d.events[i].body)), [LF]))
  {
    hide Texts, EventNames, DataValues, EndpointAllowed, EventError, FeedAll, WellFormed;
    ReadsEveryDocument(p, d, chunks);
    assert Verdict(p, d.events[i]) == None;
    RefusedExactlyWhen(p, d.events[i]);
  }

  // ----- Agreement with the terminal-response scanner -----

  /** `payload.replace(b"\r\n", b"\n")` */
  function ReplaceCRLF(s: Bytes): Bytes {
    if s == [] then []
    else if |s| >= 2 && s[0] == CR && s[1] == LF then [LF] + ReplaceCRLF(s[2..])
    else [s[0]] + ReplaceCRLF(s[1..])
  }

  /** `payload.replace(b"\r", b"\n")` */
  function ReplaceCR(s: Bytes): Bytes {
    if s == [] then [] else [if s[0] == CR then LF else s[0]] + ReplaceCR(s[1..])
  }

  function Normalize(s: Bytes): Bytes {
    ReplaceCR(ReplaceCRLF(s))
  }

  /** `normalized.split(b"\n\n")`: leftmost, not overlapping. */
  function SplitBlank(s: Bytes): (r: seq<Bytes>)
    ensures |r| >= 1
  {
    if |s| < 2 then [s]
    else if s[0] == LF && s[1] == LF then [[]] + SplitBlank(s[2..])
    else
      var r := SplitBlank(s[1..]);
      [[s[0]] + r[0]] + r[1..]
  }

  /** `event.split(b"\n")` */
  function SplitLF(s: Bytes): (r: seq<Bytes>)
    ensures |r| >= 1
  {
    if s == [] then [[]]
    else if s[0] == LF then [[]] + SplitLF(s[1..])
    else
      var r := SplitLF(s[1..]);
      [[s[0]] + r[0]] + r[1..]
  }

  lemma {:induction false} NormalizeWithoutCR(s: Bytes)
    requires CR !in s
    ensures Normalize(s) == s
  {
    if s != [] {
      NormalizeWithoutCR(s[1..]);
      assert s == [s[0]] + s[1..];
    }
  }

  /** A body with no blank line inside and no line feed at its end. */
  predicate Solid(body: Bytes) {
    && (forall i :: 0 <= i < |body| - 1 ==> !(body[i] == LF && body[i + 1] == LF))
    && (body != [] ==> body[|body| - 1] != LF)
  }

  lemma {:induction false} SplitsAfterBody(body: Bytes, rest: Bytes)
    requires Solid(body)
    ensures SplitBlank(body + [LF, LF] + rest) == [body] + SplitBlank(rest)
    decreases |body|
  {
    var s := body + [LF, LF] + rest;
    if body == [] {
      assert s[2..] == rest;
    } else {
      assert Solid(body[1..]);
      SplitsAfterBody(body[1..], rest);
      assert s[1..] == body[1..] + [LF, LF] + rest;
      assert [body[0]] + body[1..] == body;
    }
  }

  predicate ProperLines(lines: seq<Bytes>) {
    forall i :: 0 <= i < |lines| ==> lines[i] != [] && Clean(lines[i])
  }

  lemma {:induction false} JoinedLinesAreSolid(lines: seq<Bytes>)
    requires ProperLines(lines)
    ensures Solid(Join(lines, [LF])) && CR !in Join(lines, [LF])
    ensures lines != [] ==> Join(lines, [LF]) != [] && Join(lines, [LF])[0] != LF
  {
    if |lines| > 1 {
      assert ProperLines(lines[1..]);
      JoinedLinesAreSolid(lines[1..]);
    } else if |lines| == 1 {
      }
  }

  lemma {:induction false} SplitLFClean(s: Bytes)
    requires Clean(s)
    ensures SplitLF(s) == [s]
  {
    if s != [] {
      SplitLFClean(s[1..]);
      assert s == [s[0]] + s[1..];
    }
  }

  lemma {:induction false} SplitLFAfter(s: Bytes, rest: Bytes)
    requires Clean(s)
    ensures SplitLF(s + [LF] + rest) == [s] + SplitLF(rest)
  {
    var all := s + [LF] + rest;
    if s == [] {
      assert all[1..] == rest;
    } else {
      SplitLFAfter(s[1..], rest);
      assert all[1..] == s[1..] + [LF] + rest;
      assert s == [s[0]] + s[1..];
    }
  }

  lemma {:induction false} JoinSplits(lines: seq<Bytes>)
    requires ProperLines(lines) && lines != []
    ensures SplitLF(Join(lines, [LF])) == lines
  {
    if |lines| == 1 {
      SplitLFClean(lines[0]);
    } else {
      assert ProperLines(lines[1..]);
      JoinSplits(lines[1..]);
      SplitLFAfter(lines[0], Join(lines[1..], [LF]));
      assert Join(lines, [LF]) == lines[0] + [LF] + Join(lines[1..], [LF]);
    }
  }

  lemma {:induction false} TextsAreProper(body: seq<Line>)
    requires ProperBody(body)
    ensures ProperLines(Texts(body))
  {
    if body != [] {
      assert ProperBody(body[1..]);
      TextsAreProper(body[1..]);
    }
  }

  function Bodies(events: seq<Event>): (r: seq<Bytes>)
    ensures |r| == |events|
  {
    if events == [] then [] else [Join(Texts(events[0].body), [LF])] + Bodies(events[1..])
  }

  lemma {:induction false} SplitsFrames(events: seq<Event>)
    requires forall e <- events :: ProperBody(e.body)
    ensures CR !in Concat(Frames(events))
    ensures SplitBlank(Concat(Frames(events))) == Bodies(events) + [[]]
    decreases |events|
  {
    if events != [] {
      assert events[0] in events;
      SplitsFrames(events[1..]);
      TextsAreProper(events[0].body);
      var body := Join(Texts(events[0].body), [LF]);
      JoinedLinesAreSolid(Texts(events[0].body));
      SplitsAfterBody(body, Concat(Frames(events[1..])));
      assert Frames(events)[1..] == Frames(events[1..]);
    }
  }

  /** The scanner that looks for a terminal JSON-RPC response in the concatenated
      frames finds exactly the released events, in order, line by line. */
  lemma TerminalScannerSeesTheEvents(p: Policy, d: Document, chunks: seq<Bytes>)
    requires WellFormed(d) && Concat(chunks) == Text(d)
    requires FeedAll(p, FRESH, chunks).Released?
    ensures
      var pieces := SplitBlank(Normalize(Concat(FeedAll(p, FRESH, chunks).frames)));
      && pieces == Bodies(d.events) + [[]]
      && forall i :: 0 <= i < |d.events| && d.events[i].body != [] ==>
        SplitLF(pieces[i]) == Texts(d.events[i].body)
  {
    ReadsEveryDocument(p, d, chunks);
    SplitsFrames(d.events);
    NormalizeWithoutCR(Concat(Frames(d.events)));
    forall i | 0 <= i < |d.events| && d.events[i].body != []
      ensures SplitLF(Bodies(d.events)[i]) == Texts(d.events[i].body)
    {
      BodiesAt(d.events, i);
      TextsAreProper(d.events[i].body);
      JoinSplits(Texts(d.events[i].body));
    }
  }

  lemma {:induction false} BodiesAt(events: seq<Event>, i: nat)
    requires i < |events|
    ensures Bodies(events)[i] == Join(Texts(events[i].body), [LF])
  {
    if i > 0 {
      BodiesAt(events[1..], i - 1);
    }
  }

  /** `line.lstrip(b" ")` */
  function WithoutSpaces(s: Bytes): Bytes {
    if s != [] && s[0] == SPACE then WithoutSpaces(s[1..]) else s
  }

  const DATA_PREFIX: Bytes := DATA_FIELD + [COLON]

  /** What the scanner takes from one line. */
  function ScannedValue(line: Bytes): seq<Bytes> {
    if |line| >= 5 && line[..5] == DATA_PREFIX then [WithoutSpaces(line[5..])] else []
  }

  /** What the guard, and the standard, take from it. */
  function GuardedValue(line: Bytes): seq<Bytes> {
    if !IsComment(line) && FieldName(line) == DATA_FIELD then [FieldValue(line)] else []
  }

  /** What the scanner takes from an event. */
  function ScannedValues(lines: seq<Bytes>): seq<Bytes> {
    if lines == [] then [] else ScannedValue(lines[0]) + ScannedValues(lines[1..])
  }

  /** A data line without a colon, or with more than one space after it. */
  predicate ReadTwoWays(line: Bytes) {
    || line == DATA_FIELD
    || (|line| > 6 && line[..5] == DATA_PREFIX && line[5] == SPACE && line[6] == SPACE)
  }

  lemma {:induction false} FirstColonAt(line: Bytes, i: nat)
    requires i <= |line| && forall j :: 0 <= j < i ==> line[j] != COLON
    requires i < |line| ==> line[i] == COLON
    ensures FirstColon(line) == i
  {
    if i > 0 {
      FirstColonAt(line[1..], i - 1);
    }
  }

  lemma DataLines(line: Bytes)
    ensures |line| >= 5 && line[..5] == DATA_PREFIX ==>
        GuardedValue(line) == [if |line| > 5 && line[5] == SPACE then line[6..] else line[5..]]
    ensures line == DATA_FIELD ==> GuardedValue(line) == [[]]
    ensures GuardedValue(line) != [] ==> line == DATA_FIELD || (|line| >= 5 && line[..5] == DATA_PREFIX)
  {
    if |line| >= 5 && line[..5] == DATA_PREFIX {
      assert forall j :: 0 <= j < 5 ==> line[j] == DATA_PREFIX[j];
      FirstColonAt(line, 4);
      assert line[..4] == DATA_FIELD;
    }
    if line == DATA_FIELD {
      FirstColonAt(line, 4);
      assert line[..4] == line;
    }
    if FieldName(line) == DATA_FIELD {
      var i := FirstColon(line);
      assert i == 4;
      assert |line| == 4 ==> line[..4] == line;
      assert |line| > 4 ==> line[..5] == line[..4] + [line[4]];
    }
  }

  /** The scanner and the guard read a line alike exactly when it is not one of those. */
  lemma LineReadAlikeExactlyWhen(line: Bytes)
    ensures ScannedValue(line) == GuardedValue(line) <==> !ReadTwoWays(line)
    ensures |ScannedValue(line)| <= |GuardedValue(line)|
    ensures |ScannedValue(line)| == |GuardedValue(line)| <==> line != DATA_FIELD
  {
    hide GuardedValue;
    DataLines(line);
    if |line| >= 5 && line[..5] == DATA_PREFIX {
      var rest := line[5..];
      assert |line| > 5 ==> rest[0] == line[5] && rest[1..] == line[6..];
      if |line| > 5 {
        assert |line| > 6 ==> line[6..][0] == line[6];
        SpacesShrink(line[6..]);
      }
    }
  }

  lemma {:induction false} SpacesShrink(s: Bytes)
    ensures |WithoutSpaces(s)| <= |s|
    ensures WithoutSpaces(s) == s <==> s == [] || s[0] != SPACE
  {
    if s != [] && s[0] == SPACE {
      SpacesShrink(s[1..]);
    }
  }

  lemma {:induction false} EventReadAlike(lines: seq<Bytes>)
    ensures |ScannedValues(lines)| <= |DataValues(lines)|
    ensures ScannedValues(lines) == DataValues(lines) <==> forall i :: 0 <= i < |lines| ==> !ReadTwoWays(lines[i])
    decreases |lines|
  {
    if lines != [] {
      hide ScannedValue, ReadTwoWays, IsComment, FieldName, FieldValue;
      EventReadAlike(lines[1..]);
      LineReadAlikeExactlyWhen(lines[0]);
      assert DataValues(lines) == GuardedValue(lines[0]) + DataValues(lines[1..]);
      SameHeads(ScannedValue(lines[0]), ScannedValues(lines[1..]), GuardedValue(lines[0]), DataValues(lines[1..]));
      assert forall i :: 0 < i < |lines| ==> lines[i] == lines[1..][i - 1];
    }
  }

  lemma SameHeads(a: seq<Bytes>, b: seq<Bytes>, c: seq<Bytes>, d: seq<Bytes>)
    requires |a| <= |c| && |b| <= |d|
    ensures a + b == c + d <==> a == c && b == d
  {
    if a + b == c + d {
      assert |a + b| == |c + d|;
      assert a == (a + b)[..|a|] && c == (c + d)[..|c|];
      assert b == (a + b)[|a|..] && d == (c + d)[|c|..];
    }
  }

  /** From every released event the scanner takes the event's data values exactly when no line of it can be read two ways. */
  lemma ScannerReadsTheDataExactlyWhen(p: Policy, d: Document, chunks: seq<Bytes>, i: nat)
    requires WellFormed(d) && Concat(chunks) == Text(d)
    requires FeedAll(p, FRESH, chunks).Released? && i < |d.events| && d.events[i].body != []
    ensures
      var pieces := SplitBlank(Normalize(Concat(FeedAll(p, FRESH, chunks).frames)));
      var texts := Texts(d.events[i].body);
      && i < |pieces|
      && (ScannedValues(SplitLF(pieces[i])) == DataValues(texts)
          <==> forall j :: 0 <= j < |texts| ==> !ReadTwoWays(texts[j]))
  {
    hide FeedAll, Texts, SplitLF, SplitBlank, Normalize, ScannedValues, DataValues, WellFormed, Text;
    TerminalScannerSeesTheEvents(p, d, chunks);
    EventReadAlike(Texts(d.events[i].body));
  }

  // ----- Frames fed again -----

  function Relined(texts: seq<Bytes>): seq<Line> {
    if texts == [] then [] else [Line(texts[0], EndLF)] + Relined(texts[1..])
  }

  lemma {:induction false} RelinedTexts(texts: seq<Bytes>)
    ensures Texts(Relined(texts)) == texts && |Relined(texts)| == |texts|
    ensures forall i :: 0 <= i < |texts| ==> Relined(texts)[i] == Line(texts[i], EndLF)
  {
    if texts != [] {
      RelinedTexts(texts[1..]);
    }
  }

  lemma {:induction false} RelinedText(texts: seq<Bytes>)
    ensures texts != [] ==> LinesText(Relined(texts)) == Join(texts, [LF]) + [LF]
  {
    if |texts| == 1 {
      assert Relined(texts[1..]) == [];
      assert LinesText(Relined(texts)) == texts[0] + [LF] + [];
    } else if |texts| > 1 {
      hide Texts;
      RelinedText(texts[1..]);
      assert Relined(texts)[1..] == Relined(texts[1..]);
      assert LineText(Relined(texts)[0]) == texts[0] + [LF];
    }
  }

  /** A frame, read as a document: its event again, or twice the event without lines. */
  function FrameDocument(texts: seq<Bytes>): Document {
    var e := Event(Relined(texts), EndLF);
    Document(if texts == [] then [e, e] else [e], [], [])
  }

  lemma FrameIsADocument(texts: seq<Bytes>)
    requires ProperLines(texts)
    ensures WellFormed(FrameDocument(texts)) && Text(FrameDocument(texts)) == Frame(texts)
  {
    var e := Event(Relined(texts), EndLF);
    RelinedText(texts);
    RelinedTexts(texts);
    AllLinesOf(e);
    LinesTextAppend(e.body, [Line([], EndLF)]);
    assert LinesText([Line([], EndLF)]) == [LF];
    if texts == [] {
      LinesTextAppend(EventLines(e), EventLines(e));
      assert LinesText(EventLines(e)) == [LF];
    }
    var d := FrameDocument(texts);
    OnlyLFs(AllLines(d.events, d.open));
  }

  lemma {:induction false} OnlyLFs(ls: seq<Line>)
    requires forall i :: 0 <= i < |ls| ==> ls[i].end == EndLF
    ensures LoneCR(ls, [])
  {
    if ls != [] {
      OnlyLFs(ls[1..]);
    }
  }

  /** Rewriting the terminators of an accepted event keeps it accepted. */
  lemma RelinedVerdict(p: Policy, e: Event)
    requires ProperBody(e.body) && Verdict(p, e) == None
    ensures Verdict(p, Event(Relined(Texts(e.body)), EndLF)) == None
  {
    hide EventError;
    TextsAreProper(e.body);
    RelinedText(Texts(e.body));
    RelinedTexts(Texts(e.body));
    BodyBytes(e.body);
    if e.body != [] {
      JoinLength(Texts(e.body));
    }
  }

  /** A released frame is in normal form: fed to a fresh guard it comes back as the
      only frame. The exception is exact: the frame of an event without lines comes
      back twice. */
  lemma FramesAreNormalForms(p: Policy, chunks: seq<Bytes>, f: Bytes)
    requires FeedAll(p, FRESH, chunks).Released? && f in FeedAll(p, FRESH, chunks).frames
    ensures FeedAll(p, FRESH, [f]) == Released(if f == [LF, LF] then [f, f] else [f], FRESH)
  {
    hide FeedAll, Verdict, LoneCR, WellFormed, Texts, Frame, Frames, FrameDocument, FirstRefused, Text;
    var d := EveryStreamIsADocument(Concat(chunks));
    ReadsEveryDocument(p, d, chunks);
    var i :| 0 <= i < |d.events| && f == Frame(Texts(d.events[i].body));
    var e := d.events[i];
    FrameComesBack(p, e);
    var again := FrameDocument(Texts(e.body));
    assert Concat([f]) == f + Concat([]);
    ReadsEveryDocument(p, again, [f]);
    FrameOfNoLines(e.body);
  }

  lemma FrameOfNoLines(body: seq<Line>)
    requires ProperBody(body)
    ensures Frame(Texts(body)) == [LF, LF] <==> body == []
  {
    TextsAreProper(body);
    JoinedLinesAreSolid(Texts(body));
  }

  lemma FrameComesBack(p: Policy, e: Event)
    requires ProperBody(e.body) && Verdict(p, e) == None
    ensures
      var d := FrameDocument(Texts(e.body));
      var f := Frame(Texts(e.body));
      && WellFormed(d) && Text(d) == f && d.tail == []
      && FirstRefused(p, d.events) == |d.events|
      && Frames(d.events) == (if e.body == [] then [f, f] else [f])
      && Texts(d.open) == [] && LinesText(d.open) == []
  {
    hide LoneCR, Text, Frame, Verdict;
    var texts := Texts(e.body);
    TextsAreProper(e.body);
    FrameIsADocument(texts);
    RelinedVerdict(p, e);
    RelinedText(texts);
    RelinedTexts(texts);
  }

  lemma AllLinesOf(e: Event)
    ensures AllLines([e], []) == EventLines(e)
    ensures AllLines([e, e], []) == EventLines(e) + EventLines(e)
  {
    assert [e][1..] == [] && [e, e][1..] == [e];
    assert EventLines(e) + [] == EventLines(e);
  }

  /** A stream of one line feed, under any limit: its frame is two bytes, and is read back as two events. */
  lemma EmptyEventIsReleased(p: Policy)
    requires p.maxBytes >= 1
    ensures FeedAll(p, FRESH, [[LF]]) == Released([[LF, LF]], FRESH)
    ensures FeedAll(p, FRESH, [[LF, LF]]) == Released([[LF, LF], [LF, LF]], FRESH)
  {
    EmptyEventDrains(p);
    assert FRESH.buffer + [LF] == [LF];
    assert [[LF]][1..] == [];
    assert Feed(p, FRESH, [LF]) == Released([[LF, LF]], FRESH);
    assert FeedAll(p, FRESH, []) == Released([], FRESH);
    assert [[LF, LF]] + [] == [[LF, LF]];
    FramesAreNormalForms(p, [[LF]], [LF, LF]);
  }

  lemma EmptyEventDrains(p: Policy)
    requires p.maxBytes >= 1
    ensures Drain(p, State([LF], [], 0)) == Released([[LF, LF]], FRESH)
  {
    var st := State([LF], [], 0);
    assert FirstBreak([LF]) == 0 && BreakWidth([LF]) == 1;
    assert CutLine(st) == ([], State([], [], 1));
    assert EventError(p, []) == None;
    assert Frame([]) == [LF, LF];
    assert Drain(p, State([], [], 0)) == Released([], FRESH);
    assert [[LF, LF]] + [] == [[LF, LF]];
  }
}
