/**
 The incremental SSE frame guard of the MCP gateway (`_SseFrameGuard`): it
 withholds bytes from the SDK until a whole, size-bounded and validated event
 has arrived, whatever the chunks the network delivers.
 */
module SseFrameGuard {
  import opened Common

  const COLON: byte := 0x3A
  const SPACE: byte := 0x20
  const SLASH: byte := 0x2F
  const EVENT_FIELD: Bytes := [0x65, 0x76, 0x65, 0x6E, 0x74]
  const DATA_FIELD: Bytes := [0x64, 0x61, 0x74, 0x61]
  const MESSAGE_NAME: Bytes := [0x6D, 0x65, 0x73, 0x73, 0x61, 0x67, 0x65]
  const ENDPOINT_NAME: Bytes := [0x65, 0x6E, 0x64, 0x70, 0x6F, 0x69, 0x6E, 0x74]

  datatype GuardError = TooLarge | ProtocolError

  /** The guard's configuration. Strict UTF-8 decoding and the origin comparison
      of a canonicalised URL are code outside this model, so both are parameters. */
  datatype Policy = Policy(
    maxBytes: nat,
    validateEndpoint: bool,
    utf8: Bytes -> bool,
    sameOrigin: Bytes -> bool)

  /** The guard's three fields. */
  datatype State = State(buffer: Bytes, lines: seq<Bytes>, size: nat)

  const FRESH: State := State([], [], 0)

  datatype Outcome =
    | Released(frames: seq<Bytes>, state: State)
    | Raised(error: GuardError, left: State)

  // ----- Finding one line -----

  predicate Clean(s: Bytes) {
    LF !in s && CR !in s
  }

  /** Index of the first CR or LF, or the length when there is none. */
  function FirstBreak(s: Bytes): (i: nat)
    ensures i <= |s| && Clean(s[..i])
    ensures i < |s| ==> s[i] == LF || s[i] == CR
  {
    if s == [] || s[0] == LF || s[0] == CR then 0
    else
      var i := 1 + FirstBreak(s[1..]);
      assert s[..i] == [s[0]] + s[1..][..i - 1];
      i
  }

  /** Width of the terminator of the first line; 0 while it is incomplete. A CR that
      ends the buffer is incomplete: an LF may still follow. */
  function BreakWidth(s: Bytes): nat {
    var i := FirstBreak(s);
    if i == |s| then 0
    else if s[i] == LF then 1
    else if i + 1 == |s| then 0
    else if s[i + 1] == LF then 2
    else 1
  }

  // ----- Finishing one event -----

  function FirstColon(s: Bytes): (i: nat)
    ensures i <= |s| && (i < |s| ==> s[i] == COLON)
  {
    if s == [] || s[0] == COLON then 0 else 1 + FirstColon(s[1..])
  }

  function FieldName(line: Bytes): Bytes {
    line[..FirstColon(line)]
  }

  /** The field value with one leading space removed, empty without a separator. */
  function FieldValue(line: Bytes): (v: Bytes)
    ensures |v| <= |line|
  {
    var i := FirstColon(line);
    if i == |line| then []
    else if i + 1 < |line| && line[i + 1] == SPACE then line[i + 2..]
    else line[i + 1..]
  }

  datatype Fields = Fields(name: Bytes, data: seq<Bytes>)

  predicate IsComment(line: Bytes) {
    line != [] && line[0] == COLON
  }

  /** What one line does to the event under construction; None for undecodable names. */
  function ReadLine(p: Policy, line: Bytes, f: Fields): Option<Fields> {
    if IsComment(line) then Some(f)
    else if FieldName(line) == EVENT_FIELD then
      if p.utf8(FieldValue(line)) then Some(f.(name := FieldValue(line))) else None
    else if FieldName(line) == DATA_FIELD then Some(f.(data := f.data + [FieldValue(line)]))
    else Some(f)
  }

  function ReadLines(p: Policy, lines: seq<Bytes>, f: Fields): Option<Fields> {
    if lines == [] then Some(f)
    else match ReadLine(p, lines[0], f)
      case None => None
      case Some(g) => ReadLines(p, lines[1..], g)
  }

  function TotalLength(parts: seq<Bytes>): nat {
    if parts == [] then 0 else |parts[0]| + TotalLength(parts[1..])
  }

  /** Length of the data lines joined by single line feeds. */
  function DataSize(data: seq<Bytes>): nat {
    TotalLength(data) + if |data| > 0 then |data| - 1 else 0
  }

  predicate EndpointAllowed(p: Policy, raw: Bytes) {
    && p.utf8(raw)
    && raw != []
    && !([SLASH, SLASH] <= raw)
    && p.sameOrigin(raw)
  }

  /** Why an event is refused, in the order of the code's checks; None when accepted. */
  function EventError(p: Policy, lines: seq<Bytes>): Option<GuardError> {
    match ReadLines(p, lines, Fields(MESSAGE_NAME, []))
    case None => Some(ProtocolError)
    case Some(f) =>
      if DataSize(f.data) > p.maxBytes then Some(TooLarge)
      else if p.validateEndpoint && f.name == ENDPOINT_NAME && !EndpointAllowed(p, Join(f.data, [LF]))
      then Some(ProtocolError)
      else None
  }

  function Frame(lines: seq<Bytes>): Bytes {
    Join(lines, [LF]) + [LF, LF]
  }

  // ----- The feed loop -----

  /** The state after one complete line has been cut off the buffer. */
  function CutLine(st: State): (r: (Bytes, State))
    requires BreakWidth(st.buffer) > 0
    ensures |r.1.buffer| < |st.buffer|
  {
    var i, w := FirstBreak(st.buffer), BreakWidth(st.buffer);
    (st.buffer[..i], State(st.buffer[i + w..], st.lines, st.size + i + w))
  }

  function Drain(p: Policy, st: State): Outcome
    decreases |st.buffer|
  {
    if BreakWidth(st.buffer) == 0 then
      if st.size + |st.buffer| > p.maxBytes then Raised(TooLarge, st) else Released([], st)
    else
      var (line, cut) := CutLine(st);
      if cut.size > p.maxBytes then Raised(TooLarge, cut)
      else if line != [] then Drain(p, cut.(lines := cut.lines + [line]))
      else
        var closed := State(cut.buffer, [], 0);
        match EventError(p, cut.lines)
        case Some(e) => Raised(e, closed)
        case None => Prepend([Frame(cut.lines)], Drain(p, closed))
  }

  function Prepend(frames: seq<Bytes>, o: Outcome): Outcome {
    match o
    case Released(fs, st) => Released(frames + fs, st)
    case Raised(_, _) => o
  }

  lemma PrependPrepend(a: seq<Bytes>, b: seq<Bytes>, o: Outcome)
    ensures Prepend(a, Prepend(b, o)) == Prepend(a + b, o)
    ensures Prepend([], o) == o
  {
    if o.Released? {
      assert a + (b + o.frames) == (a + b) + o.frames;
      assert [] + o.frames == o.frames;
    }
  }

  function Append(st: State, chunk: Bytes): State {
    st.(buffer := st.buffer + chunk)
  }

  function Feed(p: Policy, st: State, chunk: Bytes): Outcome {
    Drain(p, Append(st, chunk))
  }

  /** Successive calls of `feed`, stopping at the first error. */
  function FeedAll(p: Policy, st: State, chunks: seq<Bytes>): Outcome
    decreases |chunks|
  {
    if chunks == [] then Released([], st)
    else match Feed(p, st, chunks[0])
      case Raised(e, left) => Raised(e, left)
      case Released(fs, next) => Prepend(fs, FeedAll(p, next, chunks[1..]))
  }

  /** Same frames and state without an error, same first error otherwise. */
  predicate Same(a: Outcome, b: Outcome) {
    match (a, b)
    case (Released(fa, sa), Released(fb, sb)) => fa == fb && sa == sb
    case (Raised(ea, _), Raised(eb, _)) => ea == eb
    case _ => false
  }

  // ----- The class -----

  /** The guard as the object the stream reader owns. */
  class FrameGuard {
    const policy: Policy
    var buffer: Bytes
    var lines: seq<Bytes>
    var size: nat

    function View(): State
      reads this
    {
      State(buffer, lines, size)
    }

    constructor (policy: Policy)
      ensures this.policy == policy && View() == FRESH
    {
      this.policy := policy;
      buffer, lines, size := [], [], 0;
    }

    /** Index and width of the first complete line break, as a scan over the buffer. */
    method NextLineBoundary() returns (r: Option<(nat, nat)>)
      ensures r.None? <==> BreakWidth(buffer) == 0
      ensures r.Some? ==> r.value == (FirstBreak(buffer), BreakWidth(buffer))
    {
      var index := 0;
      while index < |buffer|
        invariant 0 <= index <= |buffer|
        invariant FirstBreak(buffer) == index + FirstBreak(buffer[index..])
      {
        var value := buffer[index];
        if value == LF {
          return Some((index, 1));
        }
        if value == CR {
          if index + 1 == |buffer| {
            return None;
          }
          return Some((index, if buffer[index + 1] == LF then 2 else 1));
        }
        assert buffer[index..][1..] == buffer[index + 1..];
        index := index + 1;
      }
      return None;
    }

    /** Closes the event under construction and renders it, or says why it is refused. */
    method FinishEvent() returns (r: Result<Bytes, GuardError>)
      modifies this`lines, this`size
      ensures lines == [] && size == 0
      ensures match EventError(policy, old(lines))
              case Some(e) => r == Err(e)
              case None => r == Ok(Frame(old(lines)))
    {
      var closed := lines;
      lines, size := [], 0;
      var fields := Fields(MESSAGE_NAME, []);
      var i := 0;
      while i < |closed|
        invariant 0 <= i <= |closed|
        invariant ReadLines(policy, closed, Fields(MESSAGE_NAME, [])) == ReadLines(policy, closed[i..], fields)
      {
        assert closed[i..][1..] == closed[i + 1..];
        var next := ReadLine(policy, closed[i], fields);
        if next.None? {
          return Err(ProtocolError);
        }
        fields := next.value;
        i := i + 1;
      }
      if DataSize(fields.data) > policy.maxBytes {
        return Err(TooLarge);
      }
      if policy.validateEndpoint && fields.name == ENDPOINT_NAME {
        if !EndpointAllowed(policy, Join(fields.data, [LF])) {
          return Err(ProtocolError);
        }
      }
      return Ok(Frame(closed));
    }

    /** One network chunk in, the completed frames out. */
    method FeedChunk(chunk: Bytes) returns (r: Result<seq<Bytes>, GuardError>)
      modifies this
      ensures match Feed(policy, old(View()), chunk)
              case Released(frames, next) => r == Ok(frames) && View() == next
              case Raised(e, left) => r == Err(e) && View() == left
    {
      buffer := buffer + chunk;
      ghost var start := View();
      var frames: seq<Bytes> := [];
      while true
        invariant Drain(policy, start) == Prepend(frames, Drain(policy, View()))
        decreases |buffer|
      {
        ghost var before := View();
        var boundary := NextLineBoundary();
        if boundary.None? {
          if size + |buffer| > policy.maxBytes {
            return Err(TooLarge);
          }
          assert frames + [] == frames;
          return Ok(frames);
        }
        var (index, width) := boundary.value;
        ghost var cut := CutLine(before);
        var line := buffer[..index];
        buffer := buffer[index + width..];
        size := size + |line| + width;
        assert line == cut.0 && buffer == cut.1.buffer;
        assert View() == cut.1;
        if size > policy.maxBytes {
          return Err(TooLarge);
        }
        if line != [] {
          lines := lines + [line];
          assert Drain(policy, before) == Drain(policy, View());
        } else {
          var frame := FinishEvent();
          if frame.Err? {
            return Err(frame.error);
          }
          assert Drain(policy, before) == Prepend([frame.value], Drain(policy, View()));
          PrependPrepend(frames, [frame.value], Drain(policy, View()));
          frames := frames + [frame.value];
        }
      }
    }
  }
}
