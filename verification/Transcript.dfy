/**
 Validation of client-owned agent transcripts (`normalize_agent_messages`): the
 instruction prefix, the linkage of tool calls and results, and the final checks.
 */
module Transcript {
  import opened Common

  /** A declared function call; the argument string is passed through unread. */
  datatype Call = Call(id: string, name: string, arguments: string)

  datatype Message =
    | Instruction(content: string)
    | User(content: string)
    | Assistant(content: string, calls: seq<Call>)   // `tool_calls or []`
    | Tool(content: string, callId: string)

  datatype Error =
    | InstructionNotLeading
    | InstructionsTooLong
    | UnresolvedBeforeMessage
    | DuplicateCallId
    | UndeclaredFunction
    | DuplicateResult
    | UnmatchedResult
    | UnresolvedAtEnd
    | EndsWithAssistant
    | NoUserText

  /** Request settings: declared names and the two character limits, both positive. */
  datatype Config = Config(names: set<string>, maxInstructions: nat, maxResult: nat)

  datatype Role = UserRole | AssistantRole | ToolRole

  datatype Entry = Entry(role: Role, content: string, calls: seq<Call>, callId: Option<string>)

  datatype Normalized = Normalized(
    transcript: seq<Entry>,
    instructions: Option<string>,
    question: string,
    toolContinuation: bool)

  // ----- Text -----

  /** Characters that `str.strip` removes. */
  predicate IsSpace(c: char) {
    || '\t' <= c <= '\r' || '\U{1C}' <= c <= ' ' || c == '\U{85}' || c == '\U{A0}' || c == '\U{1680}'
    || '\U{2000}' <= c <= '\U{200A}' || c == '\U{2028}' || c == '\U{2029}' || c == '\U{202F}'
    || c == '\U{205F}' || c == '\U{3000}'
  }

  function StripLeft(s: string): string {
    if s != [] && IsSpace(s[0]) then StripLeft(s[1..]) else s
  }

  function StripRight(s: string): string {
    if s != [] && IsSpace(s[|s| - 1]) then StripRight(s[..|s| - 1]) else s
  }

  function Strip(s: string): string {
    StripRight(StripLeft(s))
  }

  predicate Blank(s: string) {
    forall i :: 0 <= i < |s| ==> IsSpace(s[i])
  }

  lemma {:induction false} StripLeftBlank(s: string)
    ensures StripLeft(s) == [] <==> Blank(s)
    ensures StripLeft(s) != [] ==> !IsSpace(StripLeft(s)[0])
  {
    if s != [] && IsSpace(s[0]) {
      StripLeftBlank(s[1..]);
      assert Blank(s[1..]) ==> Blank(s) by {
        assert forall i :: 1 <= i < |s| ==> s[i] == s[1..][i - 1];
      }
    }
  }

  lemma {:induction false} StripRightKeeps(s: string)
    requires s != [] && !IsSpace(s[0])
    ensures StripRight(s) != []
  {
    if IsSpace(s[|s| - 1]) {
      StripRightKeeps(s[..|s| - 1]);
    }
  }

  /** Stripping leaves nothing exactly of a blank text. */
  lemma StripBlank(s: string)
    ensures Strip(s) == [] <==> Blank(s)
  {
    StripLeftBlank(s);
    if !Blank(s) {
      StripRightKeeps(StripLeft(s));
    }
  }

  /** `replace("\r\n", "\n").replace("\r", "\n").strip()`. */
  function ReplaceBreaks(s: string): string {
    if s == [] then []
    else if s[0] == '\r' then ['\n'] + ReplaceBreaks(if |s| > 1 && s[1] == '\n' then s[2..] else s[1..])
    else [s[0]] + ReplaceBreaks(s[1..])
  }

  function NormalizeInstruction(s: string): string {
    Strip(ReplaceBreaks(s))
  }

  predicate ValidXmlCharacter(c: char) {
    || c == '\t' || c == '\n' || c == '\r'
    || ' ' <= c <= '\U{D7FF}' || '\U{E000}' <= c <= '\U{FFFD}' || '\U{10000}' <= c <= '\U{10FFFF}'
  }

  function XmlSafe(s: string): string {
    if s == [] then [] else [if ValidXmlCharacter(s[0]) then s[0] else '\U{FFFD}'] + XmlSafe(s[1..])
  }

  /** Character data as the XML serializer escapes it. */
  function Escape(s: string): string {
    if s == [] then []
    else (if s[0] == '&' then "&amp;" else if s[0] == '<' then "&lt;" else if s[0] == '>' then "&gt;" else [s[0]])
         + Escape(s[1..])
  }

  const RESULT_TAG: string := "CLIENT_TOOL_RESULT"
  const INSTRUCTIONS_TAG: string := "CLIENT_AGENT_INSTRUCTIONS"

  function Envelope(tag: string, content: string): string {
    "<" + tag + " trust=\"untrusted\">" + Escape(XmlSafe(content)) + "</" + tag + ">"
  }

  // ----- The pass over the messages -----

  function Rendered(cfg: Config, m: Message): Entry
    requires !m.Instruction?
  {
    match m
    case User(content) => Entry(UserRole, content, [], None)
    case Assistant(content, calls) => Entry(AssistantRole, content, calls, None)
    case Tool(content, id) =>
      var bounded := if |content| > cfg.maxResult then content[..cfg.maxResult] else content;
      Entry(ToolRole, Envelope(RESULT_TAG, bounded), [], Some(id))
  }

  predicate Ordinary(ms: seq<Message>) {
    forall i :: 0 <= i < |ms| ==> !ms[i].Instruction?
  }

  /** The loop's variables: ids seen and resolved, pending calls with their function
      names, and the last user text. */
  datatype Link = Link(seen: set<string>, resolved: set<string>, pending: map<string, string>, lastUser: Option<string>)

  const START: Link := Link({}, {}, map[], None)

  function AddCalls(cfg: Config, st: Link, calls: seq<Call>): Result<Link, Error>
    decreases |calls|
  {
    if calls == [] then Ok(st)
    else
      var c := calls[0];
      if c.id in st.seen then Err(DuplicateCallId)
      else if c.name !in cfg.names then Err(UndeclaredFunction)
      else AddCalls(cfg, st.(seen := st.seen + {c.id}, pending := st.pending[c.id := c.name]), calls[1..])
  }

  function Advance(cfg: Config, st: Link, m: Message): Result<Link, Error>
    requires !m.Instruction?
  {
    if st.pending != map[] && !m.Tool? then Err(UnresolvedBeforeMessage)
    else match m
      case User(content) => Ok(st.(lastUser := Some(content)))
      case Assistant(_, calls) => AddCalls(cfg, st, calls)
      case Tool(_, id) =>
        if id in st.resolved then Err(DuplicateResult)
        else if id !in st.pending then Err(UnmatchedResult)
        else Ok(st.(pending := st.pending - {id}, resolved := st.resolved + {id}))
  }

  function Pass(cfg: Config, st: Link, ms: seq<Message>): Result<Link, Error>
    requires Ordinary(ms)
    decreases |ms|
  {
    if ms == [] then Ok(st)
    else match Advance(cfg, st, ms[0])
      case Err(e) => Err(e)
      case Ok(next) => Pass(cfg, next, ms[1..])
  }

  /** Number of leading instructions. */
  function Leading(ms: seq<Message>): (k: nat)
    ensures k <= |ms|
    ensures forall i :: 0 <= i < k ==> ms[i].Instruction?
    ensures k < |ms| ==> !ms[k].Instruction?
  {
    if ms == [] || !ms[0].Instruction? then 0 else 1 + Leading(ms[1..])
  }

  function InstructionTexts(ms: seq<Message>): (r: seq<string>)
    requires forall i :: 0 <= i < |ms| ==> ms[i].Instruction?
    ensures |r| == |ms|
  {
    seq(|ms|, i requires 0 <= i < |ms| => NormalizeInstruction(ms[i].content))
  }

  function InstructionText(ms: seq<Message>): string {
    Join(InstructionTexts(ms[..Leading(ms)]), "\n\n")
  }

  /** The first failing check, or the last user text. */
  function Verdict(cfg: Config, ms: seq<Message>): Result<string, Error> {
    var k := Leading(ms);
    if !Ordinary(ms[k..]) then Err(InstructionNotLeading)
    else if |InstructionText(ms)| > cfg.maxInstructions then Err(InstructionsTooLong)
    else match Pass(cfg, START, ms[k..])
      case Err(e) => Err(e)
      case Ok(st) =>
        if st.pending != map[] then Err(UnresolvedAtEnd)
        else if k == |ms| || ms[|ms| - 1].Assistant? then Err(EndsWithAssistant)
        else if st.lastUser == None || Strip(st.lastUser.value) == [] then Err(NoUserText)
        else Ok(st.lastUser.value)
  }

  /** Everything a successful call returns, in terms of its input. */
  predicate Output(cfg: Config, ms: seq<Message>, lastUser: string, n: Normalized) {
    var k := Leading(ms);
    && Ordinary(ms[k..]) && k < |ms|
    && |n.transcript| == |ms| - k
    && (forall i :: 0 <= i < |ms| - k ==> n.transcript[i] == Rendered(cfg, ms[k..][i]))
    && n.instructions == (if k == 0 then None else Some(Envelope(INSTRUCTIONS_TAG, InstructionText(ms))))
    && n.question == Strip(lastUser)
    && n.toolContinuation == ms[|ms| - 1].Tool?
  }

  /** Splits the leading instructions off; an instruction further on is an error. */
  method CollectInstructions(messages: seq<Message>) returns (r: Result<(seq<string>, seq<Message>), Error>)
    ensures
      var k := Leading(messages);
      if Ordinary(messages[k..]) then r == Ok((InstructionTexts(messages[..k]), messages[k..]))
      else r == Err(InstructionNotLeading)
  {
    hide NormalizeInstruction;
    ghost var k := Leading(messages);
    var parts: seq<string> := [];
    var ordinary: seq<Message> := [];
    var prefixOpen := true;
    for index := 0 to |messages|
      invariant prefixOpen <==> index <= k
      invariant prefixOpen ==> ordinary == [] && parts == InstructionTexts(messages[..index])
      invariant !prefixOpen ==> ordinary == messages[k..index] && parts == InstructionTexts(messages[..k])
      invariant Ordinary(ordinary)
    {
      var message := messages[index];
      if message.Instruction? {
        if !prefixOpen {
          assert messages[k..][index - k] == message;
          return Err(InstructionNotLeading);
        }
        assert messages[..index + 1] == messages[..index] + [message];
        parts := parts + [NormalizeInstruction(message.content)];
      } else {
        prefixOpen := false;
        ordinary := ordinary + [message];
      }
    }
    assert ordinary == messages[k..];
    return Ok((parts, ordinary));
  }

  method AddToolCalls(cfg: Config, st: Link, calls: seq<Call>) returns (r: Result<Link, Error>)
    ensures r == AddCalls(cfg, st, calls)
  {
    var seen, pending := st.seen, st.pending;
    for j := 0 to |calls|
      invariant AddCalls(cfg, st, calls) == AddCalls(cfg, st.(seen := seen, pending := pending), calls[j..])
    {
      assert calls[j..][0] == calls[j] && calls[j..][1..] == calls[j + 1..];
      if calls[j].id in seen {
        return Err(DuplicateCallId);
      }
      if calls[j].name !in cfg.names {
        return Err(UndeclaredFunction);
      }
      seen := seen + {calls[j].id};
      pending := pending[calls[j].id := calls[j].name];
    }
    return Ok(st.(seen := seen, pending := pending));
  }

  /** The linkage loop over the ordinary messages. */
  method LinkToolCalls(cfg: Config, ordinary: seq<Message>) returns (r: Result<(seq<Entry>, Link), Error>)
    requires Ordinary(ordinary)
    ensures match Pass(cfg, START, ordinary)
            case Err(e) => r == Err(e)
            case Ok(st) =>
              && r.Ok? && r.value.1 == st && |r.value.0| == |ordinary|
              && forall i :: 0 <= i < |ordinary| ==> r.value.0[i] == Rendered(cfg, ordinary[i])
  {
    hide Rendered, AddCalls;
    var st := START;
    var transcript: seq<Entry> := [];
    assert ordinary[0..] == ordinary;
    for index := 0 to |ordinary|
      invariant |transcript| == index
      invariant forall i :: 0 <= i < index ==> transcript[i] == Rendered(cfg, ordinary[i])
      invariant Pass(cfg, START, ordinary) == Pass(cfg, st, ordinary[index..])
    {
      var message := ordinary[index];
      assert ordinary[index..][0] == message && ordinary[index..][1..] == ordinary[index + 1..];
      if st.pending != map[] && !message.Tool? {
        return Err(UnresolvedBeforeMessage);
      }
      match message {
        case User(content) =>
          st := st.(lastUser := Some(content));
        case Assistant(_, calls) =>
          var added := AddToolCalls(cfg, st, calls);
          if added.Err? {
            return Err(added.error);
          }
          st := added.value;
        case Tool(_, callId) =>
          if callId in st.resolved {
            return Err(DuplicateResult);
          }
          if callId !in st.pending {
            return Err(UnmatchedResult);
          }
          st := st.(pending := st.pending - {callId}, resolved := st.resolved + {callId});
      }
      transcript := transcript + [Rendered(cfg, message)];
    }
    return Ok((transcript, st));
  }

  method NormalizeAgentMessages(cfg: Config, messages: seq<Message>) returns (r: Result<Normalized, Error>)
    ensures match Verdict(cfg, messages)
            case Err(e) => r == Err(e)
            case Ok(lastUser) => r.Ok? && Output(cfg, messages, lastUser, r.value)
  {
    hide Rendered, Pass, Strip, Envelope, Join, InstructionTexts, Leading, Ordinary;
    var split := CollectInstructions(messages);
    if split.Err? {
      return Err(split.error);
    }
    var (parts, ordinary) := split.value;
    var instructions := Join(parts, "\n\n");
    if |instructions| > cfg.maxInstructions {
      return Err(InstructionsTooLong);
    }
    var linked := LinkToolCalls(cfg, ordinary);
    if linked.Err? {
      return Err(linked.error);
    }
    var (transcript, st) := linked.value;
    if st.pending != map[] {
      return Err(UnresolvedAtEnd);
    }
    if ordinary == [] || ordinary[|ordinary| - 1].Assistant? {
      return Err(EndsWithAssistant);
    }
    if st.lastUser == None || Strip(st.lastUser.value) == [] {
      return Err(NoUserText);
    }
    return Ok(Normalized(
      transcript,
      if parts == [] then None else Some(Envelope(INSTRUCTIONS_TAG, instructions)),
      Strip(st.lastUser.value),
      ordinary[|ordinary| - 1].Tool?));
  }
}
