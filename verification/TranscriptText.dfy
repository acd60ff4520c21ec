/**
 The text that a successful call returns: what becomes of each message, of the instructions and of the question.
 */
module TranscriptText {
  import opened Common
  import opened Transcript
  import opened TranscriptGrammar

  // ----- Whitespace -----

  /** The characters that Python's `str.isspace` holds of. */
  const SPACES: set<char> := {
    '\t', '\n', '\U{B}', '\U{C}', '\r', '\U{1C}', '\U{1D}', '\U{1E}', '\U{1F}', ' ', '\U{85}', '\U{A0}', '\U{1680}',
    '\U{2000}', '\U{2001}', '\U{2002}', '\U{2003}', '\U{2004}', '\U{2005}', '\U{2006}', '\U{2007}', '\U{2008}',
    '\U{2009}', '\U{200A}', '\U{2028}', '\U{2029}', '\U{202F}', '\U{205F}', '\U{3000}'}

  lemma SpacesAre(c: char)
    ensures IsSpace(c) <==> c in SPACES
  {
  }

  predicate AllSpace(s: string) {
    forall i :: 0 <= i < |s| ==> s[i] in SPACES
  }

  /** The middle of a text, without the spaces around it. */
  predicate Trimmed(s: string, t: string) {
    && (exists i, j :: 0 <= i <= j <= |s| && t == s[i..j] && AllSpace(s[..i]) && AllSpace(s[j..]))
    && (t != [] ==> t[0] !in SPACES && t[|t| - 1] !in SPACES)
  }

  lemma {:induction false} StripLeftIs(s: string) returns (i: nat)
    ensures i <= |s| && StripLeft(s) == s[i..] && AllSpace(s[..i])
    ensures i < |s| ==> s[i] !in SPACES
  {
    hide SPACES, IsSpace;
    if s != [] {
      SpacesAre(s[0]);
    }
    if s != [] && IsSpace(s[0]) {
      i := StripLeftIs(s[1..]);
      assert s[1..][i..] == s[i + 1..];
      assert s[..i + 1] == [s[0]] + s[1..][..i];
      i := i + 1;
    } else {
      i := 0;
    }
  }

  lemma {:induction false} StripRightIs(s: string) returns (j: nat)
    ensures j <= |s| && StripRight(s) == s[..j] && AllSpace(s[j..])
    ensures j > 0 ==> s[j - 1] !in SPACES
  {
    hide SPACES, IsSpace;
    if s != [] {
      SpacesAre(s[|s| - 1]);
    }
    if s != [] && IsSpace(s[|s| - 1]) {
      j := StripRightIs(s[..|s| - 1]);
      assert s[j..] == s[..|s| - 1][j..] + [s[|s| - 1]];
    } else {
      j := |s|;
    }
  }

  lemma StripTrims(s: string)
    ensures Trimmed(s, Strip(s))
  {
    hide SPACES, IsSpace, StripLeft, StripRight;
    var i := StripLeftIs(s);
    var j := StripRightIs(s[i..]);
    assert Strip(s) == s[i..][..j] == s[i..i + j];
    assert s[i + j..] == s[i..][j..];
    if j > 0 {
      assert Strip(s)[0] == s[i] && Strip(s)[j - 1] == s[i..][j - 1];
    }
  }

  // ----- Line breaks -----

  /** The same lines, with a line feed for every break, whether it was CRLF, CR or LF. */
  ghost predicate SameLines(s: string, t: string)
    decreases |s|
  {
    if s == [] then t == []
    else if "\r\n" <= s then t != [] && t[0] == '\n' && SameLines(s[2..], t[1..])
    else if s[0] == '\r' then t != [] && t[0] == '\n' && SameLines(s[1..], t[1..])
    else t != [] && t[0] == s[0] && SameLines(s[1..], t[1..])
  }

  lemma {:induction false} BreaksAreReplaced(s: string)
    ensures SameLines(s, ReplaceBreaks(s)) && '\r' !in ReplaceBreaks(s)
    decreases |s|
  {
    if s != [] {
      BreaksAreReplaced(if "\r\n" <= s then s[2..] else s[1..]);
    }
  }

  // ----- Envelopes -----

  /** `text` holds `original` as an untrusted element: one opening tag, one closing tag, no other angle bracket, and between
      them what reads back as the original, where each character that XML 1.0 does not have is replaced. */
  ghost predicate Sealed(text: string, tag: string, original: string) {
    exists inner ::
      && text == "<" + tag + " trust=\"untrusted\">" + inner + "</" + tag + ">"
      && '<' !in inner && '>' !in inner
      && |Unescape(inner)| == |original|
      && forall i :: 0 <= i < |original| ==>
           Unescape(inner)[i] == if InXml(original[i]) then original[i] else '\U{FFFD}'
  }

  /** The characters of section 2.2 of XML 1.0: no controls but tab, line feed and return, and no non-characters. */
  predicate InXml(c: char) {
    c in {'\t', '\n', '\r'} || (c as int >= 0x20 && c as int != 0xFFFE && c as int != 0xFFFF)
  }

  lemma {:induction false} XmlSafeIs(s: string)
    ensures |XmlSafe(s)| == |s|
    ensures forall i :: 0 <= i < |s| ==> XmlSafe(s)[i] == if InXml(s[i]) then s[i] else '\U{FFFD}'
  {
    if s != [] {
      XmlSafeIs(s[1..]);
    }
  }

  lemma EnvelopeSeals(tag: string, content: string)
    ensures Sealed(Envelope(tag, content), tag, content)
  {
    hide Unescape, Escape, XmlSafe, InXml;
    var inner := Escape(XmlSafe(content));
    EnvelopeIsSealed(XmlSafe(content));
    XmlSafeIs(content);
    assert Envelope(tag, content) == "<" + tag + " trust=\"untrusted\">" + inner + "</" + tag + ">";
  }

  // ----- What is returned -----

  /** What becomes of a message. */
  ghost predicate Carries(cfg: Config, m: Message, e: Entry) {
    match m
    case Instruction(_) => false
    case User(content) => e == Entry(UserRole, content, [], None)
    case Assistant(content, calls) => e == Entry(AssistantRole, content, calls, None)
    case Tool(content, id) =>
      && e.role == ToolRole && e.calls == [] && e.callId == Some(id)
      && exists n :: 0 <= n <= |content| && (n < |content| ==> n == cfg.maxResult) && n <= cfg.maxResult
                     && Sealed(e.content, "CLIENT_TOOL_RESULT", content[..n])
  }

  lemma RenderedCarries(cfg: Config, m: Message)
    requires !m.Instruction?
    ensures Carries(cfg, m, Rendered(cfg, m))
  {
    hide Sealed, Envelope;
    if m.Tool? {
      var n := if |m.content| > cfg.maxResult then cfg.maxResult else |m.content|;
      assert m.content[..n] == if |m.content| > cfg.maxResult then m.content[..cfg.maxResult] else m.content;
      EnvelopeSeals("CLIENT_TOOL_RESULT", m.content[..n]);
    }
  }

  /** The instruction with its line breaks unified, trimmed. */
  ghost predicate Tidied(content: string, part: string) {
    exists plain :: SameLines(content, plain) && Trimmed(plain, part)
  }

  /** The instructions, each tidied, joined by empty lines. */
  ghost predicate Instructions(ms: seq<Message>, joined: string) {
    exists parts: seq<string> :: |parts| == |ms| && joined == Join(parts, "\n\n")
      && forall i :: 0 <= i < |ms| ==> ms[i].Instruction? && Tidied(ms[i].content, parts[i])
  }

  /** The first `k` messages are instructions, sealed as one element if there are any, and each other
      message is carried in its place. */
  ghost predicate Returns(cfg: Config, ms: seq<Message>, n: Normalized, k: nat, joined: string) {
    && k < |ms| && |n.transcript| == |ms| - k
    && (forall i :: 0 <= i < |ms| - k ==> Carries(cfg, ms[k..][i], n.transcript[i]))
    && Instructions(ms[..k], joined) && |joined| <= cfg.maxInstructions
    && (if k == 0 then n.instructions == None
        else n.instructions.Some? && Sealed(n.instructions.value, "CLIENT_AGENT_INSTRUCTIONS", joined))
  }

  /** The question is the text of the last user message, trimmed. */
  ghost predicate Asks(ms: seq<Message>, u: nat, question: string) {
    && u < |ms| && ms[u].User? && (forall v :: u < v < |ms| ==> !ms[v].User?)
    && Trimmed(ms[u].content, question) && question != []
  }

  /** What a successful call returns, said of the messages. */
  lemma ReturnsTheMessages(cfg: Config, ms: seq<Message>, n: Normalized) returns (k: nat, joined: string, u: nat)
    requires Verdict(cfg, ms).Ok? && Output(cfg, ms, Verdict(cfg, ms).value, n)
    ensures Returns(cfg, ms, n, k, joined)
    ensures Asks(ms, u, n.question)
    ensures n.toolContinuation <==> ms[|ms| - 1].Tool?
  {
    hide Carries, Sealed, Envelope, Instructions, Asks, InstructionText, Verdict, Strip, Rendered;
    k := Leading(ms);
    joined := InstructionText(ms);
    MessagesAreCarried(cfg, ms[k..], n.transcript);
    InstructionsAre(ms);
    AcceptedInstructionsFit(cfg, ms);
    EnvelopeSeals("CLIENT_AGENT_INSTRUCTIONS", joined);
    u := QuestionIs(cfg, ms);
    assert ms[k..][|ms| - k - 1] == ms[|ms| - 1];
  }

  lemma MessagesAreCarried(cfg: Config, ms: seq<Message>, transcript: seq<Entry>)
    requires Ordinary(ms) && |transcript| == |ms|
    requires forall i :: 0 <= i < |ms| ==> transcript[i] == Rendered(cfg, ms[i])
    ensures forall i :: 0 <= i < |ms| ==> Carries(cfg, ms[i], transcript[i])
  {
    hide Carries, Rendered;
    forall i | 0 <= i < |ms|
      ensures Carries(cfg, ms[i], transcript[i])
    {
      RenderedCarries(cfg, ms[i]);
    }
  }

  lemma AcceptedInstructionsFit(cfg: Config, ms: seq<Message>)
    requires Verdict(cfg, ms).Ok?
    ensures |InstructionText(ms)| <= cfg.maxInstructions
  {
    hide InstructionText, Pass, Strip;
  }

  lemma QuestionIs(cfg: Config, ms: seq<Message>) returns (u: nat)
    requires Verdict(cfg, ms).Ok?
    ensures Asks(ms, u, Strip(Verdict(cfg, ms).value))
  {
    hide Pass, Strip, InstructionText, Trimmed;
    var k := Leading(ms);
    u := LastUserIs(cfg, START, ms[k..]);
    StripTrims(Verdict(cfg, ms).value);
    hide Verdict, Ordinary;
    AsksLater(ms, k, u, Strip(ms[k..][u].content));
    u := k + u;
  }

  lemma AsksLater(ms: seq<Message>, k: nat, u: nat, question: string)
    requires k <= |ms| && Asks(ms[k..], u, question)
    ensures Asks(ms, k + u, question)
  {
    hide Trimmed;
    assert forall v :: k + u < v < |ms| ==> ms[v] == ms[k..][v - k];
  }

  lemma InstructionsAre(ms: seq<Message>)
    ensures Instructions(ms[..Leading(ms)], InstructionText(ms))
  {
    hide SameLines, Trimmed, Strip, ReplaceBreaks, Join;
    var texts := ms[..Leading(ms)];
    var parts := InstructionTexts(texts);
    forall i | 0 <= i < |texts|
      ensures Tidied(texts[i].content, parts[i])
    {
      BreaksAreReplaced(texts[i].content);
      StripTrims(ReplaceBreaks(texts[i].content));
      assert parts[i] == Strip(ReplaceBreaks(texts[i].content));
    }
    assert InstructionText(ms) == Join(parts, "\n\n");
  }

  /** The last user text of the loop is that of the last user message. */
  lemma {:induction false} LastUserIs(cfg: Config, st: Link, ms: seq<Message>) returns (u: nat)
    requires Ordinary(ms) && Pass(cfg, st, ms).Ok?
    requires Pass(cfg, st, ms).value.lastUser != st.lastUser || (exists i :: 0 <= i < |ms| && ms[i].User?)
    ensures u < |ms| && ms[u].User? && Pass(cfg, st, ms).value.lastUser == Some(ms[u].content)
    ensures forall v :: u < v < |ms| ==> !ms[v].User?
    decreases |ms|
  {
    var next := Advance(cfg, st, ms[0]).value;
    if ms[0].Assistant? {
      AddCallsMeans(cfg, st, ms[0].calls);
    }
    assert forall i :: 0 < i < |ms| ==> ms[i] == ms[1..][i - 1];
    hide Advance;
    if Pass(cfg, next, ms[1..]).value.lastUser != next.lastUser || (exists i :: 0 <= i < |ms[1..]| && ms[1..][i].User?) {
      u := LastUserIs(cfg, next, ms[1..]);
      u := u + 1;
    } else {
      u := 0;
    }
  }
}
