/**
 Why a transcript is refused: each error names something that is wrong with the messages.
 */
module TranscriptErrors {
  import opened Common
  import opened Transcript
  import opened TranscriptGrammar
  import opened TranscriptText

  /** The ids of the calls that the messages make. */
  function Called(ms: seq<Message>): set<string>
    decreases |ms|
  {
    if ms == [] then {}
    else
      var m := ms[|ms| - 1];
      Called(ms[..|ms| - 1]) + if m.Assistant? then Elements(CallIds(m.calls)) else {}
  }

  /** The ids that the messages give results for. */
  function Answered(ms: seq<Message>): set<string>
    decreases |ms|
  {
    if ms == [] then {}
    else
      var m := ms[|ms| - 1];
      Answered(ms[..|ms| - 1]) + if m.Tool? then {m.callId} else {}
  }

  /** What error `e` says of message `m` after the messages `before`. */
  predicate Wrong(cfg: Config, before: seq<Message>, m: Message, e: Error) {
    match e
    case UnresolvedBeforeMessage => !m.Tool? && Called(before) - Answered(before) != {}
    case DuplicateCallId => m.Assistant? && !(Distinct(CallIds(m.calls)) && Elements(CallIds(m.calls)) !! Called(before))
    case UndeclaredFunction => m.Assistant? && exists j :: 0 <= j < |m.calls| && m.calls[j].name !in cfg.names
    case DuplicateResult => m.Tool? && m.callId in Answered(before)
    case UnmatchedResult => m.Tool? && m.callId !in Called(before)
    case _ => false
  }

  /** The loop's variables are what the messages so far say. */
  predicate Agrees(st: Link, done: seq<Message>) {
    st.seen == Called(done) && st.resolved == Answered(done) && st.resolved <= st.seen
    && st.pending.Keys == st.seen - st.resolved
  }

  lemma {:induction false} WhyCallsFail(cfg: Config, st: Link, calls: seq<Call>)
    requires AddCalls(cfg, st, calls).Err?
    ensures AddCalls(cfg, st, calls).error in {DuplicateCallId, UndeclaredFunction}
    ensures AddCalls(cfg, st, calls).error == DuplicateCallId ==> !(Distinct(CallIds(calls)) && Elements(CallIds(calls)) !! st.seen)
    ensures AddCalls(cfg, st, calls).error == UndeclaredFunction ==> exists j :: 0 <= j < |calls| && calls[j].name !in cfg.names
    decreases |calls|
  {
    var c := calls[0];
    assert CallIds(calls) == [c.id] + CallIds(calls[1..]) && c.id in Elements(CallIds(calls));
    if c.id !in st.seen && c.name in cfg.names {
      WhyCallsFail(cfg, st.(seen := st.seen + {c.id}, pending := st.pending[c.id := c.name]), calls[1..]);
      DistinctAppend([c.id], CallIds(calls[1..]));
      assert forall j :: 0 <= j < |calls[1..]| ==> calls[1..][j] == calls[j + 1];
    }
  }

  lemma OneMore(done: seq<Message>, m: Message)
    ensures Called(done + [m]) == Called(done) + if m.Assistant? then Elements(CallIds(m.calls)) else {}
    ensures Answered(done + [m]) == Answered(done) + if m.Tool? then {m.callId} else {}
  {
    assert (done + [m])[..|done|] == done;
  }

  lemma AdvanceAgrees(cfg: Config, st: Link, done: seq<Message>, m: Message)
    requires Agrees(st, done) && !m.Instruction?
    ensures Advance(cfg, st, m).Ok? ==> Agrees(Advance(cfg, st, m).value, done + [m])
    ensures Advance(cfg, st, m).Err? ==> Wrong(cfg, done, m, Advance(cfg, st, m).error)
  {
    OneMore(done, m);
    if m.Assistant? && st.pending == map[] {
      AddCallsMeans(cfg, st, m.calls);
      if AddCalls(cfg, st, m.calls).Err? {
        WhyCallsFail(cfg, st, m.calls);
      }
    }
    assert st.pending != map[] ==> st.pending.Keys != {};
  }

  /** The pass stops at the first message that is wrong, and says what is. */
  lemma {:induction false} StopsAtTheFault(cfg: Config, st: Link, done: seq<Message>, ms: seq<Message>) returns (i: nat)
    requires Agrees(st, done) && Ordinary(ms)
    ensures Pass(cfg, st, ms).Ok? ==> Agrees(Pass(cfg, st, ms).value, done + ms)
    ensures Pass(cfg, st, ms).Err? ==> i < |ms| && Wrong(cfg, done + ms[..i], ms[i], Pass(cfg, st, ms).error)
    decreases |ms|
  {
    i := 0;
    if ms == [] {
      assert done + ms == done;
    } else {
      hide Advance, Agrees, Wrong, Called, Answered;
      var m, rest := ms[0], ms[1..];
      AdvanceAgrees(cfg, st, done, m);
      if Advance(cfg, st, m).Ok? {
        var later := StopsAtTheFault(cfg, Advance(cfg, st, m).value, done + [m], rest);
        assert done + [m] + rest == done + ms;
        if later < |rest| {
          assert done + [m] + rest[..later] == done + ms[..later + 1];
          i := later + 1;
        }
      } else {
        assert done + ms[..0] == done;
      }
    }
  }

  /** What a refusal says of the whole request. */
  ghost predicate Says(cfg: Config, ms: seq<Message>, e: Error) {
    var k := Leading(ms);
    match e
    case InstructionNotLeading => exists i, j :: 0 <= i < j < |ms| && !ms[i].Instruction? && ms[j].Instruction?
    case InstructionsTooLong => exists joined :: Instructions(ms[..k], joined) && |joined| > cfg.maxInstructions
    case UnresolvedAtEnd => Called(ms[k..]) - Answered(ms[k..]) != {}
    case EndsWithAssistant => k == |ms| || ms[|ms| - 1].Assistant?
    case NoUserText => forall u :: 0 <= u < |ms| && ms[u].User? && (forall v :: u < v < |ms| ==> !ms[v].User?) ==> Blank(ms[u].content)
    case _ => exists i :: k <= i < |ms| && Wrong(cfg, ms[k..i], ms[i], e)
  }

  /** Each error says something true of the messages. */
  lemma ErrorsAreTrue(cfg: Config, ms: seq<Message>)
    requires Verdict(cfg, ms).Err?
    ensures Says(cfg, ms, Verdict(cfg, ms).error)
  {
    hide Pass, InstructionText, Instructions, Wrong, Called, Answered, Strip, Blank;
    var k, rest := Leading(ms), ms[Leading(ms)..];
    if !Ordinary(rest) {
      var j :| 0 <= j < |rest| && rest[j].Instruction?;
      assert ms[k + j] == rest[j] && !ms[k].Instruction?;
    } else {
      InstructionsAre(ms);
      var i := FaultOf(cfg, rest);
      if |InstructionText(ms)| <= cfg.maxInstructions {
        if Pass(cfg, START, rest).Err? {
          assert ms[k..k + i] == rest[..i] && rest[i] == ms[k + i];
        } else if Verdict(cfg, ms).error == NoUserText {
          NoTextSaid(cfg, ms);
        }
      }
    }
  }

  lemma FaultOf(cfg: Config, rest: seq<Message>) returns (i: nat)
    requires Ordinary(rest)
    ensures Pass(cfg, START, rest).Ok? && Pass(cfg, START, rest).value.pending != map[] ==> Called(rest) - Answered(rest) != {}
    ensures Pass(cfg, START, rest).Err? ==>
      && i < |rest| && Wrong(cfg, rest[..i], rest[i], Pass(cfg, START, rest).error)
      && Pass(cfg, START, rest).error in
           {UnresolvedBeforeMessage, DuplicateCallId, UndeclaredFunction, DuplicateResult, UnmatchedResult}
  {
    hide Pass, Called, Answered;
    assert Agrees(START, []) by { Nothing(); }
    i := StopsAtTheFault(cfg, START, [], rest);
    assert [] + rest == rest;
    assert i < |rest| ==> [] + rest[..i] == rest[..i];
  }

  lemma Nothing()
    ensures Called([]) == {} && Answered([]) == {}
  {
  }

  lemma NoTextSaid(cfg: Config, ms: seq<Message>)
    requires Verdict(cfg, ms) == Err(NoUserText) && Ordinary(ms[Leading(ms)..]) && Pass(cfg, START, ms[Leading(ms)..]).Ok?
    ensures Says(cfg, ms, NoUserText)
  {
    hide Pass, InstructionText, Strip;
    var k, rest := Leading(ms), ms[Leading(ms)..];
    forall u | 0 <= u < |ms| && ms[u].User? && (forall v :: u < v < |ms| ==> !ms[v].User?)
      ensures Blank(ms[u].content)
    {
      assert u >= k && rest[u - k] == ms[u];
      var w := LastUserIs(cfg, START, rest);
      assert rest[w] == ms[k + w];
      StripBlank(rest[w].content);
    }
  }
}
