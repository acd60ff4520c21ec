/**
 The transcripts that `normalize_agent_messages` accepts, as a grammar: a prefix of
 instructions, then turns, where an assistant turn with tool calls is followed at
 once by one result for each of its calls, in any order.
 */
module TranscriptGrammar {
  import opened Common
  import opened Transcript

  datatype Reply = Reply(content: string, callId: string)

  datatype Turn =
    | Ask(content: string)
    | Say(content: string)
    | Act(content: string, calls: seq<Call>, replies: seq<Reply>)

  function ReplyMessages(replies: seq<Reply>): (r: seq<Message>)
    ensures |r| == |replies|
    ensures forall i :: 0 <= i < |r| ==> r[i] == Tool(replies[i].content, replies[i].callId)
  {
    if replies == [] then [] else [Tool(replies[0].content, replies[0].callId)] + ReplyMessages(replies[1..])
  }

  function TurnMessages(t: Turn): (r: seq<Message>)
    ensures Ordinary(r)
  {
    match t
    case Ask(content) => [User(content)]
    case Say(content) => [Assistant(content, [])]
    case Act(content, calls, replies) => [Assistant(content, calls)] + ReplyMessages(replies)
  }

  function Flatten(turns: seq<Turn>): (r: seq<Message>)
    ensures Ordinary(r)
  {
    if turns == [] then [] else TurnMessages(turns[0]) + Flatten(turns[1..])
  }

  function CallIds(calls: seq<Call>): seq<string> {
    if calls == [] then [] else [calls[0].id] + CallIds(calls[1..])
  }

  function ReplyIds(replies: seq<Reply>): seq<string> {
    if replies == [] then [] else [replies[0].callId] + ReplyIds(replies[1..])
  }

  /** The replies answer each call exactly once: their ids are a permutation. */
  predicate Answers(calls: seq<Call>, replies: seq<Reply>) {
    Distinct(ReplyIds(replies)) && Elements(ReplyIds(replies)) == Elements(CallIds(calls))
  }

  predicate Declared(cfg: Config, calls: seq<Call>) {
    forall i :: 0 <= i < |calls| ==> calls[i].name in cfg.names
  }

  predicate TurnOk(cfg: Config, t: Turn) {
    t.Act? ==>
      && t.calls != []
      && Declared(cfg, t.calls)
      && Answers(t.calls, t.replies)
  }

  function TurnIds(t: Turn): seq<string> {
    if t.Act? then CallIds(t.calls) else []
  }

  function AllIds(turns: seq<Turn>): seq<string> {
    if turns == [] then [] else TurnIds(turns[0]) + AllIds(turns[1..])
  }

  /** The last user text, unless there is none. */
  function LastAsk(turns: seq<Turn>): Option<string> {
    if turns == [] then None
    else
      var t := turns[|turns| - 1];
      if t.Ask? then Some(t.content) else LastAsk(turns[..|turns| - 1])
  }

  /** Well-formed turns: each is in order, and no call id is used twice. */
  predicate WellFormed(cfg: Config, turns: seq<Turn>) {
    && (forall i :: 0 <= i < |turns| ==> TurnOk(cfg, turns[i]))
    && Distinct(AllIds(turns))
  }

  // ----- Identifiers -----

  /** The ids of the calls are fresh, distinct and declared. */
  predicate CallsOk(cfg: Config, seen: set<string>, calls: seq<Call>) {
    Declared(cfg, calls) && Distinct(CallIds(calls)) && Elements(CallIds(calls)) !! seen
  }

  lemma CallsOkCons(cfg: Config, seen: set<string>, calls: seq<Call>)
    requires calls != []
    ensures Elements(CallIds(calls)) == {calls[0].id} + Elements(CallIds(calls[1..]))
    ensures CallsOk(cfg, seen, calls) <==>
      calls[0].name in cfg.names && calls[0].id !in seen && CallsOk(cfg, seen + {calls[0].id}, calls[1..])
  {
    assert CallIds(calls) == [calls[0].id] + CallIds(calls[1..]);
    assert CallIds(calls)[1..] == CallIds(calls[1..]);
    hide Distinct;
    assert Declared(cfg, calls) <==> calls[0].name in cfg.names && Declared(cfg, calls[1..]) by {
      assert forall i :: 1 <= i < |calls| ==> calls[i] == calls[1..][i - 1];
    }
  }

  lemma {:induction false} AddCallsMeans(cfg: Config, st: Link, calls: seq<Call>)
    ensures AddCalls(cfg, st, calls).Ok? <==> CallsOk(cfg, st.seen, calls)
    ensures AddCalls(cfg, st, calls).Ok? ==>
      var next := AddCalls(cfg, st, calls).value;
      && next.seen == st.seen + Elements(CallIds(calls))
      && next.resolved == st.resolved && next.lastUser == st.lastUser
      && next.pending.Keys == st.pending.Keys + Elements(CallIds(calls))
    decreases |calls|
  {
    if calls != [] {
      hide CallsOk, CallIds, Elements;
      CallsOkCons(cfg, st.seen, calls);
      var c := calls[0];
      AddCallsMeans(cfg, st.(seen := st.seen + {c.id}, pending := st.pending[c.id := c.name]), calls[1..]);
    }
  }

  // ----- The loop's own invariant -----

  /** Pending calls have been seen and not resolved. */
  predicate Sound(st: Link) {
    st.resolved <= st.seen && st.pending.Keys <= st.seen && st.pending.Keys !! st.resolved
  }

  lemma AdvanceSound(cfg: Config, st: Link, m: Message)
    requires !m.Instruction? && Sound(st) && Advance(cfg, st, m).Ok?
    ensures Sound(Advance(cfg, st, m).value)
  {
    if m.Assistant? {
      AddCallsMeans(cfg, st, m.calls);
    }
  }

  lemma {:induction false} PassAppend(cfg: Config, st: Link, a: seq<Message>, b: seq<Message>)
    requires Ordinary(a) && Ordinary(b)
    ensures Pass(cfg, st, a + b) == match Pass(cfg, st, a)
                                    case Err(e) => Err(e)
                                    case Ok(mid) => Pass(cfg, mid, b)
    decreases |a|
  {
    if a == [] {
      assert a + b == b;
    } else {
      hide Advance;
      assert (a + b)[0] == a[0] && (a + b)[1..] == a[1..] + b;
      var next := Advance(cfg, st, a[0]);
      if next.Ok? {
        PassAppend(cfg, next.value, a[1..], b);
      }
    }
  }

  // ----- From turns to the loop -----

  /** Replies that answer all pending calls empty the pending map. */
  lemma {:induction false} PassReplies(cfg: Config, st: Link, replies: seq<Reply>)
    requires Sound(st)
    requires Distinct(ReplyIds(replies)) && Elements(ReplyIds(replies)) == st.pending.Keys
    ensures Pass(cfg, st, ReplyMessages(replies)) == Ok(Resolved(st, Elements(ReplyIds(replies))))
    decreases |replies|
  {
    if replies == [] {
      assert Elements(ReplyIds(replies)) == {};
      assert st.pending == map[];
      assert st.resolved + {} == st.resolved;
    } else {
      var id, rest := replies[0].callId, replies[1..];
      assert ReplyIds(replies)[1..] == ReplyIds(rest);
      PassOneReply(cfg, st, replies);
      hide Pass, Distinct;
      var next := TakenReply(st, id);
      assert next.pending.Keys == Elements(ReplyIds(rest));
      PassReplies(cfg, next, rest);
      assert next.resolved + Elements(ReplyIds(rest)) == st.resolved + Elements(ReplyIds(replies));
    }
  }

  function Resolved(st: Link, ids: set<string>): Link {
    st.(pending := map[], resolved := st.resolved + ids)
  }

  function TakenReply(st: Link, id: string): Link {
    st.(pending := st.pending - {id}, resolved := st.resolved + {id})
  }

  lemma PassOneReply(cfg: Config, st: Link, replies: seq<Reply>)
    requires Sound(st) && replies != [] && replies[0].callId in st.pending
    ensures
      var id := replies[0].callId;
      Pass(cfg, st, ReplyMessages(replies)) ==
        Pass(cfg, TakenReply(st, id), ReplyMessages(replies[1..]))
  {
  }

  /** The state after a turn that starts with nothing pending. */
  function AfterTurn(st: Link, t: Turn): Link {
    match t
    case Ask(content) => st.(lastUser := Some(content))
    case Say(_) => st
    case Act(_, calls, replies) =>
      st.(seen := st.seen + Elements(CallIds(calls)), resolved := st.resolved + Elements(ReplyIds(replies)))
  }

  lemma PassTurn(cfg: Config, st: Link, t: Turn)
    requires Sound(st) && st.pending == map[]
    requires TurnOk(cfg, t) && Distinct(TurnIds(t)) && Elements(TurnIds(t)) !! st.seen
    ensures Pass(cfg, st, TurnMessages(t)) == Ok(AfterTurn(st, t))
  {
    match t
    case Ask(content) =>
      assert [User(content)][1..] == [];
    case Say(content) =>
      assert [Assistant(content, [])][1..] == [];
    case Act(content, calls, replies) =>
      AddCallsMeans(cfg, st, calls);
      AdvanceSound(cfg, st, Assistant(content, calls));
      var mid := AddCalls(cfg, st, calls).value;
      PassReplies(cfg, mid, replies);
      assert TurnMessages(t)[1..] == ReplyMessages(replies);
  }

  lemma {:induction false} PassTurns(cfg: Config, st: Link, turns: seq<Turn>)
    requires Sound(st) && st.pending == map[]
    requires WellFormed(cfg, turns) && Elements(AllIds(turns)) !! st.seen
    ensures
      var o := Pass(cfg, st, Flatten(turns));
      && o.Ok? && o.value.pending == map[]
      && o.value.lastUser == (if LastAsk(turns) == None then st.lastUser else LastAsk(turns))
    decreases |turns|
  {
    if turns != [] {
      hide TurnOk, AfterTurn, TurnMessages, Pass, WellFormed, Elements, AllIds, LastAsk, TurnIds;
      var t, rest := turns[0], turns[1..];
      assert turns == [t] + rest;
      WellFormedTail(cfg, turns);
      PassTurn(cfg, st, t);
      PassTurns(cfg, AfterTurn(st, t), rest);
      PassAppend(cfg, st, TurnMessages(t), Flatten(rest));
      LastAskCons(t, rest);
    }
  }

  lemma WellFormedTail(cfg: Config, turns: seq<Turn>)
    requires turns != [] && WellFormed(cfg, turns)
    ensures TurnOk(cfg, turns[0]) && Distinct(TurnIds(turns[0])) && WellFormed(cfg, turns[1..])
    ensures Elements(AllIds(turns)) == Elements(TurnIds(turns[0])) + Elements(AllIds(turns[1..]))
    ensures Elements(TurnIds(turns[0])) !! Elements(AllIds(turns[1..]))
  {
    DistinctAppend(TurnIds(turns[0]), AllIds(turns[1..]));
  }

  lemma {:induction false} LastAskCons(t: Turn, rest: seq<Turn>)
    ensures LastAsk([t] + rest) ==
      if LastAsk(rest) != None then LastAsk(rest) else if t.Ask? then Some(t.content) else None
    decreases |rest|
  {
    var all := [t] + rest;
    if rest == [] {
      assert all == [t] && LastAsk(all[..0]) == None;
    } else {
      var less := rest[..|rest| - 1];
      LastAskCons(t, less);
      assert all[..|all| - 1] == [t] + less;
    }
  }

  // ----- From the loop to turns -----

  /** With calls pending, an accepted rest starts with the replies that resolve them. */
  lemma {:induction false} TakeReplies(cfg: Config, st: Link, ms: seq<Message>) returns (replies: seq<Reply>)
    requires Ordinary(ms) && Sound(st)
    requires Pass(cfg, st, ms).Ok? && Pass(cfg, st, ms).value.pending == map[]
    ensures |replies| <= |ms| && ReplyMessages(replies) == ms[..|replies|]
    ensures Distinct(ReplyIds(replies)) && Elements(ReplyIds(replies)) == st.pending.Keys
    decreases |ms|
  {
    if st.pending == map[] {
      replies := [];
      assert ReplyMessages(replies) == ms[..0];
    } else {
      hide Distinct, Sound;
      var m := ms[0];
      assert m.Tool?;
      var next := Advance(cfg, st, m).value;
      AdvanceSound(cfg, st, m);
      var rest := TakeReplies(cfg, next, ms[1..]);
      replies := [Reply(m.content, m.callId)] + rest;
      ConsReply(Reply(m.content, m.callId), rest);
      assert ms[..|replies|] == [m] + ms[1..][..|rest|];
    }
  }

  lemma ConsReply(r: Reply, rest: seq<Reply>)
    ensures Elements(ReplyIds([r] + rest)) == {r.callId} + Elements(ReplyIds(rest))
    ensures Distinct(ReplyIds([r] + rest)) <==> r.callId !in Elements(ReplyIds(rest)) && Distinct(ReplyIds(rest))
    ensures ReplyMessages([r] + rest) == [Tool(r.content, r.callId)] + ReplyMessages(rest)
  {
    assert ([r] + rest)[1..] == rest;
    assert ReplyIds([r] + rest)[1..] == ReplyIds(rest);
  }

  /** Accepted messages are the messages of well-formed turns. */
  lemma {:induction false} TakeTurns(cfg: Config, st: Link, ms: seq<Message>) returns (turns: seq<Turn>)
    requires Ordinary(ms) && Sound(st) && st.pending == map[]
    requires Pass(cfg, st, ms).Ok? && Pass(cfg, st, ms).value.pending == map[]
    ensures Flatten(turns) == ms && WellFormed(cfg, turns) && Elements(AllIds(turns)) !! st.seen
    decreases |ms|
  {
    if ms == [] {
      turns := [];
      assert AllIds(turns) == [];
    } else {
      var t := TakeTurn(cfg, st, ms);
      var k := |TurnMessages(t)|;
      PassTurn(cfg, st, t);
      assert ms == ms[..k] + ms[k..];
      PassAppend(cfg, st, ms[..k], ms[k..]);
      var rest := TakeTurns(cfg, AfterTurn(st, t), ms[k..]);
      turns := [t] + rest;
      ConsTurn(cfg, st.seen, t, rest);
    }
  }

  lemma TakeTurn(cfg: Config, st: Link, ms: seq<Message>) returns (t: Turn)
    requires Ordinary(ms) && Sound(st) && st.pending == map[] && ms != []
    requires Pass(cfg, st, ms).Ok? && Pass(cfg, st, ms).value.pending == map[]
    ensures 0 < |TurnMessages(t)| <= |ms| && TurnMessages(t) == ms[..|TurnMessages(t)|]
    ensures TurnOk(cfg, t) && Distinct(TurnIds(t)) && Elements(TurnIds(t)) !! st.seen
  {
    var m := ms[0];
    assert ms[..1] == [m];
    if m.User? {
      t := Ask(m.content);
    } else if m.Assistant? && m.calls == [] {
      t := Say(m.content);
    } else {
      assert m.Assistant?;
      AddCallsMeans(cfg, st, m.calls);
      AdvanceSound(cfg, st, m);
      var replies := TakeReplies(cfg, AddCalls(cfg, st, m.calls).value, ms[1..]);
      t := Act(m.content, m.calls, replies);
      assert ms[..1 + |replies|] == [m] + ms[1..][..|replies|];
    }
  }

  lemma ConsTurn(cfg: Config, seen: set<string>, t: Turn, rest: seq<Turn>)
    requires TurnOk(cfg, t) && Distinct(TurnIds(t)) && Elements(TurnIds(t)) !! seen
    requires WellFormed(cfg, rest) && Elements(AllIds(rest)) !! seen + Elements(TurnIds(t))
    ensures WellFormed(cfg, [t] + rest) && Elements(AllIds([t] + rest)) !! seen
    ensures Flatten([t] + rest) == TurnMessages(t) + Flatten(rest)
  {
    var all := [t] + rest;
    assert all[1..] == rest;
    DistinctAppend(TurnIds(t), AllIds(rest));
  }

  // ----- The theorem -----

  /** The grammar of accepted requests. */
  ghost predicate Grammatical(cfg: Config, ms: seq<Message>, turns: seq<Turn>) {
    var k := Leading(ms);
    && ms[k..] == Flatten(turns)
    && |InstructionText(ms)| <= cfg.maxInstructions
    && WellFormed(cfg, turns)
    && turns != [] && !turns[|turns| - 1].Say?
    && LastAsk(turns).Some? && !Blank(LastAsk(turns).value)
  }

  lemma {:induction false} LastMessage(turns: seq<Turn>)
    requires turns != []
    requires forall i :: 0 <= i < |turns| && turns[i].Act? ==> turns[i].replies != []
    ensures Flatten(turns) != []
    ensures Flatten(turns)[|Flatten(turns)| - 1].Assistant? <==> turns[|turns| - 1].Say?
    ensures Flatten(turns)[|Flatten(turns)| - 1].Tool? <==> turns[|turns| - 1].Act?
    decreases |turns|
  {
    if |turns| > 1 {
      LastMessage(turns[1..]);
    } else {
      assert Flatten(turns[1..]) == [];
      assert Flatten(turns) == TurnMessages(turns[0]);
    }
  }

  lemma ActsHaveReplies(cfg: Config, turns: seq<Turn>)
    requires WellFormed(cfg, turns)
    ensures forall i :: 0 <= i < |turns| && turns[i].Act? ==> turns[i].replies != []
  {
    forall i | 0 <= i < |turns| && turns[i].Act?
      ensures turns[i].replies != []
    {
      assert TurnOk(cfg, turns[i]);
      assert turns[i].calls[0].id in Elements(CallIds(turns[i].calls));
    }
  }

  /** The request is accepted exactly when it is grammatical, and the text it yields
      is then the last user turn's. */
  lemma AcceptedExactlyWhenGrammatical(cfg: Config, ms: seq<Message>)
    ensures Verdict(cfg, ms).Ok? <==> exists turns :: Grammatical(cfg, ms, turns)
    ensures forall turns :: Grammatical(cfg, ms, turns) ==> Verdict(cfg, ms) == Ok(LastAsk(turns).value)
  {
    forall turns | Grammatical(cfg, ms, turns)
      ensures Verdict(cfg, ms) == Ok(LastAsk(turns).value)
    {
      GrammaticalIsAccepted(cfg, ms, turns);
    }
    if Verdict(cfg, ms).Ok? {
      var turns := AcceptedIsGrammatical(cfg, ms);
    }
  }

  lemma NoTurns()
    ensures Flatten([]) == [] && LastAsk([]) == None
  {
  }

  lemma GrammaticalIsAccepted(cfg: Config, ms: seq<Message>, turns: seq<Turn>)
    requires Grammatical(cfg, ms, turns)
    ensures Verdict(cfg, ms) == Ok(LastAsk(turns).value)
  {
    hide InstructionText, Pass, WellFormed, LastAsk, Flatten, Blank, Strip;
    assert Elements(AllIds(turns)) !! {};
    PassTurns(cfg, START, turns);
    ActsHaveReplies(cfg, turns);
    LastMessage(turns);
    StripBlank(LastAsk(turns).value);
    var k := Leading(ms);
    assert ms[|ms| - 1] == ms[k..][|ms| - k - 1];
  }

  lemma AcceptedIsGrammatical(cfg: Config, ms: seq<Message>) returns (turns: seq<Turn>)
    requires Verdict(cfg, ms).Ok?
    ensures Grammatical(cfg, ms, turns)
  {
    hide InstructionText, Pass, WellFormed, LastAsk, Flatten, Blank, Strip;
    var k := Leading(ms);
    turns := TakeTurns(cfg, START, ms[k..]);
    PassTurns(cfg, START, turns);
    NoTurns();
    ActsHaveReplies(cfg, turns);
    assert turns != [];
    LastMessage(turns);
    StripBlank(Verdict(cfg, ms).value);
    assert ms[|ms| - 1] == ms[k..][|ms| - k - 1];
  }

  // ----- The untrusted envelope -----

  /** Reads escaped character data back. */
  function Unescape(s: string): string {
    if s == [] then []
    else if "&amp;" <= s then ['&'] + Unescape(s[5..])
    else if "&lt;" <= s then ['<'] + Unescape(s[4..])
    else if "&gt;" <= s then ['>'] + Unescape(s[4..])
    else [s[0]] + Unescape(s[1..])
  }

  /** Text placed in an envelope cannot close it or open another element, and none of
      it is lost beyond the characters that XML does not have. */
  lemma {:induction false} EnvelopeIsSealed(s: string)
    ensures '<' !in Escape(s) && '>' !in Escape(s)
    ensures Unescape(Escape(s)) == s
  {
    if s != [] {
      var rest := Escape(s[1..]);
      EnvelopeIsSealed(s[1..]);
      var out := Escape(s);
      assert s == [s[0]] + s[1..];
      if s[0] == '&' {
        assert out == "&amp;" + rest && out[5..] == rest;
      } else if s[0] == '<' {
        assert out == "&lt;" + rest && out[1] == 'l' && out[4..] == rest;
      } else if s[0] == '>' {
        assert out == "&gt;" + rest && out[1] == 'g' && out[4..] == rest;
      } else {
        assert out == [s[0]] + rest && out[1..] == rest;
      }
    }
  }
}
