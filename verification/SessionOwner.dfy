/**
 The task that owns a legacy session: when it goes on to the next operation, what the last
 one may have left on the transport, and what the caller is told.
 */
module SessionOwner {
  import opened Common
  import opened Transport
  import opened WriteOutcome
  import opened OperationErrors

  // ----- Fatal errors -----

  /** What a step reports to the transport's fatal-error future: failing posts and bodies do, other requests do not. */
  function Reported(s: State, a: Action): Option<Failure>
    requires Enabled(s, a)
  {
    match a
    case FailEarly(q, _) => if s.flights[q].get then None else Raises(s, a)
    case OpenEnds(q, _, _) => if s.flights[q].get then None else Raises(s, a)
    case Abandon(q) => if s.flights[q].get then None else Some(NotGateway)
    case Deadline => None
    case _ => Raises(s, a)
  }

  /** Reported is every failure of a post and of a body, and a post that is abandoned; a failing read and the deadline are not. */
  lemma ReportedExactlyWhen(s: State, a: Action)
    requires Enabled(s, a)
    ensures Reported(s, a).Some? <==>
      || ((a.FailEarly? || a.OpenEnds?) && !s.flights[a.key].get && Raises(s, a).Some?)
      || (a.Abandon? && !s.flights[a.key].get)
      || ((a.BodyBreaks? || a.BodyRefused? || a.BodyEnds? || a.BodyCloses?) && Raises(s, a).Some?)
  {
  }

  /** The future keeps the first report. */
  function Fatal(s: State, acts: seq<Action>): Option<Failure>
    requires Possible(s, acts)
    decreases |acts|
  {
    if acts == [] then None
    else if Reported(s, acts[0]).Some? then Reported(s, acts[0])
    else Fatal(Apply(s, acts[0]), acts[1..])
  }

  // ----- How an operation ends -----

  datatype Outcome =
    | Settled                  // a result, or an error of the service's own: about the result, or before the call
    | Threw(error: Error)      // by the SDK or the transport
    | Cancelled                // by its caller
    | OutOfTime

  predicate StreamOpen(s: State) {
    exists x <- s.bodies :: s.bodies[x].persistent
  }

  /** The SDK may have the answer to the call: from a finished body, a frame of an open one, or the event stream. */
  predicate ResultIsIn(s: State) {
    s.answered || StreamOpen(s) || exists x <- s.bodies :: Confirming(s.bodies[x])
  }

  /** Whether the owner takes the next command. The tracker is asked after a cancellation only. */
  predicate GoesOn(s: State, fatal: Option<Failure>, o: Outcome) {
    && fatal.None?
    && match o
       case Settled => s.tracker.expected == None || ResultIsIn(s)
       case Threw(e) => !(e.Single? && e.cause.Own? && e.cause.unknown)
       case Cancelled => !MayBeUnknown(s.tracker)
       case OutOfTime => false
  }

  /** Whether the session can get a next command: its caller evicts it after anything but a result and a final refusal. */
  predicate Kept(s: State, fatal: Option<Failure>, o: Outcome) {
    && GoesOn(s, fatal, o)
    && (o.Settled? || (o.Threw? && o.error == Single(Own(false, false))))
  }

  /** A session is kept exactly without a fatal error and with its result in, before any call, or after a final refusal;
      after its time is up the owner takes nothing more. */
  lemma KeptExactlyWhen(s: State, fatal: Option<Failure>, o: Outcome)
    ensures Kept(s, fatal, o) <==>
      && fatal == None
      && ((o == Settled && (s.tracker.expected == None || ResultIsIn(s))) || o == Threw(Single(Own(false, false))))
    ensures o == OutOfTime ==> !GoesOn(s, fatal, o)
    ensures o == Cancelled ==> (GoesOn(s, fatal, o) <==> fatal == None && !MayBeUnknown(s.tracker))
  {
  }

  // ----- What is left behind -----

  /** The write of the operation, if it made one, was answered or is still on the transport. */
  predicate Accounted(s: State) {
    s.tracker.expected.Some? ==>
      || s.answered
      || (exists q <- s.flights :: s.flights[q].write)
      || (exists x <- s.bodies :: s.bodies[x].expected.Some?)
  }

  lemma AccountedKept(s: State, a: Action)
    requires Sane(s) && Inv(s) && Enabled(s, a) && !a.Begin? && Reported(s, a).None? && Accounted(s)
    ensures Accounted(Apply(s, a))
  {
    hide OneWrite;
    var s' := Apply(s, a);
    if s.tracker.expected.Some? && !s.answered {
      if q :| q in s.flights && s.flights[q].write {
        assert FlightAgrees(s, s.flights[q]);
        assert (q in s'.flights && s'.flights[q].write)
          || (a.OpenEnds? && a.key == q && q in s'.bodies && s'.bodies[q].expected.Some?);
      } else {
        var x :| x in s.bodies && s.bodies[x].expected.Some?;
        assert BodyAgrees(s, s.bodies[x]);
        assert (x in s'.bodies && s'.bodies[x].expected.Some?) || s'.answered;
      }
    } else if a.Accept? && s'.tracker.expected.Some? && !s.answered {
      assert s'.flights[a.key].write;
    }
  }

  lemma {:induction false} WithoutReportAccounted(s: State, acts: seq<Action>)
    requires Sane(s) && Inv(s) && Accounted(s) && Possible(s, acts) && WithinOperation(acts) && Fatal(s, acts).None?
    ensures Accounted(After(s, acts))
    decreases |acts|
  {
    if acts != [] {
      hide Sane, Inv, Apply, Enabled, Accounted, Reported;
      assert !acts[0].Begin?;
      SaneKept(s, acts[0]);
      AccountedKept(s, acts[0]);
      OperationKeeps(s, [acts[0]]);
      assert [acts[0]][1..] == [];
      WithoutReportAccounted(Apply(s, acts[0]), acts[1..]);
    }
  }

  lemma LeftByInv(s: State)
    requires Inv(s)
    ensures !MayBeUnknown(s.tracker) ==>
        && (forall q <- s.flights :: s.flights[q].write ==> s.flights[q].Resolving?)
        && (forall x <- s.bodies :: Confirming(s.bodies[x]) ==> s.answered)
    ensures (s.tracker.expected == None || ResultIsIn(s)) && !StreamOpen(s) ==>
        forall q <- s.flights :: !s.flights[q].write
  {
    assert forall q <- s.flights :: FlightAgrees(s, s.flights[q]);
    assert forall x <- s.bodies :: BodyAgrees(s, s.bodies[x]);
  }

  /**
   What an operation that began on a quiet transport leaves behind when its owner goes on. Its write was answered or is
   still there. After a cancellation it is still being resolved, or its answer was read to the end; after a result that
   did not come by the event stream no request of it is left, only the body of its answer. And the tracker
   can be relied on during the next operation exactly when neither a write nor an answer to one is left.
   */
  lemma OwnerLeaves(s: State, write: bool, acts: seq<Action>, o: Outcome)
    requires Sane(s) && Quiet(s)
    requires Possible(Apply(s, Begin(write)), acts) && WithinOperation(acts)
    requires GoesOn(After(Apply(s, Begin(write)), acts), Fatal(Apply(s, Begin(write)), acts), o)
    ensures
      var now := After(Apply(s, Begin(write)), acts);
      && Accounted(now)
      && (TrackerReliable(now) <==> Quiet(now))
      && (o.Cancelled? ==>
            && (forall q <- now.flights :: now.flights[q].write ==> now.flights[q].Resolving?)
            && (forall x <- now.bodies :: Confirming(now.bodies[x]) ==> now.answered))
      && (o.Settled? && !StreamOpen(now) ==>
            && (forall q <- now.flights :: !now.flights[q].write)
            && (TrackerReliable(now) <==> forall x <- now.bodies :: !Confirming(now.bodies[x])))
  {
    var start := Apply(s, Begin(write));
    var now := After(start, acts);
    hide TrackerReliable, Apply, Enabled, After, Possible, Fatal, ResultIsIn, StreamOpen;
    BeginsWell(s, write);
    OperationKeeps(start, acts);
    WithoutReportAccounted(start, acts);
    SaneAfter(start, acts);
    hide Sane, Inv, Accounted;
    LeftByInv(now);
    ReliableExactlyWhenQuiet(now);
  }

  lemma BeginsWell(s: State, write: bool)
    requires Sane(s) && Quiet(s)
    ensures var start := Apply(s, Begin(write)); Inv(start) && Sane(start) && Accounted(start)
  {
  }

  // ----- What the caller is told -----

  function FromTransport(f: Failure): Error {
    Single(if f.Gateway? then Own(f.retryable, f.unknown) else Other)
  }

  /** The error that reaches the caller: a fatal error of the transport goes before the exception of the operation. */
  function Effective(fatal: Option<Failure>, e: Error): Error {
    if fatal.Some? then FromTransport(fatal.value) else e
  }

  function CallerTold(s: State, fatal: Option<Failure>, o: Outcome): Option<Told> {
    match o
    case Settled => None
    case Threw(e) => Some(Translated(Effective(fatal, e)))
    case _ => Some(Translated(FromTransport(TimeoutError(s.tracker))))
  }

  /**
   While a dispatched write is unanswered, the caller is told that the outcome is unknown exactly when the operation
   ran out of time or was cancelled, or the first gateway error in what was raised says so. It is told that it may
   retry exactly when the first gateway error says so, or when there is none and only input and output failed.
   */
  lemma WindowIsToldExactlyWhen(s: State, write: bool, acts: seq<Action>, o: Outcome)
    requires Sane(s) && Quiet(s)
    requires Possible(Apply(s, Begin(write)), acts) && WithinOperation(acts) && !o.Settled?
    ensures
      var start := Apply(s, Begin(write));
      var now, fatal := After(start, acts), Fatal(start, acts);
      var told := CallerTold(now, fatal, o).value;
      Window(now) ==>
        if !o.Threw? then told == Told(false, true)
        else
          var causes := Causes(Effective(fatal, o.error));
          var own := First(causes, OWN);
          told.Told? ==>
            && (told.unknown <==> own.Some? && own.value.unknown)
            && (told.retryable <==> if own.Some? then own.value.retryable
                                    else (exists c <- causes :: c.InputOutput?)
                                         && forall c <- causes :: c.InputOutput? || c.Other?)
  {
    var start := Apply(s, Begin(write));
    hide Apply, Enabled, After, Possible, Fatal, Translated, Causes, First;
    BeginsWell(s, write);
    OperationKeeps(start, acts);
    var now := After(start, acts);
    hide Sane, Quiet;
    if o.Threw? {
      ToldExactly(Effective(Fatal(start, acts), o.error));
    } else if Window(now) {
      assert TimeoutError(now.tracker) == UNKNOWN;
      TimeoutIsTold();
    }
  }

  lemma TimeoutIsTold()
    ensures Translated(FromTransport(UNKNOWN)) == Told(false, true)
  {
  }

  // ----- Concrete runs -----

  lemma {:induction false} FatalAppend(s: State, acts: seq<Action>, a: Action)
    requires Possible(s, acts) && Enabled(After(s, acts), a) && Possible(s, acts + [a])
    requires Fatal(s, acts).None? && Reported(After(s, acts), a).None?
    ensures Fatal(s, acts + [a]).None?
    decreases |acts|
  {
    hide Apply, Enabled, Reported;
    if acts == [] {
      assert acts + [a] == [a] && [a][1..] == [];
    } else {
      assert (acts + [a])[1..] == acts[1..] + [a];
      FatalAppend(Apply(s, acts[0]), acts[1..], a);
    }
  }

  /** One more step, which reports nothing. */
  lemma Silently(acts: seq<Action>, a: Action) returns (longer: seq<Action>)
    requires Possible(NEW, acts) && Fatal(NEW, acts).None?
    requires Enabled(After(NEW, acts), a) && Reported(After(NEW, acts), a).None?
    ensures Possible(NEW, longer) && After(NEW, longer) == Apply(After(NEW, acts), a) && Fatal(NEW, longer).None?
  {
    hide Enabled, Apply, Reported;
    longer := acts + [a];
    PossibleAppend(NEW, acts, a);
    FatalAppend(NEW, acts, a);
  }

  /** A write is posted, and its request is out. */
  lemma WriteIsSent(acts: seq<Action>, q: Key) returns (longer: seq<Action>)
    requires Possible(NEW, acts) && Fatal(NEW, acts).None?
    requires q !in After(NEW, acts).flights && q !in After(NEW, acts).bodies
    ensures Possible(NEW, longer) && Fatal(NEW, longer).None?
    ensures var s := After(NEW, acts);
      After(NEW, longer) == State(Tracker(Some(Id(7)), true, false, false), true,
                                  s.flights[q := InThread(false, true, s.operation + 1, true)], s.bodies,
                                  s.operation + 1, true, false)
  {
    var s := After(NEW, acts);
    longer := Silently(acts, Begin(true));
    longer := Silently(longer, Accept(q, Ask(false, Some(Id(7)))));
    assert After(NEW, longer) == State(Tracker(Some(Id(7)), false, false, false), true,
                                       s.flights[q := Resolving(false, true, s.operation + 1)], s.bodies,
                                       s.operation + 1, false, false);
    longer := Silently(longer, Submit(q));
    longer := Silently(longer, SendBegins(q));
  }

  /** A read opens the event stream of a legacy session, and stays. */
  lemma StreamOpens() returns (acts: seq<Action>)
    ensures Possible(NEW, acts) && Fatal(NEW, acts).None?
    ensures After(NEW, acts) == State(RESET, false, map[], map[1 := Body(None, true, 1)], 1, false, false)
  {
    acts := Silently([], Begin(false));
    acts := Silently(acts, Accept(1, Ask(true, None)));
    acts := Silently(acts, Submit(1));
    acts := Silently(acts, SendBegins(1));
    acts := Silently(acts, OpenEnds(1, Answering(Response(200, true, false)), None));
    assert After(NEW, acts).bodies == map[1 := Body(None, true, 1)] && After(NEW, acts).flights == map[];
  }

  /** A run in which the event stream ends with a retryable error while a dispatched write is unanswered. */
  lemma PersistentStreamEndsInsideTheWindow() returns (acts: seq<Action>)
    ensures Possible(NEW, acts)
    ensures
      var s := After(NEW, acts);
      && Window(s) && Enabled(s, BodyEnds(1, false))
      && Raises(s, BodyEnds(1, false)) == Some(Gateway(TransportLevel, true, false))
  {
    acts := StreamOpens();
    acts := WriteIsSent(acts, 2);
  }

  /** The response to a write has arrived, as an event stream or not, and nothing of its body was read. */
  lemma AnswerArrives(eventStream: bool) returns (acts: seq<Action>)
    ensures Possible(NEW, acts) && Fatal(NEW, acts).None?
    ensures After(NEW, acts) ==
            State(Tracker(Some(Id(7)), true, true, false), true, map[], map[1 := Body(Some(Id(7)), false, 1)], 1, true, false)
  {
    acts := WriteIsSent([], 1);
    acts := Silently(acts, OpenEnds(1, Answering(Response(200, eventStream, false)), None));
    assert After(NEW, acts).bodies == map[1 := Body(Some(Id(7)), false, 1)] && After(NEW, acts).flights == map[];
  }

  /** The result comes in a frame of the answer: the owner goes on with the body open and the tracker saying unknown,
      and the next write can be missed. */
  lemma FramedResultMisleads() returns (acts: seq<Action>)
    ensures Possible(NEW, acts) && Kept(After(NEW, acts), Fatal(NEW, acts), Settled)
    ensures var s := After(NEW, acts);
      MayBeUnknown(s.tracker) && s.bodies == map[1 := Body(Some(Id(7)), false, 1)] && !s.answered && !TrackerReliable(s)
  {
    hide TrackerReliable;
    acts := AnswerArrives(true);
    assert 1 in After(NEW, acts).bodies;
    EveryRunIsSane(acts);
    LeftoverMisleads(After(NEW, acts));
  }

  /** The result comes by the event stream: the owner goes on with the request still out, and the next write can be missed. */
  lemma StreamedResultMisleads() returns (acts: seq<Action>)
    ensures Possible(NEW, acts) && Kept(After(NEW, acts), Fatal(NEW, acts), Settled)
    ensures var s := After(NEW, acts);
      MayBeUnknown(s.tracker) && s.flights == map[2 := InThread(false, true, 2, true)] && !TrackerReliable(s)
  {
    hide TrackerReliable;
    acts := StreamOpens();
    acts := WriteIsSent(acts, 2);
    assert 1 in After(NEW, acts).bodies && 2 in After(NEW, acts).flights;
    EveryRunIsSane(acts);
    LeftoverMisleads(After(NEW, acts));
  }

  /** The result was read to the end and its body is not closed: the next write can be missed too. */
  lemma UnclosedAnswerMisleads() returns (acts: seq<Action>)
    ensures Possible(NEW, acts) && Kept(After(NEW, acts), Fatal(NEW, acts), Settled)
    ensures var s := After(NEW, acts);
      && !MayBeUnknown(s.tracker) && s.flights == map[] && s.bodies == map[1 := Body(Some(Id(7)), false, 1)]
      && s.answered && !TrackerReliable(s)
  {
    hide TrackerReliable;
    acts := AnswerArrives(false);
    acts := Silently(acts, BodyEnds(1, true));
    assert 1 in After(NEW, acts).bodies;
    EveryRunIsSane(acts);
    LeftoverMisleads(After(NEW, acts));
  }

  /** After a cancellation the owner goes on with the write still being resolved; only its caller's eviction of the
      session keeps the next write from being missed. */
  lemma ResolvingWriteMisleads() returns (acts: seq<Action>)
    ensures Possible(NEW, acts)
    ensures var s := After(NEW, acts);
      && GoesOn(s, Fatal(NEW, acts), Cancelled) && !Kept(s, Fatal(NEW, acts), Cancelled)
      && s.flights == map[1 := Resolving(false, true, 1)] && !TrackerReliable(s)
  {
    hide TrackerReliable;
    acts := Silently([], Begin(true));
    acts := Silently(acts, Accept(1, Ask(false, Some(Id(7)))));
    assert 1 in After(NEW, acts).flights;
    EveryRunIsSane(acts);
    LeftoverMisleads(After(NEW, acts));
  }

  /** The SDK's own read timeout, while a dispatched write is unanswered: the caller is not told that the outcome is
      unknown, and an error of input and output may even be retried. The owner goes on, and its caller evicts the session. */
  lemma ReadTimeoutHidesTheWindow() returns (acts: seq<Action>)
    ensures Possible(NEW, acts)
    ensures var s, fatal := After(NEW, acts), Fatal(NEW, acts);
      && Window(s) && MayBeUnknown(s.tracker)
      && forall e | e in [Single(FromProtocol), Single(InputOutput)] ::
           && GoesOn(s, fatal, Threw(e)) && !Kept(s, fatal, Threw(e))
           && CallerTold(s, fatal, Threw(e)) == Some(Told(e == Single(InputOutput), false))
  {
    acts := WriteIsSent([], 1);
  }
}
