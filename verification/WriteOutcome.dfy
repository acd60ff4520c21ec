/**
 When a tools/call write may already have happened: the write-outcome tracker as the SDK transport drives it.
 The SDK, the network and the server are an environment that picks the next event.
 */
module WriteOutcome {
  import opened Common
  import opened Transport

  type Key = nat

  /** What a response must answer; `Impossible` stands for an unusable request id. */
  datatype Expected = Id(key: nat) | Impossible

  datatype Tracker = Tracker(
    expected: Option<Expected>,
    submitted: bool,
    dispatched: bool,
    confirmed: bool)

  const RESET: Tracker := Tracker(None, false, false, false)

  predicate MayBeUnknown(t: Tracker) {
    t.expected.Some? && (t.submitted || t.dispatched) && !t.confirmed
  }

  datatype Kind = TransportLevel | Refusal

  /** An error leaving the transport. `Gateway` is a `McpGatewayError`. */
  datatype Failure =
    | Gateway(kind: Kind, retryable: bool, unknown: bool)
    | NotGateway

  const UNKNOWN: Failure := Gateway(TransportLevel, false, true)

  function MapTransportError(e: TransportError, ambiguous: bool): Failure {
    if ambiguous then UNKNOWN
    else match e.code
      case ProxyTargetBlocked => NotGateway
      case ResponseTooLarge => Gateway(TransportLevel, false, false)
      case ResponseInvalid => Gateway(TransportLevel, false, false)
      case _ => Gateway(TransportLevel, e.retryable, false)
  }

  function TimeoutError(t: Tracker): Failure {
    if MayBeUnknown(t) then UNKNOWN else Gateway(TransportLevel, true, false)
  }

  // ----- The transport -----

  /** A request the SDK issued: the method and, for a tools/call, its request id. */
  datatype Ask = Ask(get: bool, call: Option<Expected>)

  /** A request in flight. `operation` numbers the operation that issued it. */
  datatype Flight =
    | Resolving(get: bool, write: bool, operation: nat)
    | InThread(get: bool, write: bool, operation: nat, sent: bool)

  /** An open response body. */
  datatype Body = Body(expected: Option<Expected>, persistent: bool, operation: nat)

  /** The transport, and what truly happened: whether `sendall` may have begun for a
      write of the current operation, and whether its terminal response arrived. */
  datatype State = State(
    tracker: Tracker,
    writeCall: bool,
    flights: map<Key, Flight>,
    bodies: map<Key, Body>,
    operation: nat,
    sent: bool,
    answered: bool)

  predicate Window(s: State) {
    s.sent && !s.answered
  }

  datatype Early = Expired | NameTimeout | HeadersTooLarge | Blocked | DeadlinePassed

  datatype Action =
    | Begin(write: bool)
    | Accept(key: Key, ask: Ask)
    | FailEarly(key: Key, cause: Early)     // before the worker thread is started
    | Submit(key: Key)
    | SendBegins(key: Key)
    | OpenEnds(key: Key, wire: Wire, activation: Option<TransportError>)
    | Abandon(key: Key)                     // cancelled
    | BodyBreaks(key: Key, error: TransportError)
    | BodyRefused(key: Key)                 // by the frame guard
    | BodyEnds(key: Key, terminal: bool)
    | BodyCloses(key: Key, terminal: bool)
    | Deadline

  predicate Enabled(s: State, a: Action) {
    match a
    case Begin(_) => true
    case Accept(q, ask) =>
      && q !in s.flights && q !in s.bodies
      // a tools/call is posted, and an operation makes one
      && (ask.call.Some? ==> !ask.get && (s.writeCall ==> s.tracker.expected == None))
    case FailEarly(q, _) => q in s.flights && s.flights[q].Resolving?
    case Submit(q) => q in s.flights && s.flights[q].Resolving?
    case SendBegins(q) => q in s.flights && s.flights[q].InThread? && !s.flights[q].sent
    case OpenEnds(q, w, activation) =>
      && q in s.flights && s.flights[q].InThread? && s.flights[q].sent == SendBegan(w)
      && (activation.Some? ==> activation.value.dispatchStarted)
    case Abandon(q) => q in s.flights
    case BodyBreaks(x, e) => x in s.bodies && e.dispatchStarted
    case BodyRefused(x) => x in s.bodies
    case BodyEnds(x, terminal) => x in s.bodies && (terminal ==> s.bodies[x].expected != Some(Impossible))
    case BodyCloses(x, terminal) => x in s.bodies && (terminal ==> s.bodies[x].expected != Some(Impossible))
    case Deadline => true
  }

  function Without(s: State, q: Key): State {
    s.(flights := s.flights - {q})
  }

  predicate AuthError(r: Response) {
    r.status == 401 || (r.status == 403 && r.insufficientScope)
  }

  predicate BecomesPersistent(f: Flight, r: Response) {
    f.get && r.status == 200 && r.eventStream
  }

  /** How an attempt ends. */
  function Ended(w: Wire): Opened {
    if w.Answering? then Stream(w.response) else Report(w.fault, SendBegan(w))
  }

  /** The error raised when an attempt ends, if any. */
  function OpenFailure(f: Flight, w: Wire, activation: Option<TransportError>): Option<Failure> {
    match Ended(w)
    case Failed(e) => Some(MapTransportError(e, f.write && e.dispatchStarted))
    case Escaped => Some(NotGateway)
    case Stream(r) =>
      if AuthError(r) then Some(Gateway(Refusal, false, false))
      else if f.write && 300 <= r.status < 400 then Some(UNKNOWN)
      else if BecomesPersistent(f, r) && activation.Some?
      then Some(MapTransportError(activation.value, f.write))
      else None
  }

  /** The tracker after an attempt by a write ends. */
  function OpenTracker(t: Tracker, w: Wire): Tracker {
    match Ended(w)
    case Stream(_) => t.(dispatched := true)
    case Failed(e) => t.(dispatched := e.dispatchStarted, submitted := t.submitted && e.dispatchStarted)
    case Escaped => t
  }

  /** The tracker as the object that the requests of one transport share. */
  class WriteOutcomeTracker {
    var expected: Option<Expected>
    var submitted: bool
    var dispatched: bool
    var confirmed: bool

    function View(): Tracker
      reads this
    {
      Tracker(expected, submitted, dispatched, confirmed)
    }

    constructor ()
      ensures View() == RESET
    {
      expected, submitted, dispatched, confirmed := None, false, false, false;
    }

    method Reset()
      modifies this
      ensures View() == RESET
    {
      expected, submitted, dispatched, confirmed := None, false, false, false;
    }

    method Expect(request: Expected)
      modifies this`expected
      ensures View() == old(View()).(expected := Some(request))
    {
      expected := Some(request);
    }

    method SubmitToTransport()
      modifies this`submitted
      ensures View() == old(View()).(submitted := true)
    {
      submitted := true;
    }

    /** The attempt of the write, and what its end says about it. */
    method Attempt(s: Script) returns (r: Opened)
      modifies this
      ensures View() == OpenTracker(old(View()), WireOf(s))
      ensures r == Ended(WireOf(s))
      ensures r.Failed? ==> dispatched == ReachesSend(s) && submitted == (old(submitted) && ReachesSend(s))
    {
      r := OpenStream(s);
      match r
      case Stream(_) => dispatched := true;
      case Failed(e) =>
        dispatched := e.dispatchStarted;
        if !e.dispatchStarted {
          submitted := false;
        }
      case Escaped =>
    }

    method ConfirmTerminal()
      modifies this`confirmed
      ensures View() == old(View()).(confirmed := true)
    {
      confirmed := true;
    }

    method OperationTimeoutError() returns (f: Failure)
      ensures f == TimeoutError(View())
      ensures f == UNKNOWN <==> MayBeUnknown(View())
    {
      if expected.Some? && (submitted || dispatched) && !confirmed {
        return UNKNOWN;
      }
      return Gateway(TransportLevel, true, false);
    }

    /** A request from the hands of the SDK to its response or error, when nothing happens meanwhile: the
        tracker goes through the steps of the state machine, and the last of them raises what the SDK sees. */
    method HandleRequest(writeCall: bool, ask: Ask, early: Option<Early>, script: Script,
                         activation: Option<TransportError>, ghost s: State, ghost q: Key)
      returns (failure: Option<Failure>)
      requires s.tracker == View() && s.writeCall == writeCall && Enabled(s, Accept(q, ask))
      requires activation.Some? ==> activation.value.dispatchStarted
      modifies this
      ensures Possible(s, RequestSteps(q, ask, early, script, activation))
      ensures After(s, RequestSteps(q, ask, early, script, activation)).tracker == View()
      ensures failure == Raises(BeforeLast(s, q, ask, early, script), LastStep(q, early, script, activation))
    {
      RequestEnds(s, q, ask, early, script, activation);
      hide Apply, Enabled, After, Possible, Raises, BeforeLast, RequestSteps, LastStep;
      hide OpenFailure, OpenTracker, WireOf;
      var write := writeCall && ask.call.Some?;
      if write {
        Expect(ask.call.value);
      }
      if early.Some? {
        if early.value.DeadlinePassed? {
          var late := OperationTimeoutError();
          return Some(late);
        }
        return Some(EarlyFailure(early.value));
      }
      if write {
        SubmitToTransport();
      }
      var attempt: Opened;
      if write {
        attempt := Attempt(script);
      } else {
        attempt := OpenStream(script);
      }
      failure := CheckOpened(attempt, ask.get, write, activation);
    }

    /** What the SDK sees of an attempt: an error, or None when it gets the response. */
    method CheckOpened(attempt: Opened, get: bool, write: bool, activation: Option<TransportError>)
      returns (failure: Option<Failure>)
      ensures forall f: Flight, w: Wire :: f.get == get && f.write == write && attempt == Ended(w) ==>
          failure == OpenFailure(f, w, activation)
    {
      match attempt
      case Failed(e) => return Some(MapTransportError(e, write && e.dispatchStarted));
      case Escaped => return Some(NotGateway);
      case Stream(r) =>
        if AuthError(r) {
          return Some(Gateway(Refusal, false, false));
        }
        if write && 300 <= r.status < 400 {
          return Some(UNKNOWN);
        }
        if get && r.status == 200 && r.eventStream && activation.Some? {
          return Some(MapTransportError(activation.value, write));
        }
        return None;
    }

    /** The check at the end of a response body. */
    method VerifyWriteCompletion(request: Option<Expected>, terminal: bool) returns (failure: Option<Failure>)
      modifies this`confirmed
      ensures confirmed == (old(confirmed) || (request.Some? && terminal))
      ensures failure == if request.Some? && !terminal then Some(UNKNOWN) else None
    {
      if request.None? {
        return None;
      }
      if terminal {
        ConfirmTerminal();
        return None;
      }
      return Some(UNKNOWN);
    }

    /** A write from end to end, when nothing happens meanwhile. It succeeds exactly with a terminal answer; a failure
        after `sendall` is entered is never retryable and leaves the timeout ambiguous; one before never is ambiguous. */
    method PerformWrite(id: nat, early: Option<Early>, script: Script, terminal: bool) returns (failure: Option<Failure>)
      modifies this
      ensures failure.None? <==>
          early.None? && ReachesSend(script) && script.send.None? && script.headers.None?
          && !AuthError(script.response) && !(300 <= script.response.status < 400) && terminal
      ensures failure.None? ==> confirmed
      ensures early.None? && ReachesSend(script) && failure.Some? ==>
          !confirmed && MayBeUnknown(View())
          && (failure.value.Gateway? ==> !failure.value.retryable && (failure.value.unknown || failure.value.kind.Refusal?))
      ensures !(early.None? && ReachesSend(script)) && failure.Some? && failure.value.Gateway? ==>
          !failure.value.unknown
    {
      Reset();
      var ask := Ask(false, Some(Id(id)));
      ghost var start := NEW.(writeCall := true);
      RequestEnds(start, 0, ask, early, script, None);
      failure := HandleRequest(true, ask, early, script, None, start, 0);
      if failure.None? {
        failure := VerifyWriteCompletion(expected, terminal);
      }
    }
  }

  // ----- One request by itself -----

  function EarlyFailure(cause: Early): Failure {
    match cause
    case HeadersTooLarge => Gateway(Refusal, false, false)
    case Blocked => NotGateway
    case _ => Gateway(TransportLevel, true, false)
  }

  /** The steps of one request. */
  function RequestSteps(q: Key, ask: Ask, early: Option<Early>, script: Script, activation: Option<TransportError>): seq<Action> {
    if early.Some? then [Accept(q, ask), FailEarly(q, early.value)]
    else if ReachesSend(script) then
      [Accept(q, ask), Submit(q), SendBegins(q), OpenEnds(q, WireOf(script), activation)]
    else [Accept(q, ask), Submit(q), OpenEnds(q, WireOf(script), activation)]
  }

  /** The state before the last step of a request. */
  function BeforeLast(s: State, q: Key, ask: Ask, early: Option<Early>, script: Script): (r: State)
    requires Enabled(s, Accept(q, ask))
    ensures q in r.flights && (early.Some? ==> r.flights[q].Resolving?)
    ensures early.None? ==> r.flights[q].InThread? && r.flights[q].sent == ReachesSend(script)
    ensures r.flights[q].get == ask.get && r.flights[q].write == (s.writeCall && ask.call.Some?)
    ensures r.tracker == if !r.flights[q].write then s.tracker
                         else s.tracker.(expected := ask.call, submitted := early.None? || s.tracker.submitted)
  {
    var s1 := Apply(s, Accept(q, ask));
    if early.Some? then s1
    else if ReachesSend(script) then Apply(Apply(s1, Submit(q)), SendBegins(q))
    else Apply(s1, Submit(q))
  }

  function LastStep(q: Key, early: Option<Early>, script: Script, activation: Option<TransportError>): Action {
    if early.Some? then FailEarly(q, early.value) else OpenEnds(q, WireOf(script), activation)
  }

  lemma RequestIsPossible(s: State, q: Key, ask: Ask, early: Option<Early>, script: Script, activation: Option<TransportError>)
    requires Enabled(s, Accept(q, ask)) && (activation.Some? ==> activation.value.dispatchStarted)
    ensures
      var steps := RequestSteps(q, ask, early, script, activation);
      && Possible(s, steps)
      && After(s, steps) == Apply(BeforeLast(s, q, ask, early, script), LastStep(q, early, script, activation))
  {
    var s1 := Apply(s, Accept(q, ask));
    var acts := [Accept(q, ask)];
    assert acts[1..] == [];
    assert After(s, acts) == s1;
    if early.None? {
      PossibleAppend(s, acts, Submit(q));
      acts := acts + [Submit(q)];
      if ReachesSend(script) {
        PossibleAppend(s, acts, SendBegins(q));
        acts := acts + [SendBegins(q)];
      }
    }
    PossibleAppend(s, acts, LastStep(q, early, script, activation));
    assert acts + [LastStep(q, early, script, activation)] == RequestSteps(q, ask, early, script, activation);
  }

  lemma RequestEnds(s: State, q: Key, ask: Ask, early: Option<Early>, script: Script, activation: Option<TransportError>)
    requires Enabled(s, Accept(q, ask)) && (activation.Some? ==> activation.value.dispatchStarted)
    ensures Possible(s, RequestSteps(q, ask, early, script, activation))
    ensures
      var b, a := BeforeLast(s, q, ask, early, script), LastStep(q, early, script, activation);
      && Enabled(b, a)
      && After(s, RequestSteps(q, ask, early, script, activation)).tracker ==
           (if early.Some? || !b.flights[q].write then b.tracker else OpenTracker(b.tracker, WireOf(script)))
      && Raises(b, a) ==
           if early.None? then OpenFailure(b.flights[q], WireOf(script), activation)
           else Some(if early.value.DeadlinePassed? then TimeoutError(b.tracker) else EarlyFailure(early.value))
  {
    RequestIsPossible(s, q, ask, early, script, activation);
    hide BeforeLast, OpenFailure, OpenTracker, RequestSteps;
  }

  /** What the completion check of a response body does; None for no error. */
  function CompletionFailure(b: Body, terminal: bool): Option<Failure> {
    if b.expected == None || terminal then None else Some(UNKNOWN)
  }

  function Completed(s: State, b: Body, terminal: bool): State {
    if b.expected == None || !terminal then s
    else s.(tracker := s.tracker.(confirmed := true), answered := s.answered || b.operation == s.operation)
  }

  function Raises(s: State, a: Action): Option<Failure>
    requires Enabled(s, a)
  {
    match a
    case FailEarly(q, cause) =>
      Some(if cause.DeadlinePassed? then TimeoutError(s.tracker) else EarlyFailure(cause))
    case OpenEnds(q, w, activation) => OpenFailure(s.flights[q], w, activation)
    case BodyBreaks(x, e) => Some(MapTransportError(e, s.bodies[x].expected.Some?))
    case BodyRefused(x) => Some(Gateway(Refusal, false, false))
    case BodyEnds(x, terminal) =>
      if s.bodies[x].persistent then Some(Gateway(TransportLevel, true, false))
      else CompletionFailure(s.bodies[x], terminal)
    case BodyCloses(x, terminal) => CompletionFailure(s.bodies[x], terminal)
    case Deadline => Some(TimeoutError(s.tracker))
    case _ => None
  }

  function Apply(s: State, a: Action): State
    requires Enabled(s, a)
  {
    match a
    case Begin(write) =>
      s.(tracker := RESET, writeCall := write, operation := s.operation + 1, sent := false, answered := false)
    case Accept(q, ask) =>
      var write := s.writeCall && ask.call.Some?;
      s.(tracker := if write then s.tracker.(expected := ask.call) else s.tracker,
         flights := s.flights[q := Resolving(ask.get, write, s.operation)])
    case FailEarly(q, _) => Without(s, q)
    case Submit(q) =>
      var f := s.flights[q];
      s.(tracker := if f.write then s.tracker.(submitted := true) else s.tracker,
         flights := s.flights[q := InThread(f.get, f.write, f.operation, false)])
    case SendBegins(q) =>
      var f := s.flights[q];
      s.(flights := s.flights[q := f.(sent := true)],
         sent := s.sent || (f.write && f.operation == s.operation))
    case OpenEnds(q, w, activation) =>
      var f := s.flights[q];
      var t := if f.write then OpenTracker(s.tracker, w) else s.tracker;
      var done := Without(s, q).(tracker := t);
      if OpenFailure(f, w, activation).Some? then done
      else done.(bodies := s.bodies[q := Body(if f.write then t.expected else None,
                                              BecomesPersistent(f, w.response), f.operation)])
    case Abandon(q) => Without(s, q)
    case BodyEnds(x, terminal) =>
      if s.bodies[x].persistent then s else Completed(s, s.bodies[x], terminal)
    case BodyCloses(x, terminal) =>
      Completed(s, s.bodies[x], terminal).(bodies := s.bodies - {x})
    case _ => s
  }

  /** An environment's choices, one after the other. */
  predicate Possible(s: State, acts: seq<Action>)
    decreases |acts|
  {
    acts == [] || (Enabled(s, acts[0]) && Possible(Apply(s, acts[0]), acts[1..]))
  }

  function After(s: State, acts: seq<Action>): State
    requires Possible(s, acts)
    decreases |acts|
  {
    if acts == [] then s else After(Apply(s, acts[0]), acts[1..])
  }

  // ----- One operation -----

  /** A body whose completion check can still succeed for a write. */
  predicate Confirming(b: Body) {
    b.expected.Some? && b.expected != Some(Impossible)
  }

  /** No tools/call request, and no response that could confirm one, is in flight. */
  predicate Quiet(s: State) {
    && (forall q <- s.flights :: !s.flights[q].write)
    && (forall x <- s.bodies :: !Confirming(s.bodies[x]))
  }

  /** True of every state a transport gets into. */
  predicate Sane(s: State) {
    && s.flights.Keys !! s.bodies.Keys
    && (forall q <- s.flights :: (s.flights[q].write ==> !s.flights[q].get) && s.flights[q].operation <= s.operation)
    && (forall x <- s.bodies :: (s.bodies[x].expected.Some? ==> !s.bodies[x].persistent)
                                && s.bodies[x].operation <= s.operation)
  }

  lemma SaneKept(s: State, a: Action)
    requires Sane(s) && Enabled(s, a)
    ensures Sane(Apply(s, a))
  {
  }

  lemma {:induction false} SaneAfter(s: State, acts: seq<Action>)
    requires Sane(s) && Possible(s, acts)
    ensures Sane(After(s, acts))
    decreases |acts|
  {
    if acts != [] {
      hide Sane, Apply, Enabled;
      SaneKept(s, acts[0]);
      SaneAfter(Apply(s, acts[0]), acts[1..]);
    }
  }

  predicate WithinOperation(acts: seq<Action>) {
    forall i :: 0 <= i < |acts| ==> !acts[i].Begin?
  }

  /** A flight of the operation's write agrees with the tracker and with the truth. */
  predicate FlightAgrees(s: State, f: Flight) {
    f.write ==>
      && !f.get && f.operation == s.operation && s.tracker.expected.Some? && !s.answered
      && (f.InThread? ==> s.tracker.submitted && s.sent == f.sent)
      && (f.Resolving? ==> !s.sent && !s.tracker.submitted && !s.tracker.dispatched)
  }

  predicate BodyAgrees(s: State, b: Body) {
    && (b.expected.Some? ==> !b.persistent)
    && (Confirming(b) ==>
          b.operation == s.operation && b.expected == s.tracker.expected && s.sent && s.tracker.dispatched)
  }

  ghost predicate OneWrite(s: State) {
    && (forall p, q :: p in s.flights && q in s.flights && s.flights[p].write && s.flights[q].write ==> p == q)
    && (forall q, x :: q in s.flights && x in s.bodies ==> !(s.flights[q].write && Confirming(s.bodies[x])))
  }

  ghost predicate Inv(s: State) {
    && (forall q <- s.flights :: FlightAgrees(s, s.flights[q]))
    && (forall x <- s.bodies :: BodyAgrees(s, s.bodies[x]))
    && OneWrite(s)
    && (s.sent ==> s.tracker.expected.Some? && (s.tracker.submitted || s.tracker.dispatched))
    && (s.tracker.confirmed <==> s.answered)
    && (s.tracker.expected == None ==> !s.answered && !s.tracker.submitted && !s.tracker.dispatched)
  }

  lemma FlightStepKeeps(s: State, a: Action)
    requires Inv(s) && Enabled(s, a)
    requires a.Accept? || a.FailEarly? || a.Submit? || a.SendBegins? || a.Abandon?
    ensures Inv(Apply(s, a))
  {
  }

  lemma OpenEndsKeeps(s: State, a: Action)
    requires Inv(s) && Enabled(s, a) && a.OpenEnds?
    ensures Inv(Apply(s, a))
  {
  }

  lemma {:induction false} OperationKeeps(s: State, acts: seq<Action>)
    requires Inv(s) && Possible(s, acts) && WithinOperation(acts)
    ensures Inv(After(s, acts))
    decreases |acts|
  {
    if acts != [] {
      hide Inv, Apply, Enabled;
      var a := acts[0];
      assert !a.Begin?;
      if a.OpenEnds? {
        OpenEndsKeeps(s, a);
      } else if a.Accept? || a.FailEarly? || a.Submit? || a.SendBegins? || a.Abandon? {
        FlightStepKeeps(s, a);
      }
      assert WithinOperation(acts[1..]);
      OperationKeeps(Apply(s, a), acts[1..]);
    }
  }

  // ----- Errors inside the window -----

  /** The request or body an event is about, when that is not the write's own. */
  predicate ConcernsAnother(s: State, a: Action) {
    match a
    case FailEarly(q, _) => q in s.flights && !s.flights[q].write
    case OpenEnds(q, _, _) => q in s.flights && !s.flights[q].write
    case BodyBreaks(x, _) => x in s.bodies && s.bodies[x].expected == None
    case BodyEnds(x, _) => x in s.bodies && s.bodies[x].expected == None
    case _ => false
  }

  /** The remote side asks for renewed authorization, or its event stream breaks a rule of the guard. */
  predicate RefusesAnswer(a: Action) {
    (a.OpenEnds? && a.wire.Answering? && AuthError(a.wire.response)) || a.BodyRefused?
  }

  /** Inside the window the tracker says the outcome may be unknown, and no event about
      the write itself, nor the deadline, raises a retryable error; each error is
      outcome-unknown, exactly unless it refuses the answer, and so each failure at
      transport level is. */
  lemma WindowErrors(s: State, write: bool, acts: seq<Action>, a: Action)
    requires Sane(s) && Quiet(s)
    requires Possible(Apply(s, Begin(write)), acts) && WithinOperation(acts)
    requires Enabled(After(Apply(s, Begin(write)), acts), a)
    ensures
      var now := After(Apply(s, Begin(write)), acts);
      Window(now) ==>
        && MayBeUnknown(now.tracker)
        && (Raises(now, a).Some? && Raises(now, a).value.Gateway? && !ConcernsAnother(now, a) ==>
              var f := Raises(now, a).value;
              !f.retryable && (f.unknown <==> !RefusesAnswer(a)) && (f.kind.TransportLevel? ==> f.unknown))
  {
    OperationKeeps(Apply(s, Begin(write)), acts);
  }

  /** An attempt of the write that fails before `sendall` is entered is not ambiguous:
      the error is not outcome-unknown, and neither is a timeout afterwards. */
  lemma EarlierFailureIsKnown(s: State, q: Key, stage: Stage, fault: Fault)
    requires Inv(s) && q in s.flights && s.flights[q].write
    requires Enabled(s, OpenEnds(q, Failing(stage, fault), None)) && !s.flights[q].sent
    requires !fault.Foreign?
    ensures
      var a := OpenEnds(q, Failing(stage, fault), None);
      && Raises(s, a).Some?
      && (Raises(s, a).value.Gateway? ==> !Raises(s, a).value.unknown)
      && !MayBeUnknown(Apply(s, a).tracker)
  {
  }

  /** Only the write of this operation is in flight. */
  predicate OnlyTheWrite(s: State) {
    && (forall q <- s.flights :: s.flights[q].write)
    && (forall x <- s.bodies :: s.bodies[x].expected.Some?)
  }

  ghost predicate NothingRetryable(s: State) {
    forall a :: Enabled(s, a) && Raises(s, a).Some? && Raises(s, a).value.Gateway? ==> !Raises(s, a).value.retryable
  }

  /** The window protects the whole transport exactly when nothing but the write is in
      flight on it. Any other request or body, such as the persistent event stream of
      a legacy session, can still end in a retryable error while the write is open. */
  lemma NothingRetryableExactlyWhen(s: State)
    requires Inv(s) && Window(s)
    ensures NothingRetryable(s) <==> OnlyTheWrite(s)
  {
    if OnlyTheWrite(s) {
      forall a | Enabled(s, a) && Raises(s, a).Some? && Raises(s, a).value.Gateway?
        ensures !Raises(s, a).value.retryable
      {
      }
    }
    if NothingRetryable(s) {
      forall q <- s.flights
        ensures s.flights[q].write
      {
        var a := if s.flights[q].Resolving? then FailEarly(q, NameTimeout)
                 else OpenEnds(q, Failing(if s.flights[q].sent then Headers else Connect, Io), None);
        assert Enabled(s, a);
        assert Raises(s, a).Some?;
      }
      forall x <- s.bodies
        ensures s.bodies[x].expected.Some?
      {
        var a := BodyBreaks(x, TransportError(Unavailable, true, true));
        assert Enabled(s, a);
        assert Raises(s, a).Some?;
      }
    }
  }

  // ----- From one operation to the next -----

  /** The tracker never misses an open window during the operation that begins now. */
  ghost predicate TrackerReliable(s: State) {
    forall acts :: Possible(Apply(s, Begin(true)), acts) && WithinOperation(acts) ==>
      var now := After(Apply(s, Begin(true)), acts);
      Window(now) ==> MayBeUnknown(now.tracker)
  }

  lemma {:induction false} PossibleAppend(s: State, acts: seq<Action>, a: Action)
    requires Possible(s, acts) && Enabled(After(s, acts), a)
    ensures Possible(s, acts + [a]) && After(s, acts + [a]) == Apply(After(s, acts), a)
    decreases |acts|
  {
    hide Apply, Enabled;
    if acts == [] {
      assert acts + [a] == [a];
      assert [a][1..] == [];
    } else {
      assert (acts + [a])[1..] == acts[1..] + [a];
      PossibleAppend(Apply(s, acts[0]), acts[1..], a);
    }
  }

  /** A new operation dispatches its write; earlier requests and bodies are untouched. */
  lemma DispatchWrite(s: State, q: Key) returns (acts: seq<Action>)
    requires q !in s.flights && q !in s.bodies
    ensures Possible(Apply(s, Begin(true)), acts) && WithinOperation(acts)
    ensures
      var now := After(Apply(s, Begin(true)), acts);
      && Window(now) && now.tracker == Tracker(Some(Id(0)), true, false, false)
      && now.flights == s.flights[q := InThread(false, true, s.operation + 1, true)]
      && now.bodies == s.bodies && now.operation == s.operation + 1
  {
    var s0 := Apply(s, Begin(true));
    var s1 := Apply(s0, Accept(q, Ask(false, Some(Id(0)))));
    var s2 := Apply(s1, Submit(q));
    var s3 := Apply(s2, SendBegins(q));
    acts := [Accept(q, Ask(false, Some(Id(0))))];
    assert acts[1..] == [];
    PossibleAppend(s0, acts, Submit(q));
    acts := acts + [Submit(q)];
    PossibleAppend(s0, acts, SendBegins(q));
    acts := acts + [SendBegins(q)];
  }

  lemma Misled(s: State, acts: seq<Action>, last: Action)
    requires Possible(Apply(s, Begin(true)), acts) && WithinOperation(acts) && !last.Begin?
    requires Enabled(After(Apply(s, Begin(true)), acts), last)
    requires
      var now := Apply(After(Apply(s, Begin(true)), acts), last);
      Window(now) && !MayBeUnknown(now.tracker)
    ensures !TrackerReliable(s)
  {
    hide Apply;
    PossibleAppend(Apply(s, Begin(true)), acts, last);
    assert WithinOperation(acts + [last]);
  }

  /** A response to an earlier write confirms the new one. */
  lemma OldBodyMisleads(s: State, k: Key, x: Key)
    requires Sane(s) && x in s.bodies && Confirming(s.bodies[x])
    requires k !in s.flights && k !in s.bodies
    ensures !TrackerReliable(s)
  {
    var acts := DispatchWrite(s, k);
    Misled(s, acts, BodyCloses(x, true));
  }

  /** An earlier write that fails to connect clears the flags of the new one. */
  lemma OldRequestMisleads(s: State, k: Key, q: Key)
    requires Sane(s) && q in s.flights && s.flights[q].write && !(s.flights[q].InThread? && s.flights[q].sent)
    requires k !in s.flights && k !in s.bodies
    ensures !TrackerReliable(s)
  {
    var acts := DispatchWrite(s, k);
    if s.flights[q].Resolving? {
      PossibleAppend(Apply(s, Begin(true)), acts, Submit(q));
      acts := acts + [Submit(q)];
    }
    Misled(s, acts, OpenEnds(q, Failing(Connect, Io), None));
  }

  /** The answer to an earlier write is checked against the new request id. */
  lemma OldAnswerMisleads(s: State, k: Key, q: Key)
    requires Sane(s) && q in s.flights && s.flights[q].write && s.flights[q].InThread? && s.flights[q].sent
    requires k !in s.flights && k !in s.bodies
    ensures !TrackerReliable(s)
  {
    var acts := DispatchWrite(s, k);
    var answer := OpenEnds(q, Answering(Response(200, false, false)), None);
    PossibleAppend(Apply(s, Begin(true)), acts, answer);
    acts := acts + [answer];
    Misled(s, acts, BodyCloses(q, true));
  }

  /** A leftover of an earlier write makes the tracker miss a window. */
  lemma LeftoverMisleads(s: State)
    requires Sane(s) && !Quiet(s)
    ensures !TrackerReliable(s)
  {
    hide Sane, TrackerReliable;
    var k := FreshNat(s.flights.Keys + s.bodies.Keys);
    if x :| x in s.bodies && Confirming(s.bodies[x]) {
      OldBodyMisleads(s, k, x);
    } else {
      var q :| q in s.flights && s.flights[q].write;
      if s.flights[q].InThread? && s.flights[q].sent {
        OldAnswerMisleads(s, k, q);
      } else {
        OldRequestMisleads(s, k, q);
      }
    }
  }

  /** The tracker is reliable during an operation exactly when, at its start, no
      request of an earlier write and no response that could confirm one is in flight. */
  lemma ReliableExactlyWhenQuiet(s: State)
    requires Sane(s)
    ensures TrackerReliable(s) <==> Quiet(s)
  {
    if Quiet(s) {
      forall acts | Possible(Apply(s, Begin(true)), acts) && WithinOperation(acts)
        ensures var now := After(Apply(s, Begin(true)), acts); Window(now) ==> MayBeUnknown(now.tracker)
      {
        OperationKeeps(Apply(s, Begin(true)), acts);
      }
    } else {
      LeftoverMisleads(s);
    }
  }

  // ----- Timeouts -----

  /** No write of the operation has been handed to the transport. */
  predicate NothingSubmitted(s: State) {
    && !s.tracker.submitted && !s.tracker.dispatched
    && forall q <- s.flights :: s.flights[q].write ==> s.flights[q].Resolving?
  }

  lemma {:induction false} StaysUnsubmitted(s: State, acts: seq<Action>)
    requires NothingSubmitted(s) && Possible(s, acts) && WithinOperation(acts)
    requires forall i :: 0 <= i < |acts| ==> !acts[i].Submit?
    ensures NothingSubmitted(After(s, acts))
    decreases |acts|
  {
    if acts != [] {
      var a := acts[0];
      assert !a.Begin? && !a.Submit?;
      UnsubmittedStep(s, a);
      assert forall i :: 0 <= i < |acts[1..]| ==> acts[1..][i] == acts[i + 1];
      hide NothingSubmitted, Apply, Enabled;
      StaysUnsubmitted(Apply(s, a), acts[1..]);
    }
  }

  lemma UnsubmittedStep(s: State, a: Action)
    requires NothingSubmitted(s) && Enabled(s, a) && !a.Begin? && !a.Submit?
    ensures NothingSubmitted(Apply(s, a))
  {
  }

  /** A timeout that may be retried leaves no write open, and one that may not be follows a write handed to the transport. */
  lemma TimeoutTellsTheTruth(s: State, write: bool, acts: seq<Action>)
    requires Sane(s) && Quiet(s)
    requires Possible(Apply(s, Begin(write)), acts) && WithinOperation(acts)
    ensures
      var now := After(Apply(s, Begin(write)), acts);
      && (TimeoutError(now.tracker).retryable ==> !Window(now))
      && (TimeoutError(now.tracker) == UNKNOWN ==> exists i :: 0 <= i < |acts| && acts[i].Submit?)
  {
    OperationKeeps(Apply(s, Begin(write)), acts);
    if forall i :: 0 <= i < |acts| ==> !acts[i].Submit? {
      StaysUnsubmitted(Apply(s, Begin(write)), acts);
    }
  }

  // ----- Runs of a transport -----

  /** A new transport. */
  const NEW: State := State(RESET, false, map[], map[], 0, false, false)

  /** Every run begins with a new transport, so what is said of sane states holds in every state of every run. */
  lemma EveryRunIsSane(acts: seq<Action>)
    requires Possible(NEW, acts)
    ensures Sane(After(NEW, acts))
  {
    SaneAfter(NEW, acts);
  }
}
