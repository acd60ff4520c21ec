/**
 What a caller is told when an operation raises: exceptions, also grouped ones, become gateway errors.
 */
module OperationErrors {
  import opened Common

  // ----- Exceptions -----

  /** Single exceptions by what the translation tells apart; the classes are disjoint. */
  datatype Cause =
    | Own(retryable: bool, unknown: bool)   // `McpGatewayError`
    | FromProtocol                          // the SDK's error, among others for its read timeout, or a validation error
    | AtRuntime
    | InputOutput                           // HTTP and socket errors, and timeouts
    | Other

  datatype Error = Single(cause: Cause) | Group(parts: seq<Error>)

  /** A gateway error as the caller gets it, or the exception itself. */
  datatype Told = Told(retryable: bool, unknown: bool) | AsIs(error: Error)

  /** `_find_exception`: depth first, and groups themselves are never wanted. */
  function Find(parts: seq<Error>, wanted: Cause -> bool): Option<Cause>
    decreases parts
  {
    if parts == [] then None
    else match parts[0]
      case Single(c) => if wanted(c) then Some(c) else Find(parts[1..], wanted)
      case Group(inner) =>
        var nested := Find(inner, wanted);
        if nested.Some? then nested else Find(parts[1..], wanted)
  }

  const OWN: Cause -> bool := (c: Cause) => c.Own?
  const RUNTIME: Cause -> bool := (c: Cause) => c.AtRuntime?
  const PROTOCOL: Cause -> bool := (c: Cause) => c.FromProtocol?
  const IO: Cause -> bool := (c: Cause) => c.InputOutput?

  /** `_execute_with_errors` */
  function Translated(e: Error): Told {
    match e
    case Single(Own(retryable, unknown)) => Told(retryable, unknown)
    case Single(FromProtocol) => Told(false, false)
    case Single(AtRuntime) => Told(false, false)
    case Single(InputOutput) => Told(true, false)
    case Single(Other) => AsIs(e)
    case Group(parts) =>
      var own := Find(parts, OWN);
      if own.Some? && own.value.Own? then Told(own.value.retryable, own.value.unknown)
      else if Find(parts, RUNTIME).Some? then Told(false, false)
      else if Find(parts, PROTOCOL).Some? then Told(false, false)
      else if Find(parts, IO).Some? then Told(true, false)
      else AsIs(e)
  }

  // ----- What the translation keeps -----

  /** The single exceptions in an error, in order. */
  function Causes(e: Error): seq<Cause>
    decreases e, 1
  {
    match e
    case Single(c) => [c]
    case Group(parts) => AllCauses(parts)
  }

  function AllCauses(parts: seq<Error>): seq<Cause>
    decreases parts, 0
  {
    if parts == [] then [] else Causes(parts[0]) + AllCauses(parts[1..])
  }

  /** The first wanted cause of a list. */
  function First(causes: seq<Cause>, wanted: Cause -> bool): (r: Option<Cause>)
    ensures r.Some? ==> wanted(r.value) && r.value in causes
    ensures r.None? ==> forall c <- causes :: !wanted(c)
  {
    if causes == [] then None
    else if wanted(causes[0]) then Some(causes[0])
    else First(causes[1..], wanted)
  }

  lemma {:induction false} FirstAppend(a: seq<Cause>, b: seq<Cause>, wanted: Cause -> bool)
    ensures First(a + b, wanted) == if First(a, wanted).Some? then First(a, wanted) else First(b, wanted)
  {
    if a == [] {
      assert a + b == b;
    } else {
      assert (a + b)[1..] == a[1..] + b;
      FirstAppend(a[1..], b, wanted);
    }
  }

  /** The search finds the first wanted cause, however deeply it is nested. */
  lemma {:induction false} FindsTheFirst(parts: seq<Error>, wanted: Cause -> bool)
    ensures Find(parts, wanted) == First(AllCauses(parts), wanted)
    decreases parts
  {
    if parts != [] {
      FirstAppend(Causes(parts[0]), AllCauses(parts[1..]), wanted);
      FindsTheFirst(parts[1..], wanted);
      if parts[0].Group? {
        FindsTheFirst(parts[0].parts, wanted);
      } else {
        assert [parts[0].cause][1..] == [];
      }
    }
  }

  /**
   What the caller is told, whatever is raised. The outcome counts as unknown exactly when the first gateway error
   says so; the operation may be retried exactly when the first gateway error says so, or there is none, and none of
   the protocol or at run time, but one of input and output; and only other exceptions are passed on as they are.
   */
  lemma ToldExactly(e: Error)
    ensures
      var causes := Causes(e);
      var own := First(causes, OWN);
      && (Translated(e).AsIs? <==> forall c <- causes :: c.Other?)
      && (Translated(e).Told? ==>
            && (Translated(e).unknown <==> own.Some? && own.value.unknown)
            && (Translated(e).retryable <==>
                 if own.Some? then own.value.retryable
                 else (exists c <- causes :: c.InputOutput?) && forall c <- causes :: c.InputOutput? || c.Other?))
  {
    var causes := Causes(e);
    if e.Group? {
      FindsTheFirst(e.parts, OWN);
      FindsTheFirst(e.parts, RUNTIME);
      FindsTheFirst(e.parts, PROTOCOL);
      FindsTheFirst(e.parts, IO);
      assert First(causes, IO).Some? <==> exists c <- causes :: c.InputOutput?;
      assert First(causes, OWN).Some? <==> exists c <- causes :: c.Own?;
      assert First(causes, RUNTIME).Some? <==> exists c <- causes :: c.AtRuntime?;
      assert First(causes, PROTOCOL).Some? <==> exists c <- causes :: c.FromProtocol?;
    } else {
      assert causes == [e.cause] && (First(causes, OWN) == if OWN(e.cause) then Some(e.cause) else None);
      assert causes[0] in causes;
      assert Translated(e).AsIs? <==> e.cause.Other?;
    }
  }

  /** An unknown outcome is lost behind an earlier gateway error of the same group. */
  lemma EarlierErrorHidesUnknown()
    ensures Translated(Group([Single(Own(true, false)), Single(Own(false, true))])) == Told(true, false)
  {
  }
}
