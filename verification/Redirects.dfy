/**
 The redirect loop of the bounded outbound executor. Every hop resolves its target anew, sends, and either returns,
 fails, or goes on to the target that the reply names; custom headers are dropped when the origin changes, and the
 operation reports what it did. Replies from any server, and resolved targets, are given for each hop.
 */
module Redirects {
  import opened Common

  datatype Origin = Origin(scheme: string, host: string, port: nat)

  datatype Header = Header(name: string, value: string)

  datatype Verb = Get | Post | OtherVerb(name: string)

  datatype Request = Request(verb: Verb, headers: seq<Header>, followRedirects: bool, bodyValid: bool)

  datatype Reply = Broken | Response(status: int, location: Option<string>, fits: bool)

  /** What the k-th send is answered, and what the target of the k-th send resolves to. */
  datatype World = World(reply: nat -> Reply, target: nat -> Option<Origin>)

  datatype Limits = Limits(maxHeaders: nat, maxRedirects: nat)

  datatype Send = Send(origin: Origin, headers: seq<Header>)

  datatype Failure =
    | BodyInvalid
    | HeadersTooLarge
    | TargetRefused
    | TransportFailed
    | RedirectAmbiguous
    | ResponseTooLarge
    | RedirectLimit

  datatype Answer = Answer(status: int, redirects: nat, finalOrigin: Origin)

  predicate RedirectStatus(status: int) { status in {301, 302, 303, 307, 308} }

  function Lower(s: string): string {
    if s == [] then []
    else [if 'A' <= s[0] <= 'Z' then 'a' + (s[0] - 'A') else s[0]] + Lower(s[1..])
  }

  predicate SafeHeader(h: Header) { Lower(h.name) in {"accept", "accept-language", "user-agent"} }

  function SafeOnly(headers: seq<Header>): seq<Header> {
    if headers == [] then []
    else (if SafeHeader(headers[0]) then [headers[0]] else []) + SafeOnly(headers[1..])
  }

  /** How hop `k` ends the operation, or nothing if its redirect is followed. */
  function Ends(r: Request, l: Limits, w: World, k: nat): Option<Result<Answer, Failure>> {
    match (w.target(k), w.reply(k))
    case (None, _) => Some(Err(TargetRefused))
    case (Some(_), Broken) => Some(Err(TransportFailed))
    case (Some(origin), Response(status, location, fits)) =>
      if r.verb.Post? && RedirectStatus(status) then Some(Err(RedirectAmbiguous))
      else if !r.followRedirects || !RedirectStatus(status) || location.None? || location.value == "" then
        Some(if fits then Ok(Answer(status, k, origin)) else Err(ResponseTooLarge))
      else if k >= l.maxRedirects then Some(Err(RedirectLimit))
      else None
  }

  /** The origins of the first sends are all one. */
  predicate OneOrigin(sends: seq<Send>, upTo: nat)
    requires upTo < |sends|
  {
    forall i :: 0 <= i <= upTo ==> sends[i].origin == sends[0].origin
  }

  /** The request's headers while every hop had one origin, and the safe ones for good after that. */
  predicate SentRight(r: Request, sends: seq<Send>, k: nat)
    requires k < |sends|
  {
    sends[k].headers == if OneOrigin(sends, k) then r.headers else SafeOnly(r.headers)
  }

  lemma {:induction false} SafeOnlyTwice(headers: seq<Header>)
    ensures SafeOnly(SafeOnly(headers)) == SafeOnly(headers)
    ensures forall i :: 0 <= i < |SafeOnly(headers)| ==> SafeHeader(SafeOnly(headers)[i]) && SafeOnly(headers)[i] in headers
  {
    hide SafeHeader;
    if headers != [] {
      SafeOnlyTwice(headers[1..]);
      var rest := SafeOnly(headers[1..]);
      assert ([headers[0]] + rest)[1..] == rest && [] + rest == rest;
    }
  }

  /** One more send keeps what was sent before it right. */
  lemma SendOnce(r: Request, sends: seq<Send>, next: Send)
    requires forall k :: 0 <= k < |sends| ==> SentRight(r, sends, k)
    requires sends == [] ==> next.headers == r.headers
    requires sends != [] ==>
        var last := sends[|sends| - 1];
        next.headers == if next.origin == last.origin then last.headers else SafeOnly(last.headers)
    ensures forall k :: 0 <= k <= |sends| ==> SentRight(r, sends + [next], k)
  {
    hide SafeOnly;
    SafeOnlyTwice(r.headers);
    var all := sends + [next];
    forall k | 0 <= k < |sends|
      ensures SentRight(r, all, k)
    {
      OneOriginBefore(sends, next, k);
      assert SentRight(r, sends, k);
    }
    if sends != [] {
      OneOriginLast(sends, next);
      assert SentRight(r, sends, |sends| - 1);
    }
  }

  lemma OneOriginBefore(sends: seq<Send>, next: Send, k: nat)
    requires k < |sends|
    ensures OneOrigin(sends + [next], k) <==> OneOrigin(sends, k)
  {
    var all := sends + [next];
    assert forall i :: 0 <= i <= k ==> sends[i] == all[i];
    assert forall i :: 0 <= i <= k ==> (all[i].origin == all[0].origin <==> sends[i].origin == sends[0].origin);
  }

  lemma OneOriginLast(sends: seq<Send>, next: Send)
    requires sends != []
    ensures OneOrigin(sends + [next], |sends|) <==>
            OneOrigin(sends, |sends| - 1) && next.origin == sends[|sends| - 1].origin
  {
    var all, n := sends + [next], |sends|;
    OneOriginBefore(sends, next, n - 1);
    assert OneOrigin(all, n) <==> OneOrigin(all, n - 1) && all[n].origin == all[0].origin;
    assert all[n - 1] == sends[n - 1] && all[n] == next && all[0] == sends[0];
    assert OneOrigin(all, n - 1) ==> all[n - 1].origin == all[0].origin;
  }

  /** The sends of an execution run up to the first hop that ends it, each to its own target with the right headers. */
  ghost predicate IsLog(r: Request, l: Limits, w: World, result: Result<Answer, Failure>, sends: seq<Send>) {
    && (exists last: nat :: Ends(r, l, w, last) == Some(result)
          && (forall k: nat :: k < last ==> Ends(r, l, w, k) == None)
          && |sends| == (if w.target(last).Some? then last + 1 else last))
    && (forall k :: 0 <= k < |sends| ==> w.target(k) == Some(sends[k].origin) && SentRight(r, sends, k))
  }

  /**
   Sends until a hop ends the operation. The sends that were made are returned beside the outcome.
   */
  method Execute(r: Request, l: Limits, w: World) returns (result: Result<Answer, Failure>, sends: seq<Send>)
    ensures !r.bodyValid ==> result == Err(BodyInvalid) && sends == []
    ensures r.bodyValid && |r.headers| > l.maxHeaders ==> result == Err(HeadersTooLarge) && sends == []
    ensures r.bodyValid && |r.headers| <= l.maxHeaders ==> IsLog(r, l, w, result, sends)
  {
    hide SentRight, SafeOnly, RedirectStatus;
    sends := [];
    if !r.bodyValid {
      return Err(BodyInvalid), sends;
    }
    if |r.headers| > l.maxHeaders {
      return Err(HeadersTooLarge), sends;
    }
    if w.target(0).None? {
      assert Ends(r, l, w, 0) == Some(Err(TargetRefused));
      return Err(TargetRefused), sends;
    }
    var target := w.target(0).value;
    var headers := r.headers;
    var redirects: nat := 0;
    while true
      invariant redirects == |sends| <= l.maxRedirects
      invariant w.target(redirects) == Some(target)
      invariant forall k: nat :: k < redirects ==> Ends(r, l, w, k) == None
      invariant forall k :: 0 <= k < |sends| ==> w.target(k) == Some(sends[k].origin) && SentRight(r, sends, k)
      invariant sends == [] ==> headers == r.headers
      invariant sends != [] ==>
          var last := sends[|sends| - 1];
          headers == if target == last.origin then last.headers else SafeOnly(last.headers)
      decreases l.maxRedirects - redirects
    {
      SendOnce(r, sends, Send(target, headers));
      sends := sends + [Send(target, headers)];
      var reply := w.reply(redirects);
      if reply.Broken? {
        return Err(TransportFailed), sends;
      }
      if r.verb == Post && RedirectStatus(reply.status) {
        return Err(RedirectAmbiguous), sends;
      }
      if !r.followRedirects || !RedirectStatus(reply.status) || reply.location.None? || reply.location.value == "" {
        if !reply.fits {
          return Err(ResponseTooLarge), sends;
        }
        return Ok(Answer(reply.status, redirects, target)), sends;
      }
      if redirects >= l.maxRedirects {
        return Err(RedirectLimit), sends;
      }
      assert Ends(r, l, w, redirects) == None;
      var next := w.target(redirects + 1);
      if next.None? {
        assert Ends(r, l, w, redirects + 1) == Some(Err(TargetRefused));
        return Err(TargetRefused), sends;
      }
      if next.value != target {
        headers := SafeOnly(headers);
      }
      target := next.value;
      redirects := redirects + 1;
    }
  }

  // ----- What the log of sends shows -----

  /** An execution sends at most once more than the redirect limit, and a POST at most once. */
  lemma SendsAreBounded(r: Request, l: Limits, w: World, result: Result<Answer, Failure>, sends: seq<Send>)
    requires IsLog(r, l, w, result, sends)
    ensures |sends| <= l.maxRedirects + 1
    ensures r.verb == Post ==> |sends| <= 1
    ensures result.Ok? ==> |sends| == result.value.redirects + 1 && sends[|sends| - 1].origin == result.value.finalOrigin
  {
    hide SentRight, RedirectStatus;
    var last: nat :| Ends(r, l, w, last) == Some(result)
      && (forall k: nat :: k < last ==> Ends(r, l, w, k) == None)
      && |sends| == (if w.target(last).Some? then last + 1 else last);
    if last > 0 {
      assert Ends(r, l, w, last - 1) == None;
      assert Ends(r, l, w, 0) == None;
    }
  }

  /** No send has a header that the one before it did not have. */
  lemma HeadersNeverGrow(r: Request, sends: seq<Send>, k: nat, h: Header)
    requires k + 1 < |sends| && SentRight(r, sends, k) && SentRight(r, sends, k + 1)
    ensures h in sends[k + 1].headers ==> h in sends[k].headers
  {
    SafeOnlyTwice(r.headers);
    assert OneOrigin(sends, k + 1) ==> OneOrigin(sends, k);
  }

  /** A custom header is sent exactly while every hop so far has had one origin, even if a later hop returns to it. */
  lemma CustomHeadersStayWithTheOrigin(r: Request, sends: seq<Send>, k: nat, h: Header)
    requires k < |sends| && SentRight(r, sends, k) && h in r.headers
    ensures !SafeHeader(h) ==> (h in sends[k].headers <==> OneOrigin(sends, k))
    ensures SafeHeader(h) ==> h in sends[k].headers
  {
    hide SafeHeader;
    SafeOnlyTwice(r.headers);
    SafeOnlyKeeps(r.headers, h);
  }

  lemma {:induction false} SafeOnlyKeeps(headers: seq<Header>, h: Header)
    ensures h in headers && SafeHeader(h) ==> h in SafeOnly(headers)
  {
    hide SafeHeader;
    if headers != [] {
      SafeOnlyKeeps(headers[1..], h);
    }
  }
}
