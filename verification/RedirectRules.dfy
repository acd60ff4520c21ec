/**
 What an execution of redirects comes to, said of the replies: statuses, headers and reasons by name.
 */
module RedirectRules {
  import opened Common
  import opened Redirects

  // ----- Names without case -----

  /** The two names are the same but for the case of ASCII letters; `small` has no capitals. */
  predicate SameName(name: string, small: string) {
    |name| == |small| && forall i :: 0 <= i < |name| ==>
      name[i] == small[i] || ('a' <= small[i] <= 'z' && name[i] as int == small[i] as int - 32)
  }

  lemma {:induction false} LowerIs(name: string, small: string)
    requires forall i :: 0 <= i < |small| ==> !('A' <= small[i] <= 'Z')
    ensures Lower(name) == small <==> SameName(name, small)
  {
    if name != [] && small != [] {
      LowerIs(name[1..], small[1..]);
      assert name == [name[0]] + name[1..] && small == [small[0]] + small[1..];
      assert Lower(name)[0] == small[0] <==>
          name[0] == small[0] || ('a' <= small[0] <= 'z' && name[0] as int == small[0] as int - 32);
      if SameName(name, small) {
        assert forall i :: 0 <= i < |name[1..]| ==> name[1..][i] == name[i + 1] && small[1..][i] == small[i + 1];
      }
    }
  }

  /** The headers that any origin may get. */
  lemma SafeExactly(h: Header)
    ensures SafeHeader(h) <==>
      SameName(h.name, "accept") || SameName(h.name, "accept-language") || SameName(h.name, "user-agent")
  {
    LowerIs(h.name, "accept");
    LowerIs(h.name, "accept-language");
    LowerIs(h.name, "user-agent");
  }

  /** After the origin has changed a send has those of the request's headers that any origin may get, and no other. */
  lemma OtherOriginsGetSafeHeadersOnly(r: Request, sends: seq<Send>, k: nat, h: Header)
    requires k < |sends| && SentRight(r, sends, k) && h in r.headers
    ensures
      var safe := SameName(h.name, "accept") || SameName(h.name, "accept-language") || SameName(h.name, "user-agent");
      h in sends[k].headers <==> safe || forall i :: 0 <= i <= k ==> sends[i].origin == sends[0].origin
  {
    hide SentRight, SafeHeader, SameName;
    SafeExactly(h);
    CustomHeadersStayWithTheOrigin(r, sends, k, h);
  }

  // ----- Why an execution ends -----

  /** The reply sends the client elsewhere. */
  predicate Points(reply: Reply) {
    && reply.Response? && reply.status in {301, 302, 303, 307, 308}
    && reply.location.Some? && reply.location.value != ""
  }

  /** What the result says of the reply to the last send, or of the target that could not be resolved. */
  predicate Explains(r: Request, l: Limits, w: World, result: Result<Answer, Failure>, sends: seq<Send>) {
    if result == Err(TargetRefused) then w.target(|sends|).None?
    else
      && sends != []
      && var reply := w.reply(|sends| - 1);
      match result
      case Ok(a) =>
        && reply.Response? && reply.fits && a == Answer(reply.status, |sends| - 1, sends[|sends| - 1].origin)
        && (!r.followRedirects || !Points(reply))
        && !(r.verb.Post? && reply.status in {301, 302, 303, 307, 308})
      case Err(TransportFailed) => reply.Broken?
      case Err(RedirectAmbiguous) => r.verb.Post? && reply.Response? && reply.status in {301, 302, 303, 307, 308}
      case Err(ResponseTooLarge) =>
        && reply.Response? && !reply.fits && (!r.followRedirects || !Points(reply))
        && !(r.verb.Post? && reply.status in {301, 302, 303, 307, 308})
      case Err(RedirectLimit) => r.followRedirects && !r.verb.Post? && Points(reply) && |sends| == l.maxRedirects + 1
      case Err(_) => false
  }

  /** Every result of an execution has the reason that it gives, and each earlier send was told to go on. */
  lemma ResultsAreExplained(r: Request, l: Limits, w: World, result: Result<Answer, Failure>, sends: seq<Send>)
    requires IsLog(r, l, w, result, sends)
    ensures Explains(r, l, w, result, sends)
    ensures forall k :: 0 <= k < |sends| - 1 ==> r.followRedirects && !r.verb.Post? && Points(w.reply(k))
    ensures forall k :: 0 <= k < |sends| ==> w.target(k) == Some(sends[k].origin)
  {
    hide SentRight;
    var last: nat :| Ends(r, l, w, last) == Some(result)
      && (forall k: nat :: k < last ==> Ends(r, l, w, k) == None)
      && |sends| == (if w.target(last).Some? then last + 1 else last);
    forall k | 0 <= k < last
      ensures r.followRedirects && !r.verb.Post? && Points(w.reply(k)) && k < l.maxRedirects
    {
      assert Ends(r, l, w, k) == None;
    }
    assert last > 0 ==> Ends(r, l, w, last - 1) == None;
    assert last <= l.maxRedirects;
  }
}
