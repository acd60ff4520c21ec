/**
 Scrubbing audit metadata: blocked keys are dropped at every depth, everything is cut to size, and an
 allowlist of top-level keys may apply. A value that cannot be printed makes the whole scrub raise, and
 then nothing is kept; what the scrub returns is a fixed point of it.
 */
module Sanitize {
  import opened Common

  const MAX_STRING: nat := 500
  const MAX_LIST: nat := 50
  const MAX_DEPTH: nat := 4

  /** A key as `str(raw_key)` gives it, or nothing if that raises. */
  datatype Entry = Entry(key: Option<string>, value: Value)

  /** A value of another type has the text that `str` gives it, or none if that raises. */
  datatype Value =
    | Null
    | Atom(id: int)
    | Text(s: string)
    | List(items: seq<Value>)
    | Dict(entries: seq<Entry>)
    | Other(text: Option<string>)

  function Cut<T>(s: seq<T>, limit: nat): seq<T> {
    if |s| <= limit then s else s[..limit]
  }

  function NormKey(key: string): string {
    if key == [] then []
    else
      var c := key[0];
      [if 'A' <= c <= 'Z' then 'a' + (c - 'A') else if c == '-' then '_' else c] + NormKey(key[1..])
  }

  predicate Blocked(key: string) {
    NormKey(key) in {
      "password", "password_hash", "current_password", "new_password", "old_password", "token", "raw_token",
      "refresh_token", "refreshtoken", "access_token", "accesstoken", "id_token", "jwt", "authorization", "cookie",
      "cookies", "secret", "secrets", "secret_hash", "plaintext", "api_key", "api_key_secret", "api_key_hash_pepper",
      "invitation_token", "invitation_token_hash_pepper", "token_hash", "code_verifier", "pkce", "credentials",
      "credentials_encrypted", "sync_state_encrypted", "config_encrypted", "webhook_secret", "webhook_routing_token",
      "webhook_routing_token_encrypted", "server_key", "client_key", "client_secret", "clickpay_server_key",
      "profile_id", "smtp_password", "smtp_username", "openwa_api_key", "delta_link", "sync_cursor",
      "system_instructions", "authorization_header", "body", "request_body", "headers", "cookie_header"}
  }

  /** The keys that an allowlist keeps; no allowlist keeps all. */
  predicate Keeps(allow: Option<set<string>>, key: string) {
    !Blocked(key) && (allow.Some? ==> key in allow.value)
  }

  /** `out[key] = value` on an ordered dictionary. */
  function Put(out: seq<Entry>, key: string, value: Value): seq<Entry> {
    if out == [] then [Entry(Some(key), value)]
    else if out[0].key == Some(key) then [Entry(Some(key), value)] + out[1..]
    else [out[0]] + Put(out[1..], key, value)
  }

  /** The scrubbed value, or nothing if the scrub raises. */
  function Scrub(v: Value, depth: nat, allow: Option<set<string>>): Option<Value>
    requires depth <= MAX_DEPTH + 1
    decreases MAX_DEPTH + 1 - depth, 1, 0
  {
    if depth > MAX_DEPTH then Some(Null)
    else match v
      case Dict(entries) =>
        (match ScrubEntries(entries, depth, allow, []) case Some(out) => Some(Dict(out)) case None => None)
      case List(items) =>
        (match ScrubItems(Cut(items, MAX_LIST), depth) case Some(out) => Some(List(out)) case None => None)
      case Text(s) => Some(Text(Cut(s, MAX_STRING)))
      case Other(text) => (match text case Some(s) => Some(Text(Cut(s, MAX_STRING))) case None => None)
      case _ => Some(v)
  }

  function ScrubEntries(entries: seq<Entry>, depth: nat, allow: Option<set<string>>, out: seq<Entry>): Option<seq<Entry>>
    requires depth <= MAX_DEPTH
    decreases MAX_DEPTH + 1 - depth, 0, |entries|
  {
    if entries == [] then Some(out)
    else
      var e := entries[0];
      if e.key.None? then None
      else if !Keeps(allow, e.key.value) then ScrubEntries(entries[1..], depth, allow, out)
      else match Scrub(e.value, depth + 1, None)
        case None => None
        case Some(c) =>
          ScrubEntries(entries[1..], depth, allow, if c.Null? then out else Put(out, e.key.value, c))
  }

  function ScrubItems(items: seq<Value>, depth: nat): Option<seq<Value>>
    requires depth <= MAX_DEPTH
    decreases MAX_DEPTH + 1 - depth, 0, |items|
  {
    if items == [] then Some([])
    else match (Scrub(items[0], depth + 1, None), ScrubItems(items[1..], depth))
      case (Some(c), Some(rest)) => Some([c] + rest)
      case _ => None
  }

  // ----- The loops of the source -----

  method ScrubValue(v: Value, depth: nat, allow: Option<set<string>>) returns (r: Option<Value>)
    requires depth <= MAX_DEPTH + 1
    ensures r == Scrub(v, depth, allow)
    decreases MAX_DEPTH + 1 - depth, 1
  {
    if depth > MAX_DEPTH {
      return Some(Null);
    }
    match v
    case Dict(entries) =>
      var out := ScrubDict(entries, depth, allow);
      return match out case Some(es) => Some(Dict(es)) case None => None;
    case List(items) =>
      var out := ScrubList(Cut(items, MAX_LIST), depth);
      return match out case Some(vs) => Some(List(vs)) case None => None;
    case Text(s) =>
      return Some(Text(Cut(s, MAX_STRING)));
    case Other(text) =>
      if text.None? {
        return None;
      }
      return Some(Text(Cut(text.value, MAX_STRING)));
    case _ =>
      return Some(v);
  }

  method ScrubDict(entries: seq<Entry>, depth: nat, allow: Option<set<string>>) returns (r: Option<seq<Entry>>)
    requires depth <= MAX_DEPTH
    ensures r == ScrubEntries(entries, depth, allow, [])
    decreases MAX_DEPTH + 1 - depth, 0
  {
    hide Blocked, Scrub, Put;
    var out := [];
    assert entries[0..] == entries;
    for i := 0 to |entries|
      invariant ScrubEntries(entries, depth, allow, []) == ScrubEntries(entries[i..], depth, allow, out)
    {
      assert entries[i..][1..] == entries[i + 1..];
      var key := entries[i].key;
      if key.None? {
        return None;
      }
      if Blocked(key.value) {
        continue;
      }
      if allow.Some? && key.value !in allow.value {
        continue;
      }
      var cleaned := ScrubValue(entries[i].value, depth + 1, None);
      if cleaned.None? {
        return None;
      }
      if cleaned.value != Null {
        out := Put(out, key.value, cleaned.value);
      }
    }
    return Some(out);
  }

  function Prefixed<T>(out: seq<T>, rest: Option<seq<T>>): Option<seq<T>> {
    match rest case None => None case Some(s) => Some(out + s)
  }

  method ScrubList(items: seq<Value>, depth: nat) returns (r: Option<seq<Value>>)
    requires depth <= MAX_DEPTH
    ensures r == ScrubItems(items, depth)
    decreases MAX_DEPTH + 1 - depth, 0
  {
    hide Scrub;
    var out := [];
    assert items[0..] == items;
    assert ScrubItems(items, depth).Some? ==> [] + ScrubItems(items, depth).value == ScrubItems(items, depth).value;
    for i := 0 to |items|
      invariant ScrubItems(items, depth) == Prefixed(out, ScrubItems(items[i..], depth))
    {
      assert items[i..][1..] == items[i + 1..];
      var cleaned := ScrubValue(items[i], depth + 1, None);
      if cleaned.None? {
        return None;
      }
      ghost var rest := ScrubItems(items[i + 1..], depth);
      assert rest.Some? ==> out + ([cleaned.value] + rest.value) == (out + [cleaned.value]) + rest.value;
      out := out + [cleaned.value];
    }
    assert out + [] == out;
    return Some(out);
  }

  // ----- Clean values -----

  predicate HasKey(entries: seq<Entry>, key: Option<string>) {
    entries != [] && (entries[0].key == key || HasKey(entries[1..], key))
  }

  predicate DistinctKeys(entries: seq<Entry>) {
    entries == [] || (!HasKey(entries[1..], entries[0].key) && DistinctKeys(entries[1..]))
  }

  /** Bounded in depth, list length and string length, with distinct keys and no blocked key anywhere. */
  predicate Clean(v: Value, depth: nat)
    requires depth <= MAX_DEPTH + 1
    decreases MAX_DEPTH + 1 - depth, 1, 0
  {
    if depth > MAX_DEPTH then v.Null?
    else match v
      case Null => true
      case Atom(_) => true
      case Text(s) => |s| <= MAX_STRING
      case List(items) => |items| <= MAX_LIST && CleanItems(items, depth)
      case Dict(entries) => DistinctKeys(entries) && CleanEntries(entries, depth)
      case Other(_) => false
  }

  predicate CleanItems(items: seq<Value>, depth: nat)
    requires depth <= MAX_DEPTH
    decreases MAX_DEPTH + 1 - depth, 0, |items|
  {
    items == [] || (Clean(items[0], depth + 1) && CleanItems(items[1..], depth))
  }

  predicate CleanEntries(entries: seq<Entry>, depth: nat)
    requires depth <= MAX_DEPTH
    decreases MAX_DEPTH + 1 - depth, 0, |entries|
  {
    entries == []
    || (&& entries[0].key.Some? && !Blocked(entries[0].key.value)
        && !entries[0].value.Null? && Clean(entries[0].value, depth + 1)
        && CleanEntries(entries[1..], depth))
  }

  /** The entries whose keys an allowlist keeps. */
  function Kept(entries: seq<Entry>, allow: Option<set<string>>): seq<Entry> {
    if entries == [] then []
    else
      (if entries[0].key.Some? && Keeps(allow, entries[0].key.value) then [entries[0]] else []) + Kept(entries[1..], allow)
  }

  // ----- Putting an entry -----

  lemma {:induction false} PutKeys(out: seq<Entry>, key: string, value: Value, other: Option<string>)
    ensures HasKey(Put(out, key, value), other) <==> other == Some(key) || HasKey(out, other)
    decreases |out|
  {
    if out != [] {
      PutKeys(out[1..], key, value, other);
    }
  }

  lemma {:induction false} PutClean(out: seq<Entry>, key: string, value: Value, depth: nat)
    requires depth <= MAX_DEPTH && DistinctKeys(out) && CleanEntries(out, depth)
    requires !Blocked(key) && !value.Null? && Clean(value, depth + 1)
    ensures DistinctKeys(Put(out, key, value)) && CleanEntries(Put(out, key, value), depth)
    decreases |out|
  {
    hide Blocked, Clean;
    if out != [] {
      PutClean(out[1..], key, value, depth);
      PutKeys(out[1..], key, value, out[0].key);
    }
  }

  lemma {:induction false} PutNew(out: seq<Entry>, key: string, value: Value)
    requires !HasKey(out, Some(key))
    ensures Put(out, key, value) == out + [Entry(Some(key), value)]
    decreases |out|
  {
    if out != [] {
      PutNew(out[1..], key, value);
    }
  }

  // ----- Scrubbing cleans -----

  /** Whatever scrubbing returns is clean. */
  lemma {:induction false} ScrubCleans(v: Value, depth: nat, allow: Option<set<string>>)
    requires depth <= MAX_DEPTH + 1 && Scrub(v, depth, allow).Some?
    ensures Clean(Scrub(v, depth, allow).value, depth)
    decreases MAX_DEPTH + 1 - depth, 1, 0
  {
    hide ScrubEntries, ScrubItems, CleanItems, CleanEntries, DistinctKeys;
    if depth <= MAX_DEPTH {
      match v
      case Dict(entries) =>
        NoEntriesClean(depth);
        EntriesClean(entries, depth, allow, []);
      case List(items) =>
        ItemsClean(Cut(items, MAX_LIST), depth);
      case _ =>
    }
  }

  lemma NoEntriesClean(depth: nat)
    requires depth <= MAX_DEPTH
    ensures DistinctKeys([]) && CleanEntries([], depth)
  {
  }

  lemma {:induction false} EntriesClean(entries: seq<Entry>, depth: nat, allow: Option<set<string>>, out: seq<Entry>)
    requires depth <= MAX_DEPTH && DistinctKeys(out) && CleanEntries(out, depth)
    requires ScrubEntries(entries, depth, allow, out).Some?
    ensures var done := ScrubEntries(entries, depth, allow, out).value; DistinctKeys(done) && CleanEntries(done, depth)
    decreases MAX_DEPTH + 1 - depth, 0, |entries|
  {
    hide Blocked, Scrub, Put, DistinctKeys, CleanEntries, Clean;
    if entries != [] {
      var e := entries[0];
      if Keeps(allow, e.key.value) {
        ScrubCleans(e.value, depth + 1, None);
        var c := Scrub(e.value, depth + 1, None).value;
        if !c.Null? {
          PutClean(out, e.key.value, c, depth);
        }
        EntriesClean(entries[1..], depth, allow, if c.Null? then out else Put(out, e.key.value, c));
      } else {
        EntriesClean(entries[1..], depth, allow, out);
      }
    }
  }

  lemma {:induction false} ItemsClean(items: seq<Value>, depth: nat)
    requires depth <= MAX_DEPTH && ScrubItems(items, depth).Some?
    ensures CleanItems(ScrubItems(items, depth).value, depth) && |ScrubItems(items, depth).value| == |items|
    decreases MAX_DEPTH + 1 - depth, 0, |items|
  {
    hide Scrub, Clean;
    if items != [] {
      ScrubCleans(items[0], depth + 1, None);
      ItemsClean(items[1..], depth);
      var c, rest := Scrub(items[0], depth + 1, None).value, ScrubItems(items[1..], depth).value;
      assert ([c] + rest)[1..] == rest;
    }
  }

  // ----- Clean values are left alone -----

  predicate Apart(out: seq<Entry>, entries: seq<Entry>) {
    entries == [] || (!HasKey(out, entries[0].key) && Apart(out, entries[1..]))
  }

  lemma {:induction false} HasKeyAppend(a: seq<Entry>, e: Entry, key: Option<string>)
    ensures HasKey(a + [e], key) <==> HasKey(a, key) || e.key == key
    decreases |a|
  {
    if a == [] {
      assert a + [e] == [e];
    } else {
      assert (a + [e])[1..] == a[1..] + [e];
      HasKeyAppend(a[1..], e, key);
    }
  }

  lemma {:induction false} StillApart(out: seq<Entry>, e: Entry, entries: seq<Entry>)
    requires Apart(out, entries) && !HasKey(entries, e.key)
    ensures Apart(out + [e], entries)
    decreases |entries|
  {
    if entries != [] {
      HasKeyAppend(out, e, entries[0].key);
      StillApart(out, e, entries[1..]);
    }
  }

  /** Scrubbing a clean value, with an allowlist for its own keys, only drops the keys that the list does not keep. */
  lemma {:induction false} CleanStays(v: Value, depth: nat, allow: Option<set<string>>)
    requires depth <= MAX_DEPTH + 1 && Clean(v, depth)
    ensures Scrub(v, depth, allow) == Some(if v.Dict? then Dict(Kept(v.entries, allow)) else v)
    decreases MAX_DEPTH + 1 - depth, 1, 0
  {
    hide ScrubEntries, ScrubItems, CleanItems, CleanEntries, DistinctKeys, Kept, Apart;
    if depth <= MAX_DEPTH {
      match v
      case Dict(entries) =>
        NothingApart(entries);
        EntriesStay(entries, depth, allow, []);
        assert [] + Kept(entries, allow) == Kept(entries, allow);
      case List(items) =>
        ItemsStay(items, depth);
      case _ =>
    }
  }

  lemma {:induction false} NothingApart(entries: seq<Entry>)
    ensures Apart([], entries)
  {
    if entries != [] {
      NothingApart(entries[1..]);
    }
  }

  lemma {:induction false} EntriesStay(entries: seq<Entry>, depth: nat, allow: Option<set<string>>, out: seq<Entry>)
    requires depth <= MAX_DEPTH && DistinctKeys(entries) && CleanEntries(entries, depth) && Apart(out, entries)
    ensures ScrubEntries(entries, depth, allow, out) == Some(out + Kept(entries, allow))
    decreases MAX_DEPTH + 1 - depth, 0, |entries|
  {
    hide Blocked, Scrub, Put, Clean, HasKey;
    if entries == [] {
      assert out + [] == out;
    } else {
      var e := entries[0];
      if Keeps(allow, e.key.value) {
        CleanStays(e.value, depth + 1, None);
        KeptByNoList(e.value, depth + 1);
        PutNew(out, e.key.value, e.value);
        StillApart(out, e, entries[1..]);
        EntriesStay(entries[1..], depth, allow, out + [e]);
        assert out + ([e] + Kept(entries[1..], allow)) == (out + [e]) + Kept(entries[1..], allow);
      } else {
        EntriesStay(entries[1..], depth, allow, out);
        assert [] + Kept(entries[1..], allow) == Kept(entries[1..], allow);
      }
    }
  }

  /** Without an allowlist a clean value keeps all its entries. */
  lemma KeptByNoList(v: Value, depth: nat)
    requires depth <= MAX_DEPTH + 1 && Clean(v, depth)
    ensures v.Dict? ==> Kept(v.entries, None) == v.entries
  {
    if v.Dict? {
      AllKept(v.entries, depth);
    }
  }

  lemma {:induction false} AllKept(entries: seq<Entry>, depth: nat)
    requires depth <= MAX_DEPTH && CleanEntries(entries, depth)
    ensures Kept(entries, None) == entries
    decreases |entries|
  {
    hide Blocked, Clean;
    if entries != [] {
      AllKept(entries[1..], depth);
    }
  }

  lemma {:induction false} ItemsStay(items: seq<Value>, depth: nat)
    requires depth <= MAX_DEPTH && CleanItems(items, depth)
    ensures ScrubItems(items, depth) == Some(items)
    decreases MAX_DEPTH + 1 - depth, 0, |items|
  {
    hide Scrub, Clean, Kept;
    if items != [] {
      CleanStays(items[0], depth + 1, None);
      KeptByNoList(items[0], depth + 1);
      ItemsStay(items[1..], depth);
      assert [items[0]] + items[1..] == items;
    }
  }

  /** Clean values are exactly the ones that scrubbing leaves alone. */
  lemma CleanExactlyWhenFixed(v: Value, depth: nat)
    requires depth <= MAX_DEPTH + 1
    ensures Clean(v, depth) <==> Scrub(v, depth, None) == Some(v)
  {
    hide Scrub, Clean, Kept;
    if Scrub(v, depth, None).Some? {
      ScrubCleans(v, depth, None);
    }
    if Clean(v, depth) {
      CleanStays(v, depth, None);
      KeptByNoList(v, depth);
    }
  }

  /** Scrubbing twice is scrubbing once. */
  lemma ScrubIsIdempotent(v: Value, depth: nat, allow: Option<set<string>>)
    requires depth <= MAX_DEPTH + 1 && Scrub(v, depth, allow).Some?
    ensures Scrub(Scrub(v, depth, allow).value, depth, None) == Scrub(v, depth, allow)
  {
    hide Scrub, Clean;
    ScrubCleans(v, depth, allow);
    CleanExactlyWhenFixed(Scrub(v, depth, allow).value, depth);
  }

  // ----- Two allowlists -----

  function Both(a: Option<set<string>>, b: Option<set<string>>): Option<set<string>> {
    if a.None? then b else if b.None? then a else Some(a.value * b.value)
  }

  lemma {:induction false} KeptPut(out: seq<Entry>, key: string, value: Value, allow: Option<set<string>>)
    ensures Kept(Put(out, key, value), allow) ==
            if Keeps(allow, key) then Put(Kept(out, allow), key, value) else Kept(out, allow)
    decreases |out|
  {
    hide Keeps;
    if out != [] {
      KeptPut(out[1..], key, value, allow);
      var rest := Kept(out[1..], allow);
      var e := out[0];
      assert ([e] + rest)[1..] == rest && [] + rest == rest;
    }
  }

  lemma {:induction false} KeptOfScrubbed(entries: seq<Entry>, a: Option<set<string>>, b: Option<set<string>>, out: seq<Entry>)
    requires ScrubEntries(entries, 0, a, out).Some?
    ensures ScrubEntries(entries, 0, Both(a, b), Kept(out, b)) == Some(Kept(ScrubEntries(entries, 0, a, out).value, b))
    decreases |entries|
  {
    hide Blocked, Scrub, Put, Kept;
    if entries != [] {
      var e := entries[0];
      if Keeps(a, e.key.value) {
        var c := Scrub(e.value, 1, None).value;
        KeptPut(out, e.key.value, c, b);
        KeptOfScrubbed(entries[1..], a, b, if c.Null? then out else Put(out, e.key.value, c));
      } else {
        KeptOfScrubbed(entries[1..], a, b, out);
      }
    }
  }

  /** The metadata that is stored or shown: a scrub that raises gives an empty dictionary. */
  function Sanitized(metadata: Option<seq<Entry>>, allow: Option<set<string>>): seq<Entry> {
    if metadata.None? || metadata.value == [] then []
    else match ScrubEntries(metadata.value, 0, allow, []) case Some(out) => out case None => []
  }

  method SanitizeAuditMetadata(metadata: Option<seq<Entry>>, allow: Option<set<string>>) returns (out: seq<Entry>)
    ensures out == Sanitized(metadata, allow)
  {
    if metadata.None? || metadata.value == [] {
      return [];
    }
    var scrubbed := ScrubValue(Dict(metadata.value), 0, allow);
    if scrubbed.None? {
      return [];
    }
    out := scrubbed.value.entries;
  }

  lemma SanitizedIsClean(metadata: Option<seq<Entry>>, allow: Option<set<string>>)
    ensures Clean(Dict(Sanitized(metadata, allow)), 0)
  {
    hide ScrubEntries, DistinctKeys, CleanEntries;
    NoEntriesClean(0);
    if metadata.Some? && ScrubEntries(metadata.value, 0, allow, []).Some? {
      EntriesClean(metadata.value, 0, allow, []);
    }
  }

  /** Sanitizing what was sanitized keeps what the second allowlist keeps. */
  lemma SanitizedAgain(metadata: Option<seq<Entry>>, a: Option<set<string>>, b: Option<set<string>>)
    ensures Sanitized(Some(Sanitized(metadata, a)), b) == Kept(Sanitized(metadata, a), b)
  {
    SanitizedIsClean(metadata, a);
    hide ScrubEntries, DistinctKeys, CleanEntries, Kept, Sanitized, Apart;
    var done := Sanitized(metadata, a);
    NothingApart(done);
    EntriesStay(done, 0, b, []);
    assert [] + Kept(done, b) == Kept(done, b);
    AgainIs(done, b);
  }

  lemma AgainIs(done: seq<Entry>, b: Option<set<string>>)
    requires ScrubEntries(done, 0, b, []).Some?
    ensures Sanitized(Some(done), b) == ScrubEntries(done, 0, b, []).value
  {
  }

  // ----- When a scrub raises -----

  /**
   Everything that the scrub turns into text can be: every key of a dictionary it goes through, and every
   value within the depth limit, among the first items of its list, and under keys that are kept.
   */
  predicate Printable(v: Value, depth: nat, allow: Option<set<string>>)
    requires depth <= MAX_DEPTH + 1
    decreases MAX_DEPTH + 1 - depth
  {
    depth > MAX_DEPTH
    || match v
       case Dict(entries) =>
         forall i :: 0 <= i < |entries| ==>
           && entries[i].key.Some?
           && (Keeps(allow, entries[i].key.value) ==> Printable(entries[i].value, depth + 1, None))
       case List(items) =>
         forall i :: 0 <= i < |items| && i < MAX_LIST ==> Printable(items[i], depth + 1, None)
       case Other(text) => text.Some?
       case _ => true
  }

  /** A scrub raises exactly when something it reaches cannot be printed. */
  lemma {:induction false} ScrubsExactlyWhenPrintable(v: Value, depth: nat, allow: Option<set<string>>)
    requires depth <= MAX_DEPTH + 1
    ensures Scrub(v, depth, allow).Some? <==> Printable(v, depth, allow)
    decreases MAX_DEPTH + 1 - depth, 1, 0
  {
    hide ScrubEntries, ScrubItems, Keeps;
    if depth <= MAX_DEPTH {
      match v
      case Dict(entries) =>
        EntriesScrubWhenPrintable(entries, depth, allow, []);
      case List(items) =>
        ItemsScrubWhenPrintable(Cut(items, MAX_LIST), depth);
        assert forall i :: 0 <= i < |items| && i < MAX_LIST ==> Cut(items, MAX_LIST)[i] == items[i];
      case _ =>
    }
  }

  lemma {:induction false} EntriesScrubWhenPrintable(
    entries: seq<Entry>, depth: nat, allow: Option<set<string>>, out: seq<Entry>)
    requires depth <= MAX_DEPTH
    ensures ScrubEntries(entries, depth, allow, out).Some? <==> Printable(Dict(entries), depth, allow)
    decreases MAX_DEPTH + 1 - depth, 0, |entries|
  {
    hide Scrub, Put, Keeps;
    if entries != [] {
      var e, rest := entries[0], entries[1..];
      assert forall i :: 0 < i < |entries| ==> entries[i] == rest[i - 1];
      if e.key.Some? {
        ScrubsExactlyWhenPrintable(e.value, depth + 1, None);
        var c := Scrub(e.value, depth + 1, None);
        EntriesScrubWhenPrintable(rest, depth, allow, out);
        if c.Some? && !c.value.Null? {
          EntriesScrubWhenPrintable(rest, depth, allow, Put(out, e.key.value, c.value));
        }
      }
    }
  }

  lemma {:induction false} ItemsScrubWhenPrintable(items: seq<Value>, depth: nat)
    requires depth <= MAX_DEPTH
    ensures ScrubItems(items, depth).Some? <==> forall i :: 0 <= i < |items| ==> Printable(items[i], depth + 1, None)
    decreases MAX_DEPTH + 1 - depth, 0, |items|
  {
    hide Scrub, Printable;
    if items != [] {
      assert forall i :: 0 < i < |items| ==> items[i] == items[1..][i - 1];
      ScrubsExactlyWhenPrintable(items[0], depth + 1, None);
      ItemsScrubWhenPrintable(items[1..], depth);
    }
  }

  /** Some kept key has a value. */
  predicate Shows(entries: seq<Entry>, allow: Option<set<string>>) {
    exists i :: 0 <= i < |entries| && entries[i].key.Some? && Keeps(allow, entries[i].key.value) && !entries[i].value.Null?
  }

  lemma TopValuesShow(v: Value)
    ensures Scrub(v, 1, None).Some? ==> (Scrub(v, 1, None).value.Null? <==> v.Null?)
  {
  }

  lemma {:induction false} ShownIsKept(entries: seq<Entry>, allow: Option<set<string>>, out: seq<Entry>)
    requires ScrubEntries(entries, 0, allow, out).Some?
    ensures ScrubEntries(entries, 0, allow, out).value == [] <==> out == [] && !Shows(entries, allow)
    decreases |entries|
  {
    hide Scrub, Keeps, Put;
    if entries != [] {
      var e, rest := entries[0], entries[1..];
      if Keeps(allow, e.key.value) {
        TopValuesShow(e.value);
        var c := Scrub(e.value, 1, None).value;
        PutIsNotEmpty(out, e.key.value, c);
        ShownIsKept(rest, allow, if c.Null? then out else Put(out, e.key.value, c));
      } else {
        ShownIsKept(rest, allow, out);
      }
    }
  }

  lemma PutIsNotEmpty(out: seq<Entry>, key: string, value: Value)
    ensures Put(out, key, value) != []
  {
  }

  /** What is sanitized is empty exactly when nothing shows, or the scrub raises. */
  lemma EmptyExactlyWhen(metadata: seq<Entry>, allow: Option<set<string>>)
    ensures Sanitized(Some(metadata), allow) == [] <==>
            !Printable(Dict(metadata), 0, allow) || !Shows(metadata, allow)
  {
    hide ScrubEntries, Printable, Keeps;
    EntriesScrubWhenPrintable(metadata, 0, allow, []);
    if ScrubEntries(metadata, 0, allow, []).Some? {
      ShownIsKept(metadata, allow, []);
    }
  }

  /**
   Sanitizing with one allowlist and then with another is sanitizing with both at once, exactly unless something
   kept by the first cannot be printed, while all that both keep can be and some of it has a value.
   */
  lemma AllowlistsComposeExactlyWhen(metadata: seq<Entry>, a: Option<set<string>>, b: Option<set<string>>)
    ensures Sanitized(Some(Sanitized(Some(metadata), a)), b) == Sanitized(Some(metadata), Both(a, b))
            <==> (|| Printable(Dict(metadata), 0, a)
                  || !Printable(Dict(metadata), 0, Both(a, b))
                  || !Shows(metadata, Both(a, b)))
  {
    hide ScrubEntries, Keeps, Printable, Shows, Both;
    SanitizedAgain(Some(metadata), a, b);
    EntriesScrubWhenPrintable(metadata, 0, a, []);
    EmptyExactlyWhen(metadata, Both(a, b));
    if ScrubEntries(metadata, 0, a, []).Some? {
      KeptOfScrubbed(metadata, a, b, []);
    }
  }

  lemma ShortKeysAreFree(c: char)
    requires 'a' <= c <= 'z'
    ensures !Blocked([c])
  {
    assert NormKey([c]) == [c] + NormKey([]);
    assert |NormKey([c])| == 1;
  }

  /** A value that cannot be printed, under a key the second allowlist would drop, empties the stored metadata. */
  lemma UnprintableValueEmptiesAll()
    ensures var metadata := [Entry(Some("k"), Atom(1)), Entry(Some("x"), Other(None))];
      var a, b := Some({"k", "x"}), Some({"k"});
      && Sanitized(Some(Sanitized(Some(metadata), a)), b) == []
      && Sanitized(Some(metadata), Both(a, b)) == [Entry(Some("k"), Atom(1))]
  {
    hide Blocked;
    var first, second := Entry(Some("k"), Atom(1)), Entry(Some("x"), Other(None));
    var a, b := Some({"k", "x"}), Some({"k"});
    ShortKeysAreFree('k');
    ShortKeysAreFree('x');
    assert Both(a, b) == b by {
      assert {"k", "x"} * {"k"} == {"k"};
    }
    assert "x" != "k" && [first, second][1..] == [second] && [second][1..] == [];
    assert [first] + [second] == [first, second];
    assert ScrubEntries([second], 0, a, [first]) == None;
    assert ScrubEntries([second], 0, b, [first]) == ScrubEntries([], 0, b, [first]);
  }

  /** Sanitizing twice with one allowlist is sanitizing once. */
  lemma SanitizeIsIdempotent(metadata: seq<Entry>, allow: Option<set<string>>)
    ensures Sanitized(Some(Sanitized(Some(metadata), allow)), allow) == Sanitized(Some(metadata), allow)
  {
    hide Printable, Shows, Sanitized;
    assert Both(allow, allow) == allow by {
      assert allow.Some? ==> allow.value * allow.value == allow.value;
    }
    AllowlistsComposeExactlyWhen(metadata, allow, allow);
  }
}
