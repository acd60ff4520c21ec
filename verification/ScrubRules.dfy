/**
 What scrubbed metadata may hold and what it keeps, said of keys and values with the limits in figures.
 */
module ScrubRules {
  import opened Common
  import opened Sanitize

  // ----- Keys -----

  predicate Secret(name: string) {
    name in {
      "password", "password_hash", "current_password", "new_password", "old_password", "token", "raw_token",
      "refresh_token", "refreshtoken", "access_token", "accesstoken", "id_token", "jwt", "authorization", "cookie",
      "cookies", "secret", "secrets", "secret_hash", "plaintext", "api_key", "api_key_secret", "api_key_hash_pepper",
      "invitation_token", "invitation_token_hash_pepper", "token_hash", "code_verifier", "pkce", "credentials",
      "credentials_encrypted", "sync_state_encrypted", "config_encrypted", "webhook_secret", "webhook_routing_token",
      "webhook_routing_token_encrypted", "server_key", "client_key", "client_secret", "clickpay_server_key",
      "profile_id", "smtp_password", "smtp_username", "openwa_api_key", "delta_link", "sync_cursor",
      "system_instructions", "authorization_header", "body", "request_body", "headers", "cookie_header"}
  }

  /** `small` is the character as a name has it: not a capital, and no hyphen. */
  predicate Folds(c: char, small: char) {
    if 'A' <= c <= 'Z' then small as int == c as int + 32
    else if c == '-' then small == '_'
    else small == c
  }

  /** The key is this name but for capitals, and for hyphens in the place of underscores. */
  predicate Spells(key: string, name: string) {
    |key| == |name| && forall i :: 0 <= i < |key| ==> Folds(key[i], name[i])
  }

  lemma {:induction false} NormKeyIs(key: string, name: string)
    ensures NormKey(key) == name <==> Spells(key, name)
  {
    if key != [] && name != [] {
      NormKeyIs(key[1..], name[1..]);
      assert key == [key[0]] + key[1..] && name == [name[0]] + name[1..];
      assert NormKey(key)[1..] == NormKey(key[1..]);
      if Spells(key, name) {
        assert forall i :: 0 <= i < |key[1..]| ==> key[1..][i] == key[i + 1] && name[1..][i] == name[i + 1];
      }
    }
  }

  /** A key is dropped exactly when it spells one of the secrets. */
  lemma BlockedExactly(key: string)
    ensures Blocked(key) <==> exists name :: Secret(name) && Spells(key, name)
  {
    assert Blocked(key) <==> Secret(NormKey(key));
    hide Secret, Blocked, Spells;
    forall name
      ensures NormKey(key) == name <==> Spells(key, name)
    {
      NormKeyIs(key, name);
    }
  }

  // ----- What is left -----

  /** Five levels at most, short texts and lists, no value of an unknown type, and no secret at any depth. */
  ghost predicate Harmless(v: Value, depth: nat)
    decreases v
  {
    match v
    case Null => true
    case Atom(_) => depth <= 4
    case Text(s) => depth <= 4 && |s| <= 500
    case List(items) => depth <= 4 && |items| <= 50 && forall i :: 0 <= i < |items| ==> Harmless(items[i], depth + 1)
    case Dict(entries) =>
      depth <= 4 && forall i :: 0 <= i < |entries| ==>
        && entries[i].key.Some? && (forall name :: Secret(name) ==> !Spells(entries[i].key.value, name))
        && entries[i].value != Null && Harmless(entries[i].value, depth + 1)
    case Other(_) => false
  }

  lemma {:induction false} CleanIsHarmless(v: Value, depth: nat)
    requires depth <= 5 && Clean(v, depth)
    ensures Harmless(v, depth)
    decreases v
  {
    hide Blocked, Secret, Spells;
    match v
    case List(items) =>
      forall i | 0 <= i < |items|
        ensures Harmless(items[i], depth + 1)
      {
        ItemIsClean(items, i, depth);
        CleanIsHarmless(items[i], depth + 1);
      }
    case Dict(entries) =>
      forall i | 0 <= i < |entries|
        ensures entries[i].key.Some? && (forall name :: Secret(name) ==> !Spells(entries[i].key.value, name))
        ensures entries[i].value != Null && Harmless(entries[i].value, depth + 1)
      {
        EntryIsClean(entries, i, depth);
        BlockedExactly(entries[i].key.value);
        CleanIsHarmless(entries[i].value, depth + 1);
      }
    case _ =>
  }

  lemma {:induction false} ItemIsClean(items: seq<Value>, i: nat, depth: nat)
    requires depth <= 4 && i < |items| && CleanItems(items, depth)
    ensures Clean(items[i], depth + 1)
    decreases i
  {
    hide Clean;
    if i > 0 {
      ItemIsClean(items[1..], i - 1, depth);
    }
  }

  lemma {:induction false} EntryIsClean(entries: seq<Entry>, i: nat, depth: nat)
    requires depth <= 4 && i < |entries| && CleanEntries(entries, depth)
    ensures entries[i].key.Some? && !Blocked(entries[i].key.value) && entries[i].value != Null && Clean(entries[i].value, depth + 1)
    decreases i
  {
    hide Clean, Blocked;
    if i > 0 {
      EntryIsClean(entries[1..], i - 1, depth);
    }
  }

  // ----- What is kept -----

  /** The entry keeps the last value of its key that leaves something, scrubbed. */
  predicate Kept1(entries: seq<Entry>, depth: nat, allow: Option<set<string>>, e: Entry, i: nat)
    requires depth <= 4
  {
    && i < |entries| && e.key.Some? && entries[i].key == e.key && Keeps(allow, e.key.value)
    && Scrub(entries[i].value, depth + 1, None) == Some(e.value) && e.value != Null
    && forall j :: i < j < |entries| && entries[j].key == e.key ==> Scrub(entries[j].value, depth + 1, None) == Some(Null)
  }

  /** A scrubbed dictionary has an entry exactly where its source leaves one, and one for each key. */
  ghost predicate KeepsEach(entries: seq<Entry>, depth: nat, allow: Option<set<string>>, out: seq<Entry>)
    requires depth <= 4
  {
    DistinctKeys(out) && forall e :: e in out <==> exists i :: Kept1(entries, depth, allow, e, i)
  }

  lemma {:induction false} PutMembers(out: seq<Entry>, key: string, value: Value, e: Entry)
    requires DistinctKeys(out)
    ensures e in Put(out, key, value) <==> e == Entry(Some(key), value) || (e in out && e.key != Some(key))
    decreases |out|
  {
    if out != [] {
      PutMembers(out[1..], key, value, e);
      HasKeyMember(out[1..], e);
      assert e in out <==> e == out[0] || e in out[1..];
      if out[0].key == Some(key) {
        NoMemberHas(out[1..], e);
      }
    }
  }

  lemma {:induction false} HasKeyMember(out: seq<Entry>, e: Entry)
    ensures e in out ==> HasKey(out, e.key)
  {
    if out != [] {
      HasKeyMember(out[1..], e);
    }
  }

  lemma NoMemberHas(out: seq<Entry>, e: Entry)
    ensures !HasKey(out, e.key) ==> e !in out
  {
    HasKeyMember(out, e);
  }

  lemma {:induction false} DistinctPut(out: seq<Entry>, key: string, value: Value)
    requires DistinctKeys(out)
    ensures DistinctKeys(Put(out, key, value))
    decreases |out|
  {
    if out != [] {
      DistinctPut(out[1..], key, value);
      PutKeys(out[1..], key, value, out[0].key);
    }
  }

  lemma KeptAfter(done: seq<Entry>, next: Entry, depth: nat, allow: Option<set<string>>, e: Entry)
    requires depth <= 4 && next.key.Some? && (Keeps(allow, next.key.value) ==> Scrub(next.value, depth + 1, None).Some?)
    ensures
      var c := Scrub(next.value, depth + 1, None);
      var puts := Keeps(allow, next.key.value) && c.value != Null;
      (exists i :: Kept1(done + [next], depth, allow, e, i)) <==>
        || (puts && e == Entry(next.key, c.value))
        || ((exists i :: Kept1(done, depth, allow, e, i)) && !(puts && e.key == next.key))
  {
    hide Scrub, Blocked;
    var all, n := done + [next], |done|;
    assert forall i :: 0 <= i < n ==> all[i] == done[i];
    var c := Scrub(next.value, depth + 1, None);
    if i: nat :| Kept1(done, depth, allow, e, i) && !(Keeps(allow, next.key.value) && c.value != Null && e.key == next.key) {
      assert Kept1(all, depth, allow, e, i);
    }
    if i: nat :| Kept1(all, depth, allow, e, i) {
      assert i < n ==> Kept1(done, depth, allow, e, i);
    }
    if Keeps(allow, next.key.value) && c.value != Null && e == Entry(next.key, c.value) {
      assert Kept1(all, depth, allow, e, n);
    }
  }

  lemma {:induction false} EntriesKept(done: seq<Entry>, rest: seq<Entry>, depth: nat, allow: Option<set<string>>, out: seq<Entry>)
    requires depth <= 4 && KeepsEach(done, depth, allow, out) && ScrubEntries(rest, depth, allow, out).Some?
    ensures KeepsEach(done + rest, depth, allow, ScrubEntries(rest, depth, allow, out).value)
    decreases |rest|
  {
    hide Scrub, Kept1, Blocked, Put, DistinctKeys;
    if rest == [] {
      assert done + rest == done;
    } else {
      var next := rest[0];
      var k := next.key.value;
      var c := Scrub(next.value, depth + 1, None);
      var more := if Keeps(allow, k) && c.value != Null then Put(out, k, c.value) else out;
      forall e
        ensures e in more <==> exists i :: Kept1(done + [next], depth, allow, e, i)
      {
        KeptAfter(done, next, depth, allow, e);
        PutMembers(out, k, if c.Some? then c.value else Null, e);
      }
      DistinctPut(out, k, if c.Some? then c.value else Null);
      EntriesKept(done + [next], rest[1..], depth, allow, more);
      assert done + [next] + rest[1..] == done + rest;
    }
  }

  /** What a scrub keeps of a value: the first 500 characters of a text, and of what another value prints; the first 50
      items of a list, each scrubbed; and the entries of a dictionary that leave something. */
  lemma ScrubKeeps(v: Value, depth: nat, allow: Option<set<string>>)
    requires depth <= 4 && Scrub(v, depth, allow).Some?
    ensures
      var r := Scrub(v, depth, allow).value;
      match v
      case Null => r == Null
      case Atom(_) => r == v
      case Text(s) => r == Text(if |s| <= 500 then s else s[..500])
      case Other(text) => text.Some? && r == Text(if |text.value| <= 500 then text.value else text.value[..500])
      case List(items) =>
        && r.List? && |r.items| == Min(|items|, 50)
        && forall i :: 0 <= i < |r.items| ==> Scrub(items[i], depth + 1, None) == Some(r.items[i])
      case Dict(entries) => r.Dict? && KeepsEach(entries, depth, allow, r.entries)
  {
    match v
    case List(items) => ItemsKept(Cut(items, MAX_LIST), depth);
    case Dict(entries) =>
      hide Kept1;
      assert KeepsEach([], depth, allow, []) by {
        NoneKept(depth, allow);
      }
      EntriesKept([], entries, depth, allow, []);
      assert [] + entries == entries;
    case _ =>
  }

  lemma NoneKept(depth: nat, allow: Option<set<string>>)
    requires depth <= 4
    ensures KeepsEach([], depth, allow, [])
  {
    hide Scrub, Blocked;
  }

  lemma {:induction false} ItemsKept(items: seq<Value>, depth: nat)
    requires depth <= 4 && ScrubItems(items, depth).Some?
    ensures |ScrubItems(items, depth).value| == |items|
    ensures forall i :: 0 <= i < |items| ==> Scrub(items[i], depth + 1, None) == Some(ScrubItems(items, depth).value[i])
    decreases |items|
  {
    hide Scrub;
    if items != [] {
      ItemsKept(items[1..], depth);
      assert forall i :: 0 < i < |items| ==> items[i] == items[1..][i - 1];
    }
  }

  /** Below the fifth level nothing is kept. */
  lemma TooDeepIsDropped(v: Value, allow: Option<set<string>>)
    ensures Scrub(v, 5, allow) == Some(Null)
  {
  }

  // ----- Stored metadata -----

  /** Whatever the metadata, what is stored is harmless and within the allowlist, and it is what the scrub keeps, or nothing
      if something in it cannot be printed. */
  lemma StoredIsHarmless(metadata: Option<seq<Entry>>, allow: Option<set<string>>)
    ensures
      var stored := Sanitized(metadata, allow);
      && Harmless(Dict(stored), 0)
      && (allow.Some? ==> forall e <- stored :: e.key.Some? && e.key.value in allow.value)
      && (metadata.Some? && Scrub(Dict(metadata.value), 0, allow).Some? ==> KeepsEach(metadata.value, 0, allow, stored))
      && (metadata.Some? && Scrub(Dict(metadata.value), 0, allow).None? ==> stored == [])
  {
    SanitizedIsClean(metadata, allow);
    CleanIsHarmless(Dict(Sanitized(metadata, allow)), 0);
    if metadata.Some? {
      if Scrub(Dict(metadata.value), 0, allow).Some? {
        ScrubKeeps(Dict(metadata.value), 0, allow);
      }
      hide Harmless, ScrubEntries, Blocked;
      if metadata.value == [] {
        NoneKept(0, allow);
      }
    }
  }
}
