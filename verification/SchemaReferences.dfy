/**
 Local references of a tool schema: JSON pointers looked up in the document, anchors looked up in the
 collected set, and the acceptance of a whole schema.
 */
module SchemaReferences {
  import opened Common
  import opened ToolSchema
  import Transcript

  // ----- Pointer text (sections 3 and 4 of RFC 6901) -----

  /** Every `mark` followed by `digit` replaced by `out`, from the left, as `str.replace` does. */
  function Replace(s: string, digit: char, out: char): string {
    if s == [] then []
    else if |s| > 1 && s[0] == '~' && s[1] == digit then [out] + Replace(s[2..], digit, out)
    else [s[0]] + Replace(s[1..], digit, out)
  }

  function Unescape(raw: string): string {
    Replace(Replace(raw, '1', '/'), '0', '~')
  }

  function EscapeChar(c: char, slash: bool): string {
    if c == '~' then "~0" else if c == '/' && slash then "~1" else [c]
  }

  /** A reference token: `~` becomes `~0`, and `/` becomes `~1`. */
  function Escape(token: string): string {
    if token == [] then [] else EscapeChar(token[0], true) + Escape(token[1..])
  }

  /** The part of the escaping that is left after `~1` is undone. */
  function EscapeTildes(token: string): string {
    if token == [] then [] else EscapeChar(token[0], false) + EscapeTildes(token[1..])
  }

  function SplitSlash(s: string): (parts: seq<string>)
    ensures |parts| > 0
  {
    if s == [] then [[]]
    else if s[0] == '/' then [[]] + SplitSlash(s[1..])
    else
      var rest := SplitSlash(s[1..]);
      [[s[0]] + rest[0]] + rest[1..]
  }

  lemma {:induction false} SlashesUnescaped(token: string)
    ensures Replace(Escape(token), '1', '/') == EscapeTildes(token)
  {
    if token != [] {
      var rest := Escape(token[1..]);
      SlashesUnescaped(token[1..]);
      if token[0] == '~' {
        assert Escape(token) == ['~', '0'] + rest;
        assert Escape(token)[1..] == ['0'] + rest && (['0'] + rest)[1..] == rest;
      } else if token[0] == '/' {
        assert Escape(token) == ['~', '1'] + rest;
        assert Escape(token)[2..] == rest;
      } else {
        assert Escape(token)[1..] == rest;
      }
    }
  }

  lemma {:induction false} TildesUnescaped(token: string)
    ensures Replace(EscapeTildes(token), '0', '~') == token
  {
    if token != [] {
      var rest := EscapeTildes(token[1..]);
      TildesUnescaped(token[1..]);
      if token[0] == '~' {
        assert EscapeTildes(token) == ['~', '0'] + rest;
        assert EscapeTildes(token)[2..] == rest;
      } else {
        assert EscapeTildes(token)[1..] == rest;
      }
    }
  }

  /** Escaping a token and reading it back gives the token. */
  lemma EscapeRoundTrip(token: string)
    ensures Unescape(Escape(token)) == token
  {
    SlashesUnescaped(token);
    TildesUnescaped(token);
  }

  predicate NoSlash(s: string) { forall i :: 0 <= i < |s| ==> s[i] != '/' }

  lemma {:induction false} EscapedHasNoSlash(token: string)
    ensures NoSlash(Escape(token))
  {
    if token != [] {
      EscapedHasNoSlash(token[1..]);
      assert NoSlash(EscapeChar(token[0], true));
    }
  }

  lemma {:induction false} SplitOne(part: string, rest: string)
    requires NoSlash(part)
    ensures SplitSlash(part + "/" + rest) == [part] + SplitSlash(rest)
    ensures SplitSlash(part) == [part]
  {
    if part == [] {
      assert part + "/" + rest == "/" + rest;
    } else {
      assert NoSlash(part[1..]);
      SplitOne(part[1..], rest);
      assert (part + "/" + rest)[1..] == part[1..] + "/" + rest;
      assert part == [part[0]] + part[1..];
      assert ([part[1..]] + SplitSlash(rest))[1..] == SplitSlash(rest);
    }
  }

  /** Splitting a pointer undoes joining its tokens. */
  lemma {:induction false} SplitJoin(parts: seq<string>)
    requires parts != [] && forall i :: 0 <= i < |parts| ==> NoSlash(parts[i])
    ensures SplitSlash(Join(parts, "/")) == parts
    decreases |parts|
  {
    hide SplitSlash, NoSlash;
    if |parts| == 1 {
      SplitOne(parts[0], []);
    } else {
      SplitOne(parts[0], Join(parts[1..], "/"));
      SplitJoin(parts[1..]);
    }
  }

  // ----- Numbers, as `int` reads them -----

  predicate IsDigit(c: char) { '0' <= c <= '9' }

  /** Digits, where a single underscore may stand between two of them. */
  function Digits(s: string, value: nat, afterDigit: bool): Option<nat> {
    if s == [] then (if afterDigit then Some(value) else None)
    else if IsDigit(s[0]) then Digits(s[1..], 10 * value + (s[0] as int - '0' as int), true)
    else if s[0] == '_' && afterDigit then Digits(s[1..], value, false)
    else None
  }

  function Signed(digits: Option<nat>, negative: bool): Option<int> {
    match digits
    case None => None
    case Some(n) =>
      Some(if negative then -(n as int) else n as int)
  }

  function ReadInt(token: string): Option<int> {
    var s := Transcript.Strip(token);
    if s != [] && s[0] == '-' then Signed(Digits(s[1..], 0, false), true)
    else Signed(Digits(if s != [] && s[0] == '+' then s[1..] else s, 0, false), false)
  }

  function Digit(n: nat): char
    requires n < 10
  {
    '0' + n as char
  }

  function Decimal(n: nat): string {
    if n < 10 then [Digit(n)] else Decimal(n / 10) + [Digit(n % 10)]
  }

  predicate AllDigits(s: string) { s != [] && forall i :: 0 <= i < |s| ==> IsDigit(s[i]) }

  lemma {:induction false} DigitsAppend(s: string, d: nat, value: nat, after: bool)
    requires AllDigits(s) && d < 10
    requires Digits(s, value, after).Some?
    ensures Digits(s + [Digit(d)], value, after) == Some(10 * Digits(s, value, after).value + d)
  {
    var next := 10 * value + (s[0] as int - '0' as int);
    if |s| == 1 {
      assert (s + [Digit(d)])[1..] == [Digit(d)];
      assert Digits([Digit(d)], next, true) == Digits([], 10 * next + d, true);
      assert s[1..] == [];
    } else {
      assert (s + [Digit(d)])[1..] == s[1..] + [Digit(d)];
      DigitsAppend(s[1..], d, next, true);
    }
  }

  lemma {:induction false} DecimalReads(n: nat)
    ensures AllDigits(Decimal(n)) && Digits(Decimal(n), 0, false) == Some(n)
  {
    if n < 10 {
      assert Decimal(n)[1..] == [];
    } else {
      DecimalReads(n / 10);
      DigitsAppend(Decimal(n / 10), n % 10, 0, false);
    }
  }

  lemma ReadDecimal(n: nat)
    ensures ReadInt(Decimal(n)) == Some(n)
  {
    DecimalReads(n);
    assert Transcript.Strip(Decimal(n)) == Decimal(n);
  }

  // ----- Looking a pointer up -----

  function Element(items: seq<Json>, index: Option<int>): Option<Json> {
    match index
    case None => None
    case Some(i) =>
      if 0 <= i < |items| then Some(items[i])
      else if -|items| <= i < 0 then Some(items[|items| + i])
      else None
  }

  function Down(current: Json, token: string): Option<Json> {
    match current
    case Obj(members) => Get(members, token)
    case Arr(items) => Element(items, ReadInt(token))
    case _ => None
  }

  function Resolve(current: Json, parts: seq<string>): Option<Json>
    decreases |parts|
  {
    if parts == [] then Some(current)
    else match Down(current, Unescape(parts[0]))
      case None => None
      case Some(next) => Resolve(next, parts[1..])
  }

  predicate Exists(root: Json, pointer: string) {
    pointer == "" || Resolve(root, SplitSlash(pointer)).Some?
  }

  method JsonPointerExists(root: Json, pointer: string) returns (found: bool)
    ensures found <==> Exists(root, pointer)
  {
    if pointer == "" {
      return true;
    }
    var current := root;
    var parts := SplitSlash(pointer);
    for i := 0 to |parts|
      invariant Resolve(root, parts) == Resolve(current, parts[i..])
    {
      assert parts[i..][1..] == parts[i + 1..];
      var token := Unescape(parts[i]);
      match current
      case Obj(members) =>
        var next := Get(members, token);
        if next.None? {
          return false;
        }
        current := next.value;
      case Arr(items) =>
        var next := Element(items, ReadInt(token));
        if next.None? {
          return false;
        }
        current := next.value;
      case _ =>
        return false;
    }
    return true;
  }

  // ----- Paths of a document -----

  datatype Step = Key(name: string) | At(index: nat)

  /** The node that a path leads to, if it stays inside the document. */
  function Target(doc: Json, path: seq<Step>): Option<Json>
    decreases |path|
  {
    if path == [] then Some(doc)
    else
      var next := match (doc, path[0])
        case (Obj(members), Key(name)) => Get(members, name)
        case (Arr(items), At(index)) => if index < |items| then Some(items[index]) else None
        case _ => None;
      match next case None => None case Some(v) => Target(v, path[1..])
  }

  function Token(step: Step): string {
    match step
    case Key(name) => Escape(name)
    case At(index) => Decimal(index)
  }

  function Tokens(path: seq<Step>): seq<string> {
    seq(|path|, i requires 0 <= i < |path| => Token(path[i]))
  }

  lemma TokenReads(step: Step)
    ensures NoSlash(Token(step))
    ensures step.Key? ==> Unescape(Token(step)) == step.name
    ensures step.At? ==> ReadInt(Unescape(Token(step))) == Some(step.index)
  {
    match step
    case Key(name) =>
      EscapedHasNoSlash(name);
      EscapeRoundTrip(name);
    case At(index) =>
      DecimalReads(index);
      ReadDecimal(index);
      DigitsStay(Decimal(index));
  }

  lemma {:induction false} NothingToReplace(s: string, digit: char, out: char)
    requires forall i :: 0 <= i < |s| ==> s[i] != '~'
    ensures Replace(s, digit, out) == s
  {
    if s != [] {
      NothingToReplace(s[1..], digit, out);
    }
  }

  lemma DigitsStay(s: string)
    requires AllDigits(s)
    ensures Unescape(s) == s && NoSlash(s)
  {
    NothingToReplace(s, '1', '/');
    NothingToReplace(s, '0', '~');
  }

  lemma {:induction false} TokensResolve(doc: Json, path: seq<Step>)
    requires Target(doc, path).Some?
    ensures Resolve(doc, Tokens(path)) == Target(doc, path)
    decreases |path|
  {
    hide Unescape, ReadInt, Token, Get;
    if path != [] {
      TokenReads(path[0]);
      assert Tokens(path)[1..] == Tokens(path[1..]);
      var next := Down(doc, Unescape(Token(path[0])));
      TokensResolve(next.value, path[1..]);
    }
  }

  /** The pointer printed for a path of a document leads to the node at that path. */
  lemma PrintedPointerFinds(doc: Json, path: seq<Step>)
    requires path != [] && Target(doc, path).Some?
    ensures Resolve(doc, SplitSlash(Join(Tokens(path), "/"))) == Target(doc, path)
    ensures Exists(doc, Join(Tokens(path), "/"))
  {
    TokensSplit(path);
    TokensResolve(doc, path);
  }

  /** A path answers the tokens: member names as they are escaped, indexes as `int` reads them from either end. */
  predicate Follows(doc: Json, path: seq<Step>, parts: seq<string>)
    decreases |parts|
  {
    if parts == [] || path == [] then parts == [] && path == []
    else
      match (doc, path[0])
      case (Obj(members), Key(name)) =>
        && name == Unescape(parts[0])
        && Get(members, name).Some? && Follows(Get(members, name).value, path[1..], parts[1..])
      case (Arr(items), At(index)) =>
        && index < |items| && ReadInt(Unescape(parts[0])) in {Some(index), Some(index - |items|)}
        && Follows(items[index], path[1..], parts[1..])
      case _ => false
  }

  /** Tokens resolve exactly along the path that answers them, to the node at its end. */
  lemma {:induction false} ResolvesExactlyAlongAPath(doc: Json, parts: seq<string>)
    ensures Resolve(doc, parts).Some? <==> exists path :: Follows(doc, path, parts)
    ensures forall path :: Follows(doc, path, parts) ==> Target(doc, path) == Resolve(doc, parts)
  {
    if Resolve(doc, parts).Some? {
      var path := ResolvedPath(doc, parts);
    }
    forall path | Follows(doc, path, parts)
      ensures Resolve(doc, parts).Some? && Target(doc, path) == Resolve(doc, parts)
    {
      FollowedResolves(doc, path, parts);
    }
  }

  lemma {:induction false} ResolvedPath(doc: Json, parts: seq<string>) returns (path: seq<Step>)
    requires Resolve(doc, parts).Some?
    ensures Follows(doc, path, parts)
    decreases |parts|
  {
    hide Unescape, ReadInt, Get;
    if parts == [] {
      path := [];
    } else {
      var token := Unescape(parts[0]);
      var rest := ResolvedPath(Down(doc, token).value, parts[1..]);
      var step := if doc.Obj? then Key(token)
                  else At(if ReadInt(token).value >= 0 then ReadInt(token).value else |doc.items| + ReadInt(token).value);
      path := [step] + rest;
      assert path[1..] == rest;
    }
  }

  lemma {:induction false} FollowedResolves(doc: Json, path: seq<Step>, parts: seq<string>)
    requires Follows(doc, path, parts)
    ensures Resolve(doc, parts).Some? && Target(doc, path) == Resolve(doc, parts)
    decreases |parts|
  {
    hide Unescape, ReadInt, Get;
    if parts != [] {
      var next := Down(doc, Unescape(parts[0]));
      FollowedResolves(next.value, path[1..], parts[1..]);
    }
  }

  // ----- Which pointers are what the standard writes -----

  /** The decimal of an index: no sign, blank, underscore or leading zero. */
  predicate PlainIndex(raw: string) {
    AllDigits(raw) && (|raw| == 1 || raw[0] != '0')
  }

  /** Every tilde starts one of the two escapes. */
  predicate WellEscaped(raw: string) {
    if raw == [] then true
    else if raw[0] == '~' then |raw| > 1 && raw[1] in {'0', '1'} && WellEscaped(raw[2..])
    else WellEscaped(raw[1..])
  }

  /** Every token that meets an array is the decimal of an index, and every one that meets an object well escaped. */
  predicate Plain(doc: Json, parts: seq<string>)
    decreases |parts|
  {
    parts == []
    || (&& (doc.Arr? ==> PlainIndex(parts[0])) && (doc.Obj? ==> WellEscaped(parts[0]))
        && (var next := Down(doc, Unescape(parts[0])); next.Some? ==> Plain(next.value, parts[1..])))
  }

  lemma {:induction false} DecimalIsPlain(n: nat)
    ensures PlainIndex(Decimal(n)) && (n > 0 ==> Decimal(n)[0] != '0')
  {
    if n >= 10 {
      DecimalIsPlain(n / 10);
    }
  }

  lemma {:induction false} PlainIsDecimal(raw: string) returns (n: nat)
    requires PlainIndex(raw)
    ensures Decimal(n) == raw
    decreases |raw|
  {
    var front, d := raw[..|raw| - 1], raw[|raw| - 1] as int - '0' as int;
    assert IsDigit(raw[|raw| - 1]) && Digit(d) == raw[|raw| - 1];
    assert raw == front + [raw[|raw| - 1]];
    if |raw| == 1 {
      n := d;
    } else {
      assert front[0] == raw[0] != '0';
      assert forall i :: 0 <= i < |front| ==> front[i] == raw[i];
      var m := PlainIsDecimal(front);
      assert Decimal(0) == "0";
      n := 10 * m + d;
      assert n / 10 == m && n % 10 == d;
    }
  }

  lemma {:induction false} EscapedIsWellEscaped(token: string)
    ensures WellEscaped(Escape(token))
  {
    if token != [] {
      var rest := Escape(token[1..]);
      EscapedIsWellEscaped(token[1..]);
      if token[0] == '~' {
        assert Escape(token) == ['~', '0'] + rest && Escape(token)[2..] == rest;
      } else if token[0] == '/' {
        assert Escape(token) == ['~', '1'] + rest && Escape(token)[2..] == rest;
      } else {
        assert Escape(token)[1..] == rest;
      }
    }
  }

  /** A well-escaped token without a slash is the escaping of what it is read as. */
  lemma WellEscapedIsEscaped(raw: string)
    requires WellEscaped(raw) && NoSlash(raw)
    ensures Escape(Unescape(raw)) == raw
  {
    var token := Written(raw);
    EscapeRoundTrip(token);
  }

  lemma {:induction false} Written(raw: string) returns (token: string)
    requires WellEscaped(raw) && NoSlash(raw)
    ensures Escape(token) == raw
  {
    if raw == [] {
      token := [];
    } else if raw[0] == '~' {
      var rest := Written(raw[2..]);
      token := [if raw[1] == '0' then '~' else '/'] + rest;
      assert token[1..] == rest;
      assert raw == [raw[0], raw[1]] + raw[2..];
    } else {
      var rest := Written(raw[1..]);
      token := [raw[0]] + rest;
      assert token[1..] == rest;
    }
  }

  lemma {:induction false} WrittenIsPlain(doc: Json, path: seq<Step>)
    requires Target(doc, path).Some?
    ensures Plain(doc, Tokens(path))
    decreases |path|
  {
    hide Unescape, ReadInt, Get, PlainIndex, WellEscaped;
    if path != [] {
      TokenReads(path[0]);
      assert Tokens(path)[1..] == Tokens(path[1..]);
      var next := Down(doc, Unescape(Token(path[0])));
      WrittenIsPlain(next.value, path[1..]);
      match path[0]
      case Key(name) => EscapedIsWellEscaped(name);
      case At(index) => DecimalIsPlain(index);
    }
  }

  /** The step that a plain token stands for. */
  lemma PlainStep(doc: Json, raw: string) returns (step: Step)
    requires Down(doc, Unescape(raw)).Some? && NoSlash(raw)
    requires (doc.Arr? ==> PlainIndex(raw)) && (doc.Obj? ==> WellEscaped(raw))
    ensures Token(step) == raw && Target(doc, [step]) == Down(doc, Unescape(raw))
  {
    hide ReadInt, Get;
    if doc.Obj? {
      step := Key(Unescape(raw));
      WellEscapedIsEscaped(raw);
    } else {
      var n := PlainIsDecimal(raw);
      step := At(n);
      TokenReads(step);
    }
    assert [step][1..] == [];
  }

  lemma {:induction false} PlainIsWritten(doc: Json, parts: seq<string>) returns (path: seq<Step>)
    requires Resolve(doc, parts).Some? && Plain(doc, parts)
    requires forall i :: 0 <= i < |parts| ==> NoSlash(parts[i])
    ensures Target(doc, path).Some? && Tokens(path) == parts
    decreases |parts|
  {
    hide Unescape, Token, Get, PlainIndex, WellEscaped, Down;
    if parts == [] {
      path := [];
    } else {
      var step := PlainStep(doc, parts[0]);
      var next := Down(doc, Unescape(parts[0])).value;
      var rest := PlainIsWritten(next, parts[1..]);
      path := [step] + rest;
      assert path[1..] == rest && [step][1..] == [];
      assert Tokens(path) == [Token(step)] + Tokens(rest);
    }
  }

  lemma {:induction false} SplitHasNoSlash(s: string)
    ensures forall i :: 0 <= i < |SplitSlash(s)| ==> NoSlash(SplitSlash(s)[i])
  {
    if s != [] {
      SplitHasNoSlash(s[1..]);
      var rest := SplitSlash(s[1..]);
      assert s[0] != '/' ==> NoSlash([s[0]] + rest[0]);
    }
  }

  lemma {:induction false} JoinSplit(s: string)
    ensures Join(SplitSlash(s), "/") == s
  {
    if s != [] {
      JoinSplit(s[1..]);
      var rest := SplitSlash(s[1..]);
      if s[0] == '/' {
        assert ([[]] + rest)[1..] == rest;
        assert [] + "/" + s[1..] == s;
      } else {
        var parts := [[s[0]] + rest[0]] + rest[1..];
        assert parts[1..] == rest[1..];
        assert |rest| > 1 ==> ([s[0]] + rest[0]) + "/" + Join(rest[1..], "/") == [s[0]] + (rest[0] + "/" + Join(rest[1..], "/"));
        assert s == [s[0]] + s[1..];
      }
    }
  }

  /** Some path of the document, other than the empty one, is printed as this pointer. */
  ghost predicate Names(doc: Json, pointer: string) {
    exists path :: path != [] && Target(doc, path).Some? && Join(Tokens(path), "/") == pointer
  }

  /** A pointer names a place of the document exactly when its tokens resolve and are what the standard writes. */
  lemma NamesExactlyWhenPlain(doc: Json, pointer: string)
    ensures Names(doc, pointer) <==> Resolve(doc, SplitSlash(pointer)).Some? && Plain(doc, SplitSlash(pointer))
  {
    hide Plain, Resolve, Target;
    var parts := SplitSlash(pointer);
    SplitHasNoSlash(pointer);
    JoinSplit(pointer);
    if Resolve(doc, parts).Some? && Plain(doc, parts) {
      var path := PlainIsWritten(doc, parts);
      assert |path| == |parts|;
    }
    forall path | path != [] && Target(doc, path).Some? && Join(Tokens(path), "/") == pointer
      ensures Resolve(doc, parts).Some? && Plain(doc, parts)
    {
      TokensSplit(path);
      TokensResolve(doc, path);
      WrittenIsPlain(doc, path);
    }
  }

  lemma TokensSplit(path: seq<Step>)
    requires path != []
    ensures SplitSlash(Join(Tokens(path), "/")) == Tokens(path)
  {
    forall i | 0 <= i < |path|
      ensures NoSlash(Tokens(path)[i])
    {
      TokenReads(path[i]);
    }
    SplitJoin(Tokens(path));
  }

  /**
   The look-up is right about a pointer, that is, it finds it exactly when it names a place of the document,
   exactly when the pointer is plain or is not found; the empty one is right where there is an empty name.
   */
  lemma FoundExactlyWhenNamed(doc: Json, pointer: string)
    ensures pointer != "" ==>
        ((Exists(doc, pointer) <==> Names(doc, pointer))
         <==> (Plain(doc, SplitSlash(pointer)) || Resolve(doc, SplitSlash(pointer)).None?))
    ensures pointer == "" ==>
        ((Exists(doc, pointer) <==> Names(doc, pointer)) <==> doc.Obj? && Get(doc.members, "").Some?)
  {
    hide Plain, Names;
    NamesExactlyWhenPlain(doc, pointer);
    if pointer == "" {
      EmptyPointerNames(doc);
    }
  }

  lemma EmptyPointerNames(doc: Json)
    ensures Names(doc, "") <==> doc.Obj? && Get(doc.members, "").Some?
  {
    hide Get;
    NamesExactlyWhenPlain(doc, "");
    assert SplitSlash("") == [""] && [""][1..] == [];
    assert Unescape("") == "";
    assert Digits("", 0, false) == None && Transcript.Strip("") == "";
  }

  /** An index counted from the end is found too, though it is no JSON pointer to the element. */
  lemma NegativeIndexExists(items: seq<Json>)
    ensures Exists(Arr(items), "-1") <==> items != []
  {
    TwoCharacters(items, '-', '1');
    assert "-1"[1..] == "1" && "1"[1..] == "";
    assert Digits("1", 0, false) == Digits("", 1, true);
  }

  /** So are indexes with a sign or a leading zero; none of them is plain. */
  lemma LaxIndexesExist(items: seq<Json>)
    ensures Exists(Arr(items), "+0") <==> items != []
    ensures Exists(Arr(items), "00") <==> items != []
    ensures !PlainIndex("-1") && !PlainIndex("+0") && !PlainIndex("00")
  {
    TwoCharacters(items, '+', '0');
    TwoCharacters(items, '0', '0');
    assert "+0"[1..] == "0" && "00"[1..] == "0" && "0"[1..] == "";
    assert Digits("0", 0, false) == Digits("", 0, true) && Digits("00", 0, false) == Digits("0", 0, true) == Digits("", 0, true);
    assert !IsDigit("-1"[0]) && !IsDigit("+0"[0]);
  }

  lemma TwoCharacters(items: seq<Json>, c: char, d: char)
    requires c in {'+', '-', '0'} && IsDigit(d)
    ensures Exists(Arr(items), [c, d]) <==> Element(items, ReadInt([c, d])).Some?
    ensures Transcript.Strip([c, d]) == [c, d]
  {
    SplitOne([c, d], []);
    NothingToReplace([c, d], '1', '/');
    NothingToReplace([c, d], '0', '~');
    assert Resolve(Arr(items), [[c, d]]).Some? <==> Down(Arr(items), [c, d]).Some?;
  }

  /** The pointer to the member with the empty name is not looked up at all. */
  lemma EmptyPointerIsUnchecked()
    ensures Exists(Obj([]), Join(Tokens([Key("")]), "/")) && Target(Obj([]), [Key("")]) == None
  {
    assert Tokens([Key("")]) == [""];
    assert Join([""], "/") == "";
  }

  // ----- Accepting a schema -----

  predicate RootOk(schema: Json) {
    && schema.Obj?
    && (match Get(schema.members, "type")
        case Some(Str(t)) => t == "object"
        case Some(Arr(items)) =>
          (forall i :: 0 <= i < |items| ==> items[i].Str?) && exists i :: 0 <= i < |items| && items[i] == Str("object")
        case _ => false)
  }

  predicate StartsWith(s: string, prefix: string) { |prefix| <= |s| && s[..|prefix|] == prefix }

  /** A reference that the schema itself answers: its root, a place in it, or one of its anchors. */
  predicate Answered(schema: Json, anchors: set<string>, r: string, env: Env) {
    || r == "#"
    || (StartsWith(r, "#/") && Exists(schema, env.unquote(r[2..])))
    || (!StartsWith(r, "#/") && StartsWith(r, "#") && r[1..] in anchors)
  }

  ghost predicate Accepted(schema: Json, env: Env) {
    var nodes := Visited(schema);
    && RootOk(schema)
    && AllOk(nodes, env)
    && Distinct(Anchors(nodes))
    && (forall i :: 0 <= i < |References(nodes)| ==>
          Answered(schema, Elements(Anchors(nodes)), References(nodes)[i], env))
    && env.metaschema(schema)
  }

  /**
   Accepts a schema exactly when it should be, and then the anchor collector and the validator have visited
   the same nodes in the same order.
   */
  method ValidateAgentToolSchema(schema: Json, env: Env)
    returns (ok: bool, ghost collected: seq<Json>, ghost validated: seq<Json>)
    ensures ok <==> Accepted(schema, env)
    ensures ok ==> collected == validated == Visited(schema)
  {
    hide Visited, Anchors, References, AllOk, Distinct, Added, Answered, RootOk;
    ok, collected, validated := false, [], [];
    if !RootOk(schema) {
      return;
    }
    var walk := new SchemaWalk();
    AddedExactlyWhenDistinct({}, Anchors(Visited(schema)));
    ok := walk.Collect(schema);
    if !ok {
      return;
    }
    ok := walk.Validate(schema, env);
    if !ok {
      return;
    }
    collected, validated := walk.collected, walk.validated;
    var refs, anchors := walk.localRefs, walk.anchors;
    assert refs == References(Visited(schema)) && anchors == Elements(Anchors(Visited(schema)));
    for i := 0 to |refs|
      invariant forall j :: 0 <= j < i ==> Answered(schema, anchors, refs[j], env)
    {
      var r := refs[i];
      ok := CheckReference(schema, anchors, r, env);
      if !ok {
        assert !Answered(schema, Elements(Anchors(Visited(schema))), References(Visited(schema))[i], env);
        return;
      }
    }
    ok := env.metaschema(schema);
  }

  method CheckReference(schema: Json, anchors: set<string>, r: string, env: Env) returns (ok: bool)
    ensures ok <==> Answered(schema, anchors, r, env)
  {
    if r == "#" {
      return true;
    }
    if StartsWith(r, "#/") {
      ok := JsonPointerExists(schema, env.unquote(r[2..]));
      return;
    }
    if StartsWith(r, "#") && r[1..] in anchors {
      return true;
    }
    return false;
  }

  // ----- What acceptance promises -----

  /** Node `i` is the one that declares anchor `a`. */
  predicate OnlyAt(nodes: seq<Json>, i: int, a: string) {
    && 0 <= i < |nodes| && a in OwnAnchors(nodes[i])
    && forall j :: 0 <= j < |nodes| && a in OwnAnchors(nodes[j]) ==> j == i
  }

  lemma {:induction false} AnchorHasOneNode(nodes: seq<Json>, a: string) returns (i: nat)
    requires Distinct(Anchors(nodes)) && a in Anchors(nodes)
    ensures OnlyAt(nodes, i, a)
    decreases |nodes|
  {
    hide OwnAnchors, Distinct, OnlyAt;
    DistinctAppend(OwnAnchors(nodes[0]), Anchors(nodes[1..]));
    if a in OwnAnchors(nodes[0]) {
      i := 0;
      assert a in Elements(OwnAnchors(nodes[0]));
      OnlyAtHead(nodes, a);
    } else {
      i := AnchorHasOneNode(nodes[1..], a);
      OnlyAtTail(nodes, i, a);
      i := i + 1;
    }
  }

  lemma OnlyAtHead(nodes: seq<Json>, a: string)
    requires nodes != [] && a in OwnAnchors(nodes[0]) && a !in Anchors(nodes[1..])
    ensures OnlyAt(nodes, 0, a)
  {
    hide OwnAnchors, Anchors;
    forall j | 0 < j < |nodes|
      ensures a !in OwnAnchors(nodes[j])
    {
      OwnAnchorsAreAnchors(nodes[1..], j - 1, a);
    }
  }

  lemma OnlyAtTail(nodes: seq<Json>, i: nat, a: string)
    requires nodes != [] && a !in OwnAnchors(nodes[0]) && OnlyAt(nodes[1..], i, a)
    ensures OnlyAt(nodes, i + 1, a)
  {
    hide OwnAnchors;
    assert forall j :: 0 < j < |nodes| ==> nodes[j] == nodes[1..][j - 1];
  }

  lemma {:induction false} OwnAnchorsAreAnchors(nodes: seq<Json>, i: nat, a: string)
    requires i < |nodes|
    ensures a in OwnAnchors(nodes[i]) ==> a in Anchors(nodes)
    decreases i
  {
    hide OwnAnchors;
    if i > 0 {
      OwnAnchorsAreAnchors(nodes[1..], i - 1, a);
    }
  }

  lemma {:induction false} OwnReferencesAreReferences(nodes: seq<Json>, i: nat, r: string)
    requires i < |nodes| && r in OwnReferences(nodes[i])
    ensures r in References(nodes)
    decreases i
  {
    hide OwnReferences;
    if i > 0 {
      OwnReferencesAreReferences(nodes[1..], i - 1, r);
    }
  }

  /** The reference names the root, an existing place of the document, or an anchor of exactly one node. */
  ghost predicate Resolves(schema: Json, nodes: seq<Json>, r: string, env: Env) {
    || r == "#"
    || (StartsWith(r, "#/") && Exists(schema, env.unquote(r[2..])))
    || (StartsWith(r, "#") && exists k :: OnlyAt(nodes, k, r[1..]))
  }

  /** In an accepted schema every reference of a visited node resolves. */
  lemma AcceptedReferencesResolve(schema: Json, env: Env)
    ensures Accepted(schema, env) ==>
        forall i, r :: 0 <= i < |Visited(schema)| && r in OwnReferences(Visited(schema)[i]) ==>
          Resolves(schema, Visited(schema), r, env)
  {
    hide Visited, OwnReferences, OwnAnchors, Anchors, References, Distinct, AllOk, RootOk, Exists, OnlyAt, Resolves;
    if Accepted(schema, env) {
      var nodes := Visited(schema);
      forall i, r | 0 <= i < |nodes| && r in OwnReferences(nodes[i])
        ensures Resolves(schema, nodes, r, env)
      {
        OwnReferencesAreReferences(nodes, i, r);
        var k :| 0 <= k < |References(nodes)| && References(nodes)[k] == r;
        AnsweredResolves(schema, nodes, r, env);
      }
    }
  }

  lemma AnsweredResolves(schema: Json, nodes: seq<Json>, r: string, env: Env)
    requires Distinct(Anchors(nodes)) && Answered(schema, Elements(Anchors(nodes)), r, env)
    ensures Resolves(schema, nodes, r, env)
  {
    hide Anchors, Distinct, Exists, OnlyAt;
    if r != "#" && !StartsWith(r, "#/") {
      var only := AnchorHasOneNode(nodes, r[1..]);
    }
  }
}
