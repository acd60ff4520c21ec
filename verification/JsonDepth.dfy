/**
 The nesting guard on request bodies (`_json_depth_exceeds`), a byte scanner, against
 the nesting depth of JSON values. A value carries its whole text: white space and
 string escapes are those of sections 2 and 7 of RFC 8259.
 */
module JsonDepth {
  import opened Common

  const QUOTE: byte := 0x22
  const COMMA: byte := 0x2C
  const COLON: byte := 0x3A
  const OPEN_ARRAY: byte := 0x5B
  const BACKSLASH: byte := 0x5C
  const CLOSE_ARRAY: byte := 0x5D
  const OPEN_OBJECT: byte := 0x7B
  const CLOSE_OBJECT: byte := 0x7D

  // ----- The scanner -----

  datatype Scan = Scan(depth: int, inString: bool, escaped: bool)

  const START: Scan := Scan(0, false, false)

  function Step(s: Scan, b: byte, clamp: bool): Scan {
    if s.inString then
      if s.escaped then s.(escaped := false)
      else if b == BACKSLASH then s.(escaped := true)
      else if b == QUOTE then s.(inString := false)
      else s
    else if b == QUOTE then s.(inString := true)
    else if b == OPEN_ARRAY || b == OPEN_OBJECT then s.(depth := s.depth + 1)
    else if b == CLOSE_ARRAY || b == CLOSE_OBJECT then
      s.(depth := if clamp && s.depth - 1 < 0 then 0 else s.depth - 1)
    else s
  }

  /** The state after all bytes. */
  function Run(s: Scan, text: Bytes, clamp: bool): Scan
    decreases |text|
  {
    if text == [] then s else Run(Step(s, text[0], clamp), text[1..], clamp)
  }

  /** Does the scan pass the limit at some byte? */
  predicate Passes(s: Scan, text: Bytes, limit: int, clamp: bool)
    decreases |text|
  {
    text != [] && (Step(s, text[0], clamp).depth > limit || Passes(Step(s, text[0], clamp), text[1..], limit, clamp))
  }

  method JsonDepthExceeds(payload: Bytes, maxDepth: nat) returns (exceeds: bool)
    ensures exceeds == Passes(START, payload, maxDepth, true)
  {
    var depth: int := 0;
    var inString, escaped := false, false;
    for i := 0 to |payload|
      invariant 0 <= depth <= maxDepth
      invariant Passes(START, payload, maxDepth, true) ==
                Passes(Scan(depth, inString, escaped), payload[i..], maxDepth, true)
    {
      var b := payload[i];
      assert payload[i..][0] == b && payload[i..][1..] == payload[i + 1..];
      if inString {
        if escaped {
          escaped := false;
        } else if b == BACKSLASH {
          escaped := true;
        } else if b == QUOTE {
          inString := false;
        }
      } else if b == QUOTE {
        inString := true;
      } else if b == OPEN_ARRAY || b == OPEN_OBJECT {
        depth := depth + 1;
        if depth > maxDepth {
          return true;
        }
      } else if b == CLOSE_ARRAY || b == CLOSE_OBJECT {
        depth := if depth - 1 > 0 then depth - 1 else 0;
      }
    }
    return false;
  }

  // ----- JSON text -----

  /** One character of a string: unescaped bytes, a short escape, or \uXXXX. */
  datatype Char =
    | Plain(value: byte)
    | Escaped(letter: byte)
    | Unicode(hex: Bytes)

  predicate HexDigit(b: byte) {
    0x30 <= b <= 0x39 || 0x41 <= b <= 0x46 || 0x61 <= b <= 0x66
  }

  predicate ProperChar(c: Char) {
    match c
    case Plain(b) => b >= 0x20 && b != QUOTE && b != BACKSLASH
    case Escaped(l) => l in {QUOTE, BACKSLASH, 0x2F, 0x62, 0x66, 0x6E, 0x72, 0x74}
    case Unicode(hex) => |hex| == 4 && forall i :: 0 <= i < 4 ==> HexDigit(hex[i])
  }

  function CharText(c: Char): Bytes {
    match c
    case Plain(b) => [b]
    case Escaped(l) => [BACKSLASH, l]
    case Unicode(hex) => [BACKSLASH, 0x75] + hex
  }

  function CharsText(cs: seq<Char>): Bytes {
    if cs == [] then [] else CharText(cs[0]) + CharsText(cs[1..])
  }

  predicate ProperChars(cs: seq<Char>) {
    forall i :: 0 <= i < |cs| ==> ProperChar(cs[i])
  }

  predicate IsWhite(b: byte) {
    b == 0x20 || b == 0x09 || b == 0x0A || b == 0x0D
  }

  /** A JSON value as written. `Scalar` is a number or one of the three literal names;
      `blank` fields are the white space around an element. */
  datatype Value =
    | Scalar(text: Bytes)
    | Str(chars: seq<Char>)
    | Arr(blank: Bytes, items: List)
    | Obj(blank: Bytes, members: Members)

  /** Array elements, each with the white space before and after it. */
  datatype List =
    | Empty
    | Item(before: Bytes, value: Value, after: Bytes, rest: List)

  datatype Members =
    | NoMember
    | Member(before: Bytes, name: seq<Char>, mid: Bytes, gap: Bytes, value: Value, after: Bytes, rest: Members)

  predicate AllWhite(s: Bytes) {
    forall i :: 0 <= i < |s| ==> IsWhite(s[i])
  }

  /** No byte of a number or literal name has a meaning for the scanner. */
  predicate Inert(b: byte) {
    b != QUOTE && b != OPEN_ARRAY && b != OPEN_OBJECT && b != CLOSE_ARRAY && b != CLOSE_OBJECT
  }

  predicate ProperScalar(s: Bytes) {
    || s == [0x74, 0x72, 0x75, 0x65] || s == [0x66, 0x61, 0x6C, 0x73, 0x65] || s == [0x6E, 0x75, 0x6C, 0x6C]
    || (s != [] && forall i :: 0 <= i < |s| ==> NumberByte(s[i]))
  }

  /** Digits, sign, point and exponent letters. */
  predicate NumberByte(b: byte) {
    0x30 <= b <= 0x39 || b in {0x2B, 0x2D, 0x2E, 0x45, 0x65}
  }

  predicate Proper(v: Value) {
    match v
    case Scalar(text) => ProperScalar(text)
    case Str(chars) => ProperChars(chars)
    case Arr(blank, items) => AllWhite(blank) && ProperItems(items)
    case Obj(blank, members) => AllWhite(blank) && ProperMembers(members)
  }

  predicate ProperItems(l: List) {
    match l
    case Empty => true
    case Item(before, v, after, rest) => AllWhite(before) && Proper(v) && AllWhite(after) && ProperItems(rest)
  }

  predicate ProperMembers(m: Members) {
    match m
    case NoMember => true
    case Member(before, name, mid, gap, v, after, rest) =>
      && AllWhite(before) && ProperChars(name) && AllWhite(mid) && AllWhite(gap)
      && Proper(v) && AllWhite(after) && ProperMembers(rest)
  }

  function StringText(cs: seq<Char>): Bytes {
    [QUOTE] + CharsText(cs) + [QUOTE]
  }

  function Text(v: Value): Bytes {
    match v
    case Scalar(text) => text
    case Str(chars) => StringText(chars)
    case Arr(blank, items) => [OPEN_ARRAY] + blank + ItemsText(items) + [CLOSE_ARRAY]
    case Obj(blank, members) => [OPEN_OBJECT] + blank + MembersText(members) + [CLOSE_OBJECT]
  }

  function ItemsText(l: List): Bytes {
    match l
    case Empty => []
    case Item(before, v, after, rest) =>
      before + Text(v) + after + (if rest.Empty? then [] else [COMMA]) + ItemsText(rest)
  }

  function MembersText(m: Members): Bytes {
    match m
    case NoMember => []
    case Member(before, name, mid, gap, v, after, rest) =>
      before + StringText(name) + mid + [COLON] + gap + Text(v) + after
      + (if rest.NoMember? then [] else [COMMA]) + MembersText(rest)
  }

  /** Nesting depth: scalars and strings have none, a container one more than its
      deepest element. */
  function Depth(v: Value): nat {
    match v
    case Scalar(_) => 0
    case Str(_) => 0
    case Arr(_, items) => 1 + ItemsDepth(items)
    case Obj(_, members) => 1 + MembersDepth(members)
  }

  function ItemsDepth(l: List): nat {
    match l
    case Empty => 0
    case Item(_, v, _, rest) => Max(Depth(v), ItemsDepth(rest))
  }

  function MembersDepth(m: Members): nat {
    match m
    case NoMember => 0
    case Member(_, _, _, _, v, _, rest) => Max(Depth(v), MembersDepth(rest))
  }

  // ----- Scanning JSON text -----

  /** What scanning a piece of JSON text does, started outside strings at depth d: it
      comes back to depth d outside strings, rises above d by exactly `rise`, and is
      the same with and without the clamp. */
  ghost predicate Balanced(text: Bytes, rise: nat) {
    forall d: nat, clamp: bool :: BalancedAt(text, rise, d, clamp)
  }

  ghost predicate BalancedAt(text: Bytes, rise: nat, d: nat, clamp: bool) {
    var s := Scan(d, false, false);
    && Run(s, text, clamp) == s
    && forall limit: int :: limit >= d ==> (Passes(s, text, limit, clamp) <==> d + rise > limit)
  }

  lemma {:induction false} RunAppend(s: Scan, a: Bytes, b: Bytes, clamp: bool)
    ensures Run(s, a + b, clamp) == Run(Run(s, a, clamp), b, clamp)
    ensures forall limit: int ::
      Passes(s, a + b, limit, clamp) <==> Passes(s, a, limit, clamp) || Passes(Run(s, a, clamp), b, limit, clamp)
    decreases |a|
  {
    if a == [] {
      assert a + b == b;
    } else {
      assert (a + b)[0] == a[0] && (a + b)[1..] == a[1..] + b;
      RunAppend(Step(s, a[0], clamp), a[1..], b, clamp);
    }
  }

  lemma OneByte(s: Scan, b: byte, clamp: bool)
    ensures Run(s, [b], clamp) == Step(s, b, clamp)
    ensures forall limit: int :: Passes(s, [b], limit, clamp) <==> Step(s, b, clamp).depth > limit
  {
    assert [b][1..] == [];
  }

  lemma BalancedAppend(a: Bytes, ra: nat, b: Bytes, rb: nat)
    requires Balanced(a, ra) && Balanced(b, rb)
    ensures Balanced(a + b, Max(ra, rb))
  {
    forall d: nat, clamp: bool
      ensures BalancedAt(a + b, Max(ra, rb), d, clamp)
    {
      assert BalancedAt(a, ra, d, clamp) && BalancedAt(b, rb, d, clamp);
      RunAppend(Scan(d, false, false), a, b, clamp);
    }
  }

  lemma {:induction false} InertBalanced(text: Bytes)
    requires forall i :: 0 <= i < |text| ==> Inert(text[i])
    ensures Balanced(text, 0)
  {
    forall d: nat, clamp: bool
      ensures BalancedAt(text, 0, d, clamp)
    {
      InertAt(text, d, clamp);
    }
  }

  lemma {:induction false} InertAt(text: Bytes, d: nat, clamp: bool)
    requires forall i :: 0 <= i < |text| ==> Inert(text[i])
    ensures BalancedAt(text, 0, d, clamp)
    decreases |text|
  {
    if text != [] {
      assert Inert(text[0]);
      InertAt(text[1..], d, clamp);
    }
  }

  /** Inside a string nothing counts, and only a bare quote ends it. */
  lemma {:induction false} CharsStayInside(cs: seq<Char>, d: int, clamp: bool)
    requires ProperChars(cs)
    ensures Run(Scan(d, true, false), CharsText(cs), clamp) == Scan(d, true, false)
    ensures forall limit: int :: limit >= d ==> !Passes(Scan(d, true, false), CharsText(cs), limit, clamp)
    decreases |cs|
  {
    if cs != [] {
      CharStaysInside(cs[0], d, clamp);
      CharsStayInside(cs[1..], d, clamp);
      RunAppend(Scan(d, true, false), CharText(cs[0]), CharsText(cs[1..]), clamp);
    }
  }

  lemma CharStaysInside(c: Char, d: int, clamp: bool)
    requires ProperChar(c)
    ensures Run(Scan(d, true, false), CharText(c), clamp) == Scan(d, true, false)
    ensures forall limit: int :: limit >= d ==> !Passes(Scan(d, true, false), CharText(c), limit, clamp)
  {
    var s := Scan(d, true, false);
    var e := Scan(d, true, true);
    match c
    case Plain(b) => OneByte(s, b, clamp);
    case Escaped(l) =>
      OneByte(s, BACKSLASH, clamp);
      OneByte(e, l, clamp);
      RunAppend(s, [BACKSLASH], [l], clamp);
      assert [BACKSLASH] + [l] == [BACKSLASH, l];
    case Unicode(hex) =>
      OneByte(s, BACKSLASH, clamp);
      OneByte(e, 0x75, clamp);
      RunAppend(s, [BACKSLASH], [0x75], clamp);
      assert [BACKSLASH] + [0x75] == [BACKSLASH, 0x75];
      RunAppend(s, [BACKSLASH, 0x75], hex, clamp);
      HexStaysInside(hex, d, clamp);
  }

  lemma {:induction false} HexStaysInside(hex: Bytes, d: int, clamp: bool)
    requires forall i :: 0 <= i < |hex| ==> HexDigit(hex[i])
    ensures Run(Scan(d, true, false), hex, clamp) == Scan(d, true, false)
    ensures forall limit: int :: limit >= d ==> !Passes(Scan(d, true, false), hex, limit, clamp)
    decreases |hex|
  {
    if hex != [] {
      assert HexDigit(hex[0]);
      HexStaysInside(hex[1..], d, clamp);
    }
  }

  lemma StringBalanced(cs: seq<Char>)
    requires ProperChars(cs)
    ensures Balanced(StringText(cs), 0)
  {
    forall d: nat, clamp: bool
      ensures BalancedAt(StringText(cs), 0, d, clamp)
    {
      var out, inside := Scan(d, false, false), Scan(d, true, false);
      CharsStayInside(cs, d, clamp);
      OneByte(out, QUOTE, clamp);
      OneByte(inside, QUOTE, clamp);
      RunAppend(out, [QUOTE], CharsText(cs), clamp);
      RunAppend(out, [QUOTE] + CharsText(cs), [QUOTE], clamp);
    }
  }

  /** Brackets around balanced text make it one deeper. */
  lemma Bracketed(open: byte, inner: Bytes, rise: nat, close: byte)
    requires open == OPEN_ARRAY || open == OPEN_OBJECT
    requires close == CLOSE_ARRAY || close == CLOSE_OBJECT
    requires Balanced(inner, rise)
    ensures Balanced([open] + inner + [close], 1 + rise)
  {
    var text, up := [open] + inner + [close], 1 + rise;
    forall d: nat, clamp: bool
      ensures BalancedAt(text, up, d, clamp)
    {
      var low, high := Scan(d, false, false), Scan(d + 1, false, false);
      assert BalancedAt(inner, rise, d + 1, clamp);
      OneByte(low, open, clamp);
      OneByte(high, close, clamp);
      RunAppend(low, [open], inner, clamp);
      RunAppend(low, [open] + inner, [close], clamp);
    }
  }

  lemma WhiteBalanced(s: Bytes)
    requires AllWhite(s)
    ensures Balanced(s, 0)
  {
    InertBalanced(s);
  }

  lemma {:induction false} ValueBalanced(v: Value)
    requires Proper(v)
    ensures Balanced(Text(v), Depth(v))
    decreases v
  {
    hide Balanced, ItemsText, MembersText, ItemsDepth, MembersDepth;
    match v
    case Scalar(text) => InertBalanced(text);
    case Str(chars) => StringBalanced(chars);
    case Arr(blank, items) =>
      WhiteBalanced(blank);
      ItemsBalanced(items);
      BalancedAppend(blank, 0, ItemsText(items), ItemsDepth(items));
      Bracketed(OPEN_ARRAY, blank + ItemsText(items), ItemsDepth(items), CLOSE_ARRAY);
      assert [OPEN_ARRAY] + (blank + ItemsText(items)) + [CLOSE_ARRAY] == Text(v);
    case Obj(blank, members) =>
      WhiteBalanced(blank);
      MembersBalanced(members);
      BalancedAppend(blank, 0, MembersText(members), MembersDepth(members));
      Bracketed(OPEN_OBJECT, blank + MembersText(members), MembersDepth(members), CLOSE_OBJECT);
      assert [OPEN_OBJECT] + (blank + MembersText(members)) + [CLOSE_OBJECT] == Text(v);
  }

  lemma {:induction false} ItemsBalanced(l: List)
    requires ProperItems(l)
    ensures Balanced(ItemsText(l), ItemsDepth(l))
    decreases l
  {
    if l.Empty? {
      InertBalanced([]);
    } else {
      hide Balanced;
      var comma: Bytes := if l.rest.Empty? then [] else [COMMA];
      WhiteBalanced(l.before);
      ValueBalanced(l.value);
      WhiteBalanced(l.after);
      InertBalanced(comma);
      ItemsBalanced(l.rest);
      BalancedAppend(l.before, 0, Text(l.value), Depth(l.value));
      BalancedAppend(l.before + Text(l.value), Depth(l.value), l.after, 0);
      BalancedAppend(l.before + Text(l.value) + l.after, Depth(l.value), comma, 0);
      BalancedAppend(l.before + Text(l.value) + l.after + comma, Depth(l.value), ItemsText(l.rest), ItemsDepth(l.rest));
    }
  }

  lemma {:induction false} MembersBalanced(m: Members)
    requires ProperMembers(m)
    ensures Balanced(MembersText(m), MembersDepth(m))
    decreases m
  {
    if m.NoMember? {
      InertBalanced([]);
    } else {
      hide Balanced;
      var comma: Bytes := if m.rest.NoMember? then [] else [COMMA];
      WhiteBalanced(m.before);
      StringBalanced(m.name);
      WhiteBalanced(m.mid);
      InertBalanced([COLON]);
      WhiteBalanced(m.gap);
      ValueBalanced(m.value);
      WhiteBalanced(m.after);
      InertBalanced(comma);
      MembersBalanced(m.rest);
      var head := m.before + StringText(m.name);
      BalancedAppend(m.before, 0, StringText(m.name), 0);
      BalancedAppend(head, 0, m.mid, 0);
      BalancedAppend(head + m.mid, 0, [COLON], 0);
      BalancedAppend(head + m.mid + [COLON], 0, m.gap, 0);
      var key := head + m.mid + [COLON] + m.gap;
      BalancedAppend(key, 0, Text(m.value), Depth(m.value));
      BalancedAppend(key + Text(m.value), Depth(m.value), m.after, 0);
      BalancedAppend(key + Text(m.value) + m.after, Depth(m.value), comma, 0);
      BalancedAppend(key + Text(m.value) + m.after + comma, Depth(m.value), MembersText(m.rest), MembersDepth(m.rest));
    }
  }

  /** Once the clamp has acted, the clamped depth stays above the true balance. */
  lemma {:induction false} StaysApart(low: Scan, high: Scan, text: Bytes)
    requires low.depth < high.depth && low.inString == high.inString && low.escaped == high.escaped
    ensures Run(low, text, false).depth < Run(high, text, true).depth
    decreases |text|
  {
    if text != [] {
      StaysApart(Step(low, text[0], false), Step(high, text[0], true), text[1..]);
    }
  }

  lemma {:induction false} NeverBelow(s: Scan, text: Bytes)
    ensures
      var low, high := Run(s, text, false), Run(s, text, true);
      low == high || (low.depth < high.depth && low.inString == high.inString && low.escaped == high.escaped)
    decreases |text|
  {
    if text != [] {
      var n := |text| - 1;
      NeverBelow(s, text[..n]);
      assert text == text[..n] + [text[n]];
      RunAppend(s, text[..n], [text[n]], false);
      RunAppend(s, text[..n], [text[n]], true);
      OneByte(Run(s, text[..n], false), text[n], false);
      OneByte(Run(s, text[..n], true), text[n], true);
    }
  }

  /** Scans that end alike were alike all along. */
  lemma ClampNeverActed(payload: Bytes, i: nat)
    requires Run(START, payload, false) == Run(START, payload, true) && i <= |payload|
    ensures Run(START, payload[..i], false) == Run(START, payload[..i], true)
  {
    var a, b := payload[..i], payload[i..];
    assert payload == a + b;
    RunAppend(START, a, b, false);
    RunAppend(START, a, b, true);
    NeverBelow(START, a);
    if Run(START, a, false) != Run(START, a, true) {
      StaysApart(Run(START, a, false), Run(START, a, true), b);
    }
  }

  /** The scanner against the grammar: on every JSON text of every value it reports
      exactly whether the value is nested deeper than the limit, and the clamp at zero
      never acts. */
  lemma ScannerMatchesDepth(before: Bytes, v: Value, after: Bytes, maxDepth: nat)
    requires AllWhite(before) && Proper(v) && AllWhite(after)
    ensures
      var payload := before + Text(v) + after;
      && (Passes(START, payload, maxDepth, true) <==> Depth(v) > maxDepth)
      && (forall i :: 0 <= i <= |payload| ==> Run(START, payload[..i], false) == Run(START, payload[..i], true))
      && Run(START, payload, true) == START
  {
    WhiteBalanced(before);
    ValueBalanced(v);
    WhiteBalanced(after);
    BalancedAppend(before, 0, Text(v), Depth(v));
    BalancedAppend(before + Text(v), Depth(v), after, 0);
    var payload := before + Text(v) + after;
    assert BalancedAt(payload, Depth(v), 0, true) && BalancedAt(payload, Depth(v), 0, false);
    forall i | 0 <= i <= |payload|
      ensures Run(START, payload[..i], false) == Run(START, payload[..i], true)
    {
      ClampNeverActed(payload, i);
    }
  }
}
