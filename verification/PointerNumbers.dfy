/**
 Which tokens count as indexes of an array: the texts that Python's `int` reads, and the numbers they stand for.
 */
module PointerNumbers {
  import opened Common
  import opened SchemaReferences
  import Transcript

  predicate Figure(c: char) { c in "0123456789" }

  /** Digits with single underscores between them. */
  predicate NumberText(s: string) {
    && s != [] && Figure(s[0]) && Figure(s[|s| - 1])
    && (forall i :: 0 <= i < |s| ==> Figure(s[i]) || s[i] == '_')
    && forall i :: 0 < i < |s| && s[i] == '_' ==> s[i - 1] != '_'
  }

  /** The number that the digits make after `value`, the last one counting once; underscores count for nothing. */
  function NumberAfter(value: nat, s: string): int {
    if s == [] then value
    else
      var before, last := s[..|s| - 1], s[|s| - 1];
      if last == '_' then NumberAfter(value, before) else 10 * NumberAfter(value, before) + (last as int - 48)
  }

  lemma {:induction false} NumberAfterOne(value: nat, next: nat, c: char, rest: string)
    requires if c == '_' then next == value else '0' <= c <= '9' && next == 10 * value + (c as int - 48)
    ensures NumberAfter(value, [c] + rest) == NumberAfter(next, rest)
  {
    var s := [c] + rest;
    if rest == [] {
      assert s[..|s| - 1] == [] && s[|s| - 1] == c;
    } else {
      assert s[..|s| - 1] == [c] + rest[..|rest| - 1] && s[|s| - 1] == rest[|rest| - 1];
      NumberAfterOne(value, next, c, rest[..|rest| - 1]);
    }
  }

  /** What may follow, after a digit or at the beginning. */
  predicate Follows(s: string, afterDigit: bool) {
    if s == [] then afterDigit
    else
      && (Figure(s[0]) || (s[0] == '_' && afterDigit)) && Figure(s[|s| - 1])
      && (forall i :: 0 <= i < |s| ==> Figure(s[i]) || s[i] == '_')
      && forall i :: 0 < i < |s| && s[i] == '_' ==> s[i - 1] != '_'
  }

  lemma FollowsOne(s: string, afterDigit: bool)
    requires s != []
    ensures Follows(s, afterDigit) <==>
      (Figure(s[0]) && Follows(s[1..], true)) || (s[0] == '_' && afterDigit && Follows(s[1..], false))
  {
    var rest := s[1..];
    assert forall i :: 0 <= i < |rest| ==> rest[i] == s[i + 1];
    assert forall i :: 0 < i < |s| ==> s[i] == rest[i - 1];
    if Follows(s, afterDigit) && rest != [] {
      assert rest[0] == s[1] && rest[|rest| - 1] == s[|s| - 1];
    }
  }

  lemma {:induction false} DigitsExactly(s: string, value: nat, afterDigit: bool)
    ensures Digits(s, value, afterDigit).Some? <==> Follows(s, afterDigit)
    ensures Follows(s, afterDigit) ==> Digits(s, value, afterDigit).value == NumberAfter(value, s)
  {
    if s != [] {
      FollowsOne(s, afterDigit);
      assert s == [s[0]] + s[1..];
      if IsDigit(s[0]) {
        var next := 10 * value + (s[0] as int - '0' as int);
        DigitsExactly(s[1..], next, true);
        NumberAfterOne(value, next, s[0], s[1..]);
      } else if s[0] == '_' && afterDigit {
        DigitsExactly(s[1..], value, false);
        NumberAfterOne(value, value, '_', s[1..]);
      }
    }
  }

  /** The text is a number, with or without a sign. */
  predicate Stands(s: string, v: int) {
    || (NumberText(s) && v == NumberAfter(0, s))
    || ("+" <= s && NumberText(s[1..]) && v == NumberAfter(0, s[1..]))
    || ("-" <= s && NumberText(s[1..]) && v == -NumberAfter(0, s[1..]))
  }

  /** A token is read as a number exactly when, without the spaces around it and a sign, it is digits with single
      underscores between them, and it is read as the number they make. */
  lemma ReadIntExactly(token: string, v: int)
    ensures ReadInt(token) == Some(v) <==> Stands(Transcript.Strip(token), v)
  {
    var s := Transcript.Strip(token);
    hide Digits, NumberAfter, Transcript.Strip;
    DigitsExactly(s, 0, false);
    assert Follows(s, false) <==> NumberText(s);
    if s != [] {
      DigitsExactly(s[1..], 0, false);
      assert Follows(s[1..], false) <==> NumberText(s[1..]);
      assert !Figure('+') && !Figure('-');
    }
    hide Follows;
  }
}
