/**
 * How the builder glues tokens together. The source never builds a list of
 * tokens: it appends each one to an accumulator, inserting a single space
 * only when the accumulator is non-empty and does not already end in one.
 * This module states that rule once and relates the resulting fold to plain
 * space-joining.
 */
module Spacing {

  predicate EndsInSpace(s: string) {
    |s| > 0 && s[|s| - 1] == ' '
  }

  /** A token that separates cleanly: it is non-empty and does not end in a space. */
  predicate Clean(t: string) {
    t != "" && !EndsInSpace(t)
  }

  predicate AllClean(ts: seq<string>) {
    forall i | 0 <= i < |ts| :: Clean(ts[i])
  }

  /** Appends a token, preceded by one space exactly when `acc` is non-empty and does not end in a space. */
  function AppendSep(acc: string, token: string): (r: string)
    ensures |r| == |acc| + |token| + (if acc != "" && !EndsInSpace(acc) then 1 else 0)
  {
    (if |acc| >= 1 && acc[|acc| - 1] != ' ' then acc + " " else acc) + token
  }

  /** The accumulator stays a prefix, the token ends the result, and a space sits between them when one was needed. */
  lemma AppendSepShape(acc: string, token: string)
    ensures var r := AppendSep(acc, token);
      && r[..|acc|] == acc
      && r[|r| - |token|..] == token
      && (acc != "" && !EndsInSpace(acc) ==> r[|acc|] == ' ')
  {
  }

  /** Appends every token in order with the separator rule. */
  function Spaced(acc: string, tokens: seq<string>): string
    decreases |tokens|
  {
    if tokens == [] then acc else Spaced(AppendSep(acc, tokens[0]), tokens[1..])
  }

  /** PHP `join(' ', $tokens)`: the tokens with exactly one space between neighbours. */
  function JoinSpace(tokens: seq<string>): (r: string)
    ensures tokens == [] ==> r == ""
    ensures tokens != [] ==> |tokens[0]| <= |r|
    decreases |tokens|
  {
    if |tokens| == 0 then ""
    else if |tokens| == 1 then tokens[0]
    else tokens[0] + " " + JoinSpace(tokens[1..])
  }

  /** The first token opens the joined string. */
  lemma JoinSpaceFirst(tokens: seq<string>)
    ensures tokens != [] ==> tokens[0] <= JoinSpace(tokens)
  {
  }

  /** Folding over a concatenation folds over each part in turn. */
  lemma {:induction false} SpacedConcat(acc: string, a: seq<string>, b: seq<string>)
    ensures Spaced(acc, a + b) == Spaced(Spaced(acc, a), b)
    decreases |a|
  {
    if a == [] {
      assert a + b == b;
    } else {
      assert (a + b)[1..] == a[1..] + b;
      SpacedConcat(AppendSep(acc, a[0]), a[1..], b);
    }
  }

  /** Appending never rewrites what is already in the accumulator. */
  lemma {:induction false} SpacedExtends(acc: string, tokens: seq<string>)
    ensures |acc| <= |Spaced(acc, tokens)|
    ensures Spaced(acc, tokens)[..|acc|] == acc
    decreases |tokens|
  {
    if tokens != [] {
      var next := AppendSep(acc, tokens[0]);
      AppendSepShape(acc, tokens[0]);
      SpacedExtends(next, tokens[1..]);
      assert Spaced(acc, tokens)[..|next|] == next;
      assert next[..|acc|] == acc;
    }
  }

  /** From an empty accumulator, the first token opens the result. */
  lemma SpacedFirstToken(t: string, rest: seq<string>)
    ensures |t| <= |Spaced("", [t] + rest)| && Spaced("", [t] + rest)[..|t|] == t
  {
    assert ([t] + rest)[1..] == rest;
    assert AppendSep("", t) == t;
    SpacedExtends(t, rest);
  }

  /** Joining clean tokens gives a clean string. */
  lemma {:induction false} JoinSpaceClean(tokens: seq<string>)
    requires tokens != [] && AllClean(tokens)
    ensures Clean(JoinSpace(tokens))
    decreases |tokens|
  {
    if |tokens| > 1 {
      JoinSpaceClean(tokens[1..]);
    }
  }

  lemma JoinSpaceShift(a: string, t: string, rest: seq<string>)
    ensures JoinSpace([a + " " + t] + rest) == a + " " + JoinSpace([t] + rest)
  {
    assert ([a + " " + t] + rest)[1..] == rest;
    assert ([t] + rest)[1..] == rest;
  }

  /**
   * With clean tokens and a clean accumulator, the separator rule is plain
   * space-joining of the accumulator followed by the tokens.
   */
  lemma {:induction false} SpacedJoin(acc: string, tokens: seq<string>)
    requires Clean(acc) && AllClean(tokens)
    ensures Spaced(acc, tokens) == JoinSpace([acc] + tokens)
    decreases |tokens|
  {
    if tokens != [] {
      var t := tokens[0];
      assert AppendSep(acc, t) == acc + " " + t;
      SpacedJoin(acc + " " + t, tokens[1..]);
      JoinSpaceShift(acc, t, tokens[1..]);
      assert [t] + tokens[1..] == tokens;
      assert ([acc] + tokens)[1..] == tokens;
    }
  }

  /** From an empty accumulator, clean tokens come out exactly space-joined. */
  lemma SpacedFromEmpty(tokens: seq<string>)
    requires AllClean(tokens)
    ensures Spaced("", tokens) == JoinSpace(tokens)
  {
    if tokens != [] {
      assert AppendSep("", tokens[0]) == tokens[0];
      SpacedJoin(tokens[0], tokens[1..]);
      assert [tokens[0]] + tokens[1..] == tokens;
    }
  }

  /** Joining one more token appends it after a single space. */
  lemma {:induction false} JoinSpaceSnoc(tokens: seq<string>, t: string)
    requires tokens != []
    ensures JoinSpace(tokens + [t]) == JoinSpace(tokens) + " " + t
    decreases |tokens|
  {
    if |tokens| > 1 {
      assert (tokens + [t])[1..] == tokens[1..] + [t];
      JoinSpaceSnoc(tokens[1..], t);
    }
  }
}
