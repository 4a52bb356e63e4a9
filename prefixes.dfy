/** Variant prefixes at the front of a class token (`hover:`, `sm:`, ...).
    Two of the engine's copies strip them with a loop that looks for the
    first token of a list that the rest of the text starts with, strips it
    and starts over, until none matches. This module defines what that loop
    computes: the prefixes stripped, in order, and the base left over. */
module Prefixes {
  import opened JsString

  /** Index of the first token that `s` starts with (`tokens.find(...)`,
      `for ... if (rest.startsWith(t))`), or `|tokens|` when there is none. */
  function FirstIndex(tokens: seq<string>, s: string): (i: nat)
    ensures i <= |tokens|
    ensures i < |tokens| ==> tokens[i] <= s
    ensures forall j :: 0 <= j < i ==> !(tokens[j] <= s)
  {
    if tokens == [] then 0
    else if tokens[0] <= s then 0
    else 1 + FirstIndex(tokens[1..], s)
  }

  /** No token of the list is a prefix of `s`. */
  predicate Clean(tokens: seq<string>, s: string)
    ensures Clean(tokens, s) <==> forall j :: 0 <= j < |tokens| ==> !(tokens[j] <= s)
  {
    FirstIndex(tokens, s) == |tokens|
  }

  /** Every token is non-empty, so every strip shortens the text. */
  predicate NonEmpty(tokens: seq<string>) {
    forall j :: 0 <= j < |tokens| ==> tokens[j] != []
  }

  /** No token is a prefix of another token of the list. */
  predicate PrefixFree(tokens: seq<string>) {
    forall i, j :: 0 <= i < |tokens| && 0 <= j < |tokens| && i != j ==> !(tokens[i] <= tokens[j])
  }

  /** The positions in `tokens` of the tokens stripped from the front of
      `s`, in the order they are stripped. */
  function Strips(tokens: seq<string>, s: string): (r: seq<nat>)
    requires NonEmpty(tokens)
    ensures forall k :: 0 <= k < |r| ==> r[k] < |tokens|
    ensures r == [] <==> Clean(tokens, s)
    decreases |s|
  {
    var i := FirstIndex(tokens, s);
    if i == |tokens| then [] else [i] + Strips(tokens, s[|tokens[i]|..])
  }

  /** The tokens at the given positions. */
  function Spell(tokens: seq<string>, idx: seq<nat>): (r: seq<string>)
    requires forall k :: 0 <= k < |idx| ==> idx[k] < |tokens|
    ensures |r| == |idx| && forall k :: 0 <= k < |idx| ==> r[k] == tokens[idx[k]]
  {
    if idx == [] then [] else [tokens[idx[0]]] + Spell(tokens, idx[1..])
  }

  /** What is left once no token matches: it starts with none of them. */
  function Base(tokens: seq<string>, s: string): (b: string)
    requires NonEmpty(tokens)
    ensures Clean(tokens, b)
    ensures Clean(tokens, s) ==> b == s
    decreases |s|
  {
    var i := FirstIndex(tokens, s);
    if i == |tokens| then s
    else
      Base(tokens, s[|tokens[i]|..])
  }

  /** The stripped prefixes followed by the base spell the input again. */
  lemma {:induction false} Reassemble(tokens: seq<string>, s: string)
    requires NonEmpty(tokens)
    ensures Concat(Spell(tokens, Strips(tokens, s))) + Base(tokens, s) == s
    decreases |s|
  {
    var i := FirstIndex(tokens, s);
    if i == |tokens| {
      assert Strips(tokens, s) == [];
    } else {
      var t := tokens[i];
      var rest := s[|t|..];
      var more, b := Strips(tokens, rest), Base(tokens, rest);
      Reassemble(tokens, rest);
      assert Strips(tokens, s) == [i] + more;
      assert Spell(tokens, [i] + more) == [t] + Spell(tokens, more) by {
        assert ([i] + more)[1..] == more;
      }
      assert Base(tokens, s) == b;
      SplitAfterPrefix(t, s);
      Glue(s, t, rest, Spell(tokens, more), b);
    }
  }

  lemma SplitAfterPrefix(t: string, s: string)
    requires t <= s
    ensures s == t + s[|t|..]
  {
    assert t == s[..|t|];
  }

  lemma Glue(s: string, t: string, rest: string, more: seq<string>, b: string)
    requires s == t + rest && Concat(more) + b == rest
    ensures Concat([t] + more) + b == s
  {
    ConcatAppend([t], more);
    assert [t][..0] == [];
  }

  /** The base is exactly the input when, and only when, nothing was stripped. */
  lemma BaseUnchanged(tokens: seq<string>, s: string)
    requires NonEmpty(tokens)
    ensures Base(tokens, s) == s <==> Clean(tokens, s)
  {
    if !Clean(tokens, s) {
      var i := FirstIndex(tokens, s);
      assert tokens[i] <= s && |tokens[i]| > 0;
    }
  }

  /** Two prefixes of one text: the shorter is a prefix of the longer. */
  lemma PrefixesNest(a: string, b: string, s: string)
    requires a <= s && b <= s && |a| <= |b|
    ensures a <= b
  {
    assert a == s[..|a|] && b == s[..|b|];
    assert b[..|a|] == s[..|a|];
  }

  /** In a prefix-free list at most one token can match, so the first match
      is whichever one does. */
  lemma OnlyCandidate(tokens: seq<string>, s: string, j: nat)
    requires PrefixFree(tokens)
    requires j < |tokens| && tokens[j] <= s
    ensures FirstIndex(tokens, s) == j
  {
    var i := FirstIndex(tokens, s);
    if i != j {
      assert i < j;
      if |tokens[i]| <= |tokens[j]| {
        PrefixesNest(tokens[i], tokens[j], s);
      } else {
        PrefixesNest(tokens[j], tokens[i], s);
      }
      assert false;
    }
  }

  /** In a prefix-free list, stripping any matching token, not necessarily
      the first, leads to the same base. */
  lemma BaseAfterAny(tokens: seq<string>, s: string, j: nat)
    requires NonEmpty(tokens) && PrefixFree(tokens)
    requires j < |tokens| && tokens[j] <= s
    ensures Base(tokens, s) == Base(tokens, s[|tokens[j]|..])
  {
    OnlyCandidate(tokens, s, j);
  }

  /** A text that starts with token `j` of a prefix-free list strips it first. */
  lemma StripsFront(tokens: seq<string>, j: nat, rest: string)
    requires NonEmpty(tokens) && PrefixFree(tokens)
    requires j < |tokens|
    ensures Strips(tokens, tokens[j] + rest) == [j] + Strips(tokens, rest)
    ensures Base(tokens, tokens[j] + rest) == Base(tokens, rest)
  {
    var t := tokens[j];
    OnlyCandidate(tokens, t + rest, j);
    assert (t + rest)[|t|..] == rest;
  }

  /** Texts that differ in one of their first two characters are not
      prefixes of each other. */
  lemma HeadsDiffer(a: string, b: string)
    requires |a| >= 2 && |b| >= 2 && (a[0] != b[0] || a[1] != b[1])
    ensures !(a <= b) && !(b <= a)
  {
  }

  /** Tokens of at least two characters whose first two characters differ
      from token to token are non-empty and none is a prefix of another. */
  lemma PrefixFreeByHeads(tokens: seq<string>, heads: seq<string>)
    requires |heads| == |tokens|
    requires forall i :: 0 <= i < |tokens| ==> |tokens[i]| >= 2 && tokens[i][..2] == heads[i]
    requires forall i, j :: 0 <= i < j < |heads| ==> heads[i] != heads[j]
    ensures NonEmpty(tokens) && PrefixFree(tokens)
  {
    forall i, j | 0 <= i < |tokens| && 0 <= j < |tokens| && i != j
      ensures !(tokens[i] <= tokens[j])
    {
      if i < j {
        assert heads[i] != heads[j];
      } else {
        assert heads[j] != heads[i];
      }
      assert tokens[i][..2] == [tokens[i][0], tokens[i][1]];
      assert tokens[j][..2] == [tokens[j][0], tokens[j][1]];
      HeadsDiffer(tokens[i], tokens[j]);
    }
  }
}
