/** The declaration-block extraction every copy of the engine performs with
    the regular expression `/{([^}]+)}/`: the text between the first `{` that
    is followed by at least one character other than `}` and the next `}`.
    This is not a CSS parser; `"a{}b{c}"` gives `c` and `"{{x}"` gives `{x`. */
module Braces {
  import opened Options

  /** Index of the first `}` at or after `i`, or `|s|` when there is none. */
  function NextClose(s: string, i: nat): (j: nat)
    requires i <= |s|
    ensures i <= j <= |s| && (j < |s| ==> s[j] == '}')
    ensures forall k :: i <= k < j ==> s[k] != '}'
    decreases |s| - i
  {
    if i == |s| || s[i] == '}' then i else NextClose(s, i + 1)
  }

  /** The expression anchored at `k`: its group 1 when it matches there. */
  function MatchAt(s: string, k: nat): Option<string>
    requires k < |s|
  {
    if s[k] != '{' then None
    else
      var j := NextClose(s, k + 1);
      if k + 1 < j < |s| then Some(s[k + 1..j]) else None
  }

  /** What a match at `k` means: `{`, a non-empty body free of `}`, then `}`. */
  lemma MatchAtMeans(s: string, k: nat, b: string)
    requires k < |s|
    ensures MatchAt(s, k) == Some(b) <==>
              && s[k] == '{' && b != [] && '}' !in b
              && k + |b| + 1 < |s| && s[k + 1..k + |b| + 1] == b && s[k + |b| + 1] == '}'
  {
  }

  /** Leftmost match at or after `i`. */
  function Search(s: string, i: nat): (r: Option<string>)
    requires i <= |s|
    ensures r.Some? ==> exists k :: i <= k < |s| && MatchAt(s, k) == r
                                     && forall k' :: i <= k' < k ==> MatchAt(s, k').None?
    ensures r.None? ==> forall k :: i <= k < |s| ==> MatchAt(s, k).None?
    decreases |s| - i
  {
    if i == |s| then None
    else if MatchAt(s, i).Some? then MatchAt(s, i)
    else Search(s, i + 1)
  }

  /** `s.match(/{([^}]+)}/)?.[1]`. */
  function FirstBody(s: string): (r: Option<string>)
    ensures r.Some? ==> exists k :: 0 <= k < |s| && MatchAt(s, k) == r
                                    && forall k' :: 0 <= k' < k ==> MatchAt(s, k').None?
    ensures r.None? ==> forall k :: 0 <= k < |s| ==> MatchAt(s, k).None?
  {
    Search(s, 0)
  }

  /** A found body is non-empty and contains no `}`. */
  lemma FirstBodyShape(s: string)
    requires FirstBody(s).Some?
    ensures FirstBody(s).value != [] && '}' !in FirstBody(s).value
  {
    var k :| 0 <= k < |s| && MatchAt(s, k) == FirstBody(s);
    MatchAtMeans(s, k, FirstBody(s).value);
  }

  /** Text without `{` has no match. */
  lemma NoBraceNoBody(s: string)
    requires '{' !in s
    ensures FirstBody(s).None?
  {
  }
}
