/** Selector escaping: `s.replace(/([...])/g, '\\$1')` puts one backslash in
    front of every character of a fixed set. Each copy of the engine passes
    its own set. */
module Selector {

  /** The characters the expression `[ !"#$%&'()*+,./:;<=>?@[\]^`{|}~]`
      matches: the space and the ASCII punctuation of the CSS grammar,
      without the backslash. */
  const Punctuation: set<char> :=
    {' ', '!', '"', '#', '$', '%', '&', '\'', '(', ')', '*', '+', ',', '.', '/', ':', ';',
     '<', '=', '>', '?', '@', '[', ']', '^', '`', '{', '|', '}', '~'}

  /** Number of characters of `s` that belong to `specials`. */
  function Count(specials: set<char>, s: string): nat {
    if s == [] then 0 else (if s[0] in specials then 1 else 0) + Count(specials, s[1..])
  }

  function Escape(specials: set<char>, s: string): (r: string)
    ensures |r| == |s| + Count(specials, s)
    ensures r == [] <==> s == []
    ensures s != [] && s[0] !in specials ==> r[0] == s[0]
    ensures s != [] && s[0] in specials ==> r[0] == '\\'
  {
    if s == [] then []
    else if s[0] in specials then ['\\', s[0]] + Escape(specials, s[1..])
    else [s[0]] + Escape(specials, s[1..])
  }

  /** Reads an escaped text back: a backslash followed by a character of the
      set stands for that character; every other character stands for itself. */
  function Unescape(specials: set<char>, r: string): string
    decreases |r|
  {
    if r == [] then []
    else if |r| >= 2 && r[0] == '\\' && r[1] in specials then [r[1]] + Unescape(specials, r[2..])
    else [r[0]] + Unescape(specials, r[1..])
  }

  /** Unescaping undoes escaping, whatever the set (the backslash in it or not). */
  lemma {:induction false} UnescapeEscape(specials: set<char>, s: string)
    ensures Unescape(specials, Escape(specials, s)) == s
  {
    if s != [] {
      UnescapeEscape(specials, s[1..]);
      var tail := Escape(specials, s[1..]);
      if s[0] in specials {
        assert Escape(specials, s) == ['\\', s[0]] + tail;
        assert (['\\', s[0]] + tail)[2..] == tail;
      } else {
        assert Escape(specials, s) == [s[0]] + tail;
        assert s[0] != '\\' || tail == [] || tail[0] !in specials;
        assert ([s[0]] + tail)[1..] == tail;
      }
    }
  }

  /** Hence escaping is injective: distinct class tokens get distinct selectors. */
  lemma EscapeInjective(specials: set<char>, a: string, b: string)
    requires Escape(specials, a) == Escape(specials, b)
    ensures a == b
  {
    UnescapeEscape(specials, a);
    UnescapeEscape(specials, b);
  }

  /** `escapeSelector` of bin/iconforge-cli.cjs and of dist/iconforge.js,
      which share the expression: one backslash before each punctuation
      character and nothing else. The result is one character longer per
      punctuation character, and reading it back gives the token, so
      distinct tokens get distinct selectors. */
  function EscapeSelector(s: string): (r: string)
    ensures |r| == |s| + Count(Punctuation, s)
    ensures Unescape(Punctuation, r) == s
  {
    UnescapeEscape(Punctuation, s);
    Escape(Punctuation, s)
  }

  /** Text with no character of the set passes through unchanged. */
  lemma {:induction false} EscapePlain(specials: set<char>, s: string)
    requires forall i :: 0 <= i < |s| ==> s[i] !in specials
    ensures Escape(specials, s) == s
  {
    if s != [] {
      EscapePlain(specials, s[1..]);
    }
  }
}
