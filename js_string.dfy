/** The JavaScript string built-ins the engine relies on: the `\s` character
    class (also the set `String.prototype.trim` removes), `trim`, `split` on one
    character, `split(/\s+/)`, `join` and `startsWith` (written `p <= s`). */
module JsString {

  /** A character of JavaScript's `\s` class (WhiteSpace and LineTerminator). */
  predicate IsSpace(c: char) {
    || c == ' ' || c == '\t' || c == '\n' || c == '\U{B}' || c == '\U{C}' || c == '\r'
    || c == '\U{A0}' || c == '\U{1680}' || ('\U{2000}' <= c <= '\U{200A}')
    || c == '\U{2028}' || c == '\U{2029}' || c == '\U{202F}' || c == '\U{205F}'
    || c == '\U{3000}' || c == '\U{FEFF}'
  }

  /** The characters a regular-expression `.` does not match. */
  predicate IsLineTerminator(c: char) {
    c == '\n' || c == '\r' || c == '\U{2028}' || c == '\U{2029}'
  }

  predicate AllSpace(s: string) {
    forall i :: 0 <= i < |s| ==> IsSpace(s[i])
  }

  predicate NoSpace(s: string) {
    forall i :: 0 <= i < |s| ==> !IsSpace(s[i])
  }

  /** Trailing white space removed. */
  function TrimEnd(s: string): (r: string)
    ensures |r| <= |s| && r == s[..|r|]
    ensures AllSpace(s[|r|..])
    ensures r == [] || !IsSpace(r[|r| - 1])
  {
    if s == [] || !IsSpace(s[|s| - 1]) then s else TrimEnd(s[..|s| - 1])
  }

  /** `String.prototype.trim`: the segment of `s` left once the white space at
      both ends is gone; it starts where the leading run of white space ends. */
  function Trim(s: string): (r: string)
    ensures var i := SpaceLength(s);
            i + |r| <= |s| && r == s[i..i + |r|] && AllSpace(s[..i]) && AllSpace(s[i + |r|..])
    ensures r == [] || (!IsSpace(r[0]) && !IsSpace(r[|r| - 1]))
  {
    var i := SpaceLength(s);
    var r := TrimEnd(s[i..]);
    assert s[i..][|r|..] == s[i + |r|..];
    r
  }

  /** `s.split(c)` for a one-character separator: the pieces between the
      occurrences of `c`, empty pieces included. */
  function SplitOn(s: string, c: char): (parts: seq<string>)
    ensures |parts| >= 1
    ensures forall k :: 0 <= k < |parts| ==> c !in parts[k]
    decreases |s|
  {
    if c !in s then [s]
    else
      var i := IndexOf(s, c);
      [s[..i]] + SplitOn(s[i + 1..], c)
  }

  /** Position of the first `c` in `s`. */
  function IndexOf(s: string, c: char): (i: nat)
    requires c in s
    ensures i < |s| && s[i] == c && c !in s[..i]
  {
    if s[0] == c then 0 else 1 + IndexOf(s[1..], c)
  }

  /** `parts.join(sep)`. */
  function Join(parts: seq<string>, sep: string): string {
    if parts == [] then ""
    else if |parts| == 1 then parts[0]
    else parts[0] + sep + Join(parts[1..], sep)
  }

  /** Splitting on a character and joining with it again gives back the text. */
  lemma {:induction false} JoinSplitOn(s: string, c: char)
    ensures Join(SplitOn(s, c), [c]) == s
    decreases |s|
  {
    if c in s {
      var i := IndexOf(s, c);
      var rest := s[i + 1..];
      var parts := SplitOn(rest, c);
      JoinSplitOn(rest, c);
      assert SplitOn(s, c) == [s[..i]] + parts;
      assert ([s[..i]] + parts)[1..] == parts;
      assert Join([s[..i]] + parts, [c]) == s[..i] + [c] + Join(parts, [c]);
      assert s == s[..i] + [c] + rest;
    }
  }

  /** The concatenation of a sequence of strings (`parts.join('')`). */
  function Concat(parts: seq<string>): string {
    if parts == [] then "" else Concat(parts[..|parts| - 1]) + parts[|parts| - 1]
  }

  lemma {:induction false} ConcatAppend(a: seq<string>, b: seq<string>)
    ensures Concat(a + b) == Concat(a) + Concat(b)
    decreases |b|
  {
    if b == [] {
      assert a + b == a;
    } else {
      var init, last := b[..|b| - 1], b[|b| - 1];
      assert (a + b)[..|a + b| - 1] == a + init && (a + b)[|a + b| - 1] == last;
      calc {
        Concat(a + b);
        Concat(a + init) + last;
        { ConcatAppend(a, init); }
        (Concat(a) + Concat(init)) + last;
        Concat(a) + (Concat(init) + last);
      }
    }
  }

  /** Length of the run of non-white-space characters at the front of `s`. */
  function WordLength(s: string): (n: nat)
    ensures n <= |s| && NoSpace(s[..n]) && (n == |s| || IsSpace(s[n]))
  {
    if s == [] || IsSpace(s[0]) then 0 else 1 + WordLength(s[1..])
  }

  /** Length of the run of white space at the front of `s`. */
  function SpaceLength(s: string): (n: nat)
    ensures n <= |s| && AllSpace(s[..n]) && (n == |s| || !IsSpace(s[n]))
  {
    if s == [] || !IsSpace(s[0]) then 0 else 1 + SpaceLength(s[1..])
  }

  /** `s.split(/\s+/)`: cut at every maximal run of white space. A run at the
      very front yields a leading "", one at the very end a trailing "". */
  function SplitSpaceRuns(s: string): (parts: seq<string>)
    ensures |parts| >= 1
    ensures forall k :: 0 <= k < |parts| ==> NoSpace(parts[k])
    ensures forall k :: 0 < k < |parts| - 1 ==> parts[k] != ""
    ensures parts[0] == s[..WordLength(s)]
    decreases |s|
  {
    var n := WordLength(s);
    var rest := s[n..];
    if rest == [] then [s]
    else
      var m := SpaceLength(rest);
      var next := rest[m..];
      if next == [] then [s[..n], ""]
      else
        assert next[0] == rest[m];
        [s[..n]] + SplitSpaceRuns(next)
  }

  /** The white-space-free characters of `s`, in order. */
  function Unspaced(s: string): string {
    if s == [] then [] else Keep(s[0]) + Unspaced(s[1..])
  }

  function Keep(c: char): string {
    if IsSpace(c) then [] else [c]
  }

  /** Removing white space keeps a leading word as it is. */
  lemma {:induction false} UnspacedAfterWord(s: string)
    ensures Unspaced(s) == s[..WordLength(s)] + Unspaced(s[WordLength(s)..])
    decreases |s|
  {
    if s != [] && !IsSpace(s[0]) {
      var t := s[1..];
      var n := WordLength(t);
      var word, tail := t[..n], Unspaced(t[n..]);
      assert WordLength(s) == n + 1;
      assert t[n..] == s[n + 1..];
      assert s[..n + 1] == [s[0]] + word;
      calc {
        Unspaced(s);
        [s[0]] + Unspaced(t);
        { UnspacedAfterWord(t); }
        [s[0]] + (word + tail);
        ([s[0]] + word) + tail;
      }
    }
  }

  /** Removing white space drops a leading run of white space. */
  lemma {:induction false} UnspacedAfterSpace(s: string)
    ensures Unspaced(s) == Unspaced(s[SpaceLength(s)..])
    decreases |s|
  {
    if s != [] && IsSpace(s[0]) {
      UnspacedAfterSpace(s[1..]);
      assert s[1..][SpaceLength(s) - 1..] == s[SpaceLength(s)..];
    }
  }

  /** Splitting on white-space runs loses only the white space: the pieces
      put back together are the text with its white space removed. */
  lemma {:induction false} SplitSpaceRunsKeepsText(s: string)
    ensures Concat(SplitSpaceRuns(s)) == Unspaced(s)
    decreases |s|
  {
    var n := WordLength(s);
    var word, rest := s[..n], s[n..];
    UnspacedAfterWord(s);
    assert Concat([word]) == word by {
      assert Concat([word]) == Concat([]) + word;
    }
    if rest != [] {
      var m := SpaceLength(rest);
      var next := rest[m..];
      UnspacedAfterSpace(rest);
      if next == [] {
        assert Concat([word, ""]) == Concat([word]) + "";
      } else {
        assert next[0] == rest[m];
        assert SplitSpaceRuns(s) == [word] + SplitSpaceRuns(next);
        SplitSpaceRunsKeepsText(next);
        ConcatAppend([word], SplitSpaceRuns(next));
      }
    }
  }

  /** `parts[0] + gaps[0] + parts[1] + ... + parts[|parts| - 1]`. */
  function Weave(parts: seq<string>, gaps: seq<string>): string
    requires |parts| == |gaps| + 1
    decreases |gaps|
  {
    if gaps == [] then parts[0] else parts[0] + gaps[0] + Weave(parts[1..], gaps[1..])
  }

  /** `parts` and `gaps` cut `s` at non-empty runs of white space: `s` is the
      parts with the gaps between them, the gaps are white space, the parts
      hold none, and only the first and the last part may be empty. */
  predicate CutAtSpaceRuns(s: string, parts: seq<string>, gaps: seq<string>) {
    && |parts| == |gaps| + 1
    && (forall k :: 0 <= k < |parts| ==> NoSpace(parts[k]))
    && (forall k :: 0 < k < |parts| - 1 ==> parts[k] != "")
    && (forall k :: 0 <= k < |gaps| ==> gaps[k] != "" && AllSpace(gaps[k]))
    && s == Weave(parts, gaps)
  }

  /** `split(/\s+/)` is the one way to cut a text at maximal runs of white
      space: its parts, with some gaps, cut the text, and any parts that cut
      the text are its parts. */
  lemma SplitSpaceRunsMeans(s: string, parts: seq<string>)
    ensures (exists gaps :: CutAtSpaceRuns(s, parts, gaps)) <==> parts == SplitSpaceRuns(s)
  {
    if parts == SplitSpaceRuns(s) {
      SplitSpaceRunsCuts(s);
    }
    if exists gaps :: CutAtSpaceRuns(s, parts, gaps) {
      var gaps :| CutAtSpaceRuns(s, parts, gaps);
      CutsAreSplit(s, parts, gaps);
    }
  }

  /** Two words with white space between them come out as the two words:
      `"a b".split(/\s+/)` is `["a", "b"]`, not `["ab"]`. */
  lemma SplitTwoWords(a: char, c: char, b: char)
    requires !IsSpace(a) && IsSpace(c) && !IsSpace(b)
    ensures SplitSpaceRuns([a, c, b]) == [[a], [b]]
  {
    var parts, gaps := [[a], [b]], [[c]];
    assert Weave(parts, gaps) == [a] + [c] + Weave([[b]], []);
    assert CutAtSpaceRuns([a, c, b], parts, gaps);
    CutsAreSplit([a, c, b], parts, gaps);
  }

  lemma {:induction false} SplitSpaceRunsCuts(s: string)
    ensures exists gaps :: CutAtSpaceRuns(s, SplitSpaceRuns(s), gaps)
    decreases |s|
  {
    var n := WordLength(s);
    var rest := s[n..];
    if rest == [] {
      CutsWhole(s);
    } else {
      var m := SpaceLength(rest);
      var next := rest[m..];
      if next == [] {
        CutsTrailing(s);
      } else {
        SplitSpaceRunsCuts(next);
        var gs :| CutAtSpaceRuns(next, SplitSpaceRuns(next), gs);
        CutsInner(s, gs);
      }
    }
  }

  /** Text without white space is one part. */
  lemma CutsWhole(s: string)
    requires s[WordLength(s)..] == []
    ensures CutAtSpaceRuns(s, SplitSpaceRuns(s), [])
  {
    assert s[..WordLength(s)] == s;
    assert SplitSpaceRuns(s) == [s];
  }

  /** A word then white space to the end: the word and a trailing "". */
  lemma CutsTrailing(s: string)
    requires var rest := s[WordLength(s)..]; rest != [] && rest[SpaceLength(rest)..] == []
    ensures CutAtSpaceRuns(s, SplitSpaceRuns(s), [s[WordLength(s)..]])
  {
    var n := WordLength(s);
    var rest := s[n..];
    var m := SpaceLength(rest);
    SpaceAfterWord(s);
    assert SplitSpaceRuns(s) == [s[..n]] + [""];
    CutThree(s, n, m);
    assert rest[..m] == rest && rest[m..] == "";
    assert CutAtSpaceRuns("", [""], []);
    CutsCons(s[..n], rest, "", [""], []);
    assert [rest] + [] == [rest];
  }

  /** A word, white space, then more text: the word in front of the cut of
      the rest. */
  lemma CutsInner(s: string, gs: seq<string>)
    requires var rest := s[WordLength(s)..]; rest != [] && rest[SpaceLength(rest)..] != []
    requires var rest := s[WordLength(s)..]; var next := rest[SpaceLength(rest)..];
             CutAtSpaceRuns(next, SplitSpaceRuns(next), gs)
    ensures var rest := s[WordLength(s)..];
            CutAtSpaceRuns(s, SplitSpaceRuns(s), [rest[..SpaceLength(rest)]] + gs)
  {
    var n := WordLength(s);
    var rest := s[n..];
    var m := SpaceLength(rest);
    var next := rest[m..];
    var tail := SplitSpaceRuns(next);
    SpaceAfterWord(s);
    WordAfterSpace(rest);
    SplitSpaceRunsInner(s);
    CutThree(s, n, m);
    CutsCons(s[..n], rest[..m], next, tail, gs);
  }

  lemma SplitSpaceRunsTrailing(s: string)
    requires var rest := s[WordLength(s)..]; rest != [] && rest[SpaceLength(rest)..] == []
    ensures SplitSpaceRuns(s) == [s[..WordLength(s)], ""]
  {
  }

  lemma SplitSpaceRunsInner(s: string)
    requires var rest := s[WordLength(s)..]; rest != [] && rest[SpaceLength(rest)..] != []
    ensures var rest := s[WordLength(s)..];
            SplitSpaceRuns(s) == [s[..WordLength(s)]] + SplitSpaceRuns(rest[SpaceLength(rest)..])
  {
  }

  /** A text is its first `n` characters, the next `m`, and the rest. */
  lemma CutThree(s: string, n: nat, m: nat)
    requires n <= |s| && m <= |s| - n
    ensures s == s[..n] + s[n..][..m] + s[n..][m..]
  {
    assert s[n..] == s[n..][..m] + s[n..][m..];
    assert s == s[..n] + s[n..];
  }

  /** After the leading word, a non-empty rest starts with white space. */
  lemma SpaceAfterWord(s: string)
    requires s[WordLength(s)..] != []
    ensures var rest := s[WordLength(s)..]; SpaceLength(rest) > 0 && AllSpace(rest[..SpaceLength(rest)])
  {
    var n := WordLength(s);
    assert s[n..][0] == s[n];
  }

  /** After the leading white space, a non-empty rest starts with a word. */
  lemma WordAfterSpace(rest: string)
    requires rest[SpaceLength(rest)..] != []
    ensures var next := rest[SpaceLength(rest)..]; WordLength(next) > 0 && SplitSpaceRuns(next)[0] != ""
  {
    var m := SpaceLength(rest);
    assert rest[m..][0] == rest[m];
  }

  /** A word and a run of white space in front of a cut text extend its cut. */
  lemma CutsCons(p0: string, g: string, next: string, tail: seq<string>, gs: seq<string>)
    requires CutAtSpaceRuns(next, tail, gs) && NoSpace(p0) && g != "" && AllSpace(g)
    requires |tail| > 1 ==> tail[0] != ""
    ensures CutAtSpaceRuns(p0 + g + next, [p0] + tail, [g] + gs)
  {
    var parts, gaps := [p0] + tail, [g] + gs;
    assert parts[1..] == tail && gaps[1..] == gs;
    forall k | 0 < k < |parts|
      ensures parts[k] == tail[k - 1]
    {
    }
    forall k | 0 < k < |gaps|
      ensures gaps[k] == gs[k - 1]
    {
    }
  }

  /** A cut with at least one gap is its first part and gap in front of the
      cut of the rest. */
  lemma CutsUncons(s: string, parts: seq<string>, gaps: seq<string>)
    requires CutAtSpaceRuns(s, parts, gaps) && gaps != []
    ensures s == parts[0] + gaps[0] + Weave(parts[1..], gaps[1..])
    ensures CutAtSpaceRuns(Weave(parts[1..], gaps[1..]), parts[1..], gaps[1..])
    ensures |parts| > 2 ==> parts[1] != ""
  {
    var ps, gs := parts[1..], gaps[1..];
    forall k | 0 <= k < |ps|
      ensures ps[k] == parts[k + 1]
    {
    }
    forall k | 0 <= k < |gs|
      ensures gs[k] == gaps[k + 1]
    {
    }
  }

  /** A cut text is empty exactly when its one part is empty, and otherwise
      starts with a character that is not white space, as long as its first
      part is non-empty whenever there is a second. */
  lemma CutStart(w: string, ps: seq<string>, gs: seq<string>)
    requires CutAtSpaceRuns(w, ps, gs) && (|ps| > 1 ==> ps[0] != "")
    ensures w == [] <==> ps == [""]
    ensures w != [] ==> !IsSpace(w[0])
  {
    WeaveHead(ps, gs);
    assert NoSpace(ps[0]);
  }

  lemma {:induction false} CutsAreSplit(s: string, parts: seq<string>, gaps: seq<string>)
    requires CutAtSpaceRuns(s, parts, gaps)
    ensures parts == SplitSpaceRuns(s)
    decreases |gaps|
  {
    var p0 := parts[0];
    assert NoSpace(p0);
    if gaps == [] {
      WordLengthAt(s, |s|);
      assert s[..|s|] == s;
    } else {
      var g0, ps, gs := gaps[0], parts[1..], gaps[1..];
      var w := Weave(ps, gs);
      CutsUncons(s, parts, gaps);
      CutStart(w, ps, gs);
      CutFront(s, p0, g0, w);
      assert parts == [p0] + ps;
      if w == [] {
        SplitSpaceRunsTrailing(s);
      } else {
        CutsAreSplit(w, ps, gs);
        SplitSpaceRunsInner(s);
      }
    }
  }

  /** In a word, a run of white space and a text that does not start with
      white space, the word and the run are the leading word and run. */
  lemma CutFront(s: string, p0: string, g0: string, w: string)
    requires s == p0 + g0 + w && NoSpace(p0) && g0 != "" && AllSpace(g0)
    requires w == [] || !IsSpace(w[0])
    ensures WordLength(s) == |p0| && s[..|p0|] == p0
    ensures var rest := s[|p0|..]; SpaceLength(rest) == |g0| && rest[|g0|..] == w
  {
    var rest := g0 + w;
    assert s == p0 + rest && s[|p0|..] == rest;
    WordFront(s, p0, rest);
    SpaceFront(rest, g0, w);
  }

  lemma WordFront(s: string, p0: string, rest: string)
    requires s == p0 + rest && NoSpace(p0) && rest != [] && IsSpace(rest[0])
    ensures WordLength(s) == |p0| && s[..|p0|] == p0
  {
    assert s[..|p0|] == p0;
    assert s[|p0|] == rest[0];
    WordLengthAt(s, |p0|);
  }

  lemma SpaceFront(rest: string, g0: string, w: string)
    requires rest == g0 + w && AllSpace(g0) && (w == [] || !IsSpace(w[0]))
    ensures SpaceLength(rest) == |g0| && rest[|g0|..] == w
  {
    assert rest[..|g0|] == g0;
    assert w != [] ==> rest[|g0|] == w[0];
    SpaceLengthAt(rest, |g0|);
  }

  lemma WeaveHead(parts: seq<string>, gaps: seq<string>)
    requires |parts| == |gaps| + 1
    ensures parts[0] <= Weave(parts, gaps)
  {
    if gaps != [] {
      assert Weave(parts, gaps) == parts[0] + (gaps[0] + Weave(parts[1..], gaps[1..]));
    }
  }

  /** The word at the front of `s` ends at the first white space. */
  lemma {:induction false} WordLengthAt(s: string, n: nat)
    requires n <= |s| && NoSpace(s[..n]) && (n == |s| || IsSpace(s[n]))
    ensures WordLength(s) == n
  {
    if n > 0 {
      assert s[..n][0] == s[0];
      assert s[1..][..n - 1] == s[..n][1..];
      WordLengthAt(s[1..], n - 1);
    }
  }

  /** The run of white space at the front of `s` ends at the first other character. */
  lemma {:induction false} SpaceLengthAt(s: string, m: nat)
    requires m <= |s| && AllSpace(s[..m]) && (m == |s| || !IsSpace(s[m]))
    ensures SpaceLength(s) == m
  {
    if m > 0 {
      assert s[..m][0] == s[0];
      assert s[1..][..m - 1] == s[..m][1..];
      SpaceLengthAt(s[1..], m - 1);
    }
  }
}
