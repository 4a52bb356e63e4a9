/** The code-point extraction behind font subsetting: an icon rule's
    `content:'\hex'` literal, found with `content:\s*'\\([0-9a-fA-F]+)'`
    (bin/iconforge-cli.cjs) or with exactly one space, `content: '\\(…)'`
    (tools/iconforge-cli.js, bin/iconforge-cli.js), then read with
    `parseInt(hex, 16)` and turned into text with `String.fromCodePoint`. */
module CodePoint {
  import opened Options
  import opened JsString

  predicate IsHex(c: char) {
    '0' <= c <= '9' || 'a' <= c <= 'f' || 'A' <= c <= 'F'
  }

  predicate AllHex(h: string) {
    forall i :: 0 <= i < |h| ==> IsHex(h[i])
  }

  function Digit(c: char): (d: nat)
    requires IsHex(c)
    ensures d < 16
  {
    if c <= '9' then c as int - '0' as int
    else if c <= 'F' then c as int - 'A' as int + 10
    else c as int - 'a' as int + 10
  }

  /** `parseInt(h, 16)`; exact, because every value a code point can take is
      far below 2^53. */
  function HexValue(h: string): nat
    requires AllHex(h)
  {
    if h == [] then 0 else 16 * HexValue(h[..|h| - 1]) + Digit(h[|h| - 1])
  }

  /** The largest value `String.fromCodePoint` accepts; above it, it throws a `RangeError`. */
  const MaxCodePoint: nat := 0x10FFFF

  /** End of the run of hex digits that starts at `i`. */
  function HexRun(s: string, i: nat): (j: nat)
    requires i <= |s|
    ensures i <= j <= |s| && AllHex(s[i..j]) && (j == |s| || !IsHex(s[j]))
    decreases |s| - i
  {
    if i == |s| || !IsHex(s[i]) then i else HexRun(s, i + 1)
  }

  /** How the two spellings of the expression allow white space after `content:`. */
  datatype Gap = AnySpaces | OneSpace

  predicate GapOk(gap: Gap, sp: string) {
    match gap
    case AnySpaces => AllSpace(sp)
    case OneSpace => sp == " "
  }

  /** Length of the gap the expression consumes at the front of `u`, if any. */
  function GapLength(gap: Gap, u: string): (g: Option<nat>)
    ensures g.Some? ==> g.value <= |u| && GapOk(gap, u[..g.value])
  {
    match gap
    case AnySpaces => Some(SpaceLength(u))
    case OneSpace => if u != [] && u[0] == ' ' then Some(1) else None
  }

  /** The tail `'\\([0-9a-fA-F]+)'` of the expression, anchored at the front of `v`. */
  function Quoted(v: string): Option<string> {
    if |v| >= 2 && v[0] == '\'' && v[1] == '\\' then
      var e := HexRun(v, 2);
      if 2 < e < |v| && v[e] == '\'' then Some(v[2..e]) else None
    else None
  }

  /** The part after `content:`: the gap, then the quoted hex digits. */
  function AfterKeyword(u: string, gap: Gap): Option<string> {
    match GapLength(gap, u)
    case None => None
    case Some(g) => Quoted(u[g..])
  }

  /** The expression anchored at `k`: its hex group when it matches there. */
  function ContentAt(s: string, k: nat, gap: Gap): Option<string>
    requires k <= |s|
  {
    if "content:" <= s[k..] then AfterKeyword(s[k..][8..], gap) else None
  }

  /** The pattern text a match at some position stands for. */
  function Literal(sp: string, h: string): string {
    "content:" + (sp + QuotedText(h))
  }

  function QuotedText(h: string): string {
    "'\\" + (h + "'")
  }

  /** A prefix made of two parts, read part by part. */
  lemma PrefixSplit(a: string, b: string, s: string)
    ensures a + b <= s <==> a <= s && b <= s[|a|..]
  {
    if a <= s && b <= s[|a|..] {
      assert (a + b) == s[..|a|] + s[|a|..][..|b|] == s[..|a + b|];
    }
  }

  lemma QuotedSound(v: string)
    requires Quoted(v).Some?
    ensures var h := Quoted(v).value; h != [] && AllHex(h) && QuotedText(h) <= v
  {
    var e := HexRun(v, 2);
    var h := v[2..e];
    assert h <= v[2..] && v[2..][|h|..][0] == v[e];
    PrefixSplit(h, "'", v[2..]);
    PrefixSplit("'\\", h + "'", v);
  }

  lemma QuotedComplete(v: string, h: string)
    requires h != [] && AllHex(h) && QuotedText(h) <= v
    ensures Quoted(v) == Some(h)
  {
    PrefixSplit("'\\", h + "'", v);
    PrefixSplit(h, "'", v[2..]);
    assert v[2 + |h|] == v[2..][|h|..][0];
    assert v[2..2 + |h|] == h;
    HexRunOf(v, 2, 2 + |h|);
  }

  lemma AfterKeywordSound(u: string, gap: Gap)
    requires AfterKeyword(u, gap).Some?
    ensures var h := AfterKeyword(u, gap).value;
            h != [] && AllHex(h) && GapOk(gap, u[..GapLength(gap, u).value])
            && u[..GapLength(gap, u).value] + QuotedText(h) <= u
  {
    var g := GapLength(gap, u).value;
    QuotedSound(u[g..]);
    PrefixSplit(u[..g], QuotedText(AfterKeyword(u, gap).value), u);
  }

  lemma AfterKeywordComplete(u: string, gap: Gap, sp: string, h: string)
    requires GapOk(gap, sp) && h != [] && AllHex(h) && sp + QuotedText(h) <= u
    ensures AfterKeyword(u, gap) == Some(h)
  {
    var n := |sp|;
    PrefixSplit(sp, QuotedText(h), u);
    assert u[..n] == sp;
    PrefixSplit("'\\", h + "'", u[n..]);
    if gap == AnySpaces {
      assert u[n] == u[n..][0] == '\'';
      SpaceLengthOf(u, n);
    }
    assert GapLength(gap, u) == Some(n);
    QuotedComplete(u[n..], h);
  }

  /** A match is exactly the literal shape the pattern describes: soundness. */
  lemma ContentAtSound(s: string, k: nat, gap: Gap)
    requires k <= |s| && ContentAt(s, k, gap).Some?
    ensures var h := ContentAt(s, k, gap).value;
            h != [] && AllHex(h) && exists sp :: GapOk(gap, sp) && Literal(sp, h) <= s[k..]
  {
    var t := s[k..];
    var u := t[8..];
    AfterKeywordSound(u, gap);
    var sp := u[..GapLength(gap, u).value];
    PrefixSplit("content:", sp + QuotedText(ContentAt(s, k, gap).value), t);
  }

  /** And every occurrence of that shape is a match: completeness. */
  lemma ContentAtComplete(s: string, k: nat, gap: Gap, sp: string, h: string)
    requires k <= |s| && GapOk(gap, sp) && h != [] && AllHex(h)
    requires Literal(sp, h) <= s[k..]
    ensures ContentAt(s, k, gap) == Some(h)
  {
    PrefixSplit("content:", sp + QuotedText(h), s[k..]);
    AfterKeywordComplete(s[k..][8..], gap, sp, h);
  }

  lemma {:induction false} SpaceLengthOf(u: string, n: nat)
    requires n < |u| && AllSpace(u[..n]) && !IsSpace(u[n])
    ensures SpaceLength(u) == n
    decreases n
  {
    if n > 0 {
      assert IsSpace(u[..n][0]);
      assert u[1..][..n - 1] == u[1..n];
      SpaceLengthOf(u[1..], n - 1);
    }
  }

  lemma {:induction false} HexRunOf(v: string, i: nat, j: nat)
    requires i <= j < |v| && AllHex(v[i..j]) && !IsHex(v[j])
    ensures HexRun(v, i) == j
    decreases j - i
  {
    if i < j {
      assert IsHex(v[i..j][0]);
      assert v[i + 1..j] == v[i..j][1..];
      HexRunOf(v, i + 1, j);
    }
  }

  /** Position of the leftmost match at or after `i` (`String.prototype.match`
      without the `g` flag). */
  function Search(s: string, i: nat, gap: Gap): (r: Option<nat>)
    requires i <= |s|
    ensures r.Some? ==> i <= r.value <= |s| && ContentAt(s, r.value, gap).Some?
    ensures r.Some? ==> forall k :: i <= k < r.value ==> ContentAt(s, k, gap).None?
    ensures r.None? ==> forall k :: i <= k <= |s| ==> ContentAt(s, k, gap).None?
    decreases |s| - i
  {
    if ContentAt(s, i, gap).Some? then Some(i)
    else if i == |s| then None
    else Search(s, i + 1, gap)
  }

  /** What one icon entry contributes to the subset text: nothing, one code
      point, or an exception (a code point `fromCodePoint` rejects, or an
      entry the callback cannot read) that aborts the whole computation. */
  datatype Glyph = NoMatch | Point(cp: nat) | Throws

  /** `match ? String.fromCodePoint(parseInt(match[1], 16)) : null`. */
  function GlyphOf(ruleText: string, gap: Gap): (r: Glyph)
    ensures r.Point? ==> r.cp <= MaxCodePoint
    ensures r.NoMatch? <==> forall k :: 0 <= k <= |ruleText| ==> ContentAt(ruleText, k, gap).None?
  {
    match Search(ruleText, 0, gap)
    case None => NoMatch
    case Some(k) =>
      var h := ContentAt(ruleText, k, gap).value;
      ContentAtSound(ruleText, k, gap);
      var n := HexValue(h);
      if n <= MaxCodePoint then Point(n) else Throws
  }

  /** Outcome of the font step: a subset restricted to these code points, or
      a copy of the whole font. */
  datatype FontPlan = Subset(codePoints: seq<nat>) | CopyFullFont

  /** `.filter(Boolean)` over the per-rule outcomes: the code points, in order. */
  function Points(gs: seq<Glyph>): (cps: seq<nat>)
    ensures |cps| <= |gs|
    ensures cps == [] <==> forall i :: 0 <= i < |gs| ==> !gs[i].Point?
    ensures forall c :: c in cps <==> Point(c) in gs
  {
    if gs == [] then []
    else
      var init, last := gs[..|gs| - 1], gs[|gs| - 1];
      assert gs == init + [last];
      Points(init) + (if last.Point? then [last.cp] else [])
  }

  /** The font decision: an exception in any callback lands in the handler,
      which copies the whole font; so does an empty subset text. Otherwise the subset keeps exactly the code points found. */
  function Plan(gs: seq<Glyph>): (p: FontPlan)
    ensures p.CopyFullFont? <==> Throws in gs || forall i :: 0 <= i < |gs| ==> !gs[i].Point?
    ensures p.Subset? ==> p.codePoints == Points(gs) && p.codePoints != []
  {
    if Throws in gs then CopyFullFont
    else
      var cps := Points(gs);
      if cps == [] then CopyFullFont else Subset(cps)
  }
}
