/** The browser runtime of `dist/iconforge.js`: the page's used classes,
    kept in two growing sets, and a stylesheet rebuilt from them on every
    pass and written only when its text changes. */
module DistRuntime {
  import opened Options
  import opened JsString
  import opened OrderedSet
  import opened Meta
  import opened Braces
  import opened Selector
  import opened Prefixes
  import opened Arbitrary
  import opened Sheet
  import opened Rules
  import opened Preamble

  // ---------------------------------------------------------------------------
  // Variant prefixes

  /** The keys of `responsiveBreakpoints`, in order, and its entries. */
  const BreakpointKeys: seq<string> := ["sm:", "md:", "lg:", "xl:"]
  const Responsive: map<string, string> :=
    map["sm:" := "(min-width: 640px)", "md:" := "(min-width: 768px)",
        "lg:" := "(min-width: 1024px)", "xl:" := "(min-width: 1280px)"]

  const StatePrefixes: seq<string> := ["hover:", "focus:", "active:"]
  const ThemePrefixes: seq<string> := ["dark:"]

  /** `orderedPrefixes`: breakpoints (positions 0-3), `dark:` (4), states (5-7). */
  const OrderedPrefixes: seq<string> := ["sm:", "md:", "lg:", "xl:", "dark:", "hover:", "focus:", "active:"]

  /** The list is the breakpoint keys, then the theme prefixes, then the
      state prefixes; each kind of prefix is recognised by its position. */
  lemma PrefixKinds()
    ensures OrderedPrefixes == BreakpointKeys + ThemePrefixes + StatePrefixes
    ensures forall j :: 0 <= j < 4 ==> OrderedPrefixes[j] !in StatePrefixes && OrderedPrefixes[j] !in ThemePrefixes
    ensures OrderedPrefixes[4] !in StatePrefixes && OrderedPrefixes[4] in ThemePrefixes
    ensures forall j :: 5 <= j < 8 ==> OrderedPrefixes[j] in StatePrefixes
  {
    assert BreakpointKeys + ThemePrefixes + StatePrefixes == OrderedPrefixes;
  }

  /** The first two characters of each prefix; they are pairwise distinct. */
  const PrefixHeads: seq<string> := ["sm", "md", "lg", "xl", "da", "ho", "fo", "ac"]

  /** The eight prefixes are non-empty and none is a prefix of another. */
  lemma PrefixTable()
    ensures |OrderedPrefixes| == 8 && NonEmpty(OrderedPrefixes) && PrefixFree(OrderedPrefixes)
    ensures forall i :: 0 <= i < 8 ==> |OrderedPrefixes[i]| >= 2 && OrderedPrefixes[i][..2] == PrefixHeads[i]
  {
    var heads := PrefixHeads;
    assert forall i :: 0 <= i < 8 ==> |OrderedPrefixes[i]| >= 2 && OrderedPrefixes[i][..2] == heads[i];
    assert forall i, j :: 0 <= i < j < 8 ==> heads[i] != heads[j];
    PrefixFreeByHeads(OrderedPrefixes, heads);
  }

  lemma TableNonEmpty()
    ensures NonEmpty(OrderedPrefixes)
  {
    PrefixTable();
  }

  /** The `baseClass` of `parseVariants(cls)`. */
  function BaseOf(cls: string): string {
    TableNonEmpty();
    Base(OrderedPrefixes, cls)
  }

  /** What `parseVariants` returns. */
  datatype Parsed = Parsed(base: string, variants: seq<string>)

  /** `parseVariants(cls)`: the prefixes stripped from the front, in order,
      and what is left. */
  function ParseOf(cls: string): Parsed {
    TableNonEmpty();
    Parsed(BaseOf(cls), Spell(OrderedPrefixes, Strips(OrderedPrefixes, cls)))
  }

  /** The base starts with no prefix, and the variants followed by the base
      spell the class again. */
  lemma ParseReassembles(cls: string)
    ensures Clean(OrderedPrefixes, ParseOf(cls).base)
    ensures Concat(ParseOf(cls).variants) + ParseOf(cls).base == cls
  {
    PrefixTable();
    Reassemble(OrderedPrefixes, cls);
  }

  /** A class that starts with prefix `j` has it as its first variant, and
      the rest parses as it would alone. */
  lemma ParseFront(j: nat, rest: string)
    requires j < |OrderedPrefixes|
    ensures ParseOf(OrderedPrefixes[j] + rest) ==
              Parsed(ParseOf(rest).base, [OrderedPrefixes[j]] + ParseOf(rest).variants)
  {
    PrefixTable();
    StripsFront(OrderedPrefixes, j, rest);
    var s := Strips(OrderedPrefixes, rest);
    assert Spell(OrderedPrefixes, [j] + s) == [OrderedPrefixes[j]] + Spell(OrderedPrefixes, s);
  }

  /** `xs:` and `disabled:` are not prefixes here: such a class is its own base. */
  lemma NoXsOrDisabled(rest: string)
    ensures ParseOf("xs:" + rest) == Parsed("xs:" + rest, [])
    ensures ParseOf("disabled:" + rest) == Parsed("disabled:" + rest, [])
  {
    assert ("xs:" + rest)[..2] == "xs" && "xs" !in PrefixHeads;
    assert ("disabled:" + rest)[..2] == "di" && "di" !in PrefixHeads;
    NotAPrefix("xs:" + rest);
    NotAPrefix("disabled:" + rest);
  }

  /** A text whose first two characters are no prefix's head starts with no prefix. */
  lemma NotAPrefix(s: string)
    requires |s| >= 2 && s[..2] !in PrefixHeads
    ensures ParseOf(s) == Parsed(s, [])
  {
    PrefixTable();
    CleanByHeads(OrderedPrefixes, PrefixHeads, s);
  }

  /** A text whose first two characters head no token of the list starts
      with none of them. */
  lemma CleanByHeads(tokens: seq<string>, heads: seq<string>, s: string)
    requires |tokens| == |heads|
    requires forall i :: 0 <= i < |tokens| ==> |tokens[i]| >= 2 && tokens[i][..2] == heads[i]
    requires |s| >= 2 && s[..2] !in heads
    ensures Clean(tokens, s)
  {
    forall j | 0 <= j < |tokens|
      ensures !(tokens[j] <= s)
    {
      assert heads[j] != s[..2];
    }
  }

  /** `parseVariants(cls)`, with the prefix list as a parameter. */
  method ParseVariants(cls: string) returns (p: Parsed)
    ensures p == ParseOf(cls)
  {
    PrefixTable();
    var variants, base := ParseLoop(OrderedPrefixes, cls);
    p := Parsed(base, variants);
  }

  /** The loop of `parseVariants`: find the first prefix the rest starts
      with, record it, strip it and start over; stop when none matches. */
  method ParseLoop(tokens: seq<string>, cls: string) returns (variants: seq<string>, base: string)
    requires NonEmpty(tokens)
    ensures variants == Spell(tokens, Strips(tokens, cls)) && base == Base(tokens, cls)
  {
    base := cls;
    variants := [];
    ghost var done: seq<nat> := [];
    var changed := true;
    while changed
      invariant Strips(tokens, cls) == done + Strips(tokens, base)
      invariant Base(tokens, cls) == Base(tokens, base)
      invariant variants == Spell(tokens, Strips(tokens, cls)[..|done|])
      invariant !changed ==> Strips(tokens, base) == []
      decreases |base|, changed
    {
      changed := false;
      var j := FirstIndex(tokens, base);
      if j < |tokens| {
        var t := tokens[j];
        LoopStep(tokens, cls, base, j, done, variants);
        variants := variants + [t];
        done := done + [j];
        base := base[|t|..];
        changed := true;
      }
    }
    assert Strips(tokens, cls)[..|done|] == Strips(tokens, cls);
  }

  lemma LoopStep(tokens: seq<string>, cls: string, rest: string, j: nat, done: seq<nat>, variants: seq<string>)
    requires NonEmpty(tokens)
    requires j < |tokens| && j == FirstIndex(tokens, rest)
    requires Strips(tokens, cls) == done + Strips(tokens, rest)
    requires Base(tokens, cls) == Base(tokens, rest)
    requires variants == Spell(tokens, Strips(tokens, cls)[..|done|])
    ensures Strips(tokens, cls) == (done + [j]) + Strips(tokens, rest[|tokens[j]|..])
    ensures Base(tokens, cls) == Base(tokens, rest[|tokens[j]|..])
    ensures variants + [tokens[j]] == Spell(tokens, Strips(tokens, cls)[..|done| + 1])
  {
    var later := Strips(tokens, rest[|tokens[j]|..]);
    assert Strips(tokens, rest) == [j] + later;
    AppendAssoc(done, [j], later);
    var all := Strips(tokens, cls);
    assert all[..|done|] == done && all[..|done| + 1] == done + [j];
    SpellSnoc(tokens, done, j);
  }

  lemma SpellSnoc(tokens: seq<string>, done: seq<nat>, j: nat)
    requires j < |tokens|
    requires forall k :: 0 <= k < |done| ==> done[k] < |tokens|
    ensures Spell(tokens, done + [j]) == Spell(tokens, done) + [tokens[j]]
  {
    var r := Spell(tokens, done + [j]);
    assert forall k :: 0 <= k < |done| ==> r[k] == tokens[done[k]];
  }

  /** What the variants select: the pseudo-class text, the dark-mode
      ancestors and the bucket. */
  datatype Variant = Variant(variantCss: string, prefix: string, mediaQuery: string)

  /** The texts `piece` gives the variants, one after another. */
  function Pieces(piece: string -> string, vs: seq<string>): string {
    if vs == [] then "" else Pieces(piece, vs[..|vs| - 1]) + piece(vs[|vs| - 1])
  }

  /** What a state prefix adds to `variantCSS`: `:<state>`. */
  function StatePiece(t: string): string {
    if t in StatePrefixes then ":" + t[..|t| - 1] else ""
  }

  /** What a theme prefix adds to `prefix`: `.<theme> `. */
  function ThemePiece(t: string): string {
    if t !in StatePrefixes && t in ThemePrefixes then "." + t[..|t| - 1] + " " else ""
  }

  /** `variantCSS` after the given variants: `:<state>` appended per state. */
  function StateText(vs: seq<string>): string {
    Pieces(StatePiece, vs)
  }

  /** `prefix` after the given variants: `.<theme> ` appended per theme prefix. */
  function ThemeText(vs: seq<string>): string {
    Pieces(ThemePiece, vs)
  }

  /** `mediaQuery` after the given variants: each breakpoint overwrites it. */
  function MediaOf(vs: seq<string>): string {
    if vs == [] then "default"
    else
      var init, t := vs[..|vs| - 1], vs[|vs| - 1];
      if t !in StatePrefixes && t !in ThemePrefixes && t in Responsive then "@media " + Responsive[t]
      else MediaOf(init)
  }

  /** The `forEach` over the variants in `injectStyles`. */
  method ApplyVariants(vs: seq<string>) returns (v: Variant)
    ensures v == Variant(StateText(vs), ThemeText(vs), MediaOf(vs))
  {
    v := Variant("", "", "default");
    for i := 0 to |vs|
      invariant v == Variant(StateText(vs[..i]), ThemeText(vs[..i]), MediaOf(vs[..i]))
    {
      var t := vs[i];
      assert vs[..i + 1][..i] == vs[..i] && vs[..i + 1][i] == t;
      if t in StatePrefixes {
        v := v.(variantCss := v.variantCss + ":" + t[..|t| - 1]);
      } else if t in ThemePrefixes {
        v := v.(prefix := v.prefix + "." + t[..|t| - 1] + " ");
      } else if t in Responsive {
        v := v.(mediaQuery := "@media " + Responsive[t]);
      }
    }
    assert vs[..|vs|] == vs;
  }

  /** The variants of a class. */
  function VariantOf(cls: string): Variant {
    var vs := ParseOf(cls).variants;
    Variant(StateText(vs), ThemeText(vs), MediaOf(vs))
  }

  /** One variant gives its own piece. */
  lemma PiecesOne(piece: string -> string, t: string)
    ensures Pieces(piece, [t]) == piece(t)
  {
    var one: seq<string> := [t];
    assert one[..0] == [];
  }

  /** The pieces of two runs of variants, one after the other. */
  lemma {:induction false} PiecesAppend(piece: string -> string, a: seq<string>, b: seq<string>)
    ensures Pieces(piece, a + b) == Pieces(piece, a) + Pieces(piece, b)
    decreases |b|
  {
    if b == [] {
      assert a + b == a;
    } else {
      var init, last := b[..|b| - 1], b[|b| - 1];
      assert (a + b)[..|a + b| - 1] == a + init && (a + b)[|a + b| - 1] == last;
      PiecesAppend(piece, a, init);
      AppendAssoc(Pieces(piece, a), Pieces(piece, init), piece(last));
    }
  }

  lemma {:induction false} MediaOfAppend(a: seq<string>, b: seq<string>)
    ensures MediaOf(a + b) == if MediaOf(b) == "default" then MediaOf(a) else MediaOf(b)
    decreases |b|
  {
    if b == [] {
      assert a + b == a;
    } else {
      var init := b[..|b| - 1];
      assert (a + b)[..|a + b| - 1] == a + init && (a + b)[|a + b| - 1] == b[|b| - 1];
      MediaOfAppend(a, init);
    }
  }

  /** One `dark:` alone gives one `.dark ` ancestor. */
  lemma DarkAlone()
    ensures ThemeText([OrderedPrefixes[4]]) == ".dark "
  {
    PrefixKinds();
    var t := OrderedPrefixes[4];
    PiecesOne(ThemePiece, t);
    assert t[..|t| - 1] == "dark";
  }

  /** Each `dark:` adds one more `.dark ` ancestor, so repeats compound. */
  lemma DarkCompounds(rest: string)
    ensures VariantOf(OrderedPrefixes[4] + rest).prefix == ".dark " + VariantOf(rest).prefix
  {
    ParseFront(4, rest);
    PiecesAppend(ThemePiece, [OrderedPrefixes[4]], ParseOf(rest).variants);
    DarkAlone();
  }

  /** A state prefix alone gives its pseudo-class. */
  lemma StateAlone(j: nat)
    requires 5 <= j < 8
    ensures StateText([OrderedPrefixes[j]]) == ":" + OrderedPrefixes[j][..|OrderedPrefixes[j]| - 1]
  {
    PrefixKinds();
    PiecesOne(StatePiece, OrderedPrefixes[j]);
  }

  /** A state prefix puts its pseudo-class before those of the rest, in the
      order the prefixes are written. */
  lemma StateFirst(j: nat, rest: string)
    requires 5 <= j < 8
    ensures VariantOf(OrderedPrefixes[j] + rest).variantCss ==
              ":" + OrderedPrefixes[j][..|OrderedPrefixes[j]| - 1] + VariantOf(rest).variantCss
  {
    ParseFront(j, rest);
    PiecesAppend(StatePiece, [OrderedPrefixes[j]], ParseOf(rest).variants);
    StateAlone(j);
  }

  /** A breakpoint alone selects its query. */
  lemma BreakpointAlone(t: string)
    requires t in Responsive && t !in StatePrefixes && t !in ThemePrefixes
    ensures MediaOf([t]) == "@media " + Responsive[t]
  {
    var one: seq<string> := [t];
    assert one[..0] == [];
  }

  /** The four breakpoints are responsive keys, neither states nor themes,
      and their queries are the media queries in order. */
  lemma QueryTable(j: nat)
    requires j < 4
    ensures OrderedPrefixes[j] in Responsive
    ensures OrderedPrefixes[j] !in StatePrefixes && OrderedPrefixes[j] !in ThemePrefixes
    ensures "@media " + Responsive[OrderedPrefixes[j]] == MediaQueries[j]
  {
    PrefixKinds();
  }

  /** A breakpoint sets the bucket only when no later breakpoint follows:
      the last one written wins. */
  lemma LastBreakpointWins(j: nat, rest: string)
    requires j < 4
    ensures VariantOf(OrderedPrefixes[j] + rest).mediaQuery ==
              if VariantOf(rest).mediaQuery == "default" then MediaQueries[j] else VariantOf(rest).mediaQuery
  {
    ParseFront(j, rest);
    MediaOfAppend([OrderedPrefixes[j]], ParseOf(rest).variants);
    QueryTable(j);
    BreakpointAlone(OrderedPrefixes[j]);
  }

  // ---------------------------------------------------------------------------
  // Classification

  /** `scanElement`'s test for `usedIf`: a non-empty token whose base starts with `if-`. */
  predicate IsIf(cls: string) {
    cls != "" && "if-" <= BaseOf(cls)
  }

  /** `scanElement`'s test for `usedIs`: otherwise, a base that starts with `is-`. */
  predicate IsIs(cls: string) {
    cls != "" && !("if-" <= BaseOf(cls)) && "is-" <= BaseOf(cls)
  }

  /** The tests of `scanElement` for one token: skip it when empty, else
      parse it and look at the start of its base. */
  method Classify(cls: string) returns (toIf: bool, toIs: bool)
    ensures toIf == IsIf(cls) && toIs == IsIs(cls)
  {
    toIf, toIs := false, false;
    if cls != "" {
      var p := ParseVariants(cls);
      toIf := "if-" <= p.base;
      toIs := !toIf && "is-" <= p.base;
    }
  }

  /** No class is in both sets. */
  lemma Disjoint(cls: string)
    ensures !(IsIf(cls) && IsIs(cls))
  {
  }

  // ---------------------------------------------------------------------------
  // Resolution

  /** The declarations of a style rule source: the trimmed first brace body;
      without one, the whole text when it has no `{` at all, else nothing. */
  function StyleDeclarations(src: string): string {
    match FirstBody(src)
    case Some(b) => Trim(b)
    case None => if '{' in src then "" else src
  }

  /** The arbitrary-value table first (its twenty keywords), then the style
      entry of the base, then its icon entry, which counts only as a string. */
  function BodyOf(icons: Metadata, styles: Metadata, base: string): Body {
    match Match(RuntimeKeywords, base)
    case Some((k, v)) => Plain(Template(k, v))
    case None =>
      if Has(styles, base) then
        var props := StyleDeclarations(StyleSource(styles[base]));
        if props != "" then Plain(props) else NoRule
      else if Has(icons, base) && icons[base].Text? && FirstBody(icons[base].text).Some? then
        Before(Trim(FirstBody(icons[base].text).value))
      else NoRule
  }

  /** The keyframes a base adds: an object style entry with a truthy `class`
      and truthy `keyframes`, reached by the style path. */
  function NewKeyframes(styles: Metadata, base: string): Option<string> {
    if Match(RuntimeKeywords, base).None? && Has(styles, base) && styles[base].Record?
       && styles[base].cls != "" && styles[base].keyframes != ""
    then Some(styles[base].keyframes)
    else None
  }

  /** One iteration of the resolution loop of `injectStyles`: the rule, the
      keyframes and the bucket of a used class. */
  function ContributionOf(icons: Metadata, styles: Metadata, cls: string): Contribution {
    var p := ParseOf(cls);
    var v := Variant(StateText(p.variants), ThemeText(p.variants), MediaOf(p.variants));
    Contribution(RuleOf(v.prefix + "." + EscapeSelector(cls), v.variantCss, BodyOf(icons, styles, p.base)),
                 NewKeyframes(styles, p.base), v.mediaQuery)
  }

  /** A base of the twenty-keyword table gives its template, whatever the
      metadata holds. */
  lemma ArbitraryWins(icons: Metadata, styles: Metadata, base: string, k: Keyword, v: string)
    requires k in RuntimeKeywords && ValueOk(v)
    requires base == Opening(Name(k)) + v + "]"
    ensures NewKeyframes(styles, base) == None
    ensures exists k', v' ::
              && k' in RuntimeKeywords && ValueOk(v') && base == Opening(Name(k')) + v' + "]"
              && BodyOf(icons, styles, base) == Plain(Template(k', v'))
  {
    MatchComplete(RuntimeKeywords, k, v);
    MatchMeans(RuntimeKeywords, base);
    var (k', v') := Match(RuntimeKeywords, base).value;
    MatchedBody(icons, styles, base);
    assert k' in RuntimeKeywords && ValueOk(v') && base == Opening(Name(k')) + v' + "]";
  }

  /** A matched base takes the template of its match. */
  lemma MatchedBody(icons: Metadata, styles: Metadata, base: string)
    requires Match(RuntimeKeywords, base).Some?
    ensures BodyOf(icons, styles, base) ==
              Plain(Template(Match(RuntimeKeywords, base).value.0, Match(RuntimeKeywords, base).value.1))
    ensures NewKeyframes(styles, base) == None
  {
  }

  /** An object style entry without a truthy `class` gives neither a rule
      nor keyframes, and hides any icon entry of the base. */
  lemma ClasslessStyle(icons: Metadata, styles: Metadata, base: string)
    requires Match(RuntimeKeywords, base).None?
    requires base in styles && styles[base].Record? && styles[base].cls == ""
    ensures BodyOf(icons, styles, base) == NoRule && NewKeyframes(styles, base) == None
  {
    assert StyleSource(styles[base]) == "";
    assert StyleDeclarations("") == "" by {
      NoBraceNoBody("");
    }
  }

  /** A style source with a brace body gives the trimmed body; one with no
      `{` at all gives itself; one with a `{` but no body gives nothing. */
  lemma StyleSourceCases(src: string)
    ensures FirstBody(src).Some? ==> StyleDeclarations(src) == Trim(FirstBody(src).value)
    ensures '{' !in src ==> StyleDeclarations(src) == src
    ensures FirstBody(src).None? && '{' in src ==> StyleDeclarations(src) == ""
  {
    if '{' !in src {
      NoBraceNoBody(src);
    }
  }

  /** An icon entry gives a `:before` rule only as a string with a brace body. */
  lemma IconOnlyText(icons: Metadata, styles: Metadata, base: string)
    requires Match(RuntimeKeywords, base).None? && !Has(styles, base) && Has(icons, base)
    ensures BodyOf(icons, styles, base).Before? <==> icons[base].Text? && FirstBody(icons[base].text).Some?
  {
  }

  // ---------------------------------------------------------------------------
  // Aggregation and serialisation

  /** The media queries written after the default rules, in order. */
  const MediaQueries: seq<string> :=
    ["@media " + Responsive["sm:"], "@media " + Responsive["md:"],
     "@media " + Responsive["lg:"], "@media " + Responsive["xl:"]]

  /** One media block: blank line, query, then the rules indented by two
      spaces, one per line; nothing for an empty bucket. */
  function Block(mq: string, rules: seq<string>): string {
    if rules == [] then "" else "\n\n" + mq + " {\n  " + Join(rules, "\n  ") + "\n}"
  }

  /** One more query appends its block. */
  lemma BlocksSnoc(queries: seq<string>, j: nat, cs: seq<Contribution>)
    requires j < |queries|
    ensures Blocks(queries[..j + 1], cs) == Blocks(queries[..j], cs) + Block(queries[j], RulesFound(cs, queries[j]))
  {
    assert queries[..j + 1][..j] == queries[..j];
  }

  /** The blocks of the given queries, in order. */
  function Blocks(queries: seq<string>, cs: seq<Contribution>): string {
    if queries == [] then ""
    else
      var init := queries[..|queries| - 1];
      Blocks(init, cs) + Block(queries[|queries| - 1], RulesFound(cs, queries[|queries| - 1]))
  }

  /** `newCSSText` for the given contributions: keyframes, the default
      rules, the media blocks; the rules of a bucket keep their order and
      repeats (the buckets are arrays). */
  function TextOf(queries: seq<string>, cs: seq<Contribution>): string {
    Head(cs) + Blocks(queries, cs)
  }

  /** The keyframes, then the rules without a media query. */
  function Head(cs: seq<Contribution>): string {
    Join(Dedup(KeyframesFound(cs)), "\n") + "\n" + Join(RulesFound(cs, "default"), "\n")
  }

  /** What each class contributes, for the given metadata. */
  function Contributor(icons: Metadata, styles: Metadata): string -> Contribution {
    cls => ContributionOf(icons, styles, cls)
  }

  /** The text for the used classes, `usedIf` before `usedIs`. */
  function Render(icons: Metadata, styles: Metadata, used: seq<string>): string {
    TextOf(MediaQueries, Collect(Contributor(icons, styles), used))
  }

  /** An empty bucket writes nothing; a non-empty one writes its query. */
  lemma BlockMeans(mq: string, rules: seq<string>)
    ensures Block(mq, rules) == "" <==> rules == []
    ensures rules != [] ==> "\n\n" + mq + " {\n  " <= Block(mq, rules)
  {
    if rules != [] {
      var head := "\n\n" + mq + " {\n  ";
      AppendAssoc(head, Join(rules, "\n  "), "\n}");
      PrefixOfAppend(head, Join(rules, "\n  ") + "\n}");
    }
  }

  /** The loop that pushes each rule onto its bucket's array and adds its
      keyframes to the set. */
  method Push(contribute: string -> Contribution, used: seq<string>)
    returns (keyframes: seq<string>, buckets: map<string, seq<string>>)
    ensures keyframes == Dedup(KeyframesFound(Collect(contribute, used)))
    ensures forall b :: Lookup(buckets, b) == RulesFound(Collect(contribute, used), b)
  {
    ghost var cs := Collect(contribute, used);
    keyframes := [];
    buckets := map["default" := []];
    for i := 0 to |used|
      invariant keyframes == Dedup(KeyframesFound(cs[..i]))
      invariant forall b :: Lookup(buckets, b) == RulesFound(cs[..i], b)
    {
      var c := contribute(used[i]);
      KeyframesStep(cs, i);
      if c.keyframes.Some? {
        keyframes := Add(keyframes, c.keyframes.value);
      }
      PushStep(cs, i, buckets);
      if c.rule.Some? {
        buckets := buckets[c.bucket := Lookup(buckets, c.bucket) + [c.rule.value]];
      }
    }
    assert cs[..|used|] == cs;
  }

  lemma PushStep(cs: seq<Contribution>, i: nat, buckets: map<string, seq<string>>)
    requires i < |cs|
    requires forall b :: Lookup(buckets, b) == RulesFound(cs[..i], b)
    ensures var next := if cs[i].rule.Some?
                        then buckets[cs[i].bucket := Lookup(buckets, cs[i].bucket) + [cs[i].rule.value]]
                        else buckets;
            forall b :: Lookup(next, b) == RulesFound(cs[..i + 1], b)
  {
    assert cs[..i + 1][..i] == cs[..i];
    forall b
      ensures RulesFound(cs[..i + 1], b) ==
                RulesFound(cs[..i], b) + (if cs[i].rule.Some? && cs[i].bucket == b then [cs[i].rule.value] else [])
    {
    }
    forall b | !(cs[i].rule.Some? && cs[i].bucket == b)
      ensures RulesFound(cs[..i], b) + [] == RulesFound(cs[..i], b)
    {
    }
  }

  /** The string building of `injectStyles`. */
  method WriteText(queries: seq<string>, keyframes: seq<string>, buckets: map<string, seq<string>>,
                   ghost cs: seq<Contribution>)
    returns (text: string)
    requires keyframes == Dedup(KeyframesFound(cs))
    requires Lookup(buckets, "default") == RulesFound(cs, "default")
    requires forall j :: 0 <= j < |queries| ==> Lookup(buckets, queries[j]) == RulesFound(cs, queries[j])
    ensures text == TextOf(queries, cs)
  {
    text := Join(keyframes, "\n");
    text := text + "\n" + Join(Lookup(buckets, "default"), "\n");
    assert text == Head(cs);
    for j := 0 to |queries|
      invariant text == Head(cs) + Blocks(queries[..j], cs)
    {
      var mq := queries[j];
      var rules := Lookup(buckets, mq);
      var block := Block(mq, rules);
      BlocksSnoc(queries, j, cs);
      AppendAssoc(Head(cs), Blocks(queries[..j], cs), block);
      text := text + block;
    }
    assert queries[..|queries|] == queries;
  }

  // ---------------------------------------------------------------------------
  // Session storage

  /** The largest serialised payload `safeSave` stores. */
  const MaxPayload: nat := 5242880

  /** Every stored payload is within the limit. */
  predicate Bounded(storage: map<string, string>) {
    forall k :: k in storage ==> |storage[k]| <= MaxPayload
  }

  /** `safeSave(key, data)` with `serialized` the text of `JSON.stringify(data)`
      and `accepted` whether `sessionStorage.setItem` takes it or throws (a
      full quota, storage switched off). The `catch` swallows the error, so
      a payload over the limit or refused by the host leaves storage as it was. */
  function Saved(storage: map<string, string>, key: string, serialized: string, accepted: bool): map<string, string> {
    if |serialized| > MaxPayload || !accepted then storage else storage[key := serialized]
  }

  /** Saving keeps every payload within the limit, stores the new payload
      exactly when it fits and the host accepts it, changes nothing when the
      host refuses, and leaves the other keys alone. */
  lemma SavedMeans(storage: map<string, string>, key: string, serialized: string, accepted: bool)
    ensures Bounded(storage) ==> Bounded(Saved(storage, key, serialized, accepted))
    ensures (key in Saved(storage, key, serialized, accepted) && Saved(storage, key, serialized, accepted)[key] == serialized)
              <==> (|serialized| <= MaxPayload && accepted) || (key in storage && storage[key] == serialized)
    ensures !accepted ==> Saved(storage, key, serialized, accepted) == storage
    ensures forall k :: k != key ==> (k in Saved(storage, key, serialized, accepted) <==> k in storage)
    ensures forall k :: k != key && k in storage ==> Saved(storage, key, serialized, accepted)[k] == storage[k]
  {
  }

  // ---------------------------------------------------------------------------
  // The page

  /** `FONT_URL`: the font on the CDN, pinned to one commit. */
  const FontUrl: string := "https://cdn.jsdelivr.net/gh/DanKaufmanDev/IconForge@3a8b4ef/dist/iconforge.woff2"

  /** The text `injectInitialCSS` puts in the style element: banner,
      `@font-face` and base rule on three lines. */
  const InitialText: string := Banner + "\n" + FontFace(FontUrl) + "\n" + BaseClassRule

  /** The session-storage keys of the two metadata documents. */
  const IconsKey: string := "iconforge_icons"
  const StylesKey: string := "iconforge_styles"

  /** The tokens of one element's class name, split at single spaces; a
      class name that is not a string (`None`) gives none. */
  function Words(className: Option<string>): seq<string> {
    match className
    case Some(c) => SplitOn(c, ' ')
    case None => []
  }

  /** The tokens of a list of class names, in order, with
      `words` cutting one class name. */
  function TokensBy(words: Option<string> -> seq<string>, classNames: seq<Option<string>>): seq<string> {
    if classNames == [] then []
    else
      var init, last := classNames[..|classNames| - 1], classNames[|classNames| - 1];
      TokensBy(words, init) + words(last)
  }

  /** The tokens of a list of class names, in order. */
  function Tokens(classNames: seq<Option<string>>): seq<string> {
    TokensBy(Words, classNames)
  }

  lemma TokensStep(classNames: seq<Option<string>>, i: nat)
    requires i < |classNames|
    ensures Tokens(classNames[..i + 1]) == Tokens(classNames[..i]) + Words(classNames[i])
  {
    assert classNames[..i + 1][..i] == classNames[..i];
  }

  /** A token comes from the list exactly when one class name yields it,
      whatever the cutting. */
  lemma {:induction false} TokensByMeans(words: Option<string> -> seq<string>, classNames: seq<Option<string>>, x: string)
    ensures x in TokensBy(words, classNames) <==> exists i :: 0 <= i < |classNames| && x in words(classNames[i])
  {
    if classNames != [] {
      var init, last := classNames[..|classNames| - 1], classNames[|classNames| - 1];
      TokensByMeans(words, init, x);
      if x in TokensBy(words, init) {
        var i :| 0 <= i < |init| && x in words(init[i]);
        assert classNames[i] == init[i];
      } else if x in words(last) {
        assert x in words(classNames[|classNames| - 1]);
      } else {
        forall i | 0 <= i < |classNames|
          ensures x !in words(classNames[i])
        {
          if i < |init| {
            assert classNames[i] == init[i];
          }
        }
      }
    }
  }

  /** A token comes from the list exactly when one of its class names
      holds it. */
  lemma TokensMeans(classNames: seq<Option<string>>, x: string)
    ensures x in Tokens(classNames) <==> exists i :: 0 <= i < |classNames| && x in Words(classNames[i])
  {
    TokensByMeans(Words, classNames, x);
  }

  // ---------------------------------------------------------------------------
  // The document walk

  /** An element as `scanNode` sees it: whether it has a `class` attribute,
      its `className` (`None` when that is not a string, as on SVG elements)
      and its child elements in document order. */
  datatype Element = Element(hasClass: bool, className: Option<string>, children: seq<Element>)

  /** The class names the `TreeWalker` of `scanNode` visits in a forest, in
      document order. `acceptNode` answers `FILTER_REJECT` for an element
      without a `class` attribute, and the walker then skips that element's
      whole subtree: classed elements below a class-less one are not visited. */
  function Walked(forest: seq<Element>): seq<Option<string>>
    decreases forest
  {
    if forest == [] then []
    else
      var e := forest[0];
      (if e.hasClass then [e.className] + Walked(e.children) else []) + Walked(forest[1..])
  }

  /** `scanElement(node)` on the root, then every element the walker visits. */
  function Visited(root: Element): seq<Option<string>> {
    [root.className] + Walked(root.children)
  }

  /** `e` is in the forest, below ancestors that all have a `class` attribute. */
  ghost predicate Reached(e: Element, forest: seq<Element>)
    decreases forest
  {
    exists i :: 0 <= i < |forest| && (forest[i] == e || (forest[i].hasClass && Reached(e, forest[i].children)))
  }

  /** `e` is anywhere in the forest. */
  ghost predicate Within(e: Element, forest: seq<Element>)
    decreases forest
  {
    exists i :: 0 <= i < |forest| && (forest[i] == e || Within(e, forest[i].children))
  }

  /** The walker visits the class name of exactly the classed elements whose
      ancestors (below the root) all have a `class` attribute. */
  lemma WalkedMeans(forest: seq<Element>, x: Option<string>)
    ensures x in Walked(forest) <==> exists e :: Reached(e, forest) && e.hasClass && e.className == x
  {
    if x in Walked(forest) {
      WalkedSound(forest, x);
    }
    forall e | Reached(e, forest) && e.hasClass
      ensures e.className in Walked(forest)
    {
      WalkedComplete(forest, e);
    }
  }

  lemma {:induction false} WalkedSound(forest: seq<Element>, x: Option<string>)
    requires x in Walked(forest)
    ensures exists e :: Reached(e, forest) && e.hasClass && e.className == x
    decreases forest
  {
    var e0, rest := forest[0], forest[1..];
    if e0.hasClass && x == e0.className {
      assert forest[0] == e0;
      assert Reached(e0, forest);
    } else if e0.hasClass && x in Walked(e0.children) {
      WalkedSound(e0.children, x);
      var e :| Reached(e, e0.children) && e.hasClass && e.className == x;
      assert forest[0] == e0;
      assert Reached(e, forest);
    } else {
      assert x in Walked(rest);
      WalkedSound(rest, x);
      var e :| Reached(e, rest) && e.hasClass && e.className == x;
      var j :| 0 <= j < |rest| && (rest[j] == e || (rest[j].hasClass && Reached(e, rest[j].children)));
      assert forest[j + 1] == rest[j];
      assert Reached(e, forest);
    }
  }

  lemma {:induction false} WalkedComplete(forest: seq<Element>, e: Element)
    requires Reached(e, forest) && e.hasClass
    ensures e.className in Walked(forest)
    decreases forest
  {
    var e0, rest := forest[0], forest[1..];
    var i :| 0 <= i < |forest| && (forest[i] == e || (forest[i].hasClass && Reached(e, forest[i].children)));
    if i == 0 && forest[0] == e {
    } else if i == 0 {
      WalkedComplete(e0.children, e);
    } else {
      assert rest[i - 1] == forest[i];
      assert Reached(e, rest);
      WalkedComplete(rest, e);
    }
  }

  /** The walk with `FILTER_SKIP` in place of `FILTER_REJECT`: a class-less
      element is passed over but its children are still walked, which is what
      `querySelectorAll('[class]')` gives in iconforge.js. */
  function WalkedAll(forest: seq<Element>): seq<Option<string>>
    decreases forest
  {
    if forest == [] then []
    else
      var e := forest[0];
      (if e.hasClass then [e.className] else []) + WalkedAll(e.children) + WalkedAll(forest[1..])
  }

  /** The skipping walk visits the class name of every classed element of the
      forest, and nothing else. */
  lemma WalkedAllMeans(forest: seq<Element>, x: Option<string>)
    ensures x in WalkedAll(forest) <==> exists e :: Within(e, forest) && e.hasClass && e.className == x
  {
    if x in WalkedAll(forest) {
      WalkedAllSound(forest, x);
    }
    forall e | Within(e, forest) && e.hasClass
      ensures e.className in WalkedAll(forest)
    {
      WalkedAllComplete(forest, e);
    }
  }

  lemma {:induction false} WalkedAllSound(forest: seq<Element>, x: Option<string>)
    requires x in WalkedAll(forest)
    ensures exists e :: Within(e, forest) && e.hasClass && e.className == x
    decreases forest
  {
    var e0, rest := forest[0], forest[1..];
    if e0.hasClass && x == e0.className {
      assert forest[0] == e0;
      assert Within(e0, forest);
    } else if x in WalkedAll(e0.children) {
      WalkedAllSound(e0.children, x);
      var e :| Within(e, e0.children) && e.hasClass && e.className == x;
      assert forest[0] == e0;
      assert Within(e, forest);
    } else {
      assert x in WalkedAll(rest);
      WalkedAllSound(rest, x);
      var e :| Within(e, rest) && e.hasClass && e.className == x;
      var j :| 0 <= j < |rest| && (rest[j] == e || Within(e, rest[j].children));
      assert forest[j + 1] == rest[j];
      assert Within(e, forest);
    }
  }

  lemma {:induction false} WalkedAllComplete(forest: seq<Element>, e: Element)
    requires Within(e, forest) && e.hasClass
    ensures e.className in WalkedAll(forest)
    decreases forest
  {
    var e0, rest := forest[0], forest[1..];
    var i :| 0 <= i < |forest| && (forest[i] == e || Within(e, forest[i].children));
    if i == 0 && forest[0] == e {
    } else if i == 0 {
      WalkedAllComplete(e0.children, e);
    } else {
      assert rest[i - 1] == forest[i];
      assert Within(e, rest);
      WalkedAllComplete(rest, e);
    }
  }

  /** A classed element inside a class-less one (`<section><i class="if-b">`)
      is in the forest, and the skipping walk finds its class, but the
      rejecting walk of the script never visits it. */
  lemma RejectHidesDescendants(outer: Option<string>, inner: string)
    ensures var leaf := Element(true, Some(inner), []);
            var forest := [Element(false, outer, [leaf])];
            && Within(leaf, forest) && Some(inner) in WalkedAll(forest)
            && Walked(forest) == []
  {
    var leaf := Element(true, Some(inner), []);
    var forest := [Element(false, outer, [leaf])];
    assert forest[0].children[0] == leaf;
    assert Within(leaf, forest[0].children);
    assert forest[1..] == [] && forest[0].children[1..] == [];
  }

  /** The text `injectStyles` builds for the used classes: the buckets
      filled, then written out in the order of `queries`. */
  method Rebuild(queries: seq<string>, contribute: string -> Contribution, used: seq<string>) returns (text: string)
    ensures text == TextOf(queries, Collect(contribute, used))
  {
    var keyframes, buckets := Push(contribute, used);
    ghost var cs := Collect(contribute, used);
    assert Lookup(buckets, "default") == RulesFound(cs, "default");
    text := WriteText(queries, keyframes, buckets, cs);
  }

  /** The outcome of `fetchMeta` on a store `storage0` and metadata
      `icons0`, `styles0`: both cached documents decoded and the store left
      alone; failing that, a fetched pair taken and each document saved as
      `Saved` allows; a failed fetch changes nothing. */
  predicate Fetched(decode: string -> Metadata, encode: Metadata -> string, fetched: Option<(Metadata, Metadata)>,
                    iconsAccepted: bool, stylesAccepted: bool,
                    storage0: map<string, string>, icons0: Metadata, styles0: Metadata,
                    storage: map<string, string>, icons: Metadata, styles: Metadata)
  {
    var cached := IconsKey in storage0 && storage0[IconsKey] != ""
                  && StylesKey in storage0 && storage0[StylesKey] != "";
    if cached then
      icons == decode(storage0[IconsKey]) && styles == decode(storage0[StylesKey])
      && storage == storage0
    else if fetched.Some? then
      icons == fetched.value.0 && styles == fetched.value.1
      && storage == Saved(Saved(storage0, IconsKey, encode(fetched.value.0), iconsAccepted),
                          StylesKey, encode(fetched.value.1), stylesAccepted)
    else
      icons == icons0 && styles == styles0 && storage == storage0
  }

  /** The state the runtime keeps for one page. */
  class Page {
    /** `usedIf` and `usedIs`, in insertion order. */
    var usedIf: seq<string>
    var usedIs: seq<string>
    /** Every token the scans have looked at, in order, repeats included. */
    ghost var offered: seq<string>
    var icons: Metadata
    var styles: Metadata
    /** The text of the first style element. */
    var baseText: string
    /** The text of the `.iconforge-dynamic` style element; empty until it exists. */
    var dynamicText: string
    /** `sessionStorage`. */
    var storage: map<string, string>

    /** Each set holds the tokens offered so far that its test accepts,
        once each, in order of first offer. */
    ghost predicate Valid()
      reads this
    {
      Filed(usedIf, usedIs, offered)
    }

    /** The page as the script starts on it: `injectInitialCSS` has run. */
    constructor(storage0: map<string, string>)
      ensures Valid() && offered == []
      ensures usedIf == [] && usedIs == [] && icons == map[] && styles == map[]
      ensures baseText == InitialText && dynamicText == "" && storage == storage0
    {
      usedIf, usedIs := [], [];
      offered := [];
      icons, styles := map[], map[];
      baseText := InitialText;
      dynamicText := "";
      storage := storage0;
    }

    /** `fetchMeta`: the cached documents when both are stored, otherwise
        the fetched ones (saved first), or nothing when the fetch failed.
        `decode` and `encode` stand for `JSON.parse` and `JSON.stringify`;
        `iconsAccepted` and `stylesAccepted` say whether the host stores each
        payload. */
    method FetchMeta(decode: string -> Metadata, encode: Metadata -> string, fetched: Option<(Metadata, Metadata)>,
                     iconsAccepted: bool, stylesAccepted: bool)
      modifies this`icons, this`styles, this`storage
      ensures Fetched(decode, encode, fetched, iconsAccepted, stylesAccepted,
                      old(storage), old(icons), old(styles), storage, icons, styles)
    {
      if IconsKey in storage && storage[IconsKey] != "" && StylesKey in storage && storage[StylesKey] != "" {
        icons := decode(storage[IconsKey]);
        styles := decode(storage[StylesKey]);
        return;
      }
      if fetched.Some? {
        SafeSave(IconsKey, encode(fetched.value.0), iconsAccepted);
        SafeSave(StylesKey, encode(fetched.value.1), stylesAccepted);
        icons, styles := fetched.value.0, fetched.value.1;
      }
    }

    /** `safeSave`, with the serialised text given and `accepted` the host's
        answer to `setItem`. */
    method SafeSave(key: string, serialized: string, accepted: bool)
      modifies this`storage
      ensures storage == Saved(old(storage), key, serialized, accepted)
    {
      if |serialized| > MaxPayload {
        return;
      }
      if accepted {
        storage := storage[key := serialized];
      }
    }

    /** `scanElement` on an element whose `className` is a string: its
        tokens split at single spaces, each offered in turn. */
    method ScanElement(className: string)
      requires Valid()
      modifies this`usedIf, this`usedIs, this`offered
      ensures Valid() && offered == old(offered) + SplitOn(className, ' ')
      ensures old(usedIf) <= usedIf && old(usedIs) <= usedIs
    {
      OfferAll(SplitOn(className, ' '));
    }

    /** The `forEach` of `scanElement`: every part offered in turn. */
    method OfferAll(parts: seq<string>)
      requires Valid()
      modifies this`usedIf, this`usedIs, this`offered
      ensures Valid() && offered == old(offered) + parts
      ensures old(usedIf) <= usedIf && old(usedIs) <= usedIs
    {
      var newIf, newIs := FileAll(usedIf, usedIs, offered, parts);
      FiledGrows(usedIf, usedIs, offered, newIf, newIs, parts);
      usedIf, usedIs, offered := newIf, newIs, offered + parts;
    }

    /** `scanNode` on the document element: `scanElement` on the root, then
        on every element its `TreeWalker` visits, in document order. */
    method ScanNode(root: Element)
      requires Valid()
      modifies this`usedIf, this`usedIs, this`offered
      ensures Valid() && offered == old(offered) + Tokens(Visited(root))
      ensures old(usedIf) <= usedIf && old(usedIs) <= usedIs
    {
      var classNames := Visited(root);
      ghost var o0, if0, is0 := offered, usedIf, usedIs;
      assert o0 + [] == o0;
      for i := 0 to |classNames|
        invariant Valid() && offered == o0 + Tokens(classNames[..i])
        invariant if0 <= usedIf && is0 <= usedIs
      {
        TokensStep(classNames, i);
        AppendAssoc(o0, Tokens(classNames[..i]), Words(classNames[i]));
        if classNames[i].Some? {
          ghost var if1, is1 := usedIf, usedIs;
          ScanElement(classNames[i].value);
          PrefixTrans(if0, if1, usedIf);
          PrefixTrans(is0, is1, usedIs);
        } else {
          assert offered + [] == offered;
        }
      }
      assert classNames[..|classNames|] == classNames;
    }

    /** `injectStyles`: the text rebuilt from both sets, `usedIf` first,
        written only when it differs from what the dynamic style element holds. */
    method InjectStyles() returns (wrote: bool)
      modifies this`dynamicText
      ensures dynamicText == Render(icons, styles, usedIf + usedIs)
      ensures wrote <==> old(dynamicText) != dynamicText
    {
      var text := Rebuild(MediaQueries, Contributor(icons, styles), usedIf + usedIs);
      wrote := false;
      if dynamicText != text {
        dynamicText := text;
        wrote := true;
      }
    }

    /** `run`: load the metadata, scan the document, inject. */
    method Run(decode: string -> Metadata, encode: Metadata -> string, fetched: Option<(Metadata, Metadata)>,
               iconsAccepted: bool, stylesAccepted: bool, root: Element)
      requires Valid()
      modifies this`usedIf, this`usedIs, this`offered, this`icons, this`styles, this`storage, this`dynamicText
      ensures Valid() && offered == old(offered) + Tokens(Visited(root))
      ensures old(usedIf) <= usedIf && old(usedIs) <= usedIs
      ensures Fetched(decode, encode, fetched, iconsAccepted, stylesAccepted,
                      old(storage), old(icons), old(styles), storage, icons, styles)
      ensures dynamicText == Render(icons, styles, usedIf + usedIs)
    {
      FetchMeta(decode, encode, fetched, iconsAccepted, stylesAccepted);
      Refresh(root);
    }

    /** The part of `run` after the metadata is in place: the walk from
        `root` scanned, then the dynamic style element rewritten. */
    method Refresh(root: Element)
      requires Valid()
      modifies this`usedIf, this`usedIs, this`offered, this`dynamicText
      ensures Valid() && offered == old(offered) + Tokens(Visited(root))
      ensures old(usedIf) <= usedIf && old(usedIs) <= usedIs
      ensures dynamicText == Render(icons, styles, usedIf + usedIs)
    {
      ScanNode(root);
      var _ := InjectStyles();
    }
  }

  /** The two sets hold the tokens offered that their tests accept, once
      each, in order of first offer. */
  predicate Filed(usedIf: seq<string>, usedIs: seq<string>, offered: seq<string>) {
    usedIf == Dedup(Accepted(IsIf, offered)) && usedIs == Dedup(Accepted(IsIs, offered))
  }

  /** The tokens of `xs` that `test` accepts, in order, repeats included. */
  function Accepted(test: string -> bool, xs: seq<string>): seq<string> {
    if xs == [] then []
    else
      var init, last := xs[..|xs| - 1], xs[|xs| - 1];
      Accepted(test, init) + (if test(last) then [last] else [])
  }

  /** A token is accepted exactly when it is in the list and passes the test. */
  lemma {:induction false} AcceptedMeans(test: string -> bool, xs: seq<string>, x: string)
    ensures x in Accepted(test, xs) <==> x in xs && test(x)
  {
    if xs != [] {
      var init, last := xs[..|xs| - 1], xs[|xs| - 1];
      AcceptedMeans(test, init, x);
      assert xs == init + [last];
    }
  }

  /** The body of the `forEach` of `scanElement` on the two sets: an
      empty token is skipped, any other is added to the set its base selects. */
  method FileClass(usedIf: seq<string>, usedIs: seq<string>, ghost offered: seq<string>, cls: string)
    returns (newIf: seq<string>, newIs: seq<string>)
    requires Filed(usedIf, usedIs, offered)
    ensures Filed(newIf, newIs, offered + [cls])
  {
    var toIf, toIs := Classify(cls);
    Disjoint(cls);
    newIf, newIs := usedIf, usedIs;
    if toIf {
      newIf := Add(usedIf, cls);
    } else if toIs {
      newIs := Add(usedIs, cls);
    }
    OfferSet(IsIf, usedIf, offered, cls, toIf, newIf);
    OfferSet(IsIs, usedIs, offered, cls, toIs, newIs);
  }

  /** The `forEach` of `scanElement` on the two sets, one `FileClass` per part. */
  method FileAll(usedIf: seq<string>, usedIs: seq<string>, ghost offered: seq<string>, parts: seq<string>)
    returns (newIf: seq<string>, newIs: seq<string>)
    requires Filed(usedIf, usedIs, offered)
    ensures Filed(newIf, newIs, offered + parts)
  {
    newIf, newIs := usedIf, usedIs;
    ghost var seen := offered;
    assert seen == offered + parts[..0];
    for k := 0 to |parts|
      invariant seen == offered + parts[..k]
      invariant Filed(newIf, newIs, seen)
    {
      assert offered + parts[..k + 1] == seen + [parts[k]] by {
        assert parts[..k + 1] == parts[..k] + [parts[k]];
        AppendAssoc(offered, parts[..k], [parts[k]]);
      }
      newIf, newIs := FileClass(newIf, newIs, seen, parts[k]);
      seen := seen + [parts[k]];
    }
    assert seen == offered + parts by {
      assert parts[..|parts|] == parts;
    }
  }

  /** Offering one more token to a set: added when its test accepts it. */
  lemma OfferSet(keep: string -> bool, used: seq<string>, seen: seq<string>, x: string, kept: bool, next: seq<string>)
    requires used == Dedup(Accepted(keep, seen))
    requires kept == keep(x) && next == if kept then Add(used, x) else used
    ensures next == Dedup(Accepted(keep, seen + [x]))
  {
    var prev := Accepted(keep, seen);
    assert (seen + [x])[..|seen|] == seen;
    if keep(x) {
      DedupSnoc(prev, x);
    } else {
      assert Accepted(keep, seen + [x]) == prev + [];
      assert prev + [] == prev;
    }
  }

  /** A class is in `usedIf` exactly when it was offered and its base
      starts with `if-`, and in `usedIs` exactly when it was offered and its
      base starts with `is-` but not `if-`; so no class is in both, and
      neither set lists a class twice. */
  lemma UsedMeans(usedIf: seq<string>, usedIs: seq<string>, offered: seq<string>, x: string)
    requires Filed(usedIf, usedIs, offered)
    ensures NoDup(usedIf) && NoDup(usedIs)
    ensures x in usedIf <==> x in offered && x != "" && "if-" <= ParseOf(x).base
    ensures x in usedIs <==> x in offered && x != "" && !("if-" <= ParseOf(x).base) && "is-" <= ParseOf(x).base
    ensures !(x in usedIf && x in usedIs)
  {
    AcceptedMeans(IsIf, offered, x);
    AcceptedMeans(IsIs, offered, x);
  }

  /** The tokens accepted from two lists, one after the other. */
  lemma {:induction false} AcceptedAppend(test: string -> bool, xs: seq<string>, ys: seq<string>)
    ensures Accepted(test, xs + ys) == Accepted(test, xs) + Accepted(test, ys)
    decreases |ys|
  {
    if ys == [] {
      assert xs + ys == xs;
    } else {
      var init := ys[..|ys| - 1];
      assert (xs + ys)[..|xs + ys| - 1] == xs + init;
      AcceptedAppend(test, xs, init);
    }
  }

  /** Offering more tokens to a set keeps its old classes, in their order,
      at its front. */
  lemma GrowsBy(test: string -> bool, offered: seq<string>, parts: seq<string>)
    ensures Dedup(Accepted(test, offered)) <= Dedup(Accepted(test, offered + parts))
  {
    var a, b := Accepted(test, offered), Accepted(test, parts);
    AcceptedAppend(test, offered, parts);
    assert (a + b)[..|a|] == a;
    DedupPrefix(a + b, |a|);
  }

  /** The sets only grow: each old set is a prefix of the new one. */
  lemma FiledGrows(usedIf: seq<string>, usedIs: seq<string>, offered: seq<string>,
                    newIf: seq<string>, newIs: seq<string>, parts: seq<string>)
    requires Filed(usedIf, usedIs, offered) && Filed(newIf, newIs, offered + parts)
    ensures usedIf <= newIf && usedIs <= newIs
  {
    GrowsBy(IsIf, offered, parts);
    GrowsBy(IsIs, offered, parts);
  }

  /** A pass over unchanged sets and metadata writes nothing. */
  method InjectTwice(page: Page) returns (first: bool, second: bool)
    modifies page
    ensures !second
    ensures page.dynamicText == Render(page.icons, page.styles, page.usedIf + page.usedIs)
  {
    first := page.InjectStyles();
    second := page.InjectStyles();
  }
}
