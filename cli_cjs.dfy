/** The build-time engine of `bin/iconforge-cli.cjs`: variant prefixes,
    selector escaping, the class filter, rule resolution, the stylesheet text
    and the font-subset decision. */
module CliCjs {
  import opened Options
  import opened JsString
  import opened OrderedSet
  import opened Meta
  import opened Braces
  import opened Selector
  import opened Prefixes
  import opened CodePoint
  import opened Arbitrary
  import opened Sheet
  import opened FontSubset
  import Scan

  // ---------------------------------------------------------------------------
  // Variant prefixes

  /** The keys of `responsiveBreakpoints` and, at the same positions, its values. */
  const Breakpoints: seq<string> := ["xs:", "sm:", "md:", "lg:", "xl:"]
  const Queries: seq<string> :=
    ["(min-width: 420px)", "(min-width: 640px)", "(min-width: 768px)", "(min-width: 1024px)",
     "(min-width: 1280px)"]

  /** The keys of `pseudoMap` and, at the same positions, its values. */
  const Pseudos: seq<string> := ["hover:", "focus:", "active:", "disabled:"]
  const PseudoClasses: seq<string> := [":hover", ":focus", ":active", ":disabled"]

  const DarkToken: string := "dark:"

  /** `allVariantTokens`: breakpoints (positions 0-4), then pseudo-classes
      (5-8), then `dark:` (9). */
  const VariantTokens: seq<string> := Breakpoints + Pseudos + [DarkToken]

  predicate IsBreakpoint(i: nat) { i < 5 }
  predicate IsPseudo(i: nat) { 5 <= i < 9 }
  predicate IsDark(i: nat) { i == 9 }

  /** The first two characters of each variant token; they are pairwise distinct. */
  const VariantHeads: seq<string> :=
    ["xs", "sm", "md", "lg", "xl", "ho", "fo", "ac", "di", "da"]

  /** A table of ten non-empty tokens, none a prefix of another. */
  predicate Table(tokens: seq<string>) {
    |tokens| == 10 && NonEmpty(tokens) && PrefixFree(tokens)
  }

  /** The ten variant tokens form such a table; as they are distinct,
      testing `t in responsiveBreakpoints` or `t in pseudoMap` for the token
      at position `i` amounts to testing the range of `i`. */
  lemma VariantTokensShape()
    ensures Table(VariantTokens)
  {
    var heads := VariantHeads;
    assert forall i :: 0 <= i < 10 ==> |VariantTokens[i]| >= 2 && VariantTokens[i][..2] == heads[i];
    assert forall i, j :: 0 <= i < j < 10 ==> heads[i] != heads[j];
    PrefixFreeByHeads(VariantTokens, heads);
  }

  /** What `parseVariants` returns. */
  datatype Variants = Variants(base: string, mediaQuery: string, variantSel: string, darkPrefix: string)

  /** Position of the last breakpoint among the strips. */
  function LastBreakpoint(strips: seq<nat>): (r: Option<nat>)
    ensures r.Some? ==> IsBreakpoint(r.value) && r.value in strips
    ensures r.None? <==> forall k :: 0 <= k < |strips| ==> !IsBreakpoint(strips[k])
  {
    if strips == [] then None
    else
      var i := strips[|strips| - 1];
      if IsBreakpoint(i) then Some(i) else LastBreakpoint(strips[..|strips| - 1])
  }

  /** `mediaQuery` after the given strips: each breakpoint overwrites it. */
  function MediaQueryOf(strips: seq<nat>): (mq: string) {
    match LastBreakpoint(strips)
    case None => ""
    case Some(i) => "@media " + Queries[i]
  }

  /** The positions of the pseudo-class strips, in order. */
  function PseudoPositions(strips: seq<nat>): (ps: seq<nat>)
    ensures forall k :: 0 <= k < |ps| ==> IsPseudo(ps[k])
  {
    if strips == [] then []
    else
      var i := strips[|strips| - 1];
      PseudoPositions(strips[..|strips| - 1]) + (if IsPseudo(i) then [i] else [])
  }

  /** The pseudo-class suffixes at the given positions. */
  function PseudoTexts(ps: seq<nat>): (r: seq<string>)
    requires forall k :: 0 <= k < |ps| ==> IsPseudo(ps[k])
    ensures |r| == |ps|
  {
    if ps == [] then []
    else
      var i := ps[|ps| - 1];
      assert IsPseudo(i);
      PseudoTexts(ps[..|ps| - 1]) + [PseudoClasses[i - 5]]
  }

  /** The `pseudos` array after the given strips: one entry pushed per pseudo-class. */
  function PseudoList(strips: seq<nat>): seq<string> {
    PseudoTexts(PseudoPositions(strips))
  }

  /** `darkPrefix` after the given strips: set, not appended, by each `dark:`. */
  function DarkPrefixOf(strips: seq<nat>): string {
    if 9 in strips then ".dark " else ""
  }

  /** What `parseVariants` computes with a given token table. */
  function ParseIn(tokens: seq<string>, token: string): Variants
    requires Table(tokens)
  {
    var strips := Strips(tokens, token);
    Variants(Base(tokens, token), MediaQueryOf(strips), Join(PseudoList(strips), ""),
             DarkPrefixOf(strips))
  }

  /** `parseVariants(token)`. */
  function Parse(token: string): Variants {
    VariantTokensShape();
    ParseIn(VariantTokens, token)
  }

  /** The variant tokens `parseVariants` strips from `token`, in order. */
  function Stripped(token: string): seq<string> {
    VariantTokensShape();
    Spell(VariantTokens, Strips(VariantTokens, token))
  }

  /** `parseVariants`: look for the first variant token the rest starts
      with, record it, strip it and start over; stop when none matches. */
  method ParseVariants(token: string) returns (v: Variants)
    ensures v == Parse(token)
  {
    VariantTokensShape();
    v := ParseLoop(VariantTokens, token);
  }

  /** The loop of `parseVariants` over the token table `tokens`. */
  method ParseLoop(tokens: seq<string>, token: string) returns (v: Variants)
    requires Table(tokens)
    ensures v == ParseIn(tokens, token)
  {
    var rest := token;
    var mediaQuery := "";
    var pseudos: seq<string> := [];
    var darkPrefix := "";
    ghost var done: seq<nat> := [];
    while true
      invariant Strips(tokens, token) == done + Strips(tokens, rest)
      invariant Base(tokens, token) == Base(tokens, rest)
      invariant mediaQuery == MediaQueryOf(done)
      invariant pseudos == PseudoList(done)
      invariant darkPrefix == DarkPrefixOf(done)
      decreases |rest|
    {
      var j := FirstMatch(tokens, rest);
      if j == |tokens| {
        assert Strips(tokens, rest) == [] && Base(tokens, rest) == rest;
        assert done + [] == done;
        break;
      }
      var t := tokens[j];
      StripStep(tokens, token, rest, j, done);
      RecordStep(done, j);
      if IsBreakpoint(j) {
        mediaQuery := "@media " + Queries[j];
      } else if IsDark(j) {
        darkPrefix := ".dark ";
      } else {
        pseudos := pseudos + [PseudoClasses[j - 5]];
      }
      done := done + [j];
      rest := rest[|t|..];
    }
    assert Strips(tokens, token) == done;
    v := Variants(rest, mediaQuery, Join(pseudos, ""), darkPrefix);
  }

  /** The inner `for` loop: position of the first token `rest` starts with,
      or `|tokens|` when there is none. */
  method FirstMatch(tokens: seq<string>, rest: string) returns (j: nat)
    ensures j == FirstIndex(tokens, rest)
  {
    j := 0;
    while j < |tokens| && !(tokens[j] <= rest)
      invariant j <= |tokens|
      invariant forall k :: 0 <= k < j ==> !(tokens[k] <= rest)
    {
      j := j + 1;
    }
  }

  /** One round of the loop of `parseVariants`: the first token that
      matches is the one the specification strips next. */
  lemma StripStep(tokens: seq<string>, token: string, rest: string, j: nat, done: seq<nat>)
    requires Table(tokens)
    requires j < 10 && j == FirstIndex(tokens, rest)
    requires Strips(tokens, token) == done + Strips(tokens, rest)
    requires Base(tokens, token) == Base(tokens, rest)
    ensures |tokens[j]| > 0
    ensures Strips(tokens, token) == (done + [j]) + Strips(tokens, rest[|tokens[j]|..])
    ensures Base(tokens, token) == Base(tokens, rest[|tokens[j]|..])
  {
    var later := Strips(tokens, rest[|tokens[j]|..]);
    assert Strips(tokens, rest) == [j] + later;
    AppendAssoc(done, [j], later);
  }

  lemma RecordStep(done: seq<nat>, j: nat)
    requires j < 10
    ensures MediaQueryOf(done + [j]) == if IsBreakpoint(j) then "@media " + Queries[j] else MediaQueryOf(done)
    ensures PseudoList(done + [j]) == PseudoList(done) + if IsPseudo(j) then [PseudoClasses[j - 5]] else []
    ensures DarkPrefixOf(done + [j]) == if IsDark(j) then ".dark " else DarkPrefixOf(done)
  {
    assert (done + [j])[..|done|] == done;
    var ps := PseudoPositions(done);
    if IsPseudo(j) {
      assert PseudoPositions(done + [j]) == ps + [j];
      assert (ps + [j])[..|ps|] == ps;
    } else {
      assert PseudoPositions(done + [j]) == ps;
    }
  }

  /** The base starts with none of the ten variant tokens, and the stripped
      tokens followed by the base spell the token again. */
  lemma ParseReassembles(token: string)
    ensures Clean(VariantTokens, Parse(token).base)
    ensures Concat(Stripped(token)) + Parse(token).base == token
  {
    VariantTokensShape();
    Reassemble(VariantTokens, token);
  }

  /** A token comes back unchanged, with no media query, pseudo-classes or
      dark prefix, exactly when it starts with no variant token. */
  lemma ParseUnchanged(token: string)
    ensures Parse(token) == Variants(token, "", "", "") <==> Clean(VariantTokens, token)
  {
    VariantTokensShape();
    BaseUnchanged(VariantTokens, token);
  }

  lemma {:induction false} LastBreakpointCons(j: nat, strips: seq<nat>)
    ensures LastBreakpoint([j] + strips) ==
              if LastBreakpoint(strips).Some? then LastBreakpoint(strips)
              else if IsBreakpoint(j) then Some(j) else None
    decreases |strips|
  {
    if strips != [] {
      var init := strips[..|strips| - 1];
      assert ([j] + strips)[..|strips|] == [j] + init;
      LastBreakpointCons(j, init);
    } else {
      assert [j] + strips == [j];
      assert [j][..0] == [];
    }
  }

  lemma {:induction false} PseudoPositionsCons(j: nat, strips: seq<nat>)
    ensures PseudoPositions([j] + strips) == (if IsPseudo(j) then [j] else []) + PseudoPositions(strips)
    decreases |strips|
  {
    if strips != [] {
      var init := strips[..|strips| - 1];
      assert ([j] + strips)[..|strips|] == [j] + init;
      PseudoPositionsCons(j, init);
    } else {
      assert [j] + strips == [j];
      assert [j][..0] == [];
    }
  }

  lemma {:induction false} PseudoTextsAppend(a: seq<nat>, b: seq<nat>)
    requires forall k :: 0 <= k < |a| ==> IsPseudo(a[k])
    requires forall k :: 0 <= k < |b| ==> IsPseudo(b[k])
    ensures PseudoTexts(a + b) == PseudoTexts(a) + PseudoTexts(b)
    decreases |b|
  {
    if b == [] {
      assert a + b == a;
    } else {
      var init := b[..|b| - 1];
      assert (a + b)[..|a + b| - 1] == a + init;
      PseudoTextsAppend(a, init);
    }
  }

  lemma JoinEmptySepCons(p: seq<string>, ps: seq<string>)
    requires |p| <= 1
    ensures Join(p + ps, "") == Concat(p) + Join(ps, "")
  {
    if p != [] {
      assert (p + ps)[1..] == ps;
      assert p[..0] == [];
      if ps == [] {
        assert p + ps == p;
      }
    } else {
      assert p + ps == ps;
    }
  }

  /** What one leading variant token does to the result: the base and the
      rest are parsed as if it were absent; a pseudo-class goes in front of
      the later ones (so the selector follows the token's order); `dark:`
      gives `.dark ` however often it occurs; a breakpoint only counts when
      no later breakpoint follows (the last one stripped wins). */
  lemma ParseFront(j: nat, rest: string)
    requires j < 10
    ensures Parse(VariantTokens[j] + rest).base == Parse(rest).base
    ensures Parse(VariantTokens[j] + rest).variantSel ==
              (if IsPseudo(j) then PseudoClasses[j - 5] else "") + Parse(rest).variantSel
    ensures Parse(VariantTokens[j] + rest).darkPrefix ==
              if IsDark(j) then ".dark " else Parse(rest).darkPrefix
    ensures Parse(VariantTokens[j] + rest).mediaQuery ==
              if Parse(rest).mediaQuery != "" then Parse(rest).mediaQuery
              else if IsBreakpoint(j) then "@media " + Queries[j] else ""
  {
    VariantTokensShape();
    var strips := Strips(VariantTokens, rest);
    StripsFront(VariantTokens, j, rest);
    assert Strips(VariantTokens, VariantTokens[j] + rest) == [j] + strips;
    MediaFront(j, strips);
    PseudoFront(j, strips);
  }

  lemma MediaFront(j: nat, strips: seq<nat>)
    requires j < 10
    ensures MediaQueryOf([j] + strips) ==
              if MediaQueryOf(strips) != "" then MediaQueryOf(strips)
              else if IsBreakpoint(j) then "@media " + Queries[j] else ""
  {
    LastBreakpointCons(j, strips);
  }

  lemma PseudoFront(j: nat, strips: seq<nat>)
    requires j < 10
    ensures Join(PseudoList([j] + strips), "") ==
              (if IsPseudo(j) then PseudoClasses[j - 5] else "") + Join(PseudoList(strips), "")
  {
    PseudoPositionsCons(j, strips);
    var q := if IsPseudo(j) then [j] else [];
    PseudoTextsAppend(q, PseudoPositions(strips));
    var p := PseudoTexts(q);
    if IsPseudo(j) {
      assert q[..0] == [];
      assert p == [PseudoClasses[j - 5]];
      assert Concat(p) == PseudoClasses[j - 5] by {
        assert p[..0] == [];
      }
    } else {
      assert p == [];
    }
    JoinEmptySepCons(p, PseudoList(strips));
  }

  /** `stripAllPrefixes`: passes over all variant tokens, stripping each one
      the rest starts with, until a pass strips nothing. It does not start
      over after a strip, yet lands on the same base as `parseVariants`,
      because no variant token is a prefix of another. */
  method StripAllPrefixes(token: string) returns (rest: string)
    ensures rest == Parse(token).base
  {
    VariantTokensShape();
    rest := token;
    var changed := true;
    while changed
      invariant Base(VariantTokens, rest) == Base(VariantTokens, token)
      invariant !changed ==> Clean(VariantTokens, rest)
      decreases |rest| + (if changed then 1 else 0)
    {
      changed := false;
      ghost var start := rest;
      for j := 0 to |VariantTokens|
        invariant Base(VariantTokens, rest) == Base(VariantTokens, token)
        invariant !changed ==> rest == start
        invariant changed ==> |rest| < |start|
        invariant !changed ==> forall k :: 0 <= k < j ==> !(VariantTokens[k] <= rest)
      {
        var t := VariantTokens[j];
        if t <= rest {
          BaseAfterAny(VariantTokens, rest, j);
          rest := rest[|t|..];
          changed := true;
        }
      }
    }
  }

  /** Stacked breakpoints (`sm:md:`, positions 1 and 2): the last one
      stripped sets the media query. */
  lemma StackedBreakpoints(rest: string)
    requires Parse(rest).mediaQuery == ""
    ensures Parse(VariantTokens[1] + (VariantTokens[2] + rest)).mediaQuery == "@media " + Queries[2]
  {
    ParseFront(2, rest);
    ParseFront(1, VariantTokens[2] + rest);
  }

  /** Pseudo-classes follow the order of their prefixes: `hover:focus:`
      and `focus:hover:` (positions 5 and 6) give different selectors. */
  lemma PseudoOrder(rest: string)
    ensures Parse(VariantTokens[5] + (VariantTokens[6] + rest)).variantSel ==
              PseudoClasses[0] + (PseudoClasses[1] + Parse(rest).variantSel)
    ensures Parse(VariantTokens[6] + (VariantTokens[5] + rest)).variantSel ==
              PseudoClasses[1] + (PseudoClasses[0] + Parse(rest).variantSel)
  {
    ParseFront(5, rest);
    ParseFront(6, rest);
    ParseFront(6, VariantTokens[5] + rest);
    ParseFront(5, VariantTokens[6] + rest);
  }

  /** A repeated `dark:` (position 9) still gives a single `.dark `. */
  lemma DarkRepeat(rest: string)
    ensures Parse(VariantTokens[9] + (VariantTokens[9] + rest)).darkPrefix == ".dark "
  {
    ParseFront(9, VariantTokens[9] + rest);
  }

  // ---------------------------------------------------------------------------
  // The class filter

  /** A scanned token is kept when it is non-empty and its base (after all
      variant prefixes) is non-empty and starts with `if-` or `is-` (the
      third test, `is-[`, is implied by the second). */
  predicate Kept(cls: string) {
    cls != "" && var b := Parse(cls).base; b != "" && ("if-" <= b || "is-" <= b || "is-[" <= b)
  }

  /** `usedClasses`: the safelist, then the kept tokens of the attribute
      values; each class once, in order of first occurrence. */
  function UsedClasses(safelist: seq<string>, values: seq<string>): seq<string> {
    Scan.UsedClasses(Kept, safelist, values)
  }

  /** A class is used exactly when it is safelisted, or found in an
      attribute value with a non-empty base that starts with `if-` or `is-`
      once every variant prefix is stripped; none is listed twice. */
  lemma UsedClassesMeans(safelist: seq<string>, values: seq<string>, x: string)
    ensures NoDup(UsedClasses(safelist, values))
    ensures x in UsedClasses(safelist, values) <==>
              x in safelist ||
              (x != "" && Parse(x).base != "" && ("if-" <= Parse(x).base || "is-" <= Parse(x).base) &&
               exists i :: 0 <= i < |values| && x in SplitSpaceRuns(values[i]))
  {
    Scan.UsedClassesMeans(Kept, safelist, values, x);
  }

  /** The filter applied to one token, as the loop writes it. */
  method IsKept(cls: string) returns (keep: bool)
    ensures keep == Kept(cls)
  {
    keep := false;
    if cls != "" {
      var p := ParseVariants(cls);
      keep := p.base != "" && ("if-" <= p.base || "is-" <= p.base || "is-[" <= p.base);
    }
  }

  // ---------------------------------------------------------------------------
  // Rule resolution

  /** What one used class contributes: a rule, and keyframes to add. */
  datatype Outcome = Outcome(rule: Option<string>, keyframes: Option<string>)

  /** `${darkPrefix}.${escapeSelector(cls)}${variantSel}`. */
  function SelectorFor(p: Variants, cls: string): string {
    p.darkPrefix + "." + EscapeSelector(cls) + p.variantSel
  }

  /** What follows the selector in the rule for a base: the arbitrary-value
      table first, then the style entry of the base, then its icon entry. */
  function RuleTail(icons: Metadata, styles: Metadata, base: string): Option<string> {
    match Match(CliKeywords, base)
    case Some((k, v)) =>
      var props := Template(k, v);
      if props != "" then Some(" { " + props + " }") else None
    case None =>
      if Has(styles, base) then
        var props := Declarations(StyleSource(styles[base]));
        if props != "" then Some(" { " + props + " }") else None
      else if Has(icons, base) then
        var full := IconText(icons[base]);
        if full != "" && FirstBody(full).Some? then Some(":before { " + Trim(FirstBody(full).value) + " }")
        else None
      else None
  }

  /** The keyframes text a base contributes: only an object-form style
      entry reached by the style path has one. */
  function NewKeyframes(styles: Metadata, base: string): Option<string> {
    if Match(CliKeywords, base).None? && Has(styles, base) && styles[base].Record? && styles[base].keyframes != ""
    then Some(styles[base].keyframes)
    else None
  }

  /** One iteration of the resolution loop of `buildCSS`. */
  function Resolve(icons: Metadata, styles: Metadata, cls: string): Outcome {
    var p := Parse(cls);
    var tail := RuleTail(icons, styles, p.base);
    Outcome(if tail.Some? then Some(SelectorFor(p, cls) + tail.value) else None, NewKeyframes(styles, p.base))
  }

  /** An arbitrary-value base always gives a template rule, whatever the
      metadata holds for it, and no keyframes. */
  lemma ArbitraryWins(icons: Metadata, styles: Metadata, base: string, k: Keyword, v: string)
    requires k in CliKeywords && ValueOk(v)
    requires base == Opening(Name(k)) + v + "]"
    ensures NewKeyframes(styles, base) == None
    ensures exists k', v' ::
              && k' in CliKeywords && ValueOk(v') && base == Opening(Name(k')) + v' + "]"
              && RuleTail(icons, styles, base) == Some(" { " + Template(k', v') + " }")
  {
    MatchComplete(CliKeywords, k, v);
    var m := Match(CliKeywords, base);
    assert m.Some?;
    var (k', v') := m.value;
    MatchMeans(CliKeywords, base);
    TemplateNonEmpty(k', v');
  }

  /** A style entry with a brace body gives the trimmed body, unless blank. */
  lemma StyleBody(icons: Metadata, styles: Metadata, base: string, b: string)
    requires Match(CliKeywords, base).None? && Has(styles, base)
    requires FirstBody(StyleSource(styles[base])) == Some(b)
    ensures RuleTail(icons, styles, base) == if Trim(b) == "" then None else Some(" { " + Trim(b) + " }")
  {
  }

  /** A style entry without a brace body uses its whole source text. */
  lemma StyleWhole(icons: Metadata, styles: Metadata, base: string)
    requires Match(CliKeywords, base).None? && Has(styles, base)
    requires FirstBody(StyleSource(styles[base])).None?
    ensures var src := StyleSource(styles[base]);
            RuleTail(icons, styles, base) == if src == "" then None else Some(" { " + src + " }")
  {
  }

  /** An icon entry, reached only when the base has no style entry, gives a
      `:before` rule from its trimmed brace body, and nothing without one. */
  lemma IconRule(icons: Metadata, styles: Metadata, base: string)
    requires Match(CliKeywords, base).None? && !Has(styles, base) && Has(icons, base)
    ensures var body := FirstBody(IconText(icons[base]));
            RuleTail(icons, styles, base) ==
              if body.None? then None else Some(":before { " + Trim(body.value) + " }")
    ensures NewKeyframes(styles, base) == None
  {
    if IconText(icons[base]) == "" {
      assert FirstBody(IconText(icons[base])).None?;
    }
  }

  /** Variant prefixes change only the selector: a class with one more
      prefix resolves through the same metadata entry. */
  lemma VariantKeepsEntry(icons: Metadata, styles: Metadata, j: nat, rest: string)
    requires j < |VariantTokens|
    ensures var o, o' := Resolve(icons, styles, VariantTokens[j] + rest), Resolve(icons, styles, rest);
            && o.keyframes == o'.keyframes
            && (o.rule.Some? <==> o'.rule.Some?)
  {
    ParseFront(j, rest);
  }

  /** A class matching none of the three paths gives nothing. */
  lemma ResolveNothing(icons: Metadata, styles: Metadata, base: string)
    requires Match(CliKeywords, base).None? && !Has(styles, base) && !Has(icons, base)
    ensures RuleTail(icons, styles, base) == None && NewKeyframes(styles, base) == None
  {
  }

  /** Every rule starts with the selector of the class. */
  lemma ResolveSelector(icons: Metadata, styles: Metadata, cls: string)
    ensures var o := Resolve(icons, styles, cls);
            o.rule.Some? ==> SelectorFor(Parse(cls), cls) <= o.rule.value
  {
    var tail := RuleTail(icons, styles, Parse(cls).base);
    if tail.Some? {
      PrefixOfAppend(SelectorFor(Parse(cls), cls), tail.value);
    }
  }

  // ---------------------------------------------------------------------------
  // Aggregation into keyframes and media buckets

  /** The bucket of a class: its media query, or `default`. */
  function BucketOf(cls: string): string {
    var mq := Parse(cls).mediaQuery;
    if mq != "" then mq else "default"
  }

  /** What one used class adds: its rule, its keyframes and its bucket. */
  function ContributionOf(icons: Metadata, styles: Metadata, cls: string): Contribution {
    var o := Resolve(icons, styles, cls);
    Contribution(o.rule, o.keyframes, BucketOf(cls))
  }

  /** The contributions of the used classes, in order. */
  function Contributions(icons: Metadata, styles: Metadata, used: seq<string>): seq<Contribution> {
    Collect(cls => ContributionOf(icons, styles, cls), used)
  }

  // ---------------------------------------------------------------------------
  // Serialisation

  /** The two fixed rules every stylesheet starts with: the font face and
      the icon base rule. */
  const Header: string :=
    "@font-face {font-family: 'IconForge'; src: url('iconforge.woff2') format('woff2'); font-style: normal; font-display: block; }\n"
    + "[class^=\"if-\"], [class*=\" if-\"] { font-family: 'IconForge' !important; display: inline-block; font-style: normal; font-weight: normal; font-variant: normal; text-transform: none; line-height: 1; -webkit-font-smoothing: antialiased; -moz-osx-font-smoothing: grayscale; }\n"

  /** The media queries of the breakpoint buckets, in output order `xs` to `xl`. */
  const MediaQueries: seq<string> :=
    ["@media " + Queries[0], "@media " + Queries[1], "@media " + Queries[2], "@media " + Queries[3], "@media " + Queries[4]]

  /** The stylesheet of the used classes, after `header`. */
  function Stylesheet(header: string, icons: Metadata, styles: Metadata, used: seq<string>,
                      files: seq<Option<string>>): string {
    StylesheetOf(header, MediaQueries, Contributions(icons, styles, used), files)
  }

  // ---------------------------------------------------------------------------
  // Font subsetting

  /** The callback of `subsetWOFF2`: the rule text of the entry searched for
      `content:<spaces>'\<hex>'`; an empty rule text gives nothing. */
  function GlyphFor(e: Entry): Glyph {
    TextGlyph(AnySpaces, e)
  }

  /** No code point of this callback is out of range. */
  lemma GlyphForInRange()
    ensures InRange(GlyphFor)
  {
  }

  /** The prefix-stripped form of each used class (`stripAllPrefixes`). */
  function Bases(used: seq<string>): seq<string> {
    SubsetNames(BaseOf, used)
  }

  /** The base of one class. */
  function BaseOf(token: string): string {
    Parse(token).base
  }

  /** A used class and its variant form strip to the same base, so the
      subset lists the icon's glyph once for each. */
  lemma VariantGlyphRepeats(icons: Metadata, j: nat, cls: string)
    requires j < |VariantTokens|
    ensures Glyphs(GlyphFor, icons, Bases([cls, VariantTokens[j] + cls])) ==
              Glyphs(GlyphFor, icons, [Parse(cls).base]) + Glyphs(GlyphFor, icons, [Parse(cls).base])
  {
    ParseFront(j, cls);
    SameNameTwice(BaseOf, GlyphFor, icons, cls, VariantTokens[j] + cls);
  }

  // ---------------------------------------------------------------------------
  // The build

  /** `buildCSS`, given the safelist, the attribute values found in the
      content and the custom CSS files: the stylesheet and the font plan. */
  method BuildCss(icons: Metadata, styles: Metadata, safelist: seq<string>, values: seq<string>,
                  files: seq<Option<string>>)
    returns (css: string, plan: FontPlan)
    ensures css == Stylesheet(Header, icons, styles, UsedClasses(safelist, values), files)
    ensures plan == SubsetPlan(GlyphFor, icons, Bases(UsedClasses(safelist, values)))
  {
    var used := Scan.CollectUsed(Kept, safelist, values);
    css := WriteStylesheet(Header, icons, styles, used, files);
    var stripped := StripEach(used);
    plan := SubsetPlan(GlyphFor, icons, stripped);
  }

  /** Resolution, aggregation and serialisation of the used classes. */
  method WriteStylesheet(header: string, icons: Metadata, styles: Metadata, used: seq<string>,
                         files: seq<Option<string>>)
    returns (css: string)
    ensures css == Stylesheet(header, icons, styles, used, files)
  {
    css := WriteSheet(header, MediaQueries, cls => ContributionOf(icons, styles, cls), used, files);
  }

  /** `Array.from(usedClasses).map(stripAllPrefixes)`. */
  method StripEach(used: seq<string>) returns (stripped: seq<string>)
    ensures stripped == Bases(used)
  {
    stripped := [];
    for i := 0 to |used|
      invariant stripped == Bases(used[..i])
    {
      var base := StripAllPrefixes(used[i]);
      assert used[..i + 1][..i] == used[..i];
      stripped := stripped + [base];
    }
    assert used[..|used|] == used;
  }

  // ---------------------------------------------------------------------------
  // Small helpers

  /** `wrapMedia`: a rule text inside a media query block. */
  function WrapMedia(css: string, mediaQuery: string): (r: string)
    ensures mediaQuery == "" ==> r == css
    ensures mediaQuery != "" ==> |r| == |mediaQuery| + |css| + 5 && r[..|mediaQuery|] == mediaQuery
                                 && r[|mediaQuery|..|mediaQuery| + 3] == " { "
                                 && r[|mediaQuery| + 3..|r| - 2] == css && r[|r| - 2..] == " }"
  {
    if mediaQuery != "" then mediaQuery + " { " + css + " }" else css
  }
}
