/** The build-time engine of `tools/iconforge-cli.js`: one variant prefix at
    most, a filter on the base, rule resolution in which arbitrary-value
    classes produce nothing, the stylesheet text and the font-subset
    decision. */
module ToolsCli {
  import opened Options
  import opened JsString
  import opened Meta
  import opened Braces
  import opened Selector
  import opened Prefixes
  import opened CodePoint
  import opened Arbitrary
  import opened Sheet
  import opened FontSubset
  import opened Rules
  import Scan

  // ---------------------------------------------------------------------------
  // Selector escaping

  /** The characters `escapeSelector` puts a backslash before: the space,
      the ASCII punctuation of the CSS grammar and the backslash itself. */
  const Specials: set<char> := Punctuation + {'\\'}

  /** One backslash before each special character and nothing else; reading
      it back gives the token. */
  function EscapeSelector(s: string): (r: string)
    ensures |r| == |s| + Count(Specials, s)
    ensures Unescape(Specials, r) == s
  {
    UnescapeEscape(Specials, s);
    Escape(Specials, s)
  }

  // ---------------------------------------------------------------------------
  // Variant prefix

  /** `variantPrefixes`: three pseudo-classes (positions 0-2), `dark:` (3),
      then the keys of `responsiveBreakpoints` (4-7). */
  const VariantPrefixes: seq<string> :=
    ["hover:", "focus:", "active:", "dark:", "sm:", "md:", "lg:", "xl:"]

  /** The pseudo-class each of the first three prefixes adds. */
  const PseudoClasses: seq<string> := [":hover", ":focus", ":active"]

  /** The values of `responsiveBreakpoints`, at positions 4-7 minus 4. */
  const Queries: seq<string> :=
    ["(min-width: 640px)", "(min-width: 768px)", "(min-width: 1024px)", "(min-width: 1280px)"]

  /** The first two characters of each prefix; they are pairwise distinct. */
  const PrefixHeads: seq<string> := ["ho", "fo", "ac", "da", "sm", "md", "lg", "xl"]

  /** What the prefix of a class selects: the base class, the pseudo-class
      text, the dark-mode ancestor and the bucket. */
  datatype Variant = Variant(base: string, variantCss: string, prefix: string, mediaQuery: string)

  /** The eight prefixes are non-empty and none is a prefix of another. */
  lemma PrefixTable()
    ensures |VariantPrefixes| == 8 && NonEmpty(VariantPrefixes) && PrefixFree(VariantPrefixes)
  {
    var heads := PrefixHeads;
    PrefixHeadsOf();
    assert forall i, j :: 0 <= i < j < 8 ==> heads[i] != heads[j];
    PrefixFreeByHeads(VariantPrefixes, heads);
  }

  /** What the prefix at position `i` selects for the base `base`. */
  function VariantAt(i: nat, base: string): Variant
    requires i < 8
  {
    if i < 3 then Variant(base, PseudoClasses[i], "", "default")
    else if i == 3 then Variant(base, "", ".dark ", "default")
    else Variant(base, "", "", "@media " + Queries[i - 4])
  }

  /** The prefix handling of `buildCSS`: the first prefix of the list the
      class starts with (`find`) is sliced off, and only that one. */
  function ParseOne(cls: string): Variant {
    var i := FirstIndex(VariantPrefixes, cls);
    if i == |VariantPrefixes| then Variant(cls, "", "", "default")
    else VariantAt(i, cls[|VariantPrefixes[i]|..])
  }

  /** A class that starts with the prefix at position `j` is read with that
      prefix, and the rest of the class is its base. */
  lemma ParseOneFront(j: nat, rest: string)
    requires j < |VariantPrefixes|
    ensures ParseOne(VariantPrefixes[j] + rest) == VariantAt(j, rest)
    ensures ParseOne(VariantPrefixes[j] + rest).base == rest
  {
    PrefixTable();
    var t := VariantPrefixes[j];
    OnlyCandidate(VariantPrefixes, t + rest, j);
    assert (t + rest)[|t|..] == rest;
  }

  /** A class with no prefix is its own base, in the default bucket, with
      no pseudo-class and no dark ancestor. */
  lemma ParseOneClean(cls: string)
    requires forall j :: 0 <= j < |VariantPrefixes| ==> !(VariantPrefixes[j] <= cls)
    ensures ParseOne(cls) == Variant(cls, "", "", "default")
  {
  }

  /** Only one prefix is stripped: after a second prefix the base still
      starts with it. */
  lemma OnlyOneStripped(i: nat, j: nat, rest: string)
    requires i < |VariantPrefixes| && j < |VariantPrefixes|
    ensures ParseOne(VariantPrefixes[i] + (VariantPrefixes[j] + rest)).base == VariantPrefixes[j] + rest
  {
    ParseOneFront(i, VariantPrefixes[j] + rest);
  }

  // ---------------------------------------------------------------------------
  // The class filter

  /** A token is kept when its base starts with `if-` or `is-`. */
  predicate Kept(cls: string) {
    var b := ParseOne(cls).base;
    "if-" <= b || "is-" <= b
  }

  /** `usedClasses`: the kept tokens of the attribute values, each once, in
      order of first occurrence; there is no safelist. */
  function UsedClasses(values: seq<string>): seq<string> {
    Scan.UsedClasses(Kept, [], values)
  }

  /** A class is used exactly when some attribute value holds it and its
      base starts with `if-` or `is-`; none is listed twice. */
  lemma UsedClassesMeans(values: seq<string>, x: string)
    ensures OrderedSet.NoDup(UsedClasses(values))
    ensures x in UsedClasses(values) <==>
              ("if-" <= ParseOne(x).base || "is-" <= ParseOne(x).base) &&
              exists i :: 0 <= i < |values| && x in SplitSpaceRuns(values[i])
  {
    Scan.UsedClassesMeans(Kept, [], values, x);
  }

  /** Each prefix starts with its two-letter head, and no head is `if` or `is`. */
  lemma PrefixHeadsOf()
    ensures |VariantPrefixes| == 8
    ensures forall i :: 0 <= i < 8 ==> |VariantPrefixes[i]| >= 2 && VariantPrefixes[i][..2] == PrefixHeads[i]
    ensures forall i :: 0 <= i < 8 ==> PrefixHeads[i] != "if" && PrefixHeads[i] != "is"
  {
  }

  /** Stacked prefixes lose the class: `dark:hover:if-x` has the base
      `hover:if-x`, which the filter drops. */
  lemma StackedDropped(i: nat, j: nat, rest: string)
    requires i < |VariantPrefixes| && j < |VariantPrefixes|
    ensures !Kept(VariantPrefixes[i] + (VariantPrefixes[j] + rest))
  {
    OnlyOneStripped(i, j, rest);
    PrefixHeadsOf();
    var b := VariantPrefixes[j] + rest;
    assert b[..2] == VariantPrefixes[j][..2] == PrefixHeads[j];
    assert [b[0], b[1]] == b[..2];
    HeadsDiffer("if-", b);
    HeadsDiffer("is-", b);
  }

  // ---------------------------------------------------------------------------
  // Rule resolution

  /** What one used class contributes: a rule, and keyframes to add. */
  datatype Outcome = Outcome(rule: Option<string>, keyframes: Option<string>)

  /** The arbitrary-value branch first (it never yields a rule: the `switch`
      assigns another variable than the one the rule is built from), then
      the style entry of the base, then its icon entry. */
  function BodyOf(icons: Metadata, styles: Metadata, base: string): Body {
    if Match(RuntimeKeywords, base).Some? then NoRule
    else if Has(styles, base) then
      var props := Declarations(StyleSource(styles[base]));
      if props != "" then Plain(props) else NoRule
    else if Has(icons, base) then
      var full := IconText(icons[base]);
      if full != "" && FirstBody(full).Some? then Before(Trim(FirstBody(full).value)) else NoRule
    else NoRule
  }

  /** The keyframes text a base contributes: only an object-form style
      entry reached by the style path has one. */
  function NewKeyframes(styles: Metadata, base: string): Option<string> {
    if Match(RuntimeKeywords, base).None? && Has(styles, base) && styles[base].Record? && styles[base].keyframes != ""
    then Some(styles[base].keyframes)
    else None
  }

  /** `${prefix}.${escapeSelector(cls)}`. */
  function SelectorFor(v: Variant, cls: string): string {
    v.prefix + "." + EscapeSelector(cls)
  }

  /** One iteration of the resolution loop of `buildCSS`. */
  function Resolve(icons: Metadata, styles: Metadata, cls: string): Outcome {
    var v := ParseOne(cls);
    Outcome(RuleOf(SelectorFor(v, cls), v.variantCss, BodyOf(icons, styles, v.base)), NewKeyframes(styles, v.base))
  }

  /** An arbitrary-value base gives neither a rule nor keyframes, whatever
      the metadata holds for it. */
  lemma ArbitraryNoRule(icons: Metadata, styles: Metadata, cls: string, k: Keyword, v: string)
    requires k in RuntimeKeywords && ValueOk(v)
    requires ParseOne(cls).base == Opening(Name(k)) + v + "]"
    ensures Resolve(icons, styles, cls) == Outcome(None, None)
  {
    MatchComplete(RuntimeKeywords, k, v);
  }

  /** A style entry gives a plain rule from its declarations (the trimmed
      brace body, or the whole source without one), unless they are empty. */
  lemma StyleRule(icons: Metadata, styles: Metadata, cls: string)
    requires var b := ParseOne(cls).base; Match(RuntimeKeywords, b).None? && Has(styles, b)
    ensures var v := ParseOne(cls);
            var props := Declarations(StyleSource(styles[v.base]));
            Resolve(icons, styles, cls).rule ==
              if props == "" then None else Some(v.prefix + "." + EscapeSelector(cls) + v.variantCss + " { " + props + " }")
  {
  }

  /** An icon entry, reached only when the base has no style entry, gives a
      rule on `:before` followed by the pseudo-class, from its trimmed brace
      body, and nothing without one. */
  lemma IconRule(icons: Metadata, styles: Metadata, cls: string)
    requires var b := ParseOne(cls).base; Match(RuntimeKeywords, b).None? && !Has(styles, b) && Has(icons, b)
    ensures var v := ParseOne(cls);
            var body := FirstBody(IconText(icons[v.base]));
            Resolve(icons, styles, cls) ==
              Outcome(if body.None? then None
                      else Some(v.prefix + "." + EscapeSelector(cls) + ":before" + v.variantCss + " { " + Trim(body.value) + " }"),
                      None)
  {
    if IconText(icons[ParseOne(cls).base]) == "" {
      NoBraceNoBody("");
    }
  }

  /** With a pseudo-class prefix, the icon rule reads `.<cls>:before:hover`. */
  lemma IconPseudoOrder(icons: Metadata, styles: Metadata, j: nat, base: string, body: string)
    requires j < 3
    requires Match(RuntimeKeywords, base).None? && !Has(styles, base) && Has(icons, base)
    requires FirstBody(IconText(icons[base])) == Some(body)
    ensures Resolve(icons, styles, VariantPrefixes[j] + base).rule ==
              Some("." + EscapeSelector(VariantPrefixes[j] + base) + ":before" + PseudoClasses[j] + " { " + Trim(body) + " }")
  {
    var cls := VariantPrefixes[j] + base;
    ParseOneFront(j, base);
    var v := ParseOne(cls);
    assert v == Variant(base, PseudoClasses[j], "", "default");
    assert BodyOf(icons, styles, base) == Before(Trim(body));
    assert SelectorFor(v, cls) == "" + "." + EscapeSelector(cls);
    assert "" + "." == ".";
  }

  /** A class matching none of the three paths gives nothing. */
  lemma ResolveNothing(icons: Metadata, styles: Metadata, cls: string)
    requires var b := ParseOne(cls).base; !Has(styles, b) && !Has(icons, b)
    ensures Resolve(icons, styles, cls) == Outcome(None, None)
  {
  }

  /** Every rule starts with the selector of the class. */
  lemma ResolveSelector(icons: Metadata, styles: Metadata, cls: string)
    ensures var o := Resolve(icons, styles, cls);
            o.rule.Some? ==> SelectorFor(ParseOne(cls), cls) <= o.rule.value
  {
    var v := ParseOne(cls);
    RuleStartsWithSelector(SelectorFor(v, cls), v.variantCss, BodyOf(icons, styles, v.base));
  }

  // ---------------------------------------------------------------------------
  // Aggregation and serialisation

  /** What one used class adds: its rule, its keyframes and its bucket. */
  function ContributionOf(icons: Metadata, styles: Metadata, cls: string): Contribution {
    var o := Resolve(icons, styles, cls);
    Contribution(o.rule, o.keyframes, ParseOne(cls).mediaQuery)
  }

  /** The bucket of a class is `default` or one of the four breakpoint queries. */
  lemma BucketKnown(icons: Metadata, styles: Metadata, cls: string)
    ensures var b := ContributionOf(icons, styles, cls).bucket;
            b == "default" || b in MediaQueries
  {
    var i := FirstIndex(VariantPrefixes, cls);
    if 4 <= i < 8 {
      assert MediaQueries[i - 4] == "@media " + Queries[i - 4];
    }
  }

  /** The fixed text every stylesheet starts with: the font face and the
      icon base rule, with no line break between them. */
  const Header: string :=
    "@font-face {font-family: 'IconForge'; src: url('iconforge.woff2') format('woff2'); font-style: normal; font-display: block; }"
    + "[class^=\"if-\"], [class*=\" if-\"] { font-family: 'IconForge' !important; display: inline-block; font-style: normal; font-weight: normal; font-variant: normal; text-transform: none; line-height: 1; -webkit-font-smoothing: antialiased; -moz-osx-font-smoothing: grayscale; }\n"

  /** The media queries of the breakpoint buckets, in output order `sm` to `xl`. */
  const MediaQueries: seq<string> :=
    ["@media " + Queries[0], "@media " + Queries[1], "@media " + Queries[2], "@media " + Queries[3]]

  /** The stylesheet of the used classes, after `header`. */
  function Stylesheet(header: string, icons: Metadata, styles: Metadata, used: seq<string>,
                      files: seq<Option<string>>): string {
    StylesheetOf(header, MediaQueries, Collect(cls => ContributionOf(icons, styles, cls), used), files)
  }

  // ---------------------------------------------------------------------------
  // Font subsetting

  /** The callback of `subsetWOFF2`: the rule text of the entry searched for
      `content: '\<hex>'` with exactly one space; an empty rule text gives
      nothing. */
  function GlyphFor(e: Entry): Glyph {
    TextGlyph(OneSpace, e)
  }

  /** The list handed to `subsetWOFF2`: each used class with the first
      matching prefix removed (`replace(/^(hover:|…|xl:)/, '')`, whose
      alternatives are tried in the order of `variantPrefixes`). */
  function Bases(used: seq<string>): seq<string> {
    SubsetNames(BaseOf, used)
  }

  /** The base of one class. */
  function BaseOf(token: string): string {
    ParseOne(token).base
  }

  /** An icon class written with a prefix is looked up under its base. */
  lemma VariantSubset(icons: Metadata, j: nat, base: string)
    requires j < |VariantPrefixes|
    ensures Glyphs(GlyphFor, icons, Bases([VariantPrefixes[j] + base])) == Glyphs(GlyphFor, icons, [base])
  {
    ParseOneFront(j, base);
    SubsetNamesMeans(BaseOf, [VariantPrefixes[j] + base]);
    assert Bases([VariantPrefixes[j] + base]) == [base];
  }

  // ---------------------------------------------------------------------------
  // The build

  /** `buildCSS`, given the attribute values found in the content and the
      custom CSS files: the stylesheet and the font plan. */
  method BuildCss(icons: Metadata, styles: Metadata, values: seq<string>, files: seq<Option<string>>)
    returns (css: string, plan: FontPlan)
    ensures css == Stylesheet(Header, icons, styles, UsedClasses(values), files)
    ensures plan == SubsetPlan(GlyphFor, icons, Bases(UsedClasses(values)))
  {
    var used := Scan.CollectUsed(Kept, [], values);
    css := WriteStylesheet(Header, icons, styles, used, files);
    var stripped := StripEach(used);
    plan := SubsetPlan(GlyphFor, icons, stripped);
  }

  /** The resolution loop and the string building of `buildCSS`. */
  method WriteStylesheet(header: string, icons: Metadata, styles: Metadata, used: seq<string>,
                         files: seq<Option<string>>)
    returns (css: string)
    ensures css == Stylesheet(header, icons, styles, used, files)
  {
    css := WriteSheet(header, MediaQueries, cls => ContributionOf(icons, styles, cls), used, files);
  }

  /** The `map` that strips the prefix from each used class. */
  method StripEach(used: seq<string>) returns (stripped: seq<string>)
    ensures stripped == Bases(used)
  {
    stripped := [];
    for i := 0 to |used|
      invariant stripped == Bases(used[..i])
    {
      assert used[..i + 1][..i] == used[..i];
      stripped := stripped + [ParseOne(used[i]).base];
    }
    assert used[..|used|] == used;
  }
}
