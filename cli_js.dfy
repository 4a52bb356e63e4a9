/** The build-time engine of `bin/iconforge-cli.js`: a literal prefix filter,
    the metadata entries of each used class copied out verbatim, and the
    font-subset decision. This copy knows no variants, no arbitrary values
    and no media queries. */
module CliJs {
  import opened Options
  import opened JsString
  import opened OrderedSet
  import opened Meta
  import opened CodePoint
  import opened Sheet
  import opened FontSubset
  import Scan

  // ---------------------------------------------------------------------------
  // The class filter

  /** A token is kept when it starts with `if-` or `is-`. */
  predicate Kept(cls: string) {
    "if-" <= cls || "is-" <= cls
  }

  /** `usedClasses`: the kept tokens of the attribute values, each once, in
      order of first occurrence. */
  function UsedClasses(values: seq<string>): seq<string> {
    Scan.UsedClasses(Kept, [], values)
  }

  /** A class is used exactly when some attribute value holds it and it
      starts with `if-` or `is-`; none is listed twice. */
  lemma UsedClassesMeans(values: seq<string>, x: string)
    ensures NoDup(UsedClasses(values))
    ensures x in UsedClasses(values) <==>
              ("if-" <= x || "is-" <= x) && exists i :: 0 <= i < |values| && x in SplitSpaceRuns(values[i])
  {
    Scan.UsedClassesMeans(Kept, [], values, x);
  }

  // ---------------------------------------------------------------------------
  // The main output

  /** What the icon entry of a class adds: its text (an object reads as
      `[object Object]`) and a line break, when the entry is truthy. */
  function IconPart(icons: Metadata, cls: string): string {
    if Has(icons, cls) then Coerce(icons[cls]) + "\n" else ""
  }

  /** What the style entry of a class adds: an object's `class` text when
      it is truthy, a string's text, each with a line break. */
  function StylePart(styles: Metadata, cls: string): string {
    if !Has(styles, cls) then ""
    else match styles[cls]
      case Text(t) => t + "\n"
      case Record(c, _, _) => if c != "" then c + "\n" else ""
  }

  /** The keyframes an object-form style entry with a truthy `class` adds. */
  function StyleKeyframes(styles: Metadata, cls: string): Option<string> {
    if Has(styles, cls) && styles[cls].Record? && styles[cls].cls != "" && styles[cls].keyframes != ""
    then Some(styles[cls].keyframes)
    else None
  }

  /** The text one used class adds to `mainOutput`: icon first, then style. */
  function Piece(icons: Metadata, styles: Metadata, cls: string): string {
    IconPart(icons, cls) + StylePart(styles, cls)
  }

  /** `mainOutput` for the used classes, in order. */
  function MainText(icons: Metadata, styles: Metadata, used: seq<string>): string {
    if used == [] then ""
    else
      var init, last := used[..|used| - 1], used[|used| - 1];
      MainText(icons, styles, init) + Piece(icons, styles, last)
  }

  /** The keyframes found for the used classes, in order, repeats included. */
  function KeyframesFound(styles: Metadata, used: seq<string>): seq<string> {
    if used == [] then []
    else
      var init, last := used[..|used| - 1], used[|used| - 1];
      KeyframesFound(styles, init) + (match StyleKeyframes(styles, last) case Some(k) => [k] case None => [])
  }

  /** A class adds text exactly when it has a truthy icon entry, a string
      style entry or an object style entry with a truthy `class`. */
  lemma PieceEmpty(icons: Metadata, styles: Metadata, cls: string)
    ensures Piece(icons, styles, cls) == "" <==>
              !Has(icons, cls) && (!Has(styles, cls) || (styles[cls].Record? && styles[cls].cls == ""))
  {
    if Has(icons, cls) {
      assert |IconPart(icons, cls)| > 0;
    }
    if Has(styles, cls) && (styles[cls].Text? || styles[cls].cls != "") {
      assert |StylePart(styles, cls)| > 0;
    }
  }

  /** A class with both an icon entry and a string style entry adds the
      icon text, then the style text. */
  lemma IconThenStyle(icons: Metadata, styles: Metadata, cls: string, i: string, s: string)
    requires cls in icons && icons[cls] == Text(i) && i != ""
    requires cls in styles && styles[cls] == Text(s) && s != ""
    ensures Piece(icons, styles, cls) == i + "\n" + s + "\n"
  {
    AppendAssoc(i + "\n", s, "\n");
  }

  /** The main text of a concatenation is the concatenation of the main texts. */
  lemma {:induction false} MainTextAppend(icons: Metadata, styles: Metadata, a: seq<string>, b: seq<string>)
    ensures MainText(icons, styles, a + b) == MainText(icons, styles, a) + MainText(icons, styles, b)
    decreases |b|
  {
    if b == [] {
      assert a + b == a;
    } else {
      var init, last := b[..|b| - 1], b[|b| - 1];
      assert (a + b)[..|a + b| - 1] == a + init;
      MainTextAppend(icons, styles, a, init);
      AppendAssoc(MainText(icons, styles, a), MainText(icons, styles, init), Piece(icons, styles, last));
    }
  }

  /** The classes' texts appear in the order of the used classes: the text
      of the classes before position `k`, then that of class `k`, start the
      main output. */
  lemma MainTextOrder(icons: Metadata, styles: Metadata, used: seq<string>, k: nat)
    requires k < |used|
    ensures MainText(icons, styles, used[..k]) + Piece(icons, styles, used[k]) <= MainText(icons, styles, used)
  {
    var front, back := used[..k + 1], used[k + 1..];
    assert MainText(icons, styles, front) == MainText(icons, styles, used[..k]) + Piece(icons, styles, used[k]) by {
      assert front[..k] == used[..k] && front[k] == used[k];
    }
    assert MainText(icons, styles, used) == MainText(icons, styles, front) + MainText(icons, styles, back) by {
      assert front + back == used;
      MainTextAppend(icons, styles, front, back);
    }
    PrefixOfAppend(MainText(icons, styles, front), MainText(icons, styles, back));
  }

  /** A keyframes text is found exactly when some used class's style entry
      carries it. */
  lemma {:induction false} KeyframesFoundMeans(styles: Metadata, used: seq<string>, x: string)
    ensures x in KeyframesFound(styles, used) <==>
              exists k :: 0 <= k < |used| && StyleKeyframes(styles, used[k]) == Some(x)
  {
    if used != [] {
      var init, last := used[..|used| - 1], used[|used| - 1];
      KeyframesFoundMeans(styles, init, x);
      if exists k :: 0 <= k < |used| && StyleKeyframes(styles, used[k]) == Some(x) {
        var k :| 0 <= k < |used| && StyleKeyframes(styles, used[k]) == Some(x);
        if k < |init| {
          assert used[k] == init[k];
        }
      }
      if exists k :: 0 <= k < |init| && StyleKeyframes(styles, init[k]) == Some(x) {
        var k :| 0 <= k < |init| && StyleKeyframes(styles, init[k]) == Some(x);
        assert init[k] == used[k];
      }
    }
  }

  /** The resolution loop of `buildCSS`: the main output and the keyframes set. */
  method Resolve(icons: Metadata, styles: Metadata, used: seq<string>)
    returns (main: string, keyframes: seq<string>)
    ensures main == MainText(icons, styles, used)
    ensures keyframes == Dedup(KeyframesFound(styles, used))
  {
    main := "";
    keyframes := [];
    for i := 0 to |used|
      invariant main == MainText(icons, styles, used[..i])
      invariant keyframes == Dedup(KeyframesFound(styles, used[..i]))
    {
      var add, kf := ResolveClass(icons, styles, used[i]);
      ResolveStep(icons, styles, used, i);
      main := main + add;
      if kf.Some? {
        DedupSnoc(KeyframesFound(styles, used[..i]), kf.value);
        keyframes := Add(keyframes, kf.value);
      } else {
        assert KeyframesFound(styles, used[..i]) + [] == KeyframesFound(styles, used[..i]);
      }
    }
    assert used[..|used|] == used;
  }

  /** One iteration: the text the class adds and the keyframes it finds. */
  method ResolveClass(icons: Metadata, styles: Metadata, cls: string) returns (add: string, kf: Option<string>)
    ensures add == Piece(icons, styles, cls)
    ensures kf == StyleKeyframes(styles, cls)
  {
    add := "";
    kf := None;
    if Has(icons, cls) {
      add := Coerce(icons[cls]) + "\n";
    }
    if Has(styles, cls) {
      match styles[cls] {
        case Record(c, k, _) =>
          if c != "" {
            if k != "" {
              kf := Some(k);
            }
            add := add + (c + "\n");
          }
        case Text(t) =>
          add := add + (t + "\n");
      }
    }
  }

  lemma ResolveStep(icons: Metadata, styles: Metadata, used: seq<string>, i: nat)
    requires i < |used|
    ensures MainText(icons, styles, used[..i + 1]) == MainText(icons, styles, used[..i]) + Piece(icons, styles, used[i])
    ensures KeyframesFound(styles, used[..i + 1]) ==
              KeyframesFound(styles, used[..i]) + (match StyleKeyframes(styles, used[i]) case Some(k) => [k] case None => [])
  {
    assert used[..i + 1][..i] == used[..i];
  }

  // ---------------------------------------------------------------------------
  // Serialisation

  /** The fixed text every stylesheet starts with: the font face and the
      icon base rule, without spaces after the semicolons. */
  const Header: string :=
    "@font-face {font-family: 'IconForge';src: url('iconforge.woff2') format('woff2');font-style: normal;font-display: block;}"
    + "[class^=\"if-\"], [class*=\" if-\"] {font-family: 'IconForge' !important;font-style: normal;font-weight: normal;font-variant: normal;text-transform: none;line-height: 1;-webkit-font-smoothing: antialiased;-moz-osx-font-smoothing: grayscale;}\n"

  /** The stylesheet after `header`: the keyframes, one per line, then the
      main output, then the custom files. */
  function Stylesheet(header: string, icons: Metadata, styles: Metadata, used: seq<string>,
                      files: seq<Option<string>>): string {
    header + Join(Dedup(KeyframesFound(styles, used)), "\n") + "\n" + MainText(icons, styles, used) + CustomText(files)
  }

  /** Every keyframes text precedes every rule: the stylesheet starts with
      the header and the keyframes, and the main output follows them. */
  lemma KeyframesFirst(header: string, icons: Metadata, styles: Metadata, used: seq<string>,
                       files: seq<Option<string>>)
    ensures var front := header + Join(Dedup(KeyframesFound(styles, used)), "\n") + "\n";
            front + MainText(icons, styles, used) <= Stylesheet(header, icons, styles, used, files)
  {
    var front := header + Join(Dedup(KeyframesFound(styles, used)), "\n") + "\n";
    PrefixOfAppend(front + MainText(icons, styles, used), CustomText(files));
  }

  // ---------------------------------------------------------------------------
  // Font subsetting

  /** The callback of `subsetWOFF2`: a string entry is searched for
      `content: '\<hex>'` with exactly one space; an object entry has no
      `match` method, so the call throws. */
  function GlyphFor(e: Entry): Glyph {
    match e
    case Text(t) => GlyphOf(t, OneSpace)
    case Record(_, _, _) => Throws
  }

  /** One `if-` class whose icon entry is an object makes the whole font be
      copied. */
  lemma ObjectIconCopiesFont(icons: Metadata, classes: seq<string>, k: nat)
    requires k < |classes| && "if-" <= classes[k] && classes[k] in icons && icons[classes[k]].Record?
    ensures SubsetPlan(GlyphFor, icons, classes) == CopyFullFont
  {
    SubsetPlanMeans(GlyphFor, icons, classes, 0);
  }

  // ---------------------------------------------------------------------------
  // The build

  /** `buildCSS`, given the attribute values found in the content and the
      custom CSS files: the stylesheet and the font plan of the used classes,
      unstripped. */
  method BuildCss(icons: Metadata, styles: Metadata, values: seq<string>, files: seq<Option<string>>)
    returns (css: string, plan: FontPlan)
    ensures css == Stylesheet(Header, icons, styles, UsedClasses(values), files)
    ensures plan == SubsetPlan(GlyphFor, icons, UsedClasses(values))
  {
    var used := Scan.CollectUsed(Kept, [], values);
    css := WriteStylesheet(Header, icons, styles, used, files);
    plan := SubsetPlan(GlyphFor, icons, used);
  }

  /** The resolution loop, then the string building. */
  method WriteStylesheet(header: string, icons: Metadata, styles: Metadata, used: seq<string>,
                         files: seq<Option<string>>)
    returns (css: string)
    ensures css == Stylesheet(header, icons, styles, used, files)
  {
    var main, keyframes := Resolve(icons, styles, used);
    css := header + Join(keyframes, "\n") + "\n";
    css := css + main;
    css := AppendCustom(css, files);
  }
}
