/** The browser runtime of `iconforge-jit.js`: the same two sets and
    append-once passes as `iconforge.js`, with each entry followed by a
    line break, the whole document rescanned on every run, and the
    metadata fetched only while either document is still empty. */
module JitRuntime {
  import opened Options
  import opened OrderedSet
  import opened Meta
  import opened Preamble
  import opened LiveSheet

  /** `FONT_URL`: the font on the CDN, at its latest version. */
  const FontUrl: string := "https://cdn.jsdelivr.net/gh/DanKaufmanDev/IconForge@latest/iconforge.woff2"

  /** The text `injectFontFace` gives its own style element: an indented,
      multi-line `@font-face` rule. */
  const FontFaceText: string :=
    "\n      @font-face {\n        font-family: '" + FontName + "';\n        src: url('" + FontUrl
      + "') format('woff2');\n        font-display: block;\n      }\n    "

  /** The page state the script keeps. */
  class Page {
    var usedIf: seq<string>
    var usedIs: seq<string>
    var injected: set<string>
    /** The classes whose text has been appended, in order. */
    ghost var log: seq<string>
    /** The text of the style element the passes append to. */
    var text: string
    /** The texts of the style elements `injectFontFace` has added. */
    var fontTexts: seq<string>
    var icons: Metadata
    var styles: Metadata

    ghost predicate Valid()
      reads this
    {
      Consistent(Used(usedIf, usedIs), injected, log)
    }

    /** The page as the script starts on it: an empty style element and
        empty metadata. */
    constructor()
      ensures Valid() && usedIf == [] && usedIs == [] && injected == {} && log == []
      ensures text == "" && fontTexts == [] && icons == map[] && styles == map[]
    {
      usedIf, usedIs := [], [];
      injected, log := {}, [];
      text, fontTexts := "", [];
      icons, styles := map[], map[];
    }

    /** `injectFontFace`: one more style element holding the font rule. */
    method InjectFontFace()
      modifies this`fontTexts
      ensures fontTexts == old(fontTexts) + [FontFaceText]
    {
      fontTexts := fontTexts + [FontFaceText];
    }

    /** `scanDOM`: the tokens of every element with a `class` attribute,
        in document order. */
    method ScanDom(elements: seq<seq<string>>)
      requires Valid()
      modifies this`usedIf, this`usedIs
      ensures Valid()
      ensures Used(usedIf, usedIs) == Scanned(old(Used(usedIf, usedIs)), Flatten(elements))
    {
      ScanKeeps(Used(usedIf, usedIs), injected, log, Flatten(elements));
      var u := ScanElements(Used(usedIf, usedIs), elements);
      usedIf, usedIs := u.ifs, u.iss;
    }

    /** `injectStyles`: the icon text of every fresh `usedIf` class, then
        the style text of every fresh `usedIs` class, each followed by a
        line break, appended in one go; the classes are marked injected. */
    method InjectStyles()
      requires Valid()
      modifies this`injected, this`log, this`text
      ensures Valid()
      ensures text == old(text) + Pass(icons, usedIf, old(injected), "\n") + Pass(styles, usedIs, old(injected), "\n")
      ensures log == old(log) + Fresh(icons, usedIf, old(injected)) + Fresh(styles, usedIs, old(injected))
      ensures Pass(icons, usedIf, injected, "\n") + Pass(styles, usedIs, injected, "\n") == ""
    {
      var css, marked, logged := Inject(icons, styles, Used(usedIf, usedIs), injected, log, "\n");
      AppendAssoc(text, Pass(icons, usedIf, injected, "\n"), Pass(styles, usedIs, injected, "\n"));
      if css != "" {
        text := text + css;
      } else {
        assert text + css == text;
      }
      injected, log := marked, logged;
    }

    /** `run`: the metadata fetched when either document has no key (a
        failed fetch, `None`, rejects the promise there), then the whole
        document scanned and one pass. */
    method Run(fetched: Option<(Metadata, Metadata)>, elements: seq<seq<string>>)
      requires Valid()
      modifies this`usedIf, this`usedIs, this`injected, this`log, this`text, this`icons, this`styles
      ensures Valid()
      ensures old(icons) != map[] && old(styles) != map[] ==> icons == old(icons) && styles == old(styles)
      ensures (old(icons) == map[] || old(styles) == map[]) && fetched.Some? ==>
                icons == fetched.value.0 && styles == fetched.value.1
      ensures !Proceeds(old(icons), old(styles), fetched) ==>
                && icons == old(icons) && styles == old(styles)
                && Used(usedIf, usedIs) == old(Used(usedIf, usedIs))
                && injected == old(injected) && log == old(log) && text == old(text)
      ensures Proceeds(old(icons), old(styles), fetched) ==>
                && Used(usedIf, usedIs) == Scanned(old(Used(usedIf, usedIs)), Flatten(elements))
                && text == old(text) + Pass(icons, usedIf, old(injected), "\n") + Pass(styles, usedIs, old(injected), "\n")
                && log == old(log) + Fresh(icons, usedIf, old(injected)) + Fresh(styles, usedIs, old(injected))
                && Pass(icons, usedIf, injected, "\n") + Pass(styles, usedIs, injected, "\n") == ""
      ensures old(text) <= text
    {
      if icons == map[] || styles == map[] {
        if fetched.None? {
          return;
        }
        icons, styles := fetched.value.0, fetched.value.1;
      }
      ScanDom(elements);
      InjectStyles();
    }

    /** Start-up once the document is ready: `preloadFont` (a link element,
        not modelled), `injectFontFace`, `run`. */
    method Start(fetched: Option<(Metadata, Metadata)>, elements: seq<seq<string>>)
      requires Valid()
      modifies this`usedIf, this`usedIs, this`injected, this`log, this`text, this`icons, this`styles, this`fontTexts
      ensures Valid()
      ensures fontTexts == old(fontTexts) + [FontFaceText]
      ensures old(icons) != map[] && old(styles) != map[] ==> icons == old(icons) && styles == old(styles)
      ensures (old(icons) == map[] || old(styles) == map[]) && fetched.Some? ==>
                icons == fetched.value.0 && styles == fetched.value.1
      ensures !Proceeds(old(icons), old(styles), fetched) ==>
                && icons == old(icons) && styles == old(styles)
                && Used(usedIf, usedIs) == old(Used(usedIf, usedIs))
                && injected == old(injected) && log == old(log) && text == old(text)
      ensures Proceeds(old(icons), old(styles), fetched) ==>
                && Used(usedIf, usedIs) == Scanned(old(Used(usedIf, usedIs)), Flatten(elements))
                && text == old(text) + Pass(icons, usedIf, old(injected), "\n") + Pass(styles, usedIs, old(injected), "\n")
                && log == old(log) + Fresh(icons, usedIf, old(injected)) + Fresh(styles, usedIs, old(injected))
                && Pass(icons, usedIf, injected, "\n") + Pass(styles, usedIs, injected, "\n") == ""
      ensures old(text) <= text
    {
      InjectFontFace();
      Run(fetched, elements);
    }
  }

  /** Whether `run` gets past the fetch: the metadata is already there, or
      the fetch succeeds. */
  predicate Proceeds(icons: Metadata, styles: Metadata, fetched: Option<(Metadata, Metadata)>) {
    (icons != map[] && styles != map[]) || fetched.Some?
  }

  /** A second run over the same document with the same fetch result finds
      no new class and no new entry, so it leaves the text as the first run
      left it. */
  method RunTwice(page: Page, fetched: Option<(Metadata, Metadata)>, elements: seq<seq<string>>)
    returns (first: string, second: string)
    requires page.Valid()
    modifies page`usedIf, page`usedIs, page`injected, page`log, page`text, page`icons, page`styles
    ensures page.Valid()
    ensures second == first
  {
    ghost var u0 := Used(page.usedIf, page.usedIs);
    page.Run(fetched, elements);
    first := page.text;
    if Proceeds(page.icons, page.styles, fetched) {
      ScannedTwice(u0, Flatten(elements));
    }
    page.Run(fetched, elements);
    second := page.text;
  }
}
