/** The browser runtime of `iconforge.js`: the used classes are filed into
    two sets by their prefix, and each pass appends to one style element
    the metadata text of every used class not injected yet. */
module Runtime {
  import opened Options
  import opened OrderedSet
  import opened Meta
  import opened Preamble
  import opened LiveSheet

  /** `FONT_URL`: the font on the CDN, pinned to one commit. */
  const FontUrl: string := "https://cdn.jsdelivr.net/gh/DanKaufmanDev/IconForge@4b44755/iconforge.woff2"

  /** `injectFontFace` sets the banner (with a trailing space) and the
      `@font-face` rule; `injectClass` appends the base rule. */
  const InitialText: string := Banner + " \n" + FontFace(FontUrl) + BaseClassRule

  /** A DOM node as `scanNode` sees it: not an element, or an element with
      or without a `class` attribute and the token lists of its descendants
      that have one, in document order. */
  datatype Node = NonElement | Element(own: Option<seq<string>>, descendants: seq<seq<string>>)

  /** The two kinds of mutation the observer listens to. */
  datatype Mutation = ChildList(added: seq<Node>) | ClassChanged(target: Node)

  /** The tokens `scanNode` looks at, in order. */
  function NodeTokens(node: Node): seq<string> {
    match node
    case NonElement => []
    case Element(own, descendants) =>
      (if own.Some? then own.value else []) + Flatten(descendants)
  }

  /** The tokens of a list of nodes, one after another. */
  function NodesTokens(nodes: seq<Node>): seq<string> {
    if nodes == [] then [] else NodesTokens(nodes[..|nodes| - 1]) + NodeTokens(nodes[|nodes| - 1])
  }

  /** The tokens one observer callback scans: the added nodes of a child
      list mutation, the target of a class mutation. */
  function MutationsTokens(mutations: seq<Mutation>): seq<string> {
    if mutations == [] then []
    else
      var m := mutations[|mutations| - 1];
      MutationsTokens(mutations[..|mutations| - 1])
        + (match m case ChildList(added) => NodesTokens(added) case ClassChanged(target) => NodeTokens(target))
  }

  /** The page state the script keeps. */
  class Page {
    var usedIf: seq<string>
    var usedIs: seq<string>
    var injected: set<string>
    /** The classes whose text has been appended, in order. */
    ghost var log: seq<string>
    /** The text of the script's style element. */
    var text: string
    var icons: Metadata
    var styles: Metadata

    ghost predicate Valid()
      reads this
    {
      Consistent(Used(usedIf, usedIs), injected, log)
    }

    /** The page once `injectFontFace` and `injectClass` have run. */
    constructor()
      ensures Valid() && usedIf == [] && usedIs == [] && injected == {} && log == []
      ensures text == InitialText && icons == map[] && styles == map[]
    {
      usedIf, usedIs := [], [];
      injected, log := {}, [];
      text := InitialText;
      icons, styles := map[], map[];
    }

    /** `scanNode`: nothing for a node that is not an element; otherwise the
        element's own tokens when it has a `class` attribute, then those of
        every descendant that has one. */
    method ScanNode(node: Node)
      requires Valid()
      modifies this`usedIf, this`usedIs
      ensures Valid()
      ensures Used(usedIf, usedIs) == Scanned(old(Used(usedIf, usedIs)), NodeTokens(node))
    {
      ghost var u0 := Used(usedIf, usedIs);
      ScanKeeps(u0, injected, log, NodeTokens(node));
      if node.NonElement? {
        return;
      }
      var u := Used(usedIf, usedIs);
      var own := if node.own.Some? then node.own.value else [];
      if node.own.Some? {
        u := ScanTokens(u, node.own.value);
      }
      u := ScanElements(u, node.descendants);
      ScannedAppend(u0, own, Flatten(node.descendants));
      usedIf, usedIs := u.ifs, u.iss;
    }

    /** `forEach(scanNode)` over a list of nodes. */
    method ScanNodes(nodes: seq<Node>)
      requires Valid()
      modifies this`usedIf, this`usedIs
      ensures Valid()
      ensures Used(usedIf, usedIs) == Scanned(old(Used(usedIf, usedIs)), NodesTokens(nodes))
    {
      ghost var u0 := Used(usedIf, usedIs);
      for k := 0 to |nodes|
        invariant Valid()
        invariant Used(usedIf, usedIs) == Scanned(u0, NodesTokens(nodes[..k]))
      {
        assert nodes[..k + 1][..k] == nodes[..k];
        ScannedAppend(u0, NodesTokens(nodes[..k]), NodeTokens(nodes[k]));
        ScanNode(nodes[k]);
      }
      assert nodes[..|nodes|] == nodes;
    }

    /** `injectStyles`: the icon text of every fresh `usedIf` class, then
        the style text of every fresh `usedIs` class, appended to the style
        element in one go; the classes are marked injected. */
    method InjectStyles()
      requires Valid()
      modifies this`injected, this`log, this`text
      ensures Valid()
      ensures text == old(text) + Pass(icons, usedIf, old(injected), "") + Pass(styles, usedIs, old(injected), "")
      ensures log == old(log) + Fresh(icons, usedIf, old(injected)) + Fresh(styles, usedIs, old(injected))
      ensures Pass(icons, usedIf, injected, "") + Pass(styles, usedIs, injected, "") == ""
    {
      var css, marked, logged := Inject(icons, styles, Used(usedIf, usedIs), injected, log, "");
      AppendAssoc(text, Pass(icons, usedIf, injected, ""), Pass(styles, usedIs, injected, ""));
      if css != "" {
        text := text + css;
      } else {
        assert text + css == text;
      }
      injected, log := marked, logged;
    }

    /** The scanning half of the observer's callback: the added nodes of a
        child list mutation, the target of a class mutation, in order. */
    method ScanMutations(mutations: seq<Mutation>)
      requires Valid()
      modifies this`usedIf, this`usedIs
      ensures Valid()
      ensures Used(usedIf, usedIs) == Scanned(old(Used(usedIf, usedIs)), MutationsTokens(mutations))
    {
      ghost var u0 := Used(usedIf, usedIs);
      for k := 0 to |mutations|
        invariant Valid()
        invariant Used(usedIf, usedIs) == Scanned(u0, MutationsTokens(mutations[..k]))
      {
        assert mutations[..k + 1][..k] == mutations[..k];
        match mutations[k]
        case ChildList(added) =>
          ScannedAppend(u0, MutationsTokens(mutations[..k]), NodesTokens(added));
          ScanNodes(added);
        case ClassChanged(target) =>
          ScannedAppend(u0, MutationsTokens(mutations[..k]), NodeTokens(target));
          ScanNode(target);
      }
      assert mutations[..|mutations|] == mutations;
    }

    /** The observer's callback: every mutation scanned, then one pass over
        the classes found so far. */
    method Observe(mutations: seq<Mutation>)
      requires Valid()
      modifies this`usedIf, this`usedIs, this`injected, this`log, this`text
      ensures Valid()
      ensures Used(usedIf, usedIs) == Scanned(old(Used(usedIf, usedIs)), MutationsTokens(mutations))
      ensures text == old(text) + Pass(icons, usedIf, old(injected), "") + Pass(styles, usedIs, old(injected), "")
      ensures log == old(log) + Fresh(icons, usedIf, old(injected)) + Fresh(styles, usedIs, old(injected))
      ensures Pass(icons, usedIf, injected, "") + Pass(styles, usedIs, injected, "") == ""
    {
      ScanMutations(mutations);
      InjectStyles();
    }

    /** `run`: the metadata replaced by the fetched documents, the whole
        document scanned, one pass. A failed fetch (`None`) rejects the
        promise before anything else happens. */
    method Run(fetched: Option<(Metadata, Metadata)>, root: Node)
      requires Valid()
      modifies this`usedIf, this`usedIs, this`injected, this`log, this`text, this`icons, this`styles
      ensures Valid()
      ensures fetched.None? ==>
                && icons == old(icons) && styles == old(styles)
                && Used(usedIf, usedIs) == old(Used(usedIf, usedIs))
                && injected == old(injected) && log == old(log) && text == old(text)
      ensures fetched.Some? ==>
                && icons == fetched.value.0 && styles == fetched.value.1
                && Used(usedIf, usedIs) == Scanned(old(Used(usedIf, usedIs)), NodeTokens(root))
                && text == old(text) + Pass(icons, usedIf, old(injected), "") + Pass(styles, usedIs, old(injected), "")
                && log == old(log) + Fresh(icons, usedIf, old(injected)) + Fresh(styles, usedIs, old(injected))
                && Pass(icons, usedIf, injected, "") + Pass(styles, usedIs, injected, "") == ""
    {
      if fetched.None? {
        return;
      }
      icons, styles := fetched.value.0, fetched.value.1;
      ScanNode(root);
      InjectStyles();
    }
  }
}
