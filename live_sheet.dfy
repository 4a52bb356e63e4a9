/** The state machine shared by `iconforge.js` and `iconforge-jit.js`: two
    growing sets of used classes, a set of classes already injected, and a
    stylesheet text that only ever grows. Each pass appends the metadata
    text of every used class not injected yet, and marks it. */
module LiveSheet {
  import opened OrderedSet
  import opened Meta

  // ---------------------------------------------------------------------------
  // Classification

  /** The two sets of used classes, in insertion order. */
  datatype Used = Used(ifs: seq<string>, iss: seq<string>)

  /** `if (cls.startsWith('if-')) usedIf.add(cls); else if (cls.startsWith('is-')) usedIs.add(cls);`
      for each token in turn. */
  function Scanned(used: Used, tokens: seq<string>): Used {
    if tokens == [] then used
    else
      var before, t := Scanned(used, tokens[..|tokens| - 1]), tokens[|tokens| - 1];
      if "if-" <= t then Used(Add(before.ifs, t), before.iss)
      else if "is-" <= t then Used(before.ifs, Add(before.iss, t))
      else before
  }

  /** Each set holds every class once, `usedIf` only `if-` classes and
      `usedIs` only `is-` classes that are not `if-` ones. */
  predicate WellFiled(used: Used) {
    && NoDup(used.ifs) && NoDup(used.iss)
    && (forall c :: c in used.ifs ==> "if-" <= c)
    && (forall c :: c in used.iss ==> !("if-" <= c) && "is-" <= c)
  }

  /** The two sets of a well-filed pair share no class. */
  lemma FiledDisjoint(used: Used, c: string)
    requires WellFiled(used)
    ensures !(c in used.ifs && c in used.iss)
  {
  }

  /** One token more is one `add` or none. */
  lemma ScannedSnoc(used: Used, tokens: seq<string>, t: string)
    ensures Scanned(used, tokens + [t]) ==
              var before := Scanned(used, tokens);
              if "if-" <= t then Used(Add(before.ifs, t), before.iss)
              else if "is-" <= t then Used(before.ifs, Add(before.iss, t))
              else before
  {
    assert (tokens + [t])[..|tokens|] == tokens;
  }

  /** Scanning keeps the sets well filed and only grows them: the old
      sets are prefixes of the new, and a class is in `usedIf` afterwards
      exactly when it was before or is a scanned `if-` token, and in
      `usedIs` exactly when it was before or is a scanned `is-` token that
      is not an `if-` one. */
  lemma {:induction false} ScannedMeans(used: Used, tokens: seq<string>)
    requires WellFiled(used)
    ensures WellFiled(Scanned(used, tokens))
    ensures used.ifs <= Scanned(used, tokens).ifs && used.iss <= Scanned(used, tokens).iss
    ensures forall c :: c in Scanned(used, tokens).ifs <==> c in used.ifs || (c in tokens && "if-" <= c)
    ensures forall c :: c in Scanned(used, tokens).iss <==>
                          c in used.iss || (c in tokens && !("if-" <= c) && "is-" <= c)
  {
    if tokens != [] {
      var init, t := tokens[..|tokens| - 1], tokens[|tokens| - 1];
      ScannedMeans(used, init);
      assert init + [t] == tokens;
      ScannedSnoc(used, init, t);
      var before := Scanned(used, init);
      PrefixTrans(used.ifs, before.ifs, Scanned(used, tokens).ifs);
      PrefixTrans(used.iss, before.iss, Scanned(used, tokens).iss);
    }
  }

  /** Tokens whose class is already in its set change nothing. */
  lemma {:induction false} ScannedNoop(used: Used, tokens: seq<string>)
    requires forall t :: t in tokens && "if-" <= t ==> t in used.ifs
    requires forall t :: t in tokens && !("if-" <= t) && "is-" <= t ==> t in used.iss
    ensures Scanned(used, tokens) == used
  {
    if tokens != [] {
      var init, t := tokens[..|tokens| - 1], tokens[|tokens| - 1];
      assert forall x :: x in init ==> x in tokens;
      ScannedNoop(used, init);
    }
  }

  /** Scanning the same tokens twice is scanning them once. */
  lemma ScannedTwice(used: Used, tokens: seq<string>)
    requires WellFiled(used)
    ensures Scanned(Scanned(used, tokens), tokens) == Scanned(used, tokens)
  {
    ScannedMeans(used, tokens);
    ScannedNoop(Scanned(used, tokens), tokens);
  }

  /** `el.classList.forEach(...)` on one element's tokens. */
  method ScanTokens(used: Used, tokens: seq<string>) returns (r: Used)
    ensures r == Scanned(used, tokens)
  {
    r := used;
    for k := 0 to |tokens|
      invariant r == Scanned(used, tokens[..k])
    {
      var t := tokens[k];
      ScannedSnoc(used, tokens[..k], t);
      assert tokens[..k + 1] == tokens[..k] + [t];
      if "if-" <= t {
        r := Used(Add(r.ifs, t), r.iss);
      } else if "is-" <= t {
        r := Used(r.ifs, Add(r.iss, t));
      }
    }
    assert tokens[..|tokens|] == tokens;
  }

  /** The tokens of a list of elements, one element after another. */
  function Flatten(elements: seq<seq<string>>): seq<string> {
    if elements == [] then [] else Flatten(elements[..|elements| - 1]) + elements[|elements| - 1]
  }

  /** Scanning the elements one after another is scanning all their tokens. */
  lemma {:induction false} ScannedAppend(used: Used, xs: seq<string>, ys: seq<string>)
    ensures Scanned(Scanned(used, xs), ys) == Scanned(used, xs + ys)
    decreases |ys|
  {
    if ys != [] {
      var init, t := ys[..|ys| - 1], ys[|ys| - 1];
      ScannedAppend(used, xs, init);
      assert init + [t] == ys;
      AppendAssoc(xs, init, [t]);
      ScannedSnoc(Scanned(used, xs), init, t);
      ScannedSnoc(used, xs + init, t);
    } else {
      assert xs + ys == xs;
    }
  }

  /** `forEach` over the elements, each scanned with `ScanTokens`. */
  method ScanElements(used: Used, elements: seq<seq<string>>) returns (r: Used)
    ensures r == Scanned(used, Flatten(elements))
  {
    r := used;
    for k := 0 to |elements|
      invariant r == Scanned(used, Flatten(elements[..k]))
    {
      assert elements[..k + 1][..k] == elements[..k];
      ScannedAppend(used, Flatten(elements[..k]), elements[k]);
      r := ScanTokens(r, elements[k]);
    }
    assert elements[..|elements|] == elements;
  }

  // ---------------------------------------------------------------------------
  // Injection

  /** The classes of `used`, in order, that a pass injects: not injected
      before the pass and with a truthy metadata entry. */
  function Fresh(meta: Metadata, used: seq<string>, injected: set<string>): seq<string> {
    if used == [] then []
    else
      var c := used[|used| - 1];
      Fresh(meta, used[..|used| - 1], injected) + (if c !in injected && Has(meta, c) then [c] else [])
  }

  /** The text a pass appends: the entry of each fresh class, as
      `entry + ''` followed by `sep`, in order. */
  function Pass(meta: Metadata, used: seq<string>, injected: set<string>, sep: string): string {
    if used == [] then ""
    else
      var c := used[|used| - 1];
      Pass(meta, used[..|used| - 1], injected, sep) + (if c !in injected && Has(meta, c) then Coerce(meta[c]) + sep else "")
  }

  /** A class is injected by a pass exactly when it is used, was not
      injected before and has a truthy entry; nothing is injected twice. */
  lemma {:induction false} FreshMeans(meta: Metadata, used: seq<string>, injected: set<string>)
    requires NoDup(used)
    ensures forall c :: c in Fresh(meta, used, injected) <==> c in used && c !in injected && Has(meta, c)
    ensures NoDup(Fresh(meta, used, injected))
  {
    if used != [] {
      var init, c := used[..|used| - 1], used[|used| - 1];
      assert init + [c] == used;
      assert NoDup(init);
      FreshMeans(meta, init, injected);
      assert c !in init;
    }
  }

  /** Only the injected set's classes among `used` matter to a pass. */
  lemma {:induction false} PassLocal(meta: Metadata, used: seq<string>, a: set<string>, b: set<string>, sep: string)
    requires forall c :: c in used ==> (c in a <==> c in b)
    ensures Fresh(meta, used, a) == Fresh(meta, used, b)
    ensures Pass(meta, used, a, sep) == Pass(meta, used, b, sep)
  {
    if used != [] {
      PassLocal(meta, used[..|used| - 1], a, b, sep);
    }
  }

  /** A pass after every used class with an entry has been injected
      appends nothing and marks nothing. */
  lemma {:induction false} PassDone(meta: Metadata, used: seq<string>, injected: set<string>, sep: string)
    requires forall c :: c in used && Has(meta, c) ==> c in injected
    ensures Fresh(meta, used, injected) == [] && Pass(meta, used, injected, sep) == ""
  {
    if used != [] {
      PassDone(meta, used[..|used| - 1], injected, sep);
    }
  }

  /** One class more: a pass injects it after the others when it qualifies. */
  lemma FreshSnoc(meta: Metadata, used: seq<string>, k: nat, injected: set<string>)
    requires k < |used|
    ensures Fresh(meta, used[..k + 1], injected) ==
              Fresh(meta, used[..k], injected) + (if used[k] !in injected && Has(meta, used[k]) then [used[k]] else [])
  {
    assert used[..k + 1][..k] == used[..k];
  }

  /** `set.forEach(cls => { if (!injected.has(cls) && meta[cls]) { css += meta[cls] + sep; injected.add(cls); } })`:
      the text of every fresh class appended to `css0` in order, and those
      classes marked. The test reads the set as the loop updates it; since
      no class repeats, that is the set as it was before the loop. */
  method InjectSet(meta: Metadata, used: seq<string>, sep: string, css0: string, injected0: set<string>)
    returns (css: string, injected: set<string>)
    requires NoDup(used)
    ensures css == css0 + Pass(meta, used, injected0, sep)
    ensures injected == injected0 + Marks(Fresh(meta, used, injected0))
  {
    css, injected := css0, injected0;
    for k := 0 to |used|
      invariant css == css0 + Pass(meta, used[..k], injected0, sep)
      invariant injected == injected0 + Marks(Fresh(meta, used[..k], injected0))
    {
      var cls := used[k];
      InjectStep(meta, used, k, injected0, injected, sep);
      if cls !in injected && Has(meta, cls) {
        AppendAssoc(css0, Pass(meta, used[..k], injected0, sep), Coerce(meta[cls]) + sep);
        css := css + (Coerce(meta[cls]) + sep);
        injected := injected + {cls};
      } else {
        assert Pass(meta, used[..k], injected0, sep) + "" == Pass(meta, used[..k], injected0, sep);
      }
    }
    assert used[..|used|] == used;
  }

  /** The classes of a list, as a set. */
  function Marks(classes: seq<string>): set<string> {
    set c | c in classes
  }

  /** The state of the loop of `InjectSet` after `k` classes carries over to
      `k + 1`: the test on the running set agrees with the test on the set
      before the loop, and the text and the marks grow by the class when it
      qualifies. */
  lemma InjectStep(meta: Metadata, used: seq<string>, k: nat, injected0: set<string>, injected: set<string>, sep: string)
    requires NoDup(used) && k < |used|
    requires injected == injected0 + Marks(Fresh(meta, used[..k], injected0))
    ensures used[k] in injected <==> used[k] in injected0
    ensures Pass(meta, used[..k + 1], injected0, sep) ==
              Pass(meta, used[..k], injected0, sep)
              + (if used[k] !in injected0 && Has(meta, used[k]) then Coerce(meta[used[k]]) + sep else "")
    ensures Marks(Fresh(meta, used[..k + 1], injected0)) ==
              Marks(Fresh(meta, used[..k], injected0)) + (if used[k] !in injected0 && Has(meta, used[k]) then {used[k]} else {})
  {
    var init := used[..k];
    assert NoDup(init);
    FreshMeans(meta, init, injected0);
    assert used[k] !in init;
    FreshSnoc(meta, used, k, injected0);
    assert used[..k + 1][..k] == used[..k];
  }

  /** Both `forEach` loops of `injectStyles`, icons of `usedIf` first, then
      styles of `usedIs`, sharing the text and the injected set. The
      injected classes are logged, the state stays consistent, and a second
      pass would append nothing. */
  method Inject(icons: Metadata, styles: Metadata, used: Used, injected0: set<string>, ghost log0: seq<string>, sep: string)
    returns (css: string, injected: set<string>, ghost log: seq<string>)
    requires Consistent(used, injected0, log0)
    ensures css == Pass(icons, used.ifs, injected0, sep) + Pass(styles, used.iss, injected0, sep)
    ensures log == log0 + Fresh(icons, used.ifs, injected0) + Fresh(styles, used.iss, injected0)
    ensures Consistent(used, injected, log)
    ensures Pass(icons, used.ifs, injected, sep) + Pass(styles, used.iss, injected, sep) == ""
  {
    var css1, injected1 := InjectSet(icons, used.ifs, sep, "", injected0);
    IconsLeaveStyles(icons, styles, used, injected0, sep);
    css, injected := InjectSet(styles, used.iss, sep, css1, injected1);
    log := log0 + Fresh(icons, used.ifs, injected0) + Fresh(styles, used.iss, injected0);
    InjectKeeps(icons, styles, used, injected0, log0);
    SecondPassIdle(icons, styles, used, injected0, sep);
  }

  /** The icon pass marks only `usedIf` classes, so the style pass that
      follows it finds the same fresh classes as before the icon pass. */
  lemma IconsLeaveStyles(icons: Metadata, styles: Metadata, used: Used, injected: set<string>, sep: string)
    requires WellFiled(used)
    ensures var after := injected + Marks(Fresh(icons, used.ifs, injected));
            && Fresh(styles, used.iss, after) == Fresh(styles, used.iss, injected)
            && Pass(styles, used.iss, after, sep) == Pass(styles, used.iss, injected, sep)
  {
    var after := injected + Marks(Fresh(icons, used.ifs, injected));
    FreshMeans(icons, used.ifs, injected);
    forall c | c in used.iss
      ensures c in after <==> c in injected
    {
      FiledDisjoint(used, c);
    }
    PassLocal(styles, used.iss, after, injected, sep);
  }

  // ---------------------------------------------------------------------------
  // The page's invariant

  /** The page's state: the sets well filed, `log` the classes whose text
      has been appended, in order, each once, making up the injected set,
      and all of them used. */
  ghost predicate Consistent(used: Used, injected: set<string>, log: seq<string>) {
    && WellFiled(used)
    && NoDup(log)
    && injected == Marks(log)
    && (forall c :: c in log ==> c in used.ifs || c in used.iss)
  }

  /** Scanning more tokens keeps the state consistent. */
  lemma ScanKeeps(used: Used, injected: set<string>, log: seq<string>, tokens: seq<string>)
    requires Consistent(used, injected, log)
    ensures Consistent(Scanned(used, tokens), injected, log)
  {
    ScannedMeans(used, tokens);
  }

  /** A pass keeps the state consistent: what it appends is appended to the
      log, and no class is logged twice, since a pass skips the injected
      classes, lists each class once, and the two sets share none. */
  lemma InjectKeeps(icons: Metadata, styles: Metadata, used: Used, injected: set<string>, log: seq<string>)
    requires Consistent(used, injected, log)
    ensures var f1, f2 := Fresh(icons, used.ifs, injected), Fresh(styles, used.iss, injected);
            Consistent(used, injected + Marks(f1) + Marks(f2), log + f1 + f2)
  {
    var f1, f2 := Fresh(icons, used.ifs, injected), Fresh(styles, used.iss, injected);
    FreshMeans(icons, used.ifs, injected);
    FreshMeans(styles, used.iss, injected);
    forall c | c in f2
      ensures c !in f1
    {
      FiledDisjoint(used, c);
    }
    NoDupAppend(log, f1);
    NoDupAppend(log + f1, f2);
    assert Marks(log + f1 + f2) == Marks(log) + Marks(f1) + Marks(f2);
  }

  /** Two lists without repeats and without a common element join into one. */
  lemma NoDupAppend(a: seq<string>, b: seq<string>)
    requires NoDup(a) && NoDup(b)
    requires forall c :: c in b ==> c !in a
    ensures NoDup(a + b)
  {
    forall i, j | 0 <= i < j < |a + b|
      ensures (a + b)[i] != (a + b)[j]
    {
      if j < |a| {
        assert (a + b)[i] == a[i] && (a + b)[j] == a[j];
      } else if i < |a| {
        assert (a + b)[i] == a[i] && (a + b)[j] == b[j - |a|];
        assert b[j - |a|] in b;
      } else {
        assert (a + b)[i] == b[i - |a|] && (a + b)[j] == b[j - |a|];
      }
    }
  }

  /** After a pass every used class with a truthy entry is injected, so a
      second pass over the same sets and metadata appends nothing. */
  lemma SecondPassIdle(icons: Metadata, styles: Metadata, used: Used, injected: set<string>, sep: string)
    requires NoDup(used.ifs) && NoDup(used.iss)
    ensures var after := injected + Marks(Fresh(icons, used.ifs, injected)) + Marks(Fresh(styles, used.iss, injected));
            Pass(icons, used.ifs, after, sep) + Pass(styles, used.iss, after, sep) == ""
  {
    var after := injected + Marks(Fresh(icons, used.ifs, injected)) + Marks(Fresh(styles, used.iss, injected));
    FreshMeans(icons, used.ifs, injected);
    FreshMeans(styles, used.iss, injected);
    PassDone(icons, used.ifs, after, sep);
    PassDone(styles, used.iss, after, sep);
  }
}
