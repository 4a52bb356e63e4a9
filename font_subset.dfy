/** The code-point computation of `subsetWOFF2`, shared by the three
    build-time copies: the eligible classes' icon entries, one glyph each,
    and the decision between a subset and a copy of the whole font. Each
    copy supplies its own per-entry callback. */
module FontSubset {
  import opened Meta
  import opened CodePoint
  import opened OrderedSet

  /** A callback that never yields a code point `fromCodePoint` would reject. */
  ghost predicate InRange(glyph: Entry -> Glyph) {
    forall e :: glyph(e).Point? ==> glyph(e).cp <= MaxCodePoint
  }

  /** The callback of the copies that read an entry's rule text (the
      `value` of an object, the text of a string): nothing for an empty
      text, otherwise the code point its `content` literal names. */
  function TextGlyph(gap: Gap, e: Entry): Glyph {
    var t := IconText(e);
    if t == "" then NoMatch else GlyphOf(t, gap)
  }

  /** A class whose icon rule is read for the subset: an `if-` class with a
      truthy icon entry. */
  predicate Eligible(icons: Metadata, cls: string) {
    "if-" <= cls && Has(icons, cls)
  }

  /** The names handed to `subsetWOFF2`: each used class with its prefixes
      removed by `strip`, in order. */
  function SubsetNames(strip: string -> string, used: seq<string>): seq<string> {
    if used == [] then [] else SubsetNames(strip, used[..|used| - 1]) + [strip(used[|used| - 1])]
  }

  /** One name per used class, in the same order. */
  lemma {:induction false} SubsetNamesMeans(strip: string -> string, used: seq<string>)
    ensures |SubsetNames(strip, used)| == |used|
    ensures forall k :: 0 <= k < |used| ==> SubsetNames(strip, used)[k] == strip(used[k])
  {
    if used != [] {
      var init := used[..|used| - 1];
      SubsetNamesMeans(strip, init);
      forall k | 0 <= k < |init|
        ensures SubsetNames(strip, used)[k] == strip(used[k])
      {
        assert used[k] == init[k];
      }
    }
  }

  /** The glyphs of the eligible classes, in order (`filter`, then `map`). */
  function Glyphs(glyph: Entry -> Glyph, icons: Metadata, classes: seq<string>): seq<Glyph> {
    if classes == [] then []
    else
      var init, last := classes[..|classes| - 1], classes[|classes| - 1];
      Glyphs(glyph, icons, init) + (if Eligible(icons, last) then [glyph(icons[last])] else [])
  }

  lemma {:induction false} GlyphsMeans(glyph: Entry -> Glyph, icons: Metadata, classes: seq<string>, g: Glyph)
    ensures g in Glyphs(glyph, icons, classes) <==>
              exists k :: 0 <= k < |classes| && Eligible(icons, classes[k]) && glyph(icons[classes[k]]) == g
  {
    if classes != [] {
      var init := classes[..|classes| - 1];
      GlyphsMeans(glyph, icons, init, g);
      if exists k :: 0 <= k < |classes| && Eligible(icons, classes[k]) && glyph(icons[classes[k]]) == g {
        var k :| 0 <= k < |classes| && Eligible(icons, classes[k]) && glyph(icons[classes[k]]) == g;
        if k < |init| {
          assert classes[k] == init[k];
        }
      }
    }
  }

  /** Listing classes one after another lists their glyphs one after another,
      so a class that appears twice contributes its glyph twice. */
  lemma {:induction false} GlyphsAppend(glyph: Entry -> Glyph, icons: Metadata, a: seq<string>, b: seq<string>)
    ensures Glyphs(glyph, icons, a + b) == Glyphs(glyph, icons, a) + Glyphs(glyph, icons, b)
  {
    if b != [] {
      var init, last := b[..|b| - 1], b[|b| - 1];
      assert (a + b)[..|a + b| - 1] == a + init;
      GlyphsAppend(glyph, icons, a, init);
      AppendAssoc(Glyphs(glyph, icons, a), Glyphs(glyph, icons, init), if Eligible(icons, last) then [glyph(icons[last])] else []);
    } else {
      assert a + b == a;
    }
  }

  /** Two classes that strip to the same name each contribute that name's
      glyph, so the glyph is listed twice. */
  lemma SameNameTwice(strip: string -> string, glyph: Entry -> Glyph, icons: Metadata, a: string, b: string)
    requires strip(a) == strip(b)
    ensures Glyphs(glyph, icons, SubsetNames(strip, [a, b])) ==
              Glyphs(glyph, icons, [strip(a)]) + Glyphs(glyph, icons, [strip(a)])
  {
    SubsetNamesMeans(strip, [a, b]);
    assert SubsetNames(strip, [a, b]) == [strip(a)] + [strip(a)];
    GlyphsAppend(glyph, icons, [strip(a)], [strip(a)]);
  }

  /** `subsetWOFF2`: the font plan for the given classes, with `glyph` the
      callback applied to each eligible icon entry. */
  function SubsetPlan(glyph: Entry -> Glyph, icons: Metadata, classes: seq<string>): FontPlan {
    Plan(Glyphs(glyph, icons, classes))
  }

  /** The whole font is copied exactly when some eligible class has a code
      point out of range, or none has a code point at all; a subset keeps
      exactly the code points of the eligible classes, all in range. */
  lemma SubsetPlanMeans(glyph: Entry -> Glyph, icons: Metadata, classes: seq<string>, c: nat)
    ensures SubsetPlan(glyph, icons, classes).CopyFullFont? <==>
              (exists k :: 0 <= k < |classes| && Eligible(icons, classes[k]) && glyph(icons[classes[k]]) == Throws)
              || (forall k :: 0 <= k < |classes| && Eligible(icons, classes[k]) ==> !glyph(icons[classes[k]]).Point?)
    ensures SubsetPlan(glyph, icons, classes).Subset? ==>
              (c in SubsetPlan(glyph, icons, classes).codePoints <==>
                 exists k :: 0 <= k < |classes| && Eligible(icons, classes[k]) && glyph(icons[classes[k]]) == Point(c))
    ensures InRange(glyph) && SubsetPlan(glyph, icons, classes).Subset? ==>
              (c in SubsetPlan(glyph, icons, classes).codePoints ==> c <= MaxCodePoint)
  {
    var gs := Glyphs(glyph, icons, classes);
    GlyphsMeans(glyph, icons, classes, Throws);
    GlyphsMeans(glyph, icons, classes, Point(c));
    if forall i :: 0 <= i < |gs| ==> !gs[i].Point? {
      forall k | 0 <= k < |classes| && Eligible(icons, classes[k])
        ensures !glyph(icons[classes[k]]).Point?
      {
        var g := glyph(icons[classes[k]]);
        GlyphsMeans(glyph, icons, classes, g);
      }
    } else {
      var i :| 0 <= i < |gs| && gs[i].Point?;
      GlyphsMeans(glyph, icons, classes, gs[i]);
    }
    if InRange(glyph) && Point(c) in gs {
      GlyphPointInRange(glyph, icons, classes, c);
    }
  }

  lemma GlyphPointInRange(glyph: Entry -> Glyph, icons: Metadata, classes: seq<string>, c: nat)
    requires InRange(glyph) && Point(c) in Glyphs(glyph, icons, classes)
    ensures c <= MaxCodePoint
  {
    GlyphsMeans(glyph, icons, classes, Point(c));
    var k :| 0 <= k < |classes| && Eligible(icons, classes[k]) && glyph(icons[classes[k]]) == Point(c);
  }

}
