/** The stylesheet assembly shared by the build-time copies of the engine:
    the keyframes set and the rule sets per media bucket (JavaScript `Set`s,
    kept as sequences in insertion order without repeats), and the text they
    are written out as. */
module Sheet {
  import opened Options
  import opened JsString
  import opened OrderedSet
  import opened Braces

  /** The declarations of a style entry: the trimmed first brace body, or
      the whole source text when there is none. */
  function Declarations(src: string): string {
    match FirstBody(src)
    case Some(b) => Trim(b)
    case None => src
  }

  // ---------------------------------------------------------------------------
  // Aggregation into keyframes and media buckets

  /** What one used class adds: its rule, its keyframes and its bucket. */
  datatype Contribution = Contribution(rule: Option<string>, keyframes: Option<string>, bucket: string)

  /** `f` applied to each used class, in order. */
  function Collect(f: string -> Contribution, used: seq<string>): (cs: seq<Contribution>)
    ensures |cs| == |used| && forall k :: 0 <= k < |used| ==> cs[k] == f(used[k])
  {
    if used == [] then [] else [f(used[0])] + Collect(f, used[1..])
  }

  /** Every keyframes text of the contributions, in order, with repeats. */
  function KeyframesFound(cs: seq<Contribution>): seq<string> {
    if cs == [] then []
    else
      var init, last := cs[..|cs| - 1], cs[|cs| - 1];
      KeyframesFound(init) + (if last.keyframes.Some? then [last.keyframes.value] else [])
  }

  /** Every rule the contributions put into `bucket`, in order, with repeats. */
  function RulesFound(cs: seq<Contribution>, bucket: string): seq<string> {
    if cs == [] then []
    else
      var init, last := cs[..|cs| - 1], cs[|cs| - 1];
      RulesFound(init, bucket) + (if last.rule.Some? && last.bucket == bucket then [last.rule.value] else [])
  }

  lemma {:induction false} KeyframesFoundMeans(cs: seq<Contribution>, t: string)
    ensures t in KeyframesFound(cs) <==> exists i :: 0 <= i < |cs| && cs[i].keyframes == Some(t)
  {
    if cs != [] {
      var init, last := cs[..|cs| - 1], cs[|cs| - 1];
      KeyframesFoundMeans(init, t);
      assert KeyframesFound(cs) == KeyframesFound(init) + (if last.keyframes.Some? then [last.keyframes.value] else []);
      if t in KeyframesFound(init) {
        var i :| 0 <= i < |init| && init[i].keyframes == Some(t);
        assert cs[i] == init[i];
      } else if last.keyframes == Some(t) {
        assert cs[|cs| - 1].keyframes == Some(t);
      } else {
        forall i | 0 <= i < |cs|
          ensures cs[i].keyframes != Some(t)
        {
          if i < |init| {
            assert cs[i] == init[i];
          }
        }
      }
    }
  }

  lemma {:induction false} RulesFoundMeans(cs: seq<Contribution>, bucket: string, r: string)
    ensures r in RulesFound(cs, bucket) <==>
              exists i :: 0 <= i < |cs| && cs[i].rule == Some(r) && cs[i].bucket == bucket
  {
    if cs != [] {
      var init, last := cs[..|cs| - 1], cs[|cs| - 1];
      RulesFoundMeans(init, bucket, r);
      assert RulesFound(cs, bucket) == RulesFound(init, bucket)
        + (if last.rule.Some? && last.bucket == bucket then [last.rule.value] else []);
      if r in RulesFound(init, bucket) {
        var i :| 0 <= i < |init| && init[i].rule == Some(r) && init[i].bucket == bucket;
        assert cs[i] == init[i];
      } else if last.rule == Some(r) && last.bucket == bucket {
        assert cs[|cs| - 1] == last;
      } else {
        forall i | 0 <= i < |cs|
          ensures !(cs[i].rule == Some(r) && cs[i].bucket == bucket)
        {
          if i < |init| {
            assert cs[i] == init[i];
          }
        }
      }
    }
  }

  /** The rules of a bucket, each once. */
  function BucketRules(cs: seq<Contribution>, bucket: string): seq<string> {
    Dedup(RulesFound(cs, bucket))
  }

  /** A bucket lists each rule once, and exactly the rules put into it. */
  lemma BucketRulesMeans(cs: seq<Contribution>, bucket: string, r: string)
    ensures NoDup(BucketRules(cs, bucket))
    ensures r in BucketRules(cs, bucket) <==>
              exists i :: 0 <= i < |cs| && cs[i].rule == Some(r) && cs[i].bucket == bucket
  {
    RulesFoundMeans(cs, bucket, r);
  }

  /** The keyframes set lists each keyframes text once, exactly those met. */
  lemma KeyframesSetMeans(cs: seq<Contribution>, t: string)
    ensures NoDup(Dedup(KeyframesFound(cs)))
    ensures t in Dedup(KeyframesFound(cs)) <==> exists i :: 0 <= i < |cs| && cs[i].keyframes == Some(t)
  {
    KeyframesFoundMeans(cs, t);
  }

  /** `stylesByMedia[b]`, or the empty set when it has no entry. */
  function Lookup(buckets: map<string, seq<string>>, b: string): seq<string> {
    if b in buckets then buckets[b] else []
  }

  /** The buckets hold the deduplicated rules of the contributions, and
      there is a bucket for `default` and for every bucket with a rule. */
  ghost predicate Holds(buckets: map<string, seq<string>>, cs: seq<Contribution>) {
    && (forall b :: Lookup(buckets, b) == BucketRules(cs, b))
    && (forall b :: b in buckets <==> b == "default" || RulesFound(cs, b) != [])
  }

  /** The resolution loop of `buildCSS`, with `contribute` the resolution
      of one class: the keyframes set and the rule set of each bucket. */
  method Aggregate(contribute: string -> Contribution, used: seq<string>)
    returns (keyframes: seq<string>, buckets: map<string, seq<string>>)
    ensures keyframes == Dedup(KeyframesFound(Collect(contribute, used)))
    ensures Holds(buckets, Collect(contribute, used))
  {
    ghost var cs := Collect(contribute, used);
    keyframes := [];
    buckets := map["default" := []];
    assert cs[..0] == [];
    HoldsAtStart();
    for i := 0 to |used|
      invariant keyframes == Dedup(KeyframesFound(cs[..i]))
      invariant Holds(buckets, cs[..i])
    {
      assert contribute(used[i]) == cs[i];
      keyframes, buckets := Absorb(keyframes, buckets, contribute(used[i]), cs, i);
    }
    assert cs[..|used|] == cs;
  }

  /** Before any class, only the `default` bucket exists, and it is empty. */
  lemma HoldsAtStart()
    ensures Holds(map["default" := []], [])
  {
  }

  /** One round of the loop: the class's keyframes added to the set, its
      rule to the set of its bucket. */
  method Absorb(keyframes: seq<string>, buckets: map<string, seq<string>>, c: Contribution,
                ghost cs: seq<Contribution>, ghost i: nat)
    returns (nextKeyframes: seq<string>, nextBuckets: map<string, seq<string>>)
    requires i < |cs| && c == cs[i]
    requires keyframes == Dedup(KeyframesFound(cs[..i])) && Holds(buckets, cs[..i])
    ensures nextKeyframes == Dedup(KeyframesFound(cs[..i + 1])) && Holds(nextBuckets, cs[..i + 1])
  {
    KeyframesStep(cs, i);
    nextKeyframes, nextBuckets := keyframes, buckets;
    if c.keyframes.Some? {
      nextKeyframes := Add(keyframes, c.keyframes.value);
    }
    if c.rule.Some? {
      RuleStep(cs, i, buckets);
      nextBuckets := buckets[c.bucket := Add(Lookup(buckets, c.bucket), c.rule.value)];
    } else {
      NoRuleStep(cs, i, buckets);
    }
  }

  lemma KeyframesStep(cs: seq<Contribution>, i: nat)
    requires i < |cs|
    ensures Dedup(KeyframesFound(cs[..i + 1])) ==
              if cs[i].keyframes.Some? then Add(Dedup(KeyframesFound(cs[..i])), cs[i].keyframes.value)
              else Dedup(KeyframesFound(cs[..i]))
  {
    assert cs[..i + 1][..i] == cs[..i];
    var prev := KeyframesFound(cs[..i]);
    if cs[i].keyframes.Some? {
      DedupSnoc(prev, cs[i].keyframes.value);
    } else {
      assert prev + [] == prev;
    }
  }

  lemma RuleStep(cs: seq<Contribution>, i: nat, buckets: map<string, seq<string>>)
    requires i < |cs| && cs[i].rule.Some?
    requires Holds(buckets, cs[..i])
    ensures Holds(buckets[cs[i].bucket := Add(Lookup(buckets, cs[i].bucket), cs[i].rule.value)], cs[..i + 1])
  {
    var next := buckets[cs[i].bucket := Add(Lookup(buckets, cs[i].bucket), cs[i].rule.value)];
    forall b
      ensures Lookup(next, b) == BucketRules(cs[..i + 1], b)
      ensures b in next <==> b == "default" || RulesFound(cs[..i + 1], b) != []
    {
      RuleStepAt(cs, i, buckets, b);
    }
  }

  lemma RuleStepAt(cs: seq<Contribution>, i: nat, buckets: map<string, seq<string>>, b: string)
    requires i < |cs| && cs[i].rule.Some?
    requires Lookup(buckets, b) == BucketRules(cs[..i], b)
    requires b in buckets <==> b == "default" || RulesFound(cs[..i], b) != []
    ensures var next := buckets[cs[i].bucket := Add(Lookup(buckets, cs[i].bucket), cs[i].rule.value)];
            && Lookup(next, b) == BucketRules(cs[..i + 1], b)
            && (b in next <==> b == "default" || RulesFound(cs[..i + 1], b) != [])
  {
    var r, b0 := cs[i].rule.value, cs[i].bucket;
    assert cs[..i + 1][..i] == cs[..i];
    var prev := RulesFound(cs[..i], b);
    if b == b0 {
      assert RulesFound(cs[..i + 1], b) == prev + [r];
      DedupSnoc(prev, r);
    } else {
      assert RulesFound(cs[..i + 1], b) == prev + [];
      assert prev + [] == prev;
    }
  }

  lemma NoRuleStep(cs: seq<Contribution>, i: nat, buckets: map<string, seq<string>>)
    requires i < |cs| && cs[i].rule.None?
    requires Holds(buckets, cs[..i])
    ensures Holds(buckets, cs[..i + 1])
  {
    assert cs[..i + 1][..i] == cs[..i];
    forall b
      ensures RulesFound(cs[..i + 1], b) == RulesFound(cs[..i], b)
    {
      assert RulesFound(cs[..i], b) + [] == RulesFound(cs[..i], b);
    }
  }

  // ---------------------------------------------------------------------------
  // Serialisation

  /** Each rule indented by two spaces. */
  function Indented(rules: seq<string>): (r: seq<string>)
    ensures |r| == |rules| && forall k :: 0 <= k < |rules| ==> r[k] == "  " + rules[k]
  {
    if rules == [] then [] else ["  " + rules[0]] + Indented(rules[1..])
  }

  /** The block of one media query; an empty bucket writes nothing. */
  function MediaBlock(mq: string, rules: seq<string>): string {
    if rules == [] then "" else mq + " {\n" + Join(Indented(rules), "\n") + "\n}\n"
  }

  /** The blocks of the first `|media|` media queries of `queries`, in order. */
  function MediaBlocks(queries: seq<string>, media: seq<seq<string>>): string
    requires |media| <= |queries|
  {
    if media == [] then ""
    else MediaBlocks(queries, media[..|media| - 1]) + MediaBlock(queries[|media| - 1], media[|media| - 1])
  }

  /** The custom CSS files in order, each followed by a newline; a missing
      file (`None`) adds nothing. */
  function CustomText(files: seq<Option<string>>): string {
    if files == [] then ""
    else
      var init, last := files[..|files| - 1], files[|files| - 1];
      CustomText(init) + (match last case Some(t) => t + "\n" case None => "")
  }

  /** The stylesheet written after `header` for the given keyframes,
      default rules, rules per media query and custom files. */
  function Output(header: string, queries: seq<string>, keyframes: seq<string>, defaults: seq<string>,
                  media: seq<seq<string>>, files: seq<Option<string>>): string
    requires |media| == |queries|
  {
    header + Join(keyframes, "\n") + "\n" + Join(defaults, "\n") + "\n" + MediaBlocks(queries, media) + CustomText(files)
  }

  /** The rule sets of the buckets of `queries`, in order. */
  function MediaRules(queries: seq<string>, buckets: map<string, seq<string>>): (m: seq<seq<string>>)
    ensures |m| == |queries|
  {
    seq(|queries|, i requires 0 <= i < |queries| => Lookup(buckets, queries[i]))
  }

  /** The string building at the end of `buildCSS`: header, keyframes,
      default bucket, one block per non-empty media bucket in the order of
      `queries`, custom files. */
  method Serialize(header: string, queries: seq<string>, keyframes: seq<string>,
                   buckets: map<string, seq<string>>, files: seq<Option<string>>)
    returns (css: string)
    ensures css == Output(header, queries, keyframes, Lookup(buckets, "default"), MediaRules(queries, buckets), files)
  {
    css := header;
    css := css + Join(keyframes, "\n") + "\n";
    css := css + Join(Lookup(buckets, "default"), "\n") + "\n";
    var blocks := WriteBlocks(queries, buckets);
    css := AppendCustom(css + blocks, files);
  }

  /** The loop over the media queries: the block of each non-empty bucket,
      in the order of `queries`. */
  method WriteBlocks(queries: seq<string>, buckets: map<string, seq<string>>) returns (text: string)
    ensures text == MediaBlocks(queries, MediaRules(queries, buckets))
  {
    var media := MediaRules(queries, buckets);
    text := "";
    assert media[..0] == [];
    for j := 0 to |queries|
      invariant text == MediaBlocks(queries, media[..j])
    {
      var mq := queries[j];
      var rules := Lookup(buckets, mq);
      var block := "";
      if rules != [] {
        block := mq + " {\n" + Join(Indented(rules), "\n") + "\n}\n";
      }
      BlocksStep(queries, media, j);
      text := text + block;
    }
    assert media[..|queries|] == media;
  }

  /** The custom files appended one after the other, each followed by a
      line break; a file that is missing adds nothing. */
  method AppendCustom(css0: string, files: seq<Option<string>>) returns (css: string)
    ensures css == css0 + CustomText(files)
  {
    css := css0;
    assert files[..0] == [];
    for k := 0 to |files|
      invariant css == css0 + CustomText(files[..k])
    {
      var add := "";
      match files[k] {
        case Some(t) => add := t + "\n";
        case None =>
      }
      CustomStep(files, k);
      AppendAssoc(css0, CustomText(files[..k]), add);
      css := css + add;
    }
    assert files[..|files|] == files;
  }

  lemma BlocksStep(queries: seq<string>, media: seq<seq<string>>, j: nat)
    requires j < |media| <= |queries|
    ensures MediaBlocks(queries, media[..j + 1]) == MediaBlocks(queries, media[..j]) + MediaBlock(queries[j], media[j])
  {
    assert media[..j + 1][..j] == media[..j];
  }

  lemma CustomStep(files: seq<Option<string>>, k: nat)
    requires k < |files|
    ensures CustomText(files[..k + 1]) ==
              CustomText(files[..k]) + (match files[k] case Some(t) => t + "\n" case None => "")
  {
    assert files[..k + 1][..k] == files[..k];
  }

  /** The stylesheet starts with the header, then the keyframes. */
  lemma OutputStarts(header: string, queries: seq<string>, keyframes: seq<string>, defaults: seq<string>,
                     media: seq<seq<string>>, files: seq<Option<string>>)
    requires |media| == |queries|
    ensures header + Join(keyframes, "\n") + "\n" <= Output(header, queries, keyframes, defaults, media, files)
  {
    var a := header + Join(keyframes, "\n") + "\n";
    var d := Join(defaults, "\n");
    var b := a + d + "\n";
    var m, c := MediaBlocks(queries, media), CustomText(files);
    assert a <= b by {
      AppendAssoc(a, d, "\n");
      PrefixOfAppend(a, d + "\n");
    }
    assert b <= Output(header, queries, keyframes, defaults, media, files) by {
      assert Output(header, queries, keyframes, defaults, media, files) == b + m + c;
      AppendAssoc(b, m, c);
      PrefixOfAppend(b, m + c);
    }
    PrefixTrans(a, b, Output(header, queries, keyframes, defaults, media, files));
  }

  /** The rule sets of the buckets of `queries` in the contributions. */
  function MediaRulesOf(queries: seq<string>, cs: seq<Contribution>): (m: seq<seq<string>>)
    ensures |m| == |queries|
  {
    seq(|queries|, i requires 0 <= i < |queries| => BucketRules(cs, queries[i]))
  }

  /** The stylesheet of a sequence of contributions. */
  function StylesheetOf(header: string, queries: seq<string>, cs: seq<Contribution>, files: seq<Option<string>>): string {
    Output(header, queries, Dedup(KeyframesFound(cs)), BucketRules(cs, "default"), MediaRulesOf(queries, cs), files)
  }

  /** Resolution and aggregation of the used classes, then serialisation. */
  method WriteSheet(header: string, queries: seq<string>, contribute: string -> Contribution, used: seq<string>,
                    files: seq<Option<string>>)
    returns (css: string)
    ensures css == StylesheetOf(header, queries, Collect(contribute, used), files)
  {
    var keyframes, buckets := Aggregate(contribute, used);
    css := Serialize(header, queries, keyframes, buckets, files);
    SameMedia(queries, buckets, Collect(contribute, used));
  }

  lemma SameMedia(queries: seq<string>, buckets: map<string, seq<string>>, cs: seq<Contribution>)
    requires Holds(buckets, cs)
    ensures Lookup(buckets, "default") == BucketRules(cs, "default")
    ensures MediaRules(queries, buckets) == MediaRulesOf(queries, cs)
  {
  }
}
