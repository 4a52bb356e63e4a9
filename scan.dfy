/** The class scan shared by the command-line builders: every attribute
    value is split at runs of white space (`split(/\s+/)`), each token is
    tested by the builder's own filter, and the kept tokens are added to a
    JavaScript `Set` after an optional safelist. */
module Scan {
  import opened JsString
  import opened OrderedSet

  /** The tokens of `parts` that `keep` accepts, in order. */
  function KeptTokens(keep: string -> bool, parts: seq<string>): seq<string> {
    if parts == [] then []
    else
      var init, last := parts[..|parts| - 1], parts[|parts| - 1];
      KeptTokens(keep, init) + (if keep(last) then [last] else [])
  }

  /** A token is kept exactly when it is one of the parts and passes the filter. */
  lemma {:induction false} KeptTokensMeans(keep: string -> bool, parts: seq<string>, x: string)
    ensures x in KeptTokens(keep, parts) <==> x in parts && keep(x)
  {
    if parts != [] {
      var init, last := parts[..|parts| - 1], parts[|parts| - 1];
      KeptTokensMeans(keep, init, x);
      assert parts == init + [last];
    }
  }

  /** The kept tokens of the attribute values, value by value, in order,
      with `split` cutting one value into tokens. */
  function ScannedBy(keep: string -> bool, split: string -> seq<string>, values: seq<string>): seq<string>
  {
    if values == [] then []
    else
      var init, last := values[..|values| - 1], values[|values| - 1];
      ScannedBy(keep, split, init) + KeptTokens(keep, split(last))
  }

  /** The kept tokens of the attribute values, each cut at runs of white space. */
  function Scanned(keep: string -> bool, values: seq<string>): seq<string> {
    ScannedBy(keep, SplitSpaceRuns, values)
  }

  /** A token is scanned exactly when the filter keeps it and one of the
      values yields it, whatever the cutting. */
  lemma {:induction false} ScannedByMeans(keep: string -> bool, split: string -> seq<string>, values: seq<string>, x: string)
    ensures x in ScannedBy(keep, split, values) <==>
              keep(x) && exists i :: 0 <= i < |values| && x in split(values[i])
  {
    if values != [] {
      var init, last := values[..|values| - 1], values[|values| - 1];
      ScannedByMeans(keep, split, init, x);
      KeptTokensMeans(keep, split(last), x);
      if x in ScannedBy(keep, split, init) {
        var i :| 0 <= i < |init| && x in split(init[i]);
        assert values[i] == init[i];
      } else if x in KeptTokens(keep, split(last)) {
        assert x in split(values[|values| - 1]);
      } else {
        forall i | 0 <= i < |values| && keep(x)
          ensures x !in split(values[i])
        {
          if i < |init| {
            assert values[i] == init[i];
          }
        }
      }
    }
  }

  /** A token is scanned exactly when the filter keeps it and some value holds it. */
  lemma ScannedMeans(keep: string -> bool, values: seq<string>, x: string)
    ensures x in Scanned(keep, values) <==>
              keep(x) && exists i :: 0 <= i < |values| && x in SplitSpaceRuns(values[i])
  {
    ScannedByMeans(keep, SplitSpaceRuns, values, x);
  }

  /** `usedClasses`: the safelist first, unfiltered, then the kept scanned
      tokens; each class once, in order of first occurrence. */
  function UsedClasses(keep: string -> bool, safelist: seq<string>, values: seq<string>): seq<string> {
    Dedup(safelist + Scanned(keep, values))
  }

  /** A class is used exactly when it is safelisted, or kept and found in
      an attribute value; none is listed twice. */
  lemma UsedClassesMeans(keep: string -> bool, safelist: seq<string>, values: seq<string>, x: string)
    ensures NoDup(UsedClasses(keep, safelist, values))
    ensures x in UsedClasses(keep, safelist, values) <==>
              x in safelist || (keep(x) && exists i :: 0 <= i < |values| && x in SplitSpaceRuns(values[i]))
  {
    ScannedMeans(keep, values, x);
  }

  /** The collection loops: the safelist, then every token of every value. */
  method CollectUsed(keep: string -> bool, safelist: seq<string>, values: seq<string>) returns (used: seq<string>)
    ensures used == UsedClasses(keep, safelist, values)
  {
    used := [];
    for i := 0 to |safelist|
      invariant used == Dedup(safelist[..i])
    {
      assert safelist[..i + 1] == safelist[..i] + [safelist[i]];
      DedupSnoc(safelist[..i], safelist[i]);
      used := Add(used, safelist[i]);
    }
    assert safelist[..|safelist|] == safelist + Scanned(keep, values[..0]);
    for i := 0 to |values|
      invariant used == Dedup(safelist + Scanned(keep, values[..i]))
    {
      used := ScanValue(keep, used, safelist + Scanned(keep, values[..i]), SplitSpaceRuns(values[i]));
      ScanStep(keep, safelist, values, i);
    }
    assert values[..|values|] == values;
  }

  /** The inner loop over the tokens of one attribute value. */
  method ScanValue(keep: string -> bool, used0: seq<string>, ghost before: seq<string>, parts: seq<string>)
    returns (used: seq<string>)
    requires used0 == Dedup(before)
    ensures used == Dedup(before + KeptTokens(keep, parts))
  {
    used := used0;
    assert before + KeptTokens(keep, parts[..0]) == before;
    for k := 0 to |parts|
      invariant used == Dedup(before + KeptTokens(keep, parts[..k]))
    {
      KeepStep(keep, before, parts, k);
      if keep(parts[k]) {
        used := Add(used, parts[k]);
      }
    }
    assert parts[..|parts|] == parts;
  }

  lemma KeepStep(keep: string -> bool, before: seq<string>, parts: seq<string>, k: nat)
    requires k < |parts|
    ensures Dedup(before + KeptTokens(keep, parts[..k + 1])) ==
              if keep(parts[k]) then Add(Dedup(before + KeptTokens(keep, parts[..k])), parts[k])
              else Dedup(before + KeptTokens(keep, parts[..k]))
  {
    var prev := KeptTokens(keep, parts[..k]);
    assert parts[..k + 1][..k] == parts[..k];
    if keep(parts[k]) {
      assert KeptTokens(keep, parts[..k + 1]) == prev + [parts[k]];
      AppendAssoc(before, prev, [parts[k]]);
      DedupSnoc(before + prev, parts[k]);
    } else {
      assert KeptTokens(keep, parts[..k + 1]) == prev + [];
      assert prev + [] == prev;
    }
  }

  lemma ScanStep(keep: string -> bool, safelist: seq<string>, values: seq<string>, i: nat)
    requires i < |values|
    ensures safelist + Scanned(keep, values[..i + 1]) ==
              (safelist + Scanned(keep, values[..i])) + KeptTokens(keep, SplitSpaceRuns(values[i]))
  {
    assert values[..i + 1][..i] == values[..i];
    AppendAssoc(safelist, Scanned(keep, values[..i]), KeptTokens(keep, SplitSpaceRuns(values[i])));
  }
}
