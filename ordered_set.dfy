/** `Option`, and JavaScript's `Set` as the engine uses it: a set that
    iterates in insertion order, modelled as a sequence without repeats. */
module Options {
  datatype Option<+T> = None | Some(value: T)
}

module OrderedSet {

  predicate NoDup<T(==)>(s: seq<T>) {
    forall i, j :: 0 <= i < j < |s| ==> s[i] != s[j]
  }

  /** `set.add(x)`: appended at the end unless already present. */
  function Add<T(==,!new)>(s: seq<T>, x: T): (r: seq<T>)
    ensures s <= r && x in r
    ensures forall y :: y in r <==> y in s || y == x
    ensures NoDup(s) ==> NoDup(r)
  {
    if x in s then s else s + [x]
  }

  /** `Array.from(new Set(xs))`: the distinct elements of `xs` in order of
      first occurrence. */
  function Dedup<T(==,!new)>(xs: seq<T>): (r: seq<T>)
    ensures NoDup(r)
    ensures forall y :: y in r <==> y in xs
    ensures |r| <= |xs|
  {
    if xs == [] then [] else Add(Dedup(xs[..|xs| - 1]), xs[|xs| - 1])
  }

  /** A sequence that already has no repeats is left alone. */
  lemma {:induction false} DedupOfNoDup<T(!new)>(xs: seq<T>)
    requires NoDup(xs)
    ensures Dedup(xs) == xs
  {
    if xs != [] {
      var init := xs[..|xs| - 1];
      assert NoDup(init);
      DedupOfNoDup(init);
      assert xs[|xs| - 1] !in init;
      assert init + [xs[|xs| - 1]] == xs;
    }
  }

  /** The first occurrences keep their relative order: what `Dedup` returns
      for a prefix is a prefix of what it returns for the whole. */
  lemma {:induction false} DedupPrefix<T(!new)>(xs: seq<T>, n: nat)
    requires n <= |xs|
    ensures Dedup(xs[..n]) <= Dedup(xs)
    decreases |xs| - n
  {
    if n < |xs| {
      DedupPrefix(xs, n + 1);
      assert xs[..n + 1] == xs[..n] + [xs[n]];
      DedupSnoc(xs[..n], xs[n]);
      PrefixTrans(Dedup(xs[..n]), Dedup(xs[..n + 1]), Dedup(xs));
    } else {
      assert xs[..n] == xs;
    }
  }

  /** Adding one more element at the end of the input is one `add`. */
  lemma DedupSnoc<T(!new)>(xs: seq<T>, x: T)
    ensures Dedup(xs + [x]) == Add(Dedup(xs), x)
  {
    assert (xs + [x])[..|xs|] == xs;
  }

  lemma PrefixTrans<T>(a: seq<T>, b: seq<T>, c: seq<T>)
    requires a <= b && b <= c
    ensures a <= c
  {
    assert a == b[..|a|] && b == c[..|b|];
    assert c[..|b|][..|a|] == c[..|a|];
  }

  lemma AppendAssoc<T>(a: seq<T>, b: seq<T>, c: seq<T>)
    ensures a + (b + c) == (a + b) + c
  {
  }

  lemma PrefixOfAppend<T>(a: seq<T>, b: seq<T>)
    ensures a <= a + b
  {
    assert (a + b)[..|a|] == a;
  }
}
