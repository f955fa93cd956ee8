/** A JavaScript `Set` of day keys read back as an array: insertion ignores
    values already present, and iteration follows first insertion. */
module InsertionSet {

  predicate Distinct(xs: seq<int>)
  {
    forall i, j :: 0 <= i < j < |xs| ==> xs[i] != xs[j]
  }

  /** `Array.from(new Set(xs))`: each value once, where it first occurs. */
  function Dedup(xs: seq<int>): (r: seq<int>)
    ensures Distinct(r)
    ensures forall x :: x in r <==> x in xs
  {
    if xs == [] then []
    else
      var prefix := xs[..|xs| - 1];
      var x := xs[|xs| - 1];
      assert xs == prefix + [x];
      var seen := Dedup(prefix);
      if x in seen then seen else seen + [x]
  }

  /** The elements of `xs` that do not occur in `excluded`, in order. */
  function Without(xs: seq<int>, excluded: seq<int>): (r: seq<int>)
    ensures forall x :: x in r <==> x in xs && x !in excluded
  {
    if xs == [] then []
    else
      var prefix := xs[..|xs| - 1];
      var x := xs[|xs| - 1];
      assert xs == prefix + [x];
      Without(prefix, excluded) + (if x in excluded then [] else [x])
  }

  /** The position of the first occurrence of `x` in `xs`. */
  function FirstIndex(xs: seq<int>, x: int): (k: nat)
    requires x in xs
    ensures k < |xs| && xs[k] == x && x !in xs[..k]
  {
    if xs[0] == x then 0
    else
      var k := FirstIndex(xs[1..], x);
      assert xs[..k + 1] == [xs[0]] + xs[1..][..k];
      k + 1
  }

  /** Appending a value leaves the first occurrence of earlier values alone. */
  lemma FirstIndexOfPrefix(xs: seq<int>, x: int, y: int)
    requires y in xs
    ensures FirstIndex(xs + [x], y) == FirstIndex(xs, y)
  {
    var k, m := FirstIndex(xs + [x], y), FirstIndex(xs, y);
    assert forall i :: 0 <= i < k ==> (xs + [x])[i] != y;
    assert forall i :: 0 <= i < m ==> xs[i] != y;
    assert (xs + [x])[m] == y;
    assert xs[k] == y;
  }

  /** `Dedup` lists the values of `xs` in the order of their first occurrence. */
  lemma {:induction false} DedupFirstOccurrenceOrder(xs: seq<int>)
    ensures forall i, j :: 0 <= i < j < |Dedup(xs)| ==>
      FirstIndex(xs, Dedup(xs)[i]) < FirstIndex(xs, Dedup(xs)[j])
  {
    if xs != [] {
      var prefix := xs[..|xs| - 1];
      var x := xs[|xs| - 1];
      assert xs == prefix + [x];
      DedupFirstOccurrenceOrder(prefix);
      var seen := Dedup(prefix);
      forall y | y in seen
        ensures FirstIndex(xs, y) == FirstIndex(prefix, y) < |prefix|
      {
        FirstIndexOfPrefix(prefix, x, y);
      }
      if x !in seen {
        assert x !in prefix;
        assert xs[..|prefix|] == prefix;
      }
    }
  }

  /** Deduplicating values that are already distinct changes nothing. */
  lemma {:induction false} DedupOfDistinct(xs: seq<int>)
    requires Distinct(xs)
    ensures Dedup(xs) == xs
  {
    if xs != [] {
      var prefix := xs[..|xs| - 1];
      var x := xs[|xs| - 1];
      assert Distinct(prefix);
      DedupOfDistinct(prefix);
      assert xs == prefix + [x];
    }
  }

  /** `Without` only looks at which values `excluded` holds. */
  lemma {:induction false} WithoutSameValues(xs: seq<int>, e1: seq<int>, e2: seq<int>)
    requires forall x :: x in e1 <==> x in e2
    ensures Without(xs, e1) == Without(xs, e2)
  {
    if xs != [] {
      WithoutSameValues(xs[..|xs| - 1], e1, e2);
    }
  }

  /** Two different values inserted one after the other: both, in order. */
  lemma TwoDistinctValues(b: int, x: int)
    requires b != x
    ensures Dedup([b]) + Without(Dedup([x]), [b]) == [b, x]
  {
    DedupOfDistinct([b]);
    DedupOfDistinct([x]);
    WithoutDisjoint([x], [b]);
  }

  /** Excluding values that `xs` does not hold changes nothing. */
  lemma {:induction false} WithoutDisjoint(xs: seq<int>, excluded: seq<int>)
    requires forall x :: x in xs ==> x !in excluded
    ensures Without(xs, excluded) == xs
  {
    if xs != [] {
      var prefix := xs[..|xs| - 1];
      assert xs == prefix + [xs[|xs| - 1]];
      WithoutDisjoint(prefix, excluded);
    }
  }

  /** Inserting one more value into the set. */
  lemma DedupSnoc(xs: seq<int>, x: int)
    ensures Dedup(xs + [x]) == if x in xs then Dedup(xs) else Dedup(xs) + [x]
  {
    assert (xs + [x])[..|xs|] == xs;
  }

  /** Filtering one more value. */
  lemma WithoutSnoc(xs: seq<int>, x: int, excluded: seq<int>)
    ensures Without(xs + [x], excluded) == Without(xs, excluded) + (if x in excluded then [] else [x])
  {
    assert (xs + [x])[..|xs|] == xs;
  }

  /** One step of `DedupAppend` when `x` is new to `b`. */
  lemma DedupAppendNewStep(a: seq<int>, prefix: seq<int>, x: int)
    requires x !in prefix
    requires Dedup(a + prefix) == Dedup(a) + Without(Dedup(prefix), a)
    ensures Dedup(a + prefix + [x]) == Dedup(a) + Without(Dedup(prefix + [x]), a)
  {
    var seenB := Dedup(prefix);
    DedupSnoc(a + prefix, x);
    DedupSnoc(prefix, x);
    WithoutSnoc(seenB, x, a);
  }

  /** Inserting `a` then `b` into an empty set yields the distinct values of
      `a` in first-occurrence order, followed by those distinct values of `b`
      that `a` does not hold, in first-occurrence order. */
  lemma {:induction false} DedupAppend(a: seq<int>, b: seq<int>)
    ensures Dedup(a + b) == Dedup(a) + Without(Dedup(b), a)
  {
    if b == [] {
      assert a + b == a;
      assert Without(Dedup(b), a) == [];
    } else {
      var prefix, x := b[..|b| - 1], b[|b| - 1];
      assert b == prefix + [x];
      assert a + b == a + prefix + [x];
      DedupAppend(a, prefix);
      if x in prefix {
        DedupSnoc(a + prefix, x);
        DedupSnoc(prefix, x);
      } else {
        DedupAppendNewStep(a, prefix, x);
      }
    }
  }
}
