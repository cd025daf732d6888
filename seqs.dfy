/** Sequence helpers for the insertion-ordered dictionaries and key lists of the property store. */
module Seqs {

  predicate NoDuplicates<T(==)>(xs: seq<T>) {
    forall i, j :: 0 <= i < j < |xs| ==> xs[i] != xs[j]
  }

  function Elems<T>(xs: seq<T>): set<T> {
    set x | x in xs
  }

  /** `xs` with every occurrence of `x` taken out (an ordered dictionary's `pop(x)`). */
  function Without<T(==)>(xs: seq<T>, x: T): (r: seq<T>)
    ensures Elems(r) == Elems(xs) - {x}
    ensures NoDuplicates(xs) ==> NoDuplicates(r)
    ensures NoDuplicates(xs) && x in xs ==> |r| == |xs| - 1
    ensures x !in xs ==> r == xs
  {
    if |xs| == 0 then []
    else
      var rest := Without(xs[1..], x);
      assert Elems(xs) == {xs[0]} + Elems(xs[1..]);
      if xs[0] == x then rest
      else
        assert NoDuplicates(xs) ==> xs[0] !in Elems(rest);
        assert Elems([xs[0]] + rest) == {xs[0]} + Elems(rest);
        [xs[0]] + rest
  }

  /** Taking `x` out of a sequence extended by one element. */
  lemma {:induction false} WithoutSnoc<T>(xs: seq<T>, y: T, x: T)
    ensures Without(xs + [y], x) == Without(xs, x) + (if y == x then [] else [y])
  {
    if |xs| == 0 {
      assert xs + [y] == [y];
    } else {
      assert (xs + [y])[1..] == xs[1..] + [y];
      WithoutSnoc(xs[1..], y, x);
    }
  }

  /** Taking `x` out distributes over concatenation. */
  lemma {:induction false} WithoutAppend<T>(xs: seq<T>, ys: seq<T>, x: T)
    ensures Without(xs + ys, x) == Without(xs, x) + Without(ys, x)
  {
    if |xs| == 0 {
      assert xs + ys == ys;
    } else {
      assert (xs + ys)[1..] == xs[1..] + ys;
      WithoutAppend(xs[1..], ys, x);
    }
  }

  /** Inserting an absent `x` and taking it out again gives back the sequence. */
  lemma WithoutInsert<T>(xs: seq<T>, i: nat, x: T)
    requires x !in xs
    ensures Without(Insert(xs, i, x), x) == xs
  {
    var k := if i < |xs| then i else |xs|;
    var r := Insert(xs, i, x);
    assert r == r[..k] + ([x] + r[k + 1..]);
    assert r[..k] == xs[..k] && r[k + 1..] == xs[k..] by {
      assert r[..k] + r[k + 1..] == xs;
      assert |r[..k]| == k;
    }
    WithoutAppend(r[..k], [x] + r[k + 1..], x);
    WithoutAppend([x], r[k + 1..], x);
    assert Without(xs[..k], x) == xs[..k] && Without(xs[k..], x) == xs[k..] by {
      assert x !in xs[..k] && x !in xs[k..];
    }
    assert xs[..k] + xs[k..] == xs;
  }

  /** Python's `list.insert(i, x)` for a non-negative `i`: an index past the end appends. */
  function Insert<T>(xs: seq<T>, i: nat, x: T): (r: seq<T>)
    ensures |r| == |xs| + 1
    ensures r[if i < |xs| then i else |xs|] == x
    ensures var k := if i < |xs| then i else |xs|; r[..k] + r[k + 1..] == xs
    ensures Elems(r) == Elems(xs) + {x}
  {
    if i < |xs| then
      var r := xs[..i] + [x] + xs[i..];
      assert r[..i] + r[i + 1..] == xs[..i] + xs[i..];
      assert xs[..i] + xs[i..] == xs;
      r
    else
      var r := xs + [x];
      assert r[..|xs|] == xs;
      r
  }

  /** Inserting an element that is not there yet keeps the sequence free of duplicates. */
  lemma InsertNoDuplicates<T>(xs: seq<T>, i: nat, x: T)
    requires NoDuplicates(xs) && x !in xs
    ensures NoDuplicates(Insert(xs, i, x))
  {
    var r := Insert(xs, i, x);
    var k := if i < |xs| then i else |xs|;
    assert r == r[..k] + [x] + r[k + 1..];
    assert r[..k] == xs[..k] && r[k + 1..] == xs[k..] by {
      assert r[..k] + r[k + 1..] == xs;
      assert |r[..k]| == k;
    }
    forall a, b | 0 <= a < b < |r| ensures r[a] != r[b] {
      if a < k && b > k {
        assert r[a] == xs[a] && r[b] == xs[b - 1];
      } else if a < k && b == k {
        assert r[a] == xs[a];
      } else if a == k {
        assert r[b] == xs[b - 1];
      } else if a > k {
        assert r[a] == xs[a - 1] && r[b] == xs[b - 1];
      } else {
        assert r[a] == xs[a] && r[b] == xs[b];
      }
    }
  }

  /** Position of the first occurrence of `x` in `s` (Python's `index`, for `x in s`). */
  function FirstIndex<T(==)>(s: seq<T>, x: T): (k: nat)
    requires x in s
    ensures k < |s| && s[k] == x
    ensures forall j :: 0 <= j < k ==> s[j] != x
  {
    if s[0] == x then 0 else FirstIndex(s[1..], x) + 1
  }
}
