/**
 * The list discipline every history store shares: newest first, at most
 * fifty entries, deletion by id keeping the order of the rest.
 */
module BoundedHistory {
  import opened JsStrings

  /** MAX_ITEMS of every store. */
  const MaxItems: nat := 50

  /** `item` put in front of `xs` (unshift), then the first fifty kept. */
  function Prepended<T>(xs: seq<T>, item: T): (r: seq<T>)
    ensures |r| == if |xs| < MaxItems then |xs| + 1 else MaxItems
    ensures r[0] == item && r[1..] == xs[..|r| - 1]
  {
    var h := [item] + xs;
    assert h[1..] == xs;
    h[..if |h| < MaxItems then |h| else MaxItems]
  }

  /** Below capacity nothing is lost. */
  lemma PrependedBelowCapacity<T>(xs: seq<T>, item: T)
    requires |xs| < MaxItems
    ensures Prepended(xs, item) == [item] + xs
  {
    var r := Prepended(xs, item);
    assert r == [r[0]] + r[1..];
  }

  /** At or over capacity only the tail past the 49th item is evicted; the 49 before it keep their order. */
  lemma PrependedAtCapacity<T>(xs: seq<T>, item: T)
    requires |xs| >= MaxItems
    ensures Prepended(xs, item) == [item] + xs[..MaxItems - 1]
    ensures |xs| == MaxItems ==> Prepended(xs, item) + [xs[MaxItems - 1]] == [item] + xs
  {
    var r := Prepended(xs, item);
    assert r == [r[0]] + r[1..];
    if |xs| == MaxItems {
      assert xs == xs[..MaxItems - 1] + [xs[MaxItems - 1]];
    }
  }

  /**
   * saveHaiku's `if (length > 50) splice(50)` on the array after unshift
   * leaves the same list as the other stores' `slice(0, 50)`.
   */
  lemma SpliceIsSlice<T>(xs: seq<T>, item: T)
    ensures (var h := [item] + xs; if |h| > MaxItems then h[..MaxItems] else h) == Prepended(xs, item)
  {
    var h := [item] + xs;
    if |h| <= MaxItems {
      assert h[..|h|] == h;
    }
  }

  /** filter(x => x.id !== id): the items whose id differs, in their order. */
  function WithoutId<T>(xs: seq<T>, idOf: T -> JsString, id: JsString): (r: seq<T>)
    ensures |r| <= |xs|
    ensures forall i :: 0 <= i < |r| ==> idOf(r[i]) != id
  {
    if xs == [] then []
    else if idOf(xs[0]) != id then [xs[0]] + WithoutId(xs[1..], idOf, id)
    else WithoutId(xs[1..], idOf, id)
  }

  /** `a` is `b` with some entries left out, the rest in the same order. */
  predicate IsSubsequence<T(==)>(a: seq<T>, b: seq<T>)
    decreases |b|
  {
    if a == [] then true
    else if b == [] then false
    else if a[0] == b[0] then IsSubsequence(a[1..], b[1..])
    else IsSubsequence(a, b[1..])
  }

  /** Deleting keeps every other item as often as it occurred, and in order. */
  lemma {:induction false} WithoutIdKeepsOthers<T>(xs: seq<T>, idOf: T -> JsString, id: JsString)
    ensures IsSubsequence(WithoutId(xs, idOf, id), xs)
    ensures forall x :: multiset(WithoutId(xs, idOf, id))[x] == if idOf(x) == id then 0 else multiset(xs)[x]
  {
    if xs != [] {
      WithoutIdKeepsOthers(xs[1..], idOf, id);
      assert xs == [xs[0]] + xs[1..];
      var r := WithoutId(xs, idOf, id);
      if idOf(xs[0]) != id {
        assert r[1..] == WithoutId(xs[1..], idOf, id);
      }
    }
  }

  /** Deleting an id no item has changes nothing. */
  lemma {:induction false} WithoutAbsentId<T>(xs: seq<T>, idOf: T -> JsString, id: JsString)
    requires forall i :: 0 <= i < |xs| ==> idOf(xs[i]) != id
    ensures WithoutId(xs, idOf, id) == xs
  {
    if xs != [] {
      WithoutAbsentId(xs[1..], idOf, id);
      assert xs == [xs[0]] + xs[1..];
    }
  }
}
