/** List helpers the pages and handlers share: keeping the first element per
    key (`reduce` with a `find` on the accumulator, or `findIndex(...) === index`),
    and counting the elements that satisfy a predicate (`filter(...).length`). */
module Lists {

  function KeySet<T(==), K(==)>(xs: seq<T>, key: T -> K): set<K> {
    set x | x in xs :: key(x)
  }

  predicate DistinctKeys<T, K(==)>(xs: seq<T>, key: T -> K) {
    forall i, j :: 0 <= i < j < |xs| ==> key(xs[i]) != key(xs[j])
  }

  /** `x` is the first element of `xs` carrying its key. */
  predicate FirstOfItsKey<T(==), K(==)>(xs: seq<T>, key: T -> K, x: T) {
    exists i :: 0 <= i < |xs| && xs[i] == x && forall j :: 0 <= j < i ==> key(xs[j]) != key(x)
  }

  /** The first element of every key, in the order the keys first appear. */
  function FirstPerKey<T(==), K(==)>(xs: seq<T>, key: T -> K): (r: seq<T>)
    ensures DistinctKeys(r, key)
    ensures KeySet(r, key) == KeySet(xs, key)
    ensures forall i :: 0 <= i < |r| ==> FirstOfItsKey(xs, key, r[i])
    ensures |r| <= |xs|
  {
    if |xs| == 0 then []
    else
      var prev := FirstPerKey(xs[..|xs| - 1], key);
      var last := xs[|xs| - 1];
      FirstPerKeyStep(xs, key, prev);
      if key(last) in KeySet(prev, key) then prev else prev + [last]
  }

  lemma FirstPerKeyStep<T, K>(xs: seq<T>, key: T -> K, prev: seq<T>)
    requires |xs| > 0
    requires DistinctKeys(prev, key)
    requires KeySet(prev, key) == KeySet(xs[..|xs| - 1], key)
    requires forall i :: 0 <= i < |prev| ==> FirstOfItsKey(xs[..|xs| - 1], key, prev[i])
    ensures var last := xs[|xs| - 1];
      var r := if key(last) in KeySet(prev, key) then prev else prev + [last];
      DistinctKeys(r, key) && KeySet(r, key) == KeySet(xs, key)
      && (forall i :: 0 <= i < |r| ==> FirstOfItsKey(xs, key, r[i]))
  {
    var init := xs[..|xs| - 1];
    var last := xs[|xs| - 1];
    assert xs == init + [last];
    assert KeySet(xs, key) == KeySet(init, key) + {key(last)};
    forall i | 0 <= i < |prev|
      ensures FirstOfItsKey(xs, key, prev[i])
    {
      var k :| 0 <= k < |init| && init[k] == prev[i] && forall j :: 0 <= j < k ==> key(init[j]) != key(prev[i]);
      assert xs[k] == prev[i];
    }
    if key(last) !in KeySet(prev, key) {
      var r := prev + [last];
      assert KeySet(r, key) == KeySet(prev, key) + {key(last)};
      forall j | 0 <= j < |xs| - 1
        ensures key(xs[j]) != key(last)
      {
        assert init[j] in init;
      }
      assert FirstOfItsKey(xs, key, r[|r| - 1]) by {
        assert xs[|xs| - 1] == last;
      }
      forall i, j | 0 <= i < j < |r|
        ensures key(r[i]) != key(r[j])
      {
        if j == |r| - 1 {
          assert r[i] in prev;
        }
      }
    }
  }

  /** `filter((_, i) => i !== index)`: the entry at `index` dropped, the
      rest in order; an index out of range drops nothing. */
  function RemoveAt<T>(xs: seq<T>, index: int): (r: seq<T>)
    ensures 0 <= index < |xs| ==> |r| == |xs| - 1
    ensures 0 <= index < |xs| ==> forall j :: 0 <= j < index ==> r[j] == xs[j]
    ensures 0 <= index < |xs| ==> forall j :: index <= j < |r| ==> r[j] == xs[j + 1]
    ensures !(0 <= index < |xs|) ==> r == xs
  {
    if 0 <= index < |xs| then xs[..index] + xs[index + 1..] else xs
  }

  /** `filter(p)`. */
  function Filter<T>(xs: seq<T>, p: T -> bool): (r: seq<T>)
    ensures |r| == CountIf(xs, p)
    ensures forall i :: 0 <= i < |r| ==> r[i] in xs && p(r[i])
    ensures forall i :: 0 <= i < |xs| && p(xs[i]) ==> xs[i] in r
  {
    if |xs| == 0 then []
    else
      var prev := Filter(xs[..|xs| - 1], p);
      var last := xs[|xs| - 1];
      assert forall i :: 0 <= i < |xs| - 1 ==> xs[i] == xs[..|xs| - 1][i];
      if p(last) then prev + [last] else prev
  }

  /** `filter(p).length`. */
  function CountIf<T>(xs: seq<T>, p: T -> bool): (n: nat)
    ensures n <= |xs|
  {
    if |xs| == 0 then 0
    else CountIf(xs[..|xs| - 1], p) + (if p(xs[|xs| - 1]) then 1 else 0)
  }

  lemma {:induction false} CountIfAppend<T>(xs: seq<T>, ys: seq<T>, p: T -> bool)
    ensures CountIf(xs + ys, p) == CountIf(xs, p) + CountIf(ys, p)
    decreases |ys|
  {
    if |ys| == 0 {
      assert xs + ys == xs;
    } else {
      assert (xs + ys)[..|xs + ys| - 1] == xs + ys[..|ys| - 1];
      CountIfAppend(xs, ys[..|ys| - 1], p);
    }
  }

  /** Complementary filters split a list. */
  lemma {:induction false} CountIfComplement<T>(xs: seq<T>, p: T -> bool, q: T -> bool)
    requires forall x :: q(x) == !p(x)
    ensures CountIf(xs, p) + CountIf(xs, q) == |xs|
    decreases |xs|
  {
    if |xs| > 0 {
      CountIfComplement(xs[..|xs| - 1], p, q);
    }
  }
}
