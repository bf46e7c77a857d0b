/** The list operations the reducer is built from: JavaScript's `filter` and
    `map` over a list of records, keyed by an id projection. */
module Lists {

  /** Some element of `xs` has key `k`. */
  predicate HasKey<T>(xs: seq<T>, key: T -> string, k: string)
  {
    exists i :: 0 <= i < |xs| && key(xs[i]) == k
  }

  /** No two elements of `xs` share a key. */
  predicate DistinctKeys<T>(xs: seq<T>, key: T -> string)
  {
    forall i, j :: 0 <= i < j < |xs| ==> key(xs[i]) != key(xs[j])
  }

  /** `xs.filter(x => key(x) !== k)`: the elements whose key is not `k`. */
  function Without<T(!new)>(xs: seq<T>, key: T -> string, k: string): (r: seq<T>)
    ensures |r| <= |xs|
    ensures forall x :: x in r <==> x in xs && key(x) != k
    ensures !HasKey(r, key, k)
    ensures !HasKey(xs, key, k) ==> r == xs
    ensures HasKey(xs, key, k) ==> |r| < |xs|
    decreases |xs|
  {
    if |xs| == 0 then []
    else
      var rest := Without(xs[1..], key, k);
      assert forall i :: 0 < i < |xs| ==> xs[i] == xs[1..][i - 1];
      if key(xs[0]) != k then [xs[0]] + rest else rest
  }

  /** Filtering distributes over concatenation: what is kept keeps its order. */
  lemma {:induction false} WithoutAppend<T(!new)>(a: seq<T>, b: seq<T>, key: T -> string, k: string)
    ensures Without(a + b, key, k) == Without(a, key, k) + Without(b, key, k)
    decreases |a|
  {
    if |a| == 0 {
      assert a + b == b;
    } else {
      assert (a + b)[1..] == a[1..] + b;
      WithoutAppend(a[1..], b, key, k);
    }
  }

  /** Filtering never introduces a repeated key. */
  lemma {:induction false} WithoutKeepsDistinct<T(!new)>(xs: seq<T>, key: T -> string, k: string)
    requires DistinctKeys(xs, key)
    ensures DistinctKeys(Without(xs, key, k), key)
    decreases |xs|
  {
    if |xs| > 0 {
      var rest := Without(xs[1..], key, k);
      WithoutKeepsDistinct(xs[1..], key, k);
      if key(xs[0]) != k {
        var r := [xs[0]] + rest;
        forall i, j | 0 <= i < j < |r| ensures key(r[i]) != key(r[j]) {
          if i == 0 {
            assert r[j] in xs[1..];
            var m :| 0 <= m < |xs[1..]| && xs[1..][m] == r[j];
            assert xs[m + 1] == r[j];
          } else {
            assert r[i] == rest[i - 1] && r[j] == rest[j - 1];
          }
        }
      }
    }
  }

  /** Appending an element whose key is not yet present keeps keys distinct. */
  lemma AppendFreshKeepsDistinct<T>(xs: seq<T>, key: T -> string, x: T)
    requires DistinctKeys(xs, key) && !HasKey(xs, key, key(x))
    ensures DistinctKeys(xs + [x], key)
  {
    var r := xs + [x];
    forall i, j | 0 <= i < j < |r| ensures key(r[i]) != key(r[j]) {
      if j == |xs| {
        assert r[i] == xs[i];
      }
    }
  }

  /** `xs.map(x => key(x) === key(y) ? y : x)`: every element with the key of
      `y` is replaced by `y`. */
  function Replace<T>(xs: seq<T>, key: T -> string, y: T): (r: seq<T>)
    ensures |r| == |xs|
    ensures forall i :: 0 <= i < |xs| ==> key(r[i]) == key(xs[i])
    ensures forall i :: 0 <= i < |xs| && key(xs[i]) != key(y) ==> r[i] == xs[i]
    ensures forall i :: 0 <= i < |xs| && key(xs[i]) == key(y) ==> r[i] == y
  {
    seq(|xs|, i requires 0 <= i < |xs| => if key(xs[i]) == key(y) then y else xs[i])
  }

  /** Replacing by key keeps the key sequence, so it keeps keys distinct, and
      with no element of that key it changes nothing. */
  lemma ReplaceKeepsKeys<T>(xs: seq<T>, key: T -> string, y: T)
    ensures DistinctKeys(xs, key) ==> DistinctKeys(Replace(xs, key, y), key)
    ensures forall k :: HasKey(Replace(xs, key, y), key, k) <==> HasKey(xs, key, k)
    ensures !HasKey(xs, key, key(y)) ==> Replace(xs, key, y) == xs
  {
    var r := Replace(xs, key, y);
    forall k ensures HasKey(r, key, k) <==> HasKey(xs, key, k) {
      if HasKey(r, key, k) {
        var i :| 0 <= i < |r| && key(r[i]) == k;
        assert key(xs[i]) == k;
      }
      if HasKey(xs, key, k) {
        var i :| 0 <= i < |xs| && key(xs[i]) == k;
        assert key(r[i]) == k;
      }
    }
  }
}
