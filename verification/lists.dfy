/**
 * The two array filters the editor handlers use: dropping every element equal
 * to a value (`xs.filter(y => y !== x)`) and dropping the element at one
 * position (`xs.filter((_, i) => i !== index)`).
 */
module Lists {

  /** `xs.filter(y => y !== x)`: every occurrence of `x` removed, the rest kept with multiplicity. */
  function RemoveAll<T(==)>(xs: seq<T>, x: T): (r: seq<T>)
    ensures x !in r
    ensures forall y :: y in r ==> y in xs
    ensures forall y :: y in xs && y != x ==> y in r
    ensures multiset(r) == multiset(xs)[x := 0]
    ensures x !in xs ==> r == xs
  {
    if xs == [] then []
    else
      var rest := RemoveAll(xs[1..], x);
      assert xs == [xs[0]] + xs[1..];
      if xs[0] == x then rest else [xs[0]] + rest
  }

  /** Filtering distributes over concatenation, so the kept elements keep their relative order. */
  lemma {:induction false} RemoveAllAppend<T>(a: seq<T>, b: seq<T>, x: T)
    ensures RemoveAll(a + b, x) == RemoveAll(a, x) + RemoveAll(b, x)
  {
    if a == [] {
      assert a + b == b;
    } else {
      assert (a + b)[1..] == a[1..] + b;
      RemoveAllAppend(a[1..], b, x);
    }
  }

  /** Filtering a one-element sequence keeps it exactly when it differs from `x`. */
  lemma RemoveAllSingleton<T>(y: T, x: T)
    ensures RemoveAll([y], x) == if y == x then [] else [y]
  {
    assert [y][1..] == [];
  }

  /**
   * `xs.filter((_, i) => i !== index)`: with `index` a position of `xs` the
   * element there is dropped and every later element moves down one place;
   * with any other `index` nothing is dropped.
   */
  function RemoveIndex<T>(xs: seq<T>, index: int): (r: seq<T>)
    ensures 0 <= index < |xs| ==> |r| == |xs| - 1
    ensures 0 <= index < |xs| ==> forall k :: 0 <= k < index ==> r[k] == xs[k]
    ensures 0 <= index < |xs| ==> forall k :: index <= k < |r| ==> r[k] == xs[k + 1]
    ensures !(0 <= index < |xs|) ==> r == xs
  {
    if xs == [] then []
    else if index == 0 then xs[1..]
    else [xs[0]] + RemoveIndex(xs[1..], index - 1)
  }
}
