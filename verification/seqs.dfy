/** Sequence helpers shared by the whole model. */
module Seqs {

  function Max0(n: int): nat {
    if n < 0 then 0 else n
  }

  /** Python's [x] * n for n >= 0 (and [] for negative n, like range(n)). */
  function Repeat<T>(x: T, n: int): (r: seq<T>)
    ensures |r| == Max0(n)
    ensures forall i :: 0 <= i < |r| ==> r[i] == x
  {
    seq(Max0(n), _ => x)
  }

  /** The lists of a list of lists, concatenated in order. */
  function Flatten<T>(xss: seq<seq<T>>): seq<T> {
    if xss == [] then [] else xss[0] + Flatten(xss[1..])
  }

  lemma {:induction false} FlattenConcat<T>(a: seq<seq<T>>, b: seq<seq<T>>)
    ensures Flatten(a + b) == Flatten(a) + Flatten(b)
  {
    if a == [] {
      assert a + b == b;
    } else {
      assert (a + b)[1..] == a[1..] + b;
      FlattenConcat(a[1..], b);
    }
  }

  lemma FlattenSnoc<T>(a: seq<seq<T>>, x: seq<T>)
    ensures Flatten(a + [x]) == Flatten(a) + x
  {
    FlattenConcat(a, [x]);
    assert Flatten([x]) == x + Flatten([x][1..]);
  }

  predicate Distinct<T(==)>(xs: seq<T>) {
    forall i, j :: 0 <= i < j < |xs| ==> xs[i] != xs[j]
  }

  /** In a list without repetitions every member occurs exactly once. */
  lemma {:induction false} DistinctOnce<T>(xs: seq<T>, x: T)
    requires Distinct(xs) && x in xs
    ensures multiset(xs)[x] == 1
  {
    var init := xs[..|xs|-1];
    assert xs == init + [xs[|xs|-1]];
    if x == xs[|xs|-1] {
      assert x !in init;
    } else {
      DistinctOnce(init, x);
    }
  }

  lemma MultisetCancel<T>(a: multiset<T>, b: multiset<T>, c: multiset<T>)
    requires a + c == b + c
    ensures a == b
  {
    forall x
      ensures a[x] == b[x]
    {
      assert (a + c)[x] == (b + c)[x];
    }
  }

  lemma MultisetGrow<T>(a: multiset<T>, b: multiset<T>, c: multiset<T>)
    requires a <= b
    ensures a + c <= b + c
  {
    forall x
      ensures (a + c)[x] <= (b + c)[x]
    {
      assert a[x] <= b[x];
    }
  }
}
