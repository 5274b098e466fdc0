/** Mapping a function over a sequence, and why that respects permutations. */
module Seqs {

  function Map<T, U>(f: T -> U, xs: seq<T>): (ys: seq<U>)
    ensures |ys| == |xs|
    ensures forall i :: 0 <= i < |xs| ==> ys[i] == f(xs[i])
  {
    seq(|xs|, i requires 0 <= i < |xs| => f(xs[i]))
  }

  lemma MapAppend<T, U>(f: T -> U, a: seq<T>, b: seq<T>)
    ensures Map(f, a + b) == Map(f, a) + Map(f, b)
  {
  }

  /** Mapping over two permutations of one list gives two permutations of one list. */
  lemma {:induction false} MapPermutation<T, U>(f: T -> U, a: seq<T>, b: seq<T>)
    requires multiset(a) == multiset(b)
    ensures multiset(Map(f, a)) == multiset(Map(f, b))
    decreases |a|
  {
    if |a| == 0 {
      assert |b| == |multiset(b)| == 0;
    } else {
      var x := a[0];
      assert x in multiset(b);
      var j :| 0 <= j < |b| && b[j] == x;
      var b' := b[..j] + b[j + 1..];
      assert b == b[..j] + [x] + b[j + 1..];
      assert a == [x] + a[1..];
      assert multiset(a[1..]) == multiset(b') by {
        assert multiset(b) == multiset(b[..j]) + multiset{x} + multiset(b[j + 1..]);
        assert multiset(a) == multiset{x} + multiset(a[1..]);
        assert multiset(b') == multiset(b[..j]) + multiset(b[j + 1..]);
        assert multiset(a[1..]) == multiset(a) - multiset{x};
        assert multiset(b') == multiset(b) - multiset{x};
      }
      MapPermutation(f, a[1..], b');
      MapAppend(f, b[..j], b[j + 1..]);
      MapAppend(f, b[..j] + [x], b[j + 1..]);
      MapAppend(f, b[..j], [x]);
      MapAppend(f, [x], a[1..]);
    }
  }
}
