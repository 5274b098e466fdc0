/** Python's `sorted` on a list of strings: ascending code-point order. */
module Sorting {
  import opened Text

  predicate Ascending(s: seq<string>) {
    forall i, j :: 0 <= i < j < |s| ==> NotAbove(s[i], s[j])
  }

  /** Puts `x` into an ascending list at its place. */
  function Insert(x: string, s: seq<string>): (r: seq<string>)
    requires Ascending(s)
    ensures Ascending(r)
    ensures multiset(r) == multiset(s) + multiset{x}
    ensures |r| > 0 && (r[0] == x || (|s| > 0 && r[0] == s[0]))
  {
    if |s| == 0 then [x]
    else if NotAbove(x, s[0]) then
      assert forall j :: 0 < j < |s| + 1 ==> NotAbove(x, ([x] + s)[j]) by {
        forall j | 0 < j < |s| + 1 ensures NotAbove(x, ([x] + s)[j]) {
          NotAboveTransitive(x, s[0], s[j - 1]);
        }
      }
      [x] + s
    else
      var rest := Insert(x, s[1..]);
      assert NotAbove(s[0], x) by { BelowTotal(x, s[0]); }
      assert multiset(s) == multiset{s[0]} + multiset(s[1..]) by {
        assert s == [s[0]] + s[1..];
      }
      assert forall j :: 0 <= j < |rest| ==> NotAbove(s[0], rest[j]) by {
        forall j | 0 <= j < |rest| ensures NotAbove(s[0], rest[j]) {
          assert rest[j] in multiset(rest);
          assert rest[j] == x || rest[j] in multiset(s[1..]);
          if rest[j] != x {
            var k :| 0 <= k < |s[1..]| && s[1..][k] == rest[j];
            assert NotAbove(s[0], s[k + 1]);
          }
        }
      }
      [s[0]] + rest
  }

  /** Insertion sort: an ascending permutation of `s`. */
  function Sort(s: seq<string>): (r: seq<string>)
    ensures Ascending(r)
    ensures multiset(r) == multiset(s)
  {
    if |s| == 0 then []
    else
      assert s == [s[0]] + s[1..];
      Insert(s[0], Sort(s[1..]))
  }

  /** An ascending list is fixed by its multiset: sorting forgets the input order. */
  lemma {:induction false} AscendingUnique(a: seq<string>, b: seq<string>)
    requires Ascending(a) && Ascending(b)
    requires multiset(a) == multiset(b)
    ensures a == b
  {
    if |a| == 0 {
      assert |multiset(b)| == 0;
    } else {
      SameHead(a, b);
      DropHead(a);
      DropHead(b);
      AscendingUnique(a[1..], b[1..]);
      assert a == [a[0]] + a[1..] && b == [b[0]] + b[1..];
    }
  }

  /** Two ascending lists with the same elements start with the same element. */
  lemma SameHead(a: seq<string>, b: seq<string>)
    requires Ascending(a) && Ascending(b)
    requires multiset(a) == multiset(b)
    requires |a| > 0
    ensures |b| > 0 && a[0] == b[0]
  {
    assert |b| == |multiset(b)| == |multiset(a)| == |a|;
    assert a[0] in multiset(b);
    assert b[0] in multiset(a);
    var i :| 0 <= i < |b| && b[i] == a[0];
    var j :| 0 <= j < |a| && a[j] == b[0];
    assert NotAbove(b[0], a[0]);
    assert NotAbove(a[0], b[0]);
    if a[0] != b[0] {
      BelowAsymmetric(a[0], b[0]);
    }
  }

  /** Dropping the first element of an ascending list leaves an ascending list without it. */
  lemma DropHead(a: seq<string>)
    requires Ascending(a) && |a| > 0
    ensures Ascending(a[1..])
    ensures multiset(a[1..]) == multiset(a) - multiset{a[0]}
  {
    assert a == [a[0]] + a[1..];
    assert multiset(a) == multiset{a[0]} + multiset(a[1..]);
  }

  /** Shuffling the input never changes the sorted result. */
  lemma SortDependsOnlyOnMultiset(a: seq<string>, b: seq<string>)
    requires multiset(a) == multiset(b)
    ensures Sort(a) == Sort(b)
  {
    AscendingUnique(Sort(a), Sort(b));
  }
}
