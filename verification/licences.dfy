/**
  The licence frequency table of both report generators: sort the licence
  list, then for each item in sorted order store `list.count(item)` in a
  dict. A Python dict keeps insertion order and overwrites in place, so it
  is modelled as a list of (key, count) pairs.
 */
module Licences {
  import opened Text
  import opened Sorting

  type Frequencies = seq<(string, nat)>

  function Keys(f: Frequencies): (ks: seq<string>)
    ensures |ks| == |f|
    ensures forall i :: 0 <= i < |f| ==> ks[i] == f[i].0
  {
    seq(|f|, i requires 0 <= i < |f| => f[i].0)
  }

  /** The sum of all counts in the table. */
  function SumCounts(f: Frequencies): nat {
    if |f| == 0 then 0 else f[0].1 + SumCounts(f[1..])
  }

  predicate StrictlyAscending(ks: seq<string>) {
    forall i, j :: 0 <= i < j < |ks| ==> Below(ks[i], ks[j])
  }

  /** Every entry holds the number of occurrences of its key in `m`. */
  predicate Counted(f: Frequencies, m: multiset<string>) {
    forall i :: 0 <= i < |f| ==> f[i].1 == m[f[i].0]
  }

  /** No key occurs twice, as in any dict. */
  predicate Distinct(ks: seq<string>) {
    forall i, j :: 0 <= i < j < |ks| ==> ks[i] != ks[j]
  }

  /** `freq[key] = value` on a dict: overwrite in place when present, else append. */
  function Store(f: Frequencies, key: string, value: nat): (r: Frequencies)
    ensures key !in Keys(f) ==> r == f + [(key, value)]
  {
    if |f| == 0 then [(key, value)]
    else if f[0].0 == key then [(key, value)] + f[1..]
    else
      assert Keys(f) == [f[0].0] + Keys(f[1..]);
      [f[0]] + Store(f[1..], key, value)
  }

  /** Storing a key that is already present overwrites its entry and keeps every other one. */
  lemma {:induction false} StoreOverwrites(f: Frequencies, key: string, value: nat)
    requires Distinct(Keys(f)) && key in Keys(f)
    ensures |Store(f, key, value)| == |f|
    ensures forall i :: 0 <= i < |f| ==> Store(f, key, value)[i] == (if f[i].0 == key then (key, value) else f[i])
  {
    var r := Store(f, key, value);
    if f[0].0 == key {
      assert r == [(key, value)] + f[1..];
      forall i | 0 <= i < |f| ensures r[i] == (if f[i].0 == key then (key, value) else f[i]) {
        if i > 0 {
          assert Keys(f)[0] != Keys(f)[i];
          assert r[i] == f[i];
        }
      }
    } else {
      var rest := Store(f[1..], key, value);
      assert key in Keys(f[1..]) by {
        var k :| 0 <= k < |f| && Keys(f)[k] == key;
        assert Keys(f[1..])[k - 1] == key;
      }
      assert Distinct(Keys(f[1..])) by {
        forall i, j | 0 <= i < j < |f[1..]| ensures Keys(f[1..])[i] != Keys(f[1..])[j] {
          assert Keys(f)[i + 1] != Keys(f)[j + 1];
        }
      }
      StoreOverwrites(f[1..], key, value);
      assert r == [f[0]] + rest;
      forall i | 0 <= i < |f| ensures r[i] == (if f[i].0 == key then (key, value) else f[i]) {
        if i > 0 {
          assert r[i] == rest[i - 1] && f[i] == f[1..][i - 1];
        }
      }
    }
  }

  /** The loop `for item in sorted_list: freq[item] = full_list.count(item)`. */
  function CountSorted(f: Frequencies, s: seq<string>, all: multiset<string>): Frequencies
    decreases |s|
  {
    if |s| == 0 then f else CountSorted(Store(f, s[0], all[s[0]]), s[1..], all)
  }

  /**
    The frequency table of a licence list: distinct licences in strictly
    ascending order, each with its number of occurrences, together
    accounting for every element of the list.
   */
  function Tabulate(ls: seq<string>): (f: Frequencies)
    ensures StrictlyAscending(Keys(f))
    ensures forall i :: 0 <= i < |f| ==> f[i].1 == multiset(ls)[f[i].0] && f[i].1 > 0
    ensures forall k :: k in Keys(f) <==> k in ls
    ensures SumCounts(f) == |ls|
  {
    TabulateFacts(ls);
    CountSorted([], Sort(ls), multiset(ls))
  }

  lemma TabulateFacts(ls: seq<string>)
    ensures var f := CountSorted([], Sort(ls), multiset(ls));
      && StrictlyAscending(Keys(f))
      && (forall i :: 0 <= i < |f| ==> f[i].1 == multiset(ls)[f[i].0] && f[i].1 > 0)
      && (forall k :: k in Keys(f) <==> k in ls)
      && SumCounts(f) == |ls|
  {
    var s := Sort(ls);
    var m := multiset(ls);
    CountSortedFacts([], s, m);
    var f := CountSorted([], s, m);
    forall k ensures k in Keys(f) <==> k in ls {
      assert k in s <==> k in multiset(s);
    }
    forall k | k in m ensures k in Keys(f) {
      assert k in ls;
    }
    SumCountsCoversMultiset(f, m);
    forall i | 0 <= i < |f| ensures f[i].1 > 0 {
      assert Keys(f)[i] in ls;
    }
  }

  /** Storing a key's own count over an entry that already holds it changes nothing. */
  lemma StoreCountedKey(f: Frequencies, key: string, m: multiset<string>)
    requires Distinct(Keys(f)) && Counted(f, m) && key in Keys(f)
    ensures Store(f, key, m[key]) == f
  {
    var r := Store(f, key, m[key]);
    StoreOverwrites(f, key, m[key]);
    assert forall i :: 0 <= i < |f| ==> r[i] == f[i];
  }

  /** The invariant of the counting loop while `s` is still to be visited. */
  predicate CountInvariant(f: Frequencies, s: seq<string>, m: multiset<string>) {
    && StrictlyAscending(Keys(f))
    && Counted(f, m)
    && Ascending(s)
    && (|f| > 0 ==> forall j :: 0 <= j < |s| ==> NotAbove(f[|f| - 1].0, s[j]))
  }

  lemma AscendingIsDistinct(ks: seq<string>)
    requires StrictlyAscending(ks)
    ensures Distinct(ks)
  {
    forall i, j | 0 <= i < j < |ks| ensures ks[i] != ks[j] {
      if ks[i] == ks[j] {
        BelowIrreflexive(ks[i]);
      }
    }
  }

  /** One turn of the counting loop keeps its invariant and adds the visited key. */
  lemma CountStep(f: Frequencies, s: seq<string>, m: multiset<string>)
    requires |s| > 0 && CountInvariant(f, s, m)
    ensures CountInvariant(Store(f, s[0], m[s[0]]), s[1..], m)
    ensures forall k :: k in Keys(Store(f, s[0], m[s[0]])) <==> k in Keys(f) || k == s[0]
  {
    if s[0] in Keys(f) {
      CountStepSeen(f, s, m);
    } else {
      CountStepNew(f, s, m);
    }
  }

  /** A key met again (the list is sorted, so it is the last one stored) leaves the table as it is. */
  lemma CountStepSeen(f: Frequencies, s: seq<string>, m: multiset<string>)
    requires |s| > 0 && CountInvariant(f, s, m) && s[0] in Keys(f)
    ensures Store(f, s[0], m[s[0]]) == f
    ensures CountInvariant(f, s[1..], m)
  {
    var x := s[0];
    AscendingIsDistinct(Keys(f));
    StoreCountedKey(f, x, m);
    forall j | 0 <= j < |s[1..]| ensures NotAbove(f[|f| - 1].0, s[1..][j]) {
      assert NotAbove(x, s[j + 1]);
      NotAboveTransitive(f[|f| - 1].0, x, s[j + 1]);
    }
  }

  /** A new key goes to the end of the table, above every key before it. */
  lemma CountStepNew(f: Frequencies, s: seq<string>, m: multiset<string>)
    requires |s| > 0 && CountInvariant(f, s, m) && s[0] !in Keys(f)
    ensures Store(f, s[0], m[s[0]]) == f + [(s[0], m[s[0]])]
    ensures CountInvariant(f + [(s[0], m[s[0]])], s[1..], m)
    ensures Keys(f + [(s[0], m[s[0]])]) == Keys(f) + [s[0]]
  {
    var x := s[0];
    var f' := f + [(x, m[x])];
    forall i | 0 <= i < |f| ensures Below(f[i].0, x) {
      assert NotAbove(f[|f| - 1].0, x);
      if i < |f| - 1 {
        assert Below(Keys(f)[i], Keys(f)[|f| - 1]);
        NotAboveTransitive(f[i].0, f[|f| - 1].0, x);
      }
      assert Keys(f)[i] == f[i].0;
    }
    assert Keys(f') == Keys(f) + [x];
    forall j | 0 <= j < |s[1..]| ensures NotAbove(f'[|f'| - 1].0, s[1..][j]) {
      assert NotAbove(x, s[j + 1]);
    }
  }

  /** The invariant of the counting loop over a sorted list, and what it yields. */
  lemma {:induction false} CountSortedFacts(f: Frequencies, s: seq<string>, m: multiset<string>)
    requires CountInvariant(f, s, m)
    ensures StrictlyAscending(Keys(CountSorted(f, s, m)))
    ensures Counted(CountSorted(f, s, m), m)
    ensures forall k :: k in Keys(CountSorted(f, s, m)) <==> k in Keys(f) || k in s
    decreases |s|
  {
    if |s| > 0 {
      CountStep(f, s, m);
      CountSortedFacts(Store(f, s[0], m[s[0]]), s[1..], m);
      assert forall k :: k in s <==> k == s[0] || k in s[1..] by {
        assert s == [s[0]] + s[1..];
      }
    }
  }

  /** `|m| == m[x] + |m without x|`. */
  lemma {:induction false} MultisetSplit(m: multiset<string>, x: string)
    ensures |m| == m[x] + |m[x := 0]|
    decreases m[x]
  {
    if m[x] == 0 {
      assert m[x := 0] == m;
    } else {
      var m2 := m - multiset{x};
      assert m == m2 + multiset{x};
      assert m2[x := 0] == m[x := 0];
      MultisetSplit(m2, x);
    }
  }

  /**
    Summing the counts of a table with distinct keys that names every
    element of `m` gives the size of `m`.
   */
  lemma {:induction false} SumCountsCoversMultiset(f: Frequencies, m: multiset<string>)
    requires StrictlyAscending(Keys(f)) && Counted(f, m)
    requires forall k :: k in m ==> k in Keys(f)
    ensures SumCounts(f) == |m|
  {
    if |f| == 0 {
      assert m == multiset{};
    } else {
      var x := f[0].0;
      CoverTail(f, m);
      SumCountsCoversMultiset(f[1..], m[x := 0]);
      MultisetSplit(m, x);
    }
  }

  /** Dropping the first entry of a table and all copies of its key from `m` keeps the premises. */
  lemma CoverTail(f: Frequencies, m: multiset<string>)
    requires StrictlyAscending(Keys(f)) && Counted(f, m) && |f| > 0
    requires forall k :: k in m ==> k in Keys(f)
    ensures StrictlyAscending(Keys(f[1..]))
    ensures Counted(f[1..], m[f[0].0 := 0])
    ensures forall k :: k in m[f[0].0 := 0] ==> k in Keys(f[1..])
  {
    var x := f[0].0;
    var m' := m[x := 0];
    var rest := f[1..];
    assert Keys(rest) == Keys(f)[1..];
    forall i | 0 <= i < |rest| ensures rest[i].0 != x {
      assert Below(Keys(f)[0], Keys(f)[i + 1]);
      BelowIrreflexive(x);
    }
    forall k | k in m' ensures k in Keys(rest) {
      assert k != x && k in m;
      var i :| 0 <= i < |f| && Keys(f)[i] == k;
      assert Keys(rest)[i - 1] == k;
    }
  }

  /** The table depends only on the multiset of licences: shuffling the input changes nothing. */
  lemma TabulateIgnoresOrder(a: seq<string>, b: seq<string>)
    requires multiset(a) == multiset(b)
    ensures Tabulate(a) == Tabulate(b)
  {
    SortDependsOnlyOnMultiset(a, b);
  }
}
