/**
  String helpers with the meaning of the Python built-ins the reports use:
  `str(n)` for a natural number, `str(b)` for a boolean, `s * n`, `sep.join(parts)`
  and the code-point ordering of `sorted` on strings.
 */
module Text {
  import opened Options

  /** Python's `str(b)` for a boolean. */
  function BoolToString(b: bool): string {
    if b then "True" else "False"
  }

  /** Python's `c * n` for a one-character string. */
  function RepeatChar(c: char, n: nat): (r: string)
    ensures |r| == n
    ensures forall i :: 0 <= i < |r| ==> r[i] == c
  {
    if n == 0 then [] else [c] + RepeatChar(c, n - 1)
  }

  /** Python's `s * n`: `n` copies of `s` back to back. */
  function Repeat(s: string, n: nat): string {
    if n == 0 then [] else s + Repeat(s, n - 1)
  }

  lemma {:induction false} RepeatLength(s: string, n: nat)
    ensures |Repeat(s, n)| == n * |s|
  {
    if n > 0 {
      RepeatLength(s, n - 1);
      MulSucc(n - 1, |s|);
    }
  }

  /** Python's `sep.join(parts)`. */
  function Join(sep: string, parts: seq<string>): string {
    if |parts| == 0 then ""
    else if |parts| == 1 then parts[0]
    else parts[0] + sep + Join(sep, parts[1..])
  }

  /**
    Python's `s.split(sep)`: the pieces between non-overlapping occurrences
    of `sep`, scanning left to right.
   */
  function Split(s: string, sep: string): (r: seq<string>)
    requires |sep| > 0
    ensures |r| > 0
    decreases |s|
  {
    if |s| < |sep| then [s]
    else if s[..|sep|] == sep then [""] + Split(s[|sep|..], sep)
    else
      var rest := Split(s[1..], sep);
      [[s[0]] + rest[0]] + rest[1..]
  }

  /**
    `sep[k]` marks the separator: it occurs nowhere else in `sep` and in
    none of the parts, so no occurrence of `sep` can start inside a part.
   */
  predicate MarksApart(sep: string, k: nat, parts: seq<string>) {
    && k < |sep|
    && (forall j :: 0 <= j < |sep| && j != k ==> sep[j] != sep[k])
    && (forall i :: 0 <= i < |parts| ==> sep[k] !in parts[i])
  }

  lemma {:induction false} SplitWithoutSep(p: string, sep: string, k: nat)
    requires MarksApart(sep, k, [p])
    ensures Split(p, sep) == [p]
    decreases |p|
  {
    assert [p][0] == p;
    if |p| >= |sep| {
      assert p[..|sep|][k] == p[k];
      assert MarksApart(sep, k, [p[1..]]);
      SplitWithoutSep(p[1..], sep, k);
      assert [p[0]] + p[1..] == p;
    }
  }

  lemma {:induction false} SplitAfterPart(p: string, sep: string, rest: string, k: nat)
    requires MarksApart(sep, k, [p])
    ensures Split(p + sep + rest, sep) == [p] + Split(rest, sep)
    decreases |p|
  {
    var s := p + sep + rest;
    assert [p][0] == p;
    if |p| == 0 {
      assert s == sep + rest && s[..|sep|] == sep && s[|sep|..] == rest;
    } else {
      assert s[..|sep|] != sep by {
        if k < |p| {
          assert s[k] == p[k];
        } else {
          assert s[k] == sep[k - |p|];
        }
      }
      assert MarksApart(sep, k, [p[1..]]);
      assert s[1..] == p[1..] + sep + rest;
      SplitAfterPart(p[1..], sep, rest, k);
      assert [p[0]] + p[1..] == p;
    }
  }

  /** Splitting a join on its separator gives the parts back, when the separator is marked apart. */
  lemma {:induction false} SplitJoin(sep: string, parts: seq<string>, k: nat)
    requires |parts| > 0 && MarksApart(sep, k, parts)
    ensures Split(Join(sep, parts), sep) == parts
    decreases |parts|
  {
    assert MarksApart(sep, k, [parts[0]]);
    if |parts| == 1 {
      SplitWithoutSep(parts[0], sep, k);
    } else {
      assert MarksApart(sep, k, parts[1..]) by {
        forall i | 0 <= i < |parts[1..]| ensures sep[k] !in parts[1..][i] {
          assert parts[1..][i] == parts[i + 1];
        }
      }
      SplitJoin(sep, parts[1..], k);
      SplitAfterPart(parts[0], sep, Join(sep, parts[1..]), k);
      assert parts == [parts[0]] + parts[1..];
    }
  }

  /** The text between a known opening and closing, if `s` has that shape. */
  function Unwrap(s: string, open: string, close: string): Option<string> {
    if |s| >= |open| + |close| && s[..|open|] == open && s[|s| - |close|..] == close
    then Some(s[|open|..|s| - |close|])
    else None
  }

  /** Whatever is wrapped is recovered unchanged. */
  lemma UnwrapWrapped(open: string, x: string, close: string)
    ensures Unwrap(open + x + close, open, close) == Some(x)
  {
    var s := open + x + close;
    assert s[..|open|] == open && s[|s| - |close|..] == close && s[|open|..|s| - |close|] == x;
  }

  /** Number of times the character `c` occurs in `s`. */
  function CountChar(s: string, c: char): nat {
    if |s| == 0 then 0 else (if s[0] == c then 1 else 0) + CountChar(s[1..], c)
  }

  lemma {:induction false} CountCharAbsent(s: string, c: char)
    requires c !in s
    ensures CountChar(s, c) == 0
  {
    if |s| > 0 {
      assert c !in s[1..] by {
        assert forall i :: 0 <= i < |s[1..]| ==> s[1..][i] == s[i + 1];
      }
      CountCharAbsent(s[1..], c);
    }
  }

  lemma {:induction false} CountCharAppend(a: string, b: string, c: char)
    ensures CountChar(a + b, c) == CountChar(a, c) + CountChar(b, c)
  {
    if |a| == 0 {
      assert a + b == b;
    } else {
      assert (a + b)[1..] == a[1..] + b;
      CountCharAppend(a[1..], b, c);
    }
  }

  /** `s * n` holds `n` times as many copies of `c` as `s` does. */
  lemma {:induction false} CountCharRepeat(s: string, n: nat, c: char)
    ensures CountChar(Repeat(s, n), c) == n * CountChar(s, c)
  {
    if n > 0 {
      var rest := Repeat(s, n - 1);
      CountCharRepeat(s, n - 1, c);
      assert Repeat(s, n) == s + rest;
      CountCharAppend(s, rest, c);
      MulSucc(n - 1, CountChar(s, c));
    }
  }

  lemma MulSucc(m: nat, k: int)
    ensures (m + 1) * k == m * k + k
  {
  }

  predicate IsDigit(c: char) {
    '0' <= c <= '9'
  }

  predicate AllDigits(s: string) {
    forall i :: 0 <= i < |s| ==> IsDigit(s[i])
  }

  function DigitChar(d: nat): (c: char)
    requires d < 10
    ensures IsDigit(c) && (c as int) - ('0' as int) == d
  {
    "0123456789"[d]
  }

  /** Python's `str(n)` for a natural number: its decimal digits, no leading zero. */
  function NatToString(n: nat): (r: string)
    ensures |r| > 0 && AllDigits(r)
    ensures r[0] == '0' <==> n == 0
    ensures n == 0 ==> r == "0"
  {
    if n < 10 then [DigitChar(n)] else NatToString(n / 10) + [DigitChar(n % 10)]
  }

  /** The value of a string of decimal digits (the reading `int(s)` gives). */
  function ParseDecimal(s: string): nat
    requires AllDigits(s)
  {
    if |s| == 0 then 0
    else 10 * ParseDecimal(s[..|s| - 1]) + ((s[|s| - 1] as int) - ('0' as int))
  }

  /** Reading back `str(n)` gives `n`: the decimal rendering loses nothing. */
  lemma {:induction false} ParseNatToString(n: nat)
    ensures ParseDecimal(NatToString(n)) == n
  {
    var r := NatToString(n);
    if n >= 10 {
      assert r[..|r| - 1] == NatToString(n / 10);
      ParseNatToString(n / 10);
    }
  }

  /** Different numbers never render to the same digits. */
  lemma NatToStringInjective(a: nat, b: nat)
    requires NatToString(a) == NatToString(b)
    ensures a == b
  {
    ParseNatToString(a);
    ParseNatToString(b);
  }

  /**
    Python's `a < b` on strings: code-point lexicographic order, where a
    proper prefix comes first.
   */
  predicate Below(a: string, b: string) {
    if |a| == 0 then |b| > 0
    else if |b| == 0 then false
    else if a[0] != b[0] then a[0] < b[0]
    else Below(a[1..], b[1..])
  }

  /** Python's `a <= b` on strings. */
  predicate NotAbove(a: string, b: string) {
    a == b || Below(a, b)
  }

  lemma {:induction false} BelowIrreflexive(a: string)
    ensures !Below(a, a)
  {
    if |a| > 0 {
      BelowIrreflexive(a[1..]);
    }
  }

  lemma {:induction false} BelowTransitive(a: string, b: string, c: string)
    requires Below(a, b) && Below(b, c)
    ensures Below(a, c)
  {
    if |a| > 0 && |b| > 0 && |c| > 0 && a[0] == b[0] && b[0] == c[0] {
      BelowTransitive(a[1..], b[1..], c[1..]);
    }
  }

  /** Any two different strings are ordered one way or the other. */
  lemma {:induction false} BelowTotal(a: string, b: string)
    requires a != b
    ensures Below(a, b) || Below(b, a)
  {
    if |a| > 0 && |b| > 0 && a[0] == b[0] {
      assert a == [a[0]] + a[1..] && b == [b[0]] + b[1..];
      BelowTotal(a[1..], b[1..]);
    }
  }

  lemma BelowAsymmetric(a: string, b: string)
    requires Below(a, b)
    ensures !Below(b, a)
  {
    if Below(b, a) {
      BelowTransitive(a, b, a);
      BelowIrreflexive(a);
    }
  }

  lemma NotAboveTransitive(a: string, b: string, c: string)
    requires NotAbove(a, b) && NotAbove(b, c)
    ensures NotAbove(a, c)
  {
    if a != b && b != c {
      BelowTransitive(a, b, c);
    }
  }
}
