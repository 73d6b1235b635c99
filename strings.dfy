/**
 * Strings as sequences of characters: the ordering that sorting uses,
 * joining with a separator, and decimal text for integers.
 *
 * JavaScript's default `sort()` compares UTF-16 code units and
 * `localeCompare` compares by locale; both are stood in for here by the
 * plain lexicographic order on characters, `StrLt`.
 */
module Strings {
  import opened Seqs

  /** Lexicographic "strictly before": a proper prefix comes first. */
  predicate StrLt(a: string, b: string)
    decreases |a|
  {
    |b| > 0 && (|a| == 0 || a[0] < b[0] || (a[0] == b[0] && StrLt(a[1..], b[1..])))
  }

  predicate StrLe(a: string, b: string) {
    a == b || StrLt(a, b)
  }

  lemma {:induction false} StrLtIrreflexive(a: string)
    ensures !StrLt(a, a)
  {
    if |a| > 0 {
      StrLtIrreflexive(a[1..]);
    }
  }

  lemma {:induction false} StrLtTransitive(a: string, b: string, c: string)
    requires StrLt(a, b) && StrLt(b, c)
    ensures StrLt(a, c)
  {
    if |a| > 0 && a[0] == b[0] && b[0] == c[0] {
      StrLtTransitive(a[1..], b[1..], c[1..]);
    }
  }

  lemma {:induction false} StrLtTrichotomy(a: string, b: string)
    ensures a == b || StrLt(a, b) || StrLt(b, a)
  {
    if |a| > 0 && |b| > 0 && a[0] == b[0] {
      StrLtTrichotomy(a[1..], b[1..]);
      if a[1..] == b[1..] {
        assert a == [a[0]] + a[1..] && b == [b[0]] + b[1..];
      }
    }
  }

  lemma StrLtAsymmetric(a: string, b: string)
    requires StrLt(a, b)
    ensures !StrLt(b, a) && a != b
  {
    StrLtIrreflexive(a);
    if StrLt(b, a) {
      StrLtTransitive(a, b, a);
    }
  }

  /** `StrLe` is a total order, so sorting by it is well defined. */
  lemma StrLeTotalPreorder()
    ensures TotalPreorder(StrLe)
  {
    forall a, b
      ensures StrLe(a, b) || StrLe(b, a)
    {
      StrLtTrichotomy(a, b);
    }
    forall a, b, c | StrLe(a, b) && StrLe(b, c)
      ensures StrLe(a, c)
    {
      if a != b && b != c {
        StrLtTransitive(a, b, c);
      }
    }
  }

  /** `Array.prototype.sort()` on strings, with the order above. */
  function SortStrings(xs: seq<string>): (r: seq<string>)
    ensures multiset(r) == multiset(xs)
    ensures SortedBy(r, StrLe)
  {
    StrLeTotalPreorder();
    SortIsSorted(xs, StrLe);
    InsertionSort(xs, StrLe)
  }

  /** Sorted and without repetitions means strictly increasing. */
  lemma StrictlyIncreasing(xs: seq<string>)
    requires SortedBy(xs, StrLe) && NoDuplicates(xs)
    ensures forall i, j :: 0 <= i < j < |xs| ==> StrLt(xs[i], xs[j])
  {
  }

  /** Sorting a sequence without repetitions leaves it without repetitions. */
  lemma SortKeepsNoDuplicates(xs: seq<string>)
    requires NoDuplicates(xs)
    ensures NoDuplicates(SortStrings(xs))
  {
    var r := SortStrings(xs);
    forall i, j | 0 <= i < j < |r|
      ensures r[i] != r[j]
    {
      if r[i] == r[j] {
        var m := multiset(r);
        assert multiset([r[i], r[j]]) <= m by {
          assert r == r[..i] + [r[i]] + r[i + 1..j] + [r[j]] + r[j + 1..];
        }
        assert m[r[i]] >= 2;
        MultiplicityAtMostOne(xs, r[i]);
      }
    }
  }

  lemma {:induction false} MultiplicityAtMostOne<T>(xs: seq<T>, x: T)
    requires NoDuplicates(xs)
    ensures multiset(xs)[x] <= 1
  {
    if xs != [] {
      var init := xs[..|xs| - 1];
      assert xs == init + [xs[|xs| - 1]];
      MultiplicityAtMostOne(init, x);
      if xs[|xs| - 1] == x {
        assert x !in init;
      }
    }
  }

  /** `parts.join(sep)`. */
  function Join(parts: seq<string>, sep: string): (r: string)
    ensures parts == [] ==> r == ""
    ensures |parts| == 1 ==> r == parts[0]
  {
    if parts == [] then ""
    else if |parts| == 1 then parts[0]
    else parts[0] + sep + Join(parts[1..], sep)
  }

  /** The pieces of `s` between the occurrences of `sep`, in order. */
  function Split(s: string, sep: char): (r: seq<string>)
    decreases |s|
  {
    if s == [] then [""]
    else
      var rest := Split(s[1..], sep);
      if s[0] == sep then [""] + rest
      else [[s[0]] + rest[0]] + rest[1..]
  }

  lemma {:induction false} SplitNonEmpty(s: string, sep: char)
    ensures |Split(s, sep)| >= 1
  {
    if s != [] {
      SplitNonEmpty(s[1..], sep);
    }
  }

  lemma {:induction false} SplitAppend(x: string, t: string, sep: char)
    requires sep !in x
    ensures Split(x + [sep] + t, sep) == [x] + Split(t, sep)
  {
    if x == [] {
      assert x + [sep] + t == [sep] + t;
    } else {
      assert (x + [sep] + t)[1..] == x[1..] + [sep] + t;
      SplitAppend(x[1..], t, sep);
      assert [x[0]] + x[1..] == x;
    }
  }

  lemma {:induction false} SplitAlone(x: string, sep: char)
    requires sep !in x
    ensures Split(x, sep) == [x]
  {
    if x != [] {
      SplitAlone(x[1..], sep);
      assert [x[0]] + x[1..] == x;
    }
  }

  /** `Join` is undone by `Split` when no part contains the separator. */
  lemma {:induction false} SplitJoin(parts: seq<string>, sep: char)
    requires parts != []
    requires forall i :: 0 <= i < |parts| ==> sep !in parts[i]
    ensures Split(Join(parts, [sep]), sep) == parts
  {
    if |parts| == 1 {
      SplitAlone(parts[0], sep);
    } else {
      SplitJoin(parts[1..], sep);
      SplitAppend(parts[0], Join(parts[1..], [sep]), sep);
      assert parts == [parts[0]] + parts[1..];
    }
  }

  function DigitChar(d: nat): char
    requires d < 10
  {
    "0123456789"[d]
  }

  /** `String(n)` for a natural number: its decimal digits, no leading zero. */
  function NatText(n: nat): (r: string)
    ensures |r| >= 1
    ensures forall i :: 0 <= i < |r| ==> '0' <= r[i] <= '9'
    ensures |r| > 1 ==> r[0] != '0'
  {
    if n < 10 then [DigitChar(n)] else NatText(n / 10) + [DigitChar(n % 10)]
  }

  /** `String(i)` for an integer, with a leading '-' when negative. */
  function IntText(i: int): (r: string)
    ensures |r| >= 1
  {
    if i < 0 then "-" + NatText(-i) else NatText(i)
  }
}
