/** Python's ordering of `str` values and the `sorted()` built-in over them. */
module Ordering {
  import opened Sequences

  /** Python's `a < b` on strings: lexicographic by code point, and a
      proper prefix comes before the longer string. */
  predicate Below(a: string, b: string)
    decreases |a|
  {
    if a == [] then b != []
    else if b == [] then false
    else a[0] < b[0] || (a[0] == b[0] && Below(a[1..], b[1..]))
  }

  /** Python's `a <= b` on strings. */
  predicate AtMost(a: string, b: string) {
    a == b || Below(a, b)
  }

  lemma {:induction false} BelowIrreflexive(a: string)
    ensures !Below(a, a)
    decreases |a|
  {
    if a != [] {
      BelowIrreflexive(a[1..]);
    }
  }

  lemma {:induction false} BelowTransitive(a: string, b: string, c: string)
    requires Below(a, b) && Below(b, c)
    ensures Below(a, c)
    decreases |a|
  {
    if a != [] && a[0] == b[0] && b[0] == c[0] {
      BelowTransitive(a[1..], b[1..], c[1..]);
    }
  }

  /** Any two different strings are ordered one way or the other. */
  lemma {:induction false} BelowTotal(a: string, b: string)
    requires a != b
    ensures Below(a, b) || Below(b, a)
    decreases |a|
  {
    if a != [] && b != [] && a[0] == b[0] {
      assert a == [a[0]] + a[1..] && b == [b[0]] + b[1..];
      BelowTotal(a[1..], b[1..]);
    }
  }

  /** `a` and `b` agree before position `k` and `a` has the smaller code
      point at `k`. */
  predicate FirstDifference(a: string, b: string, k: int) {
    0 <= k < |a| && k < |b| && a[..k] == b[..k] && a[k] < b[k]
  }

  /** `a` is a proper prefix of `b`. */
  predicate ProperPrefix(a: string, b: string) {
    |a| < |b| && a == b[..|a|]
  }

  /** A proper prefix stays one when the first characters, if equal, are
      dropped from both strings. */
  lemma PrefixOfTails(a: string, b: string)
    requires a != [] && b != []
    ensures ProperPrefix(a, b) <==> a[0] == b[0] && ProperPrefix(a[1..], b[1..])
  {
    if ProperPrefix(a, b) {
      assert a[1..] == b[..|a|][1..];
    }
    if a[0] == b[0] && ProperPrefix(a[1..], b[1..]) {
      assert a == [a[0]] + a[1..] && b[..|a|] == [b[0]] + b[1..][..|a[1..]|];
    }
  }

  /** Two non-empty strings first differ at position 0, or agree there and
      their tails first differ one position earlier. */
  lemma DifferenceOfTails(a: string, b: string)
    requires a != [] && b != []
    ensures (exists k :: FirstDifference(a, b, k)) <==>
      a[0] < b[0] || (a[0] == b[0] && exists k :: FirstDifference(a[1..], b[1..], k))
  {
    if k :| FirstDifference(a, b, k) {
      if k > 0 {
        assert a[0] == a[..k][0] == b[..k][0] == b[0];
        assert a[1..][..k - 1] == a[..k][1..] == b[..k][1..] == b[1..][..k - 1];
        assert FirstDifference(a[1..], b[1..], k - 1);
      }
    }
    if a[0] == b[0] && exists k :: FirstDifference(a[1..], b[1..], k) {
      var k :| FirstDifference(a[1..], b[1..], k);
      assert a[..k + 1] == [a[0]] + a[1..][..k] && b[..k + 1] == [b[0]] + b[1..][..k];
      assert FirstDifference(a, b, k + 1);
    }
    if a[0] < b[0] {
      assert FirstDifference(a, b, 0);
    }
  }

  /** `Below` is the lexicographic order: either `a` is a proper prefix of
      `b`, or the first position where they differ has the smaller code
      point in `a`. */
  lemma {:induction false} BelowIsLexicographic(a: string, b: string)
    ensures Below(a, b) <==> ProperPrefix(a, b) || exists k :: FirstDifference(a, b, k)
    decreases |a|
  {
    if a != [] && b != [] {
      BelowIsLexicographic(a[1..], b[1..]);
      PrefixOfTails(a, b);
      DifferenceOfTails(a, b);
    }
  }

  /** Python's string comparisons on a few cases: upper-case letters come
      before lower-case ones, and a prefix before its extensions. */
  lemma BelowExamples()
    ensures Below("Zed", "adam") && !Below("adam", "Zed")
    ensures Below("ab", "abc") && !Below("abc", "ab")
    ensures !Below("b", "abc") && Below("abc", "b")
  {
    assert "ab"[1..] == "b" && "abc"[1..] == "bc" && "b"[1..] == [] && "bc"[1..] == "c";
  }

  /** Inserting into an ascending list puts the new string after the smaller
      ones. */
  lemma InsertExample()
    ensures Insert("a", ["B"]) == ["B", "a"]
    ensures Insert("b", ["B", "a"]) == ["B", "a", "b"]
  {
    assert Below("B", "a") && Below("B", "b") && Below("a", "b");
    assert ["B", "a"][1..] == ["a"] && ["a"][1..] == [] && ["B"][1..] == [];
    assert Insert("b", ["a"]) == ["a", "b"];
  }

  /** `sorted(['b', 'a', 'B'])` is `['B', 'a', 'b']`. */
  lemma SortExample()
    ensures Sort(["b", "a", "B"]) == ["B", "a", "b"]
  {
    InsertExample();
    assert ["b", "a", "B"][1..] == ["a", "B"] && ["a", "B"][1..] == ["B"] && ["B"][1..] == [];
    assert Sort(["B"]) == ["B"];
    assert Sort(["a", "B"]) == ["B", "a"];
  }

  lemma AtMostTransitive(a: string, b: string, c: string)
    requires AtMost(a, b) && AtMost(b, c)
    ensures AtMost(a, c)
  {
    if a != b && b != c {
      BelowTransitive(a, b, c);
    }
  }

  /** Ascending order: each element is at most every later one. */
  predicate Sorted(s: seq<string>) {
    forall i, j :: 0 <= i < j < |s| ==> AtMost(s[i], s[j])
  }

  /** Puts `x` into `s` before the first element it is at most. */
  function Insert(x: string, s: seq<string>): (r: seq<string>)
    ensures multiset(r) == multiset(s) + multiset{x}
  {
    if s == [] then [x]
    else if AtMost(x, s[0]) then [x] + s
    else
      assert s == [s[0]] + s[1..];
      [s[0]] + Insert(x, s[1..])
  }

  lemma {:induction false} InsertSorted(x: string, s: seq<string>)
    requires Sorted(s)
    ensures Sorted(Insert(x, s))
  {
    if s == [] {
    } else if AtMost(x, s[0]) {
      forall j | 0 <= j < |s|
        ensures AtMost(x, s[j])
      {
        AtMostTransitive(x, s[0], s[j]);
      }
    } else {
      BelowTotal(x, s[0]);
      assert s == [s[0]] + s[1..];
      InsertSorted(x, s[1..]);
      var rest := Insert(x, s[1..]);
      forall j | 0 <= j < |rest|
        ensures AtMost(s[0], rest[j])
      {
        assert rest[j] in multiset(s[1..]) + multiset{x};
        if rest[j] != x {
          assert rest[j] in s[1..];
        }
      }
    }
  }

  /** Python's `sorted()`, by insertion: a permutation of `s`. */
  function Sort(s: seq<string>): (r: seq<string>)
    ensures multiset(r) == multiset(s)
  {
    if s == [] then []
    else
      assert s == [s[0]] + s[1..];
      Insert(s[0], Sort(s[1..]))
  }

  /** `sorted()` returns its elements in ascending order. */
  lemma {:induction false} SortSorted(s: seq<string>)
    ensures Sorted(Sort(s))
  {
    if s != [] {
      SortSorted(s[1..]);
      InsertSorted(s[0], Sort(s[1..]));
    }
  }

  /** Sorting a duplicate-free sequence gives a strictly ascending one with
      exactly the same elements. */
  lemma SortDistinct(s: seq<string>)
    requires Distinct(s)
    ensures forall i, j :: 0 <= i < j < |Sort(s)| ==> Below(Sort(s)[i], Sort(s)[j])
    ensures forall x :: x in Sort(s) <==> x in s
  {
    var r := Sort(s);
    SortSorted(s);
    forall x
      ensures x in r <==> x in s
    {
      assert x in r <==> x in multiset(r);
    }
    forall i, j | 0 <= i < j < |r|
      ensures Below(r[i], r[j])
    {
      if r[i] == r[j] {
        assert r == r[..i] + [r[i]] + r[i + 1..j] + [r[j]] + r[j + 1..];
        assert multiset(r)[r[i]] >= 2;
        DistinctCountAtMostOne(s, r[i]);
      }
    }
  }

  /** In a duplicate-free sequence every value occurs at most once. */
  lemma {:induction false} DistinctCountAtMostOne(s: seq<string>, x: string)
    requires Distinct(s)
    ensures multiset(s)[x] <= 1
  {
    if s != [] {
      assert s == [s[0]] + s[1..];
      assert Distinct(s[1..]);
      DistinctCountAtMostOne(s[1..], x);
      if s[0] == x {
        assert x !in s[1..];
      }
    }
  }
}
