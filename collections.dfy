/** Sequences that list the elements of a finite set once each: the model of
    iterating over a Python set or dict, whose order is not specified. */
module Collections {

  predicate NoDup<T(==)>(s: seq<T>) {
    forall i, j :: 0 <= i < j < |s| ==> s[i] != s[j]
  }

  /** `s` lists every element of `keys`, and nothing else, exactly once. */
  predicate Enumerates<T(==)>(s: seq<T>, keys: set<T>) {
    NoDup(s) && Elements(s) == keys
  }

  function Elements<T(==)>(s: seq<T>): set<T>
  {
    set x | x in s
  }

  lemma {:induction false} DistinctCardinality<T>(s: seq<T>)
    requires NoDup(s)
    ensures |Elements(s)| == |s|
  {
    if |s| > 0 {
      var rest := s[1..];
      assert Elements(s) == Elements(rest) + {s[0]};
      assert s[0] !in Elements(rest) by {
        forall j | 0 <= j < |rest| ensures rest[j] != s[0] {
          assert rest[j] == s[j + 1];
        }
      }
      DistinctCardinality(rest);
    } else {
      assert Elements(s) == {};
    }
  }

  lemma EnumerationSize<T>(s: seq<T>, keys: set<T>)
    requires Enumerates(s, keys)
    ensures |s| == |keys|
  {
    DistinctCardinality(s);
  }

  /** A repetition-free sequence holds each of its elements once. */
  lemma {:induction false} DistinctMultiset<T>(s: seq<T>)
    requires NoDup(s)
    ensures multiset(s) == multiset(Elements(s))
  {
    if |s| > 0 {
      var rest := s[1..];
      assert s == [s[0]] + rest;
      assert Elements(s) == Elements(rest) + {s[0]};
      assert s[0] !in Elements(rest) by {
        forall j | 0 <= j < |rest| ensures rest[j] != s[0] {
          assert rest[j] == s[j + 1];
        }
      }
      DistinctMultiset(rest);
    } else {
      assert Elements(s) == {};
    }
  }

  /** Two enumerations of one set are permutations of each other. */
  lemma EnumerationsArePermutations<T>(a: seq<T>, b: seq<T>, keys: set<T>)
    requires Enumerates(a, keys) && Enumerates(b, keys)
    ensures multiset(a) == multiset(b)
  {
    DistinctMultiset(a);
    DistinctMultiset(b);
  }

  /** The elements of `s` that satisfy `p`, in their order in `s`. */
  function Filter<T(!new)>(p: T -> bool, s: seq<T>): (r: seq<T>)
    ensures forall x :: x in r <==> x in s && p(x)
    ensures |r| <= |s|
  {
    if |s| == 0 then [] else (if p(s[0]) then [s[0]] else []) + Filter(p, s[1..])
  }

  lemma {:induction false} FilterAppend<T(!new)>(p: T -> bool, a: seq<T>, b: seq<T>)
    ensures Filter(p, a + b) == Filter(p, a) + Filter(p, b)
  {
    if |a| > 0 {
      assert (a + b)[0] == a[0];
      assert (a + b)[1..] == a[1..] + b;
      FilterAppend(p, a[1..], b);
    } else {
      assert a + b == b;
    }
  }

  /** One more element of `s` extends the filtered prefix by that element, if it qualifies. */
  lemma FilterStep<T(!new)>(p: T -> bool, s: seq<T>, i: int)
    requires 0 <= i < |s|
    ensures Filter(p, s[..i + 1]) == Filter(p, s[..i]) + (if p(s[i]) then [s[i]] else [])
  {
    assert s[..i + 1] == s[..i] + [s[i]];
    FilterAppend(p, s[..i], [s[i]]);
  }

  lemma {:induction false} FilterNoDup<T(!new)>(p: T -> bool, s: seq<T>)
    requires NoDup(s)
    ensures NoDup(Filter(p, s))
  {
    if |s| > 0 {
      var rest := Filter(p, s[1..]);
      assert NoDup(s[1..]) by {
        forall i, j | 0 <= i < j < |s[1..]| ensures s[1..][i] != s[1..][j] {
          assert s[1..][i] == s[i + 1] && s[1..][j] == s[j + 1];
        }
      }
      FilterNoDup(p, s[1..]);
      if p(s[0]) {
        assert s[0] !in s[1..] by {
          forall j | 0 <= j < |s[1..]| ensures s[1..][j] != s[0] {
            assert s[1..][j] == s[j + 1];
          }
        }
        var r := [s[0]] + rest;
        forall i, j | 0 <= i < j < |r| ensures r[i] != r[j] {
          if i == 0 {
            assert r[j] == rest[j - 1] && rest[j - 1] in rest;
          } else {
            assert r[i] == rest[i - 1] && r[j] == rest[j - 1];
          }
        }
      }
    }
  }

  /** The elements of `keys` that satisfy `p`. */
  function Satisfying<T(!new)>(p: T -> bool, keys: set<T>): set<T>
  {
    set x | x in keys && p(x)
  }

  /** Filtering an enumeration of a set enumerates the part of the set that satisfies `p`. */
  lemma FilterEnumerates<T(!new)>(p: T -> bool, s: seq<T>, keys: set<T>)
    requires Enumerates(s, keys)
    ensures Enumerates(Filter(p, s), Satisfying(p, keys))
  {
    FilterNoDup(p, s);
  }

  /** Where each of six concatenated parts sits in the whole. */
  lemma SixParts<T>(a: seq<T>, b: seq<T>, c: seq<T>, d: seq<T>, e: seq<T>, f: seq<T>)
    ensures var s := a + b + c + d + e + f;
            var i1 := |a|;
            var i2 := i1 + |b|;
            var i3 := i2 + |c|;
            var i4 := i3 + |d|;
            var i5 := i4 + |e|;
            && |s| == i5 + |f|
            && s[..i1] == a && s[i1..i2] == b && s[i2..i3] == c
            && s[i3..i4] == d && s[i4..i5] == e && s[i5..] == f
  {
    var ab := a + b;
    var abc := ab + c;
    var abcd := abc + d;
    var abcde := abcd + e;
    var s := abcde + f;
    assert s[..|abcde|] == abcde && s[|abcde|..] == f;
    assert abcde[..|abcd|] == abcd && abcde[|abcd|..] == e;
    assert abcd[..|abc|] == abc && abcd[|abc|..] == d;
    assert abc[..|ab|] == ab && abc[|ab|..] == c;
    assert ab[..|a|] == a && ab[|a|..] == b;
    assert s[..|a|] == abcde[..|abcd|][..|abc|][..|ab|][..|a|];
    assert s[|a|..|ab|] == abcde[..|abcd|][..|abc|][..|ab|][|a|..];
    assert s[|ab|..|abc|] == abcde[..|abcd|][..|abc|][|ab|..];
    assert s[|abc|..|abcd|] == abcde[..|abcd|][|abc|..];
    assert s[|abcd|..|abcde|] == abcde[|abcd|..];
  }

  /** `[f(x) for x in s]`. */
  function Map<T, U>(f: T -> U, s: seq<T>): (r: seq<U>)
    ensures |r| == |s|
    ensures forall i :: 0 <= i < |s| ==> r[i] == f(s[i])
  {
    if |s| == 0 then [] else [f(s[0])] + Map(f, s[1..])
  }

  lemma {:induction false} MapAppend<T, U>(f: T -> U, a: seq<T>, b: seq<T>)
    ensures Map(f, a + b) == Map(f, a) + Map(f, b)
  {
    assert |Map(f, a + b)| == |Map(f, a) + Map(f, b)|;
    forall i | 0 <= i < |a + b| ensures Map(f, a + b)[i] == (Map(f, a) + Map(f, b))[i] {
      if i < |a| {
        assert (a + b)[i] == a[i];
      } else {
        assert (a + b)[i] == b[i - |a|];
      }
    }
  }

  /** The images of the elements of `s` are exactly the elements of `Map(f, s)`. */
  lemma MapMembers<T, U>(f: T -> U, s: seq<T>)
    ensures forall x :: x in s ==> f(x) in Map(f, s)
    ensures forall y :: y in Map(f, s) ==> exists x :: x in s && y == f(x)
  {
    forall x | x in s ensures f(x) in Map(f, s) {
      var k :| 0 <= k < |s| && s[k] == x;
      assert Map(f, s)[k] == f(x);
    }
    forall y | y in Map(f, s) ensures exists x :: x in s && y == f(x) {
      var k :| 0 <= k < |Map(f, s)| && Map(f, s)[k] == y;
      assert s[k] in s;
    }
  }

  /** `b` without its element at `k`. */
  function Without<T>(b: seq<T>, k: int): (r: seq<T>)
    requires 0 <= k < |b|
    ensures |r| == |b| - 1
  {
    b[..k] + b[k + 1..]
  }

  /** Taking out the element at `k` takes one copy of it out of the multiset. */
  lemma RemoveAt<T>(b: seq<T>, k: int)
    requires 0 <= k < |b|
    ensures multiset(Without(b, k)) == multiset(b) - multiset{b[k]}
  {
    assert b == b[..k] + [b[k]] + b[k + 1..];
  }

  /** Mapping commutes with taking out the element at `k`. */
  lemma {:induction false} MapRemoveAt<T, U>(f: T -> U, b: seq<T>, k: int)
    requires 0 <= k < |b|
    ensures multiset(Map(f, b)) == multiset(Map(f, Without(b, k))) + multiset{f(b[k])}
    decreases k
  {
    var w := Without(b, k);
    if k == 0 {
      assert w == b[1..];
    } else {
      var w' := Without(b[1..], k - 1);
      assert w[0] == b[0] && w[1..] == w';
      assert b[1..][k - 1] == b[k];
      MapRemoveAt(f, b[1..], k - 1);
    }
  }

  /** Mapping two permutations of each other gives two permutations of each other. */
  lemma {:induction false} MapPermutation<T, U>(f: T -> U, a: seq<T>, b: seq<T>)
    requires multiset(a) == multiset(b)
    ensures multiset(Map(f, a)) == multiset(Map(f, b))
    decreases |a|
  {
    if |a| == 0 {
      assert |b| == |multiset(b)| == 0;
    } else {
      var x := a[0];
      assert x in multiset(b);
      var k :| 0 <= k < |b| && b[k] == x;
      RemoveAt(a, 0);
      RemoveAt(b, k);
      MapRemoveAt(f, a, 0);
      MapRemoveAt(f, b, k);
      MapPermutation(f, Without(a, 0), Without(b, k));
    }
  }
}
