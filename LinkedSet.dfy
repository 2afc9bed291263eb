/**
 * Kotlin's default mutable set (a LinkedHashSet) as a value: its elements in first
 * insertion order. Adding an element already present changes nothing, so adding a
 * sequence to an empty set keeps the first occurrence of each element.
 */
module LinkedSet {
  import opened Sorting

  predicate Distinct<T(==)>(s: seq<T>) {
    forall i, j :: 0 <= i < j < |s| ==> s[i] != s[j]
  }

  /** `mutableSetOf<T(==)>().apply { addAll(s) }`, listed in iteration order. */
  function Dedup<T(==)>(s: seq<T>): (r: seq<T>)
    ensures Distinct(r)
    ensures forall x :: x in r ==> x in s
    ensures forall x :: x in s ==> x in r
    ensures |r| <= |s|
    decreases |s|
  {
    if s == [] then []
    else
      var d := Dedup(s[..|s| - 1]);
      var last := s[|s| - 1];
      assert s == s[..|s| - 1] + [last];
      if last in d then d else d + [last]
  }

  /** Dedup leaves a sequence without repetitions as it is. */
  lemma {:induction false} DedupDistinct<T>(s: seq<T>)
    requires Distinct(s)
    ensures Dedup(s) == s
    decreases |s|
  {
    if s != [] {
      var init := s[..|s| - 1];
      assert Distinct(init) by {
        forall i, j | 0 <= i < j < |init| ensures init[i] != init[j] {
          assert init[i] == s[i] && init[j] == s[j];
        }
      }
      DedupDistinct(init);
      assert s[|s| - 1] !in init by {
        forall i | 0 <= i < |init| ensures init[i] != s[|s| - 1] {
          assert init[i] == s[i];
        }
      }
      assert s == init + [s[|s| - 1]];
    }
  }

  lemma {:induction false} DistinctCount<T>(s: seq<T>, x: T)
    requires Distinct(s)
    ensures multiset(s)[x] <= 1
    decreases |s|
  {
    if s != [] {
      var rest := s[1..];
      assert s == [s[0]] + rest;
      assert Distinct(rest) by {
        forall i, j | 0 <= i < j < |rest| ensures rest[i] != rest[j] {
          assert rest[i] == s[i + 1] && rest[j] == s[j + 1];
        }
      }
      DistinctCount(rest, x);
      if s[0] == x {
        assert x !in rest by {
          forall i | 0 <= i < |rest| ensures rest[i] != x {
            assert rest[i] == s[i + 1];
          }
        }
      }
    }
  }

  /** A reordering of a sequence without repetitions has none either. */
  lemma PermutationDistinct<T>(a: seq<T>, b: seq<T>)
    requires Distinct(a) && multiset(a) == multiset(b)
    ensures Distinct(b)
  {
    forall i, j | 0 <= i < j < |b| ensures b[i] != b[j] {
      if b[i] == b[j] {
        var x := b[i];
        assert b == b[..j] + [x] + b[j + 1..];
        assert x in multiset(b[..j]) by {
          assert b[..j][i] == x;
        }
        assert multiset(b)[x] >= 2;
        DistinctCount(a, x);
        assert false;
      }
    }
  }

  /** The position of the first occurrence of `x` in `s`. */
  function FirstIndex<T(==)>(s: seq<T>, x: T): (r: nat)
    requires x in s
    ensures r < |s| && s[r] == x && x !in s[..r]
    decreases |s|
  {
    if s[0] == x then 0
    else
      var k := FirstIndex(s[1..], x);
      assert s[..k + 1] == [s[0]] + s[1..][..k];
      k + 1
  }

  /** The first occurrence is the one with no earlier copy. */
  lemma FirstIndexIs<T>(s: seq<T>, x: T, k: nat)
    requires k < |s| && s[k] == x && x !in s[..k]
    ensures FirstIndex(s, x) == k
  {
  }

  lemma FirstIndexPrefix<T>(s: seq<T>, x: T)
    requires s != [] && x in s[..|s| - 1]
    ensures FirstIndex(s, x) == FirstIndex(s[..|s| - 1], x)
  {
    var init := s[..|s| - 1];
    var k := FirstIndex(init, x);
    assert s[k] == init[k] && s[..k] == init[..k];
    FirstIndexIs(s, x, k);
  }

  /** A LinkedHashSet lists its elements in the order they were first added. */
  lemma {:induction false} DedupOrder<T>(s: seq<T>)
    ensures forall i, j :: 0 <= i < j < |Dedup(s)| ==> FirstIndex(s, Dedup(s)[i]) < FirstIndex(s, Dedup(s)[j])
    decreases |s|
  {
    if s != [] {
      var init := s[..|s| - 1];
      var last := s[|s| - 1];
      var d := Dedup(init);
      DedupOrder(init);
      forall x | x in d ensures FirstIndex(s, x) == FirstIndex(init, x) && FirstIndex(s, x) < |init| {
        FirstIndexPrefix(s, x);
      }
      var r := Dedup(s);
      forall i, j | 0 <= i < j < |r| ensures FirstIndex(s, r[i]) < FirstIndex(s, r[j]) {
        if j < |d| {
          assert r[i] == d[i] && r[j] == d[j];
        } else {
          assert last !in d && r == d + [last] && r[i] == d[i] && r[j] == last;
          assert last !in init;
          assert FirstIndex(s, last) == |init|;
        }
      }
    }
  }

  /** Keeping one key's elements commutes with removing repeats. */
  lemma {:induction false} DedupWithKey<T>(s: seq<T>, key: T -> real, v: real)
    ensures WithKey(Dedup(s), key, v) == Dedup(WithKey(s, key, v))
    decreases |s|
  {
    if s != [] {
      var init := s[..|s| - 1];
      var last := s[|s| - 1];
      var d := Dedup(init);
      assert s == init + [last];
      DedupWithKey(init, key, v);
      WithKeySnoc(init, last, key, v);
      WithKeySnoc(d, last, key, v);
      var w := WithKey(init, key, v);
      assert Dedup(s) == if last in d then d else d + [last];
      if key(last) == v {
        var ws := w + [last];
        assert ws[..|ws| - 1] == w && ws[|ws| - 1] == last;
        assert Dedup(ws) == if last in Dedup(w) then Dedup(w) else Dedup(w) + [last];
        WithKeyMembers(d, key, v, last);
        assert WithKey(s, key, v) == ws;
      } else {
        assert WithKey(s, key, v) == w + [];
        assert w + [] == w;
      }
    }
  }
}
