/**
 * Python's `sorted(xs, key=f)` for string keys: a stable sort, ordering by
 * code-point comparison of the keys and keeping equal-key elements in their
 * original relative order. Modelled as an insertion sort.
 */
module Ordering {
  import opened Text
  import opened Common

  /** Keys never decrease along `s`. */
  ghost predicate SortedBy<T>(s: seq<T>, key: T -> string)
  {
    forall i, j :: 0 <= i < j < |s| ==> !Less(key(s[j]), key(s[i]))
  }

  /** The elements of `s` whose key is `k`, in order. */
  function WithKey<T>(s: seq<T>, key: T -> string, k: string): (r: seq<T>)
    ensures |r| <= |s|
  {
    if s == [] then []
    else (if key(s[0]) == k then [s[0]] else []) + WithKey(s[1..], key, k)
  }

  /** Put `x` before the first element whose key is not below its own. */
  function Insert<T>(x: T, s: seq<T>, key: T -> string): seq<T>
  {
    if s == [] then [x]
    else if !Less(key(s[0]), key(x)) then [x] + s
    else [s[0]] + Insert(x, s[1..], key)
  }

  /** `sorted(s, key=key)`. */
  function SortBy<T>(s: seq<T>, key: T -> string): seq<T>
  {
    if s == [] then [] else Insert(s[0], SortBy(s[1..], key), key)
  }

  // ---------------------------------------------------------------------------
  // Insert
  // ---------------------------------------------------------------------------

  /** How many leading elements of `s` have a key strictly below that of `x`. */
  function InsertPos<T>(x: T, s: seq<T>, key: T -> string): (p: nat)
    ensures p <= |s|
  {
    if s == [] || !Less(key(s[0]), key(x)) then 0 else 1 + InsertPos(x, s[1..], key)
  }

  /** Insert splits the list at a point below which every key is strictly smaller. */
  lemma {:induction false} InsertShape<T>(x: T, s: seq<T>, key: T -> string)
    ensures var p := InsertPos(x, s, key);
            && Insert(x, s, key) == s[..p] + [x] + s[p..]
            && (forall i :: 0 <= i < p ==> Less(key(s[i]), key(x)))
            && (p < |s| ==> !Less(key(s[p]), key(x)))
  {
    if s != [] && Less(key(s[0]), key(x)) {
      InsertShape(x, s[1..], key);
      var p := InsertPos(x, s[1..], key);
      assert s[..p + 1] == [s[0]] + s[1..][..p];
      assert s[p + 1..] == s[1..][p..];
      ConcatAssoc([s[0]], s[1..][..p], [x]);
      ConcatAssoc([s[0]], s[1..][..p] + [x], s[1..][p..]);
    }
  }

  lemma {:induction false} InsertKeepsSorted<T>(x: T, s: seq<T>, key: T -> string)
    requires SortedBy(s, key)
    ensures SortedBy(Insert(x, s, key), key)
  {
    InsertShape(x, s, key);
    var p := InsertPos(x, s, key);
    var r := Insert(x, s, key);
    forall i, j | 0 <= i < j < |r|
      ensures !Less(key(r[j]), key(r[i]))
    {
      if i < p && j == p {
        // r[i] == s[i] is strictly below x
        LessAsymmetric(key(s[i]), key(x));
      } else if i == p && j > p {
        // r[j] == s[j - 1], and s[p] is not below x
        var y := s[j - 1];
        if Less(key(y), key(x)) {
          LessTotal(key(s[p]), key(x));
          if key(s[p]) != key(x) {
            assert !Less(key(y), key(s[p]));
            LessTotal(key(y), key(s[p]));
            if key(y) != key(s[p]) {
              LessTransitive(key(x), key(s[p]), key(y));
              LessAsymmetric(key(x), key(y));
            }
          }
        }
      } else if i < p && j > p {
        assert r[i] == s[i] && r[j] == s[j - 1];
      } else if j < p {
        assert r[i] == s[i] && r[j] == s[j];
      } else {
        assert r[i] == s[i - 1] && r[j] == s[j - 1];
      }
    }
  }

  lemma InsertMultiset<T>(x: T, s: seq<T>, key: T -> string)
    ensures multiset(Insert(x, s, key)) == multiset(s) + multiset{x}
  {
    InsertShape(x, s, key);
    var p := InsertPos(x, s, key);
    assert s == s[..p] + s[p..];
  }

  /** Distributing the key filter over concatenation. */
  lemma {:induction false} WithKeyAppend<T>(a: seq<T>, b: seq<T>, key: T -> string, k: string)
    ensures WithKey(a + b, key, k) == WithKey(a, key, k) + WithKey(b, key, k)
  {
    if a != [] {
      assert (a + b)[0] == a[0];
      assert (a + b)[1..] == a[1..] + b;
      WithKeyAppend(a[1..], b, key, k);
      var head := if key(a[0]) == k then [a[0]] else [];
      assert WithKey(a + b, key, k) == head + WithKey(a[1..] + b, key, k);
      assert WithKey(a, key, k) == head + WithKey(a[1..], key, k);
      ConcatAssoc(head, WithKey(a[1..], key, k), WithKey(b, key, k));
    } else {
      assert a + b == b;
    }
  }

  /** None of the elements have key `k`. */
  lemma {:induction false} WithKeyNone<T>(s: seq<T>, key: T -> string, k: string)
    requires forall i :: 0 <= i < |s| ==> key(s[i]) != k
    ensures WithKey(s, key, k) == []
  {
    if s != [] {
      WithKeyNone(s[1..], key, k);
    }
  }

  /** Inserting `x` puts it first among the elements with its key. */
  lemma InsertWithKey<T>(x: T, s: seq<T>, key: T -> string, k: string)
    ensures WithKey(Insert(x, s, key), key, k) ==
              (if key(x) == k then [x] else []) + WithKey(s, key, k)
  {
    InsertShape(x, s, key);
    var p := InsertPos(x, s, key);
    var a, b := s[..p], s[p..];
    WithKeyAround(a, x, b, key, k);
    assert s == a + b;
    WithKeyAppend(a, b, key, k);
    if key(x) == k {
      BelowInsertPos(x, s, key);
    }
  }

  lemma WithKeyAround<T>(a: seq<T>, x: T, b: seq<T>, key: T -> string, k: string)
    ensures WithKey(a + [x] + b, key, k) ==
              WithKey(a, key, k) + (if key(x) == k then [x] else []) + WithKey(b, key, k)
  {
    WithKeyAppend(a + [x], b, key, k);
    WithKeyAppend(a, [x], key, k);
    assert WithKey([x], key, k) == (if key(x) == k then [x] else []) by {
      assert [x][1..] == [];
    }
  }

  /** No element before the insertion point has the key of `x`. */
  lemma BelowInsertPos<T>(x: T, s: seq<T>, key: T -> string)
    ensures WithKey(s[..InsertPos(x, s, key)], key, key(x)) == []
  {
    InsertShape(x, s, key);
    var a := s[..InsertPos(x, s, key)];
    forall i | 0 <= i < |a| ensures key(a[i]) != key(x) {
      LessIrreflexive(key(x));
    }
    WithKeyNone(a, key, key(x));
  }

  // ---------------------------------------------------------------------------
  // SortBy
  // ---------------------------------------------------------------------------

  /** The result is a permutation of the input. */
  lemma {:induction false} SortByPermutes<T>(s: seq<T>, key: T -> string)
    ensures multiset(SortBy(s, key)) == multiset(s)
  {
    if s != [] {
      SortByPermutes(s[1..], key);
      InsertMultiset(s[0], SortBy(s[1..], key), key);
      assert s == [s[0]] + s[1..];
    }
  }

  /** The keys are in non-decreasing order. */
  lemma {:induction false} SortBySorts<T>(s: seq<T>, key: T -> string)
    ensures SortedBy(SortBy(s, key), key)
  {
    if s != [] {
      SortBySorts(s[1..], key);
      InsertKeepsSorted(s[0], SortBy(s[1..], key), key);
    }
  }

  /** Stability: for every key, the elements with that key keep their order. */
  lemma {:induction false} SortByStable<T>(s: seq<T>, key: T -> string, k: string)
    ensures WithKey(SortBy(s, key), key, k) == WithKey(s, key, k)
  {
    if s != [] {
      SortByStable(s[1..], key, k);
      InsertWithKey(s[0], SortBy(s[1..], key), key, k);
    }
  }

  /** Inserting a new element into a list without repeats gives a list without repeats. */
  lemma InsertDistinct<T>(x: T, s: seq<T>, key: T -> string)
    requires Distinct(s) && x !in s
    ensures Distinct(Insert(x, s, key))
  {
    InsertShape(x, s, key);
    var p := InsertPos(x, s, key);
    var r := Insert(x, s, key);
    forall i, j | 0 <= i < j < |r| ensures r[i] != r[j] {
      if i < p && j > p {
        assert r[i] == s[i] && r[j] == s[j - 1];
      } else if j < p {
        assert r[i] == s[i] && r[j] == s[j];
      } else if i > p {
        assert r[i] == s[i - 1] && r[j] == s[j - 1];
      } else if i == p {
        assert r[j] == s[j - 1];
      } else {
        assert r[i] == s[i];
      }
    }
  }

  /** Sorting a list without repeats gives a list without repeats. */
  lemma {:induction false} SortByDistinct<T>(s: seq<T>, key: T -> string)
    requires Distinct(s)
    ensures Distinct(SortBy(s, key))
  {
    if s != [] {
      SortByDistinct(s[1..], key);
      SortByPermutes(s[1..], key);
      assert s[0] !in s[1..];
      assert s[0] !in multiset(s[1..]);
      assert s[0] !in SortBy(s[1..], key);
      InsertDistinct(s[0], SortBy(s[1..], key), key);
    }
  }
}
