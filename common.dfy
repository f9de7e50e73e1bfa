/** Small shared vocabulary: an optional value, distinct sequences, the set of a sequence. */
module Common {

  datatype Option<T> = None | Some(value: T)

  /** No element occurs twice. */
  predicate Distinct<T(==)>(s: seq<T>)
  {
    forall i, j :: 0 <= i < j < |s| ==> s[i] != s[j]
  }

  /** The elements of `s`, as a set. */
  function SetOf<T>(s: seq<T>): set<T>
  {
    set x | x in s
  }

  /** Extending a prefix by one element adds that element to its set. */
  lemma SetOfPrefix<T>(s: seq<T>, n: nat)
    requires n < |s|
    ensures SetOf(s[..n + 1]) == SetOf(s[..n]) + {s[n]}
  {
    TakeOneMore(s, n);
  }

  /** A prefix one longer is the shorter prefix and the next element. */
  lemma TakeOneMore<T>(s: seq<T>, n: nat)
    requires n < |s|
    ensures s[..n + 1] == s[..n] + [s[n]]
  {
  }
}
