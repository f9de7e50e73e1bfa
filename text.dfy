/**
 * String primitives the add-on relies on, restricted to ASCII: Python's
 * `str.isupper`, `str.isdigit`, `str.split`/`str.join` with a one-character
 * separator, `str.rstrip`, `str.startswith`, decimal formatting (`f"{n}"`,
 * `f"{n:03d}"`), ordering of strings by code point, and POSIX `os.path.join`
 * of two components.
 */
module Text {

  // ---------------------------------------------------------------------------
  // Character classes (ASCII)
  // ---------------------------------------------------------------------------

  predicate IsUpperChar(ch: char) { 'A' <= ch <= 'Z' }
  predicate IsLowerChar(ch: char) { 'a' <= ch <= 'z' }
  predicate IsDigitChar(ch: char) { '0' <= ch <= '9' }

  /** `s.isupper()`: at least one cased character, and no lower-case one. */
  predicate IsUpper(s: string)
  {
    (exists i :: 0 <= i < |s| && IsUpperChar(s[i])) &&
    (forall i :: 0 <= i < |s| ==> !IsLowerChar(s[i]))
  }

  /** `s.isdigit()`: non-empty and made of decimal digits only. */
  predicate IsDigits(s: string)
  {
    |s| > 0 && forall i :: 0 <= i < |s| ==> IsDigitChar(s[i])
  }

  /** Neither class holds of the empty string, and no string is in both. */
  lemma ClassesOfEmptyAndDigits(s: string)
    ensures !IsUpper([]) && !IsDigits([])
    ensures IsDigits(s) ==> !IsUpper(s)
  {
    if IsDigits(s) {
      assert forall i :: 0 <= i < |s| ==> !IsUpperChar(s[i]);
    }
  }

  // ---------------------------------------------------------------------------
  // split / join with a one-character separator
  // ---------------------------------------------------------------------------

  /** `s.split(sep)`: the maximal runs between separators, empty runs included. */
  function Split(s: string, sep: char): (r: seq<string>)
    ensures |r| >= 1
  {
    if s == [] then [[]]
    else
      var rest := Split(s[1..], sep);
      if s[0] == sep then [[]] + rest
      else [[s[0]] + rest[0]] + rest[1..]
  }

  /** No token of a split holds the separator. */
  lemma {:induction false} SplitTokensNoSep(s: string, sep: char)
    ensures forall k :: 0 <= k < |Split(s, sep)| ==> sep !in Split(s, sep)[k]
  {
    if s != [] {
      SplitTokensNoSep(s[1..], sep);
    }
  }

  /** `sep.join(tokens)`. */
  function Join(tokens: seq<string>, sep: char): string
  {
    if tokens == [] then []
    else if |tokens| == 1 then tokens[0]
    else tokens[0] + [sep] + Join(tokens[1..], sep)
  }

  /** Joining the pieces of a split gives back the original string. */
  lemma {:induction false} JoinSplit(s: string, sep: char)
    ensures Join(Split(s, sep), sep) == s
  {
    if s != [] {
      var rest := Split(s[1..], sep);
      JoinSplit(s[1..], sep);
      if s[0] == sep {
        assert Split(s, sep) == [[]] + rest;
        assert Join(Split(s, sep), sep) == [] + [sep] + Join(rest, sep);
      } else {
        var r := Split(s, sep);
        assert r == [[s[0]] + rest[0]] + rest[1..];
        if |rest| == 1 {
          assert r == [[s[0]] + rest[0]];
        } else {
          assert r[1..] == rest[1..];
          assert Join(rest, sep) == rest[0] + [sep] + Join(rest[1..], sep);
          assert Join(r, sep) == [s[0]] + rest[0] + [sep] + Join(rest[1..], sep);
        }
      }
    }
  }

  /** A string without the separator is a single token. */
  lemma {:induction false} SplitNoSep(s: string, sep: char)
    requires sep !in s
    ensures Split(s, sep) == [s]
  {
    if s != [] {
      assert s[0] != sep;
      assert sep !in s[1..];
      SplitNoSep(s[1..], sep);
      assert [s[0]] + s[1..] == s;
    }
  }

  /** Splitting distributes over a separator occurrence. */
  lemma {:induction false} SplitAtSep(a: string, b: string, sep: char)
    ensures Split(a + [sep] + b, sep) == Split(a, sep) + Split(b, sep)
  {
    var s := a + [sep] + b;
    if a == [] {
      assert s[1..] == b;
    } else {
      assert s[0] == a[0];
      assert s[1..] == a[1..] + [sep] + b;
      SplitAtSep(a[1..], b, sep);
      var restA, restB := Split(a[1..], sep), Split(b, sep);
      var rest := Split(s[1..], sep);
      assert rest == restA + restB;
      if a[0] != sep {
        var head := [[a[0]] + restA[0]];
        assert rest[0] == restA[0];
        assert rest[1..] == restA[1..] + restB;
        assert Split(s, sep) == head + (restA[1..] + restB);
        ConcatAssoc(head, restA[1..], restB);
      } else {
        ConcatAssoc([[]], restA, restB);
      }
    }
  }

  lemma ConcatAssoc<T>(x: seq<T>, y: seq<T>, z: seq<T>)
    ensures x + (y + z) == (x + y) + z
  {
  }

  /** Splitting a join recovers the tokens, when no token holds the separator. */
  lemma {:induction false} SplitJoin(tokens: seq<string>, sep: char)
    requires |tokens| >= 1
    requires forall k :: 0 <= k < |tokens| ==> sep !in tokens[k]
    ensures Split(Join(tokens, sep), sep) == tokens
  {
    if |tokens| == 1 {
      SplitNoSep(tokens[0], sep);
    } else {
      SplitNoSep(tokens[0], sep);
      SplitJoin(tokens[1..], sep);
      SplitAtSep(tokens[0], Join(tokens[1..], sep), sep);
      assert [tokens[0]] + tokens[1..] == tokens;
    }
  }

  // ---------------------------------------------------------------------------
  // rstrip, startswith
  // ---------------------------------------------------------------------------

  /** `s.rstrip(ch)`: drop every trailing `ch`. */
  function RStrip(s: string, ch: char): (r: string)
    ensures |r| <= |s| && r == s[..|r|]
    ensures r == [] || r[|r| - 1] != ch
    ensures forall i :: |r| <= i < |s| ==> s[i] == ch
  {
    if s != [] && s[|s| - 1] == ch then RStrip(s[..|s| - 1], ch) else s
  }

  /** `s.startswith(p)`. */
  predicate StartsWith(s: string, p: string)
  {
    |p| <= |s| && s[..|p|] == p
  }

  // ---------------------------------------------------------------------------
  // Decimal numerals
  // ---------------------------------------------------------------------------

  function DigitChar(d: nat): char
    requires d < 10
  {
    "0123456789"[d]
  }

  function DigitValue(ch: char): nat
    requires IsDigitChar(ch)
  {
    (ch as int - '0' as int) as nat
  }

  /** The number a string of decimal digits denotes (leading zeros allowed). */
  function DigitsValue(s: string): nat
    requires forall i :: 0 <= i < |s| ==> IsDigitChar(s[i])
  {
    if s == [] then 0 else 10 * DigitsValue(s[..|s| - 1]) + DigitValue(s[|s| - 1])
  }

  /** `f"{n}"` for a natural number. */
  function Decimal(n: nat): (r: string)
    ensures IsDigits(r)
    ensures DigitsValue(r) == n
    ensures |r| == 1 || r[0] != '0'
    decreases n
  {
    var last := [DigitChar(n % 10)];
    if n < 10 then
      last
    else
      var r := Decimal(n / 10) + last;
      assert r[..|r| - 1] == Decimal(n / 10);
      r
  }

  /** A string of `k` zeros. */
  function Zeros(k: nat): (r: string)
    ensures |r| == k && forall i :: 0 <= i < k ==> r[i] == '0'
  {
    if k == 0 then [] else Zeros(k - 1) + ['0']
  }

  /** Leading zeros do not change the value of a numeral. */
  lemma {:induction false} LeadingZeros(k: nat, s: string)
    requires forall i :: 0 <= i < |s| ==> IsDigitChar(s[i])
    ensures DigitsValue(Zeros(k) + s) == DigitsValue(s)
    decreases |s| + k
  {
    var z := Zeros(k) + s;
    if s == [] {
      assert z == Zeros(k);
      if k > 0 {
        assert z[..|z| - 1] == Zeros(k - 1) + [];
        LeadingZeros(k - 1, []);
      }
    } else {
      assert z[..|z| - 1] == Zeros(k) + s[..|s| - 1];
      LeadingZeros(k, s[..|s| - 1]);
    }
  }

  /** `f"{n:0{width}d}"`: the numeral of `n`, zero-padded to at least `width`. */
  function ZeroPadded(n: nat, width: nat): (r: string)
    ensures IsDigits(r)
    ensures |r| == if |Decimal(n)| < width then width else |Decimal(n)|
    ensures DigitsValue(r) == n
  {
    var d := Decimal(n);
    var pad := if |d| < width then width - |d| else 0;
    LeadingZeros(pad, d);
    Zeros(pad) + d
  }

  // ---------------------------------------------------------------------------
  // String order (Python compares strings by code point, lexicographically)
  // ---------------------------------------------------------------------------

  predicate Less(a: string, b: string)
  {
    if a == [] then b != []
    else if b == [] then false
    else a[0] < b[0] || (a[0] == b[0] && Less(a[1..], b[1..]))
  }

  lemma {:induction false} LessIrreflexive(a: string)
    ensures !Less(a, a)
  {
    if a != [] { LessIrreflexive(a[1..]); }
  }

  lemma {:induction false} LessTransitive(a: string, b: string, c: string)
    requires Less(a, b) && Less(b, c)
    ensures Less(a, c)
  {
    if a != [] && b != [] && c != [] && a[0] == b[0] == c[0] {
      LessTransitive(a[1..], b[1..], c[1..]);
    }
  }

  lemma {:induction false} LessTotal(a: string, b: string)
    ensures a == b || Less(a, b) || Less(b, a)
  {
    if a != [] && b != [] && a[0] == b[0] {
      LessTotal(a[1..], b[1..]);
      if a[1..] == b[1..] {
        assert a == [a[0]] + a[1..] && b == [b[0]] + b[1..];
      }
    }
  }

  lemma {:induction false} LessAsymmetric(a: string, b: string)
    requires Less(a, b)
    ensures !Less(b, a)
  {
    if a != [] && b != [] && a[0] == b[0] {
      LessAsymmetric(a[1..], b[1..]);
    }
  }

  // ---------------------------------------------------------------------------
  // Paths
  // ---------------------------------------------------------------------------

  /** POSIX `os.path.join(dir, name)` for two components. */
  function PathJoin(dir: string, name: string): (r: string)
    ensures StartsWith(name, "/") ==> r == name
    ensures !StartsWith(name, "/") ==>
              && StartsWith(r, dir)
              && |r| == |dir| + JoinGap(dir) + |name|
              && r[|r| - |name|..] == name
    ensures !StartsWith(name, "/") && JoinGap(dir) == 1 ==> r[|dir|] == '/'
  {
    if StartsWith(name, "/") then name
    else if JoinGap(dir) == 0 then dir + name
    else dir + "/" + name
  }

  /** Whether `os.path.join` inserts a slash after `dir`. */
  function JoinGap(dir: string): nat
  {
    if dir == [] || dir[|dir| - 1] == '/' then 0 else 1
  }

  /** Under one directory, different relative names give different paths. */
  lemma PathJoinInjective(dir: string, a: string, b: string)
    requires !StartsWith(a, "/") && !StartsWith(b, "/")
    requires PathJoin(dir, a) == PathJoin(dir, b)
    ensures a == b
  {
  }
}
