/**
 * The rename rule of `Utilities.add_prefix` and the cleaned sort key of
 * `Utilities.get_selection`: a name is split on the separator, one leading
 * all-caps token and then one leading all-digit token are dropped, and the
 * new name is the stripped prefix, an optional 3-digit index and the remaining
 * base name, joined by the separator.
 */
module Naming {
  import opened Text
  import opened Common

  /** The separator `add_prefix` is called with, and the one `get_selection` uses. */
  const Underscore: char := '_'

  /** Drop at most one leading all-caps token, then at most one leading all-digit token. */
  function StripTokens(tokens: seq<string>): (r: seq<string>)
    // what is left is a suffix of the tokens, in their order, at most two shorter
    ensures |tokens| - 2 <= |r| <= |tokens| && r == tokens[|tokens| - |r|..]
    // two tokens go only as caps-then-digits
    ensures |r| == |tokens| - 2 ==> IsUpper(tokens[0]) && IsDigits(tokens[1])
    // one token goes only when it is caps or digits, and a caps token is followed by a non-digit one
    ensures |r| == |tokens| - 1 ==>
              (IsUpper(tokens[0]) && (r == [] || !IsDigits(r[0]))) ||
              (!IsUpper(tokens[0]) && IsDigits(tokens[0]))
    // nothing goes only when the first token is neither
    ensures |r| == |tokens| ==> tokens == [] || (!IsUpper(tokens[0]) && !IsDigits(tokens[0]))
  {
    var afterCaps := if |tokens| > 0 && IsUpper(tokens[0]) then tokens[1..] else tokens;
    if |afterCaps| > 0 && IsDigits(afterCaps[0]) then afterCaps[1..] else afterCaps
  }

  /** `sep.join(tokens)` after stripping: the part of the old name that survives. */
  function BaseName(name: string, sep: char): string
  {
    Join(StripTokens(Split(name, sep)), sep)
  }

  /** `f"{i:03d}"`. */
  function IndexLabel(index: nat): (r: string)
    ensures IsDigits(r) && DigitsValue(r) == index
    ensures |r| >= 3 && (index < 1000 ==> |r| == 3)
  {
    var r := ZeroPadded(index, 3);
    assert index < 1000 ==> |Decimal(index)| <= 3 by {
      if index < 1000 && |Decimal(index)| > 3 { DecimalLength(index); }
    }
    r
  }

  /** A numeral of a number below 1000 has at most three digits. */
  lemma {:induction false} DecimalLength(n: nat)
    ensures n < 1000 ==> |Decimal(n)| <= 3
    ensures n < 100 ==> |Decimal(n)| <= 2
    ensures n < 10 ==> |Decimal(n)| == 1
    decreases n
  {
    if n >= 10 { DecimalLength(n / 10); }
  }

  /** The parts `[prefix.rstrip(sep)]`, then the index when asked for, then a non-empty base name. */
  function NameParts(name: string, prefix: string, addIndex: bool, index: nat, sep: char): seq<string>
  {
    var base := BaseName(name, sep);
    [RStrip(prefix, sep)]
      + (if addIndex then [IndexLabel(index)] else [])
      + (if base != [] then [base] else [])
  }

  /** The name `add_prefix` gives the object at 1-based position `index`. */
  function NewName(name: string, prefix: string, addIndex: bool, index: nat, sep: char): string
  {
    Join(NameParts(name, prefix, addIndex, index, sep), sep)
  }

  /** `_key` of `get_selection`: the base name, or the full name when nothing is left. */
  function CleanKey(name: string): (r: string)
    ensures r == [] <==> name == []
  {
    var base := BaseName(name, Underscore);
    if base == [] then name else base
  }

  // ---------------------------------------------------------------------------
  // What the new name is made of
  // ---------------------------------------------------------------------------

  /** A non-empty base name splits back into the tokens that survived stripping. */
  lemma BaseNameTokens(name: string, sep: char)
    ensures BaseName(name, sep) != [] ==>
              Split(BaseName(name, sep), sep) == StripTokens(Split(name, sep))
  {
    var ts := StripTokens(Split(name, sep));
    if BaseName(name, sep) != [] {
      SplitTokensNoSep(name, sep);
      SplitJoin(ts, sep);
    }
  }

  /**
   * Read back token by token, a new name is the tokens of the stripped prefix,
   * then the index (when asked for), then the tokens of the old name that
   * survived.
   */
  lemma NewNameTokens(name: string, prefix: string, addIndex: bool, index: nat, sep: char)
    requires !IsDigitChar(sep)
    ensures Split(NewName(name, prefix, addIndex, index, sep), sep) ==
              Split(RStrip(prefix, sep), sep)
              + (if addIndex then [IndexLabel(index)] else [])
              + (if BaseName(name, sep) != [] then StripTokens(Split(name, sep)) else [])
  {
    var base := BaseName(name, sep);
    var idx := if addIndex then [IndexLabel(index)] else [];
    var tail := if base != [] then StripTokens(Split(name, sep)) else [];
    IndexLabelHasNoSep(index, sep);
    BaseNameTokens(name, sep);
    PartsTokens(RStrip(prefix, sep), idx, base, tail, sep);
  }

  /**
   * The parts of a new name read back as the stem's tokens, then the index,
   * then the tokens of the base name.
   */
  lemma PartsTokens(stem: string, idx: seq<string>, base: string, tail: seq<string>, sep: char)
    requires idx == [] || (|idx| == 1 && sep !in idx[0])
    requires base != [] ==> Split(base, sep) == tail
    requires base == [] ==> tail == []
    ensures Split(Join([stem] + idx + (if base != [] then [base] else []), sep), sep) ==
              Split(stem, sep) + idx + tail
  {
    if idx != [] && base != [] {
      var rest := [idx[0], base];
      assert [stem] + idx + [base] == [stem] + rest;
      assert rest[1..] == [base];
      assert Join(rest, sep) == idx[0] + [sep] + base;
      SplitAtSep(idx[0], base, sep);
      SplitNoSep(idx[0], sep);
      HeadThenTokens(stem, rest, idx, tail, sep);
    } else if idx != [] {
      assert [stem] + idx + [] == [stem] + idx;
      SplitNoSep(idx[0], sep);
      HeadThenTokens(stem, idx, idx, tail, sep);
    } else if base != [] {
      assert [stem] + idx + [base] == [stem] + [base];
      HeadThenTokens(stem, [base], idx, tail, sep);
    } else {
      assert [stem] + idx + [] == [stem];
    }
  }

  /** A head joined before a non-empty tail reads back as the head's tokens, then the tail's. */
  lemma HeadThenTokens(head: string, rest: seq<string>, idx: seq<string>, tail: seq<string>, sep: char)
    requires rest != [] && Split(Join(rest, sep), sep) == idx + tail
    ensures Split(Join([head] + rest, sep), sep) == Split(head, sep) + idx + tail
  {
    JoinAfterHead(head, rest, sep);
    SplitAtSep(head, Join(rest, sep), sep);
    ConcatAssoc(Split(head, sep), idx, tail);
  }

  /** Joining a head and a non-empty tail puts one separator between them. */
  lemma JoinAfterHead(head: string, tail: seq<string>, sep: char)
    requires tail != []
    ensures Join([head] + tail, sep) == head + [sep] + Join(tail, sep)
  {
    assert ([head] + tail)[1..] == tail;
  }

  lemma IndexLabelHasNoSep(index: nat, sep: char)
    requires !IsDigitChar(sep)
    ensures sep !in IndexLabel(index)
  {
    var indexLabel := IndexLabel(index);
    assert forall k :: 0 <= k < |indexLabel| ==> IsDigitChar(indexLabel[k]);
  }

  /** The new name starts with the stripped prefix. */
  lemma NewNameStartsWithPrefix(name: string, prefix: string, addIndex: bool, index: nat, sep: char)
    ensures StartsWith(NewName(name, prefix, addIndex, index, sep), RStrip(prefix, sep))
  {
    var parts := NameParts(name, prefix, addIndex, index, sep);
    if |parts| > 1 {
      assert Join(parts, sep) == parts[0] + [sep] + Join(parts[1..], sep);
    }
  }

  // ---------------------------------------------------------------------------
  // Re-running the rename
  // ---------------------------------------------------------------------------

  /**
   * With an all-caps prefix and the index on, renaming keeps the base name:
   * a second run strips the old prefix and index instead of stacking them.
   */
  lemma RenameKeepsBase(name: string, prefix: string, index: nat, sep: char)
    requires IsUpper(RStrip(prefix, sep)) && sep !in RStrip(prefix, sep) && !IsDigitChar(sep)
    ensures BaseName(NewName(name, prefix, true, index, sep), sep) == BaseName(name, sep)
  {
    var base := BaseName(name, sep);
    NewNameTokens(name, prefix, true, index, sep);
    SplitNoSep(RStrip(prefix, sep), sep);
    var rest := if base != [] then StripTokens(Split(name, sep)) else [];
    StripCapsThenDigits(RStrip(prefix, sep), IndexLabel(index), rest);
    if base != [] {
      assert Join(rest, sep) == base;
    }
  }

  /** A caps token followed by a digit token is exactly what stripping removes. */
  lemma StripCapsThenDigits(caps: string, digits: string, rest: seq<string>)
    requires IsUpper(caps) && IsDigits(digits)
    ensures StripTokens([caps] + [digits] + rest) == rest
  {
    var tokens := [caps] + [digits] + rest;
    assert tokens[0] == caps;
    assert tokens[1..] == [digits] + rest;
    assert ([digits] + rest)[1..] == rest;
  }

  /** Renaming twice with an all-caps prefix and the index on is renaming once. */
  lemma RenameTwice(name: string, prefix: string, first: nat, second: nat, sep: char)
    requires IsUpper(RStrip(prefix, sep)) && sep !in RStrip(prefix, sep) && !IsDigitChar(sep)
    ensures NewName(NewName(name, prefix, true, first, sep), prefix, true, second, sep)
            == NewName(name, prefix, true, second, sep)
  {
    RenameKeepsBase(name, prefix, first, sep);
  }

  /** The defaults (`SM_`, index on, `_`): a second run replaces `SM_001_` rather than adding `SM_002_SM_001_`. */
  lemma DefaultRenameIsStable(name: string, first: nat, second: nat)
    ensures NewName(NewName(name, "SM_", true, first, Underscore), "SM_", true, second, Underscore)
            == NewName(name, "SM_", true, second, Underscore)
  {
    assert RStrip("SM_", Underscore) == "SM";
    assert IsUpperChar("SM"[0]);
    RenameTwice(name, "SM_", first, second, Underscore);
  }

  /** A name that is one all-caps token has no base name: it becomes the prefix and index alone. */
  lemma SingleCapsTokenLosesBase(name: string, prefix: string, addIndex: bool, index: nat, sep: char)
    requires IsUpper(name) && sep !in name
    ensures BaseName(name, sep) == []
    ensures NewName(name, prefix, addIndex, index, sep) ==
              Join([RStrip(prefix, sep)] + (if addIndex then [IndexLabel(index)] else []), sep)
  {
    SplitNoSep(name, sep);
    assert StripTokens(Split(name, sep)) == [];
    assert NameParts(name, prefix, addIndex, index, sep) ==
             [RStrip(prefix, sep)] + (if addIndex then [IndexLabel(index)] else []);
  }

  /**
   * A prefix with an inner separator is not recognised on a second run when
   * its first token is all caps and its second is not all digits (such as
   * "SM_PROP_"): only the first token is stripped, so the rest of the old
   * prefix and the old index stay in the base name and the next run stacks
   * its own prefix and index in front of them.
   */
  lemma MultiTokenPrefixStacks(name: string, prefix: string, index: nat, sep: char)
    requires !IsDigitChar(sep)
    requires var ts := Split(RStrip(prefix, sep), sep);
             |ts| >= 2 && IsUpper(ts[0]) && !IsDigits(ts[1])
    ensures BaseName(NewName(name, prefix, true, index, sep), sep) ==
              Join(Split(RStrip(prefix, sep), sep)[1..] + [IndexLabel(index)]
                   + (if BaseName(name, sep) != [] then StripTokens(Split(name, sep)) else []), sep)
  {
    var ts := Split(RStrip(prefix, sep), sep);
    var tail := if BaseName(name, sep) != [] then StripTokens(Split(name, sep)) else [];
    NewNameTokens(name, prefix, true, index, sep);
    StripCapsThenOther(ts, [IndexLabel(index)] + tail);
    ConcatAssoc(ts, [IndexLabel(index)], tail);
    ConcatAssoc(ts[1..], [IndexLabel(index)], tail);
  }

  /** A caps token followed by a token that is not all digits: only the caps token goes. */
  lemma StripCapsThenOther(ts: seq<string>, more: seq<string>)
    requires |ts| >= 2 && IsUpper(ts[0]) && !IsDigits(ts[1])
    ensures StripTokens(ts + more) == ts[1..] + more
  {
    var tokens := ts + more;
    assert tokens[0] == ts[0] && tokens[1] == ts[1];
    assert tokens[1..] == ts[1..] + more;
  }

  /** After a rename with an all-caps prefix and the index on, the sort key is unchanged when a base name remains. */
  lemma RenameKeepsCleanKey(name: string, prefix: string, index: nat)
    requires IsUpper(RStrip(prefix, Underscore)) && Underscore !in RStrip(prefix, Underscore)
    requires BaseName(name, Underscore) != []
    ensures CleanKey(NewName(name, prefix, true, index, Underscore)) == CleanKey(name)
  {
    RenameKeepsBase(name, prefix, index, Underscore);
  }

  // ---------------------------------------------------------------------------
  // The whole loop of add_prefix, on a map from objects to names
  // ---------------------------------------------------------------------------

  /** The names after renaming `objects` in order, the k-th (1-based) with index k. */
  function RenameAll<K(==)>(names: map<K, string>, objects: seq<K>, prefix: string, addIndex: bool, sep: char): (r: map<K, string>)
    requires forall k :: 0 <= k < |objects| ==> objects[k] in names
    ensures r.Keys == names.Keys
    decreases |objects|
  {
    if objects == [] then names
    else
      var before := RenameAll(names, objects[..|objects| - 1], prefix, addIndex, sep);
      var o := objects[|objects| - 1];
      before[o := NewName(before[o], prefix, addIndex, |objects|, sep)]
  }

  /**
   * Every object in the list gets the name the rule gives its old name and
   * its 1-based position; every other object keeps its name.
   */
  lemma {:induction false} RenameAllCovers<K>(names: map<K, string>, objects: seq<K>, prefix: string, addIndex: bool, sep: char)
    requires forall k :: 0 <= k < |objects| ==> objects[k] in names
    requires Distinct(objects)
    ensures forall k :: 0 <= k < |objects| ==>
              RenameAll(names, objects, prefix, addIndex, sep)[objects[k]]
              == NewName(names[objects[k]], prefix, addIndex, k + 1, sep)
    ensures forall o :: o in names && o !in objects ==>
              RenameAll(names, objects, prefix, addIndex, sep)[o] == names[o]
    decreases |objects|
  {
    if objects != [] {
      var n := |objects|;
      var init := objects[..n - 1];
      RenameAllCovers(names, init, prefix, addIndex, sep);
      forall o | o in names && o !in objects
        ensures RenameAll(names, objects, prefix, addIndex, sep)[o] == names[o]
      {
        assert o !in init;
      }
      forall k | 0 <= k < n
        ensures RenameAll(names, objects, prefix, addIndex, sep)[objects[k]]
                == NewName(names[objects[k]], prefix, addIndex, k + 1, sep)
      {
        if k < n - 1 {
          assert init[k] == objects[k];
        } else {
          assert objects[k] !in init;
        }
      }
    }
  }
}
