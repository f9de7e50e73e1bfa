/**
 * The static helpers of the `Utilities` class: the export directory default,
 * the ordered selection, the in-place rename and the preset-aware export call.
 * `ensure_object_mode` is not modelled here; its outcome is an input of the
 * operator.
 */
module Utilities {
  import opened Common
  import opened Text
  import opened Naming
  import opened Ordering
  import opened Presets
  import opened SceneModel

  /** `export_path or "//"`: an empty path means the folder of the .blend file. */
  function ExportDir(exportPath: string): (r: string)
    ensures r != []
    ensures exportPath != [] ==> r == exportPath
    ensures exportPath == [] ==> r == "//"
  {
    if exportPath == [] then "//" else exportPath
  }

  /** The sort key of an object: `_key` of its current name. */
  function NameKey(names: map<ObjectId, string>): ObjectId -> string
  {
    o => if o in names then CleanKey(names[o]) else []
  }

  /**
   * `get_selection`: the selected objects, stably sorted by their cleaned
   * names. The result holds the same objects, keys do not decrease, and
   * objects with equal keys stay in the order the host listed them.
   */
  function GetSelection(selected: seq<ObjectId>, names: map<ObjectId, string>): (r: seq<ObjectId>)
    requires forall k :: 0 <= k < |selected| ==> selected[k] in names
    ensures multiset(r) == multiset(selected)
    ensures forall k :: 0 <= k < |r| ==> r[k] in names
    ensures forall i, j :: 0 <= i < j < |r| ==>
              r[i] in names && r[j] in names && !Less(CleanKey(names[r[j]]), CleanKey(names[r[i]]))
    ensures forall k :: WithKey(r, NameKey(names), k) == WithKey(selected, NameKey(names), k)
    ensures Distinct(selected) ==> Distinct(r)
  {
    var r := SortBy(selected, NameKey(names));
    SelectionFacts(selected, names);
    r
  }

  lemma SelectionFacts(selected: seq<ObjectId>, names: map<ObjectId, string>)
    requires forall k :: 0 <= k < |selected| ==> selected[k] in names
    ensures var r := SortBy(selected, NameKey(names));
            && multiset(r) == multiset(selected)
            && (forall k :: 0 <= k < |r| ==> r[k] in names)
            && (forall i, j :: 0 <= i < j < |r| ==>
                  r[i] in names && r[j] in names && !Less(CleanKey(names[r[j]]), CleanKey(names[r[i]])))
            && (forall k :: WithKey(r, NameKey(names), k) == WithKey(selected, NameKey(names), k))
            && (Distinct(selected) ==> Distinct(r))
  {
    var key := NameKey(names);
    var r := SortBy(selected, key);
    SortByPermutes(selected, key);
    SortBySorts(selected, key);
    forall k ensures WithKey(r, key, k) == WithKey(selected, key, k) {
      SortByStable(selected, key, k);
    }
    forall i | 0 <= i < |r| ensures r[i] in names {
      assert r[i] in multiset(r);
    }
    if Distinct(selected) {
      SortByDistinct(selected, key);
    }
  }

  /**
   * `add_prefix`: renames `objects` in order, the k-th (from 1) after the
   * rename rule with index k, and returns how many it renamed.
   */
  method AddPrefix(scene: Scene, objects: seq<ObjectId>, prefix: string, addIndex: bool, sep: char)
    returns (count: nat)
    requires scene.Valid()
    requires forall k :: 0 <= k < |objects| ==> objects[k] in scene.names
    modifies scene`names
    ensures scene.Valid()
    ensures count == |objects|
    ensures scene.names == RenameAll(old(scene.names), objects, prefix, addIndex, sep)
  {
    var stem := RStrip(prefix, sep);
    count := 0;
    while count < |objects|
      invariant count <= |objects|
      invariant scene.names.Keys == old(scene.names).Keys
      invariant scene.names == RenameAll(old(scene.names), objects[..count], prefix, addIndex, sep)
    {
      var obj := objects[count];
      var newName := RenamedTo(scene.names[obj], prefix, stem, addIndex, count + 1, sep);
      RenameAllStep(old(scene.names), objects, count, prefix, addIndex, sep);
      scene.names := scene.names[obj := newName];
      count := count + 1;
    }
    assert objects[..count] == objects;
  }

  /**
   * The body of the `add_prefix` loop for one object, step by step: its new
   * name. `Naming.NewName` is the specification, and the rename lemmas are
   * stated about it.
   */
  method RenamedTo(name: string, prefix: string, stem: string, addIndex: bool, i: nat, sep: char)
    returns (newName: string)
    requires stem == RStrip(prefix, sep)
    ensures newName == NewName(name, prefix, addIndex, i, sep)
  {
    var tokens := Split(name, sep);
    if |tokens| > 0 && IsUpper(tokens[0]) {
      tokens := tokens[1..];
    }
    if |tokens| > 0 && IsDigits(tokens[0]) {
      tokens := tokens[1..];
    }
    assert tokens == StripTokens(Split(name, sep));
    var baseName := Join(tokens, sep);
    var parts := [stem];
    if addIndex {
      parts := parts + [IndexLabel(i)];
    }
    if baseName != [] {
      parts := parts + [baseName];
    }
    assert parts == NameParts(name, prefix, addIndex, i, sep);
    newName := Join(parts, sep);
  }

  lemma RenameAllStep(names: map<ObjectId, string>, objects: seq<ObjectId>, n: nat, prefix: string, addIndex: bool, sep: char)
    requires n < |objects|
    requires forall k :: 0 <= k < |objects| ==> objects[k] in names
    ensures var before := RenameAll(names, objects[..n], prefix, addIndex, sep);
            RenameAll(names, objects[..n + 1], prefix, addIndex, sep) ==
              before[objects[n] := NewName(before[objects[n]], prefix, addIndex, n + 1, sep)]
  {
    assert objects[..n + 1][..n] == objects[..n];
  }

  /** `export_fbx`: look up the axis preset, then export the current selection. */
  method ExportFbx(scene: Scene, filepath: string, axisKey: string, raises: bool) returns (ok: bool)
    requires scene.Valid()
    modifies scene`exports
    ensures scene.Valid()
    ensures ok == !raises
    ensures scene.exports ==
              if ok then old(scene.exports) + [ExportCall(filepath, AxisPreset(axisKey), scene.selected)]
              else old(scene.exports)
  {
    var preset := AxisPreset(axisKey);
    ok := scene.ExportSelection(filepath, preset, raises);
  }
}
