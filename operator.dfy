/**
 * The operator `TA_OT_BatchRenameExportFBX`: `invoke` sizes a confirmation
 * dialog by the number of files an export will write, and `execute` runs the
 * cancellation gate, renames the ordered selection and exports it, either as
 * one file per object or as one combined file, inside a `SelectionGuard`.
 */
module BatchExport {
  import opened Common
  import opened Text
  import opened Naming
  import opened Presets
  import opened SceneModel
  import opened Utilities
  import opened Guard

  /** The scene properties the panel edits: `ta_prefix`, `ta_add_index`, ... */
  datatype Settings = Settings(
    prefix: string,
    addIndex: bool,
    perObject: bool,
    exportPath: string,
    exportFilename: string,
    axisPreset: string)

  /** The property defaults registered by the add-on. */
  const DefaultSettings: Settings := Settings("SM_", true, true, "//", "Export.fbx", "UNITY")

  /**
   * What the registered defaults mean: one file per selected object, the
   * Unity axes, and a folder relative to the .blend file, which a file that
   * was never saved cannot use.
   */
  lemma DefaultSettingsMeaning(targets: seq<ObjectId>, host: HostState)
    ensures FileCount(targets, DefaultSettings.perObject) == |targets|
    ensures AxisPreset(DefaultSettings.axisPreset) == AxisPair("-Z", "Y")
    ensures ExportDir(DefaultSettings.exportPath) == "//"
    ensures host.objectModeOk && host.fbxExporterAvailable && host.blendFilePath == [] ==>
              Gate(DefaultSettings, host, targets) == Some(UnsavedRelativePath)
  {
    AxisPresetKnownKeys();
  }

  /**
   * What the host reports: whether object mode could be reached
   * (`ensure_object_mode`), whether `bpy.ops.export_scene.fbx` exists, and
   * `bpy.data.filepath` ("" for a file never saved).
   */
  datatype HostState = HostState(objectModeOk: bool, fbxExporterAvailable: bool, blendFilePath: string)

  datatype CancelReason =
    | ObjectModeUnavailable
    | FbxExporterMissing
    | UnsavedRelativePath
    | NothingSelected
    | ExportFailed

  /** `{'FINISHED'}` with the counts the report shows, or `{'CANCELLED'}` and why. */
  datatype Status = Finished(renamed: nat, exported: nat) | Cancelled(reason: CancelReason)

  /** `{'CANCELLED'}`, or the dialog `invoke_props_dialog` opens. */
  datatype InvokeStatus = InvokeCancelled | DialogShown

  // ---------------------------------------------------------------------------
  // invoke: how many files, and the dialog text
  // ---------------------------------------------------------------------------

  /** `len(targets) if ta_per_object else 1`. */
  function FileCount(targets: seq<ObjectId>, perObject: bool): (r: nat)
    ensures targets != [] ==> r >= 1
    ensures r == 1 <==> !perObject || |targets| == 1
  {
    if perObject then |targets| else 1
  }

  /** `"" if count == 1 else "s"`. */
  function PluralSuffix(count: nat): (r: string)
    ensures r == [] <==> count == 1
    ensures r == [] || r == "s"
  {
    if count == 1 then "" else "s"
  }

  /** The first line of the dialog: `This will generate {count} FBX file{s}.` */
  function CountLine(count: nat): string
  {
    "This will generate " + Decimal(count) + " FBX file" + PluralSuffix(count) + "."
  }

  /** `_confirm_text`. */
  function ConfirmText(count: nat): string
  {
    CountLine(count) + "\nProceed?"
  }

  /** `draw` shows the text as two labels: the count line, then "Proceed?". */
  lemma ConfirmTextLines(count: nat)
    ensures Split(ConfirmText(count), '\n') == [CountLine(count), "Proceed?"]
  {
    CountLineIsOneLine(count);
    assert '\n' !in "Proceed?";
    TwoLines(CountLine(count), "Proceed?");
    assert "\nProceed?" == ['\n'] + "Proceed?";
    ConcatAssoc(CountLine(count), ['\n'], "Proceed?");
  }

  lemma TwoLines(a: string, b: string)
    requires '\n' !in a && '\n' !in b
    ensures Split(a + ['\n'] + b, '\n') == [a, b]
  {
    SplitAtSep(a, b, '\n');
    SplitNoSep(a, '\n');
    SplitNoSep(b, '\n');
  }

  lemma CountLineIsOneLine(count: nat)
    ensures '\n' !in CountLine(count)
  {
    var d := Decimal(count);
    assert forall i :: 0 <= i < |d| ==> IsDigitChar(d[i]);
    assert '\n' !in d;
    assert '\n' !in "This will generate ";
    assert '\n' !in " FBX file";
    assert '\n' !in PluralSuffix(count);
    assert '\n' !in ".";
  }

  // ---------------------------------------------------------------------------
  // execute: the cancellation gate
  // ---------------------------------------------------------------------------

  /** Exporting to a `//`-relative folder while the .blend file has never been saved. */
  predicate RelativeInUnsavedFile(dir: string, host: HostState)
  {
    StartsWith(dir, "//") && host.blendFilePath == []
  }

  /**
   * The four checks of `execute` as written, in order: check 3 looks at
   * `ta_export_path` itself, not at the folder the export will use.
   */
  function GateAsWritten(s: Settings, host: HostState, targets: seq<ObjectId>): (r: Option<CancelReason>)
    ensures r == Some(ObjectModeUnavailable) <==> !host.objectModeOk
    ensures r == Some(FbxExporterMissing) <==> host.objectModeOk && !host.fbxExporterAvailable
    ensures r == Some(UnsavedRelativePath) <==>
              host.objectModeOk && host.fbxExporterAvailable && RelativeInUnsavedFile(s.exportPath, host)
    ensures r == Some(NothingSelected) <==>
              host.objectModeOk && host.fbxExporterAvailable &&
              !RelativeInUnsavedFile(s.exportPath, host) && targets == []
    ensures r != Some(ExportFailed)
  {
    if !host.objectModeOk then Some(ObjectModeUnavailable)
    else if !host.fbxExporterAvailable then Some(FbxExporterMissing)
    else if RelativeInUnsavedFile(s.exportPath, host) then Some(UnsavedRelativePath)
    else if targets == [] then Some(NothingSelected)
    else None
  }

  /**
   * The four checks of `execute`, in order, with check 3 applied to the folder
   * the export will use (`export_path or "//"`). The reason given is the first
   * check that fails.
   */
  function Gate(s: Settings, host: HostState, targets: seq<ObjectId>): (r: Option<CancelReason>)
    ensures r == Some(ObjectModeUnavailable) <==> !host.objectModeOk
    ensures r == Some(FbxExporterMissing) <==> host.objectModeOk && !host.fbxExporterAvailable
    ensures r == Some(UnsavedRelativePath) <==>
              host.objectModeOk && host.fbxExporterAvailable && RelativeInUnsavedFile(ExportDir(s.exportPath), host)
    ensures r == Some(NothingSelected) <==>
              host.objectModeOk && host.fbxExporterAvailable &&
              !RelativeInUnsavedFile(ExportDir(s.exportPath), host) && targets == []
    ensures r != Some(ExportFailed)
  {
    if !host.objectModeOk then Some(ObjectModeUnavailable)
    else if !host.fbxExporterAvailable then Some(FbxExporterMissing)
    else if RelativeInUnsavedFile(ExportDir(s.exportPath), host) then Some(UnsavedRelativePath)
    else if targets == [] then Some(NothingSelected)
    else None
  }

  /** The gate lets an export through only into a folder that can be resolved, and only with something selected. */
  lemma GateProceeds(s: Settings, host: HostState, targets: seq<ObjectId>)
    ensures Gate(s, host, targets) == None <==>
              && host.objectModeOk && host.fbxExporterAvailable
              && !RelativeInUnsavedFile(ExportDir(s.exportPath), host)
              && targets != []
  {
  }

  /** As written, an empty export path in an unsaved file passes check 3, yet the export folder is `//`. */
  lemma EmptyPathSlipsThroughAsWritten(targets: seq<ObjectId>)
    requires targets != []
    ensures var s := DefaultSettings.(exportPath := "");
            var host := HostState(true, true, "");
            && GateAsWritten(s, host, targets) == None
            && RelativeInUnsavedFile(ExportDir(s.exportPath), host)
            && Gate(s, host, targets) == Some(UnsavedRelativePath)
  {
  }

  /** The two gates differ only for an empty export path. */
  lemma GatesAgreeOnNonEmptyPath(s: Settings, host: HostState, targets: seq<ObjectId>)
    requires s.exportPath != []
    ensures Gate(s, host, targets) == GateAsWritten(s, host, targets)
  {
  }

  // ---------------------------------------------------------------------------
  // execute: the files written
  // ---------------------------------------------------------------------------

  /** `os.path.join(out_dir, f"{obj.name}.fbx")`. */
  function ObjectFilePath(outDir: string, name: string): string
  {
    PathJoin(outDir, name + ".fbx")
  }

  /** `os.path.join(out_dir, ta_export_filename or "Export.fbx")`. */
  function CombinedFilePath(outDir: string, filename: string): string
  {
    PathJoin(outDir, if filename == [] then "Export.fbx" else filename)
  }

  /**
   * A per-object file with a relative name lands in `out_dir` and its path
   * ends in the name and `.fbx`; an absolute name is taken as it is.
   */
  lemma ObjectFileInFolder(outDir: string, name: string)
    ensures var r := ObjectFilePath(outDir, name);
            !StartsWith(name + ".fbx", "/") ==>
              StartsWith(r, outDir) && |r| >= |name| + 4 && r[|r| - (|name| + 4)..] == name + ".fbx"
    ensures StartsWith(name + ".fbx", "/") ==> ObjectFilePath(outDir, name) == name + ".fbx"
  {
  }

  /** The combined file, `Export.fbx` when no name is set, lands in `out_dir`. */
  lemma CombinedFileInFolder(outDir: string, filename: string)
    ensures var r := CombinedFilePath(outDir, filename);
            filename == [] ==> StartsWith(r, outDir) && |r| >= 10 && r[|r| - 10..] == "Export.fbx"
    ensures var r := CombinedFilePath(outDir, filename);
            filename != [] && !StartsWith(filename, "/") ==>
              StartsWith(r, outDir) && |r| >= |filename| && r[|r| - |filename|..] == filename
  {
    if filename == [] {
      assert "Export.fbx"[..1] == "E";
    }
  }

  /** One file per object, named after it, holding that object alone. */
  function PerObjectPlan(targets: seq<ObjectId>, names: map<ObjectId, string>, outDir: string, axes: AxisPair): seq<ExportCall>
    requires forall k :: 0 <= k < |targets| ==> targets[k] in names
  {
    seq(|targets|, k requires 0 <= k < |targets| =>
      ExportCall(ObjectFilePath(outDir, names[targets[k]]), axes, {targets[k]}))
  }

  /** The per-object loop as written: the k-th file holds the first k + 1 objects. */
  function PerObjectPlanAsWritten(targets: seq<ObjectId>, names: map<ObjectId, string>, outDir: string, axes: AxisPair): seq<ExportCall>
    requires forall k :: 0 <= k < |targets| ==> targets[k] in names
  {
    seq(|targets|, k requires 0 <= k < |targets| =>
      ExportCall(ObjectFilePath(outDir, names[targets[k]]), axes, SetOf(targets[..k + 1])))
  }

  /** One file holding every target. */
  function CombinedPlan(targets: seq<ObjectId>, outDir: string, filename: string, axes: AxisPair): seq<ExportCall>
  {
    [ExportCall(CombinedFilePath(outDir, filename), axes, SetOf(targets))]
  }

  /** The exports a successful `execute` performs, given the names after renaming. */
  function Plan(s: Settings, targets: seq<ObjectId>, names: map<ObjectId, string>, outDir: string): seq<ExportCall>
    requires forall k :: 0 <= k < |targets| ==> targets[k] in names
  {
    var axes := AxisPreset(s.axisPreset);
    if s.perObject then PerObjectPlan(targets, names, outDir, axes)
    else CombinedPlan(targets, outDir, s.exportFilename, axes)
  }

  /** The exports a successful `execute` as written performs: per object, the files accumulate. */
  function PlanAsWritten(s: Settings, targets: seq<ObjectId>, names: map<ObjectId, string>, outDir: string): seq<ExportCall>
    requires forall k :: 0 <= k < |targets| ==> targets[k] in names
  {
    var axes := AxisPreset(s.axisPreset);
    if s.perObject then PerObjectPlanAsWritten(targets, names, outDir, axes)
    else CombinedPlan(targets, outDir, s.exportFilename, axes)
  }

  /** The two plans differ only for a per-object export of two or more objects. */
  lemma PlansAgreeOnOneFileOrObject(s: Settings, targets: seq<ObjectId>, names: map<ObjectId, string>, outDir: string)
    requires forall k :: 0 <= k < |targets| ==> targets[k] in names
    requires !s.perObject || |targets| <= 1
    ensures PlanAsWritten(s, targets, names, outDir) == Plan(s, targets, names, outDir)
  {
    if s.perObject && |targets| == 1 {
      assert targets[..1] == [targets[0]];
      assert SetOf([targets[0]]) == {targets[0]};
    }
  }

  /** How many exports happen when the host raises at export number `failAt` (from 0). */
  function ExportsDone(failAt: Option<nat>, planned: nat): (r: nat)
    ensures r <= planned
    ensures r < planned <==> failAt.Some? && failAt.value < planned
    ensures failAt.Some? && failAt.value < planned ==> r == failAt.value
  {
    if failAt.Some? && failAt.value < planned then failAt.value else planned
  }

  /** The dialog announces exactly as many files as a successful export writes. */
  lemma PlanMatchesFileCount(s: Settings, targets: seq<ObjectId>, names: map<ObjectId, string>, outDir: string)
    requires forall k :: 0 <= k < |targets| ==> targets[k] in names
    ensures |Plan(s, targets, names, outDir)| == FileCount(targets, s.perObject)
  {
  }

  /** Per object, each target lands in exactly one file: its own. */
  lemma {:induction false} PerObjectFilesHoldOneObject(targets: seq<ObjectId>, names: map<ObjectId, string>, outDir: string, axes: AxisPair)
    requires forall k :: 0 <= k < |targets| ==> targets[k] in names
    requires Distinct(targets)
    ensures var plan := PerObjectPlan(targets, names, outDir, axes);
            forall k, j :: 0 <= k < |plan| && 0 <= j < |targets| ==>
              (targets[j] in plan[k].objects <==> j == k)
  {
  }

  /** As written, each target lands in its own file and in every later one. */
  lemma PerObjectFilesAccumulateAsWritten(targets: seq<ObjectId>, names: map<ObjectId, string>, outDir: string, axes: AxisPair)
    requires forall k :: 0 <= k < |targets| ==> targets[k] in names
    requires Distinct(targets)
    ensures var plan := PerObjectPlanAsWritten(targets, names, outDir, axes);
            forall k, j :: 0 <= k < |plan| && 0 <= j < |targets| ==>
              (targets[j] in plan[k].objects <==> j <= k)
  {
    var plan := PerObjectPlanAsWritten(targets, names, outDir, axes);
    forall k, j | 0 <= k < |plan| && 0 <= j < |targets|
      ensures targets[j] in plan[k].objects <==> j <= k
    {
      if j <= k {
        assert targets[..k + 1][j] == targets[j];
      } else {
        var prefix := targets[..k + 1];
        forall i | 0 <= i < |prefix| ensures prefix[i] != targets[j] {
          assert prefix[i] == targets[i];
        }
      }
    }
  }

  /** Two selected objects: as written, the second object's file also holds the first. */
  lemma SecondFileHoldsBothAsWritten(a: ObjectId, b: ObjectId, names: map<ObjectId, string>, outDir: string, axes: AxisPair)
    requires a != b && a in names && b in names
    ensures PerObjectPlanAsWritten([a, b], names, outDir, axes)[1].objects == {a, b}
    ensures PerObjectPlan([a, b], names, outDir, axes)[1].objects == {b}
  {
    assert [a, b][..2] == [a, b];
  }

  /**
   * After the rename, the k-th per-object file (from 0) is named after the
   * new name the rule gives the k-th target with index k + 1.
   */
  lemma PerObjectPathsUseNewNames(s: Settings, targets: seq<ObjectId>, names: map<ObjectId, string>, outDir: string)
    requires forall k :: 0 <= k < |targets| ==> targets[k] in names
    requires Distinct(targets) && s.perObject
    ensures var renamed := RenameAll(names, targets, s.prefix, s.addIndex, Underscore);
            var plan := Plan(s, targets, renamed, outDir);
            forall k :: 0 <= k < |plan| ==>
              plan[k].path == ObjectFilePath(outDir, NewName(names[targets[k]], s.prefix, s.addIndex, k + 1, Underscore))
  {
    RenameAllCovers(names, targets, s.prefix, s.addIndex, Underscore);
  }

  /** With the index on, two positions never get the same new name, whatever the prefix. */
  lemma IndexedNamesDiffer(a: string, b: string, prefix: string, i: nat, j: nat)
    requires i != j
    ensures NewName(a, prefix, true, i, Underscore) != NewName(b, prefix, true, j, Underscore)
  {
    var n := |Split(RStrip(prefix, Underscore), Underscore)|;
    NewNameTokens(a, prefix, true, i, Underscore);
    NewNameTokens(b, prefix, true, j, Underscore);
    var ta := Split(NewName(a, prefix, true, i, Underscore), Underscore);
    var tb := Split(NewName(b, prefix, true, j, Underscore), Underscore);
    assert ta[n] == IndexLabel(i) && tb[n] == IndexLabel(j);
  }

  /** With the index on, a new name starts with the stem and a separator, never with a slash. */
  lemma IndexedNameIsRelative(name: string, prefix: string, index: nat)
    requires !StartsWith(RStrip(prefix, Underscore), "/")
    ensures !StartsWith(NewName(name, prefix, true, index, Underscore) + ".fbx", "/")
  {
    var parts := NameParts(name, prefix, true, index, Underscore);
    assert |parts| >= 2 && parts[0] == RStrip(prefix, Underscore);
    StemLedIsRelative(parts[0], Join(parts[1..], Underscore));
  }

  lemma StemLedIsRelative(stem: string, rest: string)
    requires !StartsWith(stem, "/")
    ensures !StartsWith(stem + [Underscore] + rest + ".fbx", "/")
  {
    var n := stem + [Underscore] + rest + ".fbx";
    if stem == [] {
      assert n[0] == Underscore;
    } else {
      assert n[0] == stem[0];
      assert stem[..1] == [stem[0]];
    }
  }

  /** In one folder, a file path determines the relative file name it was made from. */
  lemma ObjectPathInjective(outDir: string, a: string, b: string)
    requires !StartsWith(a + ".fbx", "/") && !StartsWith(b + ".fbx", "/")
    ensures ObjectFilePath(outDir, a) == ObjectFilePath(outDir, b) ==> a == b
  {
    if ObjectFilePath(outDir, a) == ObjectFilePath(outDir, b) {
      PathJoinInjective(outDir, a + ".fbx", b + ".fbx");
      assert a == (a + ".fbx")[..|a|];
      assert b == (b + ".fbx")[..|b|];
    }
  }

  /**
   * With the index on, the files of two different positions have different
   * paths, whatever the prefix: a stem starting with `/` makes both names
   * absolute, so `os.path.join` keeps them as they are.
   */
  lemma IndexedPathsDiffer(outDir: string, a: string, b: string, prefix: string, i: nat, j: nat)
    requires i != j
    ensures ObjectFilePath(outDir, NewName(a, prefix, true, i, Underscore)) !=
            ObjectFilePath(outDir, NewName(b, prefix, true, j, Underscore))
  {
    var na, nb := NewName(a, prefix, true, i, Underscore), NewName(b, prefix, true, j, Underscore);
    if StartsWith(RStrip(prefix, Underscore), "/") {
      IndexedNamesDiffer(a, b, prefix, i, j);
      AbsoluteStemLeads(a, prefix, i, na);
      AbsoluteStemLeads(b, prefix, j, nb);
      ObjectFileInFolder(outDir, na);
      ObjectFileInFolder(outDir, nb);
      assert (na + ".fbx")[..|na|] == na && (nb + ".fbx")[..|nb|] == nb;
    } else {
      IndexedNamesApart(a, b, prefix, i, j, na, nb);
      ObjectPathInjective(outDir, na, nb);
    }
  }

  /** A stripped prefix that starts with `/` makes the new name, and its file name, absolute. */
  lemma AbsoluteStemLeads(name: string, prefix: string, index: nat, n: string)
    requires StartsWith(RStrip(prefix, Underscore), "/")
    requires n == NewName(name, prefix, true, index, Underscore)
    ensures StartsWith(n + ".fbx", "/")
  {
    var stem := RStrip(prefix, Underscore);
    NewNameStartsWithPrefix(name, prefix, true, index, Underscore);
    assert stem[0] == '/' by { assert stem[..1] == "/"; }
    assert n[..|stem|] == stem;
    assert n[0] == '/';
    assert (n + ".fbx")[..1] == "/";
  }

  lemma IndexedNamesApart(a: string, b: string, prefix: string, i: nat, j: nat, na: string, nb: string)
    requires !StartsWith(RStrip(prefix, Underscore), "/")
    requires i != j
    requires na == NewName(a, prefix, true, i, Underscore) && nb == NewName(b, prefix, true, j, Underscore)
    ensures na != nb && !StartsWith(na + ".fbx", "/") && !StartsWith(nb + ".fbx", "/")
  {
    IndexedNamesDiffer(a, b, prefix, i, j);
    IndexedNameIsRelative(a, prefix, i);
    IndexedNameIsRelative(b, prefix, j);
  }

  /** Files named after the indexed new names of the targets, one per position, all have different paths. */
  lemma IndexedFilesApart(outDir: string, prefix: string, targets: seq<ObjectId>, names: map<ObjectId, string>, plan: seq<ExportCall>)
    requires |plan| <= |targets|
    requires forall k :: 0 <= k < |targets| ==> targets[k] in names
    requires forall k :: 0 <= k < |plan| ==>
               plan[k].path == ObjectFilePath(outDir, NewName(names[targets[k]], prefix, true, k + 1, Underscore))
    ensures forall k, l :: 0 <= k < l < |plan| ==> plan[k].path != plan[l].path
  {
    forall k, l | 0 <= k < l < |plan|
      ensures plan[k].path != plan[l].path
    {
      IndexedPathsDiffer(outDir, names[targets[k]], names[targets[l]], prefix, k + 1, l + 1);
    }
  }

  /**
   * With per-object export and the index on, no two files of a run share a
   * path, so no file overwrites another.
   */
  lemma PerObjectPathsDistinct(s: Settings, targets: seq<ObjectId>, names: map<ObjectId, string>, outDir: string)
    requires forall k :: 0 <= k < |targets| ==> targets[k] in names
    requires Distinct(targets) && s.perObject && s.addIndex
    ensures var plan := Plan(s, targets, RenameAll(names, targets, s.prefix, s.addIndex, Underscore), outDir);
            forall k, l :: 0 <= k < l < |plan| ==> plan[k].path != plan[l].path
  {
    var renamed := RenameAll(names, targets, s.prefix, s.addIndex, Underscore);
    PerObjectPathsUseNewNames(s, targets, names, outDir);
    PlanMatchesFileCount(s, targets, renamed, outDir);
    IndexedFilesApart(outDir, s.prefix, targets, names, Plan(s, targets, renamed, outDir));
  }

  // ---------------------------------------------------------------------------
  // execute: the export loops
  // ---------------------------------------------------------------------------

  /** One pass of the corrected loop: select `obj` alone, then write its file. */
  method ExportObject(sel: SelectionGuard, obj: ObjectId, outDir: string, axisKey: string, raises: bool)
    returns (ok: bool)
    requires sel.Valid() && obj in sel.scene.names
    modifies sel.scene`selected, sel.scene`active, sel.scene`exports
    ensures sel.Valid()
    ensures ok == !raises
    ensures sel.scene.selected == {obj} && sel.scene.active == Some(obj)
    ensures sel.scene.exports == old(sel.scene.exports) +
              if ok then [ExportCall(ObjectFilePath(outDir, sel.scene.names[obj]), AxisPreset(axisKey), {obj})] else []
  {
    sel.scene.DeselectAll();
    sel.Set([obj]);
    assert sel.scene.selected == {obj};
    var outPath := ObjectFilePath(outDir, sel.scene.names[obj]);
    ok := ExportFbx(sel.scene, outPath, axisKey, raises);
  }

  /** One pass of the loop as written: `set([obj])` adds `obj` to what is already selected. */
  method ExportObjectAsWritten(sel: SelectionGuard, obj: ObjectId, outDir: string, axisKey: string, raises: bool)
    returns (ok: bool)
    requires sel.Valid() && obj in sel.scene.names
    modifies sel.scene`selected, sel.scene`active, sel.scene`exports
    ensures sel.Valid()
    ensures ok == !raises
    ensures sel.scene.selected == old(sel.scene.selected) + {obj}
    ensures sel.scene.active == Some(obj)
    ensures sel.scene.exports == old(sel.scene.exports) +
              if ok then [ExportCall(ObjectFilePath(outDir, sel.scene.names[obj]), AxisPreset(axisKey), sel.scene.selected)] else []
  {
    sel.Set([obj]);
    assert SetOf([obj]) == {obj};
    var outPath := ObjectFilePath(outDir, sel.scene.names[obj]);
    ok := ExportFbx(sel.scene, outPath, axisKey, raises);
  }

  /**
   * The per-object branch, corrected: the selection is cleared before each
   * `set([obj])`, so every file receives its own object only.
   */
  method ExportPerObject(scene: Scene, targets: seq<ObjectId>, outDir: string, axisKey: string, failAt: Option<nat>)
    returns (ok: bool, exported: nat)
    requires scene.Valid()
    requires forall k :: 0 <= k < |targets| ==> targets[k] in scene.names
    modifies scene`selected, scene`active, scene`exports
    ensures scene.Valid()
    ensures scene.selected == old(scene.selected) && scene.active == old(scene.active)
    ensures var plan := PerObjectPlan(targets, scene.names, outDir, AxisPreset(axisKey));
            && exported == ExportsDone(failAt, |plan|)
            && ok == (exported == |plan|)
            && scene.exports == old(scene.exports) + plan[..exported]
  {
    ghost var plan := PerObjectPlan(targets, scene.names, outDir, AxisPreset(axisKey));
    var sel := new SelectionGuard(scene);
    sel.Enter();
    exported, ok := 0, true;
    while exported < |targets| && ok
      invariant exported <= |targets| == |plan|
      invariant sel.Valid() && sel.scene == scene
      invariant scene.names == old(scene.names)
      invariant scene.exports == old(scene.exports) + plan[..exported]
      invariant ok ==> failAt.None? || failAt.value >= exported
      invariant !ok ==> failAt == Some(exported) && exported < |targets|
      decreases |targets| - exported, ok
    {
      ok := ExportObject(sel, targets[exported], outDir, axisKey, failAt == Some(exported));
      if ok {
        assert plan[exported] ==
          ExportCall(ObjectFilePath(outDir, scene.names[targets[exported]]), AxisPreset(axisKey), {targets[exported]});
        TakeOneMore(plan, exported);
        exported := exported + 1;
      }
    }
    sel.Exit();
  }

  /** The per-object branch as written: `set([obj])` adds to the selection left by the previous object. */
  method ExportPerObjectAsWritten(scene: Scene, targets: seq<ObjectId>, outDir: string, axisKey: string, failAt: Option<nat>)
    returns (ok: bool, exported: nat)
    requires scene.Valid()
    requires forall k :: 0 <= k < |targets| ==> targets[k] in scene.names
    modifies scene`selected, scene`active, scene`exports
    ensures scene.Valid()
    ensures scene.selected == old(scene.selected) && scene.active == old(scene.active)
    ensures var plan := PerObjectPlanAsWritten(targets, scene.names, outDir, AxisPreset(axisKey));
            && exported == ExportsDone(failAt, |plan|)
            && ok == (exported == |plan|)
            && scene.exports == old(scene.exports) + plan[..exported]
  {
    ghost var plan := PerObjectPlanAsWritten(targets, scene.names, outDir, AxisPreset(axisKey));
    var sel := new SelectionGuard(scene);
    sel.Enter();
    exported, ok := 0, true;
    while exported < |targets| && ok
      invariant exported <= |targets| == |plan|
      invariant sel.Valid() && sel.scene == scene
      invariant scene.names == old(scene.names)
      invariant scene.exports == old(scene.exports) + plan[..exported]
      invariant ok ==> scene.selected == SetOf(targets[..exported])
      invariant ok ==> failAt.None? || failAt.value >= exported
      invariant !ok ==> failAt == Some(exported) && exported < |targets|
      decreases |targets| - exported, ok
    {
      ok := ExportObjectAsWritten(sel, targets[exported], outDir, axisKey, failAt == Some(exported));
      SetOfPrefix(targets, exported);
      if ok {
        TakeOneMore(plan, exported);
        exported := exported + 1;
      }
    }
    sel.Exit();
  }

  /** The combined branch: select every target and write one file. */
  method ExportCombined(scene: Scene, targets: seq<ObjectId>, outDir: string, filename: string, axisKey: string, raises: bool)
    returns (ok: bool)
    requires scene.Valid()
    requires forall k :: 0 <= k < |targets| ==> targets[k] in scene.names
    modifies scene`selected, scene`active, scene`exports
    ensures scene.Valid()
    ensures scene.selected == old(scene.selected) && scene.active == old(scene.active)
    ensures ok == !raises
    ensures scene.exports ==
              if ok then old(scene.exports) + CombinedPlan(targets, outDir, filename, AxisPreset(axisKey))
              else old(scene.exports)
  {
    var sel := new SelectionGuard(scene);
    sel.Enter();
    sel.Set(targets);
    assert scene.selected == SetOf(targets);
    var outPath := CombinedFilePath(outDir, filename);
    ok := ExportFbx(scene, outPath, axisKey, raises);
    assert ok ==> scene.exports == old(scene.exports) + CombinedPlan(targets, outDir, filename, AxisPreset(axisKey));
    sel.Exit();
  }

  /**
   * The part of `execute` after the gate: rename the targets in order, then
   * export them; a `RuntimeError` from the exporter cancels after the files
   * already written.
   */
  method RenameAndExport(scene: Scene, s: Settings, targets: seq<ObjectId>, outDir: string, failAt: Option<nat>)
    returns (status: Status)
    requires scene.Valid()
    requires forall k :: 0 <= k < |targets| ==> targets[k] in scene.names
    modifies scene`names, scene`selected, scene`active, scene`exports
    ensures scene.Valid()
    ensures scene.selected == old(scene.selected) && scene.active == old(scene.active)
    ensures scene.names == RenameAll(old(scene.names), targets, s.prefix, s.addIndex, Underscore)
    ensures var plan := Plan(s, targets, scene.names, outDir);
            var done := ExportsDone(failAt, |plan|);
            && scene.exports == old(scene.exports) + plan[..done]
            && status == if done == |plan| then Finished(|targets|, |plan|) else Cancelled(ExportFailed)
  {
    var prefixed := AddPrefix(scene, targets, s.prefix, s.addIndex, Underscore);
    if s.perObject {
      var ok, exported := ExportPerObject(scene, targets, outDir, s.axisPreset, failAt);
      status := if ok then Finished(prefixed, exported) else Cancelled(ExportFailed);
    } else {
      var ok := ExportCombined(scene, targets, outDir, s.exportFilename, s.axisPreset, failAt == Some(0));
      assert CombinedPlan(targets, outDir, s.exportFilename, AxisPreset(s.axisPreset))[..1]
          == CombinedPlan(targets, outDir, s.exportFilename, AxisPreset(s.axisPreset));
      status := if ok then Finished(prefixed, 1) else Cancelled(ExportFailed);
    }
  }

  /** `RenameAndExport` as written: the per-object branch lets the files accumulate. */
  method RenameAndExportAsWritten(scene: Scene, s: Settings, targets: seq<ObjectId>, outDir: string, failAt: Option<nat>)
    returns (status: Status)
    requires scene.Valid()
    requires forall k :: 0 <= k < |targets| ==> targets[k] in scene.names
    modifies scene`names, scene`selected, scene`active, scene`exports
    ensures scene.Valid()
    ensures scene.selected == old(scene.selected) && scene.active == old(scene.active)
    ensures scene.names == RenameAll(old(scene.names), targets, s.prefix, s.addIndex, Underscore)
    ensures var plan := PlanAsWritten(s, targets, scene.names, outDir);
            var done := ExportsDone(failAt, |plan|);
            && scene.exports == old(scene.exports) + plan[..done]
            && status == if done == |plan| then Finished(|targets|, |plan|) else Cancelled(ExportFailed)
  {
    var prefixed := AddPrefix(scene, targets, s.prefix, s.addIndex, Underscore);
    if s.perObject {
      var ok, exported := ExportPerObjectAsWritten(scene, targets, outDir, s.axisPreset, failAt);
      status := if ok then Finished(prefixed, exported) else Cancelled(ExportFailed);
    } else {
      var ok := ExportCombined(scene, targets, outDir, s.exportFilename, s.axisPreset, failAt == Some(0));
      assert CombinedPlan(targets, outDir, s.exportFilename, AxisPreset(s.axisPreset))[..1]
          == CombinedPlan(targets, outDir, s.exportFilename, AxisPreset(s.axisPreset));
      status := if ok then Finished(prefixed, 1) else Cancelled(ExportFailed);
    }
  }

  // ---------------------------------------------------------------------------
  // The operator
  // ---------------------------------------------------------------------------

  class BatchRenameExportOperator {
    /** `_confirm_text`. */
    var confirmText: string

    constructor ()
      ensures confirmText == []
    {
      confirmText := [];
    }

    /** `invoke`: cancel on an empty selection, otherwise announce the file count. */
    method Invoke(scene: Scene, s: Settings) returns (status: InvokeStatus)
      requires scene.Valid()
      modifies this
      ensures var targets := GetSelection(scene.SelectedObjects(), scene.names);
              && (targets == [] ==> status == InvokeCancelled && confirmText == old(confirmText))
              && (targets != [] ==> status == DialogShown && confirmText == ConfirmText(FileCount(targets, s.perObject)))
    {
      var targets := GetSelection(scene.SelectedObjects(), scene.names);
      if targets == [] {
        return InvokeCancelled;
      }
      var count := FileCount(targets, s.perObject);
      confirmText := ConfirmText(count);
      status := DialogShown;
    }

    /**
     * `execute`, corrected: the gate (with check 3 on the folder the export
     * uses), then the rename of the ordered selection, then the exports, with
     * the selection cleared before each per-object file. `resolve` stands for `bpy.path.abspath`; `failAt` is the export
     * call (from 0) at which the host raises `RuntimeError`, if any.
     */
    method Execute(scene: Scene, s: Settings, host: HostState, resolve: string -> string, failAt: Option<nat>)
      returns (status: Status)
      requires scene.Valid()
      modifies scene
      ensures scene.Valid() && scene.objects == old(scene.objects)
      ensures var targets := GetSelection(old(scene.SelectedObjects()), old(scene.names));
              Gate(s, host, targets).Some? ==>
                && status == Cancelled(Gate(s, host, targets).value)
                && scene.names == old(scene.names) && scene.exports == old(scene.exports)
                && scene.selected == old(scene.selected) && scene.active == old(scene.active)
      ensures var targets := GetSelection(old(scene.SelectedObjects()), old(scene.names));
              var renamed := RenameAll(old(scene.names), targets, s.prefix, s.addIndex, Underscore);
              var plan := Plan(s, targets, renamed, resolve(ExportDir(s.exportPath)));
              var done := ExportsDone(failAt, |plan|);
              Gate(s, host, targets).None? ==>
                && scene.names == renamed
                && scene.selected == old(scene.selected) && scene.active == old(scene.active)
                && scene.exports == old(scene.exports) + plan[..done]
                && status == if done == |plan| then Finished(|targets|, |plan|) else Cancelled(ExportFailed)
    {
      ghost var selection := GetSelection(scene.SelectedObjects(), scene.names);
      // 1
      if !host.objectModeOk {
        assert Gate(s, host, selection) == Some(ObjectModeUnavailable);
        return Cancelled(ObjectModeUnavailable);
      }
      // 2
      if !host.fbxExporterAvailable {
        assert Gate(s, host, selection) == Some(FbxExporterMissing);
        return Cancelled(FbxExporterMissing);
      }
      // 3
      var dir := ExportDir(s.exportPath);
      if StartsWith(dir, "//") && host.blendFilePath == [] {
        assert Gate(s, host, selection) == Some(UnsavedRelativePath);
        return Cancelled(UnsavedRelativePath);
      }
      var outDir := resolve(dir);
      var targets := GetSelection(scene.SelectedObjects(), scene.names);
      // 4
      if targets == [] {
        assert Gate(s, host, selection) == Some(NothingSelected);
        return Cancelled(NothingSelected);
      }
      assert Gate(s, host, selection) == None;
      status := RenameAndExport(scene, s, targets, outDir, failAt);
    }

    /**
     * `execute` as written: check 3 looks at `ta_export_path` itself, while
     * the folder used is `export_path or "//"`, and the per-object loop never
     * clears the selection between objects.
     */
    method ExecuteAsWritten(scene: Scene, s: Settings, host: HostState, resolve: string -> string, failAt: Option<nat>)
      returns (status: Status)
      requires scene.Valid()
      modifies scene
      ensures scene.Valid() && scene.objects == old(scene.objects)
      ensures var targets := GetSelection(old(scene.SelectedObjects()), old(scene.names));
              GateAsWritten(s, host, targets).Some? ==>
                && status == Cancelled(GateAsWritten(s, host, targets).value)
                && scene.names == old(scene.names) && scene.exports == old(scene.exports)
                && scene.selected == old(scene.selected) && scene.active == old(scene.active)
      ensures var targets := GetSelection(old(scene.SelectedObjects()), old(scene.names));
              var renamed := RenameAll(old(scene.names), targets, s.prefix, s.addIndex, Underscore);
              var plan := PlanAsWritten(s, targets, renamed, resolve(ExportDir(s.exportPath)));
              var done := ExportsDone(failAt, |plan|);
              GateAsWritten(s, host, targets).None? ==>
                && scene.names == renamed
                && scene.selected == old(scene.selected) && scene.active == old(scene.active)
                && scene.exports == old(scene.exports) + plan[..done]
                && status == if done == |plan| then Finished(|targets|, |plan|) else Cancelled(ExportFailed)
    {
      ghost var selection := GetSelection(scene.SelectedObjects(), scene.names);
      // 1
      if !host.objectModeOk {
        assert GateAsWritten(s, host, selection) == Some(ObjectModeUnavailable);
        return Cancelled(ObjectModeUnavailable);
      }
      // 2
      if !host.fbxExporterAvailable {
        assert GateAsWritten(s, host, selection) == Some(FbxExporterMissing);
        return Cancelled(FbxExporterMissing);
      }
      // 3
      if StartsWith(s.exportPath, "//") && host.blendFilePath == [] {
        assert GateAsWritten(s, host, selection) == Some(UnsavedRelativePath);
        return Cancelled(UnsavedRelativePath);
      }
      var outDir := resolve(ExportDir(s.exportPath));
      var targets := GetSelection(scene.SelectedObjects(), scene.names);
      // 4
      if targets == [] {
        assert GateAsWritten(s, host, selection) == Some(NothingSelected);
        return Cancelled(NothingSelected);
      }
      assert GateAsWritten(s, host, selection) == None;
      status := RenameAndExportAsWritten(scene, s, targets, outDir, failAt);
    }
  }
}
