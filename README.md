# Batch rename and FBX export: a verified model

This project models the core of the Blender add-on `batch_rename_export_fbx.py`. The add-on renames the selected objects and then exports them as FBX files.

The add-on works in these steps:

- It orders the selection by a cleaned base name (`get_selection`).
- It renames each object as the prefix, an optional three-digit index and what survives of the old name (`add_prefix`).
- It writes either one FBX file per object, named after the object's new name, or one combined file. Either way the export runs inside a `SelectionGuard`, which puts the user's selection and active object back afterwards.
- Before any of this, `invoke` shows a confirmation dialog that announces how many files will be written.
- `execute` first runs four cancellation checks, in a fixed order.

The model is organised as follows:

- **Pure parts** are datatypes, functions and lemmas:
  - the string primitives (`Text`);
  - the rename rule (`Naming`);
  - the stable sort (`Ordering`);
  - the axis presets (`Presets`);
  - the dialog text, the gate and the export plans (`BatchExport`).
- **Imperative parts** are methods over classes:
  - the scene, with its names, selection, active object and a log of the exporter's calls, is the class `SceneModel.Scene`;
  - `SelectionGuard` is a class whose methods change the scene's selection;
  - `add_prefix`, the guard's loops and the export loops are `while` loops proved against the functions of the pure part;
  - the operator is a class with the `_confirm_text` field, plus the `Invoke` method and `execute` twice: `ExecuteAsWritten` as the code is, and `Execute` with the two findings below corrected.

The host application does not appear in the model. Its answers are parameters:

- whether object mode could be reached;
- whether the FBX exporter is installed;
- the path of the .blend file;
- `bpy.path.abspath`, passed as a function;
- which export call, if any, raises `RuntimeError`.

All paths below are in `batch_rename_export_fbx.py`.

## Model

| member | source | states |
|---|---|---|
| Text.Split | batch_rename_export_fbx.py:103 | `str.split` with a one-character separator always gives at least one token |
| Text.Join | batch_rename_export_fbx.py:113 | `sep.join(tokens)` (also at line 122): the tokens with one separator between neighbours; stated both ways by `JoinSplit` and `SplitJoin` |
| Text.SplitTokensNoSep | batch_rename_export_fbx.py:103 | no token of a split contains the separator |
| Text.JoinSplit | batch_rename_export_fbx.py:113 | joining the tokens of a split with the same separator gives back the original string |
| Text.SplitJoin | batch_rename_export_fbx.py:122 | splitting a join of separator-free tokens (at least one) gives back those tokens |
| Text.RStrip | batch_rename_export_fbx.py:99 | `rstrip(sep)` gives a prefix of the string that does not end in `sep`, and only `sep` characters were removed |
| Text.StartsWith | batch_rename_export_fbx.py:223 | `str.startswith(p)`: the string is at least as long as `p` and its first `|p|` characters are `p` |
| Text.Decimal | batch_rename_export_fbx.py:117 | the numeral is all digits, has no leading zero unless it is "0", and denotes the number |
| Text.ZeroPadded | batch_rename_export_fbx.py:117 | `f"{i:03d}"` is all digits, has length max(3, digits of i) and denotes i |
| Text.LessTransitive | batch_rename_export_fbx.py:68 | code-point string order, used by `sorted`, is transitive |
| Text.LessTotal | batch_rename_export_fbx.py:68 | any two different strings are ordered one way or the other |
| Text.LessAsymmetric | batch_rename_export_fbx.py:68 | no two strings are each below the other |
| Text.PathJoin | batch_rename_export_fbx.py:248 | `os.path.join(dir, name)` returns an absolute name unchanged; otherwise it is dir, a slash only when dir is non-empty and does not end in one, then name |
| Text.PathJoinInjective | batch_rename_export_fbx.py:248 | under one folder, two relative file names that give the same path are equal |
| Naming.StripTokens | batch_rename_export_fbx.py:105-111 | at most one leading all-caps token, then at most one leading all-digit token, is dropped; the rest keep their order, and each case of what was dropped is characterised both ways |
| Naming.IndexLabel | batch_rename_export_fbx.py:116-117 | the index label is all digits, denotes the 1-based position, and has exactly three digits below 1000 |
| Naming.CleanKey | batch_rename_export_fbx.py:58-66 | the sort key is empty exactly when the name is empty (the fallback to the full name) |
| Naming.BaseName | batch_rename_export_fbx.py:103-113 | the part of the old name that survives: the tokens left by `StripTokens`, joined again; stated through `BaseNameTokens` and `NewNameTokens` |
| Naming.NewName | batch_rename_export_fbx.py:113-122 | the rename rule itself (`sep.join(parts)`); what a new name is made of is stated by `NewNameTokens`, `NewNameStartsWithPrefix`, `RenameTwice` and `MultiTokenPrefixStacks` |
| Naming.NameParts | batch_rename_export_fbx.py:114-120 | the `parts` list: the stripped prefix, the index label when asked for, and the base name when one remains; read back through `NewNameTokens` |
| Naming.BaseNameTokens | batch_rename_export_fbx.py:113 | a non-empty base name splits back into exactly the tokens that survived stripping |
| Naming.NewNameTokens | batch_rename_export_fbx.py:113-122 | for any prefix, a new name read back token by token is the tokens of the stripped prefix, then the index if asked for, then the surviving tokens of the old name if any |
| Naming.NewNameStartsWithPrefix | batch_rename_export_fbx.py:99-122 | every new name begins with `prefix.rstrip(sep)` |
| Naming.RenameKeepsBase | batch_rename_export_fbx.py:103-122 | with a single-token all-caps prefix (no inner separator) and the index on, renaming leaves the base name unchanged |
| Naming.RenameTwice | batch_rename_export_fbx.py:103-122 | with a single-token all-caps prefix (no inner separator) and the index on, renaming an already renamed object equals renaming the original once |
| Naming.DefaultRenameIsStable | batch_rename_export_fbx.py:99-122 | with the default `SM_` prefix and index, a re-run replaces the old `SM_nnn_` instead of stacking another |
| Naming.SingleCapsTokenLosesBase | batch_rename_export_fbx.py:106-120 | a name that is a single all-caps token has no base name, so its new name is the prefix and index alone |
| Naming.RenameKeepsCleanKey | batch_rename_export_fbx.py:58-66 | a rename with a single-token all-caps prefix (no inner separator) and the index keeps an object's sort key when a base name remains |
| Naming.MultiTokenPrefixStacks | batch_rename_export_fbx.py:103-122 | with a prefix whose first token is all caps and whose second is not all digits (such as `SM_PROP_`), a re-run strips only the first token: the rest of the old prefix and the old index stay in the base name, so prefixes stack (`SM_PROP_001_Cube` becomes `SM_PROP_001_PROP_001_Cube`) |
| Naming.RenameAll | batch_rename_export_fbx.py:102-123 | renaming in order keeps the set of objects with names |
| Naming.RenameAllCovers | batch_rename_export_fbx.py:102-123 | every listed object gets the rule's name for its old name and 1-based position, and every other object keeps its name |
| Text.IsUpper | batch_rename_export_fbx.py:106 | ASCII `str.isupper`: at least one upper-case letter and no lower-case one; `ClassesOfEmptyAndDigits` shows it fails on "" and on digit strings |
| Text.IsDigits | batch_rename_export_fbx.py:110 | ASCII `str.isdigit`: non-empty and all decimal digits |
| Text.Less | batch_rename_export_fbx.py:68 | Python's `<` on strings: code-point lexicographic order; a strict total order by `LessIrreflexive`, `LessTransitive`, `LessTotal` and `LessAsymmetric` |
| Ordering.SortBy | batch_rename_export_fbx.py:68 | `sorted(sel, key=_key)` as an insertion sort; its meaning is stated by `SortByPermutes`, `SortBySorts`, `SortByStable` and `SortByDistinct` |
| Ordering.SortByPermutes | batch_rename_export_fbx.py:68 | `sorted` returns a permutation of its input |
| Ordering.SortBySorts | batch_rename_export_fbx.py:68 | the keys of the result never decrease |
| Ordering.SortByStable | batch_rename_export_fbx.py:68 | for every key, the elements with that key keep their relative order (stability) |
| Ordering.SortByDistinct | batch_rename_export_fbx.py:68 | sorting a list without repeats gives a list without repeats |
| Utilities.GetSelection | batch_rename_export_fbx.py:54-68 | the ordered selection is a permutation of the selected objects, non-decreasing by cleaned key, stable for equal keys, without repeats |
| Utilities.ExportDir | batch_rename_export_fbx.py:47 | an empty export path means `//`; any other path is used as given |
| Utilities.AddPrefix | batch_rename_export_fbx.py:98-125 | the loop returns the number of objects and leaves the scene's names equal to renaming them in order |
| Utilities.RenamedTo | batch_rename_export_fbx.py:103-122 | the loop body computes the new name of the rename rule for one object |
| Utilities.ExportFbx | batch_rename_export_fbx.py:128-138 | one export call records the path, the looked-up axis pair and the current selection, or nothing when the host raises |
| Presets.AxisPreset | batch_rename_export_fbx.py:129 | the lookup always yields a pair from the table, and an unknown key yields the BLENDER pair (-Y forward, Z up) |
| Presets.AxisPresetKnownKeys | batch_rename_export_fbx.py:28-33 | each of the four keys maps to its listed forward/up pair |
| Presets.AxisPresetIsOrientation | batch_rename_export_fbx.py:28-33 | every lookup gives two valid axis names on different axes |
| Presets.AxisItemsMatchPresets | batch_rename_export_fbx.py:35-40 | every key the panel offers is in the preset table, and each description names that preset's up and forward axes |
| SceneModel.Scene.SelectedObjects | batch_rename_export_fbx.py:55 | `selected_objects` lists each selected object once, and only objects with names |
| SceneModel.Scene.SelectSet | batch_rename_export_fbx.py:155 | `o.select_set(True)` (also at line 164) adds exactly `o` to the selection and changes nothing else |
| SceneModel.Scene.DeselectAll | batch_rename_export_fbx.py:149 | `select_all(action='DESELECT')` (also at line 161) leaves the selection empty and changes nothing else |
| SceneModel.Scene.SetActive | batch_rename_export_fbx.py:158 | assigning `view_layer.objects.active` (also at line 166) makes exactly that object active and changes nothing else |
| SceneModel.Scene.ExportSelection | batch_rename_export_fbx.py:131-138 | the exporter call with `use_selection=True`: on success one file at the path with the axes and exactly the current selection is added to the log; when it raises, nothing is written |
| Guard.SelectionGuard.constructor | batch_rename_export_fbx.py:143-146 | the guard captures the selection and the active object |
| Guard.SelectionGuard.Enter | batch_rename_export_fbx.py:148-151 | entering deselects everything |
| Guard.SelectionGuard.Set | batch_rename_export_fbx.py:153-158 | `set` adds the objects to the selection and, when there are any, makes the first active |
| Guard.SelectionGuard.Exit | batch_rename_export_fbx.py:160-166 | exiting restores exactly the captured selection and active object |
| Guard.Guarded | batch_rename_export_fbx.py:141-166 | whatever is selected between entry and exit, the selection and active object afterwards are those from before |
| BatchExport.DefaultSettingsMeaning | batch_rename_export_fbx.py:321-357 | the registered defaults (`SM_`, index on, per object, `//`, `Export.fbx`, `UNITY`, held in the constant `DefaultSettings`) announce one file per selected object, export with the Unity axes into `//`, and cancel at check 3 in a file never saved |
| BatchExport.FileCount | batch_rename_export_fbx.py:187 | a non-empty selection announces at least one file, and exactly one iff per-object export is off or only one object is selected |
| BatchExport.PluralSuffix | batch_rename_export_fbx.py:189 | the suffix is empty exactly when the count is 1, otherwise "s" |
| BatchExport.CountLine | batch_rename_export_fbx.py:191 | the first line of `_confirm_text`, "This will generate n FBX file(s)."; `CountLineIsOneLine` shows it holds no line break |
| BatchExport.ConfirmText | batch_rename_export_fbx.py:191 | `_confirm_text`: the count line, a line break and "Proceed?"; `ConfirmTextLines` reads the two lines back |
| BatchExport.ConfirmTextLines | batch_rename_export_fbx.py:191-200 | the dialog text splits into exactly two labels: the count line and "Proceed?" |
| BatchExport.BatchRenameExportOperator.Invoke | batch_rename_export_fbx.py:177-193 | an empty selection cancels and leaves the text alone; otherwise the dialog is shown with the text for the announced file count |
| BatchExport.Gate | batch_rename_export_fbx.py:209-237 | each cancellation reason holds iff its check fails and every earlier one passes; an export failure is never a gate reason |
| BatchExport.RelativeInUnsavedFile | batch_rename_export_fbx.py:223 | check 3's condition: the folder starts with `//` and the .blend file was never saved; `Gate` and `GateAsWritten` cancel for this reason exactly when it holds and checks 1 and 2 pass |
| BatchExport.GateProceeds | batch_rename_export_fbx.py:209-237 | the gate lets execution through iff all four checks pass |
| BatchExport.GateAsWritten | batch_rename_export_fbx.py:209-237 | the checks as written: each reason holds iff its check fails and every earlier one passes, with check 3 on the raw export path |
| BatchExport.EmptyPathSlipsThroughAsWritten | batch_rename_export_fbx.py:223-229 | as written, an empty export path in an unsaved file passes check 3 although the export folder is `//` |
| BatchExport.GatesAgreeOnNonEmptyPath | batch_rename_export_fbx.py:223 | the written check and the corrected one differ only for an empty export path |
| BatchExport.ObjectFilePath | batch_rename_export_fbx.py:248 | `os.path.join(out_dir, f"{obj.name}.fbx")`; stated by `ObjectFileInFolder` and `ObjectPathInjective` |
| BatchExport.ObjectFileInFolder | batch_rename_export_fbx.py:248 | a relative object name gives a path inside `out_dir` ending in the name and `.fbx`; an absolute name is taken as it is |
| BatchExport.CombinedFilePath | batch_rename_export_fbx.py:258 | `os.path.join(out_dir, ta_export_filename or "Export.fbx")`; stated by `CombinedFileInFolder` |
| BatchExport.CombinedFileInFolder | batch_rename_export_fbx.py:258 | an empty filename gives `Export.fbx` inside `out_dir`; a relative filename lands inside `out_dir` under its own name |
| BatchExport.PerObjectPlan | batch_rename_export_fbx.py:246-250 | the files of the corrected per-object run: file k is named after target k and holds it; stated by `PerObjectFilesHoldOneObject` and `PerObjectPathsUseNewNames` |
| BatchExport.PerObjectPlanAsWritten | batch_rename_export_fbx.py:246-250 | the files of the per-object run as written: file k holds targets 0..k; stated by `PerObjectFilesAccumulateAsWritten` |
| BatchExport.CombinedPlan | batch_rename_export_fbx.py:256-259 | the one file of a combined run, holding every target |
| BatchExport.Plan | batch_rename_export_fbx.py:242-259 | the files a successful corrected run writes: per object or combined; `PlanMatchesFileCount` ties its length to the dialog |
| BatchExport.PlanAsWritten | batch_rename_export_fbx.py:242-259 | the files a successful run as written writes |
| BatchExport.PlansAgreeOnOneFileOrObject | batch_rename_export_fbx.py:242-259 | the written and corrected plans coincide for a combined export and for a single object; they differ only per object with two or more objects |
| BatchExport.ExportsDone | batch_rename_export_fbx.py:241-266 | a `RuntimeError` at export call n stops the run after n files, and otherwise every planned file is written |
| BatchExport.PlanMatchesFileCount | batch_rename_export_fbx.py:187 | the dialog announces exactly as many files as a successful run writes |
| BatchExport.PerObjectFilesHoldOneObject | batch_rename_export_fbx.py:242-250 | corrected per-object export: target j is in file k iff j = k |
| BatchExport.PerObjectFilesAccumulateAsWritten | batch_rename_export_fbx.py:245-250 | per-object export as written: target j is in file k iff j <= k |
| BatchExport.SecondFileHoldsBothAsWritten | batch_rename_export_fbx.py:246-249 | with two objects selected, the second file holds both as written and only the second when corrected |
| BatchExport.PerObjectPathsUseNewNames | batch_rename_export_fbx.py:248 | the k-th per-object file is `out_dir/<new name of the k-th target with index k + 1>.fbx` |
| BatchExport.IndexedNamesDiffer | batch_rename_export_fbx.py:114-122 | with the index on, whatever the prefix, two positions never receive the same new name |
| BatchExport.ObjectPathInjective | batch_rename_export_fbx.py:248 | in one folder, a per-object path determines the relative name it was built from |
| BatchExport.IndexedPathsDiffer | batch_rename_export_fbx.py:248 | with the index on, whatever the prefix (also one starting with `/`, which makes the names absolute), files of two different positions never share a path |
| BatchExport.PerObjectPathsDistinct | batch_rename_export_fbx.py:242-250 | with per-object export and the index on, no two files of a run's plan share a path, so no per-object file overwrites another |
| BatchExport.ExportObject | batch_rename_export_fbx.py:246-250 | one corrected pass leaves exactly the object selected and active, and writes its file with only that object |
| BatchExport.ExportObjectAsWritten | batch_rename_export_fbx.py:246-250 | one pass as written adds the object to the selection, makes it active, and writes its file with everything selected |
| BatchExport.ExportPerObject | batch_rename_export_fbx.py:242-252 | the corrected loop writes the per-object plan up to the first failure, then restores the selection and active object |
| BatchExport.ExportPerObjectAsWritten | batch_rename_export_fbx.py:242-252 | the loop as written writes the accumulating plan up to the first failure, then restores the selection and active object |
| BatchExport.ExportCombined | batch_rename_export_fbx.py:255-261 | the combined branch writes one file, `<filename or Export.fbx>`, holding every target, then restores the selection |
| BatchExport.RenameAndExport | batch_rename_export_fbx.py:239-268 | corrected: after the gate, the names are the renamed ones, the exports are the plan up to the failure, and the status reports the counts or the failure |
| BatchExport.RenameAndExportAsWritten | batch_rename_export_fbx.py:239-268 | as written: after the gate, the names are the renamed ones, the exports are the accumulating plan up to the failure, and the status reports the counts or the failure |
| BatchExport.BatchRenameExportOperator.ExecuteAsWritten | batch_rename_export_fbx.py:202-268 | `execute` as written: a reason of the written gate (check 3 on the raw path) cancels with nothing changed; otherwise the run renames the ordered selection, writes the accumulating plan into the resolved `export_path or "//"`, restores the selection and reports the outcome |
| BatchExport.BatchRenameExportOperator.Execute | batch_rename_export_fbx.py:202-268 | corrected `execute`: a reason of the corrected gate cancels with nothing changed; otherwise the run renames the ordered selection, writes the plan into the resolved folder, restores the selection and reports the outcome |

## Left out

- Host operators (`bpy.ops`): `select_all`, `select_set`, the active-object assignment and `export_scene.fbx` are modelled only through what the add-on relies on. The exporter call is a record in `Scene.exports`.
- `ensure_object_mode` internals: mode switching is host state. The outcome is the input `HostState.objectModeOk`.
- Exporter availability: the `hasattr` check is the input `HostState.fbxExporterAvailable`.
- `get_export_dir` I/O: `bpy.path.abspath` is the parameter `resolve`, because it depends on the host. `os.makedirs` is filesystem I/O and is not modelled.
- `save_mainfile('INVOKE_DEFAULT')` on check 3 opens a host dialog and is not modelled.
- Report messages and their text, including the message that shows `out_dir`, are not modelled. `Status.Finished` carries only the two counts, and the combined branch reports 1.
- `invoke_props_dialog`, the dialog width, the panel (`TA_PT_BatchRenameExportPanel`), `register` and `unregister` are UI glue. Only the registered defaults appear, as `BatchExport.DefaultSettings`.
- Blender's unique-name rule is not modelled: the host adds `.001` when an assigned name is already taken. Names are assigned exactly as computed.
- The rename separator is a single character. The add-on only ever uses `_`.
- `str.isupper` and `str.isdigit` cover ASCII only. Other Unicode cased characters and digits are not modelled.
- `os.path.join` follows POSIX rules for two components. Windows drive letters and backslashes are not modelled.
- The exporter's constant options (`apply_unit_scale`, `bake_space_transform`, `apply_scale_options`) are not recorded in `ExportCall`.
- Exceptions other than `RuntimeError` are not modelled, and neither is a failure in any host call other than the exporter.

## Findings

| source | as written | input that shows it | evidently intended | confidence | as-written member | corrected member |
|---|---|---|---|---|---|---|
| batch_rename_export_fbx.py:245-250 | the per-object loop calls `sel.set([obj])`, which only adds to the selection, and never deselects between objects; with `use_selection=True` the k-th file therefore receives the first k + 1 targets | two selected objects a, b with per-object export on: the file of b holds {a, b} | "one FBX per selected object": each file holds only its own object (deselect before each `set`) | high; not executed | BatchExport.SecondFileHoldsBothAsWritten | BatchExport.PerObjectFilesHoldOneObject |
| batch_rename_export_fbx.py:223 | check 3 tests `ta_export_path.startswith("//")`, but the folder actually used is `export_path or "//"` (line 47) | export path "" in a .blend file never saved: check 3 passes and `get_export_dir` goes on to resolve `//` for a file that has no folder | the check applies to the folder the export will use, so an empty path in an unsaved file is cancelled like `//` | medium; not executed | BatchExport.EmptyPathSlipsThroughAsWritten | BatchExport.Gate |

The model's `Execute` uses the corrected loop (`ExportPerObject`) and the corrected gate (`Gate`).

The code as written is kept beside them, composed into `ExecuteAsWritten` and `RenameAndExportAsWritten`:

- `ExportPerObjectAsWritten`, specified by `PerObjectPlanAsWritten`, with the lemma `PerObjectFilesAccumulateAsWritten`;
- `GateAsWritten`, with `GatesAgreeOnNonEmptyPath`;
- `PlansAgreeOnOneFileOrObject` says where the two runs coincide.
