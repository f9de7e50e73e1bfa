/**
 * The part of the host application the add-on touches: the objects of the
 * view layer with their names, which of them are selected, the active object,
 * and the FBX files the exporter has been asked to write. The host's own
 * operators (`select_set`, `select_all(action='DESELECT')`, assigning
 * `view_layer.objects.active`, `export_scene.fbx`) are methods here whose
 * contracts say only what the add-on relies on.
 */
module SceneModel {
  import opened Common
  import opened Presets

  type ObjectId = nat

  /**
   * One call of the FBX exporter with `use_selection=True`: the file path,
   * the axis pair, and the objects selected at the time of the call, which
   * are the objects the file receives.
   */
  datatype ExportCall = ExportCall(path: string, axes: AxisPair, objects: set<ObjectId>)

  /** `context.selected_objects`: the selected objects, in view-layer order. */
  function SelectedIn(order: seq<ObjectId>, selected: set<ObjectId>): (r: seq<ObjectId>)
    ensures forall o :: o in r <==> o in order && o in selected
    ensures Distinct(order) ==> Distinct(r)
  {
    if order == [] then []
    else
      var rest := SelectedIn(order[1..], selected);
      assert Distinct(order) ==> order[0] !in order[1..];
      if order[0] in selected then [order[0]] + rest else rest
  }

  class Scene {
    /** The view layer's objects, each listed once, in the host's order. */
    var objects: seq<ObjectId>
    /** `obj.name` of every object. */
    var names: map<ObjectId, string>
    var selected: set<ObjectId>
    /** `view_layer.objects.active`, or none. */
    var active: Option<ObjectId>
    /** Every export the FBX exporter has carried out, oldest first. */
    var exports: seq<ExportCall>

    ghost predicate Valid()
      reads this
    {
      && Distinct(objects)
      && (forall o :: o in names <==> o in objects)
      && selected <= names.Keys
      && (active.Some? ==> active.value in names)
    }

    constructor (objects: seq<ObjectId>, names: map<ObjectId, string>, selected: set<ObjectId>, active: Option<ObjectId>)
      requires Distinct(objects) && (forall o :: o in names <==> o in objects)
      requires selected <= names.Keys && (active.Some? ==> active.value in names)
      ensures Valid()
      ensures this.objects == objects && this.names == names && this.selected == selected
      ensures this.active == active && this.exports == []
    {
      this.objects := objects;
      this.names := names;
      this.selected := selected;
      this.active := active;
      this.exports := [];
    }

    /** `context.selected_objects`. */
    function SelectedObjects(): (r: seq<ObjectId>)
      reads this
      requires Valid()
      ensures Distinct(r) && SetOf(r) == selected
      ensures forall k :: 0 <= k < |r| ==> r[k] in names
    {
      SelectedIn(objects, selected)
    }

    /** `o.select_set(True)`. */
    method SelectSet(o: ObjectId)
      requires Valid() && o in names
      modifies this`selected
      ensures Valid()
      ensures selected == old(selected) + {o}
    {
      selected := selected + {o};
    }

    /** `bpy.ops.object.select_all(action='DESELECT')`. */
    method DeselectAll()
      requires Valid()
      modifies this`selected
      ensures Valid()
      ensures selected == {}
    {
      selected := {};
    }

    /** `view_layer.objects.active = o`. */
    method SetActive(o: Option<ObjectId>)
      requires Valid() && (o.Some? ==> o.value in names)
      modifies this`active
      ensures Valid()
      ensures active == o
    {
      active := o;
    }

    /**
     * `bpy.ops.export_scene.fbx(filepath=path, use_selection=True, ...)`. The
     * host either writes the file with the current selection or raises a
     * `RuntimeError`; `raises` says which.
     */
    method ExportSelection(path: string, axes: AxisPair, raises: bool) returns (ok: bool)
      requires Valid()
      modifies this`exports
      ensures Valid()
      ensures ok == !raises
      ensures exports == if ok then old(exports) + [ExportCall(path, axes, selected)] else old(exports)
    {
      ok := !raises;
      if ok {
        exports := exports + [ExportCall(path, axes, selected)];
      }
    }
  }
}
