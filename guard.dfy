/**
 * `SelectionGuard`: a context manager that remembers the selection and the
 * active object, clears the selection on entry, lets the caller select
 * objects, and on exit puts back exactly what it remembered.
 */
module Guard {
  import opened Common
  import opened SceneModel

  class SelectionGuard {
    const scene: Scene
    /** `prev_active`. */
    const prevActive: Option<ObjectId>
    /** `prev_sel`: the selected objects when the guard was made. */
    const prevSel: seq<ObjectId>

    /** The scene is consistent and still holds every object the guard remembers. */
    ghost predicate Valid()
      reads this, scene
    {
      && scene.Valid()
      && (forall k :: 0 <= k < |prevSel| ==> prevSel[k] in scene.names)
      && (prevActive.Some? ==> prevActive.value in scene.names)
    }

    /** `__init__`: capture the selection and the active object. */
    constructor (scene: Scene)
      requires scene.Valid()
      ensures Valid()
      ensures this.scene == scene && prevActive == scene.active
      ensures prevSel == scene.SelectedObjects() && SetOf(prevSel) == scene.selected
    {
      this.scene := scene;
      prevActive := scene.active;
      prevSel := scene.SelectedObjects();
    }

    /** `__enter__`: deselect everything. */
    method Enter()
      requires Valid()
      modifies scene`selected
      ensures Valid()
      ensures scene.selected == {}
    {
      scene.DeselectAll();
    }

    /** `set`: select `objs` (adding to the selection) and make the first one active. */
    method Set(objs: seq<ObjectId>)
      requires Valid()
      requires forall k :: 0 <= k < |objs| ==> objs[k] in scene.names
      modifies scene`selected, scene`active
      ensures Valid()
      ensures scene.selected == old(scene.selected) + SetOf(objs)
      ensures scene.active == if objs != [] then Some(objs[0]) else old(scene.active)
    {
      var k := 0;
      while k < |objs|
        invariant k <= |objs|
        invariant Valid()
        invariant scene.active == old(scene.active)
        invariant scene.selected == old(scene.selected) + SetOf(objs[..k])
      {
        scene.SelectSet(objs[k]);
        assert SetOf(objs[..k + 1]) == SetOf(objs[..k]) + {objs[k]} by {
          assert objs[..k + 1] == objs[..k] + [objs[k]];
        }
        k := k + 1;
      }
      assert objs[..k] == objs;
      if objs != [] {
        scene.SetActive(Some(objs[0]));
      }
    }

    /** `__exit__`: deselect everything, reselect what was captured, restore the active object. */
    method Exit()
      requires Valid()
      modifies scene`selected, scene`active
      ensures Valid()
      ensures scene.selected == SetOf(prevSel)
      ensures scene.active == prevActive
    {
      scene.DeselectAll();
      var k := 0;
      while k < |prevSel|
        invariant k <= |prevSel|
        invariant Valid()
        invariant scene.selected == SetOf(prevSel[..k])
      {
        scene.SelectSet(prevSel[k]);
        assert prevSel[..k + 1] == prevSel[..k] + [prevSel[k]];
        k := k + 1;
      }
      assert prevSel[..k] == prevSel;
      scene.SetActive(prevActive);
    }
  }

  /**
   * Whatever is selected between entry and exit, leaving the guard gives back
   * the selection and the active object it found.
   */
  method Guarded(scene: Scene, objs: seq<ObjectId>)
    requires scene.Valid()
    requires forall k :: 0 <= k < |objs| ==> objs[k] in scene.names
    modifies scene`selected, scene`active
    ensures scene.Valid()
    ensures scene.selected == old(scene.selected) && scene.active == old(scene.active)
  {
    var guard := new SelectionGuard(scene);
    guard.Enter();
    guard.Set(objs);
    guard.Exit();
  }
}
