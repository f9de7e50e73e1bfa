/**
 * `ENGINE_AXIS_PRESETS` and the axis choices offered in the panel
 * (`AXIS_ITEMS`), with the lookup `export_fbx` performs.
 */
module Presets {

  /** The `axis_forward` / `axis_up` pair handed to the FBX exporter. */
  datatype AxisPair = AxisPair(forward: string, up: string)

  const EngineAxisPresets: map<string, AxisPair> := map[
    "BLENDER" := AxisPair("-Y", "Z"),
    "MAYA"    := AxisPair("Z", "Y"),
    "UNITY"   := AxisPair("-Z", "Y"),
    "UNREAL"  := AxisPair("X", "Z")
  ]

  /** The preset used for a key the table does not know. */
  const FallbackKey: string := "BLENDER"

  /** One entry of `AXIS_ITEMS`: identifier, label, description. */
  datatype AxisItem = AxisItem(key: string, name: string, description: string)

  const AxisItems: seq<AxisItem> := [
    AxisItem("BLENDER", "Blender", "Z Up, -Y Forward"),
    AxisItem("MAYA", "Maya", "Y Up,  Z Forward"),
    AxisItem("UNITY", "Unity", "Y Up, -Z Forward"),
    AxisItem("UNREAL", "Unreal", "Z Up,  X Forward")
  ]

  /** `ENGINE_AXIS_PRESETS.get(key, ENGINE_AXIS_PRESETS["BLENDER"])`. */
  function AxisPreset(key: string): (r: AxisPair)
    ensures r in EngineAxisPresets.Values
    ensures key !in EngineAxisPresets ==> r == AxisPair("-Y", "Z")
  {
    if key in EngineAxisPresets then EngineAxisPresets[key] else EngineAxisPresets[FallbackKey]
  }

  /** The axis letter of a signed axis name such as "-Y". */
  function AxisLetter(axis: string): string
  {
    if |axis| > 0 && axis[0] == '-' then axis[1..] else axis
  }

  predicate IsAxisName(axis: string)
  {
    AxisLetter(axis) in {"X", "Y", "Z"} && (|axis| == 1 || (|axis| == 2 && axis[0] == '-'))
  }

  /** Every lookup, known key or not, gives a proper orientation: two named axes that differ. */
  lemma AxisPresetIsOrientation(key: string)
    ensures IsAxisName(AxisPreset(key).forward) && IsAxisName(AxisPreset(key).up)
    ensures AxisLetter(AxisPreset(key).forward) != AxisLetter(AxisPreset(key).up)
  {
    var r := AxisPreset(key);
    assert r == AxisPair("-Y", "Z") || r == AxisPair("Z", "Y") || r == AxisPair("-Z", "Y") || r == AxisPair("X", "Z");
    assert "-Y"[1..] == "Y" && "-Z"[1..] == "Z";
  }

  /** Each known key maps to its listed pair. */
  lemma AxisPresetKnownKeys()
    ensures AxisPreset("BLENDER") == AxisPair("-Y", "Z")
    ensures AxisPreset("MAYA") == AxisPair("Z", "Y")
    ensures AxisPreset("UNITY") == AxisPair("-Z", "Y")
    ensures AxisPreset("UNREAL") == AxisPair("X", "Z")
  {
  }

  /** The panel's description of a preset: up axis, then forward axis, aligned on the sign column. */
  function Describe(axes: AxisPair): string
  {
    axes.up + " Up, " + (if |axes.forward| == 1 then " " else "") + axes.forward + " Forward"
  }

  /**
   * Every key the panel offers is in the preset table (so the panel never
   * triggers the fallback), and each description names the axes of its preset.
   */
  lemma AxisItemsMatchPresets()
    ensures forall i :: 0 <= i < |AxisItems| ==> AxisItems[i].key in EngineAxisPresets
    ensures forall i :: 0 <= i < |AxisItems| ==>
              AxisItems[i].description == Describe(EngineAxisPresets[AxisItems[i].key])
  {
    forall i | 0 <= i < |AxisItems|
      ensures AxisItems[i].key in EngineAxisPresets
      ensures AxisItems[i].description == Describe(EngineAxisPresets[AxisItems[i].key])
    {
      AxisItemMatches(i);
    }
  }

  lemma AxisItemMatches(i: nat)
    requires i < |AxisItems|
    ensures AxisItems[i].key in EngineAxisPresets
    ensures AxisItems[i].description == Describe(EngineAxisPresets[AxisItems[i].key])
  {
    if i < 2 {
      AxisItemMatchesFirstHalf(i);
    } else {
      AxisItemMatchesSecondHalf(i);
    }
  }

  lemma AxisItemMatchesFirstHalf(i: nat)
    requires i < 2
    ensures AxisItems[i].key in EngineAxisPresets
    ensures AxisItems[i].description == Describe(EngineAxisPresets[AxisItems[i].key])
  {
    if i == 0 {
      assert Describe(AxisPair("-Y", "Z")) == "Z Up, -Y Forward";
    } else {
      assert Describe(AxisPair("Z", "Y")) == "Y Up,  Z Forward";
    }
  }

  lemma AxisItemMatchesSecondHalf(i: nat)
    requires 2 <= i < 4
    ensures AxisItems[i].key in EngineAxisPresets
    ensures AxisItems[i].description == Describe(EngineAxisPresets[AxisItems[i].key])
  {
    if i == 2 {
      assert Describe(AxisPair("-Z", "Y")) == "Y Up, -Z Forward";
    } else {
      assert Describe(AxisPair("X", "Z")) == "Z Up,  X Forward";
    }
  }
}
