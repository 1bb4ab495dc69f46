/**
 * The layer-convention registry: layer id -> (height, thickness), both kept
 * as the opaque unit strings the simulator reads ("250nm", "1.6um").
 * Assigning a convention to a layer is a dict assignment, so the last one
 * given for a layer wins and a new layer is added at the end.
 */
module Conventions {
  import opened Outcomes
  import opened Dicts
  import opened Text
  import opened Naming

  /** (height, thickness) of a layer; a height of "0" means the layer stays where it was imported. */
  datatype Convention = Convention(height: string, thickness: string)

  type Guide = Dict<Layer, Convention>

  /** The conventions every generator starts with, under int layer ids (maxpy, maxwell.py). */
  const IntDefaults: Guide := [
    (IntLayer(5), Convention("0", "250nm")),
    (IntLayer(18), Convention("0", "250nm")),
    (IntLayer(11), Convention("250nm", "250nm")),
    (IntLayer(30), Convention("250nm", "1.6um")),
    (IntLayer(31), Convention("1850nm", "250nm"))
  ]

  /** The same table under str layer ids (the editor). */
  const StrDefaults: Guide := [
    (StrLayer("5"), Convention("0", "250nm")),
    (StrLayer("18"), Convention("0", "250nm")),
    (StrLayer("11"), Convention("250nm", "250nm")),
    (StrLayer("30"), Convention("250nm", "1.6um")),
    (StrLayer("31"), Convention("1850nm", "250nm"))
  ]

  lemma DefaultsAreDicts()
    ensures IsDict(IntDefaults) && IsDict(StrDefaults)
  {
  }

  /** The two default tables agree entry by entry once the int ids are printed. */
  lemma DefaultsAgree()
    ensures |IntDefaults| == |StrDefaults| == 5
    ensures forall i :: 0 <= i < 5 ==>
      Render(IntDefaults[i].0) == Render(StrDefaults[i].0) && IntDefaults[i].1 == StrDefaults[i].1
  {
    assert Str(5) == "5";
    assert Decimal(1) == "1";
    assert Decimal(3) == "3";
    assert Str(18) == "18";
    assert Str(11) == "11";
    assert Str(30) == "30";
    assert Str(31) == "31";
  }

  /** Each triple in turn sets its layer's convention, so the last triple naming a layer wins. */
  function Override(g: Guide, info: seq<(Layer, string, string)>): Guide {
    if info == [] then g
    else
      var t := info[|info| - 1];
      Put(Override(g, info[..|info| - 1]), t.0, Convention(t.1, t.2))
  }

  /** The convention the last triple for a layer gives it, None if no triple names the layer. */
  function LastConvention(info: seq<(Layer, string, string)>, layer: Layer): Option<Convention> {
    if info == [] then None
    else if info[|info| - 1].0 == layer then Some(Convention(info[|info| - 1].1, info[|info| - 1].2))
    else LastConvention(info[..|info| - 1], layer)
  }

  /** Last write wins; layers no triple names keep what they had (or stay absent). */
  lemma {:induction false} LookupOverride(g: Guide, info: seq<(Layer, string, string)>, layer: Layer)
    ensures Lookup(Override(g, info), layer) ==
      if LastConvention(info, layer).Some? then LastConvention(info, layer) else Lookup(g, layer)
  {
    if info != [] {
      var t := info[|info| - 1];
      LookupOverride(g, info[..|info| - 1], layer);
      LookupPut(Override(g, info[..|info| - 1]), t.0, Convention(t.1, t.2), layer);
    }
  }

  /** Layers already known keep their place; new ones are added after them. */
  lemma {:induction false} KeysOverride(g: Guide, info: seq<(Layer, string, string)>)
    ensures |Keys(g)| <= |Keys(Override(g, info))|
    ensures Keys(Override(g, info))[..|Keys(g)|] == Keys(g)
  {
    if info != [] {
      var t := info[|info| - 1];
      var h := Override(g, info[..|info| - 1]);
      KeysOverride(g, info[..|info| - 1]);
      KeysPut(h, t.0, Convention(t.1, t.2));
      if Lookup(h, t.0).None? {
        assert (Keys(h) + [t.0])[..|Keys(g)|] == Keys(h)[..|Keys(g)|];
      }
    }
  }

  lemma {:induction false} OverrideIsDict(g: Guide, info: seq<(Layer, string, string)>)
    requires IsDict(g)
    ensures IsDict(Override(g, info))
  {
    if info != [] {
      var t := info[|info| - 1];
      OverrideIsDict(g, info[..|info| - 1]);
      PutIsDict(Override(g, info[..|info| - 1]), t.0, Convention(t.1, t.2));
    }
  }

  /** Overriding with layers that are all present leaves the key order alone. */
  lemma {:induction false} KeysOverridePresent(g: Guide, info: seq<(Layer, string, string)>)
    requires forall i :: 0 <= i < |info| ==> Lookup(g, info[i].0).Some?
    ensures Keys(Override(g, info)) == Keys(g)
  {
    if info != [] {
      var t := info[|info| - 1];
      var h := Override(g, info[..|info| - 1]);
      KeysOverridePresent(g, info[..|info| - 1]);
      LookupOverride(g, info[..|info| - 1], t.0);
      KeysPut(h, t.0, Convention(t.1, t.2));
    }
  }

  /** Applying the same overrides twice is the same as applying them once. */
  lemma OverrideIdempotent(g: Guide, info: seq<(Layer, string, string)>)
    requires IsDict(g)
    ensures Override(Override(g, info), info) == Override(g, info)
  {
    var h := Override(g, info);
    OverrideIsDict(g, info);
    OverrideIsDict(h, info);
    forall i | 0 <= i < |info|
      ensures Lookup(h, info[i].0).Some?
    {
      LastNamed(info, i);
      LookupOverride(g, info, info[i].0);
    }
    KeysOverridePresent(h, info);
    forall l
      ensures Lookup(Override(h, info), l) == Lookup(h, l)
    {
      LookupOverride(h, info, l);
      LookupOverride(g, info, l);
    }
    Extensionality(Override(h, info), h);
  }

  /** Every layer some triple names has a last convention. */
  lemma {:induction false} LastNamed(info: seq<(Layer, string, string)>, i: int)
    requires 0 <= i < |info|
    ensures LastConvention(info, info[i].0).Some?
  {
    if i < |info| - 1 && info[|info| - 1].0 != info[i].0 {
      LastNamed(info[..|info| - 1], i);
    }
  }
}
