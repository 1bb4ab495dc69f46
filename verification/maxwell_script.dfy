/**
 * maxwell.Maxwell and its helpers MaxInit (project and design), MaxSetup
 * (import, conventions, placement) and MaxGeo (the geometry statements,
 * shared with maxpy in Geo). The Maxwell object keeps the signal namer and
 * hands its layer dict and flat list to MaxSetup after each GDSLayers call;
 * before the first call MaxSetup holds None for both.
 */
module MaxwellScript {
  import opened Outcomes
  import opened Seqs
  import opened Text
  import opened Dicts
  import opened Naming
  import opened Conventions
  import opened Script
  import opened Geo

  /** The project and design the script has switched to; no design until one is opened. */
  datatype MaxInit = MaxInit(projectName: string, designName: Option<string>)

  /** What MaxSetup was handed (None before GDSLayers) and its layer conventions. */
  datatype MaxSetup = MaxSetup(signals: Option<Dict<Layer, seq<Signal>>>, allSignals: Option<seq<Signal>>,
                               layerGuide: Guide)

  /** The generator; `namer.count` is Maxwell.layerCount. The script file name is not kept. */
  datatype Maxwell = Maxwell(gds: Option<string>, mode: string, initializer: MaxInit, setup: MaxSetup, namer: Namer)

  /** A call's new state and what it appended. */
  datatype Call = Call(state: Maxwell, out: Emission)

  /** Maxwell(fileName): the header and the default project written, nothing named yet. */
  function New(): (r: Call)
    ensures r.out.error.None? && SetActiveProject("Project1") in r.out.stmts
    ensures r.state.gds.None? && r.state.initializer.designName.None?
    ensures r.state.namer == Fresh && r.state.setup.signals.None?
  {
    var setup := MaxSetup(None, None, IntDefaults);
    Call(Maxwell(None, "Magnetostatic", MaxInit("Project1", None), setup, Fresh),
         Emission([Banner, StartEnvironment, SetActiveProject("Project1")], None))
  }

  /** setGDS(fileName): the file to import is fileName + '.gds'. */
  function SetGDS(m: Maxwell, fileName: string): (r: Maxwell)
    ensures r.gds.Some? && |r.gds.value| == |fileName| + 4 && r.gds.value[..|fileName|] == fileName && r.gds.value[|fileName|..] == ".gds"
    ensures r == m.(gds := r.gds)
  {
    m.(gds := Some(fileName + ".gds"))
  }

  /** setMode(mode): the mode later design inserts use. */
  function SetMode(m: Maxwell, mode: string): (r: Maxwell)
    ensures r.mode == mode
    ensures r == m.(mode := r.mode)
  {
    m.(mode := mode)
  }

  /** setProject(projectName): MaxInit.renameProject records the name and renames the project. */
  function SetProject(m: Maxwell, projectName: string): (r: Call)
    ensures r.state.initializer.projectName == projectName
    ensures r.out == Emission([RenameProject(projectName)], None)
  {
    Call(m.(initializer := m.initializer.(projectName := projectName)), Emission([RenameProject(projectName)], None))
  }

  /** MaxInit.openDesign(designName, mode): insert the design, activate it and its editor. */
  function OpenDesign(m: Maxwell, designName: string): Call {
    Call(m.(initializer := m.initializer.(designName := Some(designName))),
         Emission([InsertDesign(designName, m.mode), SetActiveDesign(designName), SetActiveEditor], None))
  }

  /** insertDesign(designName) */
  function InsertNewDesign(m: Maxwell, designName: string): (r: Call)
    ensures r.state.initializer.designName == Some(designName)
    ensures InsertDesign(designName, m.mode) in r.out.stmts
  {
    OpenDesign(m, designName)
  }

  /**
   * setDesign(designName): opens (inserts) the design when none has been
   * opened yet, and otherwise only activates it (MaxInit.setDesign).
   */
  function SetDesign(m: Maxwell, designName: string): Call {
    if m.initializer.designName.None? then OpenDesign(m, designName)
    else
      Call(m.(initializer := m.initializer.(designName := Some(designName))),
           Emission([SetActiveDesign(designName), SetActiveEditor], None))
  }

  /** The number of InsertDesign statements in a script. */
  function Inserts(stmts: seq<Statement>): nat {
    if stmts == [] then 0 else (if stmts[0].InsertDesign? then 1 else 0) + Inserts(stmts[1..])
  }

  lemma {:induction false} InsertsConcat(a: seq<Statement>, b: seq<Statement>)
    ensures Inserts(a + b) == Inserts(a) + Inserts(b)
  {
    if a != [] {
      assert (a + b)[0] == a[0];
      assert (a + b)[1..] == a[1..] + b;
      InsertsConcat(a[1..], b);
    } else {
      assert a + b == b;
    }
  }

  /** One setDesign call inserts the design exactly when none was open. */
  lemma SetDesignInserts(m: Maxwell, designName: string)
    ensures Inserts(SetDesign(m, designName).out.stmts) == if m.initializer.designName.None? then 1 else 0
  {
    var tail := [SetActiveDesign(designName), SetActiveEditor];
    assert tail[1..] == [SetActiveEditor];
    assert [SetActiveEditor][1..] == [];
    assert Inserts(tail) == 0;
    assert ([InsertDesign(designName, m.mode)] + tail)[1..] == tail;
  }

  /** Calling setDesign with each name in turn. */
  function SetDesigns(m: Maxwell, names: seq<string>): Call
    decreases |names|
  {
    if names == [] then Call(m, Emission([], None))
    else
      var first := SetDesign(m, names[0]);
      var rest := SetDesigns(first.state, names[1..]);
      Call(rest.state, Emission(first.out.stmts + rest.out.stmts, None))
  }

  /**
   * However often setDesign is called, the design is inserted at most once:
   * exactly when none was open yet; every call activates its design and the
   * last name given is the design in use.
   */
  lemma {:induction false} SetDesignsInsertOnce(m: Maxwell, names: seq<string>)
    requires names != []
    decreases |names|
    ensures Inserts(SetDesigns(m, names).out.stmts) == if m.initializer.designName.None? then 1 else 0
    ensures SetDesigns(m, names).state.initializer.designName == Some(names[|names| - 1])
    ensures forall i :: 0 <= i < |names| ==> SetActiveDesign(names[i]) in SetDesigns(m, names).out.stmts
  {
    var first := SetDesign(m, names[0]);
    var rest := SetDesigns(first.state, names[1..]);
    InsertsConcat(first.out.stmts, rest.out.stmts);
    SetDesignInserts(m, names[0]);
    if |names| > 1 {
      SetDesignsInsertOnce(first.state, names[1..]);
      assert Inserts(rest.out.stmts) == 0;
      forall i | 1 <= i < |names|
        ensures SetActiveDesign(names[i]) in SetDesigns(m, names).out.stmts
      {
        assert names[1..][i - 1] == names[i];
        assert SetActiveDesign(names[i]) in rest.out.stmts;
      }
    } else {
      assert Inserts(rest.out.stmts) == 0;
    }
    assert SetActiveDesign(names[0]) in first.out.stmts;
  }

  /**
   * MaxSetup.importGDS(gdsfile): one LayerMapInfo and OrderMap entry per layer
   * of the dict it was handed; iterating a None dict raises TypeError.
   */
  function SetupImport(setup: MaxSetup, gdsfile: string): Emission {
    match setup.signals
    case None => Emission([], Some(TypeError))
    case Some(signals) =>
      var ids := seq(|signals|, i requires 0 <= i < |signals| => Render(signals[i].0));
      Emission([ImportStatement(EscapeBackslashes(gdsfile), ids)], None)
  }

  /** importGDS(): asserts that a GDS file was set, then imports it. */
  function ImportGDS(m: Maxwell): Emission {
    match m.gds
    case None => Emission([], Some(AssertionError("No GDS file specified")))
    case Some(gds) => SetupImport(m.setup, gds)
  }

  /**
   * GDSLayers(info): for each (layer, count) restart the layer's list, name
   * count elements with the shared counter, then hand the dict and the flat
   * list to MaxSetup.
   */
  function GDSLayers(m: Maxwell, info: seq<(Layer, int)>): (r: Maxwell)
    ensures r.setup.signals == Some(r.namer.signals) && r.setup.allSignals == Some(r.namer.allSignals)
    ensures r.namer.count == m.namer.count + |Expand(info)|
    ensures r.namer.allSignals == m.namer.allSignals + MintedNames(info, m.namer.count)
  {
    var namer := DeclareReset(m.namer, info);
    m.(namer := namer, setup := m.setup.(signals := Some(namer.signals), allSignals := Some(namer.allSignals)))
  }

  /** addLayerInfo(info) as written: Maxwell has no layerGuide, so any triple raises AttributeError. */
  function AddLayerInfoAsWritten(m: Maxwell, info: seq<(Layer, string, string)>): Result<Maxwell> {
    if info == [] then Ok(m) else Err(AttributeError)
  }

  /** addLayerInfo(info) as evidently intended: the overrides go to the conventions MaxSetup places by. */
  function AddLayerInfo(m: Maxwell, info: seq<(Layer, string, string)>): (r: Maxwell)
    ensures r.namer == m.namer && r.setup.signals == m.setup.signals
    ensures r == m.(setup := m.setup.(layerGuide := r.setup.layerGuide))
  {
    m.(setup := m.setup.(layerGuide := Override(m.setup.layerGuide, info)))
  }

  /** The discrepancy: any override at all fails as written, while the intended one takes effect. */
  lemma AddLayerInfoFails(m: Maxwell, layer: Layer, height: string, thickness: string)
    ensures AddLayerInfoAsWritten(m, [(layer, height, thickness)]) == Err(AttributeError)
    ensures Lookup(AddLayerInfo(m, [(layer, height, thickness)]).setup.layerGuide, layer) ==
      Some(Convention(height, thickness))
  {
    LookupOverride(m.setup.layerGuide, [(layer, height, thickness)], layer);
  }

  /** The intended addLayerInfo: last triple per layer wins, other layers keep their conventions. */
  lemma AddLayerInfoOverrides(m: Maxwell, info: seq<(Layer, string, string)>, layer: Layer)
    ensures Lookup(AddLayerInfo(m, info).setup.layerGuide, layer) ==
      if LastConvention(info, layer).Some? then LastConvention(info, layer) else Lookup(m.setup.layerGuide, layer)
  {
    LookupOverride(m.setup.layerGuide, info, layer);
  }

  /**
   * MaxSetup.zero(): reads the bounding box, then moves MaxSetup's flat list
   * to the origin; joining a None list raises TypeError after the first line.
   */
  function SetupZero(setup: MaxSetup): (r: Emission)
    ensures r.error.Some? <==> setup.allSignals.None?
    ensures setup.allSignals.None? ==> r == Emission([GetBoundingBox], Some(TypeError))
    ensures setup.allSignals.Some? ==>
      && |r.stmts| == 2 && r.stmts[0] == GetBoundingBox && r.stmts[1].MoveToOrigin?
      && ReadsBack(r.stmts[1].selection, Names(setup.allSignals.value))
  {
    match setup.allSignals
    case None => Emission([GetBoundingBox], Some(TypeError))
    case Some(all) =>
      SelectionReadsBack(Names(all));
      Emission([GetBoundingBox, MoveToOrigin(Selection(Names(all)))], None)
  }

  /** initialThicken's loop body: thicken the layer by its thickness. */
  function ThickenStep(xs: seq<Signal>, c: Convention): seq<Statement> {
    Thicken(Names(xs), c.thickness)
  }

  /** position's loop body: lift the layer by its height (MaxGeo.move skips "0"). */
  function PositionStep(xs: seq<Signal>, c: Convention): seq<Statement> {
    Geo.Move(Names(xs), ["0", "0", c.height]).stmts
  }

  /** initialAssign(signals): the per-layer lists concatenated in dict order become perfect conductors. */
  function InitialAssign(signals: Dict<Layer, seq<Signal>>): seq<Statement> {
    AssignTo(Names(Flatten(Values(signals))), "perfect conductor")
  }

  /**
   * prepare(): MaxSetup.zero, then initialThicken and position over
   * Maxwell's own dict with MaxSetup's conventions, then initialAssign.
   * The first layer without a convention raises KeyError in initialThicken.
   */
  function Prepare(m: Maxwell): Emission {
    var zero := SetupZero(m.setup);
    if zero.error.Some? then zero
    else
      var thick := ForEachLayer(m.namer.signals, m.setup.layerGuide, ThickenStep);
      if thick.error.Some? then Emission(zero.stmts + thick.stmts, thick.error)
      else
        var pos := ForEachLayer(m.namer.signals, m.setup.layerGuide, PositionStep);
        Emission(zero.stmts + thick.stmts + pos.stmts + InitialAssign(m.namer.signals), pos.error)
  }

  /** MaxSetup has been handed Maxwell's dict and flat list, or still nothing. */
  ghost predicate Linked(m: Maxwell) {
    || (m.setup.signals == Some(m.namer.signals) && m.setup.allSignals == Some(m.namer.allSignals))
    || (m.setup.signals.None? && m.setup.allSignals.None? && m.namer == Fresh)
  }

  /** What the object keeps true between calls. */
  ghost predicate Valid(m: Maxwell) {
    && Linked(m)
    && Numbered(m.namer)
    && SubPartitioned(m.namer)
    && IsDict(m.namer.signals)
    && IsDict(m.setup.layerGuide)
  }

  lemma NewIsValid()
    ensures Valid(New().state)
  {
    DefaultsAreDicts();
  }

  /** Every call keeps the object valid. */
  lemma CallsKeepValid(m: Maxwell, name: string, info: seq<(Layer, int)>, conventions: seq<(Layer, string, string)>)
    requires Valid(m)
    ensures Valid(SetGDS(m, name)) && Valid(SetMode(m, name))
    ensures Valid(SetProject(m, name).state) && Valid(SetDesign(m, name).state) && Valid(InsertNewDesign(m, name).state)
    ensures Valid(GDSLayers(m, info))
    ensures Valid(AddLayerInfo(m, conventions))
  {
    DeclareKeepsNumbered(m.namer, info);
    DeclareResetSubPartitioned(m.namer, info);
    DeclareResetIsDict(m.namer, info);
    OverrideIsDict(m.setup.layerGuide, conventions);
  }

  /**
   * importGDS fails its assertion without a GDS file and raises TypeError
   * before GDSLayers; otherwise it writes one import of the file (its
   * backslashes escaped) mapping each of Maxwell's layers, in dict order, to
   * "Signal<layer>" with orders 0..n-1.
   */
  lemma ImportGDSSpec(m: Maxwell)
    requires Linked(m)
    ensures m.gds.None? ==> ImportGDS(m) == Emission([], Some(AssertionError("No GDS file specified")))
    ensures m.gds.Some? && m.setup.signals.None? ==> ImportGDS(m) == Emission([], Some(TypeError))
    ensures m.gds.Some? && m.setup.signals.Some? ==>
      && ImportGDS(m).error.None?
      && |ImportGDS(m).stmts| == 1
      && var s := ImportGDS(m).stmts[0];
         && s.ImportGDSII?
         && UnescapeBackslashes(s.fileName) == m.gds.value
         && |s.layerMap| == |s.orderMap| == |m.namer.signals|
         && forall i :: 0 <= i < |m.namer.signals| ==>
              s.layerMap[i] == LayerMapEntry(Render(m.namer.signals[i].0), "Signal" + Render(m.namer.signals[i].0)) &&
              s.orderMap[i] == OrderEntry(i, "Signal" + Render(m.namer.signals[i].0))
  {
    if m.gds.Some? {
      EscapeRoundTrip(m.gds.value);
    }
  }

  /** The example's sequence: setGDS, then GDSLayers, then importGDS imports name + ".gds" and fails nothing. */
  lemma SetGDSThenImport(m: Maxwell, name: string, info: seq<(Layer, int)>)
    ensures var r := ImportGDS(GDSLayers(SetGDS(m, name), info));
      && r.error.None? && |r.stmts| == 1 && r.stmts[0].ImportGDSII?
      && UnescapeBackslashes(r.stmts[0].fileName) == name + ".gds"
  {
    EscapeRoundTrip(name + ".gds");
  }

  /** Importing right after construction, before GDSLayers, raises TypeError even with a file set. */
  lemma ImportBeforeLayers(name: string)
    ensures ImportGDS(SetGDS(New().state, name)) == Emission([], Some(TypeError))
  {
  }

  /** The layers of maxwell.py's usage example: five elements on layer 5, two on 11, 34 on 30, 17 on 31. */
  const ExampleLayers: seq<(Layer, int)> := [(IntLayer(5), 5), (IntLayer(11), 2), (IntLayer(30), 34), (IntLayer(31), 17)]

  /** In that example layer 11's two elements are Signal11_6 and Signal11_7: the counter runs on across layers. */
  lemma ExampleLayer11()
    ensures Lookup(GDSLayers(New().state, ExampleLayers).namer.signals, IntLayer(11)) ==
      Some([Signal(IntLayer(11), 6), Signal(IntLayer(11), 7)])
  {
    LookupDeclareReset(Fresh, ExampleLayers, IntLayer(11));
    var init := ExampleLayers[..3];
    assert init[..2] == [(IntLayer(5), 5), (IntLayer(11), 2)];
    assert init[..2][..1] == [(IntLayer(5), 5)];
    assert Expand([(IntLayer(5), 5)]) == Repeat(IntLayer(5), 5);
    assert LastBlock(ExampleLayers, IntLayer(11), 1) == Some(Block(IntLayer(11), 2, 6));
    assert Block(IntLayer(11), 2, 6) == [Signal(IntLayer(11), 6), Signal(IntLayer(11), 7)];
  }

  /** The names the example later unites: layer 11's elements spelled as the simulator names them. */
  lemma ExampleNames()
    ensures Names([Signal(IntLayer(11), 6), Signal(IntLayer(11), 7)]) == ["Signal11_6", "Signal11_7"]
  {
    assert Str(11) == "11";
    assert Str(6) == "6";
    assert Str(7) == "7";
    var r := Names([Signal(IntLayer(11), 6), Signal(IntLayer(11), 7)]);
    assert r[0] == "Signal11_6";
    assert r[1] == "Signal11_7";
  }

  /**
   * A repeated layer keeps only its last batch in the dict, while the flat
   * list still has every element: [(5, 2), (5, 1)] leaves layer 5 with its
   * third element only.
   */
  lemma RepeatedLayerKeepsLast()
    ensures var r := GDSLayers(New().state, [(IntLayer(5), 2), (IntLayer(5), 1)]).namer;
      && Lookup(r.signals, IntLayer(5)) == Some([Signal(IntLayer(5), 3)])
      && |r.allSignals| == 3
  {
    var decls := [(IntLayer(5), 2), (IntLayer(5), 1)];
    LookupDeclareReset(Fresh, decls, IntLayer(5));
    assert decls[..1] == [(IntLayer(5), 2)];
    assert Expand(decls[..1]) == Repeat(IntLayer(5), 2);
    assert |Expand(decls[..1])| == 2;
    assert LastBlock(decls, IntLayer(5), 1) == Some(Block(IntLayer(5), 1, 3));
    assert Block(IntLayer(5), 1, 3) == [Signal(IntLayer(5), 3)];
  }

  /** All placements of initialThicken and position, in dict order, when every layer has a convention. */
  ghost predicate AllGuided(m: Maxwell) {
    forall i :: 0 <= i < |m.namer.signals| ==> Lookup(m.setup.layerGuide, m.namer.signals[i].0).Some?
  }

  function Steps(m: Maxwell, step: (seq<Signal>, Convention) -> seq<Statement>): seq<seq<Statement>>
    requires AllGuided(m)
  {
    var s := m.namer.signals;
    seq(|s|, i requires 0 <= i < |s| => step(s[i].1, Lookup(m.setup.layerGuide, s[i].0).value))
  }

  /**
   * prepare raises TypeError before GDSLayers and KeyError when a layer has
   * no convention; otherwise it writes zero over MaxSetup's flat list, every
   * layer's thicken, every layer's move, and one assignment of the
   * concatenated per-layer lists.
   */
  lemma PrepareSpec(m: Maxwell)
    requires Linked(m)
    ensures Prepare(m).error.None? <==> m.setup.allSignals.Some? && AllGuided(m)
    ensures m.setup.allSignals.None? ==> Prepare(m) == Emission([GetBoundingBox], Some(TypeError))
    ensures m.setup.allSignals.Some? && !AllGuided(m) ==> Prepare(m).error == Some(KeyError)
    ensures m.setup.allSignals.Some? && AllGuided(m) ==>
      Prepare(m).stmts ==
        [GetBoundingBox, MoveToOrigin(Selection(Names(m.namer.allSignals)))] +
        Flatten(Steps(m, ThickenStep)) + Flatten(Steps(m, PositionStep)) +
        [AssignMaterial(Selection(Names(Flatten(Values(m.namer.signals)))), "perfect conductor")]
  {
    var s := m.namer.signals;
    var g := m.setup.layerGuide;
    ForEachLayerSpec(s, g, ThickenStep);
    ForEachLayerSpec(s, g, PositionStep);
    if AllGuided(m) {
      assert Covered(s, g) == |s|;
      assert CoveredSteps(s, g, ThickenStep) == Steps(m, ThickenStep);
      assert CoveredSteps(s, g, PositionStep) == Steps(m, PositionStep);
    } else {
      var i :| 0 <= i < |s| && Lookup(g, s[i].0).None?;
      assert Covered(s, g) != |s|;
    }
  }

  /**
   * After GDSLayers from a fresh start with distinct layer ids, initialAssign
   * selects every element named, once each, in naming order.
   */
  lemma AssignCoversAll(info: seq<(Layer, int)>)
    requires IsDict(info)
    ensures var m := GDSLayers(New().state, info);
      Flatten(Values(m.namer.signals)) == m.namer.allSignals
  {
    FreshResetLayout(info);
  }

  /** With repeated layer ids initialAssign may miss elements, but never selects one that was not named. */
  lemma AssignWithinAll(m: Maxwell)
    requires Valid(m)
    ensures multiset(Flatten(Values(m.namer.signals))) <= multiset(m.namer.allSignals)
    ensures |Flatten(Values(m.namer.signals))| <= |m.namer.allSignals|
  {
    var a := multiset(Flatten(Values(m.namer.signals)));
    var b := multiset(m.namer.allSignals);
    assert |a| <= |b| by {
      assert b == a + (b - a);
    }
  }
}
