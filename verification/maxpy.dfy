/**
 * maxpy.Maxwell: one object that names the signals, keeps the layer
 * conventions and appends statements to the script. Its methods are
 * functions from the object to the new object or to the statements the call
 * appends.
 */
module Maxpy {
  import opened Outcomes
  import opened Seqs
  import opened Text
  import opened Dicts
  import opened Naming
  import opened Conventions
  import opened Script
  import opened Geo

  /** The generator's state; fileName and the clear flag only concern the file and are not kept. */
  datatype Maxwell = Maxwell(gds: string, mode: string, project: string, design: string,
                             namer: Namer, layerGuide: Guide)

  /** Maxwell(fileName, project, design, gds, clear, mode): no signals, counter at 1, the default conventions. */
  function New(project: string, design: string, gds: string, mode: string): Maxwell {
    Maxwell(gds, mode, project, design, Fresh, IntDefaults)
  }

  /** What the object keeps true between calls. */
  ghost predicate Valid(m: Maxwell) {
    && Numbered(m.namer)
    && Partitioned(m.namer)
    && IsDict(m.namer.signals)
    && IsDict(m.layerGuide)
  }

  /** initialize(): the header, a new project renamed after `project`, and the design inserted and activated. */
  function Initialize(m: Maxwell): (r: seq<Statement>)
    ensures RenameProject(m.project) in r
    ensures InsertDesign(m.design, m.mode) in r && SetActiveDesign(m.design) in r
    ensures |r| == 7 && r[..2] == [Banner, StartEnvironment] && r[6] == SetActiveEditor
    ensures r[2..6] == [NewProject, RenameProject(m.project), InsertDesign(m.design, m.mode), SetActiveDesign(m.design)]
  {
    [Banner, StartEnvironment, NewProject, RenameProject(m.project),
     InsertDesign(m.design, m.mode), SetActiveDesign(m.design), SetActiveEditor]
  }

  /**
   * add_layers(layerDict): for each (layer, count) in dict order, count new
   * signals, each appended to the flat list and to its layer's existing list.
   */
  function AddLayers(m: Maxwell, layerDict: seq<(Layer, int)>): (r: Maxwell)
    ensures r.namer.count == m.namer.count + |Expand(layerDict)|
    ensures r.namer.allSignals == m.namer.allSignals + MintedNames(layerDict, m.namer.count)
    ensures r.layerGuide == m.layerGuide && r.gds == m.gds
  {
    m.(namer := DeclareAppend(m.namer, layerDict))
  }

  /** A fresh object is valid. */
  lemma NewIsValid(project: string, design: string, gds: string, mode: string)
    ensures Valid(New(project, design, gds, mode))
  {
    DefaultsAreDicts();
  }

  /** add_layers keeps the naming invariant: every name numbered by its position, listed under exactly one layer. */
  lemma AddLayersKeepsValid(m: Maxwell, layerDict: seq<(Layer, int)>)
    requires Valid(m)
    ensures Valid(AddLayers(m, layerDict))
  {
    DeclareKeepsNumbered(m.namer, layerDict);
    DeclareAppendPartitioned(m.namer, layerDict);
    DeclareAppendIsDict(m.namer, layerDict);
  }

  /** addLayerInfo(info) */
  function AddLayerInfo(m: Maxwell, info: seq<(Layer, string, string)>): (r: Maxwell)
    ensures r.namer == m.namer
    ensures forall i :: 0 <= i < |info| ==> Lookup(r.layerGuide, info[i].0).Some?
  {
    forall i | 0 <= i < |info|
      ensures Lookup(Override(m.layerGuide, info), info[i].0).Some?
    {
      LastNamed(info, i);
      LookupOverride(m.layerGuide, info, info[i].0);
    }
    m.(layerGuide := Override(m.layerGuide, info))
  }

  /** addLayerInfo keeps the conventions a dict. */
  lemma AddLayerInfoKeepsValid(m: Maxwell, info: seq<(Layer, string, string)>)
    requires Valid(m)
    ensures Valid(AddLayerInfo(m, info))
  {
    OverrideIsDict(m.layerGuide, info);
  }

  /** The layer ids as the import prints them, str(layer), in dict order. */
  function LayerIds(layers: seq<Layer>): (r: seq<string>)
    ensures |r| == |layers|
    ensures forall i :: 0 <= i < |layers| ==> r[i] == Render(layers[i])
  {
    seq(|layers|, i requires 0 <= i < |layers| => Render(layers[i]))
  }

  /** zero(): read the bounding box, move every signal by its corner, and put a silicon substrate box under them. */
  function Zero(m: Maxwell): (r: seq<Statement>)
    ensures |r| == 3 && r[0] == GetBoundingBox && r[2] == CreateBox("substrate", "silicon")
    ensures r[1].MoveToOrigin? && ReadsBack(r[1].selection, Names(m.namer.allSignals))
  {
    SelectionReadsBack(Names(m.namer.allSignals));
    [GetBoundingBox, MoveToOrigin(Selection(Names(m.namer.allSignals))), CreateBox("substrate", "silicon")]
  }

  /** The loop body of importGDS for one layer: thicken by its thickness, then lift it by its height. */
  function PlaceLayer(xs: seq<Signal>, c: Convention): seq<Statement> {
    Thicken(Names(xs), c.thickness) + Geo.Move(Names(xs), ["0", "0", c.height]).stmts
  }

  /** The import statement: one LayerMapInfo and one OrderMap entry per layer of `signals`, the path's backslashes doubled. */
  function ImportOf(m: Maxwell): Statement {
    ImportStatement(EscapeBackslashes(m.gds), LayerIds(Keys(m.namer.signals)))
  }

  /**
   * importGDS(): the import, zero(), each layer placed by its convention in
   * dict order, and all signals made perfect conductors. A layer without a
   * convention raises KeyError before that layer's statements.
   */
  function ImportGDS(m: Maxwell): Emission {
    var placed := ForEachLayer(m.namer.signals, m.layerGuide, PlaceLayer);
    var tail := if placed.error.None? then AssignTo(Names(m.namer.allSignals), "Perfect Conductor") else [];
    Emission([ImportOf(m)] + Zero(m) + placed.stmts + tail, placed.error)
  }

  /** Whether every layer holding signals has a convention. */
  ghost predicate AllGuided(m: Maxwell) {
    forall i :: 0 <= i < |m.namer.signals| ==> Lookup(m.layerGuide, m.namer.signals[i].0).Some?
  }

  /** The placement of every layer, in dict order, when all have a convention. */
  function Placements(m: Maxwell): seq<seq<Statement>>
    requires AllGuided(m)
  {
    var s := m.namer.signals;
    seq(|s|, i requires 0 <= i < |s| => PlaceLayer(s[i].1, Lookup(m.layerGuide, s[i].0).value))
  }

  /**
   * The import maps the layers of `signals` in dict order to "Signal<layer>"
   * with orders 0..n-1, names the file with its backslashes escaped, and is
   * followed by zero().
   */
  lemma ImportGDSHeader(m: Maxwell)
    ensures |ImportGDS(m).stmts| >= 4
    ensures ImportGDS(m).stmts[1..4] == Zero(m)
    ensures var s := ImportGDS(m).stmts[0];
      && s.ImportGDSII?
      && UnescapeBackslashes(s.fileName) == m.gds
      && |s.layerMap| == |s.orderMap| == |m.namer.signals|
      && forall i :: 0 <= i < |m.namer.signals| ==>
           s.layerMap[i] == LayerMapEntry(Render(m.namer.signals[i].0), "Signal" + Render(m.namer.signals[i].0)) &&
           s.orderMap[i] == OrderEntry(i, "Signal" + Render(m.namer.signals[i].0))
  {
    EscapeRoundTrip(m.gds);
    KeysAt(m.namer.signals);
    var r := ImportGDS(m);
    assert r.stmts[0] == ImportOf(m);
    assert r.stmts[1..4] == Zero(m);
  }

  /**
   * importGDS fails exactly when a layer lacks a convention, with KeyError;
   * otherwise it writes the import, zero(), every layer's placement and the
   * material assignment over all signals.
   */
  lemma ImportGDSBody(m: Maxwell)
    ensures ImportGDS(m).error.None? <==> AllGuided(m)
    ensures ImportGDS(m).error.Some? ==> ImportGDS(m).error == Some(KeyError)
    ensures AllGuided(m) ==>
      ImportGDS(m).stmts ==
        [ImportOf(m)] + Zero(m) + Flatten(Placements(m)) +
        [AssignMaterial(Selection(Names(m.namer.allSignals)), "Perfect Conductor")]
  {
    var s := m.namer.signals;
    ForEachLayerSpec(s, m.layerGuide, PlaceLayer);
    if AllGuided(m) {
      assert Covered(s, m.layerGuide) == |s|;
      assert CoveredSteps(s, m.layerGuide, PlaceLayer) == Placements(m);
    } else {
      var i :| 0 <= i < |s| && Lookup(m.layerGuide, s[i].0).None?;
      assert Covered(s, m.layerGuide) != |s|;
    }
  }

  /** A layer's placement is its thicken, then its lift unless its height is "0". */
  lemma PlaceLayerShape(xs: seq<Signal>, c: Convention)
    ensures PlaceLayer(xs, c) ==
      [ThickenSheet(Selection(Names(xs)), c.thickness)] +
      (if c.height == "0" then [] else [Statement.Move(Selection(Names(xs)), "0", "0", c.height)])
  {
    LiftSkipsOnlyZero(Names(xs), c.height);
  }

  /** unite(signals) */
  function Unite(names: seq<string>): seq<Statement> {
    [Statement.Unite(Selection(names))]
  }

  /** matrix(excitations, name): a capacitance matrix named `name` with one entry per excitation, in order. */
  function Matrix(excitations: seq<string>, name: string): seq<Statement> {
    [GetModule("MaxwellParameterSetup"), AssignMatrix(name, excitations)]
  }

  /**
   * thicken, assignMaterial and unite select by the comma join, so for
   * int-layer signals every statement names exactly the given signals.
   */
  lemma SelectionsReadBack(xs: seq<Signal>, thickness: string, material: string)
    requires |xs| >= 1
    requires forall i :: 0 <= i < |xs| ==> xs[i].layer.IntLayer?
    ensures Split(Thicken(Names(xs), thickness)[0].selection, ',') == Names(xs)
    ensures Split(AssignTo(Names(xs), material)[0].selection, ',') == Names(xs)
    ensures Split(Unite(Names(xs))[0].selection, ',') == Names(xs)
  {
    IntNamesSplit(xs);
  }
}
