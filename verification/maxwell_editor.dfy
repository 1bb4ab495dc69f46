/**
 * Maxwell_Editor: the variant whose layer ids are strings and whose methods
 * return each statement instead of appending it. Its constructor names the
 * elements (restarting a layer's list each time the layer is listed) and
 * derives the flat list from the dict; the geometry methods refuse an empty
 * selection, except assign_material, which returns nothing for it.
 */
module MaxwellEditor {
  import opened Outcomes
  import opened Seqs
  import opened Text
  import opened Dicts
  import opened Naming
  import opened Conventions
  import opened Script
  import opened Geo

  /** The editor: conventions, the (layer, count) list it was built from, the layer dict and the flat list. */
  datatype Editor = Editor(layerInfo: Guide, layers: seq<(string, int)>,
                           signals: Dict<Layer, seq<Signal>>, allSignals: seq<Signal>)

  /** The (layer, count) list as declarations under str layer ids. */
  function Decls(layers: seq<(string, int)>): (r: seq<(Layer, int)>)
    ensures |r| == |layers|
    ensures forall i :: 0 <= i < |layers| ==> r[i] == (StrLayer(layers[i].0), layers[i].1)
  {
    seq(|layers|, i requires 0 <= i < |layers| => (StrLayer(layers[i].0), layers[i].1))
  }

  /**
   * Maxwell_Editor(layers): for each (layer, components) restart the layer's
   * list and name its elements with one counter from 1; the flat list is the
   * per-layer lists concatenated in dict order.
   */
  function New(layers: seq<(string, int)>): (e: Editor)
    ensures e.layers == layers && e.layerInfo == StrDefaults
    ensures e.allSignals == Flatten(Values(e.signals))
  {
    var namer := DeclareReset(Fresh, Decls(layers));
    Editor(StrDefaults, layers, namer.signals, Flatten(Values(namer.signals)))
  }

  /** Distinct layer names give distinct dict keys. */
  lemma DeclsIsDict(layers: seq<(string, int)>)
    requires forall i, j :: 0 <= i < j < |layers| ==> layers[i].0 != layers[j].0
    ensures IsDict(Decls(layers))
  {
  }

  /**
   * With distinct layer names, the flat list holds every element named, in
   * naming order: the j-th is Signal<its layer>_<j+1>, so no two share a name,
   * and the dict lists the layers in the given order.
   */
  lemma NewLayout(layers: seq<(string, int)>)
    requires forall i, j :: 0 <= i < j < |layers| ==> layers[i].0 != layers[j].0
    ensures New(layers).allSignals == MintedNames(Decls(layers), 1)
    ensures Keys(New(layers).signals) == Keys(Decls(layers))
    ensures forall j :: 0 <= j < |New(layers).allSignals| ==> New(layers).allSignals[j].ordinal == j + 1
    ensures Distinct(Names(New(layers).allSignals))
  {
    var decls := Decls(layers);
    DeclsIsDict(layers);
    FreshResetLayout(decls);
    MintedNamesAt(decls, 1);
    var n := Namer(New(layers).signals, New(layers).allSignals, 1 + |New(layers).allSignals|);
    assert Numbered(n);
    NumberedNamesDistinct(n);
  }

  /** Each listed layer holds the elements of its last listing; unlisted layers are absent. */
  lemma NewLookup(layers: seq<(string, int)>, l: Layer)
    ensures Lookup(New(layers).signals, l) == LastBlock(Decls(layers), l, 1)
  {
    LookupDeclareReset(Fresh, Decls(layers), l);
  }

  /**
   * A layer listed twice keeps only its second batch, and so does the flat
   * list: [("5", 2), ("5", 1)] names three elements but keeps Signal5_3 alone.
   */
  lemma RepeatedLayerDropsNames()
    ensures New([("5", 2), ("5", 1)]).signals == [(StrLayer("5"), [Signal(StrLayer("5"), 3)])]
    ensures New([("5", 2), ("5", 1)]).allSignals == [Signal(StrLayer("5"), 3)]
  {
    var five := StrLayer("5");
    var decls := Decls([("5", 2), ("5", 1)]);
    assert decls == [(five, 2), (five, 1)];
    var init := [(five, 2)];
    assert decls[..1] == init && init[..0] == [];
    assert DeclareReset(Fresh, []) == Fresh;
    var e: Dict<Layer, seq<Signal>> := [(five, [])];
    assert e[1..] == [];
    assert Put(e, five, Block(five, 2, 1)) == [(five, Block(five, 2, 1))];
    assert Put(e, five, [Signal(five, 3)]) == [(five, [Signal(five, 3)])];
    assert Lookup(e, five) == Some([]);
    assert Reset(Fresh, five).signals == e;
    var n0 := Reset(Fresh, five);
    assert n0.count == 1;
    assert Lookup(n0.signals, five).GetOr([]) + Block(five, 2, 1) == Block(five, 2, 1);
    assert MintMany(n0, five, 2).signals == Put(e, five, Block(five, 2, 1));
    var m := DeclareReset(Fresh, init);
    assert m == MintMany(Reset(Fresh, five), five, 2);
    assert m.signals == [(five, Block(five, 2, 1))];
    var r := DeclareReset(Fresh, decls);
    assert Reset(m, five).signals == e;
    assert Block(five, 1, 3) == [Signal(five, 3)];
    var n1 := Reset(m, five);
    assert n1.count == 3;
    assert Lookup(n1.signals, five).GetOr([]) + Block(five, 1, 3) == [Signal(five, 3)];
    assert MintMany(n1, five, 1).signals == Put(e, five, [Signal(five, 3)]);
    assert decls[..|decls| - 1] == init && decls[|decls| - 1] == (five, 1);
    assert r == MintMany(n1, five, 1);
    assert r.signals == [(five, [Signal(five, 3)])];
    assert r.signals[1..] == [];
    assert Values(r.signals) == [[Signal(five, 3)]];
    assert Flatten(Values(r.signals)) == [Signal(five, 3)] + Flatten<Signal>([]);
  }

  /** add_conventions(extra_info): str-keyed overrides, last triple per layer wins. */
  function AddConventions(e: Editor, extraInfo: seq<(string, string, string)>): (r: Editor)
    ensures r.signals == e.signals && r.allSignals == e.allSignals && r.layers == e.layers
  {
    var info := seq(|extraInfo|, i requires 0 <= i < |extraInfo| =>
      (StrLayer(extraInfo[i].0), extraInfo[i].1, extraInfo[i].2));
    e.(layerInfo := Override(e.layerInfo, info))
  }

  /** The convention the last triple naming a layer gives it. */
  function LastGiven(extraInfo: seq<(string, string, string)>, layer: string): Option<Convention> {
    if extraInfo == [] then None
    else
      var t := extraInfo[|extraInfo| - 1];
      if t.0 == layer then Some(Convention(t.1, t.2)) else LastGiven(extraInfo[..|extraInfo| - 1], layer)
  }

  lemma {:induction false} LastGivenIsLast(extraInfo: seq<(string, string, string)>, layer: string)
    ensures var info := seq(|extraInfo|, i requires 0 <= i < |extraInfo| =>
        (StrLayer(extraInfo[i].0), extraInfo[i].1, extraInfo[i].2));
      LastConvention(info, StrLayer(layer)) == LastGiven(extraInfo, layer)
  {
    var info := seq(|extraInfo|, i requires 0 <= i < |extraInfo| =>
      (StrLayer(extraInfo[i].0), extraInfo[i].1, extraInfo[i].2));
    if extraInfo != [] {
      var init := extraInfo[..|extraInfo| - 1];
      LastGivenIsLast(init, layer);
      var infoInit := seq(|init|, i requires 0 <= i < |init| => (StrLayer(init[i].0), init[i].1, init[i].2));
      assert info[..|info| - 1] == infoInit;
    }
  }

  /** add_conventions: a layer some triple names gets the last triple's convention; any other keeps its own. */
  lemma AddConventionsLookup(e: Editor, extraInfo: seq<(string, string, string)>, layer: string)
    ensures Lookup(AddConventions(e, extraInfo).layerInfo, StrLayer(layer)) ==
      if LastGiven(extraInfo, layer).Some? then LastGiven(extraInfo, layer) else Lookup(e.layerInfo, StrLayer(layer))
  {
    var info := seq(|extraInfo|, i requires 0 <= i < |extraInfo| =>
      (StrLayer(extraInfo[i].0), extraInfo[i].1, extraInfo[i].2));
    LookupOverride(e.layerInfo, info, StrLayer(layer));
    LastGivenIsLast(extraInfo, layer);
  }

  /** The layer names of the list the editor was built from, repetitions included. */
  function LayerNames(layers: seq<(string, int)>): (r: seq<string>)
    ensures |r| == |layers|
    ensures forall i :: 0 <= i < |layers| ==> r[i] == layers[i].0
  {
    seq(|layers|, i requires 0 <= i < |layers| => layers[i].0)
  }

  /** import_layers(file_name): one map entry per listed pair, in list order; the file name goes in verbatim. */
  function ImportLayers(e: Editor, fileName: string): (s: Statement)
    ensures s.ImportGDSII? && s.fileName == fileName
    ensures |s.layerMap| == |s.orderMap| == |e.layers|
    ensures forall i :: 0 <= i < |e.layers| ==>
      s.layerMap[i] == LayerMapEntry(e.layers[i].0, "Signal" + e.layers[i].0) &&
      s.orderMap[i] == OrderEntry(i, "Signal" + e.layers[i].0)
  {
    ImportStatement(fileName, LayerNames(e.layers))
  }

  /** A layer listed twice is mapped twice by the import, though the dict holds it once. */
  lemma ImportRepeatsLayers()
    ensures |ImportLayers(New([("5", 2), ("5", 1)]), "chip.gds").layerMap| == 2
    ensures |New([("5", 2), ("5", 1)]).signals| == 1
  {
    RepeatedLayerDropsNames();
  }

  /** Unlike the other variants, a path with a backslash reaches the import unescaped. */
  lemma ImportKeepsBackslashes(e: Editor, fileName: string)
    requires '\\' in fileName
    ensures ImportLayers(e, fileName).fileName != EscapeBackslashes(fileName)
  {
    EscapeLength(fileName);
  }

  /** The selection of a call: all_signals when `all` is set, else the names given. */
  function Selected(e: Editor, sig: seq<string>, all: bool): seq<string> {
    if all then Names(e.allSignals) else sig
  }

  /** move(dx, dy, dz, sig, all): refuses an empty selection, and moves even by a zero vector. */
  function Move(e: Editor, dx: string, dy: string, dz: string, sig: seq<string>, all: bool): (r: Result<Statement>)
    ensures r.Err? <==> Selected(e, sig, all) == []
    ensures r.Err? ==> r.error == NoSignals
    ensures r.Ok? ==> r.value == Statement.Move(Selection(Selected(e, sig, all)), dx, dy, dz)
  {
    var selected := Selected(e, sig, all);
    if selected != [] then Ok(Statement.Move(Selection(selected), dx, dy, dz)) else Err(NoSignals)
  }

  /** thicken(thickness, sig, all): refuses an empty selection. */
  function Thicken(e: Editor, thickness: string, sig: seq<string>, all: bool): (r: Result<Statement>)
    ensures r.Err? <==> Selected(e, sig, all) == []
    ensures r.Err? ==> r.error == NoSignals
    ensures r.Ok? ==> r.value == ThickenSheet(Selection(Selected(e, sig, all)), thickness)
  {
    var selected := Selected(e, sig, all);
    if selected != [] then Ok(ThickenSheet(Selection(selected), thickness)) else Err(NoSignals)
  }

  /** assign_material(material, sig, all): nothing (None) for an empty selection, without raising. */
  function AssignMaterialTo(e: Editor, material: string, sig: seq<string>, all: bool): (r: Option<Statement>)
    ensures r.None? <==> Selected(e, sig, all) == []
    ensures r.Some? ==> r.value == AssignMaterial(Selection(Selected(e, sig, all)), material)
  {
    var selected := Selected(e, sig, all);
    if selected != [] then Some(AssignMaterial(Selection(selected), material)) else None
  }

  /**
   * The three variants disagree on a zero vector: maxpy and MaxGeo write
   * nothing for ["0", "0", "0"], the editor writes a Move for any non-empty
   * selection.
   */
  lemma ZeroVectorStillMoves(e: Editor, sig: seq<string>)
    requires sig != []
    ensures Move(e, "0", "0", "0", sig, false) == Ok(Statement.Move(Selection(sig), "0", "0", "0"))
    ensures Geo.Move(sig, ZeroVector).stmts == []
  {
  }

  /** An empty selection: move and thicken raise, assign_material returns nothing, maxpy's thicken still writes. */
  lemma EmptySelection(e: Editor, thickness: string, material: string)
    ensures Move(e, "1", "1", "1", [], false) == Err(NoSignals)
    ensures Thicken(e, thickness, [], false) == Err(NoSignals)
    ensures AssignMaterialTo(e, material, [], false) == None
    ensures |Geo.Thicken([], thickness)| == 1
  {
  }

  /** An editor built from no elements has nothing to select even with `all`. */
  lemma NothingToSelect(layers: seq<(string, int)>, thickness: string)
    requires forall i :: 0 <= i < |layers| ==> layers[i].1 <= 0
    ensures Thicken(New(layers), thickness, [], true) == Err(NoSignals)
  {
    var decls := Decls(layers);
    var e := New(layers);
    assert |Expand(decls)| == 0 by {
      NoCountsNoNames(decls);
    }
    SubPartitionedFresh(decls);
    assert |e.allSignals| == 0;
  }

  lemma {:induction false} NoCountsNoNames(decls: seq<(Layer, int)>)
    requires forall i :: 0 <= i < |decls| ==> decls[i].1 <= 0
    ensures |Expand(decls)| == 0
  {
    if decls != [] {
      NoCountsNoNames(decls[..|decls| - 1]);
    }
  }

  /** The editor's flat list never holds more elements than were named. */
  lemma SubPartitionedFresh(decls: seq<(Layer, int)>)
    ensures |Flatten(Values(DeclareReset(Fresh, decls).signals))| <= |Expand(decls)|
  {
    DeclareResetSubPartitioned(Fresh, decls);
    var r := DeclareReset(Fresh, decls);
    var a := multiset(Flatten(Values(r.signals)));
    var b := multiset(r.allSignals);
    assert |a| <= |b| by {
      assert b == a + (b - a);
    }
  }

  /** zero(): all_signals moved by the runtime bounding box corner. */
  function Zero(e: Editor): Statement {
    MoveToOrigin(Selection(Names(e.allSignals)))
  }

  /** make_vacuum(): a vacuum box named "vacuum" above the model. */
  function MakeVacuum(): Statement {
    CreateBox("vacuum", "vacuum")
  }

  /** subtract(): every signal cut out of the vacuum box, the signals kept. */
  function Subtract(e: Editor): Statement {
    Statement.Subtract("vacuum", Selection(Names(e.allSignals)), true)
  }

  /**
   * subtract cuts from the box make_vacuum creates, and zero and subtract
   * both select the whole flat list: with comma-free layer names, splitting
   * either selection gives all_signals' names back.
   */
  lemma WholeModelSelections(e: Editor)
    requires |e.allSignals| >= 1
    requires forall i :: 0 <= i < |e.allSignals| ==> e.allSignals[i].layer.StrLayer? && ',' !in e.allSignals[i].layer.s
    ensures Subtract(e).blankParts == MakeVacuum().name
    ensures Subtract(e).keepOriginals
    ensures Split(Subtract(e).toolParts, ',') == Names(e.allSignals)
    ensures Split(Zero(e).selection, ',') == Names(e.allSignals)
  {
    var names := Names(e.allSignals);
    forall i | 0 <= i < |names|
      ensures ',' !in names[i]
    {
      var s := e.allSignals[i];
      StrCharacters(s.ordinal);
      assert names[i] == "Signal" + s.layer.s + "_" + Str(s.ordinal);
    }
    SelectionSplits(names);
  }
}
