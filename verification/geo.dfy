/**
 * The geometry statements maxpy.Maxwell and maxwell.MaxGeo emit (the two
 * copies share their code), and the per-layer loop both variants run over
 * the layer -> signals dict while looking each layer up in the conventions.
 */
module Geo {
  import opened Outcomes
  import opened Seqs
  import opened Text
  import opened Dicts
  import opened Naming
  import opened Conventions
  import opened Script

  /** The selection string of a statement: the names joined by commas. */
  function Selection(names: seq<string>): string {
    Join(names, ',')
  }

  /** A selection of names without commas reads back as the same names. */
  lemma SelectionSplits(names: seq<string>)
    requires |names| >= 1
    requires forall i :: 0 <= i < |names| ==> ',' !in names[i]
    ensures Split(Selection(names), ',') == names
  {
    SplitOfJoin(names, ',');
  }

  /** A selection names exactly the given names, whenever there is at least one and none holds a comma. */
  predicate ReadsBack(selection: string, names: seq<string>) {
    |names| >= 1 && (forall i :: 0 <= i < |names| ==> ',' !in names[i]) ==> Split(selection, ',') == names
  }

  /** Every selection reads back as its names when the names allow it. */
  lemma SelectionReadsBack(names: seq<string>)
    ensures ReadsBack(Selection(names), names)
  {
    if |names| >= 1 && forall i :: 0 <= i < |names| ==> ',' !in names[i] {
      SelectionSplits(names);
    }
  }

  /** Names of int-layer signals never hold a comma, so their selection always splits back. */
  lemma IntNamesSplit(xs: seq<Signal>)
    requires |xs| >= 1
    requires forall i :: 0 <= i < |xs| ==> xs[i].layer.IntLayer?
    ensures Split(Selection(Names(xs)), ',') == Names(xs)
  {
    var names := Names(xs);
    forall i | 0 <= i < |names|
      ensures ',' !in names[i]
    {
      StrCharacters(xs[i].layer.n);
      StrCharacters(xs[i].ordinal);
      assert names[i] == "Signal" + Str(xs[i].layer.n) + "_" + Str(xs[i].ordinal);
    }
    SelectionSplits(names);
  }

  /** The vector move treats as "no move". */
  const ZeroVector: seq<string> := ["0", "0", "0"]

  /**
   * move(signals, vector): returns -1 and writes nothing for exactly the zero
   * vector; otherwise one Move whose components are the vector's first three
   * entries, verbatim (a shorter vector raises IndexError while the text is built).
   */
  function Move(names: seq<string>, vector: seq<string>): (r: Emission)
    ensures r.error.Some? <==> vector != ZeroVector && |vector| < 3
    ensures r.error.Some? ==> r == Emission([], Some(IndexError))
    ensures vector == ZeroVector ==> r.stmts == []
    ensures vector != ZeroVector && |vector| >= 3 ==>
      r.stmts == [Statement.Move(Selection(names), vector[0], vector[1], vector[2])]
  {
    if vector == ZeroVector then Emission([], None)
    else if |vector| < 3 then Emission([], Some(IndexError))
    else Emission([Statement.Move(Selection(names), vector[0], vector[1], vector[2])], None)
  }

  /** A vertical move by a height: skipped exactly when the height is "0". */
  lemma LiftSkipsOnlyZero(names: seq<string>, height: string)
    ensures Move(names, ["0", "0", height]).error.None?
    ensures Move(names, ["0", "0", height]).stmts == [] <==> height == "0"
  {
    assert (["0", "0", height] == ZeroVector) == (height == "0");
  }

  /** thicken(signals, thickness): no guard, even an empty selection is written. */
  function Thicken(names: seq<string>, thickness: string): (r: seq<Statement>)
    ensures |r| == 1 && r[0].ThickenSheet? && r[0].thickness == thickness
    ensures ReadsBack(r[0].selection, names)
  {
    SelectionReadsBack(names);
    [ThickenSheet(Selection(names), thickness)]
  }

  /** assignMaterial(signals, material): no guard either. */
  function AssignTo(names: seq<string>, material: string): (r: seq<Statement>)
    ensures |r| == 1 && r[0].AssignMaterial? && r[0].material == material
    ensures ReadsBack(r[0].selection, names)
  {
    SelectionReadsBack(names);
    [AssignMaterial(Selection(names), material)]
  }

  /**
   * `for layer in signals: ... layerGuide[layer] ...`: the statements `step`
   * makes for each layer in dict order, stopping with KeyError at the first
   * layer that has no convention (after the earlier layers' statements).
   */
  function ForEachLayer(signals: Dict<Layer, seq<Signal>>, guide: Guide,
                        step: (seq<Signal>, Convention) -> seq<Statement>): Emission
  {
    if signals == [] then Emission([], None)
    else
      match Lookup(guide, signals[0].0)
      case None => Emission([], Some(KeyError))
      case Some(c) =>
        var rest := ForEachLayer(signals[1..], guide, step);
        Emission(step(signals[0].1, c) + rest.stmts, rest.error)
  }

  /** The number of leading layers that have a convention: the first missing one, or all. */
  function Covered(signals: Dict<Layer, seq<Signal>>, guide: Guide): (r: nat)
    ensures r <= |signals|
    ensures forall i :: 0 <= i < r ==> Lookup(guide, signals[i].0).Some?
    ensures r < |signals| ==> Lookup(guide, signals[r].0).None?
  {
    if signals == [] || Lookup(guide, signals[0].0).None? then 0
    else 1 + Covered(signals[1..], guide)
  }

  /** The statements of the covered layers, in dict order. */
  function CoveredSteps(signals: Dict<Layer, seq<Signal>>, guide: Guide,
                        step: (seq<Signal>, Convention) -> seq<Statement>): seq<seq<Statement>>
  {
    var n := Covered(signals, guide);
    seq(n, i requires 0 <= i < n => step(signals[i].1, Lookup(guide, signals[i].0).value))
  }

  /**
   * The loop raises KeyError exactly when some layer lacks a convention, and
   * writes the steps of every layer before the first such one.
   */
  lemma {:induction false} ForEachLayerSpec(signals: Dict<Layer, seq<Signal>>, guide: Guide,
                                            step: (seq<Signal>, Convention) -> seq<Statement>)
    ensures ForEachLayer(signals, guide, step).error ==
      if Covered(signals, guide) == |signals| then None else Some(KeyError)
    ensures ForEachLayer(signals, guide, step).stmts == Flatten(CoveredSteps(signals, guide, step))
  {
    if signals != [] && Lookup(guide, signals[0].0).Some? {
      ForEachLayerSpec(signals[1..], guide, step);
      var all := CoveredSteps(signals, guide, step);
      var rest := CoveredSteps(signals[1..], guide, step);
      assert all == [step(signals[0].1, Lookup(guide, signals[0].0).value)] + rest;
      assert all[1..] == rest;
    } else if signals != [] {
      assert CoveredSteps(signals, guide, step) == [];
    }
  }
}
