/**
 * The signal namer shared by the three generators. The simulator names the
 * k-th element it imports `Signal<layer>_<k>`, counting k from 1 over all
 * layers in declaration order; the generators predict those names, keeping a
 * layer -> names dict and a flat list of every name minted.
 */
module Naming {
  import opened Outcomes
  import opened Seqs
  import opened Text
  import opened Dicts

  /** A layer id used as a dict key: Python ints in two generators, strs in the editor. */
  datatype Layer = IntLayer(n: int) | StrLayer(s: string)

  /** Python's str(layer). */
  function Render(layer: Layer): string {
    match layer
    case IntLayer(n) => Str(n)
    case StrLayer(s) => s
  }

  /** One imported element: the layer it came from and the counter value it was named with. */
  datatype Signal = Signal(layer: Layer, ordinal: int)

  /** 'Signal' + str(layer) + '_' + str(k) */
  function Name(s: Signal): string {
    "Signal" + Render(s.layer) + "_" + Str(s.ordinal)
  }

  /** The names of a list of signals, as the script spells them. */
  function Names(xs: seq<Signal>): (r: seq<string>)
    ensures |r| == |xs|
    ensures forall i :: 0 <= i < |xs| ==> r[i] == Name(xs[i])
  {
    seq(|xs|, i requires 0 <= i < |xs| => Name(xs[i]))
  }

  /** The ordinal a signal name ends with: the number after its last underscore. */
  function Ordinal(name: string): int {
    ParseInt(AfterLast(name, '_'))
  }

  /** A name gives its ordinal back whatever the layer's text contains. */
  lemma OrdinalOfName(s: Signal)
    ensures Ordinal(Name(s)) == s.ordinal
  {
    StrCharacters(s.ordinal);
    assert Name(s) == ("Signal" + Render(s.layer)) + ['_'] + Str(s.ordinal);
    AfterLastOf("Signal" + Render(s.layer), '_', Str(s.ordinal));
    StrRoundTrip(s.ordinal);
  }

  /** Signals with different ordinals get different names. */
  lemma NamesDiffer(a: Signal, b: Signal)
    requires a.ordinal != b.ordinal
    ensures Name(a) != Name(b)
  {
    OrdinalOfName(a);
    OrdinalOfName(b);
  }

  /** The signals of a declaration (layer, count) whose first ordinal is c; range(count) is empty for count <= 0. */
  function Block(layer: Layer, count: int, c: int): (r: seq<Signal>)
    ensures |r| == Max0(count)
  {
    seq(Max0(count), j => Signal(layer, c + j))
  }

  lemma BlockSnoc(layer: Layer, k: int, c: int)
    requires k > 0
    ensures Block(layer, k, c) == Block(layer, k - 1, c) + [Signal(layer, c + k - 1)]
  {
  }

  /** The layer of each element to be named, in naming order. */
  function Expand(decls: seq<(Layer, int)>): seq<Layer> {
    if decls == [] then []
    else
      var d := decls[|decls| - 1];
      Expand(decls[..|decls| - 1]) + Repeat(d.0, d.1)
  }

  /** Every signal minted for a declaration list when the counter stands at c. */
  function MintedNames(decls: seq<(Layer, int)>, c: int): (r: seq<Signal>)
    ensures |r| == |Expand(decls)|
  {
    if decls == [] then []
    else
      var init := decls[..|decls| - 1];
      var d := decls[|decls| - 1];
      MintedNames(init, c) + Block(d.0, d.1, c + |Expand(init)|)
  }

  /** The j-th signal minted overall carries ordinal c + j, whatever layer it belongs to. */
  lemma {:induction false} MintedNamesAt(decls: seq<(Layer, int)>, c: int)
    ensures forall j :: 0 <= j < |Expand(decls)| ==> MintedNames(decls, c)[j] == Signal(Expand(decls)[j], c + j)
  {
    if decls != [] {
      var init := decls[..|decls| - 1];
      MintedNamesAt(init, c);
    }
  }

  /** The signals minted for one layer, over all its declarations, in order. */
  function NamesFor(decls: seq<(Layer, int)>, layer: Layer, c: int): seq<Signal> {
    if decls == [] then []
    else
      var init := decls[..|decls| - 1];
      var d := decls[|decls| - 1];
      NamesFor(init, layer, c) + (if d.0 == layer then Block(d.0, d.1, c + |Expand(init)|) else [])
  }

  /** The signals minted for the last declaration of a layer, None if it is not declared. */
  function LastBlock(decls: seq<(Layer, int)>, layer: Layer, c: int): Option<seq<Signal>> {
    if decls == [] then None
    else
      var init := decls[..|decls| - 1];
      var d := decls[|decls| - 1];
      if d.0 == layer then Some(Block(d.0, d.1, c + |Expand(init)|)) else LastBlock(init, layer, c)
  }

  /** The naming state: layer -> names, all names, and the next ordinal. */
  datatype Namer = Namer(signals: Dict<Layer, seq<Signal>>, allSignals: seq<Signal>, count: int)

  /** The state every generator starts from: no names, counter at 1. */
  const Fresh: Namer := Namer([], [], 1)

  /** One pass of the naming loop: name the element with the counter, append it to its layer's list and to the flat list. */
  function Mint(n: Namer, layer: Layer): (r: Namer)
    ensures r.count == n.count + 1
  {
    var s := Signal(layer, n.count);
    Namer(Put(n.signals, layer, Lookup(n.signals, layer).GetOr([]) + [s]), n.allSignals + [s], n.count + 1)
  }

  /** `for _ in range(k)` over Mint, as the generators write it. */
  function MintLoop(n: Namer, layer: Layer, k: int): Namer
    decreases k
  {
    if k <= 0 then n else Mint(MintLoop(n, layer, k - 1), layer)
  }

  /** The effect of the naming loop in one step: the block of k signals appended to the layer's list and the flat list. */
  function MintMany(n: Namer, layer: Layer, k: int): (r: Namer)
    ensures r.count == n.count + Max0(k)
    ensures k <= 0 ==> r == n
  {
    if k <= 0 then n
    else
      var b := Block(layer, k, n.count);
      Namer(Put(n.signals, layer, Lookup(n.signals, layer).GetOr([]) + b), n.allSignals + b, n.count + k)
  }

  /** One more pass of the loop extends the block by the next signal. */
  lemma MintAfterMintMany(n: Namer, layer: Layer, k: int)
    requires k > 0
    ensures Mint(MintMany(n, layer, k - 1), layer) == MintMany(n, layer, k)
  {
    BlockSnoc(layer, k, n.count);
    var m := MintMany(n, layer, k - 1);
    var before := Lookup(n.signals, layer).GetOr([]);
    var x := Signal(layer, n.count + k - 1);
    var b := Block(layer, k - 1, n.count);
    if k == 1 {
      assert b == [];
      assert before + Block(layer, k, n.count) == before + [x];
    } else {
      LookupPut(n.signals, layer, before + b, layer);
      PutPut(n.signals, layer, before + b, (before + b) + [x]);
      assert (before + b) + [x] == before + Block(layer, k, n.count);
      assert m.allSignals + [x] == n.allSignals + Block(layer, k, n.count);
    }
  }

  /** Running the loop k times is the one-step effect. */
  lemma {:induction false} MintLoopIsMintMany(n: Namer, layer: Layer, k: int)
    ensures MintLoop(n, layer, k) == MintMany(n, layer, k)
    decreases k
  {
    if k > 0 {
      MintLoopIsMintMany(n, layer, k - 1);
      MintAfterMintMany(n, layer, k);
    }
  }

  /** k > 0 elements extend their layer's list by the block of k signals and touch no other layer. */
  lemma LookupMintMany(n: Namer, layer: Layer, k: int, l: Layer)
    ensures Lookup(MintMany(n, layer, k).signals, l) ==
      if l == layer && k > 0 then Some(Lookup(n.signals, layer).GetOr([]) + Block(layer, k, n.count))
      else Lookup(n.signals, l)
  {
    if k > 0 {
      LookupPut(n.signals, layer, Lookup(n.signals, layer).GetOr([]) + Block(layer, k, n.count), l);
    }
  }

  /** A layer's first element adds the layer at the end of the dict; later ones keep the order. */
  lemma KeysMintMany(n: Namer, layer: Layer, k: int)
    ensures Keys(MintMany(n, layer, k).signals) ==
      if k > 0 && Lookup(n.signals, layer).None? then Keys(n.signals) + [layer] else Keys(n.signals)
  {
    if k > 0 {
      KeysPut(n.signals, layer, Lookup(n.signals, layer).GetOr([]) + Block(layer, k, n.count));
    }
  }

  /** Declarations that add to a layer's existing list (maxpy's add_layers). */
  function DeclareAppend(n: Namer, decls: seq<(Layer, int)>): (r: Namer)
    ensures r.count == n.count + |Expand(decls)|
    ensures r.allSignals == n.allSignals + MintedNames(decls, n.count)
  {
    if decls == [] then n
    else
      var init := decls[..|decls| - 1];
      var d := decls[|decls| - 1];
      var m := DeclareAppend(n, init);
      assert |Expand(decls)| == |Expand(init)| + Max0(d.1);
      assert MintedNames(decls, n.count) == MintedNames(init, n.count) + Block(d.0, d.1, m.count);
      MintMany(m, d.0, d.1)
  }

  /** After add_layers, a layer's list is its old list followed by every name minted for it. */
  lemma {:induction false} LookupDeclareAppend(n: Namer, decls: seq<(Layer, int)>, l: Layer)
    ensures Lookup(DeclareAppend(n, decls).signals, l).GetOr([]) == Lookup(n.signals, l).GetOr([]) + NamesFor(decls, l, n.count)
    ensures Lookup(DeclareAppend(n, decls).signals, l).Some? <==> Lookup(n.signals, l).Some? || NamesFor(decls, l, n.count) != []
  {
    if decls != [] {
      var init := decls[..|decls| - 1];
      var d := decls[|decls| - 1];
      LookupDeclareAppend(n, init, l);
      var m := DeclareAppend(n, init);
      assert DeclareAppend(n, decls) == MintMany(m, d.0, d.1);
      LookupMintMany(m, d.0, d.1, l);
      assert m.count == n.count + |Expand(init)|;
      var old_ := Lookup(n.signals, l).GetOr([]);
      var earlier := NamesFor(init, l, n.count);
      if d.0 == l && d.1 > 0 {
        var b := Block(d.0, d.1, m.count);
        assert NamesFor(decls, l, n.count) == earlier + b;
        assert Lookup(DeclareAppend(n, decls).signals, l) == Some((old_ + earlier) + b);
        assert (old_ + earlier) + b == old_ + (earlier + b);
      } else {
        assert Block(d.0, d.1, m.count) == [] || d.0 != l;
        assert NamesFor(decls, l, n.count) == earlier;
        assert Lookup(DeclareAppend(n, decls).signals, l) == Lookup(m.signals, l);
      }
    }
  }

  /** Restart a layer's list: the layer maps to no names, keeping its place in the dict. */
  function Reset(n: Namer, layer: Layer): Namer {
    n.(signals := Put(n.signals, layer, []))
  }

  /** Declarations that restart a layer's list each time it is declared (maxwell.py, the editor). */
  function DeclareReset(n: Namer, decls: seq<(Layer, int)>): (r: Namer)
    ensures r.count == n.count + |Expand(decls)|
    ensures r.allSignals == n.allSignals + MintedNames(decls, n.count)
  {
    if decls == [] then n
    else
      var init := decls[..|decls| - 1];
      var d := decls[|decls| - 1];
      var m := DeclareReset(n, init);
      assert |Expand(decls)| == |Expand(init)| + Max0(d.1);
      assert MintedNames(decls, n.count) == MintedNames(init, n.count) + Block(d.0, d.1, m.count);
      MintMany(Reset(m, d.0), d.0, d.1)
  }

  /** After the reset style, a declared layer lists only the names of its last declaration. */
  lemma {:induction false} LookupDeclareReset(n: Namer, decls: seq<(Layer, int)>, l: Layer)
    ensures Lookup(DeclareReset(n, decls).signals, l) ==
      if LastBlock(decls, l, n.count).Some? then LastBlock(decls, l, n.count) else Lookup(n.signals, l)
  {
    if decls != [] {
      var init := decls[..|decls| - 1];
      var d := decls[|decls| - 1];
      LookupDeclareReset(n, init, l);
      var m := DeclareReset(n, init);
      LookupPut(m.signals, d.0, [], l);
      LookupMintMany(Reset(m, d.0), d.0, d.1, l);
      LookupPut(m.signals, d.0, [], d.0);
      assert m.count == n.count + |Expand(init)|;
      assert [] + Block(d.0, d.1, m.count) == Block(d.0, d.1, m.count);
    }
  }

  /** Every signal carries its position in the flat list as its ordinal, and the counter is one past the last. */
  ghost predicate Numbered(n: Namer) {
    && n.count == |n.allSignals| + 1
    && forall j :: 0 <= j < |n.allSignals| ==> n.allSignals[j].ordinal == j + 1
  }

  /** Numbered signals have pairwise different names. */
  lemma NumberedNamesDistinct(n: Namer)
    requires Numbered(n)
    ensures Distinct(n.allSignals)
    ensures Distinct(Names(n.allSignals))
  {
    var names := Names(n.allSignals);
    forall i, j | 0 <= i < j < |names|
      ensures names[i] != names[j]
    {
      NamesDiffer(n.allSignals[i], n.allSignals[j]);
    }
  }

  /** The counter is never reset: both declaration styles keep every signal numbered by its position. */
  lemma DeclareKeepsNumbered(n: Namer, decls: seq<(Layer, int)>)
    requires Numbered(n)
    ensures Numbered(DeclareAppend(n, decls))
    ensures Numbered(DeclareReset(n, decls))
  {
    MintedNamesAt(decls, n.count);
    var all := n.allSignals + MintedNames(decls, n.count);
    assert forall j :: |n.allSignals| <= j < |all| ==> all[j] == MintedNames(decls, n.count)[j - |n.allSignals|];
  }

  /** The flat list and the per-layer lists hold the same names, each as often. */
  ghost predicate Partitioned(n: Namer) {
    multiset(n.allSignals) == multiset(Flatten(Values(n.signals)))
  }

  /** The per-layer lists hold no name the flat list lacks. */
  ghost predicate SubPartitioned(n: Namer) {
    multiset(Flatten(Values(n.signals))) <= multiset(n.allSignals)
  }

  /** The effect of `d[k] = v` on the multiset of all listed names: the old list out, the new one in. */
  lemma {:induction false} PutFlatten(d: Dict<Layer, seq<Signal>>, k: Layer, v: seq<Signal>)
    ensures multiset(Flatten(Values(Put(d, k, v)))) + multiset(Lookup(d, k).GetOr([]))
         == multiset(Flatten(Values(d))) + multiset(v)
  {
    if d != [] {
      var r := Put(d, k, v);
      assert Flatten(Values(d)) == d[0].1 + Flatten(Values(d[1..]));
      if d[0].0 == k {
        assert r[1..] == d[1..];
        assert Flatten(Values(r)) == v + Flatten(Values(d[1..]));
      } else {
        assert r[1..] == Put(d[1..], k, v);
        assert Flatten(Values(r)) == d[0].1 + Flatten(Values(Put(d[1..], k, v)));
        PutFlatten(d[1..], k, v);
        assert Lookup(d, k) == Lookup(d[1..], k);
        assert multiset(Flatten(Values(r))) == multiset(d[0].1) + multiset(Flatten(Values(Put(d[1..], k, v))));
        assert multiset(Flatten(Values(d))) == multiset(d[0].1) + multiset(Flatten(Values(d[1..])));
        var a, b, c, g := multiset(d[0].1), multiset(Flatten(Values(Put(d[1..], k, v)))), multiset(Flatten(Values(d[1..]))), multiset(Lookup(d, k).GetOr([]));
        assert b + g == c + multiset(v);
        assert (a + b) + g == a + (b + g);
      }
    }
  }

  /** k elements of one layer add their block once to the flat list and once to the per-layer lists. */
  lemma MintManyListed(n: Namer, layer: Layer, k: int)
    ensures multiset(Flatten(Values(MintMany(n, layer, k).signals))) == multiset(Flatten(Values(n.signals))) + multiset(Block(layer, k, n.count))
    ensures multiset(MintMany(n, layer, k).allSignals) == multiset(n.allSignals) + multiset(Block(layer, k, n.count))
  {
    var b := Block(layer, k, n.count);
    if k > 0 {
      var before := Lookup(n.signals, layer).GetOr([]);
      PutFlatten(n.signals, layer, before + b);
      var listed, listed' := multiset(Flatten(Values(n.signals))), multiset(Flatten(Values(MintMany(n, layer, k).signals)));
      assert listed' + multiset(before) == (listed + multiset(b)) + multiset(before);
      MultisetCancel(listed', listed + multiset(b), multiset(before));
    } else {
      assert b == [];
    }
  }

  lemma MintManyPartitioned(n: Namer, layer: Layer, k: int)
    requires Partitioned(n)
    ensures Partitioned(MintMany(n, layer, k))
  {
    MintManyListed(n, layer, k);
  }

  lemma MintManySubPartitioned(n: Namer, layer: Layer, k: int)
    requires SubPartitioned(n)
    ensures SubPartitioned(MintMany(n, layer, k))
  {
    MintManyListed(n, layer, k);
    MultisetGrow(multiset(Flatten(Values(n.signals))), multiset(n.allSignals), multiset(Block(layer, k, n.count)));
  }

  /** maxpy's add_layers keeps every minted name in exactly one layer list. */
  lemma {:induction false} DeclareAppendPartitioned(n: Namer, decls: seq<(Layer, int)>)
    requires Partitioned(n)
    ensures Partitioned(DeclareAppend(n, decls))
  {
    if decls != [] {
      var init := decls[..|decls| - 1];
      var d := decls[|decls| - 1];
      DeclareAppendPartitioned(n, init);
      MintManyPartitioned(DeclareAppend(n, init), d.0, d.1);
    }
  }

  /** Resetting a list can only drop names from the per-layer view, never invent one. */
  lemma {:induction false} DeclareResetSubPartitioned(n: Namer, decls: seq<(Layer, int)>)
    requires SubPartitioned(n)
    ensures SubPartitioned(DeclareReset(n, decls))
  {
    if decls != [] {
      var init := decls[..|decls| - 1];
      var d := decls[|decls| - 1];
      DeclareResetSubPartitioned(n, init);
      var m := DeclareReset(n, init);
      var reset := Reset(m, d.0);
      PutFlatten(m.signals, d.0, []);
      var listed, listed', dropped := multiset(Flatten(Values(m.signals))), multiset(Flatten(Values(reset.signals))), multiset(Lookup(m.signals, d.0).GetOr([]));
      assert listed' + dropped == listed;
      assert listed' <= listed;
      assert SubPartitioned(reset);
      MintManySubPartitioned(reset, d.0, d.1);
      assert DeclareReset(n, decls) == MintMany(reset, d.0, d.1);
    }
  }

  /** With add_layers, every name ever minted sits in exactly one layer's list, exactly once. */
  lemma AppendNamesListedOnce(n: Namer, x: Signal)
    requires Numbered(n) && Partitioned(n)
    requires x in n.allSignals
    ensures multiset(Flatten(Values(n.signals)))[x] == 1
  {
    NumberedNamesDistinct(n);
    DistinctOnce(n.allSignals, x);
  }

  lemma MintManyIsDict(n: Namer, layer: Layer, k: int)
    requires IsDict(n.signals)
    ensures IsDict(MintMany(n, layer, k).signals)
  {
    if k > 0 {
      PutIsDict(n.signals, layer, Lookup(n.signals, layer).GetOr([]) + Block(layer, k, n.count));
    }
  }

  lemma {:induction false} DeclareAppendIsDict(n: Namer, decls: seq<(Layer, int)>)
    requires IsDict(n.signals)
    ensures IsDict(DeclareAppend(n, decls).signals)
  {
    if decls != [] {
      var init := decls[..|decls| - 1];
      DeclareAppendIsDict(n, init);
      MintManyIsDict(DeclareAppend(n, init), decls[|decls| - 1].0, decls[|decls| - 1].1);
    }
  }

  lemma {:induction false} DeclareResetIsDict(n: Namer, decls: seq<(Layer, int)>)
    requires IsDict(n.signals)
    ensures IsDict(DeclareReset(n, decls).signals)
  {
    if decls != [] {
      var init := decls[..|decls| - 1];
      var d := decls[|decls| - 1];
      DeclareResetIsDict(n, init);
      PutIsDict(DeclareReset(n, init).signals, d.0, []);
      MintManyIsDict(Reset(DeclareReset(n, init), d.0), d.0, d.1);
    }
  }

  /** The layers of positive count, in declaration order. */
  function PositiveLayers(decls: seq<(Layer, int)>): seq<Layer> {
    if decls == [] then []
    else
      var d := decls[|decls| - 1];
      PositiveLayers(decls[..|decls| - 1]) + (if d.1 > 0 then [d.0] else [])
  }

  lemma {:induction false} PositiveLayersAreKeys(decls: seq<(Layer, int)>, l: Layer)
    ensures l in PositiveLayers(decls) ==> Lookup(decls, l).Some?
  {
    if decls != [] {
      var init := decls[..|decls| - 1];
      var d := decls[|decls| - 1];
      assert decls == init + [d];
      LookupSnoc(init, d.0, d.1, l);
      PositiveLayersAreKeys(init, l);
    }
  }

  /** Starting fresh, add_layers lists exactly the layers with a positive count, in dict order. */
  lemma {:induction false} FreshAppendKeys(decls: seq<(Layer, int)>)
    requires IsDict(decls)
    ensures Keys(DeclareAppend(Fresh, decls).signals) == PositiveLayers(decls)
  {
    if decls != [] {
      var init := decls[..|decls| - 1];
      var d := decls[|decls| - 1];
      LastKeyIsNew(decls);
      FreshAppendKeys(init);
      var m := DeclareAppend(Fresh, init);
      PositiveLayersAreKeys(init, d.0);
      LookupIffKey(m.signals, d.0);
      KeysMintMany(m, d.0, d.1);
    }
  }

  /**
   * Starting fresh with distinct layer ids, the reset style lists every layer
   * once in declaration order, and its lists, concatenated, are exactly the
   * names minted, in minting order.
   */
  lemma {:induction false} FreshResetLayout(decls: seq<(Layer, int)>)
    requires IsDict(decls)
    ensures Keys(DeclareReset(Fresh, decls).signals) == Keys(decls)
    ensures Flatten(Values(DeclareReset(Fresh, decls).signals)) == MintedNames(decls, 1)
  {
    if decls != [] {
      var init := decls[..|decls| - 1];
      var d := decls[|decls| - 1];
      LastKeyIsNew(decls);
      FreshResetLayout(init);
      var m := DeclareReset(Fresh, init);
      assert decls == init + [d];
      ValuesSnoc(init, d.0, d.1);
      LookupIffKey(m.signals, d.0);
      var b := Block(d.0, d.1, m.count);
      var reset := Reset(m, d.0);
      var r := MintMany(reset, d.0, d.1);
      var expected := Put(m.signals, d.0, b);
      PutNew(m.signals, d.0, b);
      DeclareResetIsDict(Fresh, decls);
      DeclareResetIsDict(Fresh, init);
      PutIsDict(m.signals, d.0, b);
      LookupPut(m.signals, d.0, [], d.0);
      forall l
        ensures Lookup(r.signals, l) == Lookup(expected, l)
      {
        LookupMintMany(reset, d.0, d.1, l);
        LookupPut(m.signals, d.0, [], l);
        LookupPut(m.signals, d.0, b, l);
        assert [] + b == b;
      }
      KeysMintMany(reset, d.0, d.1);
      KeysPut(m.signals, d.0, []);
      KeysPut(m.signals, d.0, b);
      Extensionality(r.signals, expected);
      ValuesSnoc(m.signals, d.0, b);
      FlattenSnoc(Values(m.signals), b);
    }
  }
}
