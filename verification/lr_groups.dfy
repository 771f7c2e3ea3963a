/**
 * The learning-rate grouping policy `tune_lrs`.
 *
 * The model's parameters, identified by their dotted names in registration
 * order, are split into the names containing `bias` and the names containing
 * `weight`. Each list is cut at the fixed positions 0:10, 10:13 and 13:18, plus
 * its last element, giving eight optimizer groups with fixed learning-rate
 * multipliers; only the weight groups get weight decay.
 */
module LrGroups {
  import opened PySemantics
  import MsNet

  /** An optimizer parameter group: its parameters (by name), learning rate and weight decay. */
  datatype ParamGroup = ParamGroup(params: seq<string>, lr: real, weightDecay: real)

  /** Which of the two name lists a parameter is taken from. */
  datatype Kind = Weight | Bias {
    function Key(): string {
      if Weight? then "weight" else "bias"
    }

    /** Weight groups sit at even positions of the group list, bias groups at odd ones. */
    function Offset(): nat {
      if Weight? then 0 else 1
    }
  }

  /** The learning-rate multipliers of the eight groups, in order. */
  const LrMultipliers: seq<real> := [1.0, 2.0, 100.0, 200.0, 0.01, 0.02, 0.001, 0.002]

  /** The boundaries of the three sliced blocks of each list: [0,10), [10,13) and [13,18). */
  const BlockStarts: seq<nat> := [0, 10, 13]
  const BlockEnds: seq<nat> := [10, 13, 18]

  predicate NoDuplicates<T(==)>(s: seq<T>) {
    forall i, j :: 0 <= i < j < |s| ==> s[i] != s[j]
  }

  /** The names kept by `keep`, in their original order. */
  function Filter(names: seq<string>, keep: string -> bool): (r: seq<string>)
    decreases |names|
    ensures |r| <= |names|
    ensures forall x :: x in r <==> x in names && keep(x)
    ensures NoDuplicates(names) ==> NoDuplicates(r)
  {
    if names == [] then []
    else
      var rest := Filter(names[..|names| - 1], keep);
      var last := names[|names| - 1];
      assert names == names[..|names| - 1] + [last];
      if keep(last) then rest + [last] else rest
  }

  lemma {:induction false} FilterAppend(xs: seq<string>, ys: seq<string>, keep: string -> bool)
    ensures Filter(xs + ys, keep) == Filter(xs, keep) + Filter(ys, keep)
    decreases |ys|
  {
    if ys == [] {
      assert xs + ys == xs;
    } else {
      var init := ys[..|ys| - 1];
      assert (xs + ys)[..|xs + ys| - 1] == xs + init;
      assert (xs + ys)[|xs + ys| - 1] == ys[|ys| - 1];
      FilterAppend(xs, init, keep);
    }
  }

  /** The test `name.find(key) != -1` for the key of `kind`. */
  function HasKey(kind: Kind): (test: string -> bool)
    ensures forall name :: test(name) <==> Contains(name, kind.Key())
  {
    name => Find(name, kind.Key()) != -1
  }

  /** `[name for name in names if name.find(key) != -1]`. */
  function Select(names: seq<string>, kind: Kind): (r: seq<string>)
    ensures |r| <= |names|
    ensures forall x :: x in r <==> x in names && Contains(x, kind.Key())
    ensures NoDuplicates(names) ==> NoDuplicates(r)
  {
    Filter(names, HasKey(kind))
  }

  /**
   * Selection keeps the original order: selecting from two runs of names selects from
   * each and keeps the first run's names first, and a single name is kept exactly when
   * it contains the key.
   */
  lemma SelectOrder(xs: seq<string>, ys: seq<string>, kind: Kind, name: string)
    ensures Select(xs + ys, kind) == Select(xs, kind) + Select(ys, kind)
    ensures Select([name], kind) == if Contains(name, kind.Key()) then [name] else []
  {
    FilterAppend(xs, ys, HasKey(kind));
    assert [name][..0] == [];
  }

  /** Group `g` of `tune_lrs`, built from the selected weights and biases. */
  function Group(weights: seq<string>, biases: seq<string>, g: nat, lr: real, weightDecay: real): (grp: ParamGroup)
    requires g < 8 && weights != [] && biases != []
    ensures grp.lr == lr * LrMultipliers[g]
    ensures grp.weightDecay == (if g % 2 == 0 then weightDecay else 0.0)
    ensures var list := if g % 2 == 0 then weights else biases;
      g / 2 < 3 ==>
        && |grp.params| == Min(BlockEnds[g / 2], |list|) - Min(BlockStarts[g / 2], |list|)
        && forall j :: 0 <= j < |grp.params| ==> grp.params[j] == list[BlockStarts[g / 2] + j]
    ensures var list := if g % 2 == 0 then weights else biases;
      g / 2 == 3 ==> grp.params == [list[|list| - 1]]
  {
    var list := if g % 2 == 0 then weights else biases;
    var params := if g / 2 < 3 then Slice(list, BlockStarts[g / 2], BlockEnds[g / 2]) else [list[|list| - 1]];
    ParamGroup(params, lr * LrMultipliers[g], if g % 2 == 0 then weightDecay else 0.0)
  }

  /**
   * `tune_lrs(model, lr, weight_decay)` over the model's parameter names. The last
   * group of each kind is a single parameter rather than a list; the optimizer wraps
   * it into a one-element group, which is how it appears here.
   */
  function TuneLrs(names: seq<string>, lr: real, weightDecay: real): (r: Result<seq<ParamGroup>>)
    ensures r.Err? <==> Select(names, Weight) == [] || Select(names, Bias) == []
    ensures r.Err? ==> r.error == IndexError
    ensures r.Ok? ==> |r.value| == 8
    ensures r.Ok? ==> forall g :: 0 <= g < 8 ==>
      && r.value[g].lr == lr * LrMultipliers[g]
      && r.value[g].weightDecay == (if g % 2 == 0 then weightDecay else 0.0)
    ensures r.Ok? ==> forall g, p :: 0 <= g < 8 && p in r.value[g].params ==>
      p in names && Contains(p, if g % 2 == 0 then "weight" else "bias")
  {
    var biasParams := Select(names, Bias);
    var weightParams := Select(names, Weight);
    var fuseWeight :- At(weightParams, -1);
    var fuseBias :- At(biasParams, -1);
    Ok(seq(8, g requires 0 <= g < 8 => Group(weightParams, biasParams, g, lr, weightDecay)))
  }

  /** Position `i` of a list of length `n` falls in block `b`: blocks 0 to 2 are the fixed
      slices, block 3 the last element. */
  predicate InBlock(b: nat, n: nat, i: nat)
    requires b < 4
  {
    if b < 3 then BlockStarts[b] <= i < BlockEnds[b] else i + 1 == n
  }

  lemma InSliceIff<T>(s: seq<T>, lo: nat, hi: nat, i: nat)
    requires NoDuplicates(s) && i < |s|
    ensures s[i] in Slice(s, lo, hi) <==> lo <= i < hi
  {
    var r := Slice(s, lo, hi);
    if s[i] in r {
      var j :| 0 <= j < |r| && r[j] == s[i];
      assert s[SliceBound(lo, |s|) + j] == s[i];
    }
    if lo <= i < hi {
      assert r[i - lo] == s[i];
    }
  }

  /**
   * With unique parameter names, the parameter at position `i` of the weight (or
   * bias) list is in the group for block `b` exactly when `i` lies in that block:
   * positions [0,10), [10,13) and [13,18) are clamped to the list, and the last
   * group holds only the last element.
   */
  lemma BlockPlacement(names: seq<string>, lr: real, weightDecay: real, kind: Kind, b: nat, i: nat)
    requires NoDuplicates(names) && b < 4
    requires TuneLrs(names, lr, weightDecay).Ok?
    requires i < |Select(names, kind)|
    ensures Select(names, kind)[i] in TuneLrs(names, lr, weightDecay).value[2 * b + kind.Offset()].params
        <==> InBlock(b, |Select(names, kind)|, i)
  {
    var list := Select(names, kind);
    var g := 2 * b + kind.Offset();
    var groups := TuneLrs(names, lr, weightDecay).value;
    assert groups[g] == Group(Select(names, Weight), Select(names, Bias), g, lr, weightDecay);
    assert g / 2 == b && (g % 2 == 0 <==> kind == Weight);
    if b < 3 {
      InSliceIff(list, BlockStarts[b], BlockEnds[b], i);
    }
  }

  /** With more than 19 weights (or biases), the ones at positions 18 to n-2 are in no group of their kind. */
  lemma UnassignedMiddle(names: seq<string>, lr: real, weightDecay: real, kind: Kind, i: nat)
    requires NoDuplicates(names)
    requires TuneLrs(names, lr, weightDecay).Ok?
    requires 18 <= i < |Select(names, kind)| - 1
    ensures forall b :: 0 <= b < 4 ==>
      Select(names, kind)[i] !in TuneLrs(names, lr, weightDecay).value[2 * b + kind.Offset()].params
  {
    forall b | 0 <= b < 4
      ensures Select(names, kind)[i] !in TuneLrs(names, lr, weightDecay).value[2 * b + kind.Offset()].params
    {
      UnassignedOwnKind(names, lr, weightDecay, kind, i, b);
    }
  }

  /** With at most 18 weights (or biases), the last one is both in the last group and in an earlier sliced group. */
  lemma LastInTwoGroups(names: seq<string>, lr: real, weightDecay: real, kind: Kind)
    requires NoDuplicates(names)
    requires TuneLrs(names, lr, weightDecay).Ok?
    requires |Select(names, kind)| <= 18
    ensures var list := Select(names, kind);
      var groups := TuneLrs(names, lr, weightDecay).value;
      && list[|list| - 1] in groups[6 + kind.Offset()].params
      && exists b :: 0 <= b < 3 && list[|list| - 1] in groups[2 * b + kind.Offset()].params
  {
    var n := |Select(names, kind)|;
    var b := if n - 1 < 10 then 0 else if n - 1 < 13 then 1 else 2;
    LastInBlock(names, lr, weightDecay, kind, 3);
    LastInBlock(names, lr, weightDecay, kind, b);
  }

  /** The last weight (or bias) is in the group of any block whose positions it falls in. */
  lemma LastInBlock(names: seq<string>, lr: real, weightDecay: real, kind: Kind, b: nat)
    requires NoDuplicates(names)
    requires TuneLrs(names, lr, weightDecay).Ok?
    requires b < 4 && InBlock(b, |Select(names, kind)|, |Select(names, kind)| - 1)
    ensures var list := Select(names, kind);
      list[|list| - 1] in TuneLrs(names, lr, weightDecay).value[2 * b + kind.Offset()].params
  {
    BlockPlacement(names, lr, weightDecay, kind, b, |Select(names, kind)| - 1);
  }

  /** With at least 18 weights (or biases) the four groups of that kind hold 10, 3, 5 and 1 parameters. */
  lemma GroupSizes(names: seq<string>, lr: real, weightDecay: real, kind: Kind)
    requires TuneLrs(names, lr, weightDecay).Ok?
    requires |Select(names, kind)| >= 18
    ensures var groups := TuneLrs(names, lr, weightDecay).value;
      && |groups[kind.Offset()].params| == 10
      && |groups[2 + kind.Offset()].params| == 3
      && |groups[4 + kind.Offset()].params| == 5
      && |groups[6 + kind.Offset()].params| == 1
  {
    var groups := TuneLrs(names, lr, weightDecay).value;
    var o := kind.Offset();
    assert groups[o] == Group(Select(names, Weight), Select(names, Bias), o, lr, weightDecay);
    assert groups[2 + o] == Group(Select(names, Weight), Select(names, Bias), 2 + o, lr, weightDecay);
    assert groups[4 + o] == Group(Select(names, Weight), Select(names, Bias), 4 + o, lr, weightDecay);
    assert groups[6 + o] == Group(Select(names, Weight), Select(names, Bias), 6 + o, lr, weightDecay);
  }

  /** A name containing both keys lands in both lists; a name containing neither is in no group at all. */
  lemma NameRouting(names: seq<string>, lr: real, weightDecay: real, name: string)
    requires name in names
    ensures name in Select(names, Weight) <==> Contains(name, "weight")
    ensures name in Select(names, Bias) <==> Contains(name, "bias")
    ensures TuneLrs(names, lr, weightDecay).Ok? && !Contains(name, "weight") && !Contains(name, "bias") ==>
      forall g :: 0 <= g < 8 ==> name !in TuneLrs(names, lr, weightDecay).value[g].params
  {
  }

  // ---------------------------------------------------------------- msNet's parameters

  /** The dotted name of a layer's weight or bias. */
  function ParamName(layer: string, kind: Kind): string {
    layer + "." + kind.Key()
  }

  /** The parameters of 1x1 convolution layers, in registration order: each layer's weight, then its bias. */
  function LayerParams(layers: seq<string>): (r: seq<string>)
    ensures |r| == 2 * |layers|
    ensures forall i :: 0 <= i < |layers| ==> r[2 * i] == ParamName(layers[i], Weight) && r[2 * i + 1] == ParamName(layers[i], Bias)
  {
    if layers == [] then []
    else
      var rest := LayerParams(layers[1..]);
      assert forall i :: 1 <= i < |layers| ==> layers[i] == layers[1..][i - 1];
      [ParamName(layers[0], Weight), ParamName(layers[0], Bias)] + rest
  }

  /**
   * `msNet`'s parameter names in registration order: the encoder's (whatever names its
   * blocks give them), the side-output heads and `fuse`, the wavelet transform's, and the
   * four `fusew_*` layers last.
   */
  function MsNetParamNames(encoder: seq<string>, wavelet: seq<string>): (r: seq<string>)
    ensures |r| == |encoder| + 2 * |MsNet.HeadLayers| + |wavelet| + 2 * |MsNet.FuseWLayers|
    ensures r[..|encoder|] == encoder
    ensures forall j :: 0 <= j < |MsNet.HeadLayers| ==>
      && r[|encoder| + 2 * j] == ParamName(MsNet.HeadLayers[j], Weight)
      && r[|encoder| + 2 * j + 1] == ParamName(MsNet.HeadLayers[j], Bias)
    ensures r[|encoder| + 12..|encoder| + 12 + |wavelet|] == wavelet
    ensures forall j :: 0 <= j < |MsNet.FuseWLayers| ==>
      && r[|encoder| + 12 + |wavelet| + 2 * j] == ParamName(MsNet.FuseWLayers[j], Weight)
      && r[|encoder| + 12 + |wavelet| + 2 * j + 1] == ParamName(MsNet.FuseWLayers[j], Bias)
  {
    encoder + LayerParams(MsNet.HeadLayers) + wavelet + LayerParams(MsNet.FuseWLayers)
  }

  /**
   * A top-level layer name with neither a `g` nor a `b` (so that neither key can appear
   * inside its parameters' names) and no dot.
   */
  predicate PlainLayer(layer: string) {
    forall k :: 0 <= k < |layer| ==> layer[k] != 'g' && layer[k] != 'b' && layer[k] != '.'
  }

  /** `layer.weight` is selected as a weight and not as a bias, and `layer.bias` the other way round. */
  lemma ParamRouting(layer: string, kind: Kind, other: Kind)
    requires PlainLayer(layer)
    ensures HasKey(kind)(ParamName(layer, other)) <==> kind == other
  {
    var name := ParamName(layer, other);
    if kind == other {
      assert name[|layer| + 1..|layer| + 1 + |kind.Key()|] == kind.Key();
      assert OccursAt(name, kind.Key(), |layer| + 1);
    } else if kind == Weight {
      MissingCharNotContained(name, "weight", 3);
    } else {
      MissingCharNotContained(name, "bias", 0);
    }
  }

  /** Of one layer's two parameters, exactly the one named after `kind` is selected. */
  lemma SelectPair(layer: string, kind: Kind)
    requires PlainLayer(layer)
    ensures Select([ParamName(layer, Weight), ParamName(layer, Bias)], kind) == [ParamName(layer, kind)]
  {
    var w := ParamName(layer, Weight);
    var b := ParamName(layer, Bias);
    var keep := HasKey(kind);
    ParamRouting(layer, kind, Weight);
    ParamRouting(layer, kind, Bias);
    assert [w, b][..1] == [w] && [w][..0] == [];
    assert Filter([w], keep) == if keep(w) then [w] else [];
    assert Filter([w, b], keep) == Filter([w], keep) + if keep(b) then [b] else [];
  }

  /** Selecting from a run of layers' parameters takes the first layer's parameter of `kind`, then selects from the rest. */
  lemma SelectLayerParamsCons(layers: seq<string>, kind: Kind)
    requires layers != [] && PlainLayer(layers[0])
    ensures Select(LayerParams(layers), kind) == [ParamName(layers[0], kind)] + Select(LayerParams(layers[1..]), kind)
  {
    var pair := [ParamName(layers[0], Weight), ParamName(layers[0], Bias)];
    assert LayerParams(layers) == pair + LayerParams(layers[1..]);
    FilterAppend(pair, LayerParams(layers[1..]), HasKey(kind));
    SelectPair(layers[0], kind);
  }

  /** Of the parameters of a run of plain layers, `kind` selects one per layer, in layer order. */
  lemma {:induction false} SelectLayerParams(layers: seq<string>, kind: Kind)
    requires forall layer <- layers :: PlainLayer(layer)
    ensures |Select(LayerParams(layers), kind)| == |layers|
    ensures forall i :: 0 <= i < |layers| ==> Select(LayerParams(layers), kind)[i] == ParamName(layers[i], kind)
    decreases |layers|
  {
    if layers != [] {
      var tail := layers[1..];
      SelectLayerParams(tail, kind);
      SelectLayerParamsCons(layers, kind);
      var rest := Select(LayerParams(tail), kind);
      var all := Select(LayerParams(layers), kind);
      forall i | 1 <= i < |layers|
        ensures all[i] == ParamName(layers[i], kind)
      {
        assert all[i] == rest[i - 1];
        assert layers[i] == tail[i - 1];
      }
    }
  }

  lemma MsNetLayersPlain()
    ensures forall layer <- MsNet.HeadLayers :: PlainLayer(layer)
    ensures forall layer <- MsNet.FuseWLayers :: PlainLayer(layer)
  {
  }

  /** The last parameter of each kind that `msNet` registers is that of `fusew_5`, whatever the encoder and the wavelet transform register. */
  lemma LastParamIsFusew5(encoder: seq<string>, wavelet: seq<string>, kind: Kind)
    ensures var list := Select(MsNetParamNames(encoder, wavelet), kind);
      list != [] && list[|list| - 1] == ParamName("fusew_5", kind)
  {
    var head := encoder + LayerParams(MsNet.HeadLayers) + wavelet;
    assert MsNetParamNames(encoder, wavelet) == head + LayerParams(MsNet.FuseWLayers);
    MsNetLayersPlain();
    SelectLayerParams(MsNet.FuseWLayers, kind);
    FilterAppend(head, LayerParams(MsNet.FuseWLayers), HasKey(kind));
  }

  /**
   * `tune_lrs` gives its last two groups, meant for the final fusion head `fuse`, to the
   * last wavelet-fusion layer `fusew_5` instead.
   */
  lemma LastGroupsTakeFusew5(encoder: seq<string>, wavelet: seq<string>, lr: real, weightDecay: real)
    ensures var r := TuneLrs(MsNetParamNames(encoder, wavelet), lr, weightDecay);
      && r.Ok?
      && r.value[6].params == [ParamName("fusew_5", Weight)]
      && r.value[7].params == [ParamName("fusew_5", Bias)]
  {
    LastParamIsFusew5(encoder, wavelet, Weight);
    LastParamIsFusew5(encoder, wavelet, Bias);
    FinalGroups(MsNetParamNames(encoder, wavelet), lr, weightDecay, ParamName("fusew_5", Weight), ParamName("fusew_5", Bias));
  }

  /** When the last weight is `weight` and the last bias is `bias`, the final two groups hold just those. */
  lemma FinalGroups(names: seq<string>, lr: real, weightDecay: real, weight: string, bias: string)
    requires var ws := Select(names, Weight); ws != [] && ws[|ws| - 1] == weight
    requires var bs := Select(names, Bias); bs != [] && bs[|bs| - 1] == bias
    ensures var r := TuneLrs(names, lr, weightDecay);
      && r.Ok?
      && r.value[6].params == [weight]
      && r.value[7].params == [bias]
  {
    var weights, biases := Select(names, Weight), Select(names, Bias);
    var r := TuneLrs(names, lr, weightDecay);
    assert r.value[6] == Group(weights, biases, 6, lr, weightDecay);
    assert r.value[7] == Group(weights, biases, 7, lr, weightDecay);
  }

  /** How the weights (or biases) of `msNet` line up: the encoder's, then one per head and `fuse`, the wavelet transform's, then one per `fusew_*` layer. */
  lemma MsNetSelection(encoder: seq<string>, wavelet: seq<string>, kind: Kind)
    ensures Select(MsNetParamNames(encoder, wavelet), kind)
      == Select(encoder, kind) + Select(LayerParams(MsNet.HeadLayers), kind)
       + Select(wavelet, kind) + Select(LayerParams(MsNet.FuseWLayers), kind)
  {
    var keep := HasKey(kind);
    var heads := LayerParams(MsNet.HeadLayers);
    var fusions := LayerParams(MsNet.FuseWLayers);
    FilterAppend(encoder + heads + wavelet, fusions, keep);
    FilterAppend(encoder + heads, wavelet, keep);
    FilterAppend(encoder, heads, keep);
  }

  /** The other kind's groups only hold names with the other kind's key. */
  lemma OtherKindExcluded(names: seq<string>, lr: real, weightDecay: real, kind: Kind, name: string, g: nat)
    requires TuneLrs(names, lr, weightDecay).Ok?
    requires g < 8 && g % 2 != kind.Offset()
    requires !Contains(name, (if kind == Weight then Bias else Weight).Key())
    ensures name !in TuneLrs(names, lr, weightDecay).value[g].params
  {
    assert (if g % 2 == 0 then "weight" else "bias") == (if kind == Weight then Bias else Weight).Key();
  }

  /**
   * A weight (or bias) at positions 18 to n-2 whose name lacks the other kind's key is
   * in no group at all: not in its own kind's groups by position, not in the other
   * kind's by name.
   */
  lemma Ungrouped(names: seq<string>, lr: real, weightDecay: real, kind: Kind, i: nat)
    requires NoDuplicates(names)
    requires TuneLrs(names, lr, weightDecay).Ok?
    requires 18 <= i < |Select(names, kind)| - 1
    requires !Contains(Select(names, kind)[i], (if kind == Weight then Bias else Weight).Key())
    ensures forall g :: 0 <= g < 8 ==> Select(names, kind)[i] !in TuneLrs(names, lr, weightDecay).value[g].params
  {
    forall g | 0 <= g < 8
      ensures Select(names, kind)[i] !in TuneLrs(names, lr, weightDecay).value[g].params
    {
      UngroupedIn(names, lr, weightDecay, kind, i, g);
    }
  }

  lemma UngroupedIn(names: seq<string>, lr: real, weightDecay: real, kind: Kind, i: nat, g: nat)
    requires NoDuplicates(names)
    requires TuneLrs(names, lr, weightDecay).Ok?
    requires 18 <= i < |Select(names, kind)| - 1
    requires !Contains(Select(names, kind)[i], (if kind == Weight then Bias else Weight).Key())
    requires g < 8
    ensures Select(names, kind)[i] !in TuneLrs(names, lr, weightDecay).value[g].params
  {
    if g % 2 == kind.Offset() {
      var b := g / 2;
      assert g == 2 * b + kind.Offset() && b < 4;
      UnassignedOwnKind(names, lr, weightDecay, kind, i, b);
    } else {
      OtherKindExcluded(names, lr, weightDecay, kind, Select(names, kind)[i], g);
    }
  }

  lemma UnassignedOwnKind(names: seq<string>, lr: real, weightDecay: real, kind: Kind, i: nat, b: nat)
    requires NoDuplicates(names)
    requires TuneLrs(names, lr, weightDecay).Ok?
    requires 18 <= i < |Select(names, kind)| - 1
    requires b < 4
    ensures Select(names, kind)[i] !in TuneLrs(names, lr, weightDecay).value[2 * b + kind.Offset()].params
  {
    assert !InBlock(b, |Select(names, kind)|, i);
    BlockPlacement(names, lr, weightDecay, kind, b, i);
  }

  /** Without wavelet weights (or biases), the encoder's are followed by one per head and `fuse`, then one per `fusew_*` layer. */
  lemma MsNetSelectionLayout(encoder: seq<string>, wavelet: seq<string>, kind: Kind)
    requires Select(wavelet, kind) == []
    ensures Select(MsNetParamNames(encoder, wavelet), kind)
      == Select(encoder, kind) + Select(LayerParams(MsNet.HeadLayers), kind) + Select(LayerParams(MsNet.FuseWLayers), kind)
  {
    var front := Select(encoder, kind) + Select(LayerParams(MsNet.HeadLayers), kind);
    MsNetSelection(encoder, wavelet, kind);
    assert front + Select(wavelet, kind) == front;
  }

  /** The parameter of `kind` of head `j` (the sixth being `fuse`) follows the encoder's. */
  lemma MsNetHeadAt(encoder: seq<string>, wavelet: seq<string>, kind: Kind, j: nat)
    requires Select(wavelet, kind) == [] && j < 6
    ensures var list := Select(MsNetParamNames(encoder, wavelet), kind);
      var e := |Select(encoder, kind)|;
      |list| == e + 10 && list[e + j] == ParamName(MsNet.HeadLayers[j], kind)
  {
    MsNetSelectionLayout(encoder, wavelet, kind);
    MsNetLayersPlain();
    SelectLayerParams(MsNet.HeadLayers, kind);
    SelectLayerParams(MsNet.FuseWLayers, kind);
  }

  /** The parameter of `kind` of wavelet-fusion layer `j` comes after the heads'. */
  lemma MsNetFusionAt(encoder: seq<string>, wavelet: seq<string>, kind: Kind, j: nat)
    requires Select(wavelet, kind) == [] && j < 4
    ensures var list := Select(MsNetParamNames(encoder, wavelet), kind);
      var e := |Select(encoder, kind)|;
      |list| == e + 10 && list[e + 6 + j] == ParamName(MsNet.FuseWLayers[j], kind)
  {
    MsNetSelectionLayout(encoder, wavelet, kind);
    MsNetLayersPlain();
    SelectLayerParams(MsNet.HeadLayers, kind);
    SelectLayerParams(MsNet.FuseWLayers, kind);
  }

  /** The layers whose parameters `tune_lrs` leaves out on `msNet`. */
  const FusionLayers: seq<string> := ["fuse", "fusew_2", "fusew_3", "fusew_4"]

  /**
   * With the thirteen-convolution encoder and a wavelet transform without weights or
   * biases, each kind's list has 23 entries, and the parameters of `fuse` and of
   * `fusew_2` to `fusew_4` sit at positions 18 to 21.
   */
  lemma FusionLayerPosition(encoder: seq<string>, wavelet: seq<string>, kind: Kind, layer: string) returns (i: nat)
    requires |Select(encoder, kind)| == 13 && Select(wavelet, kind) == []
    requires layer in FusionLayers
    ensures var list := Select(MsNetParamNames(encoder, wavelet), kind);
      18 <= i < |list| - 1 == 22 && list[i] == ParamName(layer, kind)
  {
    var k :| 0 <= k < 4 && FusionLayers[k] == layer;
    FusionSlot(encoder, wavelet, kind, k);
    i := 18 + k;
  }

  lemma FusionSlot(encoder: seq<string>, wavelet: seq<string>, kind: Kind, k: nat)
    requires |Select(encoder, kind)| == 13 && Select(wavelet, kind) == [] && k < 4
    ensures var list := Select(MsNetParamNames(encoder, wavelet), kind);
      |list| == 23 && list[18 + k] == ParamName(FusionLayers[k], kind)
  {
    if k == 0 {
      MsNetHeadAt(encoder, wavelet, kind, 5);
    } else {
      MsNetFusionAt(encoder, wavelet, kind, k - 1);
    }
  }

  /**
   * With the thirteen-convolution encoder and a wavelet transform without weights or
   * biases, `tune_lrs` puts the parameters of `fuse`, `fusew_2`, `fusew_3` and `fusew_4`
   * in no group at all, so the optimizer never updates them.
   */
  lemma FusionLayersUngrouped(encoder: seq<string>, wavelet: seq<string>, lr: real, weightDecay: real, kind: Kind, layer: string)
    requires NoDuplicates(MsNetParamNames(encoder, wavelet))
    requires |Select(encoder, kind)| == 13 && Select(wavelet, kind) == []
    requires layer in FusionLayers
    ensures var r := TuneLrs(MsNetParamNames(encoder, wavelet), lr, weightDecay);
      r.Ok? && forall g :: 0 <= g < 8 ==> ParamName(layer, kind) !in r.value[g].params
  {
    var names := MsNetParamNames(encoder, wavelet);
    LastParamIsFusew5(encoder, wavelet, Weight);
    LastParamIsFusew5(encoder, wavelet, Bias);
    var i := FusionLayerPosition(encoder, wavelet, kind, layer);
    MsNetLayersPlain();
    assert layer in MsNet.HeadLayers + MsNet.FuseWLayers;
    ParamRouting(layer, if kind == Weight then Bias else Weight, kind);
    Ungrouped(names, lr, weightDecay, kind, i);
  }

  // ---------------------------------------------------------------- grouping by layer

  /** The top-level module a parameter belongs to: its name up to the first dot, or all of it when it has none. */
  function LayerOf(name: string): (layer: string)
    ensures layer <= name
    ensures forall k :: 0 <= k < |layer| ==> layer[k] != '.'
    ensures |layer| < |name| ==> name[|layer|] == '.'
  {
    var dot := Find(name, ".");
    var end := if dot == -1 then |name| else dot;
    assert forall k :: 0 <= k < end ==> name[k] != '.' by {
      forall k | 0 <= k < end
        ensures name[k] != '.'
      {
        assert !OccursAt(name, ".", k);
        assert name[k..k + 1] == [name[k]];
      }
    }
    if dot != -1 then
      assert OccursAt(name, ".", dot);
      assert name[dot..dot + 1] == [name[dot]];
      name[..dot]
    else
      name
  }

  /**
   * The block each of `msNet`'s layers is meant to be trained in: encoder stages 1 to 4,
   * encoder stage 5, the side outputs together with the wavelet-fusion cascade, and the
   * final fusion head. The wavelet transform has no block.
   */
  function LayerBlock(layer: string): (b: Option<nat>)
    ensures b.Some? ==> b.value < 4
    ensures b.Some? <==> layer in MsNet.HeadLayers + MsNet.FuseWLayers + ["conv1", "conv2", "conv3", "conv4", "conv5"]
    ensures layer in ["conv1", "conv2", "conv3", "conv4"] ==> b == Some(0)
    ensures layer == "conv5" ==> b == Some(1)
    ensures layer == "fuse" ==> b == Some(3)
    ensures layer in MsNet.HeadLayers + MsNet.FuseWLayers && layer != "fuse" ==> b == Some(2)
  {
    if layer in ["conv1", "conv2", "conv3", "conv4"] then Some(0)
    else if layer == "conv5" then Some(1)
    else if layer == "fuse" then Some(3)
    else if layer in MsNet.HeadLayers + MsNet.FuseWLayers then Some(2)
    else None
  }

  /** The membership test of group `g` in the layer-based grouping. */
  function BelongsTo(g: nat): (test: string -> bool)
    ensures forall name :: test(name) <==>
      Contains(name, if g % 2 == 0 then "weight" else "bias") && LayerBlock(LayerOf(name)) == Some(g / 2)
  {
    name => Find(name, if g % 2 == 0 then "weight" else "bias") != -1 && LayerBlock(LayerOf(name)) == Some(g / 2)
  }

  /** Group `g` of the layer-based grouping: the parameters of its kind whose layer is in its block. */
  function LayerGroup(names: seq<string>, g: nat, lr: real, weightDecay: real): (grp: ParamGroup)
    requires g < 8
    ensures grp.lr == lr * LrMultipliers[g]
    ensures grp.weightDecay == (if g % 2 == 0 then weightDecay else 0.0)
    ensures forall p :: p in grp.params <==> p in names && BelongsTo(g)(p)
    ensures NoDuplicates(names) ==> NoDuplicates(grp.params)
  {
    ParamGroup(Filter(names, BelongsTo(g)), lr * LrMultipliers[g], if g % 2 == 0 then weightDecay else 0.0)
  }

  /**
   * The grouping `tune_lrs` is meant to produce: each parameter goes to the block of the
   * layer it belongs to, found from its name rather than from its position, with the same
   * learning-rate multipliers and weight decay.
   */
  function TuneLrsByLayer(names: seq<string>, lr: real, weightDecay: real): (r: seq<ParamGroup>)
    ensures |r| == 8
    ensures forall g :: 0 <= g < 8 ==> r[g] == LayerGroup(names, g, lr, weightDecay)
  {
    seq(8, g requires 0 <= g < 8 => LayerGroup(names, g, lr, weightDecay))
  }

  /** The layer a `layer.weight` or `layer.bias` parameter belongs to is `layer`. */
  lemma LayerOfParam(layer: string, kind: Kind)
    requires PlainLayer(layer)
    ensures LayerOf(ParamName(layer, kind)) == layer
  {
    var name := ParamName(layer, kind);
    assert name[..|layer|] == layer;
    assert OccursAt(name, ".", |layer|) by {
      assert name[|layer|..|layer| + 1] == ".";
    }
    assert forall j :: 0 <= j < |layer| ==> !OccursAt(name, ".", j) by {
      forall j | 0 <= j < |layer|
        ensures !OccursAt(name, ".", j)
      {
        assert name[j..j + 1] == [layer[j]];
      }
    }
    assert Find(name, ".") == |layer|;
  }

  /**
   * In the layer-based grouping, a parameter whose name carries exactly one key and
   * whose layer has a block is in exactly one group: that of its block and kind.
   */
  lemma ByLayerExactlyOne(names: seq<string>, lr: real, weightDecay: real, name: string, kind: Kind, b: nat)
    requires name in names
    requires Contains(name, kind.Key()) && !Contains(name, (if kind == Weight then Bias else Weight).Key())
    requires LayerBlock(LayerOf(name)) == Some(b)
    ensures forall g :: 0 <= g < 8 ==> (name in TuneLrsByLayer(names, lr, weightDecay)[g].params <==> g == 2 * b + kind.Offset())
  {
    var r := TuneLrsByLayer(names, lr, weightDecay);
    forall g | 0 <= g < 8
      ensures name in r[g].params <==> g == 2 * b + kind.Offset()
    {
      assert r[g].params == Filter(names, BelongsTo(g));
      if g == 2 * b + kind.Offset() {
        assert g / 2 == b && g % 2 == kind.Offset();
      }
    }
  }

  lemma LayerParamsMember(layers: seq<string>, kind: Kind, i: nat)
    requires forall layer <- layers :: PlainLayer(layer)
    requires i < |layers|
    ensures ParamName(layers[i], kind) in LayerParams(layers)
  {
    SelectLayerParams(layers, kind);
    assert Select(LayerParams(layers), kind)[i] == ParamName(layers[i], kind);
  }

  /** Every head and wavelet-fusion layer registers a weight and a bias under its own name. */
  lemma MsNetRegistersHead(encoder: seq<string>, wavelet: seq<string>, kind: Kind, layer: string)
    requires layer in MsNet.HeadLayers + MsNet.FuseWLayers
    ensures ParamName(layer, kind) in MsNetParamNames(encoder, wavelet)
  {
    MsNetLayersPlain();
    if layer in MsNet.HeadLayers {
      var i :| 0 <= i < |MsNet.HeadLayers| && MsNet.HeadLayers[i] == layer;
      LayerParamsMember(MsNet.HeadLayers, kind, i);
    } else {
      var i :| 0 <= i < |MsNet.FuseWLayers| && MsNet.FuseWLayers[i] == layer;
      LayerParamsMember(MsNet.FuseWLayers, kind, i);
    }
  }

  /**
   * Grouped by layer, `fuse`'s weight and bias are in the last two groups and every side
   * output's and wavelet-fusion layer's in the third pair, and each in no other group.
   */
  lemma ByLayerPlacesMsNetHeads(encoder: seq<string>, wavelet: seq<string>, lr: real, weightDecay: real, kind: Kind, layer: string)
    requires layer in MsNet.HeadLayers + MsNet.FuseWLayers
    ensures var r := TuneLrsByLayer(MsNetParamNames(encoder, wavelet), lr, weightDecay);
      var b := if layer == "fuse" then 3 else 2;
      forall g :: 0 <= g < 8 ==> (ParamName(layer, kind) in r[g].params <==> g == 2 * b + kind.Offset())
  {
    var name := ParamName(layer, kind);
    MsNetLayersPlain();
    assert PlainLayer(layer);
    ParamRouting(layer, kind, kind);
    ParamRouting(layer, if kind == Weight then Bias else Weight, kind);
    LayerOfParam(layer, kind);
    assert LayerBlock(layer) == Some(if layer == "fuse" then 3 else 2);
    MsNetRegistersHead(encoder, wavelet, kind, layer);
    ByLayerExactlyOne(MsNetParamNames(encoder, wavelet), lr, weightDecay, name, kind, if layer == "fuse" then 3 else 2);
  }
}
