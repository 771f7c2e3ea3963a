/**
 * One batch of `Trainer.train` end to end: the forward pass of `msNet`, then the
 * batch loss as the sum of one loss term per output. The loss function itself
 * (class-balanced cross-entropy against the label) is a parameter: it maps an
 * output tensor to its real-valued loss.
 */
module TrainStep {
  import opened PySemantics
  import opened MsNet
  import Accumulation

  /** What a successful forward pass returns: the five aligned side maps, then the fused map, all one channel at input resolution. */
  function ReferenceOutputs(x: Shape, fused: bool): seq<Tensor> {
    var s := Shape(x.n, 1, x.h, x.w);
    [Tensor(s, Sigmoid(AlignedRef(0, fused, x.h, x.w))), Tensor(s, Sigmoid(AlignedRef(1, fused, x.h, x.w))),
     Tensor(s, Sigmoid(AlignedRef(2, fused, x.h, x.w))), Tensor(s, Sigmoid(AlignedRef(3, fused, x.h, x.w))),
     Tensor(s, Sigmoid(AlignedRef(4, fused, x.h, x.w))), Tensor(s, Sigmoid(FusedRef(fused, x.h, x.w)))]
  }

  /** The loss of one batch: the forward pass, then one term per output added to zero. Raises what the forward pass raises. */
  function StepLoss<W>(x: Shape, w: Option<W>, dwt: (nat, nat) -> (nat, nat), term: Tensor -> real): (r: Result<real>)
    requires x.h >= 1 && x.w >= 1
    ensures r.Ok? <==> Forward(x, w, dwt).Ok?
    ensures r.Err? ==> r.error == Forward(x, w, dwt).error
  {
    var outputs :- Forward(x, w, dwt);
    Ok(BatchLoss(outputs, term))
  }

  /** The loss of one batch: zero plus one loss term per model output, added in output order; that is, the plain sum of the terms. */
  function BatchLoss<T>(outputs: seq<T>, term: T -> real): (r: real)
    decreases |outputs|
    ensures r == Accumulation.Sum(Terms(outputs, term))
  {
    if outputs == [] then 0.0
    else
      var prefix := outputs[..|outputs| - 1];
      assert Terms(outputs, term)[..|outputs| - 1] == Terms(prefix, term);
      BatchLoss(prefix, term) + term(outputs[|outputs| - 1])
  }

  /** The loss terms of a sequence of outputs, in order. */
  function Terms<T>(outputs: seq<T>, term: T -> real): (r: seq<real>)
    ensures |r| == |outputs|
    ensures forall i :: 0 <= i < |r| ==> r[i] == term(outputs[i])
  {
    seq(|outputs|, i requires 0 <= i < |outputs| => term(outputs[i]))
  }

  /** The loss over two runs of outputs is the loss over the first plus the loss over the second. */
  lemma {:induction false} BatchLossAppend<T>(xs: seq<T>, ys: seq<T>, term: T -> real)
    ensures BatchLoss(xs + ys, term) == BatchLoss(xs, term) + BatchLoss(ys, term)
    decreases |ys|
  {
    if ys == [] {
      assert xs + ys == xs;
    } else {
      var prefix := ys[..|ys| - 1];
      BatchLossAppend(xs, prefix, term);
      assert (xs + ys)[..|xs + ys| - 1] == xs + prefix;
      assert (xs + ys)[|xs + ys| - 1] == ys[|ys| - 1];
    }
  }

  /** A successful forward pass returns exactly the reference outputs. */
  lemma ForwardOutputs<W>(x: Shape, w: Option<W>, dwt: (nat, nat) -> (nat, nat))
    requires x.h >= 1 && x.w >= 1
    ensures Forward(x, w, dwt).Ok? ==> Forward(x, w, dwt).value == ReferenceOutputs(x, w.Some?)
  {
    ForwardSpec(x, w, dwt);
    var r := Forward(x, w, dwt);
    if r.Ok? {
      OutputsMatchReference(x, w.Some?, r.value);
    }
  }

  /** Six maps with the shapes and terms of a successful forward pass are the reference outputs. */
  lemma OutputsMatchReference(x: Shape, fused: bool, outputs: seq<Tensor>)
    requires |outputs| == 6
    requires forall i :: 0 <= i < 6 ==> outputs[i].shape == Shape(x.n, 1, x.h, x.w)
    requires forall i :: 0 <= i < 5 ==> outputs[i].expr == Sigmoid(AlignedRef(i, fused, x.h, x.w))
    requires outputs[5].expr == Sigmoid(FusedRef(fused, x.h, x.w))
    ensures outputs == ReferenceOutputs(x, fused)
  {
    var expected := ReferenceOutputs(x, fused);
    forall i | 0 <= i < 6
      ensures outputs[i] == expected[i]
    {
      assert outputs[i] == Tensor(outputs[i].shape, outputs[i].expr);
    }
  }

  /**
   * A batch whose forward pass succeeds contributes the loss of each side output at
   * input resolution plus the loss of the fused map; so its loss, and with it every
   * gradient, depends on all six outputs.
   */
  lemma StepLossSpec<W>(x: Shape, w: Option<W>, dwt: (nat, nat) -> (nat, nat), term: Tensor -> real)
    requires x.h >= 1 && x.w >= 1
    ensures var r := StepLoss(x, w, dwt, term);
      var outputs := ReferenceOutputs(x, w.Some?);
      r.Ok? ==> r.value == BatchLoss(outputs[..5], term) + term(outputs[5])
    ensures var r := StepLoss(x, w, dwt, term);
      r.Ok? ==> r.value == Accumulation.Sum(Terms(ReferenceOutputs(x, w.Some?), term))
  {
    ForwardOutputs(x, w, dwt);
    var outputs := ReferenceOutputs(x, w.Some?);
    assert outputs[..|outputs| - 1] == outputs[..5];
  }
}
