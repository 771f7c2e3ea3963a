/**
 * The gradient-accumulation bookkeeping of `Trainer.train`.
 *
 * Per epoch a local counter starts at 0 and is incremented once per batch;
 * each batch back-propagates its loss divided by `itersize` into the gradient
 * buffers, which keep accumulating until the counter equals `itersize`. Then
 * the optimizer steps on everything accumulated, the buffers are cleared, the
 * counter returns to 0 and the global step advances. After the step logic a
 * visualisation trigger tests the global step against a period derived from
 * the dataset size.
 *
 * Gradients are abstract: a batch contributes its (real) loss together with
 * the divisor it was scaled by, and an optimizer step is an event that
 * consumes the contributions pending since the previous step.
 */
module Accumulation {
  import opened PySemantics

  /** One batch's loss as back-propagated: `loss / divisor`, kept symbolic because
      a zero divisor makes the tensor division non-finite rather than raising. */
  datatype Contribution = Scaled(loss: real, divisor: int)

  /** The loop state: the epoch-local `counter`, the persistent `global_step`, and
      the contributions in the gradient buffers since the last optimizer step. */
  datatype Acc = Acc(counter: int, globalStep: int, pending: seq<Contribution>)

  /** The state after one batch, and the contributions the optimizer consumed if it stepped. */
  datatype Transition = Transition(acc: Acc, consumed: Option<seq<Contribution>>)

  /** The per-epoch record of an accumulation run: the final state and, per batch, the optimizer step it caused. */
  datatype Trace = Trace(acc: Acc, steps: seq<Option<seq<Contribution>>>)

  /** The training configuration the loop reads; `nVal` is `None` when there is no validation loader. */
  datatype Config = Config(itersize: int, batchSize: int, nTrain: nat, nVal: Option<nat>)

  /** Each loss as it enters the gradient buffers, divided by `itersize`. */
  function Scale(itersize: int, losses: seq<real>): (cs: seq<Contribution>)
    ensures |cs| == |losses|
    ensures forall i :: 0 <= i < |cs| ==> cs[i] == Scaled(losses[i], itersize)
  {
    seq(|losses|, i requires 0 <= i < |losses| => Scaled(losses[i], itersize))
  }

  /** Everything a transition leaves behind: what the optimizer consumed followed by what is still pending. */
  function Drained(t: Transition): seq<Contribution> {
    (if t.consumed.Some? then t.consumed.value else []) + t.acc.pending
  }

  /** One batch of the training loop: count it, back-propagate its scaled loss, and step when the count reaches `itersize`. */
  function Accumulate(itersize: int, a: Acc, loss: real): (t: Transition)
    ensures t.consumed.Some? <==> a.counter + 1 == itersize
    ensures Drained(t) == a.pending + [Scaled(loss, itersize)]
    ensures t.consumed.Some? ==> t.acc.counter == 0 && t.acc.pending == [] && t.acc.globalStep == a.globalStep + 1
    ensures t.consumed.None? ==> t.acc.counter == a.counter + 1 && t.acc.globalStep == a.globalStep
    ensures 0 <= a.counter < itersize ==> 0 <= t.acc.counter < itersize
  {
    var counter := a.counter + 1;
    var pending := a.pending + [Scaled(loss, itersize)];
    if counter == itersize then Transition(Acc(0, a.globalStep + 1, []), Some(pending))
    else Transition(Acc(counter, a.globalStep, pending), None)
  }

  /** Everything the optimizer steps of a trace consumed, in step order. */
  function Consumed(steps: seq<Option<seq<Contribution>>>): seq<Contribution>
    decreases |steps|
  {
    if steps == [] then []
    else
      var last := steps[|steps| - 1];
      Consumed(steps[..|steps| - 1]) + (if last.Some? then last.value else [])
  }

  /** The accumulation state after feeding `losses` to the loop one batch at a time, starting from `a`. */
  function Run(itersize: int, a: Acc, losses: seq<real>): (t: Trace)
    decreases |losses|
    ensures |t.steps| == |losses|
  {
    if losses == [] then Trace(a, [])
    else
      var before := Run(itersize, a, losses[..|losses| - 1]);
      var t := Accumulate(itersize, before.acc, losses[|losses| - 1]);
      Trace(t.acc, before.steps + [t.consumed])
  }

  /**
   * No scaled loss is lost or duplicated by `Run`: what its steps consumed, followed by
   * what is still pending, is what was pending at the start followed by every batch's
   * scaled loss, in batch order.
   */
  lemma {:induction false} RunConserves(itersize: int, a: Acc, losses: seq<real>)
    decreases |losses|
    ensures var t := Run(itersize, a, losses);
      Consumed(t.steps) + t.acc.pending == a.pending + Scale(itersize, losses)
  {
    if losses != [] {
      var prefix := losses[..|losses| - 1];
      var last := losses[|losses| - 1];
      var before := Run(itersize, a, prefix);
      RunConserves(itersize, a, prefix);
      var t := Accumulate(itersize, before.acc, last);
      assert Run(itersize, a, losses) == Trace(t.acc, before.steps + [t.consumed]);
      assert losses == prefix + [last];
      RunStepConserves(itersize, a.pending, prefix, last, before, t);
    }
  }

  /** One more batch keeps the accounting of `Run`: its step consumes or its pending keeps the new scaled loss. */
  lemma RunStepConserves(itersize: int, start: seq<Contribution>, prefix: seq<real>, last: real, before: Trace, t: Transition)
    requires Consumed(before.steps) + before.acc.pending == start + Scale(itersize, prefix)
    requires Drained(t) == before.acc.pending + [Scaled(last, itersize)]
    ensures Consumed(before.steps + [t.consumed]) + t.acc.pending == start + Scale(itersize, prefix + [last])
  {
    var steps := before.steps + [t.consumed];
    var used := if t.consumed.Some? then t.consumed.value else [];
    var x := Scaled(last, itersize);
    assert steps[..|steps| - 1] == before.steps;
    assert Consumed(steps) == Consumed(before.steps) + used;
    ScaleSnoc(itersize, prefix, last);
    ConcatStep(Consumed(before.steps), used, t.acc.pending, before.acc.pending, x, start, Scale(itersize, prefix));
  }

  /** The sequence bookkeeping of one step: if `done + was` is `start + fed` and `used + pending` is `was + [x]`, appending `x` keeps the balance. */
  lemma ConcatStep<T>(done: seq<T>, used: seq<T>, pending: seq<T>, was: seq<T>, x: T, start: seq<T>, fed: seq<T>)
    requires done + was == start + fed
    requires used + pending == was + [x]
    ensures (done + used) + pending == start + (fed + [x])
  {
    calc {
      (done + used) + pending;
      done + (used + pending);
      done + (was + [x]);
      (done + was) + [x];
      (start + fed) + [x];
      start + (fed + [x]);
    }
  }

  lemma ScaleSnoc(itersize: int, prefix: seq<real>, last: real)
    ensures Scale(itersize, prefix + [last]) == Scale(itersize, prefix) + [Scaled(last, itersize)]
  {
    assert |Scale(itersize, prefix + [last])| == |prefix| + 1;
  }

  lemma DivModUnique(a: int, d: int, q: int, r: int)
    requires 1 <= d && 0 <= r < d && a == d * q + r
    ensures a / d == q && a % d == r
  {
    var q', r' := a / d, a % d;
    assert d * q' + r' == d * q + r;
    assert d * (q - q') == r' - r;
    if q > q' {
      MulAtLeast(d, q - q');
    } else if q < q' {
      MulAtLeast(d, q' - q);
    }
  }

  lemma MulAtLeast(d: int, m: int)
    requires 1 <= d && 1 <= m
    ensures d * m >= d
  {
    assert d * m == d * (m - 1) + d;
  }

  lemma DivModNext(k: nat, d: int)
    requires 1 <= d
    ensures k % d + 1 == d ==> (k + 1) % d == 0 && (k + 1) / d == k / d + 1
    ensures k % d + 1 < d ==> (k + 1) % d == k % d + 1 && (k + 1) / d == k / d
  {
    var q, r := k / d, k % d;
    assert k == d * q + r;
    if r + 1 == d {
      assert k + 1 == d * (q + 1) + 0;
      DivModUnique(k + 1, d, q + 1, 0);
    } else {
      assert k + 1 == d * q + (r + 1);
      DivModUnique(k + 1, d, q, r + 1);
    }
  }

  /** The optimizer event of batch `j` of an epoch that started with `carried` pending: a step
      exactly when j + 1 is a multiple of `itersize`, consuming the scaled losses of the last
      `itersize` batches, preceded by the carry on the first step only. */
  predicate StepMatches(itersize: int, carried: seq<Contribution>, losses: seq<real>, j: nat, step: Option<seq<Contribution>>)
    requires 1 <= itersize && j < |losses|
  {
    StepShape(itersize, carried, losses, j, (j + 1) % itersize == 0, step)
  }

  /** `StepMatches` with the divisibility test passed in as `due`. */
  predicate StepShape(itersize: int, carried: seq<Contribution>, losses: seq<real>, j: nat, due: bool, step: Option<seq<Contribution>>)
    requires 1 <= itersize && j < |losses|
  {
    if due && itersize <= j + 1 then
      step == Some((if j + 1 == itersize then carried else []) + Scale(itersize, losses[j + 1 - itersize..j + 1]))
    else
      step.None?
  }

  /**
   * Within an epoch (counter starting at 0, `itersize >= 1`), after k batches the
   * counter is k mod itersize and the global step has grown by exactly k div itersize.
   */
  lemma {:induction false} EpochCounter(itersize: int, a: Acc, losses: seq<real>)
    requires 1 <= itersize && a.counter == 0
    ensures Run(itersize, a, losses).acc.counter == |losses| % itersize
    ensures Run(itersize, a, losses).acc.globalStep == a.globalStep + |losses| / itersize
    decreases |losses|
  {
    var k := |losses|;
    if k == 0 {
      return;
    }
    var prefix := losses[..k - 1];
    EpochCounter(itersize, a, prefix);
    DivModNext(k - 1, itersize);
  }

  /** The contributions pending after `losses` in an epoch that started with `carried`,
      given the counter `counter` reached: the carry and every scaled loss until the first
      step, afterwards only the scaled losses of the last `counter` batches. */
  function PendingAfter(itersize: int, carried: seq<Contribution>, losses: seq<real>, counter: nat): seq<Contribution>
    requires counter <= |losses|
  {
    if |losses| < itersize then carried + Scale(itersize, losses)
    else Scale(itersize, losses[|losses| - counter..])
  }

  /** What an epoch's loop state looks like after `losses`, stated without division. */
  predicate EpochInvariant(itersize: int, carried: seq<Contribution>, losses: seq<real>, acc: Acc) {
    && 0 <= acc.counter < itersize
    && acc.counter <= |losses|
    && (|losses| < itersize ==> acc.counter == |losses|)
    && acc.pending == PendingAfter(itersize, carried, losses, acc.counter)
  }

  lemma EpochInvariantStep(itersize: int, carried: seq<Contribution>, losses: seq<real>, acc: Acc, loss: real)
    requires EpochInvariant(itersize, carried, losses, acc)
    ensures EpochInvariant(itersize, carried, losses + [loss], Accumulate(itersize, acc, loss).acc)
  {
    var k := |losses| + 1;
    var all := losses + [loss];
    var after := Accumulate(itersize, acc, loss).acc;
    var last := Scaled(loss, itersize);
    assert all[..k - 1] == losses;
    if acc.counter + 1 == itersize {
      assert all[k - after.counter..] == [];
    } else if k < itersize {
      assert Scale(itersize, all) == Scale(itersize, losses) + [last];
    } else {
      assert all[k - after.counter..] == losses[k - 1 - acc.counter..] + [loss];
      assert Scale(itersize, all[k - after.counter..]) == Scale(itersize, losses[k - 1 - acc.counter..]) + [last];
    }
  }

  /** A non-empty sequence is its prefix followed by its last element. */
  lemma SplitLast<T>(s: seq<T>)
    requires s != []
    ensures s == s[..|s| - 1] + [s[|s| - 1]]
  {
  }

  /** Between steps the counter stays below itersize and the buffers hold what `PendingAfter` describes. */
  lemma {:induction false} EpochPending(itersize: int, a: Acc, losses: seq<real>)
    requires 1 <= itersize && a.counter == 0
    ensures EpochInvariant(itersize, a.pending, losses, Run(itersize, a, losses).acc)
    decreases |losses|
  {
    var k := |losses|;
    if k == 0 {
      return;
    }
    var prefix := losses[..k - 1];
    var before := Run(itersize, a, prefix).acc;
    SplitLast(losses);
    EpochPending(itersize, a, prefix);
    assert Run(itersize, a, losses).acc == Accumulate(itersize, before, losses[k - 1]).acc;
    EpochInvariantStep(itersize, a.pending, prefix, before, losses[k - 1]);
  }

  /**
   * The loop state after k batches of an epoch: the counter is k mod itersize, the global
   * step has advanced k div itersize times, and the gradient buffers hold the carry plus
   * every scaled loss before the first step, afterwards the scaled losses of the batches
   * since the last step.
   */
  lemma EpochState(itersize: int, a: Acc, losses: seq<real>)
    requires 1 <= itersize && a.counter == 0
    ensures var acc := Run(itersize, a, losses).acc;
      && acc.counter == |losses| % itersize
      && acc.globalStep == a.globalStep + |losses| / itersize
      && acc.pending == (if |losses| < itersize then a.pending + Scale(itersize, losses)
                         else Scale(itersize, losses[|losses| - |losses| % itersize..]))
  {
    var acc := Run(itersize, a, losses).acc;
    EpochCounter(itersize, a, losses);
    EpochPending(itersize, a, losses);
    var r := |losses| % itersize;
    assert acc.counter == r;
    assert acc.pending == PendingAfter(itersize, a.pending, losses, r);
  }

  lemma LastStepMatches(itersize: int, carried: seq<Contribution>, losses: seq<real>, acc: Acc, loss: real)
    requires EpochInvariant(itersize, carried, losses, acc)
    ensures StepShape(itersize, carried, losses + [loss], |losses|, acc.counter + 1 == itersize, Accumulate(itersize, acc, loss).consumed)
  {
    var k := |losses| + 1;
    var all := losses + [loss];
    var last := Scaled(loss, itersize);
    if acc.counter + 1 == itersize {
      var consumed := Accumulate(itersize, acc, loss).consumed;
      assert consumed == Some(acc.pending + [last]);
      if k - 1 < itersize {
        assert k == itersize;
        assert acc.pending == carried + Scale(itersize, losses);
        assert all[k - itersize..k] == all;
        assert Scale(itersize, all) == Scale(itersize, losses) + [last];
        assert consumed.value == carried + Scale(itersize, all[k - itersize..k]);
      } else {
        assert k - 1 - acc.counter == k - itersize;
        assert losses[k - itersize..] == all[k - itersize..k - 1];
        assert all[k - itersize..k] == all[k - itersize..k - 1] + [loss];
        assert Scale(itersize, all[k - itersize..k]) == Scale(itersize, losses[k - 1 - acc.counter..]) + [last];
        assert consumed.value == [] + Scale(itersize, all[k - itersize..k]);
      }
    }
  }

  lemma StepDueIsMultiple(k: nat, itersize: int, counter: int)
    requires 1 <= itersize && counter == k % itersize
    ensures (counter + 1 == itersize) == ((k + 1) % itersize == 0)
  {
    DivModNext(k, itersize);
  }

  /** Within an epoch the optimizer steps exactly on the batches whose count is a multiple
      of `itersize`, and each step consumes what `StepMatches` describes. */
  lemma {:induction false} EpochSteps(itersize: int, a: Acc, losses: seq<real>)
    requires 1 <= itersize && a.counter == 0
    ensures forall j :: 0 <= j < |losses| ==> StepMatches(itersize, a.pending, losses, j, Run(itersize, a, losses).steps[j])
    decreases |losses|
  {
    var k := |losses|;
    if k == 0 {
      return;
    }
    var prefix := losses[..k - 1];
    assert losses == prefix + [losses[k - 1]];
    EpochSteps(itersize, a, prefix);
    EpochPending(itersize, a, prefix);
    EpochCounter(itersize, a, prefix);
    var before := Run(itersize, a, prefix);
    var step := Accumulate(itersize, before.acc, losses[k - 1]);
    LastStepMatches(itersize, a.pending, prefix, before.acc, losses[k - 1]);
    StepDueIsMultiple(k - 1, itersize, before.acc.counter);
    StepsExtend(itersize, a.pending, prefix, losses[k - 1], before.steps, step.consumed);
  }

  lemma StepsExtend(itersize: int, carried: seq<Contribution>, losses: seq<real>, loss: real,
                    steps: seq<Option<seq<Contribution>>>, step: Option<seq<Contribution>>)
    requires 1 <= itersize && |steps| == |losses|
    requires forall j :: 0 <= j < |losses| ==> StepMatches(itersize, carried, losses, j, steps[j])
    requires StepMatches(itersize, carried, losses + [loss], |losses|, step)
    ensures forall j :: 0 <= j < |losses| + 1 ==> StepMatches(itersize, carried, losses + [loss], j, (steps + [step])[j])
  {
    var all := losses + [loss];
    forall j | 0 <= j < |losses|
      ensures StepMatches(itersize, carried, all, j, (steps + [step])[j])
    {
      assert StepMatches(itersize, carried, losses, j, steps[j]);
      if (j + 1) % itersize == 0 && itersize <= j + 1 {
        assert losses[j + 1 - itersize..j + 1] == all[j + 1 - itersize..j + 1];
      }
    }
  }

  /** With `itersize < 1` the incremented counter can never equal it: the optimizer never
      steps, the global step never moves and every contribution stays pending. */
  lemma {:induction false} NoStepBelowOne(itersize: int, a: Acc, losses: seq<real>)
    requires itersize < 1 && a.counter >= 0
    ensures Run(itersize, a, losses).acc == Acc(a.counter + |losses|, a.globalStep, a.pending + Scale(itersize, losses))
    ensures forall j :: 0 <= j < |losses| ==> Run(itersize, a, losses).steps[j].None?
    decreases |losses|
  {
    if losses != [] {
      var prefix := losses[..|losses| - 1];
      NoStepBelowOne(itersize, a, prefix);
      assert Scale(itersize, losses) == Scale(itersize, prefix) + [Scaled(losses[|losses| - 1], itersize)];
    }
  }

  /**
   * The counter is reset at every epoch but the gradient buffers are not: when an
   * epoch's batch count is not a multiple of `itersize`, its last contributions
   * are consumed by the next epoch's first step together with that epoch's first
   * `itersize` batches.
   */
  lemma LeftoverCarriesIntoNextEpoch(itersize: int, a: Acc, first: seq<real>, second: seq<real>)
    requires 1 <= itersize <= |first| && itersize <= |second| && a.counter == 0
    ensures var mid := Run(itersize, a, first).acc;
      var next := Run(itersize, mid.(counter := 0), second);
      && next.steps[itersize - 1] == Some(Scale(itersize, first[|first| - |first| % itersize..]) + Scale(itersize, second[..itersize]))
      && |next.steps[itersize - 1].value| == itersize + |first| % itersize
  {
    EpochState(itersize, a, first);
    var mid := Run(itersize, a, first).acc;
    EpochSteps(itersize, mid.(counter := 0), second);
    assert itersize % itersize == 0;
    assert StepMatches(itersize, mid.pending, second, itersize - 1, Run(itersize, mid.(counter := 0), second).steps[itersize - 1]);
    assert second[itersize - itersize..itersize] == second[..itersize];
  }

  /** The sum of the gradient contributions, each `loss / divisor`. */
  function Total(cs: seq<Contribution>): real
    requires forall i :: 0 <= i < |cs| ==> cs[i].divisor != 0
    decreases |cs|
  {
    if cs == [] then 0.0
    else Total(cs[..|cs| - 1]) + cs[|cs| - 1].loss / cs[|cs| - 1].divisor as real
  }

  /** The plain sum of a sequence of losses. */
  function Sum(xs: seq<real>): real
    decreases |xs|
  {
    if xs == [] then 0.0 else Sum(xs[..|xs| - 1]) + xs[|xs| - 1]
  }

  /** Accumulating losses each divided by `itersize` adds up to their sum divided by `itersize`. */
  lemma {:induction false} ScaledTotal(itersize: int, losses: seq<real>)
    requires itersize != 0
    ensures Total(Scale(itersize, losses)) == Sum(losses) / itersize as real
    decreases |losses|
  {
    if losses != [] {
      var prefix := losses[..|losses| - 1];
      var last := losses[|losses| - 1];
      var scaled := Scale(itersize, losses);
      ScaledTotal(itersize, prefix);
      assert scaled[..|losses| - 1] == Scale(itersize, prefix);
      assert Total(scaled) == Total(Scale(itersize, prefix)) + last / itersize as real;
      assert Sum(losses) == Sum(prefix) + last;
    }
  }

  /** Every optimizer step of an epoch that began with empty gradient buffers applies
      the sum of the last `itersize` batch losses divided by `itersize`. */
  lemma StepAppliesWindowMean(itersize: int, a: Acc, losses: seq<real>, j: nat)
    requires 1 <= itersize && a.counter == 0 && a.pending == []
    requires j < |losses| && (j + 1) % itersize == 0
    ensures var step := Run(itersize, a, losses).steps[j];
      && step.Some?
      && (forall i :: 0 <= i < |step.value| ==> step.value[i].divisor == itersize)
      && Total(step.value) == Sum(losses[j + 1 - itersize..j + 1]) / itersize as real
  {
    EpochSteps(itersize, a, losses);
    assert StepMatches(itersize, a.pending, losses, j, Run(itersize, a, losses).steps[j]);
    var window := losses[j + 1 - itersize..j + 1];
    assert Run(itersize, a, losses).steps[j].value == Scale(itersize, window);
    ScaledTotal(itersize, window);
  }

  /** `n_dataset`: the lengths of the training and (if present) validation loaders. */
  function DatasetSize(cfg: Config): nat {
    cfg.nTrain + (if cfg.nVal.Some? then cfg.nVal.value else 0)
  }

  /** The visualisation period `n_dataset // (10 * batch_size)` is undefined or zero, so the trigger raises. */
  predicate TriggerRaises(cfg: Config) {
    cfg.batchSize == 0 || FloorDiv(DatasetSize(cfg), 10 * cfg.batchSize) == Ok(0)
  }

  /** The visualisation trigger evaluated after the step logic of every batch. */
  function VisualisationDue(cfg: Config, globalStep: int): (r: Result<bool>)
    ensures r.Err? <==> TriggerRaises(cfg)
    ensures r.Err? ==> r.error == ZeroDivisionError
  {
    var period :- FloorDiv(DatasetSize(cfg), 10 * cfg.batchSize);
    var m :- Mod(globalStep, period);
    Ok(m == 0)
  }

  /** For a positive batch size the trigger raises exactly when there are fewer than
      `10 * batch_size` loader entries, and otherwise fires exactly on multiples of the period. */
  lemma VisualisationTrigger(cfg: Config, globalStep: int)
    requires cfg.batchSize >= 1
    ensures VisualisationDue(cfg, globalStep).Err? <==> DatasetSize(cfg) < 10 * cfg.batchSize
    ensures var p := DatasetSize(cfg) / (10 * cfg.batchSize);
      VisualisationDue(cfg, globalStep).Ok? ==> (VisualisationDue(cfg, globalStep).value <==> globalStep % p == 0)
  {
    var n, b := DatasetSize(cfg), 10 * cfg.batchSize;
    var p := n / b;
    assert FloorDiv(n, b) == Ok(p);
    DivZeroIff(n, b);
    if p != 0 {
      assert Mod(globalStep, p) == Ok(globalStep % p);
    }
  }

  lemma DivZeroIff(n: nat, d: int)
    requires d >= 1
    ensures n / d == 0 <==> n < d
  {
  }

  /** Over an epoch the trigger fires on batch j exactly when the global step reached after
      it, the starting step plus (j + 1) div itersize, is a multiple of the period; so it fires
      on every batch processed while the step stays on a multiple. */
  lemma VisualisationSchedule(cfg: Config, a: Acc, losses: seq<real>, j: nat)
    requires 1 <= cfg.itersize && a.counter == 0 && cfg.batchSize >= 1 && !TriggerRaises(cfg)
    requires j < |losses|
    ensures var g := Run(cfg.itersize, a, losses[..j + 1]).acc.globalStep;
      g == a.globalStep + (j + 1) / cfg.itersize
      && (VisualisationDue(cfg, g) == Ok(true) <==> g % (DatasetSize(cfg) / (10 * cfg.batchSize)) == 0)
  {
    EpochState(cfg.itersize, a, losses[..j + 1]);
    VisualisationTrigger(cfg, Run(cfg.itersize, a, losses[..j + 1]).acc.globalStep);
  }

  /**
   * One epoch of `Trainer.train`: the counter restarts at 0, the global step and
   * the gradient buffers carry over from `start`, and each batch runs the step
   * logic followed by the visualisation trigger. If the trigger raises, the epoch
   * ends on its first batch, after that batch's step logic.
   */
  method TrainEpoch(cfg: Config, start: Acc, losses: seq<real>)
    returns (acc: Acc, steps: seq<Option<seq<Contribution>>>, visualised: seq<bool>, raised: Option<PyError>)
    ensures raised.Some? <==> losses != [] && TriggerRaises(cfg)
    ensures raised.Some? ==>
      (raised.value == ZeroDivisionError && visualised == []
       && Trace(acc, steps) == Run(cfg.itersize, start.(counter := 0), losses[..1]))
    ensures raised.None? ==> Trace(acc, steps) == Run(cfg.itersize, start.(counter := 0), losses)
    ensures raised.None? ==> |visualised| == |losses|
    ensures raised.None? ==> forall j :: 0 <= j < |losses| ==>
      (visualised[j] <==> VisualisationDue(cfg, Run(cfg.itersize, start.(counter := 0), losses[..j + 1]).acc.globalStep) == Ok(true))
  {
    var initial := start.(counter := 0);
    acc, steps, visualised, raised := initial, [], [], None;
    var i := 0;
    while i < |losses|
      invariant 0 <= i <= |losses|
      invariant Trace(acc, steps) == Run(cfg.itersize, initial, losses[..i])
      invariant |visualised| == i
      invariant forall j :: 0 <= j < i ==>
        (visualised[j] <==> VisualisationDue(cfg, Run(cfg.itersize, initial, losses[..j + 1]).acc.globalStep) == Ok(true))
      invariant 0 < i ==> !TriggerRaises(cfg)
    {
      assert losses[..i + 1][..i] == losses[..i];
      var t := Accumulate(cfg.itersize, acc, losses[i]);
      acc, steps := t.acc, steps + [t.consumed];
      var due := VisualisationDue(cfg, acc.globalStep);
      if due.Err? {
        raised := Some(due.error);
        return;
      }
      visualised := visualised + [due.value];
      i := i + 1;
    }
    assert losses[..i] == losses;
  }
}
