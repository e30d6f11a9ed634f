/** Properties of one epoch of a session: which batch costs abort it, the
    per-batch training cost trace it records, and the training cost it adds
    to the history. */
module EpochProps {
  import opened Wrappers
  import opened Scores
  import opened Session
  import Scheduler
  import BatchPlan

  /** Which of the batches k .. nb-1 run the step whose cost is checked:
      every batch in least-squares mode, the batches the scheduler selects
      in adversarial mode, `gu` generator updates having been done before
      batch k. */
  function StepFlags(mode: Mode, k: nat, nb: nat, gu: nat): (flags: seq<bool>)
    ensures |flags| == if k <= nb then nb - k else 0
  {
    if mode.LeastSquares? then seq(if k <= nb then nb - k else 0, _ => true)
    else Scheduler.Schedule(k, nb, gu)
  }

  /** The flags from batch k are the flag of batch k followed by the flags
      from batch k + 1, after the update count has been raised by a
      generator step of batch k. */
  lemma StepFlagsUnfold(mode: Mode, k: nat, nb: nat, gu: nat)
    requires k < nb
    ensures var g := mode.LeastSquares? || Scheduler.StepsGenerator(k, gu);
            StepFlags(mode, k, nb, gu) ==
              [g] + StepFlags(mode, k + 1, nb, if g && mode.Adversarial? then gu + 1 else gu)
  {
    if mode.LeastSquares? {
      assert StepFlags(mode, k, nb, gu) == [true] + StepFlags(mode, k + 1, nb, gu);
    }
  }

  /** The first batch of an epoch always runs the checked step. */
  lemma FirstBatchSteps(mode: Mode, nb: nat, gu: nat)
    requires nb > 0
    ensures StepFlags(mode, 0, nb, gu)[0]
  {
    if mode.Adversarial? {
      Scheduler.FirstBatchStepsGenerator(nb, gu);
    }
  }

  /** The position of the last `true` of `flags` at or before `p`, if any. */
  function LastStep(flags: seq<bool>, p: nat): (j: Option<nat>)
    requires p < |flags|
    ensures j.Some? ==> j.value <= p && flags[j.value] && forall l :: j.value < l <= p ==> !flags[l]
    ensures j.None? ==> forall l :: 0 <= l <= p ==> !flags[l]
    decreases p
  {
    if flags[p] then Some(p) else if p == 0 then None else LastStep(flags, p - 1)
  }

  /** `LastStep` of a sequence with one more flag in front. */
  lemma {:induction false} LastStepCons(g: bool, rest: seq<bool>, p: nat)
    requires p < |rest|
    ensures LastStep([g] + rest, p + 1) ==
              match LastStep(rest, p)
              case Some(j) => Some(j + 1)
              case None => if g then Some(0) else None
    decreases p
  {
    var flags := [g] + rest;
    assert flags[p + 1] == rest[p];
    if !rest[p] && p > 0 {
      LastStepCons(g, rest, p - 1);
    }
  }

  /** `t` is the cost trace a batch loop from batch `k` records over the
      batches `flags` describes: at every batch, the cost of the last batch
      up to it that ran the checked step, or the cost `cur` carried in when
      none has yet. */
  ghost predicate RecordsCosts(oracle: Oracle, epoch: nat, k: nat, flags: seq<bool>, cur: Option<real>, t: seq<real>)
  {
    && |t| == |flags|
    && forall p :: 0 <= p < |t| ==>
         match LastStep(flags, p)
         case Some(j) => oracle.batchCost(epoch, k + j) == Num(t[p])
         case None => cur == Some(t[p])
  }

  /** The recorded trace is determined by the costs: two traces that both
      fit are equal. */
  lemma RecordedTraceUnique(oracle: Oracle, epoch: nat, k: nat, flags: seq<bool>, cur: Option<real>,
                            t1: seq<real>, t2: seq<real>)
    requires RecordsCosts(oracle, epoch, k, flags, cur, t1)
    requires RecordsCosts(oracle, epoch, k, flags, cur, t2)
    ensures t1 == t2
  {
    forall p | 0 <= p < |t1|
      ensures t1[p] == t2[p]
    {
      match LastStep(flags, p)
      case Some(j) =>
        assert Num(t1[p]) == Num(t2[p]);
      case None =>
    }
  }

  lemma RecordsPrepend(oracle: Oracle, epoch: nat, k: nat, g: bool, rest: seq<bool>,
                       cur: Option<real>, cur': Option<real>, x: real, t': seq<real>)
    requires g ==> oracle.batchCost(epoch, k) == Num(x) && cur' == Some(x)
    requires !g ==> cur == Some(x) && cur' == cur
    requires RecordsCosts(oracle, epoch, k + 1, rest, cur', t')
    ensures RecordsCosts(oracle, epoch, k, [g] + rest, cur, [x] + t')
  {
    var flags := [g] + rest;
    var t := [x] + t';
    forall p | 0 < p < |t|
      ensures match LastStep(flags, p)
              case Some(j) => oracle.batchCost(epoch, k + j) == Num(t[p])
              case None => cur == Some(t[p])
    {
      LastStepCons(g, rest, p - 1);
      assert t[p] == t'[p - 1];
    }
  }

  /** No batch from `k` on that runs the checked step has a NaN cost. */
  ghost predicate SteppedCostsAreNumbers(oracle: Oracle, epoch: nat, k: nat, flags: seq<bool>)
  {
    forall l :: 0 <= l < |flags| && flags[l] ==> oracle.batchCost(epoch, k + l).Num?
  }

  /** Batch `b` is the first batch from `k` on that runs the checked step
      and has a NaN cost. */
  ghost predicate FirstSteppedNaN(oracle: Oracle, epoch: nat, k: nat, flags: seq<bool>, b: nat)
  {
    && k <= b < k + |flags|
    && flags[b - k]
    && oracle.batchCost(epoch, b).NaN?
    && forall l :: 0 <= l < b - k && flags[l] ==> oracle.batchCost(epoch, k + l).Num?
  }

  lemma NumbersPrepend(oracle: Oracle, epoch: nat, k: nat, g: bool, rest: seq<bool>)
    requires g ==> oracle.batchCost(epoch, k).Num?
    ensures SteppedCostsAreNumbers(oracle, epoch, k, [g] + rest) <==>
            SteppedCostsAreNumbers(oracle, epoch, k + 1, rest)
  {
    var flags := [g] + rest;
    if SteppedCostsAreNumbers(oracle, epoch, k + 1, rest) {
      forall l | 0 < l < |flags| && flags[l]
        ensures oracle.batchCost(epoch, k + l).Num?
      {
        assert flags[l] == rest[l - 1];
        assert k + l == (k + 1) + (l - 1);
      }
    }
    if SteppedCostsAreNumbers(oracle, epoch, k, flags) {
      forall l | 0 <= l < |rest| && rest[l]
        ensures oracle.batchCost(epoch, k + 1 + l).Num?
      {
        assert flags[l + 1] == rest[l];
      }
    }
  }

  lemma FirstNaNPrepend(oracle: Oracle, epoch: nat, k: nat, g: bool, rest: seq<bool>, b: nat)
    requires g ==> oracle.batchCost(epoch, k).Num?
    requires FirstSteppedNaN(oracle, epoch, k + 1, rest, b)
    ensures FirstSteppedNaN(oracle, epoch, k, [g] + rest, b)
  {
    var flags := [g] + rest;
    assert flags[b - k] == rest[b - (k + 1)];
    forall l | 0 < l < b - k && flags[l]
      ensures oracle.batchCost(epoch, k + l).Num?
    {
      assert flags[l] == rest[l - 1];
      assert k + l == (k + 1) + (l - 1);
    }
  }

  /** One batch of the loop: a NaN cost of a batch that runs the checked
      step aborts; otherwise the loop goes on from the next batch with the
      update count, the carried cost and the trace that batch leaves. */
  lemma BatchLoopStep(mode: Mode, oracle: Oracle, epoch: nat, nb: nat, k: nat, gu: nat,
                      cur: Option<real>, trace: seq<real>)
    requires k < nb
    ensures var g := mode.LeastSquares? || Scheduler.StepsGenerator(k, gu);
            var gu' := if g && mode.Adversarial? then gu + 1 else gu;
            var r := BatchLoop(mode, oracle, epoch, nb, k, gu, cur, trace);
            && (g && oracle.batchCost(epoch, k).NaN? ==> r == Err(TrainCostNaN(epoch, k)))
            && (g && oracle.batchCost(epoch, k).Num? ==>
                  var c := oracle.batchCost(epoch, k).v;
                  r == BatchLoop(mode, oracle, epoch, nb, k + 1, gu', Some(c), trace + [c]))
            && (!g ==> r == BatchLoop(mode, oracle, epoch, nb, k + 1, gu', cur,
                                      if cur.Some? then trace + [cur.value] else trace))
  {
  }

  /** The abort rule of the batch loop: it completes exactly when no batch
      that runs the checked step has a NaN cost, and otherwise fails at the
      first such batch.  A NaN cost of an adversarial batch that steps only
      the critic aborts nothing. */
  lemma {:induction false} BatchLoopAborts(mode: Mode, oracle: Oracle, epoch: nat, nb: nat, k: nat, gu: nat,
                                           cur: Option<real>, trace: seq<real>)
    ensures var r := BatchLoop(mode, oracle, epoch, nb, k, gu, cur, trace);
            var flags := StepFlags(mode, k, nb, gu);
            && (r.Ok? <==> SteppedCostsAreNumbers(oracle, epoch, k, flags))
            && (r.Err? ==> FirstSteppedNaN(oracle, epoch, k, flags, r.error.batch))
    decreases nb - k
  {
    if k < nb {
      var g := mode.LeastSquares? || Scheduler.StepsGenerator(k, gu);
      var gu' := if g && mode.Adversarial? then gu + 1 else gu;
      var rest := StepFlags(mode, k + 1, nb, gu');
      StepFlagsUnfold(mode, k, nb, gu);
      BatchLoopStep(mode, oracle, epoch, nb, k, gu, cur, trace);
      if g && oracle.batchCost(epoch, k).NaN? {
        assert ([g] + rest)[0];
      } else {
        var cur' := if g then Some(oracle.batchCost(epoch, k).v) else cur;
        var trace' := if g then trace + [oracle.batchCost(epoch, k).v]
                      else if cur.Some? then trace + [cur.value] else trace;
        var r' := BatchLoop(mode, oracle, epoch, nb, k + 1, gu', cur', trace');
        BatchLoopAborts(mode, oracle, epoch, nb, k + 1, gu', cur', trace');
        AbortsPrepend(oracle, epoch, k, g, rest, r');
      }
    }
  }

  /** The step of `BatchLoopAborts` past a batch whose checked cost, if
      any, is a number, for the result `r` of the rest of the loop. */
  lemma AbortsPrepend<T>(oracle: Oracle, epoch: nat, k: nat, g: bool, rest: seq<bool>, r: Result<T, Failure>)
    requires g ==> oracle.batchCost(epoch, k).Num?
    requires r.Ok? <==> SteppedCostsAreNumbers(oracle, epoch, k + 1, rest)
    requires r.Err? ==> r.error.TrainCostNaN? && FirstSteppedNaN(oracle, epoch, k + 1, rest, r.error.batch)
    ensures r.Ok? <==> SteppedCostsAreNumbers(oracle, epoch, k, [g] + rest)
    ensures r.Err? ==> FirstSteppedNaN(oracle, epoch, k, [g] + rest, r.error.batch)
  {
    NumbersPrepend(oracle, epoch, k, g, rest);
    if r.Err? {
      FirstNaNPrepend(oracle, epoch, k, g, rest, r.error.batch);
    }
  }

  /** The cost trace of a completed batch loop: the trace so far followed by
      one entry per batch from `k` on, holding the cost of the last batch up
      to it that ran the checked step (the carried cost before the first
      one).  From batch 0 no cost is carried in, and none is needed. */
  lemma {:induction false} BatchLoopRecords(mode: Mode, oracle: Oracle, epoch: nat, nb: nat, k: nat, gu: nat,
                                            cur: Option<real>, trace: seq<real>)
    requires k == 0 || cur.Some?
    ensures var r := BatchLoop(mode, oracle, epoch, nb, k, gu, cur, trace);
            r.Ok? ==> && |r.value.1| >= |trace|
                      && r.value.1[..|trace|] == trace
                      && RecordsCosts(oracle, epoch, k, StepFlags(mode, k, nb, gu), cur, r.value.1[|trace|..])
    decreases nb - k
  {
    var r := BatchLoop(mode, oracle, epoch, nb, k, gu, cur, trace);
    if k < nb && r.Ok? {
      var g := mode.LeastSquares? || Scheduler.StepsGenerator(k, gu);
      var gu' := if g && mode.Adversarial? then gu + 1 else gu;
      var rest := StepFlags(mode, k + 1, nb, gu');
      StepFlagsUnfold(mode, k, nb, gu);
      BatchLoopStep(mode, oracle, epoch, nb, k, gu, cur, trace);
      var x := if g then oracle.batchCost(epoch, k).v else cur.value;
      var cur' := if g then Some(x) else cur;
      BatchLoopRecords(mode, oracle, epoch, nb, k + 1, gu', cur', trace + [x]);
      RecordsTail(oracle, epoch, k, g, rest, cur, cur', x, trace, r.value.1);
    } else if r.Ok? {
      assert r.value.1[|trace|..] == [];
    }
  }

  /** The step of `BatchLoopRecords` on the output sequence `out`. */
  lemma RecordsTail(oracle: Oracle, epoch: nat, k: nat, g: bool, rest: seq<bool>,
                    cur: Option<real>, cur': Option<real>, x: real, trace: seq<real>, out: seq<real>)
    requires g ==> oracle.batchCost(epoch, k) == Num(x) && cur' == Some(x)
    requires !g ==> cur == Some(x) && cur' == cur
    requires |out| >= |trace + [x]| && out[..|trace + [x]|] == trace + [x]
    requires RecordsCosts(oracle, epoch, k + 1, rest, cur', out[|trace + [x]|..])
    ensures |out| >= |trace| && out[..|trace|] == trace
    ensures RecordsCosts(oracle, epoch, k, [g] + rest, cur, out[|trace|..])
  {
    assert out[|trace|..] == [x] + out[|trace| + 1..];
    RecordsPrepend(oracle, epoch, k, g, rest, cur, cur', x, out[|trace| + 1..]);
  }

  /** `t` is the per-batch training cost trace of an epoch with the flags
      `flags`. */
  ghost predicate EpochTrace(oracle: Oracle, epoch: nat, flags: seq<bool>, t: seq<real>)
  {
    |t| > 0 && RecordsCosts(oracle, epoch, 0, flags, None, t)
  }

  /** One epoch's training: it aborts on a training cost exactly when a
      batch that runs the checked step has a NaN cost, at the first such
      batch; a completed epoch appends to the training cost history the
      mean of its cost trace, scaled by 0.1 in adversarial mode. */
  lemma EpochTraining(mode: Mode, cfg: TrainConfig, oracle: Oracle, worstVal: real, nb: nat,
                      epoch: nat, st: LoopState)
    ensures var r := RunEpoch(mode, cfg, oracle, worstVal, nb, epoch, st);
            var flags := StepFlags(mode, 0, nb, st.generatorUpdates);
            && (r.Err? && r.error.TrainCostNaN? <==> nb > 0 && !SteppedCostsAreNumbers(oracle, epoch, 0, flags))
            && (r.Err? && r.error.TrainCostNaN? ==> FirstSteppedNaN(oracle, epoch, 0, flags, r.error.batch))
            && (r.Ok? ==> && SteppedCostsAreNumbers(oracle, epoch, 0, flags)
                          && exists t :: && EpochTrace(oracle, epoch, flags, t)
                                         && r.value.state.trainCosts ==
                                              st.trainCosts + [(if mode.Adversarial? then 0.1 else 1.0) * Mean(t)])
  {
    var r := RunEpoch(mode, cfg, oracle, worstVal, nb, epoch, st);
    var flags := StepFlags(mode, 0, nb, st.generatorUpdates);
    if nb > 0 {
      BatchLoopAborts(mode, oracle, epoch, nb, 0, st.generatorUpdates, None, []);
      BatchLoopRecords(mode, oracle, epoch, nb, 0, st.generatorUpdates, None, []);
      var b := BatchLoop(mode, oracle, epoch, nb, 0, st.generatorUpdates, None, []);
      if r.Ok? {
        var t := b.value.1;
        assert t[0..] == t;
        assert EpochTrace(oracle, epoch, flags, t);
      }
    }
  }

  /** The trace of an epoch has one entry per batch, each the cost of a
      batch that ran the checked step: the batch itself or the last one
      before it.  Batch 0 always steps, so no entry is carried in. */
  lemma EpochTraceEntries(oracle: Oracle, epoch: nat, mode: Mode, nb: nat, gu: nat, t: seq<real>)
    requires EpochTrace(oracle, epoch, StepFlags(mode, 0, nb, gu), t)
    ensures |t| == nb
    ensures forall p :: 0 <= p < nb ==>
              && LastStep(StepFlags(mode, 0, nb, gu), p).Some?
              && oracle.batchCost(epoch, LastStep(StepFlags(mode, 0, nb, gu), p).value) == Num(t[p])
  {
    FirstBatchSteps(mode, nb, gu);
  }

  /** The epoch's split fails exactly when the session's epoch fails for
      want of batches: both happen when the batch count is zero.  The
      session reads the costs of the batches by position, so it does not
      carry the split itself. */
  lemma NoBatchesIsSplitFailure(mode: Mode, cfg: TrainConfig, oracle: Oracle, worstVal: real, nb: nat,
                                epoch: nat, st: LoopState, perm: seq<nat>)
    requires |perm| == nb * cfg.batchSize
    ensures RunEpoch(mode, cfg, oracle, worstVal, nb, epoch, st) == Err(NoBatches(epoch)) <==>
            BatchPlan.EpochBatches(perm, nb, cfg.batchSize).Err?
  {
  }
}
