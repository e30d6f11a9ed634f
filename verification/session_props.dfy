/** Properties of the training session: how the batch loop follows the
    scheduler, the strictly improving "best" saves, the non-improvement
    counter and early stop, the aborts, the terminal summary and resume. */
module SessionProps {
  import opened Wrappers
  import opened Scores
  import opened Session
  import Scheduler
  import BatchPlan

  /** In adversarial mode a completed batch loop performs exactly one
      generator update per batch the scheduler selects; in least-squares mode
      it performs none. */
  lemma {:induction false} BatchLoopFollowsSchedule(mode: Mode, oracle: Oracle, epoch: nat, nb: nat, k: nat,
                                                    gu: nat, cur: Option<real>, trace: seq<real>)
    ensures var r := BatchLoop(mode, oracle, epoch, nb, k, gu, cur, trace);
            r.Ok? ==> r.value.0 == gu + (if mode.Adversarial? then Scheduler.CountTrue(Scheduler.Schedule(k, nb, gu)) else 0)
    decreases nb - k
  {
    if k < nb {
      var g := Scheduler.StepsGenerator(k, gu);
      var stepped := mode.LeastSquares? || g;
      var gu' := if mode.Adversarial? && g then gu + 1 else gu;
      var rest := Scheduler.Schedule(k + 1, nb, if g then gu + 1 else gu);
      assert Scheduler.Schedule(k, nb, gu) == [g] + rest;
      Scheduler.CountTrueConcat([g], rest);
      assert Scheduler.CountTrue([g]) == (if g then 1 else 0) by {
        assert [g] == [] + [g];
        Scheduler.CountTrueAppend([], g);
      }
      if stepped {
        match oracle.batchCost(epoch, k)
        case NaN =>
        case Num(c) =>
          BatchLoopFollowsSchedule(mode, oracle, epoch, nb, k + 1, gu', Some(c), trace + [c]);
      } else {
        BatchLoopFollowsSchedule(mode, oracle, epoch, nb, k + 1, gu, cur,
                                 if cur.Some? then trace + [cur.value] else trace);
      }
    }
  }

  /** An adversarial epoch that completes raises the generator update count
      by the number of batches the scheduler selects; a least-squares epoch
      leaves it unchanged. */
  lemma EpochGeneratorUpdates(mode: Mode, cfg: TrainConfig, oracle: Oracle, worstVal: real, nb: nat,
                              epoch: nat, st: LoopState)
    ensures var r := RunEpoch(mode, cfg, oracle, worstVal, nb, epoch, st);
            r.Ok? ==> r.value.state.generatorUpdates ==
                      st.generatorUpdates +
                      (if mode.Adversarial? then Scheduler.CountTrue(Scheduler.Schedule(0, nb, st.generatorUpdates)) else 0)
  {
    BatchLoopFollowsSchedule(mode, oracle, epoch, nb, 0, st.generatorUpdates, None, []);
  }

  /** What every epoch step of a session guarantees: a completed epoch
      applies the save decision to the loop state, and a failed one fails
      with an error raised in that epoch. */
  ghost predicate SoundStep(step: EpochStep, minEpochs: int)
  {
    forall e: nat, s: LoopState ::
      && (step(e, s).Ok? ==> KeepsBooks(minEpochs, e, s, step(e, s).value))
      && FailsInEpoch(e, step(e, s))
  }

  /** The epoch step of every session is sound. */
  lemma EpochOfSound(mode: Mode, cfg: TrainConfig, oracle: Oracle, worstVal: real, nb: nat)
    ensures SoundStep(EpochOf(mode, cfg, oracle, worstVal, nb), cfg.minEpochs)
  {
    var step := EpochOf(mode, cfg, oracle, worstVal, nb);
    forall e: nat, s: LoopState
      ensures && (step(e, s).Ok? ==> KeepsBooks(cfg.minEpochs, e, s, step(e, s).value))
              && FailsInEpoch(e, step(e, s))
    {
      assert step(e, s) == RunEpoch(mode, cfg, oracle, worstVal, nb, e, s);
    }
  }
  /** A session with a positive batch size is the epoch loop of its epoch
      step, from its start point. */
  lemma TrainIsLoop(mode: Mode, cfg: TrainConfig, oracle: Oracle, worstVal: real, nbSentences: nat,
                    cont: bool, saved: Option<Checkpoint>)
    requires cfg.batchSize > 0
    ensures var step := EpochOf(mode, cfg, oracle, worstVal, BatchPlan.NbBatches(nbSentences, cfg.batchSize));
            var start := StartPoint(cfg, cont, saved);
            && SoundStep(step, cfg.minEpochs)
            && Train(mode, cfg, oracle, worstVal, nbSentences, cont, saved) == Loop(step, cfg, worstVal, start.0, start.1, None)
  {
    EpochOfSound(mode, cfg, oracle, worstVal, BatchPlan.NbBatches(nbSentences, cfg.batchSize));
  }


  /** Scores saved as "best" strictly decrease, at strictly increasing epochs. */
  ghost predicate StrictlyImproving(ws: seq<BestWrite>)
  {
    forall i, j :: 0 <= i < j < |ws| ==> ws[i].epoch < ws[j].epoch && ws[j].costVal < ws[i].costVal
  }

  /** A save that precedes, and scores above, every save of a strictly
      improving sequence extends it. */
  lemma ImprovingPrepend(w: BestWrite, ws: seq<BestWrite>)
    requires StrictlyImproving(ws)
    requires forall i :: 0 <= i < |ws| ==> w.epoch < ws[i].epoch && ws[i].costVal < w.costVal
    ensures StrictlyImproving([w] + ws)
  {
    var vs := [w] + ws;
    forall i, j | 0 <= i < j < |vs|
      ensures vs[i].epoch < vs[j].epoch && vs[j].costVal < vs[i].costVal
    {
      assert vs[j] == ws[j - 1];
      if i > 0 {
        assert vs[i] == ws[i - 1];
      }
    }
  }

  /** What follows a completed epoch: the summary after an early stop,
      otherwise the loop from the next epoch. */
  function Continuation(step: EpochStep, cfg: TrainConfig, worstVal: real, epoch: nat, er: EpochResult): Run
    requires epoch <= cfg.maxEpochs
  {
    if er.state.nbNoDec >= cfg.patience then Run(Finish(worstVal, er.state, Some(epoch)), [], [])
    else Loop(step, cfg, worstVal, epoch + 1, er.state, Some(epoch))
  }

  /** One unfolding of the loop at an epoch that completes: its writes come
      first, then those of the continuation, whose outcome is the loop's. */
  lemma LoopUnfold(step: EpochStep, cfg: TrainConfig, worstVal: real, epoch: nat, st: LoopState, last: Option<nat>)
    requires epoch <= cfg.maxEpochs && step(epoch, st).Ok?
    ensures var er := step(epoch, st).value;
            var rest := Continuation(step, cfg, worstVal, epoch, er);
            var r := Loop(step, cfg, worstVal, epoch, st, last);
            && r.result == rest.result
            && r.lastWrites == [Extras(epoch, er.costVal, er.state)] + rest.lastWrites
            && r.bestWrites == (if er.improved then [BestWrite(epoch, er.costVal)] else []) + rest.bestWrites
  {
  }

  /** Every save of `ws` is at or after epoch `e` and the floor `floor`. */
  ghost predicate SavedFrom(ws: seq<BestWrite>, e: nat, floor: int)
  {
    forall i :: 0 <= i < |ws| ==> ws[i].epoch >= e && ws[i].epoch >= floor
  }

  lemma SavedFromPrepend(e: nat, floor: int, pre: seq<BestWrite>, ws: seq<BestWrite>)
    requires SavedFrom(ws, e + 1, floor)
    requires forall i :: 0 <= i < |pre| ==> pre[i].epoch == e && e >= floor
    ensures SavedFrom(pre + ws, e, floor)
  {
    var vs := pre + ws;
    forall i | 0 <= i < |vs|
      ensures vs[i].epoch >= e && vs[i].epoch >= floor
    {
      if i >= |pre| {
        assert vs[i] == ws[i - |pre|];
      }
    }
  }

  /** Every "best" save of the loop from `epoch` on happens at or after
      `epoch` and at or after the minimum-epoch floor. */
  lemma {:induction false} LoopBestWritesEpochs(step: EpochStep, cfg: TrainConfig, worstVal: real,
                                                epoch: nat, st: LoopState, last: Option<nat>)
    requires SoundStep(step, cfg.minEpochs)
    ensures SavedFrom(Loop(step, cfg, worstVal, epoch, st, last).bestWrites, epoch, cfg.minEpochs)
    decreases cfg.maxEpochs + 1 - epoch
  {
    if epoch <= cfg.maxEpochs && step(epoch, st).Ok? {
      var er := step(epoch, st).value;
      assert KeepsBooks(cfg.minEpochs, epoch, st, er);
      LoopUnfold(step, cfg, worstVal, epoch, st, last);
      var rest := Continuation(step, cfg, worstVal, epoch, er);
      if er.state.nbNoDec < cfg.patience {
        LoopBestWritesEpochs(step, cfg, worstVal, epoch + 1, er.state, Some(epoch));
      }
      SavedFromPrepend(epoch, cfg.minEpochs, if er.improved then [BestWrite(epoch, er.costVal)] else [],
                       rest.bestWrites);
    }
  }

  /** The saves `ws` strictly improve, and each beats the best value
      `bestVal` when there is one. */
  ghost predicate ImprovesOn(ws: seq<BestWrite>, bestVal: Option<real>)
  {
    && StrictlyImproving(ws)
    && (bestVal.Some? ==> forall i :: 0 <= i < |ws| ==> ws[i].costVal < bestVal.value)
  }

  /** A save that beats the old best value, followed by saves in later
      epochs that improve on it, improves on the old best value. */
  lemma ImprovesOnPrepend(w: BestWrite, ws: seq<BestWrite>, bestVal: Option<real>, floor: int)
    requires bestVal.Some? ==> w.costVal < bestVal.value
    requires ImprovesOn(ws, Some(w.costVal)) && SavedFrom(ws, w.epoch + 1, floor)
    ensures ImprovesOn([w] + ws, bestVal)
  {
    ImprovingPrepend(w, ws);
    var vs := [w] + ws;
    if bestVal.Some? {
      forall i | 0 <= i < |vs|
        ensures vs[i].costVal < bestVal.value
      {
        if i > 0 {
          assert vs[i] == ws[i - 1];
        }
      }
    }
  }

  /** The "best" saves of the loop from `epoch` on strictly improve, and
      each beats the best value the loop started with. */
  lemma {:induction false} LoopBestWritesImprove(step: EpochStep, cfg: TrainConfig, worstVal: real,
                                                 epoch: nat, st: LoopState, last: Option<nat>)
    requires SoundStep(step, cfg.minEpochs)
    ensures ImprovesOn(Loop(step, cfg, worstVal, epoch, st, last).bestWrites, st.bestVal)
    decreases cfg.maxEpochs + 1 - epoch, 1
  {
    if epoch <= cfg.maxEpochs && step(epoch, st).Ok? {
      ImproveFromEpoch(step, cfg, worstVal, epoch, st, last);
    }
  }

  /** `LoopBestWritesImprove` at an epoch that completes, from the same
      property of the continuation. */
  lemma {:induction false} ImproveFromEpoch(step: EpochStep, cfg: TrainConfig, worstVal: real,
                                            epoch: nat, st: LoopState, last: Option<nat>)
    requires SoundStep(step, cfg.minEpochs)
    requires epoch <= cfg.maxEpochs && step(epoch, st).Ok?
    ensures ImprovesOn(Loop(step, cfg, worstVal, epoch, st, last).bestWrites, st.bestVal)
    decreases cfg.maxEpochs + 1 - epoch, 0
  {
    var er := step(epoch, st).value;
    assert KeepsBooks(cfg.minEpochs, epoch, st, er);
    LoopUnfold(step, cfg, worstVal, epoch, st, last);
    var rest := Continuation(step, cfg, worstVal, epoch, er).bestWrites;
    if er.state.nbNoDec < cfg.patience {
      LoopBestWritesImprove(step, cfg, worstVal, epoch + 1, er.state, Some(epoch));
      LoopBestWritesEpochs(step, cfg, worstVal, epoch + 1, er.state, Some(epoch));
    }
    if er.improved {
      ImprovesOnPrepend(BestWrite(epoch, er.costVal), rest, st.bestVal, cfg.minEpochs);
    } else {
      assert [] + rest == rest;
    }
  }

  /** Whatever the start, the "best" saves of a session strictly improve,
      none happens before the minimum-epoch floor, and each beats the best
      value the session started with. */
  lemma BestSavesStrictlyImprove(mode: Mode, cfg: TrainConfig, oracle: Oracle, worstVal: real, nbSentences: nat,
                                 cont: bool, saved: Option<Checkpoint>)
    ensures var ws := Train(mode, cfg, oracle, worstVal, nbSentences, cont, saved).bestWrites;
            var st := StartPoint(cfg, cont, saved).1;
            && StrictlyImproving(ws)
            && (forall i :: 0 <= i < |ws| ==> ws[i].epoch >= cfg.minEpochs)
            && (st.bestVal.Some? ==> forall i :: 0 <= i < |ws| ==> ws[i].costVal < st.bestVal.value)
  {
    if cfg.batchSize > 0 {
      var nb := BatchPlan.NbBatches(nbSentences, cfg.batchSize);
      var start := StartPoint(cfg, cont, saved);
      var step := EpochOf(mode, cfg, oracle, worstVal, nb);
      TrainIsLoop(mode, cfg, oracle, worstVal, nbSentences, cont, saved);
      LoopBestWritesEpochs(step, cfg, worstVal, start.0, start.1, None);
      LoopBestWritesImprove(step, cfg, worstVal, start.0, start.1, None);
    }
  }


  /** How one completed epoch changes the best value and the counter, as
      seen in the "last" state it writes. */
  ghost predicate CounterStep(minEpochs: int, prev: LoopState, next: Extras)
  {
    var improves := prev.bestVal.None? || next.costVal < prev.bestVal.value;
    && (next.epoch < minEpochs ==>
          next.state.nbNoDec == prev.nbNoDec && next.state.bestVal == prev.bestVal)
    && (next.epoch >= minEpochs && improves ==>
          next.state.nbNoDec == 0 && next.state.bestVal == Some(next.costVal))
    && (next.epoch >= minEpochs && !improves ==>
          next.state.nbNoDec == prev.nbNoDec + 1 && next.state.bestVal == prev.bestVal)
  }

  /** The "last" training states `lw`, written from `epoch` on starting
      from state `st`: consecutive epochs, none beyond the maximum; each
      epoch moves the counter as the save decision says; and every epoch
      but the last leaves the counter below the patience. */
  ghost predicate WritesTimeline(cfg: TrainConfig, epoch: nat, st: LoopState, lw: seq<Extras>)
  {
    && (forall i :: 0 <= i < |lw| ==> lw[i].epoch == epoch + i && lw[i].epoch <= cfg.maxEpochs)
    && (|lw| > 0 ==> CounterStep(cfg.minEpochs, st, lw[0]))
    && (forall i :: 0 < i < |lw| ==> CounterStep(cfg.minEpochs, lw[i - 1].state, lw[i]))
    && (forall i :: 0 <= i < |lw| - 1 ==> lw[i].state.nbNoDec < cfg.patience)
  }

  /** A write for `epoch` that keeps the books, followed by a timeline from
      the next epoch, is a timeline from `epoch`. */
  lemma WritesPrepend(cfg: TrainConfig, epoch: nat, st: LoopState, x: Extras, rest: seq<Extras>)
    requires x.epoch == epoch <= cfg.maxEpochs && CounterStep(cfg.minEpochs, st, x)
    requires |rest| > 0 ==> x.state.nbNoDec < cfg.patience
    requires WritesTimeline(cfg, epoch + 1, x.state, rest)
    ensures WritesTimeline(cfg, epoch, st, [x] + rest)
  {
    var lw := [x] + rest;
    forall i | 0 < i < |lw|
      ensures lw[i].epoch == epoch + i && lw[i].epoch <= cfg.maxEpochs
      ensures CounterStep(cfg.minEpochs, lw[i - 1].state, lw[i])
    {
      var j := i - 1;
      assert lw[i] == rest[j];
      if j > 0 {
        assert lw[i - 1] == rest[j - 1];
        assert CounterStep(cfg.minEpochs, rest[j - 1].state, rest[j]);
      }
    }
    forall i | 0 < i < |lw| - 1
      ensures lw[i].state.nbNoDec < cfg.patience
    {
      assert lw[i] == rest[i - 1];
    }
  }

  /** The "last" training states of the loop from `epoch` on follow the
      timeline above. */
  lemma {:induction false} LoopWrites(step: EpochStep, cfg: TrainConfig, worstVal: real,
                                      epoch: nat, st: LoopState, last: Option<nat>)
    requires SoundStep(step, cfg.minEpochs)
    ensures WritesTimeline(cfg, epoch, st, Loop(step, cfg, worstVal, epoch, st, last).lastWrites)
    decreases cfg.maxEpochs + 1 - epoch
  {
    if epoch <= cfg.maxEpochs && step(epoch, st).Ok? {
      var er := step(epoch, st).value;
      assert KeepsBooks(cfg.minEpochs, epoch, st, er);
      var x := Extras(epoch, er.costVal, er.state);
      assert CounterStep(cfg.minEpochs, st, x);
      LoopUnfold(step, cfg, worstVal, epoch, st, last);
      if er.state.nbNoDec < cfg.patience {
        LoopWrites(step, cfg, worstVal, epoch + 1, er.state, Some(epoch));
        WritesPrepend(cfg, epoch, st, x, Loop(step, cfg, worstVal, epoch + 1, er.state, Some(epoch)).lastWrites);
      } else {
        WritesPrepend(cfg, epoch, st, x, []);
        assert [x] + [] == [x];
      }
    }
  }

  /** How a run of the loop from `epoch` (after the epoch `last`) ends: a
      summary names the last epoch run, which either reached the patience
      or is the maximum (or, when no epoch ran, the previous epoch); a
      failure is raised in the epoch after the last one written, whose
      counter was below the patience. */
  ghost predicate EndsAsStated(cfg: TrainConfig, epoch: nat, last: Option<nat>, r: Run)
  {
    var lw := r.lastWrites;
    && (r.result.Ok? && |lw| > 0 ==>
          && r.result.value.epochStopped == lw[|lw| - 1].epoch
          && (lw[|lw| - 1].state.nbNoDec >= cfg.patience || lw[|lw| - 1].epoch == cfg.maxEpochs))
    && (r.result.Ok? && |lw| == 0 ==>
          last.Some? && epoch > cfg.maxEpochs && r.result.value.epochStopped == last.value)
    && (r.result.Err? && FailureEpoch(r.result.error).Some? ==>
          && FailureEpoch(r.result.error).value == epoch + |lw|
          && (|lw| > 0 ==> lw[|lw| - 1].state.nbNoDec < cfg.patience))
  }

  /** A run that writes `x` for `epoch` and then goes on as `rest` from the
      next epoch ends as stated when `rest` does. */
  lemma EndsAsStatedPrepend(cfg: TrainConfig, epoch: nat, last: Option<nat>, x: Extras, r: Run, rest: Run)
    requires epoch <= cfg.maxEpochs && x.epoch == epoch && x.state.nbNoDec < cfg.patience
    requires r.result == rest.result && r.lastWrites == [x] + rest.lastWrites
    requires EndsAsStated(cfg, epoch + 1, Some(epoch), rest)
    ensures EndsAsStated(cfg, epoch, last, r)
  {
    if |rest.lastWrites| > 0 {
      assert r.lastWrites[|r.lastWrites| - 1] == rest.lastWrites[|rest.lastWrites| - 1];
    }
  }

  /** How the loop from `epoch` on ends, as `EndsAsStated` says. */
  lemma {:induction false} LoopOutcome(step: EpochStep, cfg: TrainConfig, worstVal: real,
                                       epoch: nat, st: LoopState, last: Option<nat>)
    requires SoundStep(step, cfg.minEpochs)
    ensures EndsAsStated(cfg, epoch, last, Loop(step, cfg, worstVal, epoch, st, last))
    decreases cfg.maxEpochs + 1 - epoch
  {
    var r := Loop(step, cfg, worstVal, epoch, st, last);
    if epoch <= cfg.maxEpochs && step(epoch, st).Ok? {
      var er := step(epoch, st).value;
      LoopUnfold(step, cfg, worstVal, epoch, st, last);
      if er.state.nbNoDec < cfg.patience {
        LoopOutcome(step, cfg, worstVal, epoch + 1, er.state, Some(epoch));
        EndsAsStatedPrepend(cfg, epoch, last, Extras(epoch, er.costVal, er.state), r,
                            Loop(step, cfg, worstVal, epoch + 1, er.state, Some(epoch)));
      } else {
        assert r.lastWrites == [Extras(epoch, er.costVal, er.state)];
        assert r.result == Finish(worstVal, er.state, Some(epoch));
      }
    } else if epoch <= cfg.maxEpochs {
      assert FailsInEpoch(epoch, step(epoch, st));
      assert r.result == step(epoch, st).PropagateFailure();
    }
  }

  /** The timeline of the loop from `epoch` on: the writes of `LoopWrites`
      and the ending of `LoopOutcome` together. */
  lemma LoopTimeline(step: EpochStep, cfg: TrainConfig, worstVal: real,
                     epoch: nat, st: LoopState, last: Option<nat>)
    requires SoundStep(step, cfg.minEpochs)
    ensures var r := Loop(step, cfg, worstVal, epoch, st, last);
            var lw := r.lastWrites;
            && WritesTimeline(cfg, epoch, st, lw)
            && (r.result.Ok? && |lw| > 0 ==>
                  && r.result.value.epochStopped == lw[|lw| - 1].epoch
                  && (lw[|lw| - 1].state.nbNoDec >= cfg.patience || lw[|lw| - 1].epoch == cfg.maxEpochs))
            && (r.result.Ok? && |lw| == 0 ==>
                  last.Some? && epoch > cfg.maxEpochs && r.result.value.epochStopped == last.value)
            && (r.result.Err? && FailureEpoch(r.result.error).Some? ==>
                  && FailureEpoch(r.result.error).value == epoch + |lw|
                  && (|lw| > 0 ==> lw[|lw| - 1].state.nbNoDec < cfg.patience))
  {
    LoopWrites(step, cfg, worstVal, epoch, st, last);
    LoopOutcome(step, cfg, worstVal, epoch, st, last);
    assert EndsAsStated(cfg, epoch, last, Loop(step, cfg, worstVal, epoch, st, last));
  }

  /** Every "best" save of `bw` has its "last" state in `lw`. */
  ghost predicate BestsWritten(lw: seq<Extras>, bw: seq<BestWrite>)
  {
    forall i :: 0 <= i < |bw| ==> WrittenAsLast(lw, bw[i])
  }

  lemma BestsWrittenPrepend(x: Extras, improved: bool, lw: seq<Extras>, bw: seq<BestWrite>)
    requires BestsWritten(lw, bw)
    requires improved ==> MatchesBest(x, BestWrite(x.epoch, x.costVal))
    ensures BestsWritten([x] + lw, (if improved then [BestWrite(x.epoch, x.costVal)] else []) + bw)
  {
    var pre := if improved then [BestWrite(x.epoch, x.costVal)] else [];
    var lw' := [x] + lw;
    var bw' := pre + bw;
    forall i | 0 <= i < |bw'|
      ensures WrittenAsLast(lw', bw'[i])
    {
      if i < |pre| {
        assert lw'[0] == x && bw'[i] == BestWrite(x.epoch, x.costVal);
      } else {
        assert bw'[i] == bw[i - |pre|];
        var j :| 0 <= j < |lw| && MatchesBest(lw[j], bw[i - |pre|]);
        assert lw'[j + 1] == lw[j];
      }
    }
  }

  /** Every "best" save happens in an epoch that completed: the "last" state
      written for that epoch records the same score as the new best with a
      reset counter. */
  lemma {:induction false} BestWritesAreCompletedEpochs(step: EpochStep, cfg: TrainConfig, worstVal: real,
                                                        epoch: nat, st: LoopState, last: Option<nat>)
    requires SoundStep(step, cfg.minEpochs)
    ensures var r := Loop(step, cfg, worstVal, epoch, st, last);
            BestsWritten(r.lastWrites, r.bestWrites)
    decreases cfg.maxEpochs + 1 - epoch
  {
    if epoch <= cfg.maxEpochs && step(epoch, st).Ok? {
      var er := step(epoch, st).value;
      assert KeepsBooks(cfg.minEpochs, epoch, st, er);
      LoopUnfold(step, cfg, worstVal, epoch, st, last);
      var rest := Continuation(step, cfg, worstVal, epoch, er);
      if er.state.nbNoDec < cfg.patience {
        BestWritesAreCompletedEpochs(step, cfg, worstVal, epoch + 1, er.state, Some(epoch));
      }
      BestsWrittenPrepend(Extras(epoch, er.costVal, er.state), er.improved, rest.lastWrites, rest.bestWrites);
    }
  }

  /** The "last" state `x` is the one written in the epoch of the "best"
      save `w`: same epoch, same score, that score as the best, counter 0. */
  ghost predicate MatchesBest(x: Extras, w: BestWrite)
  {
    x.epoch == w.epoch && x.costVal == w.costVal && x.state.bestVal == Some(w.costVal) && x.state.nbNoDec == 0
  }

  ghost predicate WrittenAsLast(lw: seq<Extras>, w: BestWrite)
  {
    exists j :: 0 <= j < |lw| && MatchesBest(lw[j], w)
  }

  /** An epoch that aborts (NaN training cost, NaN validation score,
      least-squares blow-up, no batches) writes neither a "last" training
      state nor a "best" save: every write of the session is for an earlier
      epoch. */
  lemma AbortedEpochWritesNothing(mode: Mode, cfg: TrainConfig, oracle: Oracle, worstVal: real, nbSentences: nat,
                                  cont: bool, saved: Option<Checkpoint>)
    ensures var r := Train(mode, cfg, oracle, worstVal, nbSentences, cont, saved);
            r.result.Err? && FailureEpoch(r.result.error).Some? ==>
              && (forall i :: 0 <= i < |r.lastWrites| ==> r.lastWrites[i].epoch < FailureEpoch(r.result.error).value)
              && (forall i :: 0 <= i < |r.bestWrites| ==> r.bestWrites[i].epoch < FailureEpoch(r.result.error).value)
  {
    if cfg.batchSize > 0 {
      var nb := BatchPlan.NbBatches(nbSentences, cfg.batchSize);
      var start := StartPoint(cfg, cont, saved);
      var step := EpochOf(mode, cfg, oracle, worstVal, nb);
      TrainIsLoop(mode, cfg, oracle, worstVal, nbSentences, cont, saved);
      LoopTimeline(step, cfg, worstVal, start.0, start.1, None);
      BestWritesAreCompletedEpochs(step, cfg, worstVal, start.0, start.1, None);
      var r := Loop(step, cfg, worstVal, start.0, start.1, None);
      forall i | 0 <= i < |r.bestWrites|
        ensures r.bestWrites[i].epoch < start.0 + |r.lastWrites|
      {
        assert WrittenAsLast(r.lastWrites, r.bestWrites[i]);
      }
    }
  }


  /** The summary reports the last "best" save of the session (its epoch and
      score) and the baseline; when the session made no save, it reports the
      best value and the last saved epoch it started with. */
  lemma {:induction false} SummaryReportsLastBestSave(step: EpochStep, cfg: TrainConfig, worstVal: real,
                                                      epoch: nat, st: LoopState, last: Option<nat>)
    requires SoundStep(step, cfg.minEpochs)
    ensures var r := Loop(step, cfg, worstVal, epoch, st, last);
            var ws := r.bestWrites;
            r.result.Ok? ==>
              && r.result.value.worstVal == worstVal
              && (|ws| > 0 ==> r.result.value.bestVal == ws[|ws| - 1].costVal &&
                               r.result.value.bestEpoch == ws[|ws| - 1].epoch)
              && (|ws| == 0 ==> && st.bestVal == Some(r.result.value.bestVal)
                                && (|st.epochsSaved| > 0 ==> r.result.value.bestEpoch == st.epochsSaved[|st.epochsSaved| - 1])
                                && (|st.epochsSaved| == 0 ==> r.result.value.bestEpoch == -1))
    decreases cfg.maxEpochs + 1 - epoch
  {
    if epoch <= cfg.maxEpochs && step(epoch, st).Ok? {
      var er := step(epoch, st).value;
      assert KeepsBooks(cfg.minEpochs, epoch, st, er);
      if er.state.nbNoDec < cfg.patience {
        SummaryReportsLastBestSave(step, cfg, worstVal, epoch + 1, er.state, Some(epoch));
      }
    }
  }

  /** A session that starts without a best value (a new run, or a resume
      whose stopping fields changed) and returns a summary has made at least
      one "best" save, and the summary names the last one. */
  lemma SummaryOfNewRun(mode: Mode, cfg: TrainConfig, oracle: Oracle, worstVal: real, nbSentences: nat,
                        cont: bool, saved: Option<Checkpoint>)
    requires StartPoint(cfg, cont, saved).1.bestVal.None?
    ensures var r := Train(mode, cfg, oracle, worstVal, nbSentences, cont, saved);
            var ws := r.bestWrites;
            r.result.Ok? ==> && |ws| > 0
                             && r.result.value.bestVal == ws[|ws| - 1].costVal
                             && r.result.value.bestEpoch == ws[|ws| - 1].epoch
                             && r.result.value.worstVal == worstVal
  {
    if cfg.batchSize > 0 {
      var nb := BatchPlan.NbBatches(nbSentences, cfg.batchSize);
      var start := StartPoint(cfg, cont, saved);
      TrainIsLoop(mode, cfg, oracle, worstVal, nbSentences, cont, saved);
      SummaryReportsLastBestSave(EpochOf(mode, cfg, oracle, worstVal, nb), cfg, worstVal, start.0, start.1, None);
    }
  }


  /** The "best" saves made after epoch `e`. */
  function SavesAfter(ws: seq<BestWrite>, e: nat): (r: seq<BestWrite>)
    ensures forall i :: 0 <= i < |r| ==> r[i].epoch > e
  {
    if |ws| == 0 then [] else (if ws[0].epoch > e then [ws[0]] else []) + SavesAfter(ws[1..], e)
  }

  lemma {:induction false} SavesAfterAll(ws: seq<BestWrite>, e: nat)
    requires forall i :: 0 <= i < |ws| ==> ws[i].epoch > e
    ensures SavesAfter(ws, e) == ws
    decreases |ws|
  {
    if |ws| > 0 {
      SavesAfterAll(ws[1..], e);
      assert ws == [ws[0]] + ws[1..];
    }
  }

  lemma SavesAfterSkip(w: BestWrite, ws: seq<BestWrite>, e: nat)
    requires w.epoch <= e
    ensures SavesAfter([w] + ws, e) == SavesAfter(ws, e)
  {
    assert ([w] + ws)[1..] == ws;
  }

  /** The loop does not look at the previous epoch while it runs another
      one. */
  lemma LoopPreviousEpochIrrelevant(step: EpochStep, cfg: TrainConfig, worstVal: real,
                                    epoch: nat, st: LoopState, a: Option<nat>, b: Option<nat>)
    requires epoch <= cfg.maxEpochs
    ensures Loop(step, cfg, worstVal, epoch, st, a) == Loop(step, cfg, worstVal, epoch, st, b)
  {
  }

  /** The "last" states of the loop from `epoch` on are written for
      consecutive epochs. */
  lemma LastWritesConsecutive(step: EpochStep, cfg: TrainConfig, worstVal: real,
                              epoch: nat, st: LoopState, last: Option<nat>, i: nat)
    requires SoundStep(step, cfg.minEpochs)
    requires i < |Loop(step, cfg, worstVal, epoch, st, last).lastWrites|
    ensures Loop(step, cfg, worstVal, epoch, st, last).lastWrites[i].epoch == epoch + i
  {
    LoopWrites(step, cfg, worstVal, epoch, st, last);
  }

  /** The loop run on from a completed epoch whose counter is below the
      patience: its outcome and later writes, with the "best" save of that
      epoch (if any) put in front. */
  lemma GoesOn(step: EpochStep, cfg: TrainConfig, worstVal: real,
               epoch: nat, st: LoopState, last: Option<nat>)
    requires epoch <= cfg.maxEpochs && step(epoch, st).Ok?
    requires step(epoch, st).value.state.nbNoDec < cfg.patience
    ensures var er := step(epoch, st).value;
            var rest := Loop(step, cfg, worstVal, epoch + 1, er.state, Some(epoch));
            var r := Loop(step, cfg, worstVal, epoch, st, last);
            && r.result == rest.result
            && r.lastWrites == [Extras(epoch, er.costVal, er.state)] + rest.lastWrites
            && r.bestWrites == (if er.improved then [BestWrite(epoch, er.costVal)] else []) + rest.bestWrites
  {
    LoopUnfold(step, cfg, worstVal, epoch, st, last);
  }

  /** Restarting right after the first epoch of the loop reproduces the rest
      of the loop. */
  lemma ResumesAfterFirst(step: EpochStep, cfg: TrainConfig, worstVal: real,
                          epoch: nat, st: LoopState, last: Option<nat>)
    requires SoundStep(step, cfg.minEpochs)
    requires epoch < cfg.maxEpochs && step(epoch, st).Ok?
    requires step(epoch, st).value.state.nbNoDec < cfg.patience
    ensures var r := Loop(step, cfg, worstVal, epoch, st, last);
            var x := r.lastWrites[0];
            Loop(step, cfg, worstVal, x.epoch + 1, x.state, None) ==
              Run(r.result, r.lastWrites[1..], SavesAfter(r.bestWrites, x.epoch))
  {
    var er := step(epoch, st).value;
    var rest := Loop(step, cfg, worstVal, epoch + 1, er.state, Some(epoch));
    var r := Loop(step, cfg, worstVal, epoch, st, last);
    GoesOn(step, cfg, worstVal, epoch, st, last);
    LoopPreviousEpochIrrelevant(step, cfg, worstVal, epoch + 1, er.state, None, Some(epoch));
    assert r.lastWrites[1..] == rest.lastWrites;
    SavesAfterFirst(step, cfg, worstVal, epoch, st, last);
    assert r.lastWrites[0] == Extras(epoch, er.costVal, er.state);
  }

  /** The "best" saves of the loop made after its first epoch are those of
      its continuation. */
  lemma SavesAfterFirst(step: EpochStep, cfg: TrainConfig, worstVal: real,
                        epoch: nat, st: LoopState, last: Option<nat>)
    requires SoundStep(step, cfg.minEpochs)
    requires epoch <= cfg.maxEpochs && step(epoch, st).Ok?
    requires step(epoch, st).value.state.nbNoDec < cfg.patience
    ensures var er := step(epoch, st).value;
            SavesAfter(Loop(step, cfg, worstVal, epoch, st, last).bestWrites, epoch)
              == Loop(step, cfg, worstVal, epoch + 1, er.state, Some(epoch)).bestWrites
  {
    var er := step(epoch, st).value;
    var rest := Loop(step, cfg, worstVal, epoch + 1, er.state, Some(epoch)).bestWrites;
    var ws := Loop(step, cfg, worstVal, epoch, st, last).bestWrites;
    GoesOn(step, cfg, worstVal, epoch, st, last);
    LoopBestWritesEpochs(step, cfg, worstVal, epoch + 1, er.state, Some(epoch));
    SavesAfterAll(rest, epoch);
    if er.improved {
      SavesAfterSkip(BestWrite(epoch, er.costVal), rest, epoch);
      assert ws == [BestWrite(epoch, er.costVal)] + rest;
    } else {
      assert ws == rest;
    }
  }

  /** Restarting the loop from the "last" state `r` wrote as its `i`-th
      reproduces the rest of `r`: the same outcome, the later "last" states
      and the "best" saves made after that epoch. */
  ghost predicate ResumesAt(step: EpochStep, cfg: TrainConfig, worstVal: real, r: Run, i: nat)
    requires i < |r.lastWrites|
  {
    var x := r.lastWrites[i];
    Loop(step, cfg, worstVal, x.epoch + 1, x.state, None) ==
      Run(r.result, r.lastWrites[i + 1..], SavesAfter(r.bestWrites, x.epoch))
  }

  /** A run that agrees with `rest` past one more write resumes at `i`
      when `rest` resumes at `i - 1`. */
  lemma ResumesAtShift(step: EpochStep, cfg: TrainConfig, worstVal: real, r: Run, rest: Run, i: nat)
    requires 0 < i < |r.lastWrites| && i - 1 < |rest.lastWrites|
    requires r.lastWrites[i] == rest.lastWrites[i - 1]
    requires r.lastWrites[i + 1..] == rest.lastWrites[i..]
    requires r.result == rest.result
    requires SavesAfter(r.bestWrites, r.lastWrites[i].epoch) == SavesAfter(rest.bestWrites, r.lastWrites[i].epoch)
    requires ResumesAt(step, cfg, worstVal, rest, i - 1)
    ensures ResumesAt(step, cfg, worstVal, r, i)
  {
    assert rest.lastWrites[i - 1 + 1..] == rest.lastWrites[i..];
  }

  /** Restarting the loop from the "last" state written after one of its
      epochs reproduces the rest of the run: the same outcome, the same
      later "last" states and the same later "best" saves.  This holds for
      every written state the loop went on from; see
      `ResumeFromFinalEpochFails` for the state written after the maximum
      epoch. */
  lemma {:induction false} LoopResumesAt(step: EpochStep, cfg: TrainConfig, worstVal: real,
                                         epoch: nat, st: LoopState, last: Option<nat>, i: nat)
    requires SoundStep(step, cfg.minEpochs)
    requires i < |Loop(step, cfg, worstVal, epoch, st, last).lastWrites|
    requires Loop(step, cfg, worstVal, epoch, st, last).lastWrites[i].state.nbNoDec < cfg.patience
    requires Loop(step, cfg, worstVal, epoch, st, last).lastWrites[i].epoch < cfg.maxEpochs
    ensures ResumesAt(step, cfg, worstVal, Loop(step, cfg, worstVal, epoch, st, last), i)
    decreases i, 1
  {
    if i == 0 {
      ResumesAtFirstWrite(step, cfg, worstVal, epoch, st, last);
    } else {
      ResumesAtLaterWrite(step, cfg, worstVal, epoch, st, last, i);
    }
  }

  /** `LoopResumesAt` for a later write of the loop, from the same property
      of its continuation. */
  lemma {:induction false} ResumesAtLaterWrite(step: EpochStep, cfg: TrainConfig, worstVal: real,
                                               epoch: nat, st: LoopState, last: Option<nat>, i: nat)
    requires SoundStep(step, cfg.minEpochs)
    requires 0 < i < |Loop(step, cfg, worstVal, epoch, st, last).lastWrites|
    requires Loop(step, cfg, worstVal, epoch, st, last).lastWrites[i].state.nbNoDec < cfg.patience
    requires Loop(step, cfg, worstVal, epoch, st, last).lastWrites[i].epoch < cfg.maxEpochs
    ensures ResumesAt(step, cfg, worstVal, Loop(step, cfg, worstVal, epoch, st, last), i)
    decreases i, 0
  {
    FirstEpochGoesOn(step, cfg, worstVal, epoch, st, last, i);
    var er := step(epoch, st).value;
    ShiftPastFirst(step, cfg, worstVal, epoch, st, last, i);
    LoopResumesAt(step, cfg, worstVal, epoch + 1, er.state, Some(epoch), i - 1);
    ResumesAtShift(step, cfg, worstVal, Loop(step, cfg, worstVal, epoch, st, last),
                   Loop(step, cfg, worstVal, epoch + 1, er.state, Some(epoch)), i);
  }

  /** `LoopResumesAt` for the first write of the loop. */
  lemma ResumesAtFirstWrite(step: EpochStep, cfg: TrainConfig, worstVal: real,
                            epoch: nat, st: LoopState, last: Option<nat>)
    requires SoundStep(step, cfg.minEpochs)
    requires 0 < |Loop(step, cfg, worstVal, epoch, st, last).lastWrites|
    requires Loop(step, cfg, worstVal, epoch, st, last).lastWrites[0].state.nbNoDec < cfg.patience
    requires Loop(step, cfg, worstVal, epoch, st, last).lastWrites[0].epoch < cfg.maxEpochs
    ensures var r := Loop(step, cfg, worstVal, epoch, st, last);
            var x := r.lastWrites[0];
            Loop(step, cfg, worstVal, x.epoch + 1, x.state, None) ==
              Run(r.result, r.lastWrites[1..], SavesAfter(r.bestWrites, x.epoch))
  {
    FirstEpochGoesOn(step, cfg, worstVal, epoch, st, last, 0);
    LastWritesConsecutive(step, cfg, worstVal, epoch, st, last, 0);
    ResumesAfterFirst(step, cfg, worstVal, epoch, st, last);
  }

  /** A loop that writes a "last" state with its counter below the patience
      completes its first epoch and goes on from it. */
  lemma FirstEpochGoesOn(step: EpochStep, cfg: TrainConfig, worstVal: real,
                         epoch: nat, st: LoopState, last: Option<nat>, i: nat)
    requires i < |Loop(step, cfg, worstVal, epoch, st, last).lastWrites|
    requires Loop(step, cfg, worstVal, epoch, st, last).lastWrites[i].state.nbNoDec < cfg.patience
    ensures epoch <= cfg.maxEpochs && step(epoch, st).Ok?
    ensures step(epoch, st).value.state.nbNoDec < cfg.patience
  {
    assert epoch <= cfg.maxEpochs && step(epoch, st).Ok?;
    var er := step(epoch, st).value;
    LoopUnfold(step, cfg, worstVal, epoch, st, last);
  }

  /** Past the first epoch, the writes of the loop are those of its
      continuation, shifted by one. */
  lemma ShiftPastFirst(step: EpochStep, cfg: TrainConfig, worstVal: real,
                       epoch: nat, st: LoopState, last: Option<nat>, i: nat)
    requires SoundStep(step, cfg.minEpochs)
    requires epoch <= cfg.maxEpochs && step(epoch, st).Ok?
    requires step(epoch, st).value.state.nbNoDec < cfg.patience
    requires 0 < i < |Loop(step, cfg, worstVal, epoch, st, last).lastWrites|
    ensures var er := step(epoch, st).value;
            var rest := Loop(step, cfg, worstVal, epoch + 1, er.state, Some(epoch));
            var r := Loop(step, cfg, worstVal, epoch, st, last);
            && i - 1 < |rest.lastWrites|
            && r.lastWrites[i] == rest.lastWrites[i - 1]
            && r.lastWrites[i + 1..] == rest.lastWrites[i..]
            && r.result == rest.result
            && SavesAfter(r.bestWrites, r.lastWrites[i].epoch) == SavesAfter(rest.bestWrites, r.lastWrites[i].epoch)
  {
    var er := step(epoch, st).value;
    var rest := Loop(step, cfg, worstVal, epoch + 1, er.state, Some(epoch));
    var r := Loop(step, cfg, worstVal, epoch, st, last);
    GoesOn(step, cfg, worstVal, epoch, st, last);
    var x := r.lastWrites[i];
    assert x == rest.lastWrites[i - 1];
    assert r.lastWrites[i + 1..] == rest.lastWrites[i..];
    LastWritesConsecutive(step, cfg, worstVal, epoch, st, last, i);
    if er.improved {
      SavesAfterSkip(BestWrite(epoch, er.costVal), rest.bestWrites, x.epoch);
      assert r.bestWrites == [BestWrite(epoch, er.costVal)] + rest.bestWrites;
    } else {
      assert r.bestWrites == rest.bestWrites;
    }
  }

  /** Resume equivalence: a session resumed (with the same configuration and
      costs) from the "last" training state that a session wrote after an
      epoch it went on from produces exactly the rest of that session: the
      same outcome, the same later "last" states and the same later "best"
      saves. */
  lemma ResumeReproducesRun(mode: Mode, cfg: TrainConfig, oracle: Oracle, worstVal: real, nbSentences: nat,
                            cont: bool, saved: Option<Checkpoint>, i: nat)
    requires i < |Train(mode, cfg, oracle, worstVal, nbSentences, cont, saved).lastWrites|
    requires Train(mode, cfg, oracle, worstVal, nbSentences, cont, saved).lastWrites[i].state.nbNoDec < cfg.patience
    requires Train(mode, cfg, oracle, worstVal, nbSentences, cont, saved).lastWrites[i].epoch < cfg.maxEpochs
    ensures var r := Train(mode, cfg, oracle, worstVal, nbSentences, cont, saved);
            var x := r.lastWrites[i];
            Train(mode, cfg, oracle, worstVal, nbSentences, true, Some(Checkpoint(cfg, x))) ==
              Run(r.result, r.lastWrites[i + 1..], SavesAfter(r.bestWrites, x.epoch))
  {
    if cfg.batchSize == 0 {
      assert false;
    }
    var step := EpochOf(mode, cfg, oracle, worstVal, BatchPlan.NbBatches(nbSentences, cfg.batchSize));
    var start := StartPoint(cfg, cont, saved);
    var r := Train(mode, cfg, oracle, worstVal, nbSentences, cont, saved);
    var x := r.lastWrites[i];
    TrainIsLoop(mode, cfg, oracle, worstVal, nbSentences, cont, saved);
    ResumedTrainIsLoop(mode, cfg, oracle, worstVal, nbSentences, x);
    ResumeOfLoop(step, cfg, worstVal, start.0, start.1, i, r, Loop(step, cfg, worstVal, x.epoch + 1, x.state, None));
  }

  /** `LoopResumesAt` for given runs of the loop and of its restart. */
  lemma ResumeOfLoop(step: EpochStep, cfg: TrainConfig, worstVal: real, epoch: nat, st: LoopState, i: nat,
                     r: Run, resumed: Run)
    requires SoundStep(step, cfg.minEpochs)
    requires r == Loop(step, cfg, worstVal, epoch, st, None)
    requires i < |r.lastWrites| && r.lastWrites[i].state.nbNoDec < cfg.patience
    requires r.lastWrites[i].epoch < cfg.maxEpochs
    requires resumed == Loop(step, cfg, worstVal, r.lastWrites[i].epoch + 1, r.lastWrites[i].state, None)
    ensures resumed == Run(r.result, r.lastWrites[i + 1..], SavesAfter(r.bestWrites, r.lastWrites[i].epoch))
  {
    LoopResumesAt(step, cfg, worstVal, epoch, st, None, i);
  }

  /** A session resumed from a "last" state it wrote itself (same
      configuration) is the epoch loop from the epoch after it, with that
      state. */
  lemma ResumedTrainIsLoop(mode: Mode, cfg: TrainConfig, oracle: Oracle, worstVal: real, nbSentences: nat,
                           x: Extras)
    requires cfg.batchSize > 0
    ensures var step := EpochOf(mode, cfg, oracle, worstVal, BatchPlan.NbBatches(nbSentences, cfg.batchSize));
            Train(mode, cfg, oracle, worstVal, nbSentences, true, Some(Checkpoint(cfg, x)))
              == Loop(step, cfg, worstVal, x.epoch + 1, x.state, None)
  {
    TrainIsLoop(mode, cfg, oracle, worstVal, nbSentences, true, Some(Checkpoint(cfg, x)));
    assert StartPoint(cfg, true, Some(Checkpoint(cfg, x))) == (x.epoch + 1, x.state);
  }

  /** Resuming from the "last" state written after the maximum epoch runs no
      epoch: the session fails, with the unbound stopped epoch when a best
      value was restored and with "no model saved" otherwise. */
  lemma ResumeFromFinalEpochFails(mode: Mode, cfg: TrainConfig, oracle: Oracle, worstVal: real, nbSentences: nat,
                                  saved: Checkpoint)
    requires cfg.batchSize > 0
    requires saved.extras.epoch >= cfg.maxEpochs
    ensures var r := Train(mode, cfg, oracle, worstVal, nbSentences, true, Some(saved));
            var restored := Resume(cfg, saved).1;
            && r.lastWrites == [] && r.bestWrites == []
            && r.result == Err(if restored.bestVal.Some? then EpochUnbound else NoModelSaved)
  {
  }

  /** A least-squares session on one sentence with batch size 1, floor 1,
      patience 3 and a blow-up multiple of 10: every training step costs
      1.0, and the validation score falls by one per epoch from 9.0 until
      epoch 5 and stays at 5.0 afterwards. */
  const PlateauConfig := TrainConfig(1, 300, 3, 10.0, 1)

  function PlateauScore(e: nat): real
  {
    if e <= 5 then 10.0 - e as real else 5.0
  }

  function PlateauOracle(): Oracle
  {
    Oracle((e: nat, k: nat) => Num(1.0), (e: nat) => Num(PlateauScore(e)), (e: nat) => 0.0)
  }

  /** Every epoch of the plateau session completes, with its score. */
  lemma PlateauEpoch(e: nat, s: LoopState)
    ensures var r := EpochOf(LeastSquares, PlateauConfig, PlateauOracle(), 100.0, 1)(e, s);
            && r.Ok? && r.value.costVal == PlateauScore(e)
            && KeepsBooks(PlateauConfig.minEpochs, e, s, r.value)
  {
    var oracle := PlateauOracle();
    assert BatchLoop(LeastSquares, oracle, e, 1, 1, s.generatorUpdates, Some(1.0), [1.0]).Ok?;
    assert BatchLoop(LeastSquares, oracle, e, 1, 0, s.generatorUpdates, None, []).Ok?;
  }

  function PlateauStep(): EpochStep
  {
    EpochOf(LeastSquares, PlateauConfig, PlateauOracle(), 100.0, 1)
  }

  /** The epochs saved as best before epoch `e` of the plateau session. */
  function PlateauSaved(e: nat): seq<nat>
    requires 1 <= e
  {
    seq(e - 1, i requires 0 <= i < e - 1 => i + 1)
  }

  /** The "best" saves of the plateau session from epoch `e` on. */
  function PlateauSaves(e: nat): seq<BestWrite>
    decreases 6 - e
  {
    if e > 5 then [] else [BestWrite(e, PlateauScore(e))] + PlateauSaves(e + 1)
  }

  /** A step that completes every epoch with the plateau score and keeps
      the books. */
  ghost predicate PlateauLike(step: EpochStep)
  {
    forall e: nat, s: LoopState ::
      && step(e, s).Ok?
      && step(e, s).value.costVal == PlateauScore(e)
      && KeepsBooks(PlateauConfig.minEpochs, e, s, step(e, s).value)
  }

  lemma PlateauStepLike()
    ensures PlateauLike(PlateauStep())
  {
    forall e: nat, s: LoopState
      ensures && PlateauStep()(e, s).Ok?
              && PlateauStep()(e, s).value.costVal == PlateauScore(e)
              && KeepsBooks(PlateauConfig.minEpochs, e, s, PlateauStep()(e, s).value)
    {
      PlateauEpoch(e, s);
    }
  }

  /** The epochs after the last improvement: none improves, and the counter
      reaches the patience at epoch 8. */
  lemma {:induction false} PlateauTail(step: EpochStep, e: nat, s: LoopState, last: Option<nat>)
    requires PlateauLike(step)
    requires 6 <= e <= 8 && s.nbNoDec == e - 6
    requires s.bestVal == Some(5.0) && s.epochsSaved == [1, 2, 3, 4, 5]
    ensures var r := Loop(step, PlateauConfig, 100.0, e, s, last);
            && r.result == Ok(Summary(8, 100.0, 5, 5.0))
            && |r.lastWrites| == 9 - e
            && r.bestWrites == []
    decreases 8 - e
  {
    var er := step(e, s).value;
    assert KeepsBooks(PlateauConfig.minEpochs, e, s, er) && er.costVal == 5.0;
    assert !er.improved && er.state.nbNoDec == e - 5;
    if e == 8 {
      LoopUnfold(step, PlateauConfig, 100.0, e, s, last);
    } else {
      GoesOn(step, PlateauConfig, 100.0, e, s, last);
      PlateauTail(step, e + 1, er.state, Some(e));
    }
  }

  /** The plateau session from an epoch up to the last improvement on. */
  lemma {:induction false} PlateauFrom(step: EpochStep, e: nat, s: LoopState, last: Option<nat>)
    requires PlateauLike(step)
    requires 1 <= e <= 6 && s.nbNoDec == 0
    requires s.bestVal == (if e == 1 then None else Some(PlateauScore(e - 1)))
    requires s.epochsSaved == PlateauSaved(e)
    ensures var r := Loop(step, PlateauConfig, 100.0, e, s, last);
            && r.result == Ok(Summary(8, 100.0, 5, 5.0))
            && |r.lastWrites| == 9 - e
            && r.bestWrites == PlateauSaves(e)
    decreases 6 - e
  {
    if e == 6 {
      assert PlateauSaved(6) == [1, 2, 3, 4, 5];
      PlateauTail(step, 6, s, last);
    } else {
      var er := step(e, s).value;
      assert KeepsBooks(PlateauConfig.minEpochs, e, s, er) && er.costVal == PlateauScore(e);
      assert er.improved;
      assert er.state.epochsSaved == PlateauSaved(e + 1);
      GoesOn(step, PlateauConfig, 100.0, e, s, last);
      PlateauFrom(step, e + 1, er.state, Some(e));
    }
  }

  /** The early stop of the plateau session: five improving epochs are saved
      as best, the next three do not improve, and the third of them reaches
      the patience, so the session stops after epoch 8 reporting epoch 5 and
      its score as the best. */
  lemma PlateauStopsEarly()
    ensures var r := Train(LeastSquares, PlateauConfig, PlateauOracle(), 100.0, 1, false, None);
            && r.result == Ok(Summary(8, 100.0, 5, 5.0))
            && |r.lastWrites| == 8
            && r.bestWrites == [BestWrite(1, 9.0), BestWrite(2, 8.0), BestWrite(3, 7.0),
                                BestWrite(4, 6.0), BestWrite(5, 5.0)]
  {
    assert BatchPlan.NbBatches(1, 1) == 1;
    assert StartPoint(PlateauConfig, false, None) == (1, Fresh());
    assert Train(LeastSquares, PlateauConfig, PlateauOracle(), 100.0, 1, false, None)
        == Loop(PlateauStep(), PlateauConfig, 100.0, 1, Fresh(), None);
    assert PlateauSaved(1) == [];
    PlateauStepLike();
    PlateauFrom(PlateauStep(), 1, Fresh(), None);
    PlateauSavesListed();
  }

  lemma PlateauSavesListed()
    ensures PlateauSaves(1) == [BestWrite(1, 9.0), BestWrite(2, 8.0), BestWrite(3, 7.0),
                                BestWrite(4, 6.0), BestWrite(5, 5.0)]
  {
    assert PlateauSaves(5) == [BestWrite(5, 5.0)];
    assert PlateauSaves(4) == [BestWrite(4, 6.0), BestWrite(5, 5.0)];
    assert PlateauSaves(3) == [BestWrite(3, 7.0), BestWrite(4, 6.0), BestWrite(5, 5.0)];
  }
}
