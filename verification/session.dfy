/** One training session (`Optimizer.train`): the batch loop of an epoch, the
    epoch-end validation bookkeeping, the save decisions, resume from a saved
    training state and the terminal summary.  The model's forward/backward
    computation is not modelled: every cost it produces is read from an `Oracle`. */
module Session {
  import opened Wrappers
  import opened Scores
  import Scheduler
  import BatchPlan

  /** The error type of the session: plain least squares ('LSE') or the
      adversarial critic/generator pair ('WGAN'). */
  datatype Mode = LeastSquares | Adversarial

  /** The configuration fields the session reads. */
  datatype TrainConfig = TrainConfig(
    minEpochs: int,      // train_min_nbepochs: no "best" save before this epoch
    maxEpochs: int,      // train_max_nbepochs: last epoch of the loop
    patience: int,       // train_cancel_nodecepochs: early stop threshold
    validThresh: real,   // train_cancel_validthresh: blow-up multiple (least squares)
    batchSize: nat)      // train_batch_size

  /** The costs the network produces: the training cost returned by the
      step run on batch `k` of epoch `e` (the generator step in adversarial
      mode), the official validation score of epoch `e`, and the wall-clock
      duration of epoch `e`.  The costs depend on the shuffle, which is a
      function of the restored random state, so they are indexed by position. */
  datatype Oracle = Oracle(
    batchCost: (nat, nat) -> Score,
    valCost: nat -> Score,
    duration: nat -> real)

  /** The loop variables of `train` that are saved at every epoch end and
      restored on resume. */
  datatype LoopState = LoopState(
    bestVal: Option<real>,      // best_val
    nbNoDec: nat,               // nbnodecepochs
    generatorUpdates: nat,      // generator_updates
    epochsSaved: seq<nat>,      // epochs_modelssaved
    durations: seq<real>,       // epochs_durs
    trainCosts: seq<real>,      // costs['model_training']
    valCosts: seq<real>)        // the official validation score per epoch

  /** The extras record written to the "last" training state after an epoch. */
  datatype Extras = Extras(epoch: nat, costVal: real, state: LoopState)

  /** A saved training state: the configuration it was written under and its
      extras. */
  datatype Checkpoint = Checkpoint(cfg: TrainConfig, extras: Extras)

  /** The ways a session ends without a summary.  The first four are raised
      as `ValueError`; `NoBatches` is numpy's failure to split into zero
      sections, `EpochUnbound` the unbound loop variable of a loop that ran
      no epoch and `ZeroBatchSize` the division by a zero batch size. */
  datatype Failure =
    | TrainCostNaN(epoch: nat, batch: nat)
    | ValCostNaN(epoch: nat)
    | ValBlowUp(epoch: nat, costVal: real)
    | NoModelSaved
    | NoBatches(epoch: nat)
    | EpochUnbound
    | ZeroBatchSize

  /** The dictionary `train` returns. */
  datatype Summary = Summary(epochStopped: nat, worstVal: real, bestEpoch: int, bestVal: real)

  /** A write of the "best" model parameters. */
  datatype BestWrite = BestWrite(epoch: nat, costVal: real)

  /** What a session does: its outcome, the extras of every "last" training
      state it wrote (one per completed epoch, in order) and every "best"
      save it made (in order). */
  datatype Run = Run(result: Result<Summary, Failure>, lastWrites: seq<Extras>, bestWrites: seq<BestWrite>)

  /** The loop variables before the first epoch of a new run. */
  function Fresh(): LoopState
  {
    LoopState(None, 0, 0, [], [], [], [])
  }

  /** Min epochs, max epochs and patience agree. */
  predicate SameStoppingFields(a: TrainConfig, b: TrainConfig)
  {
    a.minEpochs == b.minEpochs && a.maxEpochs == b.maxEpochs && a.patience == b.patience
  }

  /** Rebuilds the loop from a saved training state: the next epoch follows
      the saved one; the histories and the generator update count are
      restored; the best value and the non-improvement counter are restored
      only when the three stopping fields are unchanged, and otherwise start
      afresh. */
  function Resume(cfg: TrainConfig, saved: Checkpoint): (r: (nat, LoopState))
    ensures r.0 == saved.extras.epoch + 1
    ensures var s := saved.extras.state;
            && r.1.generatorUpdates == s.generatorUpdates
            && r.1.epochsSaved == s.epochsSaved
            && r.1.durations == s.durations
            && r.1.trainCosts == s.trainCosts
            && r.1.valCosts == s.valCosts
    ensures SameStoppingFields(saved.cfg, cfg) ==>
              r.1.bestVal == saved.extras.state.bestVal && r.1.nbNoDec == saved.extras.state.nbNoDec
    ensures !SameStoppingFields(saved.cfg, cfg) ==> r.1.bestVal == None && r.1.nbNoDec == 0
  {
    var s := saved.extras.state;
    var restored := Fresh().(
      generatorUpdates := s.generatorUpdates,
      epochsSaved := s.epochsSaved,
      durations := s.durations,
      trainCosts := s.trainCosts,
      valCosts := s.valCosts);
    if SameStoppingFields(saved.cfg, cfg) then
      (saved.extras.epoch + 1, restored.(bestVal := s.bestVal, nbNoDec := s.nbNoDec))
    else
      (saved.extras.epoch + 1, restored)
  }

  /** The first epoch and loop state: resume when asked to and a saved
      training state exists, start at epoch 1 otherwise. */
  function StartPoint(cfg: TrainConfig, cont: bool, saved: Option<Checkpoint>): (r: (nat, LoopState))
    ensures !(cont && saved.Some?) ==> r == (1, Fresh())
    ensures cont && saved.Some? ==> r == Resume(cfg, saved.value)
  {
    if cont && saved.Some? then Resume(cfg, saved.value) else (1, Fresh())
  }

  /** The batch loop of epoch `epoch` from batch `k` on.  Every batch runs a
      training step in least-squares mode; in adversarial mode every batch
      steps the critic and the generator is stepped as the scheduler says,
      raising the update count by one.  A step whose cost is NaN aborts.
      The cost of the latest step is recorded once per batch (in adversarial
      mode a batch without a generator step repeats the previous cost).
      Returns the update count and the per-batch cost trace. */
  function BatchLoop(mode: Mode, oracle: Oracle, epoch: nat, nb: nat, k: nat, gu: nat,
                     cur: Option<real>, trace: seq<real>): (r: Result<(nat, seq<real>), Failure>)
    decreases nb - k
    ensures r.Err? ==> && r.error.TrainCostNaN?
                       && r.error.epoch == epoch
                       && k <= r.error.batch < nb
                       && oracle.batchCost(epoch, r.error.batch).NaN?
    ensures r.Ok? ==> |r.value.1| >= |trace|
    ensures r.Ok? && k < nb && (k == 0 || cur.Some?) ==> |r.value.1| == |trace| + (nb - k)
  {
    if k >= nb then Ok((gu, trace))
    else
      var stepped := mode.LeastSquares? || Scheduler.StepsGenerator(k, gu);
      if stepped then
        match oracle.batchCost(epoch, k)
        case NaN => Err(TrainCostNaN(epoch, k))
        case Num(c) =>
          BatchLoop(mode, oracle, epoch, nb, k + 1, if mode.Adversarial? then gu + 1 else gu,
                    Some(c), trace + [c])
      else
        BatchLoop(mode, oracle, epoch, nb, k + 1, gu, cur,
                  if cur.Some? then trace + [cur.value] else trace)
  }

  /** The divergence checks on the epoch's official validation score: NaN
      aborts, and in least-squares mode so does a score at or above
      `validThresh` times the predict-the-mean baseline. */
  function CheckValidation(mode: Mode, epoch: nat, score: Score, validThresh: real, worstVal: real)
    : (r: Result<real, Failure>)
    ensures r.Ok? <==> score.Num? && !(mode.LeastSquares? && score.v >= validThresh * worstVal)
    ensures r.Ok? ==> r.value == score.v
    ensures score.NaN? ==> r == Err(ValCostNaN(epoch))
    ensures score.Num? && r.Err? ==> r == Err(ValBlowUp(epoch, score.v))
  {
    match score
    case NaN => Err(ValCostNaN(epoch))
    case Num(v) =>
      if mode.LeastSquares? && v >= validThresh * worstVal then Err(ValBlowUp(epoch, v)) else Ok(v)
  }

  /** The save decision at the end of an epoch that passed the checks.
      Before the minimum-epoch floor nothing changes.  From the floor on, a
      score strictly below the best so far (or any score, when there is no
      best yet) becomes the best, is saved, and resets the counter; any other
      score raises the counter by one.  The flag says whether a "best" save
      happens. */
  function Bookkeep(minEpochs: int, epoch: nat, costVal: real, st: LoopState): (r: (LoopState, bool))
    ensures KeepsBooks(minEpochs, epoch, st, EpochResult(r.0, costVal, r.1))
    ensures r.0 == st.(bestVal := r.0.bestVal, epochsSaved := r.0.epochsSaved, nbNoDec := r.0.nbNoDec)
  {
    if epoch >= minEpochs then
      if st.bestVal.None? || costVal < st.bestVal.value then
        (st.(bestVal := Some(costVal), epochsSaved := st.epochsSaved + [epoch], nbNoDec := 0), true)
      else
        (st.(nbNoDec := st.nbNoDec + 1), false)
    else
      (st, false)
  }

  /** The outcome of an epoch that completed: the loop state written to the
      "last" training state, the official score and whether a "best" save
      happened. */
  datatype EpochResult = EpochResult(state: LoopState, costVal: real, improved: bool)

  /** The save decision as an epoch applies it to the loop state `st`:
      from the minimum-epoch floor on, a strictly better score (or any score
      when there is no best yet) becomes the best, is recorded as a saved
      epoch and resets the counter, and any other score raises the counter
      by one; before the floor the best value, the saved epochs and the
      counter stay as they were. */
  ghost predicate KeepsBooks(minEpochs: int, epoch: nat, st: LoopState, er: EpochResult)
  {
    && (er.improved <==> epoch >= minEpochs && (st.bestVal.None? || er.costVal < st.bestVal.value))
    && (er.improved ==> && er.state.bestVal == Some(er.costVal)
                        && er.state.epochsSaved == st.epochsSaved + [epoch]
                        && er.state.nbNoDec == 0)
    && (!er.improved ==> er.state.bestVal == st.bestVal && er.state.epochsSaved == st.epochsSaved)
    && (!er.improved && epoch >= minEpochs ==> er.state.nbNoDec == st.nbNoDec + 1)
    && (epoch < minEpochs ==> er.state.nbNoDec == st.nbNoDec)
  }

  /** The epoch a failure is raised in, when it names one. */
  function FailureEpoch(f: Failure): Option<nat>
  {
    match f
    case TrainCostNaN(e, _) => Some(e)
    case ValCostNaN(e) => Some(e)
    case ValBlowUp(e, _) => Some(e)
    case NoBatches(e) => Some(e)
    case _ => None
  }

  /** A failing epoch fails with an error raised in that epoch. */
  predicate FailsInEpoch(epoch: nat, r: Result<EpochResult, Failure>)
  {
    r.Err? ==> FailureEpoch(r.error) == Some(epoch)
  }

  /** One epoch: split into batches (no batch at all fails), run the batch
      loop, record the mean training cost (scaled by 0.1 in adversarial mode)
      and the validation score, check the score, make the save decision and
      record the epoch's duration.  The split of the shuffled indices is not
      recomputed here: the loop only depends on how many batches there are,
      and `EpochProps.NoBatchesIsSplitFailure` shows that `nb == 0` is
      exactly the case where `BatchPlan.EpochBatches` fails. */
  function RunEpoch(mode: Mode, cfg: TrainConfig, oracle: Oracle, worstVal: real, nb: nat,
                    epoch: nat, st: LoopState): (r: Result<EpochResult, Failure>)
    ensures nb == 0 ==> r == Err(NoBatches(epoch))
    ensures r.Err? && r.error.TrainCostNaN? ==>
              r.error.epoch == epoch && r.error.batch < nb && oracle.batchCost(epoch, r.error.batch).NaN?
    ensures r.Err? && !r.error.TrainCostNaN? && !r.error.NoBatches? ==>
              CheckValidation(mode, epoch, oracle.valCost(epoch), cfg.validThresh, worstVal) == Err(r.error)
    ensures r.Ok? ==> && oracle.valCost(epoch) == Num(r.value.costVal)
                      && CheckValidation(mode, epoch, oracle.valCost(epoch), cfg.validThresh, worstVal).Ok?
    ensures r.Ok? ==> && r.value.state.valCosts == st.valCosts + [r.value.costVal]
                      && |r.value.state.trainCosts| == |st.trainCosts| + 1
                      && r.value.state.durations == st.durations + [oracle.duration(epoch)]
                      && KeepsBooks(cfg.minEpochs, epoch, st, r.value)
    ensures FailsInEpoch(epoch, r)
  {
    if nb == 0 then Err(NoBatches(epoch))
    else
      match BatchLoop(mode, oracle, epoch, nb, 0, st.generatorUpdates, None, [])
      case Err(e) => Err(e)
      case Ok((gu, trace)) =>
        var trainCost := (if mode.Adversarial? then 0.1 else 1.0) * Mean(trace);
        match CheckValidation(mode, epoch, oracle.valCost(epoch), cfg.validThresh, worstVal)
        case Err(e) => Err(e)
        case Ok(v) =>
          var st1 := st.(generatorUpdates := gu,
                         trainCosts := st.trainCosts + [trainCost],
                         valCosts := st.valCosts + [v]);
          var (st2, improved) := Bookkeep(cfg.minEpochs, epoch, v, st1);
          Ok(EpochResult(st2.(durations := st2.durations + [oracle.duration(epoch)]), v, improved))
  }

  /** The terminal summary: no best value at all is an error; a loop that ran
      no epoch leaves the stopped epoch unbound; otherwise the stopped epoch,
      the baseline, the last saved epoch (-1 if none) and the best value. */
  function Finish(worstVal: real, st: LoopState, last: Option<nat>): (r: Result<Summary, Failure>)
    ensures st.bestVal.None? ==> r == Err(NoModelSaved)
    ensures st.bestVal.Some? && last.None? ==> r == Err(EpochUnbound)
    ensures r.Ok? <==> st.bestVal.Some? && last.Some?
    ensures r.Ok? ==> && r.value.epochStopped == last.value
                      && r.value.worstVal == worstVal
                      && r.value.bestVal == st.bestVal.value
                      && (|st.epochsSaved| > 0 ==> r.value.bestEpoch == st.epochsSaved[|st.epochsSaved| - 1])
                      && (|st.epochsSaved| == 0 ==> r.value.bestEpoch == -1)
  {
    if st.bestVal.None? then Err(NoModelSaved)
    else if last.None? then Err(EpochUnbound)
    else
      var bestEpoch := if |st.epochsSaved| > 0 then st.epochsSaved[|st.epochsSaved| - 1] as int else -1;
      Ok(Summary(last.value, worstVal, bestEpoch, st.bestVal.value))
  }

  /** One epoch of a session as a function of the epoch number and the loop
      state before it. */
  type EpochStep = (nat, LoopState) -> Result<EpochResult, Failure>

  /** The epoch step of a session with the given mode, configuration, costs,
      baseline and batch count. */
  function EpochOf(mode: Mode, cfg: TrainConfig, oracle: Oracle, worstVal: real, nb: nat): EpochStep
  {
    (e: nat, s: LoopState) => RunEpoch(mode, cfg, oracle, worstVal, nb, e, s)
  }

  /** The epoch loop from epoch `epoch` to `cfg.maxEpochs`, running `step`
      once per epoch.  After every completed epoch the "last" training state
      is written, and a "best" save is made when the epoch improved; the loop
      stops early after the first epoch whose counter reaches the patience.
      `last` is the previous epoch run, if any. */
  function Loop(step: EpochStep, cfg: TrainConfig, worstVal: real,
                epoch: nat, st: LoopState, last: Option<nat>): (r: Run)
    decreases cfg.maxEpochs + 1 - epoch
  {
    if epoch > cfg.maxEpochs then Run(Finish(worstVal, st, last), [], [])
    else
      match step(epoch, st)
      case Err(e) => Run(Err(e), [], [])
      case Ok(er) =>
        var written := Extras(epoch, er.costVal, er.state);
        var best := if er.improved then [BestWrite(epoch, er.costVal)] else [];
        var rest :=
          if er.state.nbNoDec >= cfg.patience then Run(Finish(worstVal, er.state, Some(epoch)), [], [])
          else Loop(step, cfg, worstVal, epoch + 1, er.state, Some(epoch));
        Run(rest.result, [written] + rest.lastWrites, best + rest.bestWrites)
  }

  /** A whole session over `nbSentences` training sentences, optionally
      resuming from a saved training state.  A zero batch size fails before
      anything else. */
  function Train(mode: Mode, cfg: TrainConfig, oracle: Oracle, worstVal: real, nbSentences: nat,
                 cont: bool, saved: Option<Checkpoint>): (r: Run)
    ensures cfg.batchSize == 0 ==> r == Run(Err(ZeroBatchSize), [], [])
  {
    if cfg.batchSize == 0 then Run(Err(ZeroBatchSize), [], [])
    else
      var nb := BatchPlan.NbBatches(nbSentences, cfg.batchSize);
      var start := StartPoint(cfg, cont, saved);
      Loop(EpochOf(mode, cfg, oracle, worstVal, nb), cfg, worstVal, start.0, start.1, None)
  }
}
