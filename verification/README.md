# Percival training orchestrator — a Dafny model

This project models the control logic of `percivaltts/optimizer.py`, the
training orchestrator of the Percival speech-parameter generator. The
network's losses, gradients and updates (Theano/Lasagne) are not part of the
model. Every cost the network produces is read from an oracle, and every
random draw from a random stream passed in as a parameter. What remains is
the orchestrator's state machine:

- **Batch plan** (`batch_plan.dfy`, module `BatchPlan`): the number of full
  batches `int(len(fid_lst_tra)/train_batch_size)`, how one epoch's
  shuffled index range is cut into batches with `np.split`, and the
  sentences the batches look up.
- **Generator scheduler** (`scheduler.dfy`, module `Scheduler`): which
  batches of an adversarial (WGAN) epoch train the generator. Batch `k`
  does iff `k % critic_runs == 0`, where `critic_runs` is 10 during the
  warm-up of 25 generator updates and at every multiple of 500 updates, and
  5 otherwise. The critic step that the code runs on every batch is not
  modelled (see "Left out").
- **Training session** (`session.dfy`, module `Session`):
  - the batch loop, the abort on a NaN training cost and the per-batch
    cost trace whose mean becomes the epoch's training cost;
  - the validation checks (NaN, and the least-squares blow-up multiple of
    the worst value);
  - the "best" save decision after the minimum-epoch floor, and the
    no-decrease counter;
  - the "last" training state written after every epoch, and the early stop
    once the counter reaches the patience;
  - the terminal summary and its failures;
  - resume from a saved training state. The best value and the counter are
    restored only when the three stopping fields of the configuration are
    unchanged.
- **Configuration handling** (`config.dfy`, module `Config`):
  - the report `loadTrainingState` prints when a saved configuration differs
    from the current one;
  - `randomize_hyper`, which draws every listed hyper-parameter (integer
    ranges with `randint`, the rest with `uniform`) and builds the label
    string.
- **Trial loop** (`trials.dfy`, module `Trials`): `train_multipletrials`.
  It runs trials `1 .. train_nbtrials` and redraws hyper-parameters when
  some are listed. It swallows a `ValueError` or GPU failure when
  hyper-parameters are listed and propagates it otherwise. An interrupt ends
  the loop. Sessions resume until the first one that finishes, and with more
  than one trial every finished trial adds a row to the results table.
- The properties live in `epoch_props.dfy` (`EpochProps`, one epoch's
  batch loop), `session_props.dfy` (`SessionProps`) and `trials_props.dfy`
  (`TrialsProps`). `scores.dfy` (a score is a real number
  or NaN, and the mean of a cost list) and `wrappers.dfy` (`Option` and
  `Result`) are shared helpers.

Three behaviours of the code that are easy to misread:

- The generator step condition in the code (line 325) is `k % critic_runs == 0`
  alone. There is no "fewer than 25 updates OR" clause: the warm-up only
  changes the period.
- The trial loop decides whether to swallow a `ValueError` or GPU failure on
  whether `train_hypers` is non-empty (line 517), not on whether more than
  one trial is configured.
- "No model has been saved" is raised as a `ValueError` (line 415). The
  trial loop therefore swallows it like a divergence when hyper-parameters
  are listed; it does not always propagate.

The configuration comparison follows Python's `!=` on attribute
dictionaries: `10` and `10.0` are equal, and so are `True` and `1`
(`Config.PyEq`).

## Model

| member | source | states |
|---|---|---|
| BatchPlan.NbBatches | percivaltts/optimizer.py:133 | the batch count is the largest number of full batches that fits in the training list: `nb * bs <= n < (nb + 1) * bs` |
| BatchPlan.EpochBatches | percivaltts/optimizer.py:283-285 | splitting the shuffled range fails exactly when there are zero batches; otherwise there are `nb` batches of exactly `batchSize` indices each |
| BatchPlan.BatchesUsePrefixOnly | percivaltts/optimizer.py:283-285 | every index of every batch lies in the shuffled range `[0, nb * bs)`, so the sentences left over by the rounding down are never trained on |
| BatchPlan.BatchesCoverPrefix | percivaltts/optimizer.py:283-285 | every index of the shuffled range is used by some batch of the epoch |
| BatchPlan.BatchesDisjoint | percivaltts/optimizer.py:283-285 | no index is used twice in an epoch: equal batch entries are the same batch and offset |
| BatchPlan.EpochSentencesArePrefix | percivaltts/optimizer.py:283-298 | the sentences the batches of an epoch look up, batch after batch, are the first `nb * bs` sentences of the training list, each exactly once (equal multisets) |
| BatchPlan.SplitSentences | percivaltts/optimizer.py:285-298 | looking up the split batches one after the other is looking up the shuffled index list in order |
| BatchPlan.ShuffleSentences | percivaltts/optimizer.py:283-298 | looking up a shuffle of `[0, n)` yields the first `n` sentences, each once |
| Scheduler.ScheduleRule | percivaltts/optimizer.py:319-331 | batch `k + i` steps the generator iff its index is a multiple of `CriticRuns` of the updates done before it (the epoch's starting count plus the earlier steps) |
| Scheduler.FirstBatchStepsGenerator | percivaltts/optimizer.py:325 | batch 0 of every epoch steps the generator, whatever the update count |
| Scheduler.ScheduleCadence | percivaltts/optimizer.py:319-325 | every batch index that is a multiple of 10 steps the generator, and only multiples of 5 can |
| Scheduler.ScheduleUpdateBounds | percivaltts/optimizer.py:319-331 | the number of generator updates in an epoch lies between the number of multiples of 10 and the number of multiples of 5 among its batch indices |
| Scheduler.PlanEpoch | percivaltts/optimizer.py:292-331 | the loop that plans an epoch batch by batch gives the recursive `Schedule`, has one entry per batch, and adds exactly its number of steps to the update count |
| Session.Resume | percivaltts/optimizer.py:262-278 | a resumed session starts at the saved epoch plus one with the saved counters and histories; the best value and counter are restored iff min, max and patience are unchanged, and are reset otherwise |
| Session.StartPoint | percivaltts/optimizer.py:258-278 | a session starts fresh at epoch 1 unless it is asked to continue and a saved state exists, in which case it resumes from that state |
| Session.BatchLoop | percivaltts/optimizer.py:292-347 | the batch loop fails only with a NaN training cost of a batch of this epoch, at or after the current batch; a completed loop records one cost per remaining batch once a cost exists (the exact abort rule and trace are `EpochProps.BatchLoopAborts` and `EpochProps.BatchLoopRecords`) |
| Session.CheckValidation | percivaltts/optimizer.py:377-378 | the validation score passes iff it is a number and, in least-squares mode, below the blow-up multiple of the worst value; NaN and blow-up fail with their own errors |
| Session.Bookkeep | percivaltts/optimizer.py:382-390 | from the floor on, a strictly better score (or the first one) becomes the best, is recorded as saved and resets the counter; any other score raises the counter; before the floor nothing changes; no other field is touched |
| Session.RunEpoch | percivaltts/optimizer.py:281-409 | zero batches fail; a NaN training cost names a batch of the epoch whose cost is NaN; other failures are the validation check's; every failure names this epoch; a completed epoch passed validation, appends its score, one training cost and its duration, and keeps the books as `Bookkeep` states (the value of the training cost is `EpochProps.EpochTraining`) |
| Session.Finish | percivaltts/optimizer.py:415-416 | the summary exists iff a best value exists and an epoch ran; it reports the stopped epoch, the worst value, the best value, and the last saved epoch or -1 |
| Session.Train | percivaltts/optimizer.py:133 | a zero batch size fails before any epoch runs and writes nothing |
| Trials.Classify | percivaltts/optimizer.py:516-523 | a failure is a `ValueError` iff it is a NaN cost, a blow-up or "no model saved"; the zero-section split, the unbound epoch and the zero batch size are other exceptions |
| Trials.DrawTrial | percivaltts/optimizer.py:502-505 | with no hyper-parameters the configuration is left as it is; a successful draw keeps the configuration well formed, with the same hyper-parameter list and trial count and every listed name set |
| EpochProps.BatchLoopAborts | percivaltts/optimizer.py:311-346 | the batch loop completes iff no batch that runs the checked step has a NaN cost (every batch in least-squares mode, the scheduled generator batches in adversarial mode), and otherwise fails at the first such batch; a NaN cost of a batch that trains only the critic aborts nothing |
| EpochProps.BatchLoopRecords | percivaltts/optimizer.py:286-347 | a completed loop extends the trace by one entry per remaining batch, each the cost of the last batch at or before it that ran the checked step (the carried cost before the first one) |
| EpochProps.RecordedTraceUnique | percivaltts/optimizer.py:339-347 | the cost trace is determined by the batch costs: two traces that both fit are equal |
| EpochProps.EpochTraceEntries | percivaltts/optimizer.py:286-347 | an epoch's trace has one entry per batch, each the cost of a stepped batch at or before it, since batch 0 always steps |
| EpochProps.EpochTraining | percivaltts/optimizer.py:292-354 | an epoch aborts on its training cost iff it has batches and one of its stepped batches has a NaN cost, at the first such batch; a completed epoch appends `0.1 * mean` (adversarial) or the mean (least squares) of its cost trace to the training history |
| EpochProps.NoBatchesIsSplitFailure | percivaltts/optimizer.py:283-285 | the epoch fails for want of batches iff the split of its shuffled range fails |
| SessionProps.BatchLoopFollowsSchedule | percivaltts/optimizer.py:311-335 | a completed adversarial batch loop adds exactly the scheduled number of generator updates; least squares adds none |
| SessionProps.EpochGeneratorUpdates | percivaltts/optimizer.py:311-335 | a completed epoch advances the generator update count by the schedule's step count in adversarial mode and leaves it unchanged in least-squares mode |
| SessionProps.TrainIsLoop | percivaltts/optimizer.py:262-281 | with a positive batch size, a session is the epoch loop from its start point, driven by an epoch step that keeps the books |
| SessionProps.BestSavesStrictlyImprove | percivaltts/optimizer.py:383-388 | the scores of the "best" saves strictly decrease over strictly increasing epochs, all of them at or after the floor and below any restored best value |
| SessionProps.LoopTimeline | percivaltts/optimizer.py:281-413 | the "last" states are written for consecutive epochs with the counter kept as `Bookkeep` states; a run that finishes stopped at its last epoch because of the patience or the maximum; a failure is raised in the epoch after the last written state, and no written state had reached the patience |
| SessionProps.LoopWrites | percivaltts/optimizer.py:380-411 | the written "last" states form the timeline above: consecutive epochs, counter steps, and no state but the final one at or beyond the patience |
| SessionProps.LoopOutcome | percivaltts/optimizer.py:281-416 | how the loop ends matches its written states: the stopped epoch is the last written one, early stop or maximum epoch; failures come in the next epoch |
| SessionProps.BestWritesAreCompletedEpochs | percivaltts/optimizer.py:377-409 | every "best" save belongs to a completed epoch whose "last" state was written with that score as the best value |
| SessionProps.AbortedEpochWritesNothing | percivaltts/optimizer.py:343-409 | when an epoch aborts, neither a "last" state nor a "best" save exists for that epoch or any later one |
| SessionProps.SummaryReportsLastBestSave | percivaltts/optimizer.py:415-416 | a successful summary reports the worst value and the score and epoch of the last "best" save, or the restored best value and saved epochs when nothing new was saved |
| SessionProps.SummaryOfNewRun | percivaltts/optimizer.py:415-416 | a session with no restored best value succeeds only if it saved a best model, and its summary is that last save |
| SessionProps.LoopResumesAt | percivaltts/optimizer.py:264-281 | restarting the loop from any written "last" state that did not stop gives the rest of the original run: the same result, the later states and the later "best" saves |
| SessionProps.ResumeReproducesRun | percivaltts/optimizer.py:262-281 | resuming a session from a "last" state it wrote (same configuration, not at an early stop or the maximum) reproduces the uninterrupted run from the next epoch on |
| SessionProps.ResumeFromFinalEpochFails | percivaltts/optimizer.py:415-416 | resuming from a state at or after the maximum epoch runs no epoch and fails, unbound epoch if a best value was restored and "no model saved" otherwise |
| SessionProps.PlateauStopsEarly | percivaltts/optimizer.py:383-413 | with scores falling to epoch 5 and flat afterwards, and patience 3, the session stops at epoch 8 with epoch 5 as the best, after saving epochs 1 to 5 |
| Config.NumberOf | percivaltts/optimizer.py:106-110 | ints, floats and bools, and only they, stand for a number in a Python comparison |
| Config.PyEqIsEquivalence | percivaltts/optimizer.py:106-110 | Python's `==` on attribute values is reflexive, symmetric and transitive, and is plain equality on two ints, on strings and on `None` |
| Config.ConfigDiff | percivaltts/optimizer.py:106-116 | every reported line is true: an attribute in both whose values differ under Python's `==`, with both values; an attribute missing from the saved state; or one missing from the current state |
| Config.DiffEmptyIffEqual | percivaltts/optimizer.py:106-116 | the report is empty iff the dictionaries compare equal under Python's `!=` (so whenever they are identical), and otherwise lists every changed, missing and extra attribute |
| Config.IntFloatIsNoDifference | percivaltts/optimizer.py:106 | a threshold saved as the int `10` and loaded as the float `10.0` is not reported |
| Config.DiffSymmetric | percivaltts/optimizer.py:106-116 | swapping the two configurations swaps the roles of each reported line |
| Config.Draw | percivaltts/optimizer.py:428-431 | an integer range (both bounds ints) draws an integer in `[lo, hi)`; any other range draws a float between its bounds |
| Config.TerminatedIsJoin | percivaltts/optimizer.py:432-433 | appending `name=value,` per entry and cutting the last character is the comma join of the entries |
| Config.RandomizeHyper | percivaltts/optimizer.py:420-435 | with no hyper-parameters the configuration is returned unchanged with an empty label; a success adds exactly the listed names |
| Config.RandomizeHyperSucceeds | percivaltts/optimizer.py:420-435 | with no empty integer range the draw succeeds, leaves unlisted fields alone, gives each name its last draw, and labels with the comma join of `name=value` |
| Config.RandomizeHyperFails | percivaltts/optimizer.py:428-429 | the draw fails iff some integer range is empty, and then names the first such range |
| TrialsProps.CallsInOrder | percivaltts/optimizer.py:496-507 | sessions run for strictly increasing trial numbers in the configured range, each reloading the initial parameters iff more than one trial is configured |
| TrialsProps.CallsKeepHypers | percivaltts/optimizer.py:502-503 | every session's configuration is well formed, keeps the hyper-parameter list, and sets each listed name |
| TrialsProps.RowsAreFinishedTrials | percivaltts/optimizer.py:525-531 | with more than one trial the table holds exactly one row per finished session, in order; with one trial it is empty |
| TrialsProps.FailurePolicy | percivaltts/optimizer.py:514-535 | every session but the last went on; a completed loop swallowed every failure; an interrupt ends the loop at that session; a crash is an unswallowed exception of the last session |
| TrialsProps.SessionResultGoesOn | percivaltts/optimizer.py:514-523 | through the exception it raises, a session result lets the loop go on iff it finished or is a survivable failure (NaN cost, blow-up, no model saved) with hyper-parameters listed; it is never an interrupt |
| TrialsProps.CallsRecordOutcomes | percivaltts/optimizer.py:496-510 | every recorded session holds the outcome of the session run on its trial, configuration and resume flag |
| TrialsProps.SweepOverSessions | percivaltts/optimizer.py:496-523 | over modelled training sessions the loop is never interrupted; every session but the last survived; a completed loop survived all; a crash is the classified exception of a last session that did not survive, so with hyper-parameters listed only an epoch without batches, an unbound stopped epoch or a zero batch size crashes the sweep |
| TrialsProps.ResumeUntilFirstSuccess | percivaltts/optimizer.py:510-511 | a session resumes iff resume was asked and no earlier session finished |
| TrialsProps.NoHypersRunsEveryTrial | percivaltts/optimizer.py:496-511 | with no hyper-parameters every session runs the unchanged configuration for consecutive trials, and a completed loop ran one session per trial |
| TrialsProps.GpuFailureIsSkipped | percivaltts/optimizer.py:496-531 | with three trials where trial 2 fails on the GPU, the loop completes with rows for trials 1 and 3, and only the first session resumes |

## Left out

- The Theano/Lasagne losses, gradients, updates and the gradient penalty
  (lines 155-256): they are numeric network code. Their costs come from
  `Session.Oracle`.
- The least-squares/adversarial weighting and blend coefficient (lines
  172-198), and the long-term mean of the critic validation (line 368). The
  official validation score of an epoch is an oracle value.
- The critic step of adversarial mode (lines 313-315), the critic training
  and validation costs (lines 364, 367-368) and the generator's
  least-squares ratio (lines 348 and 352): every batch trains the critic, but no
  decision of the orchestrator depends on the critic's training cost, so
  the batch loop models only the generator step and its checked cost.
- The rescaling of the epoch bounds by the data size (lines 144-153). The
  configuration's minimum and maximum epochs are taken as they are.
- Pickling, `saveAllParams`/`loadAllParams`, the training-state file and the
  existence check of that file: a saved state is an `Option<Checkpoint>`
  argument. `np.savetxt` and the table header are out too; the table is a
  list of rows.
- Timing, printing and plotting (lines 392-407), and the `trialstr` label
  passed to the session.
- The RNG streams, `np.random.set_state` and the shuffle: the random draws
  are the `Rng` parameters, and the costs of an epoch are indexed by epoch
  and batch position.
- Floating point: scores are reals or NaN, and the square root of the
  least-squares batch cost is left inside the oracle.
- Exceptions are reduced to `Trials.Exc`. `loadTrainingState`'s shape
  mismatches and any other exception are `OtherErr`.
- The `ValueError('Unknown err type')` branch: `Session.Mode` has only the
  two error types.
- Trials.WellFormed: the model does not cover a hyper-parameter list that
  redraws `train_hypers` or `train_nbtrials` themselves, because then the
  loop's own bounds would change under it.
- Config.ConfigDiff: the printed report is a set of lines, because the
  order of attributes in a Python dict is not part of the behaviour
  modelled.
- SessionProps.ResumeReproducesRun: covers only states that were followed
  by another epoch. Resuming from a state written at an early stop trains
  again, because the loop does not check the counter before its first
  epoch. Resuming at the maximum epoch is `ResumeFromFinalEpochFails`.
- SessionProps.ResumeFromFinalEpochFails: requires a positive batch size.
  With batch size zero the session fails earlier, as `Session.Train` states.
- The default configuration values of `train_multipletrials` (lines
  442-478): the loop takes the merged configuration as its input.
