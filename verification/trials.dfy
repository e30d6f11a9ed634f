/** The trial loop of `train_multipletrials`: one training session per
    trial, each with freshly drawn hyper-parameters when some are listed;
    which failures end the whole loop, and which trials leave a row in the
    results table. */
module Trials {
  import opened Wrappers
  import opened Config
  import Session

  /** The exception a trial's session raises, by the handler that catches
      it: `ValueError`, `GpuArrayException`, `KeyboardInterrupt`, or
      anything else. */
  datatype Exc = ValueErr | GpuErr | Interrupt | OtherErr

  /** The exception raised for a session failure: the checks of the
      session raise `ValueError`; a zero batch size, splitting into zero
      batches and the unbound stopped epoch raise other exceptions. */
  function Classify(f: Session.Failure): (e: Exc)
    ensures e == ValueErr <==> (Session.FailureEpoch(f).Some? && !f.NoBatches?) || f.NoModelSaved?
    ensures e != ValueErr ==> e == OtherErr
  {
    match f
    case TrainCostNaN(_, _) => ValueErr
    case ValCostNaN(_) => ValueErr
    case ValBlowUp(_, _) => ValueErr
    case NoModelSaved => ValueErr
    case NoBatches(_) => OtherErr
    case EpochUnbound => OtherErr
    case ZeroBatchSize => OtherErr
  }

  /** How a trial's session ends: with its summary, or raising. */
  datatype Outcome = Finished(summary: Session.Summary) | Raised(exc: Exc)

  /** The outcome of a modelled session. */
  function OutcomeOf(r: Result<Session.Summary, Session.Failure>): (o: Outcome)
    ensures r.Ok? <==> o.Finished?
    ensures r.Ok? ==> o.summary == r.value
    ensures r.Err? ==> o.exc == Classify(r.error)
  {
    match r
    case Ok(s) => Finished(s)
    case Err(f) => Raised(Classify(f))
  }

  /** A session run of the loop: the trial number, the configuration it
      trains with, whether it resumes from the last saved training state,
      whether the initial parameters are reloaded first (more than one
      trial), and how it ended. */
  datatype Call = Call(trial: nat, cfg: Fields, cont: bool, fromInit: bool, outcome: Outcome)

  /** How the loop ends: after the last trial, interrupted by the user (the
      loop returns normally), or crashed with an exception it lets through. */
  datatype End = Completed | Interrupted | Crashed(exc: Exc)

  /** What the loop does: how it ends, every session it runs, and the rows
      of the results table. */
  datatype Trials = Trials(end: End, calls: seq<Call>, rows: seq<seq<Value>>)

  /** The configurations the loop accepts: a `train_hypers` list and an
      integer trial count, neither of them drawn as a hyper-parameter. */
  predicate WellFormed(cfg: Fields)
  {
    && HasHypers(cfg)
    && "train_nbtrials" in cfg && cfg["train_nbtrials"].IntV?
    && "train_hypers" !in Names(HypersOf(cfg))
    && "train_nbtrials" !in Names(HypersOf(cfg))
  }

  /** The row of a successful trial: the trial number, the values of the
      listed hyper-parameters and the summary values in the sorted order of
      their keys (best_epoch, best_val, epoch_stopped, worst_val). */
  function Row(trial: nat, cfg: Fields, hs: seq<Hyper>, s: Session.Summary): (row: seq<Value>)
    requires Names(hs) <= cfg.Keys
  {
    [IntV(trial)]
    + seq(|hs|, i requires 0 <= i < |hs| => assert hs[i].name in Names(hs); cfg[hs[i].name])
    + [IntV(s.bestEpoch), RealV(s.bestVal), IntV(s.epochStopped), RealV(s.worstVal)]
  }

  /** The rows the results table gets from a sequence of sessions: one per
      session that finished, in order. */
  function RowsOf(calls: seq<Call>, hs: seq<Hyper>): seq<seq<Value>>
  {
    if |calls| == 0 then []
    else
      var c := calls[0];
      (if c.outcome.Finished? && Names(hs) <= c.cfg.Keys then [Row(c.trial, c.cfg, hs, c.outcome.summary)] else [])
      + RowsOf(calls[1..], hs)
  }

  /** The draw at the start of a trial: `randomize_hyper` when some
      hyper-parameter is listed, the configuration itself otherwise.  A
      drawn configuration keeps the hyper-parameter list and the trial
      count, and has every listed attribute. */
  function DrawTrial(cfg: Fields, rng: Rng, show: Value -> string): (r: Result<(Fields, string), HyperError>)
    requires WellFormed(cfg)
    ensures |HypersOf(cfg)| == 0 ==> r == Ok((cfg, ""))
    ensures r.Ok? ==> && WellFormed(r.value.0)
                      && HypersOf(r.value.0) == HypersOf(cfg)
                      && r.value.0["train_nbtrials"] == cfg["train_nbtrials"]
                      && Names(HypersOf(cfg)) <= r.value.0.Keys
  {
    var hs := HypersOf(cfg);
    if |hs| > 0 then
      RandomizeHyperFails(cfg, rng, show);
      var r := RandomizeHyper(cfg, rng, show);
      if r.Ok? then
        RandomizeHyperSucceeds(cfg, rng, show);
        r
      else r
    else Ok((cfg, ""))
  }

  /** The draw of trial `t` from the configuration `c`. */
  type Drawer = (nat, Fields) -> Result<(Fields, string), HyperError>

  /** A draw behaves as `DrawTrial` promises on well-formed configurations. */
  ghost predicate SoundDraw(draw: Drawer)
  {
    forall t: nat, c: Fields {:trigger draw(t, c)} :: WellFormed(c) ==>
      && (|HypersOf(c)| == 0 ==> draw(t, c) == Ok((c, "")))
      && (draw(t, c).Ok? ==> && WellFormed(draw(t, c).value.0)
                             && HypersOf(draw(t, c).value.0) == HypersOf(c)
                             && draw(t, c).value.0["train_nbtrials"] == c["train_nbtrials"]
                             && Names(HypersOf(c)) <= draw(t, c).value.0.Keys)
  }

  /** The draws of the loop: trial `t` draws from the random stream `rngs(t)`. */
  function DrawOf(rngs: nat -> Rng, show: Value -> string): Drawer
  {
    (t: nat, c: Fields) => if WellFormed(c) then DrawTrial(c, rngs(t), show) else Ok((c, ""))
  }

  /** The draws of the loop behave as `DrawTrial` promises. */
  lemma DrawOfSound(rngs: nat -> Rng, show: Value -> string)
    ensures SoundDraw(DrawOf(rngs, show))
  {
    var draw := DrawOf(rngs, show);
    forall t: nat, c: Fields | WellFormed(c)
      ensures |HypersOf(c)| == 0 ==> draw(t, c) == Ok((c, ""))
      ensures draw(t, c).Ok? ==> && WellFormed(draw(t, c).value.0)
                                 && HypersOf(draw(t, c).value.0) == HypersOf(c)
                                 && draw(t, c).value.0["train_nbtrials"] == c["train_nbtrials"]
                                 && Names(HypersOf(c)) <= draw(t, c).value.0.Keys
    {
      assert draw(t, c) == DrawTrial(c, rngs(t), show);
    }
  }

  /** The exceptions a trial survives: a `ValueError` or a GPU failure when
      hyper-parameters are listed. */
  predicate Swallowed(e: Exc, hs: seq<Hyper>)
  {
    (e == ValueErr || e == GpuErr) && |hs| > 0
  }

  /** The loop from trial `t` on, with the current configuration `cfg` and
      resume flag `cont`.  `draw` is the draw of each trial, and `session`
      the training session (its outcome for a trial, a configuration and a
      resume flag).  A failed draw is a `ValueError` of the trial, which is
      swallowed (a draw happens only when hyper-parameters are listed).  A
      `ValueError` or GPU failure of a session is swallowed when
      hyper-parameters are listed and crashes the loop otherwise; any other
      exception crashes it, and an interrupt ends it.  After the first
      session that finishes nothing resumes any more, and with more than
      one trial each such session adds a row. */
  function TrialsFrom(draw: Drawer, cfg: Fields, t: nat, nbTrials: int, cont: bool,
                      session: (nat, Fields, bool) -> Outcome): (r: Trials)
    requires SoundDraw(draw) && WellFormed(cfg)
    decreases nbTrials + 1 - t
  {
    if t > nbTrials then Trials(Completed, [], [])
    else
      var hs := HypersOf(cfg);
      match draw(t, cfg)
      case Err(_) =>
        TrialsFrom(draw, cfg, t + 1, nbTrials, cont, session)
      case Ok((cfg', _)) =>
        var outcome := session(t, cfg', cont);
        var call := Call(t, cfg', cont, nbTrials > 1, outcome);
        match outcome
        case Finished(s) =>
          var rest := TrialsFrom(draw, cfg', t + 1, nbTrials, false, session);
          var row := if nbTrials > 1 then [Row(t, cfg', hs, s)] else [];
          Trials(rest.end, [call] + rest.calls, row + rest.rows)
        case Raised(e) =>
          if e == Interrupt then Trials(Interrupted, [call], [])
          else if Swallowed(e, hs) then
            var rest := TrialsFrom(draw, cfg', t + 1, nbTrials, cont, session);
            Trials(rest.end, [call] + rest.calls, rest.rows)
          else Trials(Crashed(e), [call], [])
  }

  /** `train_multipletrials`: trials 1 to `train_nbtrials` from the merged
      configuration.  `rngs(t)` is the random stream of trial `t`'s draw and
      `show` the printed form of a value. */
  function MultipleTrials(cfg: Fields, cont: bool, rngs: nat -> Rng, show: Value -> string,
                          session: (nat, Fields, bool) -> Outcome): Trials
    requires WellFormed(cfg)
  {
    DrawOfSound(rngs, show);
    TrialsFrom(DrawOf(rngs, show), cfg, 1, cfg["train_nbtrials"].i, cont, session)
  }
}
