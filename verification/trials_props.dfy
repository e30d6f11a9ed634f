/** Properties of the trial loop: the order of its sessions, the rows of the
    results table, the failures it survives and when sessions resume. */
module TrialsProps {
  import opened Wrappers
  import opened Config
  import opened Trials
  import Session

  /** The loop goes on after a session that finished or raised an
      exception that is swallowed. */
  predicate GoesOn(o: Outcome, hs: seq<Hyper>)
  {
    o.Finished? || Swallowed(o.exc, hs)
  }

  /** One unfolding of the loop at trial `t`: a failed draw skips to the
      next trial; otherwise the session of trial `t` comes first and, when
      the loop goes on, the rest follows with the drawn configuration and
      the resume flag cleared by a finished session. */
  lemma Unfold(draw: Drawer, cfg: Fields, t: nat, nbTrials: int, cont: bool,
               session: (nat, Fields, bool) -> Outcome)
    requires SoundDraw(draw) && WellFormed(cfg) && t <= nbTrials
    ensures var r := TrialsFrom(draw, cfg, t, nbTrials, cont, session);
            var d := draw(t, cfg);
            && (d.Err? ==> r == TrialsFrom(draw, cfg, t + 1, nbTrials, cont, session))
            && (d.Ok? ==>
                  var cfg' := d.value.0;
                  var o := session(t, cfg', cont);
                  && |r.calls| > 0
                  && r.calls[0] == Call(t, cfg', cont, nbTrials > 1, o)
                  && (GoesOn(o, HypersOf(cfg)) ==>
                        var rest := TrialsFrom(draw, cfg', t + 1, nbTrials, if o.Finished? then false else cont, session);
                        && r.end == rest.end
                        && r.calls == [r.calls[0]] + rest.calls
                        && r.rows == (if o.Finished? && nbTrials > 1
                                      then [Row(t, cfg', HypersOf(cfg), o.summary)] else []) + rest.rows)
                  && (!GoesOn(o, HypersOf(cfg)) ==>
                        && r.calls == [r.calls[0]] && r.rows == []
                        && r.end == if o == Raised(Interrupt) then Interrupted else Crashed(o.exc)))
  {
  }

  /** The loop at trial `t` when the session runs and the loop goes on: the
      session comes first and the rest of the loop follows. */
  lemma UnfoldGoesOn(draw: Drawer, cfg: Fields, t: nat, nbTrials: int, cont: bool,
                     session: (nat, Fields, bool) -> Outcome)
    requires SoundDraw(draw) && WellFormed(cfg) && t <= nbTrials && draw(t, cfg).Ok?
    requires GoesOn(session(t, draw(t, cfg).value.0, cont), HypersOf(cfg))
    ensures var cfg' := draw(t, cfg).value.0;
            var o := session(t, cfg', cont);
            var r := TrialsFrom(draw, cfg, t, nbTrials, cont, session);
            var rest := TrialsFrom(draw, cfg', t + 1, nbTrials, if o.Finished? then false else cont, session);
            && WellFormed(cfg') && HypersOf(cfg') == HypersOf(cfg)
            && Names(HypersOf(cfg)) <= cfg'.Keys
            && r.end == rest.end
            && r.calls == [Call(t, cfg', cont, nbTrials > 1, o)] + rest.calls
  {
    Unfold(draw, cfg, t, nbTrials, cont, session);
  }

  /** The loop at trial `t` when the session runs and the loop stops: that
      session is the only one. */
  lemma UnfoldStops(draw: Drawer, cfg: Fields, t: nat, nbTrials: int, cont: bool,
                    session: (nat, Fields, bool) -> Outcome)
    requires SoundDraw(draw) && WellFormed(cfg) && t <= nbTrials && draw(t, cfg).Ok?
    requires !GoesOn(session(t, draw(t, cfg).value.0, cont), HypersOf(cfg))
    ensures var cfg' := draw(t, cfg).value.0;
            var o := session(t, cfg', cont);
            var r := TrialsFrom(draw, cfg, t, nbTrials, cont, session);
            && WellFormed(cfg') && HypersOf(cfg') == HypersOf(cfg)
            && Names(HypersOf(cfg)) <= cfg'.Keys
            && r.calls == [Call(t, cfg', cont, nbTrials > 1, o)] && r.rows == []
            && r.end == if o == Raised(Interrupt) then Interrupted else Crashed(o.exc)
  {
    Unfold(draw, cfg, t, nbTrials, cont, session);
  }

  /** Trial numbers within [t, nbTrials], strictly increasing, and the
      reload flag set exactly when there is more than one trial. */
  ghost predicate InOrder(cs: seq<Call>, t: int, nbTrials: int)
  {
    && (forall i :: 0 <= i < |cs| ==> t <= cs[i].trial <= nbTrials)
    && (forall i, j :: 0 <= i < j < |cs| ==> cs[i].trial < cs[j].trial)
    && (forall i :: 0 <= i < |cs| ==> cs[i].fromInit == (nbTrials > 1))
  }

  lemma InOrderPrepend(c: Call, rest: seq<Call>, t: int, nbTrials: int)
    requires c.trial == t <= nbTrials && c.fromInit == (nbTrials > 1)
    requires InOrder(rest, t + 1, nbTrials)
    ensures InOrder([c] + rest, t, nbTrials)
  {
    var cs := [c] + rest;
    assert forall i :: 0 < i < |cs| ==> cs[i] == rest[i - 1];
  }

  /** Every session runs one trial of the range, in increasing trial order,
      with the initial parameters reloaded exactly when there is more than
      one trial. */
  lemma {:induction false} CallsInOrder(draw: Drawer, cfg: Fields, t: nat, nbTrials: int, cont: bool,
                                        session: (nat, Fields, bool) -> Outcome)
    requires SoundDraw(draw) && WellFormed(cfg)
    ensures var cs := TrialsFrom(draw, cfg, t, nbTrials, cont, session).calls;
            && (forall i :: 0 <= i < |cs| ==> t <= cs[i].trial <= nbTrials)
            && (forall i, j :: 0 <= i < j < |cs| ==> cs[i].trial < cs[j].trial)
            && (forall i :: 0 <= i < |cs| ==> cs[i].fromInit == (nbTrials > 1))
    decreases nbTrials + 1 - t
  {
    CallsInOrderFrom(draw, cfg, t, nbTrials, cont, session);
  }

  lemma {:induction false} CallsInOrderFrom(draw: Drawer, cfg: Fields, t: nat, nbTrials: int, cont: bool,
                                            session: (nat, Fields, bool) -> Outcome)
    requires SoundDraw(draw) && WellFormed(cfg)
    ensures InOrder(TrialsFrom(draw, cfg, t, nbTrials, cont, session).calls, t, nbTrials)
    decreases nbTrials + 1 - t, 2
  {
    if t <= nbTrials {
      if draw(t, cfg).Err? {
        Unfold(draw, cfg, t, nbTrials, cont, session);
        CallsInOrderFrom(draw, cfg, t + 1, nbTrials, cont, session);
      } else {
        CallsInOrderAt(draw, cfg, t, nbTrials, cont, session);
      }
    }
  }

  /** `CallsInOrderFrom` at a trial whose session runs. */
  lemma {:induction false} CallsInOrderAt(draw: Drawer, cfg: Fields, t: nat, nbTrials: int, cont: bool,
                                          session: (nat, Fields, bool) -> Outcome)
    requires SoundDraw(draw) && WellFormed(cfg) && t <= nbTrials && draw(t, cfg).Ok?
    ensures InOrder(TrialsFrom(draw, cfg, t, nbTrials, cont, session).calls, t, nbTrials)
    decreases nbTrials + 1 - t, 1
  {
    if GoesOn(session(t, draw(t, cfg).value.0, cont), HypersOf(cfg)) {
      CallsInOrderGoesOn(draw, cfg, t, nbTrials, cont, session);
    } else {
      UnfoldStops(draw, cfg, t, nbTrials, cont, session);
    }
  }

  /** `CallsInOrderFrom` at a trial whose session runs and the loop goes on. */
  lemma {:induction false} CallsInOrderGoesOn(draw: Drawer, cfg: Fields, t: nat, nbTrials: int, cont: bool,
                                              session: (nat, Fields, bool) -> Outcome)
    requires SoundDraw(draw) && WellFormed(cfg) && t <= nbTrials && draw(t, cfg).Ok?
    requires GoesOn(session(t, draw(t, cfg).value.0, cont), HypersOf(cfg))
    ensures InOrder(TrialsFrom(draw, cfg, t, nbTrials, cont, session).calls, t, nbTrials)
    decreases nbTrials + 1 - t, 0
  {
    var cfg' := draw(t, cfg).value.0;
    var o := session(t, cfg', cont);
    var next := if o.Finished? then false else cont;
    UnfoldGoesOn(draw, cfg, t, nbTrials, cont, session);
    CallsInOrderFrom(draw, cfg', t + 1, nbTrials, next, session);
    InOrderPrepend(Call(t, cfg', cont, nbTrials > 1, o), TrialsFrom(draw, cfg', t + 1, nbTrials, next, session).calls, t, nbTrials);
  }

  /** Every session of `cs` trains with a configuration holding the
      hyper-parameter list `hs` and every attribute it lists. */
  ghost predicate KeepHypers(cs: seq<Call>, hs: seq<Hyper>)
  {
    forall i :: 0 <= i < |cs| ==> WellFormed(cs[i].cfg) && HypersOf(cs[i].cfg) == hs && Names(hs) <= cs[i].cfg.Keys
  }

  /** Every session trains with a configuration holding the same
      hyper-parameter list and every listed attribute. */
  lemma CallsKeepHypers(draw: Drawer, cfg: Fields, t: nat, nbTrials: int, cont: bool,
                        session: (nat, Fields, bool) -> Outcome)
    requires SoundDraw(draw) && WellFormed(cfg)
    ensures var cs := TrialsFrom(draw, cfg, t, nbTrials, cont, session).calls;
            && (forall i :: 0 <= i < |cs| ==> WellFormed(cs[i].cfg) && HypersOf(cs[i].cfg) == HypersOf(cfg))
            && (forall i :: 0 <= i < |cs| ==> Names(HypersOf(cfg)) <= cs[i].cfg.Keys)
  {
    CallsKeepHypersFrom(draw, cfg, t, nbTrials, cont, session);
  }

  lemma {:induction false} CallsKeepHypersFrom(draw: Drawer, cfg: Fields, t: nat, nbTrials: int, cont: bool,
                                               session: (nat, Fields, bool) -> Outcome)
    requires SoundDraw(draw) && WellFormed(cfg)
    ensures KeepHypers(TrialsFrom(draw, cfg, t, nbTrials, cont, session).calls, HypersOf(cfg))
    decreases nbTrials + 1 - t, 2
  {
    if t <= nbTrials {
      if draw(t, cfg).Err? {
        Unfold(draw, cfg, t, nbTrials, cont, session);
        CallsKeepHypersFrom(draw, cfg, t + 1, nbTrials, cont, session);
      } else {
        CallsKeepHypersAt(draw, cfg, t, nbTrials, cont, session);
      }
    }
  }

  /** `CallsKeepHypersFrom` at a trial whose session runs. */
  lemma {:induction false} CallsKeepHypersAt(draw: Drawer, cfg: Fields, t: nat, nbTrials: int, cont: bool,
                                             session: (nat, Fields, bool) -> Outcome)
    requires SoundDraw(draw) && WellFormed(cfg) && t <= nbTrials && draw(t, cfg).Ok?
    ensures KeepHypers(TrialsFrom(draw, cfg, t, nbTrials, cont, session).calls, HypersOf(cfg))
    decreases nbTrials + 1 - t, 1
  {
    if GoesOn(session(t, draw(t, cfg).value.0, cont), HypersOf(cfg)) {
      CallsKeepHypersGoesOn(draw, cfg, t, nbTrials, cont, session);
    } else {
      UnfoldStops(draw, cfg, t, nbTrials, cont, session);
    }
  }

  /** `CallsKeepHypersFrom` at a trial whose session runs and the loop goes on. */
  lemma {:induction false} CallsKeepHypersGoesOn(draw: Drawer, cfg: Fields, t: nat, nbTrials: int, cont: bool,
                                                 session: (nat, Fields, bool) -> Outcome)
    requires SoundDraw(draw) && WellFormed(cfg) && t <= nbTrials && draw(t, cfg).Ok?
    requires GoesOn(session(t, draw(t, cfg).value.0, cont), HypersOf(cfg))
    ensures KeepHypers(TrialsFrom(draw, cfg, t, nbTrials, cont, session).calls, HypersOf(cfg))
    decreases nbTrials + 1 - t, 0
  {
    var cfg' := draw(t, cfg).value.0;
    var o := session(t, cfg', cont);
    var next := if o.Finished? then false else cont;
    UnfoldGoesOn(draw, cfg, t, nbTrials, cont, session);
    CallsKeepHypersFrom(draw, cfg', t + 1, nbTrials, next, session);
    KeepHypersPrepend(Call(t, cfg', cont, nbTrials > 1, o), TrialsFrom(draw, cfg', t + 1, nbTrials, next, session).calls,
                      HypersOf(cfg));
  }

  lemma KeepHypersPrepend(c: Call, rest: seq<Call>, hs: seq<Hyper>)
    requires WellFormed(c.cfg) && HypersOf(c.cfg) == hs && Names(hs) <= c.cfg.Keys
    requires KeepHypers(rest, hs)
    ensures KeepHypers([c] + rest, hs)
  {
    var cs := [c] + rest;
    assert forall i :: 0 < i < |cs| ==> cs[i] == rest[i - 1];
  }

  /** The rows of the results table: with more than one trial, one row per
      session that finished, in trial order (the trial number, the drawn
      hyper-parameter values and the summary); with at most one trial, no
      row at all. */
  lemma {:induction false} RowsAreFinishedTrials(draw: Drawer, cfg: Fields, t: nat, nbTrials: int, cont: bool,
                                                 session: (nat, Fields, bool) -> Outcome)
    requires SoundDraw(draw) && WellFormed(cfg)
    ensures var r := TrialsFrom(draw, cfg, t, nbTrials, cont, session);
            r.rows == if nbTrials > 1 then RowsOf(r.calls, HypersOf(cfg)) else []
    decreases nbTrials + 1 - t
  {
    if t <= nbTrials {
      Unfold(draw, cfg, t, nbTrials, cont, session);
      var d := draw(t, cfg);
      if d.Err? {
        RowsAreFinishedTrials(draw, cfg, t + 1, nbTrials, cont, session);
      } else {
        var cfg' := d.value.0;
        var o := session(t, cfg', cont);
        var r := TrialsFrom(draw, cfg, t, nbTrials, cont, session);
        if GoesOn(o, HypersOf(cfg)) {
          var next := if o.Finished? then false else cont;
          RowsAreFinishedTrials(draw, cfg', t + 1, nbTrials, next, session);
          var rest := TrialsFrom(draw, cfg', t + 1, nbTrials, next, session);
          assert r.calls[1..] == rest.calls;
        }
      }
    }
  }

  /** The failures the loop survives and the ones that end it: every
      session but the last finished or raised an exception that is
      swallowed; an interrupt ends the loop normally after the session that
      raised it; a crash lets through the exception of the last session,
      which is neither an interrupt nor swallowed; and a loop that
      completes survived every session. */
  lemma FailurePolicy(draw: Drawer, cfg: Fields, t: nat, nbTrials: int, cont: bool,
                       session: (nat, Fields, bool) -> Outcome)
    requires SoundDraw(draw) && WellFormed(cfg)
    ensures var r := TrialsFrom(draw, cfg, t, nbTrials, cont, session);
            var hs := HypersOf(cfg);
            var cs := r.calls;
            && (forall i :: 0 <= i < |cs| - 1 ==> GoesOn(cs[i].outcome, hs))
            && (r.end == Completed ==> forall i :: 0 <= i < |cs| ==> GoesOn(cs[i].outcome, hs))
            && (r.end == Interrupted ==> |cs| > 0 && cs[|cs| - 1].outcome == Raised(Interrupt))
            && (r.end.Crashed? ==>
                  && |cs| > 0
                  && cs[|cs| - 1].outcome == Raised(r.end.exc)
                  && r.end.exc != Interrupt
                  && !Swallowed(r.end.exc, hs))
  {
    FailurePolicyFrom(draw, cfg, t, nbTrials, cont, session);
  }

  /** The failure policy above, for an end and a sequence of sessions. */
  ghost predicate Policy(end: End, cs: seq<Call>, hs: seq<Hyper>)
  {
    && (forall i :: 0 <= i < |cs| - 1 ==> GoesOn(cs[i].outcome, hs))
    && (end == Completed ==> forall i :: 0 <= i < |cs| ==> GoesOn(cs[i].outcome, hs))
    && (end == Interrupted ==> |cs| > 0 && cs[|cs| - 1].outcome == Raised(Interrupt))
    && (end.Crashed? ==>
          && |cs| > 0
          && cs[|cs| - 1].outcome == Raised(end.exc)
          && end.exc != Interrupt
          && !Swallowed(end.exc, hs))
  }

  lemma PolicyPrepend(c: Call, end: End, rest: seq<Call>, hs: seq<Hyper>)
    requires GoesOn(c.outcome, hs) && Policy(end, rest, hs)
    ensures Policy(end, [c] + rest, hs)
  {
    var cs := [c] + rest;
    assert forall i :: 0 < i < |cs| ==> cs[i] == rest[i - 1];
    if |rest| > 0 {
      assert cs[|cs| - 1] == rest[|rest| - 1];
    }
  }

  lemma {:induction false} FailurePolicyFrom(draw: Drawer, cfg: Fields, t: nat, nbTrials: int, cont: bool,
                                             session: (nat, Fields, bool) -> Outcome)
    requires SoundDraw(draw) && WellFormed(cfg)
    ensures var r := TrialsFrom(draw, cfg, t, nbTrials, cont, session);
            Policy(r.end, r.calls, HypersOf(cfg))
    decreases nbTrials + 1 - t, 2
  {
    if t <= nbTrials {
      if draw(t, cfg).Err? {
        Unfold(draw, cfg, t, nbTrials, cont, session);
        FailurePolicyFrom(draw, cfg, t + 1, nbTrials, cont, session);
      } else {
        FailurePolicyAt(draw, cfg, t, nbTrials, cont, session);
      }
    }
  }

  /** `FailurePolicyFrom` at a trial whose session runs. */
  lemma {:induction false} FailurePolicyAt(draw: Drawer, cfg: Fields, t: nat, nbTrials: int, cont: bool,
                                           session: (nat, Fields, bool) -> Outcome)
    requires SoundDraw(draw) && WellFormed(cfg) && t <= nbTrials && draw(t, cfg).Ok?
    ensures var r := TrialsFrom(draw, cfg, t, nbTrials, cont, session);
            Policy(r.end, r.calls, HypersOf(cfg))
    decreases nbTrials + 1 - t, 1
  {
    if GoesOn(session(t, draw(t, cfg).value.0, cont), HypersOf(cfg)) {
      FailurePolicyGoesOn(draw, cfg, t, nbTrials, cont, session);
    } else {
      UnfoldStops(draw, cfg, t, nbTrials, cont, session);
    }
  }

  /** `FailurePolicyFrom` at a trial whose session runs and the loop goes on. */
  lemma {:induction false} FailurePolicyGoesOn(draw: Drawer, cfg: Fields, t: nat, nbTrials: int, cont: bool,
                                               session: (nat, Fields, bool) -> Outcome)
    requires SoundDraw(draw) && WellFormed(cfg) && t <= nbTrials && draw(t, cfg).Ok?
    requires GoesOn(session(t, draw(t, cfg).value.0, cont), HypersOf(cfg))
    ensures var r := TrialsFrom(draw, cfg, t, nbTrials, cont, session);
            Policy(r.end, r.calls, HypersOf(cfg))
    decreases nbTrials + 1 - t, 0
  {
    var cfg' := draw(t, cfg).value.0;
    var o := session(t, cfg', cont);
    var next := if o.Finished? then false else cont;
    UnfoldGoesOn(draw, cfg, t, nbTrials, cont, session);
    FailurePolicyFrom(draw, cfg', t + 1, nbTrials, next, session);
    var rest := TrialsFrom(draw, cfg', t + 1, nbTrials, next, session);
    PolicyPrepend(Call(t, cfg', cont, nbTrials > 1, o), rest.end, rest.calls, HypersOf(cfg));
  }

  /** Sessions resume from the last saved training state only until the
      first one that finishes: a session resumes exactly when the loop was
      asked to and no earlier session finished. */
  lemma {:induction false} ResumeUntilFirstSuccess(draw: Drawer, cfg: Fields, t: nat, nbTrials: int, cont: bool,
                                                   session: (nat, Fields, bool) -> Outcome)
    requires SoundDraw(draw) && WellFormed(cfg)
    ensures var cs := TrialsFrom(draw, cfg, t, nbTrials, cont, session).calls;
            forall i :: 0 <= i < |cs| ==>
              cs[i].cont == (cont && forall j :: 0 <= j < i ==> !cs[j].outcome.Finished?)
    decreases nbTrials + 1 - t, 2
  {
    if t <= nbTrials {
      if draw(t, cfg).Err? {
        Unfold(draw, cfg, t, nbTrials, cont, session);
        ResumeUntilFirstSuccess(draw, cfg, t + 1, nbTrials, cont, session);
      } else {
        ResumeAt(draw, cfg, t, nbTrials, cont, session);
      }
    }
  }

  /** `ResumeUntilFirstSuccess` at a trial whose session runs. */
  lemma {:induction false} ResumeAt(draw: Drawer, cfg: Fields, t: nat, nbTrials: int, cont: bool,
                                    session: (nat, Fields, bool) -> Outcome)
    requires SoundDraw(draw) && WellFormed(cfg) && t <= nbTrials && draw(t, cfg).Ok?
    ensures var cs := TrialsFrom(draw, cfg, t, nbTrials, cont, session).calls;
            forall i :: 0 <= i < |cs| ==>
              cs[i].cont == (cont && forall j :: 0 <= j < i ==> !cs[j].outcome.Finished?)
    decreases nbTrials + 1 - t, 1
  {
    if GoesOn(session(t, draw(t, cfg).value.0, cont), HypersOf(cfg)) {
      ResumeGoesOn(draw, cfg, t, nbTrials, cont, session);
    } else {
      UnfoldStops(draw, cfg, t, nbTrials, cont, session);
    }
  }

  /** `ResumeUntilFirstSuccess` at a trial whose session runs and the loop goes on. */
  lemma {:induction false} ResumeGoesOn(draw: Drawer, cfg: Fields, t: nat, nbTrials: int, cont: bool,
                                        session: (nat, Fields, bool) -> Outcome)
    requires SoundDraw(draw) && WellFormed(cfg) && t <= nbTrials && draw(t, cfg).Ok?
    requires GoesOn(session(t, draw(t, cfg).value.0, cont), HypersOf(cfg))
    ensures var cs := TrialsFrom(draw, cfg, t, nbTrials, cont, session).calls;
            forall i :: 0 <= i < |cs| ==>
              cs[i].cont == (cont && forall j :: 0 <= j < i ==> !cs[j].outcome.Finished?)
    decreases nbTrials + 1 - t, 0
  {
    var cfg' := draw(t, cfg).value.0;
    var o := session(t, cfg', cont);
    var next := if o.Finished? then false else cont;
    UnfoldGoesOn(draw, cfg, t, nbTrials, cont, session);
    ResumeUntilFirstSuccess(draw, cfg', t + 1, nbTrials, next, session);
    ResumePrepend(Call(t, cfg', cont, nbTrials > 1, o), TrialsFrom(draw, cfg', t + 1, nbTrials, next, session).calls, cont);
  }

  /** A session with resume flag `cont`, followed by sessions that resume
      until the first that finishes with the flag the first one leaves. */
  lemma ResumePrepend(c: Call, rest: seq<Call>, cont: bool)
    requires c.cont == cont
    requires var next := if c.outcome.Finished? then false else cont;
             forall i :: 0 <= i < |rest| ==>
               rest[i].cont == (next && forall j :: 0 <= j < i ==> !rest[j].outcome.Finished?)
    ensures var cs := [c] + rest;
            forall i :: 0 <= i < |cs| ==>
              cs[i].cont == (cont && forall j :: 0 <= j < i ==> !cs[j].outcome.Finished?)
  {
    var cs := [c] + rest;
    forall i | 0 < i < |cs|
      ensures cs[i].cont == (cont && forall j :: 0 <= j < i ==> !cs[j].outcome.Finished?)
    {
      assert cs[i] == rest[i - 1];
      if !c.outcome.Finished? {
        assert (forall j :: 0 <= j < i ==> !cs[j].outcome.Finished?) <==>
               (forall j :: 0 <= j < i - 1 ==> !rest[j].outcome.Finished?) by {
          if forall j :: 0 <= j < i - 1 ==> !rest[j].outcome.Finished? {
            forall j | 0 <= j < i ensures !cs[j].outcome.Finished? {
              if j > 0 { assert cs[j] == rest[j - 1]; }
            }
          }
          if forall j :: 0 <= j < i ==> !cs[j].outcome.Finished? {
            forall j | 0 <= j < i - 1 ensures !rest[j].outcome.Finished? {
              assert cs[j + 1] == rest[j];
            }
          }
        }
      } else {
        assert cs[0].outcome.Finished?;
      }
    }
  }

  /** The sessions `cs` run the configuration `cfg` for trials `t`, `t + 1`,
      ... in turn. */
  ghost predicate RunsInTurn(cs: seq<Call>, cfg: Fields, t: nat)
  {
    forall i :: 0 <= i < |cs| ==> cs[i].cfg == cfg && cs[i].trial == t + i
  }

  /** With no hyper-parameter listed every trial runs the unchanged
      configuration, one session per trial in turn, and a loop that
      completes ran a session for every trial of the range. */
  lemma {:induction false} NoHypersRunsEveryTrial(draw: Drawer, cfg: Fields, t: nat, nbTrials: int, cont: bool,
                                                  session: (nat, Fields, bool) -> Outcome)
    requires SoundDraw(draw) && WellFormed(cfg) && |HypersOf(cfg)| == 0
    ensures var r := TrialsFrom(draw, cfg, t, nbTrials, cont, session);
            && RunsInTurn(r.calls, cfg, t)
            && (r.end == Completed && t <= nbTrials + 1 ==> |r.calls| == nbTrials + 1 - t)
    decreases nbTrials + 1 - t, 2
  {
    if t <= nbTrials {
      NoHypersTrial(draw, cfg, t, nbTrials, cont, session);
    }
  }

  /** `NoHypersRunsEveryTrial` at a trial of the range. */
  lemma {:induction false} NoHypersTrial(draw: Drawer, cfg: Fields, t: nat, nbTrials: int, cont: bool,
                                         session: (nat, Fields, bool) -> Outcome)
    requires SoundDraw(draw) && WellFormed(cfg) && |HypersOf(cfg)| == 0 && t <= nbTrials
    ensures var r := TrialsFrom(draw, cfg, t, nbTrials, cont, session);
            && RunsInTurn(r.calls, cfg, t)
            && (r.end == Completed ==> |r.calls| == nbTrials + 1 - t)
    decreases nbTrials + 1 - t, 1
  {
    assert draw(t, cfg) == Ok((cfg, ""));
    if session(t, cfg, cont).Finished? {
      NoHypersFinished(draw, cfg, t, nbTrials, cont, session);
    } else {
      Unfold(draw, cfg, t, nbTrials, cont, session);
    }
  }

  /** `NoHypersRunsEveryTrial` at a trial whose session finishes. */
  lemma {:induction false} NoHypersFinished(draw: Drawer, cfg: Fields, t: nat, nbTrials: int, cont: bool,
                                            session: (nat, Fields, bool) -> Outcome)
    requires SoundDraw(draw) && WellFormed(cfg) && |HypersOf(cfg)| == 0 && t <= nbTrials
    requires session(t, cfg, cont).Finished?
    ensures var r := TrialsFrom(draw, cfg, t, nbTrials, cont, session);
            && RunsInTurn(r.calls, cfg, t)
            && (r.end == Completed ==> |r.calls| == nbTrials + 1 - t)
    decreases nbTrials + 1 - t, 0
  {
    assert draw(t, cfg) == Ok((cfg, ""));
    UnfoldGoesOn(draw, cfg, t, nbTrials, cont, session);
    NoHypersRunsEveryTrial(draw, cfg, t + 1, nbTrials, false, session);
    var rest := TrialsFrom(draw, cfg, t + 1, nbTrials, false, session).calls;
    var cs := [Call(t, cfg, cont, nbTrials > 1, session(t, cfg, cont))] + rest;
    assert forall i :: 0 < i < |cs| ==> cs[i] == rest[i - 1];
  }

  /** Three trials drawing the critic learning rate in [0.0001, 0.1), whose
      second session fails on the GPU. */
  function ExampleConfig(): Fields
  {
    map["train_hypers" := HypersV([Hyper("train_D_learningrate", RealB(0.0001), RealB(0.1))]),
        "train_nbtrials" := IntV(3),
        "train_D_learningrate" := RealV(0.0001)]
  }

  const ExampleSummary := Session.Summary(300, 1.0, 250, 0.5)

  function ExampleSession(): (nat, Fields, bool) -> Outcome
  {
    (t: nat, c: Fields, cont: bool) => if t == 2 then Raised(GpuErr) else Finished(ExampleSummary)
  }

  /** `row` is a row of the results table for trial `t`. */
  predicate RowOfTrial(row: seq<Value>, t: nat)
  {
    |row| > 0 && row[0] == IntV(t)
  }

  /** Trial 3 of `ExampleSession`, under a draw that succeeds: it finishes
      and adds the last row. */
  lemma ExampleLastTrial(draw: Drawer, c: Fields)
    requires SoundDraw(draw) && WellFormed(c) && |HypersOf(c)| > 0 && draw(3, c).Ok?
    ensures var r := TrialsFrom(draw, c, 3, 3, false, ExampleSession());
            && r.end == Completed && |r.calls| == 1 && !r.calls[0].cont
            && |r.rows| == 1 && RowOfTrial(r.rows[0], 3)
  {
    Unfold(draw, c, 3, 3, false, ExampleSession());
    assert ExampleSession()(3, draw(3, c).value.0, false) == Finished(ExampleSummary);
  }

  /** Trials 2 and 3 of `ExampleSession`, under draws that succeed: the GPU
      failure of trial 2 is swallowed and only trial 3 adds a row. */
  lemma ExampleLastTwoTrials(draw: Drawer, c: Fields)
    requires SoundDraw(draw) && WellFormed(c) && |HypersOf(c)| > 0 && draw(2, c).Ok?
    requires draw(3, draw(2, c).value.0).Ok?
    ensures var r := TrialsFrom(draw, c, 2, 3, false, ExampleSession());
            && r.end == Completed && |r.calls| == 2 && !r.calls[0].cont && !r.calls[1].cont
            && |r.rows| == 1 && RowOfTrial(r.rows[0], 3)
  {
    var c2 := draw(2, c).value.0;
    assert ExampleSession()(2, c2, false) == Raised(GpuErr);
    Unfold(draw, c, 2, 3, false, ExampleSession());
    ExampleLastTrial(draw, c2);
  }

  /** The three trials of `ExampleSession`, resuming, under draws that
      succeed. */
  lemma ExampleAllTrials(draw: Drawer, c: Fields)
    requires SoundDraw(draw) && WellFormed(c) && |HypersOf(c)| > 0 && draw(1, c).Ok?
    requires draw(2, draw(1, c).value.0).Ok?
    requires draw(3, draw(2, draw(1, c).value.0).value.0).Ok?
    ensures var r := TrialsFrom(draw, c, 1, 3, true, ExampleSession());
            && r.end == Completed
            && |r.calls| == 3
            && r.calls[0].cont && !r.calls[1].cont && !r.calls[2].cont
            && |r.rows| == 2
            && RowOfTrial(r.rows[0], 1) && RowOfTrial(r.rows[1], 3)
  {
    var c1 := draw(1, c).value.0;
    assert ExampleSession()(1, c1, true) == Finished(ExampleSummary);
    Unfold(draw, c, 1, 3, true, ExampleSession());
    ExampleLastTwoTrials(draw, c1);
  }

  /** The example configuration is a well-formed input of the loop, and
      every draw from a configuration with its hyper-parameter list
      succeeds. */
  lemma ExampleDrawsSucceed(rngs: nat -> Rng, show: Value -> string)
    ensures WellFormed(ExampleConfig())
    ensures forall t: nat, c: Fields {:trigger DrawOf(rngs, show)(t, c)} ::
              WellFormed(c) && HypersOf(c) == HypersOf(ExampleConfig()) ==> DrawOf(rngs, show)(t, c).Ok?
  {
    var hs := HypersOf(ExampleConfig());
    assert Names(hs) == {"train_D_learningrate"} by {
      assert hs[0].name in Names(hs);
    }
    assert !EmptyIntRange(hs[0]);
    forall t: nat, c: Fields | WellFormed(c) && HypersOf(c) == hs
      ensures DrawOf(rngs, show)(t, c).Ok?
    {
      RandomizeHyperFails(c, rngs(t), show);
      assert DrawOf(rngs, show)(t, c) == DrawTrial(c, rngs(t), show);
    }
  }

  /** The loop survives the GPU failure of trial 2: the table gets the rows
      of trials 1 and 3, and only the first session resumes. */
  lemma GpuFailureIsSkipped(rngs: nat -> Rng, show: Value -> string)
    ensures var r := MultipleTrials(ExampleConfig(), true, rngs, show, ExampleSession());
            && r.end == Completed
            && |r.calls| == 3
            && r.calls[0].cont && !r.calls[1].cont && !r.calls[2].cont
            && |r.rows| == 2
            && RowOfTrial(r.rows[0], 1) && RowOfTrial(r.rows[1], 3)
  {
    var cfg := ExampleConfig();
    var draw := DrawOf(rngs, show);
    DrawOfSound(rngs, show);
    ExampleDrawsSucceed(rngs, show);
    assert draw(1, cfg).Ok?;
    var c1 := draw(1, cfg).value.0;
    assert draw(2, c1).Ok?;
    assert draw(3, draw(2, c1).value.0).Ok?;
    ExampleAllTrials(draw, cfg);
    assert MultipleTrials(cfg, true, rngs, show, ExampleSession())
        == TrialsFrom(draw, cfg, 1, 3, true, ExampleSession());
  }

  /** The session failures a sweep over hyper-parameters survives: the
      checks on the training and validation costs and the final check that
      a model was saved.  An epoch without batches, an unbound stopped
      epoch and a zero batch size are programming errors that end any loop. */
  predicate Survivable(f: Session.Failure)
  {
    f.TrainCostNaN? || f.ValCostNaN? || f.ValBlowUp? || f.NoModelSaved?
  }

  /** A session result the loop goes on after: a finished session, or a
      survivable failure when hyper-parameters are listed. */
  predicate Survives(res: Result<Session.Summary, Session.Failure>, hs: seq<Hyper>)
  {
    res.Ok? || (|hs| > 0 && Survivable(res.error))
  }

  /** Through the exception it raises, a modelled session result goes on
      exactly when it survives, and it is never an interrupt. */
  lemma SessionResultGoesOn(res: Result<Session.Summary, Session.Failure>, hs: seq<Hyper>)
    ensures GoesOn(OutcomeOf(res), hs) <==> Survives(res, hs)
    ensures OutcomeOf(res) != Raised(Interrupt)
  {
  }

  /** The sessions of the loop run by the modelled training session `train`. */
  function Sessions(train: (nat, Fields, bool) -> Result<Session.Summary, Session.Failure>): (session: (nat, Fields, bool) -> Outcome)
    ensures forall t, c, k :: session(t, c, k) == OutcomeOf(train(t, c, k))
  {
    (t: nat, c: Fields, k: bool) => OutcomeOf(train(t, c, k))
  }

  /** Every call of `cs` records the outcome of its session. */
  ghost predicate RecordsOutcomes(cs: seq<Call>, session: (nat, Fields, bool) -> Outcome)
  {
    forall i :: 0 <= i < |cs| ==> cs[i].outcome == session(cs[i].trial, cs[i].cfg, cs[i].cont)
  }

  lemma RecordsOutcomesPrepend(c: Call, rest: seq<Call>, session: (nat, Fields, bool) -> Outcome)
    requires c.outcome == session(c.trial, c.cfg, c.cont) && RecordsOutcomes(rest, session)
    ensures RecordsOutcomes([c] + rest, session)
  {
    var cs := [c] + rest;
    assert forall i :: 0 < i < |cs| ==> cs[i] == rest[i - 1];
  }

  /** Every call records the outcome of the session run on its trial,
      configuration and resume flag. */
  lemma {:induction false} CallsRecordOutcomes(draw: Drawer, cfg: Fields, t: nat, nbTrials: int, cont: bool,
                                               session: (nat, Fields, bool) -> Outcome)
    requires SoundDraw(draw) && WellFormed(cfg)
    ensures RecordsOutcomes(TrialsFrom(draw, cfg, t, nbTrials, cont, session).calls, session)
    decreases nbTrials + 1 - t, 2
  {
    if t <= nbTrials {
      if draw(t, cfg).Err? {
        Unfold(draw, cfg, t, nbTrials, cont, session);
        CallsRecordOutcomes(draw, cfg, t + 1, nbTrials, cont, session);
      } else {
        CallsRecordOutcomesAt(draw, cfg, t, nbTrials, cont, session);
      }
    }
  }

  /** `CallsRecordOutcomes` at a trial whose session runs. */
  lemma {:induction false} CallsRecordOutcomesAt(draw: Drawer, cfg: Fields, t: nat, nbTrials: int, cont: bool,
                                                 session: (nat, Fields, bool) -> Outcome)
    requires SoundDraw(draw) && WellFormed(cfg) && t <= nbTrials && draw(t, cfg).Ok?
    ensures RecordsOutcomes(TrialsFrom(draw, cfg, t, nbTrials, cont, session).calls, session)
    decreases nbTrials + 1 - t, 1
  {
    if GoesOn(session(t, draw(t, cfg).value.0, cont), HypersOf(cfg)) {
      CallsRecordOutcomesGoesOn(draw, cfg, t, nbTrials, cont, session);
    } else {
      UnfoldStops(draw, cfg, t, nbTrials, cont, session);
    }
  }

  /** `CallsRecordOutcomes` at a trial whose session runs and the loop goes on. */
  lemma {:induction false} CallsRecordOutcomesGoesOn(draw: Drawer, cfg: Fields, t: nat, nbTrials: int, cont: bool,
                                                     session: (nat, Fields, bool) -> Outcome)
    requires SoundDraw(draw) && WellFormed(cfg) && t <= nbTrials && draw(t, cfg).Ok?
    requires GoesOn(session(t, draw(t, cfg).value.0, cont), HypersOf(cfg))
    ensures RecordsOutcomes(TrialsFrom(draw, cfg, t, nbTrials, cont, session).calls, session)
    decreases nbTrials + 1 - t, 0
  {
    var cfg' := draw(t, cfg).value.0;
    var o := session(t, cfg', cont);
    var next := if o.Finished? then false else cont;
    UnfoldGoesOn(draw, cfg, t, nbTrials, cont, session);
    CallsRecordOutcomes(draw, cfg', t + 1, nbTrials, next, session);
    RecordsOutcomesPrepend(Call(t, cfg', cont, nbTrials > 1, o), TrialsFrom(draw, cfg', t + 1, nbTrials, next, session).calls, session);
  }

  /** The loop over modelled training sessions: it is never interrupted;
      every session but the last survived; a completed loop survived them
      all; and a crash is the exception of the last session's failure,
      which is not survivable with the listed hyper-parameters.  With
      hyper-parameters listed, only an epoch without batches, an unbound
      stopped epoch or a zero batch size crashes the sweep. */
  lemma SweepOverSessions(draw: Drawer, cfg: Fields, t: nat, nbTrials: int, cont: bool,
                          train: (nat, Fields, bool) -> Result<Session.Summary, Session.Failure>)
    requires SoundDraw(draw) && WellFormed(cfg)
    ensures var r := TrialsFrom(draw, cfg, t, nbTrials, cont, Sessions(train));
            var hs := HypersOf(cfg);
            var cs := r.calls;
            && r.end != Interrupted
            && (forall i :: 0 <= i < |cs| - 1 ==> Survives(train(cs[i].trial, cs[i].cfg, cs[i].cont), hs))
            && (r.end == Completed ==> forall i :: 0 <= i < |cs| ==> Survives(train(cs[i].trial, cs[i].cfg, cs[i].cont), hs))
            && (r.end.Crashed? ==>
                  && |cs| > 0
                  && var res := train(cs[|cs| - 1].trial, cs[|cs| - 1].cfg, cs[|cs| - 1].cont);
                  && res.Err?
                  && !Survives(res, hs)
                  && r.end.exc == Classify(res.error))
  {
    var session := Sessions(train);
    var r := TrialsFrom(draw, cfg, t, nbTrials, cont, session);
    var hs := HypersOf(cfg);
    var cs := r.calls;
    FailurePolicy(draw, cfg, t, nbTrials, cont, session);
    CallsRecordOutcomes(draw, cfg, t, nbTrials, cont, session);
    forall i | 0 <= i < |cs|
      ensures GoesOn(cs[i].outcome, hs) <==> Survives(train(cs[i].trial, cs[i].cfg, cs[i].cont), hs)
      ensures cs[i].outcome != Raised(Interrupt)
    {
      SessionResultGoesOn(train(cs[i].trial, cs[i].cfg, cs[i].cont), hs);
    }
  }
}
