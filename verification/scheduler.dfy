/** The critic/generator update policy of adversarial training: the critic is
    stepped on every batch, the generator only on batches whose index within
    the epoch is a multiple of the current critic-run period. */
module Scheduler {

  /** The critic-run period: 10 during the warm-up (fewer than 25 generator
      updates so far) and whenever the update count is a multiple of 500,
      5 otherwise. */
  function CriticRuns(generatorUpdates: nat): (p: nat)
    ensures p == 5 || p == 10
  {
    if generatorUpdates < 25 || generatorUpdates % 500 == 0 then 10 else 5
  }

  /** Whether batch `k` of an epoch steps the generator, given the number of
      generator updates done before it. */
  predicate StepsGenerator(k: nat, generatorUpdates: nat)
  {
    k % CriticRuns(generatorUpdates) == 0
  }

  function CountTrue(s: seq<bool>): nat
  {
    if |s| == 0 then 0 else CountTrue(s[..|s| - 1]) + (if s[|s| - 1] then 1 else 0)
  }

  lemma CountTrueAppend(s: seq<bool>, b: bool)
    ensures CountTrue(s + [b]) == CountTrue(s) + (if b then 1 else 0)
  {
    assert (s + [b])[..|s|] == s;
  }

  lemma {:induction false} CountTrueConcat(s: seq<bool>, t: seq<bool>)
    ensures CountTrue(s + t) == CountTrue(s) + CountTrue(t)
    decreases |t|
  {
    if |t| == 0 {
      assert s + t == s;
    } else {
      var t' := t[..|t| - 1];
      assert s + t == (s + t') + [t[|t| - 1]];
      assert t == t' + [t[|t| - 1]];
      CountTrueConcat(s, t');
      CountTrueAppend(s + t', t[|t| - 1]);
      CountTrueAppend(t', t[|t| - 1]);
    }
  }

  /** The generator-step flags of batches k .. nb-1 of one epoch, when
      `generatorUpdates` generator updates were done before batch k.  Each
      generator step raises the count the later batches see by one. */
  function Schedule(k: nat, nb: nat, generatorUpdates: nat): (steps: seq<bool>)
    decreases nb - k
    ensures |steps| == if k <= nb then nb - k else 0
  {
    if k >= nb then []
    else
      var g := StepsGenerator(k, generatorUpdates);
      [g] + Schedule(k + 1, nb, if g then generatorUpdates + 1 else generatorUpdates)
  }

  /** The closed rule behind the schedule: batch k + i steps the generator
      iff its index is a multiple of the period chosen from the number of
      generator updates done before it, that is, the updates before the
      epoch's batch k plus the steps of batches k .. k + i - 1. */
  lemma {:induction false} ScheduleRule(k: nat, nb: nat, gu: nat, i: nat)
    requires k + i < nb
    ensures var steps := Schedule(k, nb, gu);
            steps[i] <==> (k + i) % CriticRuns(gu + CountTrue(steps[..i])) == 0
    decreases i
  {
    var steps := Schedule(k, nb, gu);
    var g := StepsGenerator(k, gu);
    var gu' := if g then gu + 1 else gu;
    var rest := Schedule(k + 1, nb, gu');
    assert steps == [g] + rest;
    if i == 0 {
      assert steps[..0] == [];
    } else {
      ScheduleRule(k + 1, nb, gu', i - 1);
      assert steps[i] == rest[i - 1];
      assert steps[..i] == [g] + rest[..i - 1];
      CountTrueConcat([g], rest[..i - 1]);
      assert CountTrue([g]) == (if g then 1 else 0) by {
        assert [g] == [] + [g];
        CountTrueAppend([], g);
      }
    }
  }

  /** Batch 0 of every epoch steps the generator, whatever the count. */
  lemma FirstBatchStepsGenerator(nb: nat, gu: nat)
    requires nb > 0
    ensures Schedule(0, nb, gu)[0]
  {
  }

  /** The generator is stepped on every batch whose index is a multiple of
      10, and only on batches whose index is a multiple of 5. */
  lemma ScheduleCadence(k: nat, nb: nat, gu: nat, i: nat)
    requires k + i < nb
    ensures (k + i) % 10 == 0 ==> Schedule(k, nb, gu)[i]
    ensures Schedule(k, nb, gu)[i] ==> (k + i) % 5 == 0
  {
    ScheduleRule(k, nb, gu, i);
    var p := CriticRuns(gu + CountTrue(Schedule(k, nb, gu)[..i]));
    var n := k + i;
    if n % 10 == 0 {
      assert n == 10 * (n / 10);
      if p == 5 {
        assert n == 5 * (2 * (n / 10));
      }
    }
    if p == 10 && n % 10 == 0 {
      assert n == 5 * (2 * (n / 10));
    }
  }

  /** The number of indices in [k, nb) that are multiples of m. */
  function Multiples(k: nat, nb: nat, m: nat): nat
    requires m > 0
    decreases nb - k
  {
    if k >= nb then 0 else (if k % m == 0 then 1 else 0) + Multiples(k + 1, nb, m)
  }

  /** An epoch of batches k .. nb-1 performs at least as many generator
      updates as there are multiples of 10 among the batch indices, and at
      most as many as there are multiples of 5. */
  lemma {:induction false} ScheduleUpdateBounds(k: nat, nb: nat, gu: nat)
    ensures Multiples(k, nb, 10) <= CountTrue(Schedule(k, nb, gu)) <= Multiples(k, nb, 5)
    decreases nb - k
  {
    if k < nb {
      var g := StepsGenerator(k, gu);
      var gu' := if g then gu + 1 else gu;
      var rest := Schedule(k + 1, nb, gu');
      ScheduleUpdateBounds(k + 1, nb, gu');
      ScheduleCadence(k, nb, gu, 0);
      CountTrueConcat([g], rest);
      assert CountTrue([g]) == (if g then 1 else 0) by {
        assert [g] == [] + [g];
        CountTrueAppend([], g);
      }
      if k % 10 == 0 {
        assert k == 5 * (2 * (k / 10));
      }
    }
  }

  /** The batch loop of one adversarial epoch, computed with a loop: the
      generator-step flag of every batch and the generator update count after
      the epoch. */
  method PlanEpoch(nb: nat, generatorUpdates: nat) returns (steps: seq<bool>, updatesAfter: nat)
    ensures steps == Schedule(0, nb, generatorUpdates)
    ensures |steps| == nb
    ensures updatesAfter == generatorUpdates + CountTrue(steps)
  {
    steps := [];
    updatesAfter := generatorUpdates;
    var k := 0;
    while k < nb
      invariant 0 <= k <= nb
      invariant |steps| == k
      invariant steps + Schedule(k, nb, updatesAfter) == Schedule(0, nb, generatorUpdates)
      invariant updatesAfter == generatorUpdates + CountTrue(steps)
      decreases nb - k
    {
      var g := StepsGenerator(k, updatesAfter);
      CountTrueAppend(steps, g);
      steps := steps + [g];
      if g {
        updatesAfter := updatesAfter + 1;
      }
      k := k + 1;
    }
  }
}
