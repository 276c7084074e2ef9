/**
 * Reachable states of the step system, and what the steps of one replica leave unchanged.
 */
module DamysusRuns {
  import opened DamysusTypes
  import opened DamysusSystem
  import opened DamysusInvariant
  import opened DamysusSafety

  ghost predicate Reachable(s: System) {
    exists steps :: EnabledAll(Initial(s.n), steps) && Run(Initial(s.n), steps) == s
  }

  /** State `t` is reached from `s` by steps of replica `i` alone. */
  ghost predicate Evolves(s: System, t: System, i: ReplicaId) {
    exists steps :: Own(steps, i) && EnabledAll(s, steps) && Run(s, steps) == t
  }

  ghost predicate Own(steps: seq<Step>, i: ReplicaId) {
    forall step :: step in steps ==> step.replica == i
  }

  lemma {:induction false} RunAppend(s: System, steps: seq<Step>, more: seq<Step>)
    requires EnabledAll(s, steps) && EnabledAll(Run(s, steps), more)
    ensures EnabledAll(s, steps + more) && Run(s, steps + more) == Run(Run(s, steps), more)
    decreases |steps|
  {
    hide Enabled, Next;
    if steps == [] {
      assert steps + more == more;
    } else {
      RunAppend(Next(s, steps[0]), steps[1..], more);
      assert (steps + more)[1..] == steps[1..] + more;
    }
  }

  lemma EvolvesNot(s: System, i: ReplicaId)
    ensures Evolves(s, s, i)
  {
    assert Own([], i) && EnabledAll(s, []) && Run(s, []) == s;
  }

  lemma EvolvesOnce(s: System, step: Step)
    requires Enabled(s, step)
    ensures Evolves(s, Next(s, step), step.replica)
  {
    var steps := [step];
    assert steps[1..] == [] && Run(Next(s, step), []) == Next(s, step);
    assert Run(s, steps) == Run(Next(s, steps[0]), steps[1..]);
    assert Own(steps, step.replica) && EnabledAll(s, steps) && Run(s, steps) == Next(s, step);
  }

  lemma EvolvesFurther(s: System, t: System, u: System, i: ReplicaId)
    requires Evolves(s, t, i) && Evolves(t, u, i)
    ensures Evolves(s, u, i)
  {
    var steps :| Own(steps, i) && EnabledAll(s, steps) && Run(s, steps) == t;
    var more :| Own(more, i) && EnabledAll(t, more) && Run(t, more) == u;
    RunAppend(s, steps, more);
    assert Own(steps + more, i);
  }

  lemma InitialReachable(n: nat)
    ensures Reachable(Initial(n))
  {
    assert EnabledAll(Initial(n), []) && Run(Initial(n), []) == Initial(n);
  }

  lemma ReachableInv(s: System)
    requires Reachable(s)
    ensures Inv(s)
  {
    var steps :| EnabledAll(Initial(s.n), steps) && Run(Initial(s.n), steps) == s;
    InitialInv(s.n);
    RunKeepsInv(Initial(s.n), steps);
  }

  lemma {:induction false} RunKeepsSize(s: System, steps: seq<Step>)
    requires EnabledAll(s, steps)
    ensures Run(s, steps).n == s.n
    decreases |steps|
  {
    if steps != [] {
      RunKeepsSize(Next(s, steps[0]), steps[1..]);
    }
  }

  lemma ReachableFurther(s: System, t: System, i: ReplicaId)
    requires Reachable(s) && Evolves(s, t, i)
    ensures Reachable(t)
  {
    var steps :| EnabledAll(Initial(s.n), steps) && Run(Initial(s.n), steps) == s;
    var more :| Own(more, i) && EnabledAll(s, more) && Run(s, more) == t;
    RunAppend(Initial(s.n), steps, more);
    RunKeepsSize(s, more);
  }

  // ---------------------------------------------------------------------------------------------
  // What evolution keeps

  /** Commitments and blocks stay issued, and only replica `i` may have changed. */
  ghost predicate Monotone(s: System, t: System, i: ReplicaId) {
    && t.n == s.n
    && Grows(s.ledger, t.ledger)
    && s.usigs <= t.usigs
    && |t.enclaves| == |s.enclaves| && |t.executed| == |s.executed|
    && (forall k :: 0 <= k < |s.enclaves| && k != i ==> t.enclaves[k] == s.enclaves[k])
    && (forall k :: 0 <= k < |s.executed| && k != i ==> t.executed[k] == s.executed[k])
    && (forall k :: 0 <= k < |s.executed| ==> s.executed[k] <= t.executed[k])
    && (forall k :: 0 <= k < |s.enclaves| ==> s.enclaves[k].peers <= t.enclaves[k].peers)
  }

  lemma StepIsMonotone(s: System, step: Step)
    requires Enabled(s, step) && Grows(s.ledger, Next(s, step).ledger)
    ensures Monotone(s, Next(s, step), step.replica)
  {
  }

  lemma MonotoneFurther(s: System, t: System, u: System, i: ReplicaId)
    requires Monotone(s, t, i) && Monotone(t, u, i)
    ensures Monotone(s, u, i)
  {
  }

  lemma {:induction false} RunIsMonotone(s: System, steps: seq<Step>, i: ReplicaId)
    requires Inv(s) && EnabledAll(s, steps) && Own(steps, i)
    ensures Monotone(s, Run(s, steps), i)
    decreases |steps|
  {
    if steps != [] {
      var t := Next(s, steps[0]);
      assert steps[0] in steps;
      assert Inv(t) && Monotone(s, t, i) by {
        StepKeepsInv(s, steps[0]);
        StepIsMonotone(s, steps[0]);
      }
      RunIsMonotone(t, steps[1..], i);
      MonotoneFurther(s, t, Run(t, steps[1..]), i);
    }
  }

  lemma EvolutionIsMonotone(s: System, t: System, i: ReplicaId)
    requires Reachable(s) && Evolves(s, t, i)
    ensures Monotone(s, t, i)
  {
    ReachableInv(s);
    var steps :| Own(steps, i) && EnabledAll(s, steps) && Run(s, steps) == t;
    RunIsMonotone(s, steps, i);
  }
}
