/** Runs of a transition system: the steps that its threads, DPCs and callers take, in one global order. */
module Runs {
  datatype Machine<!S, !E> = Machine(init: S, enabled: (S, E) -> bool, step: (S, E) -> S)

  /** The state a run ends in. */
  ghost function After<S, E>(m: Machine<S, E>, run: seq<E>): S {
    if run == [] then m.init
    else m.step(After(m, run[..|run| - 1]), run[|run| - 1])
  }

  /** Every step of the run was possible when it was taken. */
  ghost predicate Legal<S, E>(m: Machine<S, E>, run: seq<E>) {
    run == []
    || (Legal(m, run[..|run| - 1]) && m.enabled(After(m, run[..|run| - 1]), run[|run| - 1]))
  }

  /** A predicate on states that holds at the start and that every possible step keeps. */
  ghost predicate Inductive<S(!new), E(!new)>(m: Machine<S, E>, inv: S -> bool) {
    && inv(m.init)
    && forall s, e :: inv(s) && m.enabled(s, e) ==> inv(m.step(s, e))
  }

  lemma AfterSnoc<S, E>(m: Machine<S, E>, run: seq<E>, k: nat)
    requires k < |run|
    ensures After(m, run[..k + 1]) == m.step(After(m, run[..k]), run[k])
  {
    assert run[..k + 1][..k] == run[..k];
  }

  lemma {:induction false} Grow<S, E>(m: Machine<S, E>, run: seq<E>, e: E)
    requires Legal(m, run) && m.enabled(After(m, run), e)
    ensures Legal(m, run + [e]) && After(m, run + [e]) == m.step(After(m, run), e)
  {
    assert (run + [e])[..|run|] == run;
  }

  ghost predicate Reachable<S(!new), E(!new)>(m: Machine<S, E>, s: S) {
    exists run :: Legal(m, run) && After(m, run) == s
  }

  lemma InitReachable<S(!new), E(!new)>(m: Machine<S, E>)
    ensures Reachable(m, m.init)
  {
    assert Legal(m, []) && After(m, []) == m.init;
  }

  lemma StepReachable<S(!new), E(!new)>(m: Machine<S, E>, s: S, e: E)
    requires Reachable(m, s) && m.enabled(s, e)
    ensures Reachable(m, m.step(s, e))
  {
    var run :| Legal(m, run) && After(m, run) == s;
    Grow(m, run, e);
  }

  lemma {:induction false} LegalPrefix<S, E>(m: Machine<S, E>, run: seq<E>, k: nat)
    requires Legal(m, run) && k <= |run|
    ensures Legal(m, run[..k])
    ensures k < |run| ==> m.enabled(After(m, run[..k]), run[k])
  {
    var n := |run| - 1;
    if k == |run| {
      assert run[..k] == run;
    } else if k < n {
      LegalPrefix(m, run[..n], k);
      assert run[..n][..k] == run[..k];
    }
  }

  lemma {:induction false} Invariance<S(!new), E(!new)>(m: Machine<S, E>, inv: S -> bool, run: seq<E>)
    requires Inductive(m, inv)
    requires Legal(m, run)
    ensures inv(After(m, run))
  {
    if run != [] {
      var k := |run| - 1;
      LegalPrefix(m, run, k);
      Invariance(m, inv, run[..k]);
      AfterSnoc(m, run, k);
      assert run[..k + 1] == run;
    }
  }

  /** A property that steps keep in every reachable state lasts from the moment it holds. */
  lemma {:induction false} Persistence<S(!new), E(!new)>(m: Machine<S, E>, inv: S -> bool, p: S -> bool,
                                                         run: seq<E>, k: nat)
    requires Inductive(m, inv)
    requires Legal(m, run) && k <= |run|
    requires forall s, e :: inv(s) && p(s) && m.enabled(s, e) ==> p(m.step(s, e))
    requires p(After(m, run[..k]))
    ensures p(After(m, run))
  {
    if k == |run| {
      assert run[..k] == run;
    } else {
      var n := |run| - 1;
      LegalPrefix(m, run, n);
      assert run[..n][..k] == run[..k];
      Persistence(m, inv, p, run[..n], k);
      Invariance(m, inv, run[..n]);
    }
  }

  /** All steps from one point of a run up to another satisfy a condition. */
  ghost predicate Between<S, E>(m: Machine<S, E>, ok: (S, E) -> bool, run: seq<E>, j: nat, k: nat)
    requires j <= k <= |run|
  {
    forall i :: j <= i < k ==> ok(After(m, run[..i]), run[i])
  }

  /** A property that such steps keep lasts from one point to the other. */
  lemma {:induction false} Lasting<S(!new), E(!new)>(m: Machine<S, E>, p: S -> bool, ok: (S, E) -> bool,
                                                     run: seq<E>, j: nat, k: nat)
    requires j <= k <= |run| && Between(m, ok, run, j, k)
    requires forall s, e :: p(s) && ok(s, e) ==> p(m.step(s, e))
    requires p(After(m, run[..j]))
    ensures p(After(m, run[..k]))
    decreases k
  {
    if j < k {
      Lasting(m, p, ok, run, j, k - 1);
      AfterSnoc(m, run, k - 1);
    }
  }

  /** What can be reached under a stricter guard can be reached. */
  lemma LooserReaches<S(!new), E(!new)>(strict: Machine<S, E>, loose: Machine<S, E>, s: S)
    requires strict.init == loose.init && strict.step == loose.step
    requires forall s, e :: strict.enabled(s, e) ==> loose.enabled(s, e)
    requires Reachable(strict, s)
    ensures Reachable(loose, s)
  {
    var run :| Legal(strict, run) && After(strict, run) == s;
    LooserRun(strict, loose, run);
  }

  lemma {:induction false} LooserRun<S(!new), E(!new)>(strict: Machine<S, E>, loose: Machine<S, E>, run: seq<E>)
    requires strict.init == loose.init && strict.step == loose.step
    requires forall s, e :: strict.enabled(s, e) ==> loose.enabled(s, e)
    requires Legal(strict, run)
    ensures Legal(loose, run) && After(loose, run) == After(strict, run)
  {
    if run != [] {
      LooserRun(strict, loose, run[..|run| - 1]);
    }
  }

  /** The property holds in every state of the run, from the first to the last. */
  ghost predicate Throughout<S, E>(m: Machine<S, E>, p: S -> bool, run: seq<E>) {
    forall k :: 0 <= k <= |run| ==> p(After(m, run[..k]))
  }

  ghost predicate Never<S, E>(m: Machine<S, E>, bad: (S, E) -> bool, run: seq<E>) {
    forall k :: 0 <= k < |run| ==> !bad(After(m, run[..k]), run[k])
  }

  lemma ThroughoutSnoc<S, E>(m: Machine<S, E>, p: S -> bool, run: seq<E>)
    requires run != []
    ensures Throughout(m, p, run) <==> Throughout(m, p, run[..|run| - 1]) && p(After(m, run))
  {
    var n := |run| - 1;
    assert run[..|run|] == run;
    assert forall k :: 0 <= k <= n ==> run[..n][..k] == run[..k];
  }

  lemma NeverSnoc<S, E>(m: Machine<S, E>, bad: (S, E) -> bool, run: seq<E>)
    requires run != []
    ensures var n := |run| - 1;
            Never(m, bad, run) <==> Never(m, bad, run[..n]) && !bad(After(m, run[..n]), run[n])
  {
    var n := |run| - 1;
    assert forall k :: 0 <= k < n ==> run[..n][..k] == run[..k] && run[..n][k] == run[k];
  }

  /** A property that a step breaks exactly if it is bad holds throughout exactly the runs without bad steps. */
  lemma {:induction false} ThroughoutExactly<S(!new), E(!new)>(m: Machine<S, E>, inv: S -> bool, p: S -> bool,
                                                               bad: (S, E) -> bool, run: seq<E>)
    requires Inductive(m, inv) && Legal(m, run) && p(m.init)
    requires forall s, e :: inv(s) && p(s) && m.enabled(s, e) ==> (p(m.step(s, e)) <==> !bad(s, e))
    ensures Throughout(m, p, run) <==> Never(m, bad, run)
  {
    if run != [] {
      var n := |run| - 1;
      ThroughoutExactly(m, inv, p, bad, run[..n]);
      ThroughoutSnoc(m, p, run);
      NeverSnoc(m, bad, run);
      Invariance(m, inv, run[..n]);
      if Throughout(m, p, run[..n]) {
        assert run[..n][..n] == run[..n];
      }
    }
  }
}
