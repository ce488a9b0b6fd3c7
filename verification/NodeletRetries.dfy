/** Retrying after a failed start: what a resumed attempt may touch and when a full restart must come. */
module NodeletRetries {
  import opened Phases
  import opened NodeletModel
  import opened NodeletRuns

  /** The node is meant to run and the reconciler is allowed to make it. */
  predicate BringingUp(e: Env) {
    e.Usable() && e.cfg.kubeServiceState == ServiceTrue && !e.cfg.disableScripts
  }

  /** The last attempt to start failed. */
  predicate Failing(s: State) {
    s.startFailStep >= 0
  }

  function StateAt(e: Env, s: State, its: seq<Answers>, i: nat): State
    requires e.Usable() && InRange(e, s) && i <= |its|
    requires forall a :: a in its ==> Fits(e, a)
  {
    Run(e, s, its[..i]).st
  }

  lemma StateAtPrefix(e: Env, s: State, its: seq<Answers>, m: nat, i: nat)
    requires e.Usable() && InRange(e, s) && i <= m <= |its|
    requires forall a :: a in its ==> Fits(e, a)
    ensures StateAt(e, s, its[..m], i) == StateAt(e, s, its, i)
  {
    assert its[..m][..i] == its[..i];
  }

  lemma RunSplitsLast(e: Env, s: State, its: seq<Answers>, i: nat)
    requires e.Usable() && InRange(e, s) && i < |its|
    requires forall a :: a in its ==> Fits(e, a)
    ensures var t := Reconcile(e, StateAt(e, s, its, i), its[i]);
            && StateAt(e, s, its, i + 1) == t.st
            && Run(e, s, its[..i + 1]).calls == Run(e, s, its[..i]).calls + t.calls
            && Run(e, s, its[..i + 1]).pubs == Run(e, s, its[..i]).pubs + t.pubs
  {
    assert its[..i + 1][..i] == its[..i];
  }

  // ---- Bounds on a resumed attempt ------------------------------------------------------

  lemma {:induction false} StopChainBounds(e: Env, s: State, a: Answers, lo: nat, force: bool, idx: int, failed: bool)
    requires Fits(e, a) && lo <= idx + 1 <= |e.phases|
    ensures forall c :: c in StopChain(e, s, a, lo, force, idx, failed).calls ==> c.StopCall? && lo <= c.phase <= idx
    decreases idx + 1
  {
    if lo <= idx && !SkipsCerts(e, s, idx) && (a.stop[idx] || force) {
      StopChainBounds(e, s, a, lo, force, idx - 1, !a.stop[idx]);
    }
  }

  lemma {:induction false} StartCallsBounds(ok: seq<bool>, i: nat)
    requires i <= |ok|
    ensures forall c :: c in StartCalls(ok, i) ==> c.StartCall? && i <= c.phase
    ensures i < |ok| ==> StartCall(i, ok[i]) in StartCalls(ok, i)
    decreases |ok| - i
  {
    if i < |ok| && ok[i] {
      StartCallsBounds(ok, i + 1);
    }
  }

  /** The calls of a restart stay at or above its index and start the phase at that index. */
  lemma RestartBounds(e: Env, s: State, a: Answers)
    requires e.Usable() && Fits(e, a) && 0 <= s.failedStatusCheck < |e.phases|
    ensures forall c :: c in Restart(e, s, a).calls ==> !c.StatusCall? && RestartIndex(e, s) <= c.phase
    ensures StartCall(RestartIndex(e, s), a.start[RestartIndex(e, s)]) in Restart(e, s, a).calls
  {
    hide Persist, Written, FullRetry, Start, Stop;
    var from := RestartIndex(e, s);
    StopChainBounds(e, s.(startAttempts := s.startAttempts + 1), a, from, false, |e.phases| - 1, false);
    StartCallsBounds(a.start, from);
  }

  /** How an iteration that restarts the chain relates to its restart. */
  lemma UnsettledRestarts(e: Env, s: State, a: Answers)
    requires BringingUp(e) && Fits(e, a) && InRange(e, s) && !Settled(e, StatusPass(e, s, a).st)
    ensures var t := StatusPass(e, s, a).st.(operation := StartOp);
            && Reconcile(e, s, a).calls == StatusPass(e, s, a).calls + Restart(e, t, a).calls
            && Reconcile(e, s, a).st == Persist(e, Restart(e, t, a).st)
    ensures forall c :: c in StatusPass(e, s, a).calls ==> c.StatusCall?
  {
    hide Persist, Written, Restart;
  }

  /** A node that failed to start is restarted from where it failed, without running any status check. */
  lemma FailingRestarts(e: Env, s: State, a: Answers)
    requires BringingUp(e) && Fits(e, a) && InRange(e, s) && Failing(s)
    ensures var t := StatusPass(e, s, a).st.(operation := StartOp);
            && t.failedStatusCheck == s.startFailStep
            && t.startAttempts == s.startAttempts
            && Reconcile(e, s, a).calls == Restart(e, t, a).calls
            && Reconcile(e, s, a).st == Persist(e, Restart(e, t, a).st)
  {
  }

  /** A restart that fails does so at or above its index; unless it goes to the bottom, it counts as one attempt. */
  lemma RestartCounts(e: Env, s: State, a: Answers)
    requires e.Usable() && Fits(e, a) && 0 <= s.failedStatusCheck < |e.phases|
    ensures var r := Restart(e, s, a).st;
            && (Failing(r) ==> RestartIndex(e, s) <= r.startFailStep)
            && (Failing(r) && 0 < RestartIndex(e, s) ==> r.startAttempts == s.startAttempts + 1)
  {
    hide Persist, Written, FullRetry, Start, StopChain;
  }

  /** Between full restarts nothing below the failed phase is touched, and the fail step only grows. */
  lemma ResumeStaysAbove(e: Env, s: State, a: Answers)
    requires BringingUp(e) && Fits(e, a) && InRange(e, s) && Failing(s) && !FullRetry(e, s)
    ensures var r := Reconcile(e, s, a);
            && (forall c :: c in r.calls ==> !c.StatusCall? && s.startFailStep <= c.phase)
            && (Failing(r.st) ==> s.startFailStep <= r.st.startFailStep)
            && (Failing(r.st) && 0 < s.startFailStep ==> r.st.startAttempts == s.startAttempts + 1)
  {
    hide Persist, Written, Reconcile, Restart, FullRetryDue;
    var t := StatusPass(e, s, a).st.(operation := StartOp);
    FailingRestarts(e, s, a);
    RestartBounds(e, t, a);
    RestartCounts(e, t, a);
  }

  lemma {:induction false} StreakStaysAbove(e: Env, s: State, its: seq<Answers>)
    requires BringingUp(e) && InRange(e, s) && Failing(s)
    requires forall a :: a in its ==> Fits(e, a)
    requires forall i :: 0 <= i < |its| ==> Failing(StateAt(e, s, its, i)) && !FullRetry(e, StateAt(e, s, its, i))
    ensures forall c :: c in Run(e, s, its).calls ==> !c.StatusCall? && s.startFailStep <= c.phase
    ensures Failing(Run(e, s, its).st) ==> s.startFailStep <= Run(e, s, its).st.startFailStep
  {
    if its != [] {
      var m := |its| - 1;
      forall i | 0 <= i < m
        ensures Failing(StateAt(e, s, its[..m], i)) && !FullRetry(e, StateAt(e, s, its[..m], i))
      {
        StateAtPrefix(e, s, its, m, i);
      }
      StreakStaysAbove(e, s, its[..m]);
      assert Failing(StateAt(e, s, its, m));
      ResumeStaysAbove(e, StateAt(e, s, its, m), its[m]);
    }
  }

  // ---- Certificates kept on request -----------------------------------------------------

  /** No Stop from this state on calls the Stop of a certificate phase. */
  ghost predicate KeepsCerts(e: Env, s: State) {
    forall a, lo: nat, force, c :: Fits(e, a) && lo < |e.phases| && c in Stop(e, s, a, lo, force).step.calls ==>
      c.phase < |e.phases| && e.phases[c.phase].order != GEN_CERTS_ORDER
  }

  lemma SkippingKeepsCerts(e: Env, s: State)
    requires s.operation == StartOp && s.failedStatusCheck == -1
    ensures KeepsCerts(e, s)
  {
    forall a, lo: nat, force, c | Fits(e, a) && lo < |e.phases| && c in Stop(e, s, a, lo, force).step.calls
      ensures c.phase < |e.phases| && e.phases[c.phase].order != GEN_CERTS_ORDER
    {
      StopChainSkipsCerts(e, s, a, lo, force, |e.phases| - 1, false, c);
    }
  }

  lemma {:induction false} StopChainSkipsCerts(e: Env, s: State, a: Answers, lo: nat, force: bool, idx: int,
                                               failed: bool, c: Call)
    requires s.operation == StartOp && s.failedStatusCheck == -1
    requires Fits(e, a) && lo <= idx + 1 <= |e.phases| && c in StopChain(e, s, a, lo, force, idx, failed).calls
    ensures c.phase < |e.phases| && e.phases[c.phase].order != GEN_CERTS_ORDER
    decreases idx + 1
  {
    if c.phase != idx {
      StopChainSkipsCerts(e, s, a, lo, force, idx - 1, !a.stop[idx], c);
    }
  }

  // ---- The full restart -----------------------------------------------------------------

  ghost predicate StartedFromBottom(calls: seq<Call>) {
    StartCall(0, true) in calls || StartCall(0, false) in calls
  }

  lemma BottomConcat(x: seq<Call>, y: seq<Call>)
    ensures StartedFromBottom(x + y) <==> StartedFromBottom(x) || StartedFromBottom(y)
  {
  }

  lemma StateInRange(e: Env, s: State, its: seq<Answers>, i: nat)
    requires e.Usable() && InRange(e, s) && i <= |its|
    requires forall a :: a in its ==> Fits(e, a)
    ensures InRange(e, StateAt(e, s, its, i))
  {
  }

  /** Until a start from the bottom comes, the attempt counter counts the iterations. */
  lemma {:induction false} AttemptsCount(e: Env, s: State, its: seq<Answers>, i: nat)
    requires BringingUp(e) && InRange(e, s) && i < |its|
    requires forall a :: a in its ==> Fits(e, a)
    requires forall k :: 0 <= k <= i ==> Failing(StateAt(e, s, its, k))
    ensures StartedFromBottom(Run(e, s, its[..i]).calls) || StateAt(e, s, its, i).startAttempts == s.startAttempts + i
  {
    hide Reconcile, StartedFromBottom, FullRetryDue;
    if i == 0 {
      assert its[..0] == [];
    } else {
      hide Run, StateAt;
      var t := StateAt(e, s, its, i - 1);
      AttemptsCount(e, s, its, i - 1);
      assert Failing(t) && Failing(StateAt(e, s, its, i));
      StateInRange(e, s, its, i - 1);
      BottomOrCounted(e, t, its[i - 1]);
      RunSplitsLast(e, s, its, i - 1);
      BottomConcat(Run(e, s, its[..i - 1]).calls, Reconcile(e, t, its[i - 1]).calls);
    }
  }

  lemma BottomOrCounted(e: Env, s: State, a: Answers)
    requires BringingUp(e) && Fits(e, a) && InRange(e, s) && Failing(s)
    ensures FullRetry(e, s) || s.startFailStep == 0 ==> StartedFromBottom(Reconcile(e, s, a).calls)
    ensures StartedFromBottom(Reconcile(e, s, a).calls)
            || (Failing(Reconcile(e, s, a).st) ==> Reconcile(e, s, a).st.startAttempts == s.startAttempts + 1)
  {
    hide Reconcile, Restart, Persist, Written, FullRetryDue;
    if FullRetry(e, s) || s.startFailStep == 0 {
      FailingRestarts(e, s, a);
      RestartBounds(e, StatusPass(e, s, a).st.(operation := StartOp), a);
    } else {
      ResumeStaysAbove(e, s, a);
    }
  }

  lemma OnlyZeroFits(d: int, n: int, r: int)
    requires d * n == r && 0 <= r < n
    ensures d == 0
  {
  }

  lemma MultipleLeavesNothing(k: int, n: int)
    requires 0 < n
    ensures (k * n) % n == 0
  {
    var x := k * n;
    assert (k - x / n) * n == k * n - x / n * n == x % n;
    OnlyZeroFits(k - x / n, n, x % n);
  }

  /** Among any `n` consecutive counts one is divisible by `n`. */
  lemma NextMultiple(c: int, n: int) returns (i: nat)
    requires 0 < n
    ensures i < n && (c + i + 1) % n == 0
  {
    i := n - 1 - c % n;
    assert c + i + 1 == c / n * n + n == (c / n + 1) * n;
    MultipleLeavesNothing(c / n + 1, n);
  }

  lemma BottomReachedAt(e: Env, s: State, its: seq<Answers>, i: nat)
    requires BringingUp(e) && InRange(e, s) && i < |its|
    requires forall a :: a in its ==> Fits(e, a)
    requires forall k :: 0 <= k <= i ==> Failing(StateAt(e, s, its, k))
    requires FullRetryDue(e, s.startAttempts + i + 1)
    ensures StartedFromBottom(Run(e, s, its[..i + 1]).calls)
  {
    hide Reconcile, FullRetryDue, Run, StateAt, StartedFromBottom;
    var t := StateAt(e, s, its, i);
    AttemptsCount(e, s, its, i);
    assert Failing(t);
    StateInRange(e, s, its, i);
    BottomOrCounted(e, t, its[i]);
    RunSplitsLast(e, s, its, i);
    BottomConcat(Run(e, s, its[..i]).calls, Reconcile(e, t, its[i]).calls);
  }

  /** Any `fullRetryCount` iterations in a row that each follow a failure include a start from phase 0. */
  lemma FullRestartComes(e: Env, s: State, its: seq<Answers>)
    requires BringingUp(e) && InRange(e, s) && 0 < e.cfg.fullRetryCount == |its|
    requires forall a :: a in its ==> Fits(e, a)
    requires forall i :: 0 <= i < |its| ==> Failing(StateAt(e, s, its, i))
    ensures StartedFromBottom(Run(e, s, its).calls)
  {
    hide Reconcile, Run;
    var i := NextMultiple(s.startAttempts, e.cfg.fullRetryCount);
    BottomReachedAt(e, s, its, i);
    RunCallsGrow(e, s, its, i + 1);
  }

  lemma {:induction false} RunCallsGrow(e: Env, s: State, its: seq<Answers>, i: nat)
    requires e.Usable() && InRange(e, s) && i <= |its|
    requires forall a :: a in its ==> Fits(e, a)
    ensures Run(e, s, its[..i]).calls <= Run(e, s, its).calls
    decreases |its| - i
  {
    if i == |its| {
      assert its[..i] == its;
    } else {
      RunSplitsLast(e, s, its, i);
      RunCallsGrow(e, s, its, i + 1);
    }
  }
}
