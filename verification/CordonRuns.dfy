/** What the reconciler's restarts do to the node's schedulability. */
module CordonRuns {
  import opened Phases
  import opened NodeletModel
  import opened NodeletRuns
  import opened NodeletRetries
  import opened NodeletOutcomes
  import C = Cordon

  const STATUS := C.Status(true, true)
  const DRAIN := C.DrainStop(true, true, true, true)
  const UNCORDON := C.UncordonStart(true, true, true)
  const UNMARK := C.DrainStart(true)

  /** The effect of one successful phase operation on the node. */
  function Effect(phases: seq<Phase>, n: C.NodeObject, c: Call): C.NodeObject {
    if c.phase >= |phases| || !c.ok then n
    else
      var order := phases[c.phase].order;
      match c
      case StatusCall(_, _) => if order == UNCORDON_ORDER then C.After(n, STATUS) else n
      case StopCall(_, _) => if order == DRAIN_ORDER then C.After(n, DRAIN) else n
      case StartCall(_, _) =>
        if order == UNCORDON_ORDER then C.After(n, UNCORDON)
        else if order == DRAIN_ORDER then C.After(n, UNMARK)
        else n
  }

  function NodeAfter(phases: seq<Phase>, n: C.NodeObject, calls: seq<Call>): C.NodeObject
    decreases |calls|
  {
    if calls == [] then n else NodeAfter(phases, Effect(phases, n, calls[0]), calls[1..])
  }

  lemma {:induction false} NodeAfterConcat(phases: seq<Phase>, n: C.NodeObject, x: seq<Call>, y: seq<Call>)
    ensures NodeAfter(phases, n, x + y) == NodeAfter(phases, NodeAfter(phases, n, x), y)
    decreases |x|
  {
    if x == [] {
      assert x + y == y;
    } else {
      assert (x + y)[1..] == x[1..] + y;
      NodeAfterConcat(phases, Effect(phases, n, x[0]), x[1..], y);
    }
  }

  /** Below the drain phase, going down leaves the node alone. */
  lemma {:induction false} LowerStopsHarmless(e: Env, s: State, a: Answers, lo: nat, idx: int, failed: bool, u: nat,
                                              n: C.NodeObject)
    requires Fits(e, a) && lo <= idx + 1 < |e.phases| && UncordonAt(e.phases, u)
    ensures NodeAfter(e.phases, n, StopChain(e, s, a, lo, false, idx, failed).calls) == n
    decreases idx + 1
  {
    if lo <= idx && !SkipsCerts(e, s, idx) && a.stop[idx] {
      LowerStopsHarmless(e, s, a, lo, idx - 1, false, u, n);
      var rest := StopChain(e, s, a, lo, false, idx - 1, false).calls;
      assert ([StopCall(idx, true)] + rest)[1..] == rest;
    }
  }

  /** Going down drains and cordons the node first of all. */
  lemma StopsDrain(e: Env, s: State, a: Answers, lo: nat, u: nat, n: C.NodeObject)
    requires Fits(e, a) && lo < |e.phases| && UncordonAt(e.phases, u) && AllTrue(a.stop)
    ensures NodeAfter(e.phases, n, StopChain(e, s, a, lo, false, |e.phases| - 1, false).calls) == C.After(n, DRAIN)
  {
    var top := |e.phases| - 1;
    LowerStopsHarmless(e, s, a, lo, top - 1, false, u, C.After(n, DRAIN));
    var rest := StopChain(e, s, a, lo, false, top - 1, false).calls;
    assert ([StopCall(top, true)] + rest)[1..] == rest;
  }

  /** Coming up uncordons the node only if the uncordon phase is on the way. */
  lemma {:induction false} StartsUncordon(phases: seq<Phase>, ok: seq<bool>, i: nat, u: nat, n: C.NodeObject)
    requires |ok| == |phases| && i < |phases| && UncordonAt(phases, u) && AllTrue(ok)
    ensures NodeAfter(phases, n, StartCalls(ok, i)) == C.After(if i <= u then C.After(n, UNCORDON) else n, UNMARK)
    decreases |phases| - i
  {
    var rest := StartCalls(ok, i + 1);
    assert ([StartCall(i, true)] + rest)[1..] == rest;
    if i + 1 < |phases| {
      StartsUncordon(phases, ok, i + 1, u, Effect(phases, n, StartCall(i, true)));
    }
  }

  /** A working restart of a node not cordoned by the user ends schedulable exactly if it has the uncordon phase. */
  lemma RestartEndsSchedulableExactly(e: Env, s: State, a: Answers, u: nat, n: C.NodeObject)
    requires e.Usable() && Fits(e, a) && 0 <= s.failedStatusCheck < |e.phases| && UncordonAt(e.phases, u)
    requires AllTrue(a.stop) && AllTrue(a.start) && !n.Marked(C.USER_CORDON)
    ensures var m := NodeAfter(e.phases, n, Restart(e, s, a).calls);
            && (m.unschedulable <==> RestartIndex(e, s) > u)
            && (m.unschedulable ==> m.Marked(C.SHUTDOWN))
            && !m.booting
  {
    hide Persist, Written, FullRetry, Start, Stop, StopChain;
    var from := RestartIndex(e, s);
    var s1 := s.(startAttempts := s.startAttempts + 1);
    var down := RestartDown(e, s, a).calls;
    NodeAfterConcat(e.phases, n, down, StartCalls(a.start, from));
    StopsDrain(e, s1, a, from, u, n);
    StartsUncordon(e.phases, a.start, from, u, C.After(n, DRAIN));
    assert C.USER_CORDON != C.SHUTDOWN;
  }

  /** The status pass leaves a node alone that is marked as shut down. */
  lemma {:induction false} ChecksKeepShutdown(phases: seq<Phase>, n: C.NodeObject, calls: seq<Call>)
    requires n.Marked(C.SHUTDOWN) && forall c :: c in calls ==> c.StatusCall?
    ensures NodeAfter(phases, n, calls) == n
    decreases |calls|
  {
    if calls != [] {
      ChecksKeepShutdown(phases, Effect(phases, n, calls[0]), calls[1..]);
    }
  }

  /** The status pass of a node that is not the user's keeps it so. */
  lemma {:induction false} ChecksAddNoUserCordon(phases: seq<Phase>, n: C.NodeObject, calls: seq<Call>)
    requires C.OwnCordonOnly(n) && forall c :: c in calls ==> c.StatusCall?
    ensures C.OwnCordonOnly(NodeAfter(phases, n, calls))
    decreases |calls|
  {
    if calls != [] {
      C.TrackKeptExactly(n, STATUS);
      ChecksAddNoUserCordon(phases, Effect(phases, n, calls[0]), calls[1..]);
    }
  }

  /**
   A restart in which everything works, on a node the user has not cordoned, ends with the node schedulable
   exactly if it went down at least to the uncordon phase.
   */
  lemma EndsSchedulableExactly(e: Env, s: State, a: Answers, u: nat, n: C.NodeObject)
    requires BringingUp(e) && Fits(e, a) && InRange(e, s) && UncordonAt(e.phases, u)
    requires AllTrue(a.stop) && AllTrue(a.start) && C.OwnCordonOnly(n)
    requires !Settled(e, StatusPass(e, s, a).st)
    ensures var m := NodeAfter(e.phases, n, Reconcile(e, s, a).calls);
            && (m.unschedulable <==> RestartIndex(e, StatusPass(e, s, a).st) > u)
            && (m.unschedulable ==> m.Marked(C.SHUTDOWN))
            && !m.booting
  {
    hide Reconcile, StatusPass, Restart, FullRetryDue, NodeAfter;
    var status := StatusPass(e, s, a);
    var t := status.st.(operation := StartOp);
    UnsettledRestarts(e, s, a);
    ChecksAddNoUserCordon(e.phases, n, status.calls);
    NodeAfterConcat(e.phases, n, status.calls, Restart(e, t, a).calls);
    RestartEndsSchedulableExactly(e, t, a, u, NodeAfter(e.phases, n, status.calls));
  }

  /**
   Resuming above the uncordon phase strands the node: the service is reported as up while the node stays
   cordoned, and no later healthy iteration changes that.
   */
  lemma ResumeAboveUncordonStrands(e: Env, s: State, a: Answers, rest: seq<Answers>, u: nat, n: C.NodeObject)
    requires BringingUp(e) && Boundary(e, s) && UncordonAt(e.phases, u)
    requires Fits(e, a) && AllTrue(a.stop) && AllTrue(a.start) && C.OwnCordonOnly(n)
    requires !Settled(e, StatusPass(e, s, a).st) && RestartIndex(e, StatusPass(e, s, a).st) > u
    requires forall b :: b in rest ==> Fits(e, b) && Healthy(b)
    ensures var r := Reconcile(e, s, a);
            var m := NodeAfter(e.phases, n, r.calls);
            && Boundary(e, r.st) && r.st.serviceState == ServiceTrue
            && m.unschedulable
            && NodeAfter(e.phases, m, Run(e, r.st, rest).calls) == m
  {
    hide Reconcile, StatusPass, Restart, FullRetryDue, Run, NodeAfter;
    var r := Reconcile(e, s, a);
    ReconcileBoundary(e, s, a);
    UnsettledRestarts(e, s, a);
    RestartOutcome(e, StatusPass(e, s, a).st.(operation := StartOp), a);
    EndsSchedulableExactly(e, s, a, u, n);
    SettledStaysQuiet(e, r.st, rest);
    ChecksKeepShutdown(e.phases, NodeAfter(e.phases, n, r.calls), Run(e, r.st, rest).calls);
  }

  // ---- A master that is stranded --------------------------------------------------------

  /** A full stop forgets the attempts, however far down it gets. */
  lemma FailureForgetsAttempts(e: Env, s: State, a: Answers)
    requires BringingUp(e) && Fits(e, a) && InRange(e, s) && !Failing(s) && s.serviceState == ServiceFalse
    requires !AllTrue(a.status) && !AllTrue(a.start) && GenCertsFirst(e.phases) && 1 < |e.phases|
    requires !a.stop[|e.phases| - 1]
    ensures Reconcile(e, s, a).st.startAttempts == 0
  {
    hide Reconcile, Persist, Written, FullRetryDue, StartChain;
    var t := StatusPass(e, s, a).st.(operation := StartOp);
    assert t.failedStatusCheck == 0 && !t.kubeRunning;
    UnsettledRestarts(e, s, a);
    FailsFromBoot(e, s, a);
    assert StopChain(e, t.(startAttempts := t.startAttempts + 1), a, 0, false, |e.phases| - 1, false)
           == StopChainResult([StopCall(|e.phases| - 1, false)], false, true);
  }

  /** The node takes work and nobody has marked it. */
  predicate Open(n: C.NodeObject) {
    !n.unschedulable && !n.Marked(C.USER_CORDON)
  }

  lemma {:induction false} OnlyDrainingCloses(phases: seq<Phase>, n: C.NodeObject, calls: seq<Call>)
    requires Open(n) && forall c :: c in calls && c.StopCall? ==> !c.ok
    ensures Open(NodeAfter(phases, n, calls))
    decreases |calls|
  {
    if calls != [] {
      assert calls[0] in calls && C.USER_CORDON != C.SHUTDOWN;
      OnlyDrainingCloses(phases, Effect(phases, n, calls[0]), calls[1..]);
    }
  }

  /** When the very first Stop fails, no other phase is stopped. */
  lemma FirstStopsFail(e: Env, s: State, a: Answers)
    requires BringingUp(e) && Fits(e, a) && InRange(e, s) && !Settled(e, StatusPass(e, s, a).st)
    requires GenCertsFirst(e.phases) && 1 < |e.phases| && !a.stop[|e.phases| - 1]
    ensures forall c :: c in Reconcile(e, s, a).calls && c.StopCall? ==> !c.ok
  {
    hide Reconcile, Persist, Written, FullRetryDue, Start, Stop, StatusPass;
    UnsettledRestarts(e, s, a);
    StartCallsBounds(a.start, RestartIndex(e, StatusPass(e, s, a).st.(operation := StartOp)));
  }

  /**
   A fresh process on a master: the drain fails because nothing runs yet, a phase above the uncordon phase fails
   to start, and on the next try everything works. The service is then reported as up, the node is cordoned, and
   both stay so while everything keeps working.
   */
  lemma MasterIsStranded(e: Env, file: Loaded, first: Answers, retry: Answers, rest: seq<Answers>, n: C.NodeObject)
    requires BringingUp(e) && e.phases == MasterPhases() && !FullRetryDue(e, 1) && Open(n)
    requires Fits(e, first) && !AllTrue(first.status) && !first.stop[20] && 16 < FirstFailure(first.start, 0) < 21
    requires Fits(e, retry) && AllTrue(retry.stop) && AllTrue(retry.start)
    requires forall b :: b in rest ==> Fits(e, b) && Healthy(b)
    ensures InRange(e, Boot(e, file))
    ensures var r := Run(e, Boot(e, file), [first, retry]);
            var m := NodeAfter(e.phases, n, r.calls);
            && r.st.serviceState == ServiceTrue && m.unschedulable
            && NodeAfter(e.phases, m, Run(e, r.st, rest).calls) == m
  {
    hide Reconcile, Restart, FullRetryDue, NodeAfter, MasterPhases, Boot, StatusPass;
    MasterPhasesShape();
    BootBoundary(e, file);
    BootRecalls(e, file);
    var boot := Boot(e, file);
    var one := Reconcile(e, boot, first);
    var two := Reconcile(e, one.st, retry);
    TwoIterations(e, boot, first, retry);
    AfterFailure(e, boot, first, n);
    ReconcileBoundary(e, boot, first);
    ResumesThere(e, one.st, retry);
    NodeAfterConcat(e.phases, n, one.calls, two.calls);
    ResumeAboveUncordonStrands(e, one.st, retry, rest, 16, NodeAfter(e.phases, n, one.calls));
  }

  lemma TwoIterations(e: Env, s: State, a: Answers, b: Answers)
    requires e.Usable() && InRange(e, s) && Fits(e, a) && Fits(e, b)
    ensures var one := Reconcile(e, s, a);
            var two := Reconcile(e, one.st, b);
            Run(e, s, [a, b]).st == two.st && Run(e, s, [a, b]).calls == one.calls + two.calls
  {
    hide Reconcile;
    assert [a, b][..1] == [a] && [a][..0] == [];
    assert Run(e, s, [a]).calls == [] + Reconcile(e, s, a).calls == Reconcile(e, s, a).calls;
  }

  lemma AfterFailure(e: Env, s: State, a: Answers, n: C.NodeObject)
    requires BringingUp(e) && Fits(e, a) && InRange(e, s) && !Failing(s) && s.serviceState == ServiceFalse
    requires !AllTrue(a.status) && FirstFailure(a.start, 0) < |e.phases|
    requires GenCertsFirst(e.phases) && 1 < |e.phases| && !a.stop[|e.phases| - 1] && Open(n)
    ensures var r := Reconcile(e, s, a);
            && r.st.startFailStep == FirstFailure(a.start, 0) && r.st.startAttempts == 0
            && Open(NodeAfter(e.phases, n, r.calls))
  {
    hide Reconcile, NodeAfter, Persist, Written;
    assert !a.start[FirstFailure(a.start, 0)];
    assert !StatusPass(e, s, a).st.kubeRunning;
    FailsFromBoot(e, s, a);
    FailureForgetsAttempts(e, s, a);
    FirstStopsFail(e, s, a);
    OnlyDrainingCloses(e.phases, n, Reconcile(e, s, a).calls);
  }

  lemma ResumesThere(e: Env, s: State, a: Answers)
    requires BringingUp(e) && Fits(e, a) && InRange(e, s) && Failing(s)
    requires s.startAttempts == 0 && !FullRetryDue(e, 1)
    ensures !Settled(e, StatusPass(e, s, a).st)
    ensures RestartIndex(e, StatusPass(e, s, a).st) == s.startFailStep
  {
    hide FullRetryDue, Persist, Written;
  }

  /** So it happens on a master whose coredns phase fails to start once. */
  lemma MasterCanBeStranded()
    ensures exists e: Env, file: Loaded, its: seq<Answers>, n: C.NodeObject ::
              && e.Usable() && e.phases == MasterPhases() && Open(n)
              && InRange(e, Boot(e, file)) && (forall a :: a in its ==> Fits(e, a))
              && Run(e, Boot(e, file), its).st.serviceState == ServiceTrue
              && NodeAfter(e.phases, n, Run(e, Boot(e, file), its).calls).unschedulable
  {
    hide Run, NodeAfter, MasterPhases, Boot;
    MasterPhasesShape();
    var e := Env(MasterPhases(), Config(ServiceTrue, "master", "c1", 10, 0, false, false));
    var file := Loaded(Converging, 1, "", "", "", "");
    var works, fails := seq(21, i => true), seq(21, i => false);
    var first := Answers(fails, fails, seq(21, i => i != 19), 0);
    var retry := Answers(fails, works, works, 1);
    var n := C.NodeObject(false, map[], true);
    assert !first.status[0] && !first.start[19];
    assert FirstFailure(first.start, 0) == 19;
    assert forall a :: a in [first, retry] ==> Fits(e, a);
    MasterIsStranded(e, file, first, retry, [], n);
  }
}
