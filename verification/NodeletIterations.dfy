/** One iteration of the reconciler, call by call, told from its state and the answers alone. */
module NodeletIterations {
  import opened Phases
  import opened NodeletModel
  import opened NodeletRuns
  import opened NodeletRetries
  import opened NodeletOutcomes

  // ---- Which calls, in which order ------------------------------------------------------

  /** No call but the last may fail, and fewer than `n` calls end with one that does. */
  ghost predicate EndsWithFailure(calls: seq<Call>, n: int) {
    && (forall i :: 0 <= i < |calls| - 1 ==> calls[i].ok)
    && (|calls| < n ==> calls != [] && !calls[|calls| - 1].ok)
  }

  /** Checks from the bottom up, ending with the first that fails. */
  ghost predicate ChecksAre(calls: seq<Call>, ok: seq<bool>) {
    && |calls| <= |ok|
    && (forall i :: 0 <= i < |calls| ==> calls[i] == StatusCall(i, ok[i]))
    && EndsWithFailure(calls, |ok|)
  }

  /** Stops from phase `top` down to `lo`, ending early with the first that fails. */
  ghost predicate StopsAre(calls: seq<Call>, ok: seq<bool>, lo: nat, top: int) {
    && top < |ok| && |calls| <= top + 1 - lo
    && (forall i :: 0 <= i < |calls| ==> calls[i] == StopCall(top - i, ok[top - i]))
    && EndsWithFailure(calls, top + 1 - lo)
  }

  /** Starts from phase `lo` up, ending with the first that fails. */
  ghost predicate StartsAre(calls: seq<Call>, ok: seq<bool>, lo: nat) {
    && |calls| <= |ok| - lo
    && (forall i :: 0 <= i < |calls| ==> calls[i] == StartCall(lo + i, ok[lo + i]))
    && EndsWithFailure(calls, |ok| - lo)
  }

  /** The status pass takes the stack as running: no failed start, and the checks pass or fail within the grace. */
  ghost predicate Running(e: Env, s: State, a: Answers) {
    && s.startFailStep == -1
    && (|| e.cfg.disableScripts || AllTrue(a.status)
        || (s.serviceState == ServiceTrue && a.clock - s.lastSuccessfulStatus < e.cfg.thresholdSeconds * NANOSECONDS))
  }

  ghost predicate StopsRunning(e: Env, s: State, a: Answers) {
    e.cfg.kubeServiceState == ServiceFalse && !e.cfg.disableScripts && Running(e, s, a)
  }

  ghost predicate Restarts(e: Env, s: State, a: Answers) {
    && e.cfg.kubeServiceState == ServiceTrue && !e.cfg.disableScripts
    && !(Running(e, s, a) && (HasIdentity(e, s) || RecordedWithoutRole(s)))
  }

  /** What a restart goes by: the phase that failed to start or, for a service reported up, its failing check. */
  function RestartsFor(e: Env, s: State, a: Answers): (k: nat)
    requires e.Usable() && Fits(e, a) && InRange(e, s)
    ensures k < |e.phases|
  {
    if s.startFailStep >= 0 then s.startFailStep
    else if s.serviceState == ServiceTrue && FirstFailure(a.status, 0) < |e.phases|
            && a.clock - s.lastSuccessfulStatus >= e.cfg.thresholdSeconds * NANOSECONDS then FirstFailure(a.status, 0)
    else 0
  }

  /** Where a restart starts again: at the bottom each time the full-retry count is reached. */
  function RestartsAt(e: Env, s: State, a: Answers): (k: nat)
    requires e.Usable() && Fits(e, a) && InRange(e, s)
    ensures k < |e.phases|
  {
    if (s.startAttempts + 1) % e.cfg.fullRetryCount == 0 then 0 else RestartsFor(e, s, a)
  }

  /** The lists of all roles: certificates first, or none at all. */
  ghost predicate CertsFirstOrNone(phases: seq<Phase>) {
    GenCertsFirst(phases) || forall i :: 0 <= i < |phases| ==> phases[i].order != GEN_CERTS_ORDER
  }

  /** How far down a restart stops: past the certificates only if they are what was at fault. */
  function RestartStopsAt(e: Env, s: State, a: Answers): nat
    requires e.Usable() && Fits(e, a) && InRange(e, s)
  {
    if RestartsAt(e, s, a) == 0 && RestartsFor(e, s, a) > 0 && e.phases[0].order == GEN_CERTS_ORDER then 1
    else RestartsAt(e, s, a)
  }

  lemma StatusCallsAre(ok: seq<bool>)
    ensures ChecksAre(StatusCalls(ok), ok)
  {
  }

  lemma {:induction false} StartCallsAre(ok: seq<bool>, lo: nat)
    requires lo <= |ok|
    ensures StartsAre(StartCalls(ok, lo), ok, lo)
    decreases |ok| - lo
  {
    if lo < |ok| && ok[lo] {
      StartCallsAre(ok, lo + 1);
      StartsFirst(StartCalls(ok, lo + 1), ok, lo);
    }
  }

  lemma StartsFirst(calls: seq<Call>, ok: seq<bool>, lo: nat)
    requires lo < |ok| && ok[lo] && StartsAre(calls, ok, lo + 1)
    ensures StartsAre([StartCall(lo, true)] + calls, ok, lo)
  {
    var all := [StartCall(lo, true)] + calls;
    forall i | 0 <= i < |all| ensures all[i] == StartCall(lo + i, ok[lo + i]) {
      assert i > 0 ==> all[i] == calls[i - 1];
    }
  }

  lemma StopsFirst(calls: seq<Call>, ok: seq<bool>, lo: nat, top: int)
    requires lo <= top < |ok| && ok[top] && StopsAre(calls, ok, lo, top - 1)
    ensures StopsAre([StopCall(top, true)] + calls, ok, lo, top)
  {
    var all := [StopCall(top, true)] + calls;
    forall i | 0 <= i < |all| ensures all[i] == StopCall(top - i, ok[top - i]) {
      assert i > 0 ==> all[i] == calls[i - 1];
    }
  }

  /** The chain of stops, which ends above a certificate phase that is kept. */
  lemma {:induction false} StopChainIs(e: Env, s: State, a: Answers, lo: nat, idx: int, failed: bool)
    requires Fits(e, a) && lo <= idx + 1 <= |e.phases| && CertsFirstOrNone(e.phases) && 0 < |e.phases|
    ensures var bottom := if lo == 0 && SkipsCerts(e, s, 0) then 1 else lo;
            idx >= bottom - 1 ==> StopsAre(StopChain(e, s, a, lo, false, idx, failed).calls, a.stop, bottom, idx)
    decreases idx + 1
  {
    if lo <= idx && !SkipsCerts(e, s, idx) && a.stop[idx] {
      StopChainIs(e, s, a, lo, idx - 1, false);
      StopsFirst(StopChain(e, s, a, lo, false, idx - 1, false).calls, a.stop,
                 if lo == 0 && SkipsCerts(e, s, 0) then 1 else lo, idx);
    }
  }

  /** What the status pass hands on, and what it calls. */
  lemma StatusPassFinds(e: Env, s: State, a: Answers)
    requires e.Usable() && Fits(e, a) && InRange(e, s)
    ensures var r := StatusPass(e, s, a);
            && r.st.kubeRunning == Running(e, s, a)
            && (!e.cfg.disableScripts ==> r.st.failedStatusCheck == RestartsFor(e, s, a))
            && (if s.startFailStep == -1 && !e.cfg.disableScripts then ChecksAre(r.calls, a.status) else r.calls == [])
  {
    hide Persist, Written;
    StatusCallsAre(a.status);
    assert AllTrue(a.status) <==> FirstFailure(a.status, 0) == |a.status|;
  }

  lemma RestartCallsAre(e: Env, s: State, a: Answers) returns (stops: seq<Call>, starts: seq<Call>)
    requires e.Usable() && Fits(e, a) && 0 <= s.failedStatusCheck < |e.phases| && CertsFirstOrNone(e.phases)
    requires s.operation == StartOp
    ensures Restart(e, s, a).calls == stops + starts
    ensures var at := if (s.startAttempts + 1) % e.cfg.fullRetryCount == 0 then 0 else s.failedStatusCheck;
            var bottom := if at == 0 && s.failedStatusCheck > 0 && e.phases[0].order == GEN_CERTS_ORDER then 1 else at;
            StopsAre(stops, a.stop, bottom, |e.phases| - 1) && StartsAre(starts, a.start, at)
  {
    hide Persist, Written, Start, Stop, StopChain, StartCalls;
    var at := RestartIndex(e, s);
    var t := s.(startAttempts := s.startAttempts + 1);
    stops, starts := StopChain(e, t, a, at, false, |e.phases| - 1, false).calls, StartCalls(a.start, at);
    StopChainIs(e, t, a, at, |e.phases| - 1, false);
    StartCallsAre(a.start, at);
  }

  /**
   Every call of an iteration, for every state and all answers. Checks run unless a start failed before. A node
   that is to run and does not, or runs as another, is taken down from the top and brought up from where the
   fault is; a node that is not to run and does is taken down whole; nothing else is touched.
   */
  lemma CallsExactly(e: Env, s: State, a: Answers) returns (checks: seq<Call>, stops: seq<Call>, starts: seq<Call>)
    requires e.Usable() && Fits(e, a) && InRange(e, s) && CertsFirstOrNone(e.phases)
    ensures Reconcile(e, s, a).calls == checks + stops + starts
    ensures if s.startFailStep == -1 && !e.cfg.disableScripts then ChecksAre(checks, a.status) else checks == []
    ensures StopsRunning(e, s, a) ==> StopsAre(stops, a.stop, 0, |e.phases| - 1) && starts == []
    ensures Restarts(e, s, a) ==>
              && StopsAre(stops, a.stop, RestartStopsAt(e, s, a), |e.phases| - 1)
              && StartsAre(starts, a.start, RestartsAt(e, s, a))
    ensures !StopsRunning(e, s, a) && !Restarts(e, s, a) ==> stops == [] && starts == []
  {
    hide Persist, Written, Restart, Stop, StatusPass, Running, RestartsFor;
    StatusPassFinds(e, s, a);
    var status := StatusPass(e, s, a);
    checks, stops, starts := status.calls, Handle(e, status.st, a).calls, [];
    if Restarts(e, s, a) {
      UnsettledRestarts(e, s, a);
      stops, starts := RestartCallsAre(e, status.st.(operation := StartOp), a);
      assert checks + (stops + starts) == checks + stops + starts;
    } else if StopsRunning(e, s, a) {
      StopChainIs(e, status.st.(operation := StopOp), a, 0, |e.phases| - 1, false);
    }
    assert stops + starts == stops || Restarts(e, s, a);
  }

  // ---- What is recorded -----------------------------------------------------------------

  /** A node that is taken down because it is not to run is recorded as down, with nothing left of its past. */
  lemma StopForgetsAll(e: Env, s: State, a: Answers)
    requires e.Usable() && Fits(e, a) && InRange(e, s) && StopsRunning(e, s, a)
    ensures var r := Reconcile(e, s, a).st;
            && r.serviceState == ServiceFalse && r.startFailStep == -1 && r.startAttempts == 0
            && r.completed == [] && r.clusterID == "" && r.clusterRole == ""
            && r.currentPhase == "" && r.lastFailedPhase == ""
  {
    hide Persist, Written, StatusPass, StopChain, Running;
    StatusPassFinds(e, s, a);
    StopNotSkipped(e, StatusPass(e, s, a).st.(operation := StopOp), a, |e.phases| - 1, false);
  }

  lemma {:induction false} StopNotSkipped(e: Env, s: State, a: Answers, idx: int, failed: bool)
    requires Fits(e, a) && 0 <= idx + 1 <= |e.phases| && s.operation == StopOp
    ensures !StopChain(e, s, a, 0, false, idx, failed).skipped
    decreases idx + 1
  {
    if 0 <= idx && a.stop[idx] {
      StopNotSkipped(e, s, a, idx - 1, false);
    }
  }

  /** An iteration that neither stops nor restarts anything leaves the record alone, but for a stack found settled. */
  lemma RecordKept(e: Env, s: State, a: Answers)
    requires e.Usable() && Fits(e, a) && InRange(e, s) && !StopsRunning(e, s, a) && !Restarts(e, s, a)
    ensures var r := Reconcile(e, s, a).st;
            && r.clusterID == s.clusterID && r.clusterRole == s.clusterRole
            && r.currentPhase == s.currentPhase && r.lastFailedPhase == s.lastFailedPhase
            && (if e.cfg.kubeServiceState == ServiceTrue && !e.cfg.disableScripts
                then r.serviceState == ServiceTrue && r.completed == Names(e.phases) && r.startAttempts == 0
                     && r.startFailStep == -1
                else r.serviceState == s.serviceState && r.completed == s.completed
                     && r.startAttempts == s.startAttempts && r.startFailStep == s.startFailStep)
  {
    hide Persist, Written, StatusPass, Restart, Stop, Running;
    StatusPassFinds(e, s, a);
  }

  /** The operation last worked on, and whether the stack was found running. */
  lemma OperationRecorded(e: Env, s: State, a: Answers)
    requires e.Usable() && Fits(e, a) && InRange(e, s)
    ensures var r := Reconcile(e, s, a).st;
            && r.kubeRunning == Running(e, s, a)
            && r.operation == (match e.cfg.kubeServiceState
                               case ServiceTrue => if e.cfg.disableScripts then StatusOp else StartOp
                               case ServiceFalse => StopOp
                               case ServiceOther(_) => StatusOp)
  {
    hide Persist, Written, StatusPass, Restart, Stop, Running;
    StatusPassFinds(e, s, a);
    RestartKeepsOperation(e, StatusPass(e, s, a).st.(operation := StartOp), a);
  }

  lemma RestartKeepsOperation(e: Env, s: State, a: Answers)
    requires e.Usable() && Fits(e, a) && 0 <= s.failedStatusCheck < |e.phases|
    ensures Restart(e, s, a).st.operation == s.operation && Restart(e, s, a).st.kubeRunning == s.kubeRunning
  {
    hide Persist, Written, Start, Stop, FullRetry;
  }

  /**
   A restart records the configured identity and how far it got. The attempt is counted, unless the start works or
   the way down ended anywhere on its way to the bottom without keeping the certificates.
   */
  lemma RestartRecorded(e: Env, s: State, a: Answers)
    requires e.Usable() && Fits(e, a) && InRange(e, s) && CertsFirstOrNone(e.phases) && Restarts(e, s, a)
    ensures var r := Reconcile(e, s, a).st;
            var at := RestartsAt(e, s, a);
            var f := FirstFailure(a.start, at);
            var keptCerts := RestartStopsAt(e, s, a) == 1 && StopsWorkAbove(a, 0, |e.phases| - 1);
            && r.clusterID == e.cfg.clusterID && r.clusterRole == e.cfg.clusterRole && r.currentPhase == ""
            && r.completed == Names(e.phases)[..f]
            && (f == |e.phases| ==> r.serviceState == ServiceTrue && r.startFailStep == -1 && r.startAttempts == 0
                                    && r.lastFailedPhase == "")
            && (f < |e.phases| ==> r.serviceState == ServiceFalse && r.startFailStep == f
                                   && r.lastFailedPhase == e.phases[f].name
                                   && r.startAttempts == if at == 0 && !keptCerts then 0 else s.startAttempts + 1)
  {
    hide Persist, Written, StatusPass, Restart, Running, RestartsFor;
    StatusPassFinds(e, s, a);
    UnsettledRestarts(e, s, a);
    RestartRecords(e, StatusPass(e, s, a).st.(operation := StartOp), a);
  }

  lemma RestartRecords(e: Env, s: State, a: Answers)
    requires e.Usable() && Fits(e, a) && 0 <= s.failedStatusCheck < |e.phases| && CertsFirstOrNone(e.phases)
    requires s.operation == StartOp
    ensures var r := Restart(e, s, a).st;
            var at := RestartIndex(e, s);
            var f := FirstFailure(a.start, at);
            var keptCerts := s.failedStatusCheck > 0 && e.phases[0].order == GEN_CERTS_ORDER
                             && StopsWorkAbove(a, 0, |e.phases| - 1);
            && HasIdentity(e, r) && r.currentPhase == "" && r.completed == Names(e.phases)[..f]
            && (f == |e.phases| ==> r.serviceState == ServiceTrue && r.startFailStep == -1 && r.startAttempts == 0
                                    && r.lastFailedPhase == "")
            && (f < |e.phases| ==> r.serviceState == ServiceFalse && r.startFailStep == f
                                   && r.lastFailedPhase == e.phases[f].name
                                   && r.startAttempts == if at == 0 && !keptCerts then 0 else s.startAttempts + 1)
  {
    hide Persist, Written, FullRetryDue, Start, StopChain, Names;
    var at := RestartIndex(e, s);
    var t := s.(startAttempts := s.startAttempts + 1);
    var down := RestartDown(e, s, a).st.(clusterID := e.cfg.clusterID, clusterRole := e.cfg.clusterRole);
    StartCompletes(e, down, a, at);
    StartEndsQuiet(e, down, a, at);
    if at == 0 {
      KeptExactly(e, t, a, |e.phases| - 1, false);
    } else {
      NeverSkippedAbove(e, t, a, at, |e.phases| - 1, false);
    }
  }

  lemma StartEndsQuiet(e: Env, s: State, a: Answers, from: nat)
    requires Fits(e, a) && from < |e.phases|
    ensures Start(e, s, a, from).step.st.currentPhase == ""
  {
    hide StartChain;
  }

  /** The way down to the bottom keeps the certificates exactly if they are not at fault and all above them stops. */
  lemma {:induction false} KeptExactly(e: Env, s: State, a: Answers, idx: int, failed: bool)
    requires Fits(e, a) && 0 <= idx < |e.phases| && CertsFirstOrNone(e.phases) && s.operation == StartOp
    ensures StopChain(e, s, a, 0, false, idx, failed).skipped
            <==> s.failedStatusCheck != 0 && e.phases[0].order == GEN_CERTS_ORDER && StopsWorkAbove(a, 0, idx)
    decreases idx
  {
    if 0 < idx && a.stop[idx] {
      KeptExactly(e, s, a, idx - 1, false);
    }
  }

  lemma {:induction false} NeverSkippedAbove(e: Env, s: State, a: Answers, lo: nat, idx: int, failed: bool)
    requires Fits(e, a) && 0 < lo <= idx + 1 <= |e.phases| && CertsFirstOrNone(e.phases)
    ensures !StopChain(e, s, a, lo, false, idx, failed).skipped
    decreases idx + 1
  {
    if lo <= idx && a.stop[idx] {
      NeverSkippedAbove(e, s, a, lo, idx - 1, false);
    }
  }

  // ---- The error of a stop --------------------------------------------------------------

  lemma {:induction false} StopChainEnds(e: Env, s: State, a: Answers, lo: nat, force: bool, idx: int, failed: bool)
    requires Fits(e, a) && lo <= idx + 1 <= |e.phases| && CertsFirstOrNone(e.phases) && 0 < |e.phases|
    ensures var r := StopChain(e, s, a, lo, force, idx, failed);
            && (r.skipped ==> !r.failed && lo == 0 && SkipsCerts(e, s, 0))
            && (r.skipped && !force ==> forall c :: c in r.calls ==> c.ok)
            && (force && lo == 0 && SkipsCerts(e, s, 0) && idx >= 0 ==> r.skipped)
            && (!r.skipped ==> r.failed == if r.calls == [] then failed else !r.calls[|r.calls| - 1].ok)
    decreases idx + 1
  {
    if lo <= idx && !SkipsCerts(e, s, idx) && (a.stop[idx] || force) {
      StopChainEnds(e, s, a, lo, force, idx - 1, !a.stop[idx]);
    }
  }

  /**
   A stop reports the failure of its last call: one that is forced on past a failure reports none if the last call
   works, or if it ends by keeping the certificates.
   */
  lemma StopReportsLastCall(e: Env, s: State, a: Answers, lo: nat, force: bool)
    requires Fits(e, a) && lo < |e.phases| && CertsFirstOrNone(e.phases)
    ensures var r := Stop(e, s, a, lo, force);
            var calls := r.step.calls;
            r.failed <==> && calls != [] && !calls[|calls| - 1].ok
                          && !(force && lo == 0 && SkipsCerts(e, s, 0))
  {
    hide Persist, Written, SkipsCerts;
    StopChainEnds(e, s, a, lo, force, |e.phases| - 1, false);
    var calls := Stop(e, s, a, lo, force).step.calls;
    assert calls != [] ==> calls[|calls| - 1] in calls;
  }
}
