/** Where the reconciler ends up, when certificates are torn down, and what it reports on the way. */
module NodeletOutcomes {
  import opened Phases
  import opened NodeletModel
  import opened NodeletRuns
  import opened NodeletRetries

  // ---- Convergence ----------------------------------------------------------------------

  ghost predicate Healthy(a: Answers) {
    AllTrue(a.status) && AllTrue(a.start)
  }

  predicate HasIdentity(e: Env, s: State) {
    s.clusterID == e.cfg.clusterID && s.clusterRole == e.cfg.clusterRole
  }

  /** The recorded identity of a host that was last without a role. */
  predicate RecordedWithoutRole(s: State) {
    s.clusterRole == ROLE_NONE && s.clusterID == ""
  }

  /** A restart reports the configured identity, and the service as up or the first phase that failed to start. */
  lemma RestartOutcome(e: Env, s: State, a: Answers)
    requires e.Usable() && Fits(e, a) && 0 <= s.failedStatusCheck < |e.phases|
    ensures var r := Restart(e, s, a).st;
            var f := FirstFailure(a.start, RestartIndex(e, s));
            && HasIdentity(e, r)
            && r.serviceState == (if f == |e.phases| then ServiceTrue else ServiceFalse)
            && r.startFailStep == (if f == |e.phases| then -1 else f)
  {
    hide Persist, Written, FullRetry, Start, Stop;
  }

  /**
   One healthy iteration brings the service up, whatever the Stop calls answer. It also takes on the
   configured identity, except on a host recorded as having no role that did not fail before: there
   passing checks count as running and the old identity stays.
   */
  lemma HealthyIterationConverges(e: Env, s: State, a: Answers)
    requires BringingUp(e) && Fits(e, a) && Boundary(e, s) && Healthy(a)
    ensures var r := Reconcile(e, s, a).st;
            && r.serviceState == ServiceTrue && r.completed == Names(e.phases)
            && (HasIdentity(e, r) <==> HasIdentity(e, s) || Failing(s) || !RecordedWithoutRole(s))
            && (HasIdentity(e, r) || RecordedWithoutRole(r))
  {
    ReconcileBoundary(e, s, a);
    var t := StatusPass(e, s, a).st.(operation := StartOp);
    if Settled(e, t) {
      assert !Failing(s) && (HasIdentity(e, s) || RecordedWithoutRole(s));
    } else {
      RestartOutcome(e, t, a);
      assert Failing(s) || (!HasIdentity(e, s) && !RecordedWithoutRole(s));
    }
  }

  /** A settled service is left alone by every later healthy iteration: checks only, no Start and no Stop. */
  lemma {:induction false} SettledStaysQuiet(e: Env, s: State, its: seq<Answers>)
    requires BringingUp(e) && Boundary(e, s) && s.serviceState == ServiceTrue
    requires HasIdentity(e, s) || RecordedWithoutRole(s)
    requires forall a :: a in its ==> Fits(e, a) && Healthy(a)
    ensures var r := Run(e, s, its);
            && (forall c :: c in r.calls ==> c.StatusCall?)
            && r.st.serviceState == ServiceTrue
            && r.st.clusterID == s.clusterID && r.st.clusterRole == s.clusterRole
            && Boundary(e, r.st)
  {
    hide Persist, Written, FullRetry, Restart;
    if its != [] {
      var m := |its| - 1;
      SettledStaysQuiet(e, s, its[..m]);
      ReconcileBoundary(e, Run(e, s, its[..m]).st, its[m]);
    }
  }

  /** From any consistent state, a run of healthy iterations calls Start and Stop in its first one only. */
  lemma HealthyRunConverges(e: Env, s: State, first: Answers, rest: seq<Answers>)
    requires BringingUp(e) && Boundary(e, s)
    requires Fits(e, first) && Healthy(first)
    requires forall a :: a in rest ==> Fits(e, a) && Healthy(a)
    ensures var r := Reconcile(e, s, first).st;
            && Boundary(e, r) && r.serviceState == ServiceTrue
            && (forall c :: c in Run(e, r, rest).calls ==> c.StatusCall?)
            && Run(e, r, rest).st.serviceState == ServiceTrue
            && (HasIdentity(e, Run(e, r, rest).st) <==> HasIdentity(e, s) || Failing(s) || !RecordedWithoutRole(s))
  {
    ReconcileBoundary(e, s, first);
    HealthyIterationConverges(e, s, first);
    SettledStaysQuiet(e, Reconcile(e, s, first).st, rest);
  }

  /** The exception is real: a role-less record plus passing checks keeps a master from being set up. */
  lemma RecordWithoutRoleHidesIdentity()
    ensures exists e: Env, file: Loaded, a: Answers ::
              && BringingUp(e) && e.phases == MasterPhases() && Fits(e, a) && Healthy(a)
              && Reconcile(e, Boot(e, file), a).st.serviceState == ServiceTrue
              && !HasIdentity(e, Reconcile(e, Boot(e, file), a).st)
  {
    hide Reconcile, MasterPhases, Boot;
    MasterPhasesShape();
    var e := Env(MasterPhases(), Config(ServiceTrue, "master", "c1", 10, 0, false, false));
    var file := Loaded(Converging, 1, "", ROLE_NONE, "", "");
    var works := seq(21, i => true);
    var a := Answers(works, works, works, 0);
    assert BringingUp(e) && Fits(e, a) && Healthy(a);
    BootBoundary(e, file);
    BootRecalls(e, file);
    HealthyIterationConverges(e, Boot(e, file), a);
    assert !HasIdentity(e, Reconcile(e, Boot(e, file), a).st);
  }

  /** A fresh process is down and remembers the identity in the file. */
  lemma BootRecalls(e: Env, file: Loaded)
    ensures var s := Boot(e, file);
            && s.serviceState == ServiceFalse && s.startFailStep == -1
            && (!e.cfg.disableExtFile ==> s.clusterID == file.clusterID && s.clusterRole == file.clusterRole)
  {
  }

  // ---- Certificates ---------------------------------------------------------------------

  ghost predicate CertsStopped(calls: seq<Call>) {
    StopCall(0, true) in calls || StopCall(0, false) in calls
  }

  ghost predicate StopsWorkAbove(a: Answers, lo: nat, idx: int) {
    forall j :: lo < j <= idx && j < |a.stop| ==> a.stop[j]
  }

  lemma {:induction false} StopChainReachesCerts(e: Env, s: State, a: Answers, force: bool, idx: int, failed: bool)
    requires Fits(e, a) && 0 <= idx < |e.phases| && GenCertsFirst(e.phases)
    ensures CertsStopped(StopChain(e, s, a, 0, force, idx, failed).calls)
            <==> !SkipsCerts(e, s, 0) && (force || StopsWorkAbove(a, 0, idx))
    decreases idx
  {
    if 0 < idx && (a.stop[idx] || force) {
      StopChainReachesCerts(e, s, a, force, idx - 1, !a.stop[idx]);
    }
  }

  /** The Stop calls of a restart are those of its way down. */
  lemma RestartStopsAre(e: Env, s: State, a: Answers, c: Call)
    requires e.Usable() && Fits(e, a) && 0 <= s.failedStatusCheck < |e.phases|
    requires c.StopCall?
    ensures c in Restart(e, s, a).calls
            <==> c in StopChain(e, s.(startAttempts := s.startAttempts + 1), a, RestartIndex(e, s), false,
                                |e.phases| - 1, false).calls
  {
    hide Persist, Written, FullRetry, Start, Stop;
    StartCallsBounds(a.start, RestartIndex(e, s));
  }

  lemma RestartReachesCerts(e: Env, s: State, a: Answers)
    requires e.Usable() && Fits(e, a) && 0 <= s.failedStatusCheck < |e.phases|
    requires GenCertsFirst(e.phases) && s.operation == StartOp
    ensures CertsStopped(Restart(e, s, a).calls)
            <==> RestartIndex(e, s) == 0 && s.failedStatusCheck == 0 && StopsWorkAbove(a, 0, |e.phases| - 1)
  {
    hide Persist, Written, FullRetry, Restart;
    var from := RestartIndex(e, s);
    var s1 := s.(startAttempts := s.startAttempts + 1);
    RestartStopsAre(e, s, a, StopCall(0, true));
    RestartStopsAre(e, s, a, StopCall(0, false));
    if from == 0 {
      StopChainReachesCerts(e, s1, a, false, |e.phases| - 1, false);
    } else {
      StopChainBounds(e, s1, a, from, false, |e.phases| - 1, false);
    }
  }

  /**
   The certificates go exactly when the chain is taken down to the bottom because of what was found
   there, and nothing above refuses to stop.
   */
  lemma CertsTornDownExactly(e: Env, s: State, a: Answers)
    requires BringingUp(e) && Fits(e, a) && InRange(e, s) && GenCertsFirst(e.phases)
    ensures var t := StatusPass(e, s, a).st;
            CertsStopped(Reconcile(e, s, a).calls)
            <==> !Settled(e, t) && t.failedStatusCheck == 0 && StopsWorkAbove(a, 0, |e.phases| - 1)
  {
    hide Persist, Written, FullRetry, Restart;
    var t := StatusPass(e, s, a).st.(operation := StartOp);
    assert forall c :: c in StatusPass(e, s, a).calls ==> c.StatusCall?;
    if !Settled(e, t) {
      RestartReachesCerts(e, t, a);
    }
  }

  /** A running node given a new identity loses its old certificates when everything above them stops. */
  lemma NewIdentityDropsCerts(e: Env, s: State, a: Answers)
    requires BringingUp(e) && Fits(e, a) && InRange(e, s) && GenCertsFirst(e.phases)
    requires !Failing(s) && AllTrue(a.status) && StopsWorkAbove(a, 0, |e.phases| - 1)
    requires !HasIdentity(e, s) && !RecordedWithoutRole(s)
    ensures CertsStopped(Reconcile(e, s, a).calls)
  {
    CertsTornDownExactly(e, s, a);
  }

  /** Retrying a start that failed past the certificates never drops them, not even in a full restart. */
  lemma RetryKeepsCerts(e: Env, s: State, a: Answers)
    requires BringingUp(e) && Fits(e, a) && InRange(e, s) && GenCertsFirst(e.phases)
    requires s.startFailStep >= 1
    ensures !CertsStopped(Reconcile(e, s, a).calls)
  {
    CertsTornDownExactly(e, s, a);
  }

  // ---- The grace window -----------------------------------------------------------------

  datatype Anchor = Unset | At(time: int)

  /**
   When the tolerance for failing checks last began to run: the latest iteration that ran its checks and
   either passed them all or was not yet reporting the service as up. Iterations that follow a failed
   start run no checks and move nothing.
   */
  function GraceBegan(e: Env, s: State, its: seq<Answers>): Anchor
    requires e.Usable() && InRange(e, s)
    requires forall a :: a in its ==> Fits(e, a)
  {
    if its == [] then Unset
    else
      var m := |its| - 1;
      var before := Run(e, s, its[..m]).st;
      if before.startFailStep == -1
         && (e.cfg.disableScripts || FirstFailure(its[m].status, 0) == |e.phases| || before.serviceState != ServiceTrue)
      then At(its[m].clock)
      else GraceBegan(e, s, its[..m])
  }

  lemma {:induction false} GraceClock(e: Env, file: Loaded, its: seq<Answers>)
    requires e.Usable() && forall a :: a in its ==> Fits(e, a)
    ensures its != [] ==> GraceBegan(e, Boot(e, file), its) == At(Run(e, Boot(e, file), its).st.lastSuccessfulStatus)
  {
    hide Persist, Written, FullRetry;
    if its != [] {
      var m := |its| - 1;
      GraceClock(e, file, its[..m]);
      ReconcileClock(e, Run(e, Boot(e, file), its[..m]).st, its[m]);
    }
  }

  lemma RestartClock(e: Env, s: State, a: Answers)
    requires e.Usable() && Fits(e, a) && 0 <= s.failedStatusCheck < |e.phases|
    ensures Restart(e, s, a).st.lastSuccessfulStatus == s.lastSuccessfulStatus
    ensures Restart(e, s, a).st.kubeRunning == s.kubeRunning
  {
  }

  /** Handling the outcome of a status pass leaves its verdict and its clock as they were. */
  lemma ReconcileClock(e: Env, s: State, a: Answers)
    requires e.Usable() && Fits(e, a) && InRange(e, s)
    ensures Reconcile(e, s, a).st.lastSuccessfulStatus == StatusPass(e, s, a).st.lastSuccessfulStatus
    ensures Reconcile(e, s, a).st.kubeRunning == StatusPass(e, s, a).st.kubeRunning
  {
    hide Persist, Written, FullRetry, StatusPass, Restart;
    assert 0 <= StatusPass(e, s, a).st.failedStatusCheck < |e.phases|;
    RestartClock(e, StatusPass(e, s, a).st.(operation := StartOp), a);
  }

  lemma NoRunIsDown(e: Env, file: Loaded, its: seq<Answers>)
    requires e.Usable() && forall b :: b in its ==> Fits(e, b)
    requires Run(e, Boot(e, file), its).st.serviceState == ServiceTrue
    ensures its != []
  {
  }

  lemma ForgivenWithin(e: Env, s: State, a: Answers)
    requires Fits(e, a) && Boundary(e, s) && s.serviceState == ServiceTrue && !ChecksPass(e, a)
    ensures StatusPass(e, s, a).st.kubeRunning
            <==> a.clock - s.lastSuccessfulStatus < e.cfg.thresholdSeconds * NANOSECONDS
  {
    hide Persist, Written;
  }

  /** A failing check of a reported service is forgiven exactly within the threshold of that moment. */
  lemma ForgivenExactlyInGrace(e: Env, file: Loaded, its: seq<Answers>, a: Answers)
    requires e.Usable() && Fits(e, a) && forall b :: b in its ==> Fits(e, b)
    requires Run(e, Boot(e, file), its).st.serviceState == ServiceTrue
    requires !ChecksPass(e, a)
    ensures var began := GraceBegan(e, Boot(e, file), its);
            && began.At?
            && (Reconcile(e, Run(e, Boot(e, file), its).st, a).st.kubeRunning
                <==> a.clock - began.time < e.cfg.thresholdSeconds * NANOSECONDS)
  {
    hide Run, Boot, GraceBegan, Reconcile, Persist, Written;
    BootBoundary(e, file);
    BootRecalls(e, file);
    NoRunIsDown(e, file, its);
    var s := Run(e, Boot(e, file), its).st;
    GraceClock(e, file, its);
    RunBoundary(e, file, its);
    ReconcileClock(e, s, a);
    ForgivenWithin(e, s, a);
  }

  /** The latest iteration that began with the service not reported as up, whether or not it ran checks. */
  function LatestNotUp(e: Env, s: State, its: seq<Answers>): Anchor
    requires e.Usable() && InRange(e, s)
    requires forall a :: a in its ==> Fits(e, a)
  {
    if its == [] then Unset
    else
      var m := |its| - 1;
      if Run(e, s, its[..m]).st.serviceState != ServiceTrue then At(its[m].clock) else LatestNotUp(e, s, its[..m])
  }

  /** Iterations that follow a failed start leave the window where it was. */
  lemma {:induction false} RetriesMoveNoGrace(e: Env, s: State, its: seq<Answers>, retries: seq<Answers>)
    requires e.Usable() && InRange(e, s) && forall a :: a in its + retries ==> Fits(e, a)
    requires forall i :: 0 <= i < |retries| ==> Failing(Run(e, s, its + retries[..i]).st)
    ensures GraceBegan(e, s, its + retries) == GraceBegan(e, s, its)
    decreases |retries|
  {
    hide Run;
    if retries == [] {
      assert its + retries == its;
    } else {
      var m, all := |retries| - 1, its + retries;
      forall i | 0 <= i < m ensures Failing(Run(e, s, its + retries[..m][..i]).st) {
        assert retries[..m][..i] == retries[..i];
      }
      assert all[..|all| - 1] == its + retries[..m];
      RetriesMoveNoGrace(e, s, its, retries[..m]);
    }
  }

  /**
   Retries that at last bring the service up begin no grace window: the one in force began before the first
   failure, although the last retry began with the service not up.
   */
  lemma RetryBeginsNoGrace(e: Env, file: Loaded, its: seq<Answers>, retries: seq<Answers>, a: Answers)
    requires e.Usable() && Fits(e, a) && !ChecksPass(e, a) && retries != []
    requires forall b :: b in its + retries ==> Fits(e, b)
    requires forall i :: 0 <= i < |retries| ==> Failing(Run(e, Boot(e, file), its + retries[..i]).st)
    requires Run(e, Boot(e, file), its + retries).st.serviceState == ServiceTrue
    ensures var boot := Boot(e, file);
            && GraceBegan(e, boot, its).At?
            && LatestNotUp(e, boot, its + retries) == At(retries[|retries| - 1].clock)
            && (Reconcile(e, Run(e, boot, its + retries).st, a).st.kubeRunning
                <==> a.clock - GraceBegan(e, boot, its).time < e.cfg.thresholdSeconds * NANOSECONDS)
  {
    hide Reconcile, Boot, Run, GraceBegan, ChecksPass;
    BootBoundary(e, file);
    RetriesMoveNoGrace(e, Boot(e, file), its, retries);
    ForgivenExactlyInGrace(e, file, its + retries, a);
    LastRetryBeganDown(e, file, its, retries);
  }

  lemma LastRetryBeganDown(e: Env, file: Loaded, its: seq<Answers>, retries: seq<Answers>)
    requires e.Usable() && retries != [] && forall b :: b in its + retries ==> Fits(e, b)
    requires Failing(Run(e, Boot(e, file), its + retries[..|retries| - 1]).st)
    ensures LatestNotUp(e, Boot(e, file), its + retries) == At(retries[|retries| - 1].clock)
  {
    hide Boot, Run;
    var all := its + retries;
    assert all[..|all| - 1] == its + retries[..|retries| - 1];
    RunBoundary(e, file, all[..|all| - 1]);
  }

  /**
   So with a threshold of 50 seconds a master whose coredns phase fails to start once, and starts 100 seconds
   later, is not forgiven a check that fails 5 seconds after that.
   */
  lemma RetryIsNotForgiven()
    ensures exists e: Env, file: Loaded, its: seq<Answers>, a: Answers ::
              && e.Usable() && e.phases == MasterPhases() && Fits(e, a) && (forall b :: b in its ==> Fits(e, b))
              && Run(e, Boot(e, file), its).st.serviceState == ServiceTrue && !ChecksPass(e, a)
              && LatestNotUp(e, Boot(e, file), its).At?
              && a.clock - LatestNotUp(e, Boot(e, file), its).time < e.cfg.thresholdSeconds * NANOSECONDS
              && !Reconcile(e, Run(e, Boot(e, file), its).st, a).st.kubeRunning
  {
    hide Reconcile, Boot, Run, LatestNotUp, GraceBegan, MasterPhases;
    MasterPhasesShape();
    var e := Env(MasterPhases(), Config(ServiceTrue, "master", "c1", 10, 50, false, false));
    var file := Loaded(Converging, 1, "", "", "", "");
    var works, fails := seq(21, i => true), seq(21, i => false);
    var first := Answers(fails, works, seq(21, i => i != 19), 0);
    var retry := Answers(fails, works, works, 100 * NANOSECONDS);
    var a := Answers(fails, works, works, 105 * NANOSECONDS);
    assert !first.status[0] && !first.start[19] && !a.status[0];
    FailsThenUp(e, file, first, retry);
    assert [first] + [] == [first] && [first] + [retry] == [first, retry] && [retry][..0] == [];
    RetryBeginsNoGrace(e, file, [first], [retry], a);
    assert forall b :: b in [first, retry] ==> Fits(e, b);
  }

  /** A fresh process that fails to start and then starts. */
  lemma FailsThenUp(e: Env, file: Loaded, first: Answers, retry: Answers)
    requires BringingUp(e) && Fits(e, first) && Fits(e, retry)
    requires !AllTrue(first.status) && !AllTrue(first.start) && AllTrue(retry.start)
    ensures var boot := Boot(e, file);
            && InRange(e, boot)
            && Failing(Run(e, boot, [first]).st)
            && Run(e, boot, [first, retry]).st.serviceState == ServiceTrue
            && GraceBegan(e, boot, [first]) == At(first.clock)
  {
    hide Reconcile, Boot, Restart, Persist;
    var boot := Boot(e, file);
    BootBoundary(e, file);
    BootRecalls(e, file);
    assert [first, retry][..1] == [first] && [first][..0] == [];
    FailsFromBoot(e, boot, first);
    RetrySucceeds(e, Reconcile(e, boot, first).st, retry);
  }

  lemma FailsFromBoot(e: Env, s: State, a: Answers)
    requires BringingUp(e) && Fits(e, a) && InRange(e, s) && !Failing(s) && s.serviceState == ServiceFalse
    requires !AllTrue(a.status) && !AllTrue(a.start)
    ensures Reconcile(e, s, a).st.startFailStep == FirstFailure(a.start, 0) < |e.phases|
    ensures Reconcile(e, s, a).st.serviceState == ServiceFalse
  {
    hide Reconcile, Restart, Persist, Written, FullRetryDue;
    var t := StatusPass(e, s, a).st;
    assert t.failedStatusCheck == 0 && !t.kubeRunning;
    UnsettledRestarts(e, s, a);
    RestartOutcome(e, t.(operation := StartOp), a);
  }

  lemma RetrySucceeds(e: Env, s: State, a: Answers)
    requires BringingUp(e) && Fits(e, a) && InRange(e, s) && Failing(s) && AllTrue(a.start)
    ensures Reconcile(e, s, a).st.serviceState == ServiceTrue
  {
    hide Reconcile, Restart, Persist, Written, FullRetryDue;
    FailingRestarts(e, s, a);
    RestartOutcome(e, StatusPass(e, s, a).st.(operation := StartOp), a);
  }
}
