/** What the extension file says about a node that keeps failing to start. */
module NodeletReports {
  import opened Phases
  import opened NodeletModel
  import opened NodeletRuns
  import opened NodeletRetries

  /** The node state promised for a number of attempts. */
  function Verdict(attempts: int): NodeState {
    if attempts <= 1 then Converging else if attempts <= NUM_RETRIES_FOR_ERROR_STATE then Retrying else Failed
  }

  function Severity(n: NodeState): nat {
    match n
    case Converging => 1
    case Retrying => 2
    case Failed => 3
    case _ => 0
  }

  /** The snapshots count attempts upwards from `lo` to `hi`, each with the verdict for its count. */
  ghost predicate Climbs(pubs: seq<State>, lo: int, hi: int) {
    && (forall p :: 0 <= p < |pubs| ==>
          lo <= pubs[p].startAttempts <= hi && pubs[p].nodeState == Verdict(pubs[p].startAttempts))
    && (forall p, q :: 0 <= p < q < |pubs| ==> pubs[p].startAttempts <= pubs[q].startAttempts)
  }

  lemma ClimbsConcat(x: seq<State>, y: seq<State>, lo: int, mid: int, hi: int)
    requires Climbs(x, lo, mid) && Climbs(y, mid, hi) && lo <= mid <= hi
    ensures Climbs(x + y, lo, hi)
  {
  }

  lemma NothingClimbs(c: int)
    ensures Climbs([], c, c)
  {
  }

  /** Starting up for the first time or again: wanted, not running, not yet reported as up. */
  predicate Trying(e: Env, s: State) {
    e.cfg.kubeServiceState == ServiceTrue && s.serviceState == ServiceFalse && !s.kubeRunning && s.startAttempts >= 1
  }

  lemma WrittenClimbs(e: Env, s: State)
    requires Trying(e, s)
    ensures Climbs(Written(e, s), s.startAttempts, s.startAttempts)
    ensures !e.cfg.disableExtFile ==> Persist(e, s).nodeState == Verdict(s.startAttempts)
  {
  }

  lemma StartPhaseClimbs(e: Env, s: State, a: Answers, i: nat)
    requires Fits(e, a) && i < |e.phases| && Trying(e, s)
    ensures Climbs(StartPhase(e, s, a, i).pubs, s.startAttempts, s.startAttempts)
  {
    hide ReportedNodeState;
    var c := s.startAttempts;
    var s1 := s.(currentPhase := e.phases[i].name);
    WrittenClimbs(e, s1);
    var s2 := if a.start[i] then Persist(e, s1).(completed := s.completed + [e.phases[i].name])
              else Persist(e, s1).(lastFailedPhase := e.phases[i].name);
    WrittenClimbs(e, s2);
    ClimbsConcat(Written(e, s1), Written(e, s2), c, c, c);
  }

  lemma {:induction false} StartChainClimbs(e: Env, s: State, a: Answers, i: nat)
    requires Fits(e, a) && i <= |e.phases| && Trying(e, s)
    ensures Climbs(StartChain(e, s, a, i).step.pubs, s.startAttempts, s.startAttempts)
    decreases |e.phases| - i
  {
    hide StartPhase, Climbs, StartChain;
    var c := s.startAttempts;
    NothingClimbs(c);
    StartChainEnds(e, s, a);
    if i < |e.phases| {
      StartChainSplits(e, s, a, i);
      StartPhaseClimbs(e, s, a, i);
      if a.start[i] {
        var p := StartPhase(e, s, a, i);
        StartChainClimbs(e, p.st, a, i + 1);
        ClimbsConcat(p.pubs, StartChain(e, p.st, a, i + 1).step.pubs, c, c, c);
      }
    }
  }

  lemma StartClimbs(e: Env, s: State, a: Answers, from: nat)
    requires Fits(e, a) && from < |e.phases| && Trying(e, s)
    ensures Climbs(Start(e, s, a, from).step.pubs, s.startAttempts, s.startAttempts)
  {
    var s0 := s.(completed := Names(e.phases)[..from]);
    var r := StartChain(e, s0, a, from);
    StartChainClimbs(e, s0, a, from);
    WrittenClimbs(e, r.step.st.(currentPhase := ""));
    var c := s.startAttempts;
    ClimbsConcat(r.step.pubs, Written(e, r.step.st.(currentPhase := "")), c, c, c);
  }

  lemma {:induction false} StopChainSkips(e: Env, s: State, a: Answers, idx: int, failed: bool)
    requires Fits(e, a) && 0 <= idx < |e.phases| && GenCertsFirst(e.phases) && AllTrue(a.stop)
    requires s.operation == StartOp && s.failedStatusCheck > 0
    ensures StopChain(e, s, a, 0, false, idx, failed).skipped
    decreases idx
  {
    if 0 < idx {
      StopChainSkips(e, s, a, idx - 1, false);
    }
  }

  /** On the way down, a restart after a late failure keeps its attempt counter. */
  lemma StopClimbs(e: Env, s: State, a: Answers, lo: nat)
    requires Fits(e, a) && lo < |e.phases| && GenCertsFirst(e.phases) && AllTrue(a.stop) && Trying(e, s)
    requires s.operation == StartOp && s.failedStatusCheck > 0
    ensures Climbs(Stop(e, s, a, lo, false).step.pubs, s.startAttempts, s.startAttempts)
    ensures Stop(e, s, a, lo, false).step.st.startAttempts == s.startAttempts
    ensures Trying(e, Stop(e, s, a, lo, false).step.st)
  {
    if lo == 0 {
      StopChainSkips(e, s, a, |e.phases| - 1, false);
    } else {
      WrittenClimbs(e, s.(serviceState := ServiceFalse, completed := Names(e.phases)[..lo]));
    }
  }

  lemma RestartClimbs(e: Env, s: State, a: Answers)
    requires e.Usable() && Fits(e, a) && GenCertsFirst(e.phases) && AllTrue(a.stop) && Trying(e, s)
    requires s.operation == StartOp && 0 < s.failedStatusCheck < |e.phases|
    requires Failing(Restart(e, s, a).st)
    ensures Climbs(Restart(e, s, a).pubs, s.startAttempts + 1, s.startAttempts + 1)
    ensures Restart(e, s, a).st.startAttempts == s.startAttempts + 1
    ensures Trying(e, Restart(e, s, a).st)
  {
    hide FullRetry, ReportedNodeState;
    var c := s.startAttempts + 1;
    var from := RestartIndex(e, s);
    var down := RestartDown(e, s, a);
    var up := RestartUp(e, s, a);
    StopClimbs(e, s.(startAttempts := c), a, from);
    StartClimbs(e, down.st.(clusterID := e.cfg.clusterID, clusterRole := e.cfg.clusterRole), a, from);
    var s3 := up.step.st.(serviceState := ServiceFalse, startFailStep := up.last);
    WrittenClimbs(e, s3);
    ClimbsConcat(down.pubs, up.step.pubs, c, c, c);
    ClimbsConcat(down.pubs + up.step.pubs, Written(e, s3), c, c, c);
  }

  /** One more failed attempt adds one to the counter, and every snapshot carries the verdict for its count. */
  lemma AttemptClimbs(e: Env, s: State, a: Answers)
    requires BringingUp(e) && Fits(e, a) && GenCertsFirst(e.phases) && AllTrue(a.stop)
    requires Boundary(e, s) && s.startFailStep >= 1 && s.startAttempts >= 1
    requires Failing(Reconcile(e, s, a).st)
    ensures var r := Reconcile(e, s, a);
            && r.st.startAttempts == s.startAttempts + 1
            && Climbs(r.pubs, s.startAttempts, s.startAttempts + 1)
            && (!e.cfg.disableExtFile ==> r.st.nodeState == Verdict(r.st.startAttempts))
  {
    hide Restart, ReportedNodeState;
    var c := s.startAttempts;
    var checked := s.(operation := StatusOp, kubeRunning := false);
    var t := StatusPass(e, s, a).st.(operation := StartOp);
    FailingRestarts(e, s, a);
    WrittenClimbs(e, checked);
    RestartClimbs(e, t, a);
    var h := Restart(e, t, a);
    WrittenClimbs(e, h.st);
    ClimbsConcat(Written(e, checked), h.pubs, c, c + 1, c + 1);
    ClimbsConcat(Written(e, checked) + h.pubs, Written(e, h.st), c, c + 1, c + 1);
  }

  /** Every iteration starts and ends with a failure past the first phase, and every Stop works. */
  ghost predicate LateStreak(e: Env, s: State, its: seq<Answers>) {
    && BringingUp(e) && GenCertsFirst(e.phases) && Boundary(e, s) && s.startAttempts >= 1
    && (forall a :: a in its ==> Fits(e, a) && AllTrue(a.stop))
    && (forall i :: 0 <= i <= |its| ==> StateAt(e, s, its, i).startFailStep >= 1)
  }

  lemma LateStreakPrefix(e: Env, s: State, its: seq<Answers>)
    requires LateStreak(e, s, its) && its != []
    ensures LateStreak(e, s, its[..|its| - 1])
    ensures var t := Run(e, s, its[..|its| - 1]).st;
            && t.startFailStep >= 1
            && Failing(Reconcile(e, t, its[|its| - 1]).st)
  {
    hide Reconcile;
    var m := |its| - 1;
    forall i | 0 <= i <= m ensures StateAt(e, s, its[..m], i).startFailStep >= 1 {
      StateAtPrefix(e, s, its, m, i);
    }
    assert StateAt(e, s, its, m).startFailStep >= 1 && StateAt(e, s, its, m + 1).startFailStep >= 1;
    RunSplitsLast(e, s, its, m);
  }

  /**
   A streak of failures past the first phase, with every Stop working: the counter counts the iterations
   and each snapshot written on the way carries the verdict for its count.
   */
  lemma {:induction false} StreakClimbs(e: Env, s: State, its: seq<Answers>)
    requires LateStreak(e, s, its)
    ensures var r := Run(e, s, its);
            && r.st.startAttempts == s.startAttempts + |its|
            && Climbs(r.pubs, s.startAttempts, s.startAttempts + |its|)
            && (its != [] && !e.cfg.disableExtFile ==> r.st.nodeState == Verdict(r.st.startAttempts))
            && Boundary(e, r.st)
  {
    hide Reconcile;
    if its != [] {
      var m := |its| - 1;
      LateStreakPrefix(e, s, its);
      StreakClimbs(e, s, its[..m]);
      var t := Run(e, s, its[..m]);
      AttemptClimbs(e, t.st, its[m]);
      ReconcileBoundary(e, t.st, its[m]);
      var c := s.startAttempts;
      ClimbsConcat(t.pubs, Reconcile(e, t.st, its[m]).pubs, c, c + m, c + m + 1);
    }
  }

  lemma ClimbingIsMonotone(pubs: seq<State>, lo: int, hi: int, p: nat, q: nat)
    requires Climbs(pubs, lo, hi) && p <= q < |pubs|
    ensures Severity(pubs[p].nodeState) <= Severity(pubs[q].nodeState)
  {
  }

  /** So the reported state goes from converging over retrying to failed and never steps back. */
  lemma StreakNeverStepsBack(e: Env, s: State, its: seq<Answers>, p: nat, q: nat)
    requires LateStreak(e, s, its) && p <= q < |Run(e, s, its).pubs|
    ensures Severity(Run(e, s, its).pubs[p].nodeState) <= Severity(Run(e, s, its).pubs[q].nodeState)
  {
    hide Run;
    StreakClimbs(e, s, its);
    ClimbingIsMonotone(Run(e, s, its).pubs, s.startAttempts, s.startAttempts + |its|, p, q);
  }
}
