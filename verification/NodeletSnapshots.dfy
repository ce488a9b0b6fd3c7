/** What the extension file says, over every snapshot of every run. */
module NodeletSnapshots {
  import opened Phases
  import opened NodeletModel
  import opened NodeletRuns

  // ---- The node state of every snapshot -------------------------------------------------

  /**
   The node state a snapshot must carry, from its own fields, the configuration and the node state reported before:
   ok when the service is up or the stack is as wanted, otherwise by the number of attempts.
   */
  ghost predicate Tells(cfg: Config, before: NodeState, p: State) {
    var wanted := cfg.kubeServiceState;
    if p.serviceState == ServiceTrue then p.nodeState == Ok
    else if wanted == ServiceTrue && p.kubeRunning then p.nodeState == Ok
    else if wanted == ServiceFalse && !p.kubeRunning then p.nodeState == Ok
    else if wanted != ServiceTrue && wanted != ServiceFalse then p.nodeState == before
    else if p.startAttempts > 10 then p.nodeState == Failed
    else if p.startAttempts >= 2 then p.nodeState == Retrying
    else if p.startAttempts == 1 then p.nodeState == Converging
    else p.nodeState == before
  }

  ghost function LastTold(before: NodeState, pubs: seq<State>, p: nat): NodeState
    requires p <= |pubs|
  {
    if p == 0 then before else pubs[p - 1].nodeState
  }

  /** Every snapshot tells the truth after the one before it, and the last is what stays. */
  ghost predicate Told(cfg: Config, before: NodeState, pubs: seq<State>, after: NodeState) {
    && (forall p :: 0 <= p < |pubs| ==> Tells(cfg, LastTold(before, pubs, p), pubs[p]))
    && after == LastTold(before, pubs, |pubs|)
  }

  lemma ToldConcat(cfg: Config, before: NodeState, x: seq<State>, mid: NodeState, y: seq<State>, after: NodeState)
    requires Told(cfg, before, x, mid) && Told(cfg, mid, y, after)
    ensures Told(cfg, before, x + y, after)
  {
    hide Tells, LastTold;
    var z := x + y;
    forall p | 0 <= p < |z| ensures Tells(cfg, LastTold(before, z, p), z[p]) {
      LastToldConcat(before, x, mid, y, p);
    }
    LastToldConcat(before, x, mid, y, |z|);
  }

  lemma LastToldConcat(before: NodeState, x: seq<State>, mid: NodeState, y: seq<State>, p: nat)
    requires mid == LastTold(before, x, |x|) && p <= |x + y|
    ensures LastTold(before, x + y, p) == if p < |x| then LastTold(before, x, p) else LastTold(mid, y, p - |x|)
  {
  }

  lemma ToldNothing(cfg: Config, n: NodeState)
    ensures Told(cfg, n, [], n)
  {
  }

  lemma WrittenTold(e: Env, s: State)
    ensures Told(e.cfg, s.nodeState, Written(e, s), Persist(e, s).nodeState)
  {
    if !e.cfg.disableExtFile {
      assert Tells(e.cfg, s.nodeState, Persist(e, s));
    }
  }

  lemma StatusPassTold(e: Env, s: State, a: Answers)
    requires Fits(e, a)
    ensures Told(e.cfg, s.nodeState, StatusPass(e, s, a).pubs, StatusPass(e, s, a).st.nodeState)
  {
    hide Told, Persist, Written;
    WrittenTold(e, s.(operation := StatusOp, kubeRunning := false));
  }

  lemma StopTold(e: Env, s: State, a: Answers, lo: nat, force: bool)
    requires Fits(e, a) && lo < |e.phases|
    ensures Told(e.cfg, s.nodeState, Stop(e, s, a, lo, force).step.pubs, Stop(e, s, a, lo, force).step.st.nodeState)
  {
    hide Told, Persist, Written, StopChain;
    ToldNothing(e.cfg, s.nodeState);
    WrittenTold(e, StoppedAt(e, s, lo));
  }

  lemma StartPhaseTold(e: Env, s: State, a: Answers, i: nat)
    requires Fits(e, a) && i < |e.phases|
    ensures Told(e.cfg, s.nodeState, StartPhase(e, s, a, i).pubs, StartPhase(e, s, a, i).st.nodeState)
  {
    hide Told, Persist, Written;
    var name := e.phases[i].name;
    var s1 := s.(currentPhase := name);
    var s2 := if a.start[i] then Persist(e, s1).(completed := s.completed + [name])
              else Persist(e, s1).(lastFailedPhase := name);
    WrittenTold(e, s1);
    WrittenTold(e, s2);
    ToldConcat(e.cfg, s.nodeState, Written(e, s1), s2.nodeState, Written(e, s2), Persist(e, s2).nodeState);
  }

  lemma {:induction false} StartChainTold(e: Env, s: State, a: Answers, i: nat)
    requires Fits(e, a) && i <= |e.phases|
    ensures Told(e.cfg, s.nodeState, StartChain(e, s, a, i).step.pubs, StartChain(e, s, a, i).step.st.nodeState)
    decreases |e.phases| - i
  {
    hide Told, StartPhase, StartChain;
    ToldNothing(e.cfg, s.nodeState);
    StartChainEnds(e, s, a);
    if i < |e.phases| {
      StartChainSplits(e, s, a, i);
      StartPhaseTold(e, s, a, i);
      if a.start[i] {
        var p := StartPhase(e, s, a, i);
        var r := StartChain(e, p.st, a, i + 1);
        StartChainTold(e, p.st, a, i + 1);
        ToldConcat(e.cfg, s.nodeState, p.pubs, p.st.nodeState, r.step.pubs, r.step.st.nodeState);
      }
    }
  }

  lemma StartTold(e: Env, s: State, a: Answers, from: nat)
    requires Fits(e, a) && from < |e.phases|
    ensures Told(e.cfg, s.nodeState, Start(e, s, a, from).step.pubs, Start(e, s, a, from).step.st.nodeState)
  {
    hide Told, StartChain, Persist, Written;
    var s0 := s.(completed := Names(e.phases)[..from]);
    var r := StartChain(e, s0, a, from).step;
    var s1 := r.st.(currentPhase := "");
    StartChainTold(e, s0, a, from);
    WrittenTold(e, s1);
    ToldConcat(e.cfg, s.nodeState, r.pubs, r.st.nodeState, Written(e, s1), Persist(e, s1).nodeState);
  }

  lemma RestartTold(e: Env, s: State, a: Answers)
    requires e.Usable() && Fits(e, a) && 0 <= s.failedStatusCheck < |e.phases|
    ensures Told(e.cfg, s.nodeState, Restart(e, s, a).pubs, Restart(e, s, a).st.nodeState)
  {
    hide Told, Persist, Written, Start, Stop, FullRetry;
    var at := RestartIndex(e, s);
    var down := RestartDown(e, s, a);
    var up := RestartUp(e, s, a);
    var s1 := if up.failed
              then up.step.st.(serviceState := ServiceFalse, startFailStep := up.last)
              else up.step.st.(startAttempts := 0, serviceState := ServiceTrue, lastFailedPhase := "",
                               startFailStep := -1);
    StopTold(e, s.(startAttempts := s.startAttempts + 1), a, at, false);
    StartTold(e, down.st.(clusterID := e.cfg.clusterID, clusterRole := e.cfg.clusterRole), a, at);
    WrittenTold(e, s1);
    ToldConcat(e.cfg, s.nodeState, down.pubs, down.st.nodeState, up.step.pubs, up.step.st.nodeState);
    ToldConcat(e.cfg, s.nodeState, down.pubs + up.step.pubs, up.step.st.nodeState, Written(e, s1),
               Persist(e, s1).nodeState);
  }

  lemma HandleTold(e: Env, s: State, a: Answers)
    requires e.Usable() && Fits(e, a) && 0 <= s.failedStatusCheck < |e.phases|
    ensures Told(e.cfg, s.nodeState, Handle(e, s, a).pubs, Handle(e, s, a).st.nodeState)
  {
    hide Told, Persist, Written, Restart, Stop;
    ToldNothing(e.cfg, s.nodeState);
    RestartTold(e, s.(operation := StartOp), a);
    StopTold(e, s.(operation := StopOp), a, 0, false);
    WrittenTold(e, s.(operation := StartOp, startAttempts := 0, serviceState := ServiceTrue, startFailStep := -1,
                      completed := Names(e.phases)));
  }

  lemma ReconcileTold(e: Env, s: State, a: Answers)
    requires e.Usable() && Fits(e, a) && InRange(e, s)
    ensures Told(e.cfg, s.nodeState, Reconcile(e, s, a).pubs, Reconcile(e, s, a).st.nodeState)
  {
    hide Told, Persist, Written, StatusPass, Handle;
    var status := StatusPass(e, s, a);
    assert 0 <= status.st.failedStatusCheck < |e.phases|;
    var handled := Handle(e, status.st, a);
    StatusPassTold(e, s, a);
    HandleTold(e, status.st, a);
    WrittenTold(e, handled.st);
    ToldConcat(e.cfg, s.nodeState, status.pubs, status.st.nodeState, handled.pubs, handled.st.nodeState);
    ToldConcat(e.cfg, s.nodeState, status.pubs + handled.pubs, handled.st.nodeState, Written(e, handled.st),
               Persist(e, handled.st).nodeState);
  }

  /** Every snapshot of every run, beginning with what the process booted with. */
  lemma {:induction false} RunTold(e: Env, s: State, its: seq<Answers>)
    requires e.Usable() && InRange(e, s) && forall a :: a in its ==> Fits(e, a)
    ensures Told(e.cfg, s.nodeState, Run(e, s, its).pubs, Run(e, s, its).st.nodeState)
  {
    hide Told, Reconcile;
    ToldNothing(e.cfg, s.nodeState);
    if its != [] {
      var m := |its| - 1;
      var before := Run(e, s, its[..m]);
      var t := Reconcile(e, before.st, its[m]);
      RunTold(e, s, its[..m]);
      ReconcileTold(e, before.st, its[m]);
      ToldConcat(e.cfg, s.nodeState, before.pubs, before.st.nodeState, t.pubs, t.st.nodeState);
    }
  }

  /** The file is up to date after every iteration, or never written if that is switched off. */
  lemma FileIsCurrent(e: Env, s: State, its: seq<Answers>)
    requires e.Usable() && InRange(e, s) && its != [] && forall a :: a in its ==> Fits(e, a)
    ensures var r := Run(e, s, its);
            !e.cfg.disableExtFile ==> r.pubs != [] && r.pubs[|r.pubs| - 1] == r.st
  {
    hide Reconcile;
    ReconcileWrites(e, Run(e, s, its[..|its| - 1]).st, its[|its| - 1]);
  }

  lemma ReconcileWrites(e: Env, s: State, a: Answers)
    requires e.Usable() && Fits(e, a) && InRange(e, s)
    ensures var r := Reconcile(e, s, a);
            !e.cfg.disableExtFile ==> r.pubs != [] && r.pubs[|r.pubs| - 1] == r.st
  {
    hide StatusPass, Handle, ReportedNodeState;
  }

  // ---- What a start announces -----------------------------------------------------------

  /** Of phase `k`: that it is being started, with the phases below it completed. */
  ghost predicate Begins(phases: seq<Phase>, k: nat, p: State)
    requires k < |phases|
  {
    p.currentPhase == phases[k].name && p.completed == Names(phases)[..k]
  }

  /** Of phase `k`: that it is completed too, or that it failed. */
  ghost predicate Ends(phases: seq<Phase>, ok: seq<bool>, k: nat, p: State)
    requires k < |phases| == |ok|
  {
    && p.currentPhase == phases[k].name && p.completed == Names(phases)[..if ok[k] then k + 1 else k]
    && (!ok[k] ==> p.lastFailedPhase == phases[k].name)
  }

  /** Two snapshots for each phase that is started, from phase `i` up to the first that fails. */
  ghost predicate Announced(phases: seq<Phase>, ok: seq<bool>, i: nat, pubs: seq<State>)
    requires i <= |phases| == |ok|
  {
    && |pubs| % 2 == 0 && i + |pubs| / 2 == (if FirstFailure(ok, i) < |ok| then FirstFailure(ok, i) + 1 else |ok|)
    && (forall p :: 0 <= p < |pubs| ==>
          if p % 2 == 0 then Begins(phases, i + p / 2, pubs[p]) else Ends(phases, ok, i + p / 2, pubs[p]))
  }

  lemma StartPhaseAnnounces(e: Env, s: State, a: Answers, i: nat)
    requires Fits(e, a) && i < |e.phases| && !e.cfg.disableExtFile && s.completed == Names(e.phases)[..i]
    ensures var p := StartPhase(e, s, a, i);
            && |p.pubs| == 2 && Begins(e.phases, i, p.pubs[0]) && Ends(e.phases, a.start, i, p.pubs[1])
            && (a.start[i] ==> p.st.completed == Names(e.phases)[..i + 1])
  {
    hide ReportedNodeState;
    assert Names(e.phases)[..i + 1] == Names(e.phases)[..i] + [e.phases[i].name];
  }

  /** Every phase of a start chain is announced before it is started and reported after. */
  lemma {:induction false} StartChainAnnounces(e: Env, s: State, a: Answers, i: nat)
    requires Fits(e, a) && i <= |e.phases| && !e.cfg.disableExtFile && s.completed == Names(e.phases)[..i]
    ensures Announced(e.phases, a.start, i, StartChain(e, s, a, i).step.pubs)
    decreases |e.phases| - i
  {
    hide StartPhase, Begins, Ends, StartChain;
    StartChainEnds(e, s, a);
    if i < |e.phases| {
      StartChainSplits(e, s, a, i);
      StartPhaseAnnounces(e, s, a, i);
      var p := StartPhase(e, s, a, i);
      if a.start[i] {
        StartChainAnnounces(e, p.st, a, i + 1);
        AnnouncedFirst(e.phases, a.start, i, p.pubs, StartChain(e, p.st, a, i + 1).step.pubs);
      }
    }
  }

  lemma AnnouncedFirst(phases: seq<Phase>, ok: seq<bool>, i: nat, two: seq<State>, rest: seq<State>)
    requires i < |phases| == |ok| && ok[i] && |two| == 2
    requires Begins(phases, i, two[0]) && Ends(phases, ok, i, two[1]) && Announced(phases, ok, i + 1, rest)
    ensures Announced(phases, ok, i, two + rest)
  {
    hide Begins, Ends;
    var all := two + rest;
    forall p | 0 <= p < |all|
      ensures if p % 2 == 0 then Begins(phases, i + p / 2, all[p]) else Ends(phases, ok, i + p / 2, all[p])
    {
      if p >= 2 {
        assert all[p] == rest[p - 2] && (p - 2) % 2 == p % 2 && (p - 2) / 2 == p / 2 - 1;
      }
    }
  }

  // ---- Where a process begins -----------------------------------------------------------

  /**
   A fresh process of a host without a cluster reports ok with no attempts. Otherwise it takes over the attempts and
   the node state of the file, except that a file that says ok, or no file, counts as a first attempt; and the first
   snapshot tells that.
   */
  lemma BootReports(e: Env, file: Loaded)
    ensures var s := Boot(e, file);
            var first := file.nodeState == Ok || e.cfg.disableExtFile;
            && (e.cfg.clusterID == "" ==> s.nodeState == Ok && s.startAttempts == 0)
            && (e.cfg.clusterID != "" ==>
                  && s.startAttempts == (if first then 1 else file.startAttempts)
                  && (if e.cfg.disableExtFile then s.nodeState == Converging
                      else Tells(e.cfg, if first then Converging else file.nodeState, s)))
            && !s.kubeRunning && s.completed == [] && s.operation == StopOp
    ensures Told(e.cfg, Construct(e, file).nodeState, Written(e, Construct(e, file)),
                 Persist(e, Construct(e, file)).nodeState)
  {
    WrittenTold(e, Construct(e, file));
  }
}
