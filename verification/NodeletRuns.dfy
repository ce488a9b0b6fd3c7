/** What holds over every run of the reconciler, whatever the phases answer. */
module NodeletRuns {
  import opened Phases
  import opened NodeletModel

  /** A run of iterations from a given state: the final state, all calls made and all snapshots written. */
  function Run(e: Env, s: State, its: seq<Answers>): (r: Step)
    requires e.Usable() && InRange(e, s)
    requires forall a :: a in its ==> Fits(e, a)
    ensures InRange(e, r.st)
  {
    if its == [] then Step(s, [], [])
    else
      var before := Run(e, s, its[..|its| - 1]);
      var t := Reconcile(e, before.st, its[|its| - 1]);
      Step(t.st, before.calls + t.calls, before.pubs + t.pubs)
  }

  // ---- What every reconcile boundary keeps ----------------------------------------------

  ghost predicate Boundary(e: Env, s: State) {
    && InRange(e, s)
    && s.serviceState in {ServiceTrue, ServiceFalse}
    && s.completed <= Names(e.phases)
    && (s.startFailStep >= 0 ==>
          && s.completed == Names(e.phases)[..s.startFailStep]
          && s.lastFailedPhase == e.phases[s.startFailStep].name
          && s.serviceState == ServiceFalse)
    && (s.serviceState == ServiceTrue ==>
          && s.startFailStep == -1
          && s.startAttempts == 0
          && s.completed == Names(e.phases))
  }

  lemma BootBoundary(e: Env, file: Loaded)
    requires e.Usable()
    ensures Boundary(e, Boot(e, file))
  {
  }

  /** A start chain is its first phase and the chain of the others. */
  lemma StartChainSplits(e: Env, s: State, a: Answers, i: nat)
    requires Fits(e, a) && i < |e.phases|
    ensures var r, p := StartChain(e, s, a, i).step, StartPhase(e, s, a, i);
            if a.start[i] then
              var rest := StartChain(e, p.st, a, i + 1).step;
              r.pubs == p.pubs + rest.pubs && r.st == rest.st
            else r.pubs == p.pubs && r.st == p.st
  {
    hide StartPhase;
  }

  lemma StartChainEnds(e: Env, s: State, a: Answers)
    requires Fits(e, a)
    ensures StartChain(e, s, a, |e.phases|).step == Step(s, [], [])
  {
  }

  lemma OneMoreName(phases: seq<Phase>, done: seq<string>, i: nat, f: nat)
    requires i < f <= |phases|
    ensures (done + [phases[i].name]) + Names(phases)[i + 1..f] == done + Names(phases)[i..f]
  {
    var names, all := Names(phases), done + Names(phases)[i..f];
    var split := (done + [phases[i].name]) + names[i + 1..f];
    assert |split| == |all|;
    forall k | 0 <= k < |all| ensures split[k] == all[k] {
      if k > |done| {
        assert split[k] == names[i + 1..f][k - |done| - 1] == names[k - |done| + i];
      }
    }
  }

  /** A start chain completes exactly the phases before the one that fails. */
  lemma {:induction false} StartChainCompletes(e: Env, s: State, a: Answers, i: nat)
    requires Fits(e, a) && i <= |e.phases|
    ensures StartChain(e, s, a, i).step.st.completed == s.completed + Names(e.phases)[i..FirstFailure(a.start, i)]
    decreases |e.phases| - i
  {
    hide StartPhase, Names;
    var f := FirstFailure(a.start, i);
    if i < |e.phases| && a.start[i] {
      StartChainCompletes(e, StartPhase(e, s, a, i).st, a, i + 1);
      OneMoreName(e.phases, s.completed, i, f);
    }
  }

  lemma StartCompletes(e: Env, s: State, a: Answers, from: nat)
    requires Fits(e, a) && from < |e.phases|
    ensures Start(e, s, a, from).step.st.completed == Names(e.phases)[..FirstFailure(a.start, from)]
  {
    hide Persist, Written, StartChain;
    StartChainCompletes(e, s.(completed := Names(e.phases)[..from]), a, from);
    var f := FirstFailure(a.start, from);
    assert Names(e.phases)[..from] + Names(e.phases)[from..f] == Names(e.phases)[..f];
  }

  lemma RestartBoundary(e: Env, s: State, a: Answers)
    requires e.Usable() && Fits(e, a) && 0 <= s.failedStatusCheck < |e.phases|
    requires s.startFailStep >= -1
    ensures Boundary(e, Restart(e, s, a).st)
  {
    hide Persist, Written, FullRetry, Start, Stop;
    var s1 := RestartDown(e, s, a).st.(clusterID := e.cfg.clusterID, clusterRole := e.cfg.clusterRole);
    StartCompletes(e, s1, a, RestartIndex(e, s));
    assert Names(e.phases)[..|e.phases|] == Names(e.phases);
  }

  lemma ReconcileBoundary(e: Env, s: State, a: Answers)
    requires e.Usable() && Fits(e, a) && Boundary(e, s)
    ensures Boundary(e, Reconcile(e, s, a).st)
  {
    hide Persist, Written, FullRetry, Restart;
    var t := StatusPass(e, s, a).st;
    if e.cfg.kubeServiceState == ServiceTrue && !e.cfg.disableScripts {
      if !Settled(e, t.(operation := StartOp)) {
        RestartBoundary(e, t.(operation := StartOp), a);
      }
    }
  }

  /** Every reachable boundary state is consistent. */
  lemma {:induction false} RunBoundary(e: Env, file: Loaded, its: seq<Answers>)
    requires e.Usable() && forall a :: a in its ==> Fits(e, a)
    ensures Boundary(e, Run(e, Boot(e, file), its).st)
  {
    BootBoundary(e, file);
    if its != [] {
      RunBoundary(e, file, its[..|its| - 1]);
      ReconcileBoundary(e, Run(e, Boot(e, file), its[..|its| - 1]).st, its[|its| - 1]);
    }
  }
}
