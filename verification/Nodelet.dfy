/** The reconciler as it runs: an object that updates its state in place and appends to aliased slices. */
module NodeletObject {
  import opened Sequences
  import opened Phases
  import opened GoSlices
  import opened NodeletModel
  import NodeletRuns
  import NodeletRetries

  /** The plain fields of ExtensionData; its two lists are slices of the object. */
  datatype Fields = Fields(
    serviceState: ServiceState,
    nodeState: NodeState,
    startAttempts: int,
    clusterID: string,
    clusterRole: string,
    currentPhase: string,
    lastFailedPhase: string,
    operation: Operation,
    kubeRunning: bool,
    failedStatusCheck: int,
    lastSuccessfulStatus: int,
    startFailStep: int)

  /** The value of a state whose list of completed phases is given apart. */
  function AsState(f: Fields, completed: seq<string>): State {
    State(f.serviceState, f.nodeState, f.startAttempts, f.clusterID, f.clusterRole, completed, f.currentPhase,
          f.lastFailedPhase, f.operation, f.kubeRunning, f.failedStatusCheck, f.lastSuccessfulStatus, f.startFailStep)
  }

  /** What was done before plus the whole chain is what is done now plus the rest of the chain. */
  ghost predicate Owes(calls0: seq<Call>, pubs0: seq<State>, whole: StartResult,
                       calls: seq<Call>, pubs: seq<State>, rest: StartResult) {
    && calls0 + whole.step.calls == calls + rest.step.calls
    && pubs0 + whole.step.pubs == pubs + rest.step.pubs
    && whole.step.st == rest.step.st && whole.last == rest.last && whole.failed == rest.failed
  }

  lemma OwesAfterPhase(e: Env, s: State, a: Answers, i: nat, calls0: seq<Call>, pubs0: seq<State>, whole: StartResult,
                       calls: seq<Call>, pubs: seq<State>)
    requires Fits(e, a) && i < |e.phases|
    requires Owes(calls0, pubs0, whole, calls, pubs, StartChain(e, s, a, i))
    ensures var p := NodeletModel.StartPhase(e, s, a, i);
            Owes(calls0, pubs0, whole, calls + p.calls, pubs + p.pubs,
                 if a.start[i] then StartChain(e, p.st, a, i + 1) else StartResult(Step(p.st, [], []), i, true))
  {
    hide NodeletModel.StartPhase;
    var p := NodeletModel.StartPhase(e, s, a, i);
    if a.start[i] {
      var rest := StartChain(e, p.st, a, i + 1);
      Associates(calls, p.calls, rest.step.calls);
      Associates(pubs, p.pubs, rest.step.pubs);
    }
  }

  lemma OwesNothing(e: Env, s: State, a: Answers, calls0: seq<Call>, pubs0: seq<State>, whole: StartResult,
                    calls: seq<Call>, pubs: seq<State>)
    requires Fits(e, a)
    requires Owes(calls0, pubs0, whole, calls, pubs, StartChain(e, s, a, |e.phases|))
    ensures Owes(calls0, pubs0, whole, calls, pubs, StartResult(Step(s, [], []), |e.phases|, false))
  {
  }

  lemma StopChainDone(e: Env, s: State, a: Answers, lo: nat, force: bool, failed: bool)
    requires Fits(e, a) && lo <= |e.phases|
    ensures StopChain(e, s, a, lo, force, lo - 1, failed) == StopChainResult([], false, failed)
  {
  }

  /** The same for the calls of a stop chain. */
  ghost predicate OwesStops(calls0: seq<Call>, whole: StopChainResult, calls: seq<Call>, rest: StopChainResult) {
    calls0 + whole.calls == calls + rest.calls && whole.skipped == rest.skipped && whole.failed == rest.failed
  }

  lemma OwesStopsAfterPhase(e: Env, s: State, a: Answers, lo: nat, force: bool, idx: int, failed: bool,
                            calls0: seq<Call>, whole: StopChainResult, calls: seq<Call>)
    requires Fits(e, a) && lo <= idx < |e.phases|
    requires OwesStops(calls0, whole, calls, StopChain(e, s, a, lo, force, idx, failed))
    ensures if SkipsCerts(e, s, idx) then OwesStops(calls0, whole, calls, StopChainResult([], true, false))
            else OwesStops(calls0, whole, calls + [StopCall(idx, a.stop[idx])],
                           if a.stop[idx] || force then StopChain(e, s, a, lo, force, idx - 1, !a.stop[idx])
                           else StopChainResult([], false, true))
  {
    if !SkipsCerts(e, s, idx) && (a.stop[idx] || force) {
      Associates(calls, [StopCall(idx, a.stop[idx])], StopChain(e, s, a, lo, force, idx - 1, !a.stop[idx]).calls);
    }
  }

  class Nodelet {
    const env: Env

    var allPhases: Slice
    var completedPhases: Slice
    var current: Fields

    ghost var completed: seq<string>  // the contents of completedPhases

    // Everything done so far: the phase operations called and the snapshots written.
    ghost var calls: seq<Call>
    ghost var pubs: seq<State>

    ghost predicate Valid()
      reads this, allPhases.arr, completedPhases.arr
    {
      && allPhases.Valid()
      && completedPhases.Valid()
      && allPhases.Elems() == Names(env.phases)
      && completedPhases.Elems() == completed
    }

    /** The state as a value. */
    ghost function Model(): State
      reads this
    {
      AsState(current, completed)
    }

    /** The list of all phases is neither moved nor written to, spare capacity included. */
    twostate predicate AllPhasesUntouched()
      reads this, allPhases.arr
    {
      allPhases == old(allPhases)
      && forall k :: 0 <= k < allPhases.arr.Length ==> allPhases.arr[k] == old(allPhases.arr[k])
    }

    /** The object did what the step says, on top of what it had done. */
    twostate predicate Performed(step: Step)
      reads this
    {
      Model() == step.st && calls == old(calls) + step.calls && pubs == old(pubs) + step.pubs
    }

    constructor (env: Env, file: Loaded)
      ensures this.env == env && Valid() && fresh(allPhases.arr) && fresh(completedPhases.arr)
      ensures Model() == Construct(env, file) && calls == [] && pubs == []
    {
      this.env := env;
      var none := new string[0];
      allPhases := Slice(none, 0, 0, 0);
      completedPhases := Slice(none, 0, 0, 0);
      completed := [];
      var l := if env.cfg.disableExtFile then Loaded(Converging, 1, "", "", "", "")
               else if file.nodeState == Ok then file.(nodeState := Converging, startAttempts := 1)
               else file;
      current := Fields(ServiceFalse, l.nodeState, l.startAttempts, l.clusterID, l.clusterRole, l.currentPhase,
                        l.lastFailedPhase, StopOp, false, 0, 0, -1);
      calls := [];
      pubs := [];
      new;
      CollectNames();
    }

    method CollectNames()
      requires allPhases.Valid() && completedPhases.Valid() && allPhases.len == 0
      requires completedPhases.len == 0 && completed == []
      modifies this`allPhases, allPhases.arr
      ensures Valid() && (allPhases.arr == old(allPhases.arr) || fresh(allPhases.arr))
      ensures Model() == old(Model())
    {
      var i := 0;
      while i < |env.phases|
        invariant 0 <= i <= |env.phases|
        invariant allPhases.Valid() && (allPhases.arr == old(allPhases.arr) || fresh(allPhases.arr))
        invariant allPhases.Elems() == Names(env.phases)[..i]
      {
        assert Names(env.phases)[..i + 1] == Names(env.phases)[..i] + [env.phases[i].name];
        allPhases := Append(allPhases, env.phases[i].name);
        i := i + 1;
      }
    }

    /** A best-effort write of the extension file, which settles the reported node state first. */
    method TryToPersistStatus()
      requires Valid()
      modifies this`current, this`pubs
      ensures Performed(Step(Persist(env, old(Model())), [], Written(env, old(Model()))))
    {
      if !env.cfg.disableExtFile {
        PopulateExtraFields();
        pubs := pubs + [Model()];
      }
    }

    method PopulateExtraFields()
      requires Valid()
      modifies this`current
      ensures Model() == old(Model()).(nodeState := ReportedNodeState(env.cfg, old(Model())))
    {
      var wanted := env.cfg.kubeServiceState;
      if current.serviceState == ServiceTrue {
        current := current.(nodeState := Ok);
        return;
      }
      if (wanted == ServiceTrue && !current.kubeRunning) || (wanted == ServiceFalse && current.kubeRunning) {
        if current.startAttempts == 1 {
          current := current.(nodeState := Converging);
        } else if current.startAttempts > 1 && current.startAttempts <= NUM_RETRIES_FOR_ERROR_STATE {
          current := current.(nodeState := Retrying);
        } else if current.startAttempts > NUM_RETRIES_FOR_ERROR_STATE {
          current := current.(nodeState := Failed);
        }
      } else if (wanted == ServiceTrue && current.kubeRunning) || (wanted == ServiceFalse && !current.kubeRunning) {
        current := current.(nodeState := Ok);
      }
    }

    method Status(a: Answers)
      requires Valid() && Fits(env, a)
      modifies this`current, this`calls, this`pubs
      ensures Performed(StatusPass(env, old(Model()), a))
    {
      hide Persist, Written, ReportedNodeState, StatusCalls;
      current := current.(operation := StatusOp, kubeRunning := false);
      if current.startFailStep != -1 {
        TryToPersistStatus();
        current := current.(failedStatusCheck := current.startFailStep);
        return;
      }
      var failed := RunChecks(a);
      TryToPersistStatus();
      if failed == -1 {
        current := current.(kubeRunning := true);
        failed := 0;
        current := current.(lastSuccessfulStatus := a.clock);
      } else if current.serviceState == ServiceTrue {
        if a.clock - current.lastSuccessfulStatus < env.cfg.thresholdSeconds * NANOSECONDS {
          current := current.(kubeRunning := true);
          failed := 0;
        }
      } else {
        failed := 0;
        current := current.(lastSuccessfulStatus := a.clock);
      }
      current := current.(failedStatusCheck := failed);
    }

    /** The loop over the checks: the index of the first that fails, or -1. */
    method RunChecks(a: Answers) returns (failed: int)
      requires Fits(env, a)
      modifies this`calls
      ensures calls == old(calls) + if env.cfg.disableScripts then [] else StatusCalls(a.status)
      ensures env.cfg.disableScripts || FirstFailure(a.status, 0) == |a.status| ==> failed == -1
      ensures !env.cfg.disableScripts && FirstFailure(a.status, 0) < |a.status| ==> failed == FirstFailure(a.status, 0)
    {
      failed := -1;
      if env.cfg.disableScripts {
        return;
      }
      ghost var all := StatusCalls(a.status);
      for i := 0 to |env.phases|
        invariant i <= FirstFailure(a.status, 0)
        invariant calls == old(calls) + all[..i]
      {
        calls := calls + [StatusCall(i, a.status[i])];
        assert all[..i + 1] == all[..i] + [StatusCall(i, a.status[i])];
        if !a.status[i] {
          assert i == FirstFailure(a.status, 0) && all[..i + 1] == all;
          return i;
        }
      }
      assert all[..|all|] == all;
    }

    /** After this no Stop, however far down and forced or not, stops the certificate phase. */
    method SkipGenCertsPhase()
      modifies this`current
      ensures current == old(current).(operation := StartOp, failedStatusCheck := -1)
      ensures NodeletRetries.KeepsCerts(env, Model())
    {
      current := current.(operation := StartOp, failedStatusCheck := -1);
      NodeletRetries.SkippingKeepsCerts(env, Model());
    }

    /** One phase alone, past the chain and the recorded state; what counts is the status the phase reports. */
    method StartSinglePhase(idx: nat, a: Answers, reportsFailed: bool) returns (failed: bool)
      requires Fits(env, a) && idx < |env.phases|
      modifies this`calls
      ensures calls == old(calls) + [StartCall(idx, a.start[idx])] && failed == reportsFailed
    {
      calls := calls + [StartCall(idx, a.start[idx])];
      failed := reportsFailed;
    }

    method StopSinglePhase(idx: nat, a: Answers, reportsStopped: bool) returns (failed: bool)
      requires Fits(env, a) && idx < |env.phases|
      modifies this`calls
      ensures calls == old(calls) + [StopCall(idx, a.stop[idx])] && failed == !reportsStopped
    {
      calls := calls + [StopCall(idx, a.stop[idx])];
      failed := !reportsStopped;
    }

    method Stop(stopPhaseIndex: nat, force: bool, a: Answers) returns (failed: bool)
      requires Valid() && Fits(env, a) && stopPhaseIndex < |env.phases|
      modifies this
      ensures Valid() && AllPhasesUntouched()
      ensures completedPhases.arr in {old(completedPhases.arr), allPhases.arr} || fresh(completedPhases.arr)
      ensures Performed(NodeletModel.Stop(env, old(Model()), a, stopPhaseIndex, force).step)
      ensures failed == NodeletModel.Stop(env, old(Model()), a, stopPhaseIndex, force).failed
    {
      hide Persist, Written, StopChain, StoppedAt;
      var skipped;
      skipped, failed := RunStopChain(stopPhaseIndex, force, a);
      if skipped {
        return false;
      }
      FinishStop(stopPhaseIndex);
    }

    method FinishStop(stopPhaseIndex: nat)
      requires Valid() && stopPhaseIndex < |env.phases|
      modifies this`current, this`completedPhases, this`completed, this`pubs
      ensures Valid() && AllPhasesUntouched()
      ensures completedPhases.arr == allPhases.arr || fresh(completedPhases.arr)
      ensures var s := StoppedAt(env, old(Model()), stopPhaseIndex);
              Performed(Step(Persist(env, s), [], Written(env, s)))
    {
      hide Persist, Written, StoppedAt;
      RecordStopped(stopPhaseIndex);
      TryToPersistStatus();
    }

    method RecordStopped(stopPhaseIndex: nat)
      requires Valid() && stopPhaseIndex < |env.phases|
      modifies this`current, this`completedPhases, this`completed
      ensures Valid() && AllPhasesUntouched()
      ensures completedPhases.arr == allPhases.arr || fresh(completedPhases.arr)
      ensures Model() == StoppedAt(env, old(Model()), stopPhaseIndex)
    {
      current := current.(serviceState := ServiceFalse);
      allPhases.PrefixElems(stopPhaseIndex);
      completedPhases := allPhases.Prefix(stopPhaseIndex);
      completed := Names(env.phases)[..stopPhaseIndex];
      if stopPhaseIndex == 0 {
        current := current.(startAttempts := 0);
        var none := new string[0];
        completedPhases := Slice(none, 0, 0, 0);
        current := current.(clusterID := "", clusterRole := "", currentPhase := "", lastFailedPhase := "");
      }
    }

    /** The loop down the chain; it ends early at a kept certificate phase or at a failure. */
    method RunStopChain(lo: nat, force: bool, a: Answers) returns (skipped: bool, failed: bool)
      requires Valid() && Fits(env, a) && lo < |env.phases|
      modifies this`calls
      ensures var r := StopChain(env, old(Model()), a, lo, force, |env.phases| - 1, false);
              calls == old(calls) + r.calls && skipped == r.skipped && (!skipped ==> failed == r.failed)
    {
      hide StopChain;
      ghost var m := Model();
      ghost var whole := StopChain(env, m, a, lo, force, |env.phases| - 1, false);
      failed := false;
      var idx := |env.phases| - 1;
      while idx >= lo
        modifies this`calls
        invariant lo - 1 <= idx < |env.phases|
        invariant OwesStops(old(calls), whole, calls, StopChain(env, m, a, lo, force, idx, failed))
      {
        OwesStopsAfterPhase(env, m, a, lo, force, idx, failed, old(calls), whole, calls);
        if current.operation == StartOp && env.phases[idx].order == GEN_CERTS_ORDER {
          if current.failedStatusCheck != idx {
            return true, false;
          }
        }
        calls := calls + [StopCall(idx, a.stop[idx])];
        failed := !a.stop[idx];
        if failed && !force {
          return false, true;
        }
        idx := idx - 1;
      }
      StopChainDone(env, m, a, lo, force, failed);
      skipped := false;
    }

    /** Appending to the completed phases writes into the list of all phases, but only what is there already. */
    method Start(startPhaseIndex: nat, a: Answers) returns (lastPhase: nat, failed: bool)
      requires Valid() && Fits(env, a) && startPhaseIndex < |env.phases|
      modifies this, allPhases.arr
      ensures Valid() && AllPhasesUntouched()
      ensures lastPhase <= |env.phases| && completedPhases == allPhases.Prefix(lastPhase)
      ensures Performed(NodeletModel.Start(env, old(Model()), a, startPhaseIndex).step)
      ensures lastPhase == NodeletModel.Start(env, old(Model()), a, startPhaseIndex).last
      ensures failed == NodeletModel.Start(env, old(Model()), a, startPhaseIndex).failed
    {
      hide Persist, Written, StartChain, Names;
      allPhases.PrefixElems(startPhaseIndex);
      completedPhases := allPhases.Prefix(startPhaseIndex);
      completed := Names(env.phases)[..startPhaseIndex];
      ghost var m := Model();
      lastPhase, failed := RunStartChain(startPhaseIndex, a);
      ghost var chain := StartChain(env, m, a, startPhaseIndex).step;
      Associates(old(pubs), chain.pubs, Written(env, Model().(currentPhase := "")));
      current := current.(currentPhase := "");
      TryToPersistStatus();
    }

    method RunStartChain(from: nat, a: Answers) returns (lastPhase: nat, failed: bool)
      requires Valid() && Fits(env, a) && from < |env.phases| && completedPhases == allPhases.Prefix(from)
      modifies this`completedPhases, this`completed, this`current, this`calls, this`pubs, allPhases.arr
      ensures Valid() && AllPhasesUntouched()
      ensures lastPhase <= |env.phases| && completedPhases == allPhases.Prefix(lastPhase)
      ensures Performed(StartChain(env, old(Model()), a, from).step)
      ensures lastPhase == StartChain(env, old(Model()), a, from).last
      ensures failed == StartChain(env, old(Model()), a, from).failed
    {
      hide NodeletModel.StartPhase, StartChain;
      ghost var m := Model();
      ghost var whole := StartChain(env, m, a, from);
      lastPhase := from;
      while lastPhase < |env.phases|
        invariant from <= lastPhase <= |env.phases|
        invariant Valid() && AllPhasesUntouched() && completedPhases == allPhases.Prefix(lastPhase)
        invariant m == Model() && Owes(old(calls), old(pubs), whole, calls, pubs, StartChain(env, m, a, lastPhase))
      {
        OwesAfterPhase(env, m, a, lastPhase, old(calls), old(pubs), whole, calls, pubs);
        m := NodeletModel.StartPhase(env, m, a, lastPhase).st;
        failed := StartPhase(a, lastPhase);
        if failed {
          return;
        }
        lastPhase := lastPhase + 1;
      }
      OwesNothing(env, m, a, old(calls), old(pubs), whole, calls, pubs);
      failed := false;
    }

    /** The phase's name goes where the list of all phases already has it. */
    method RecordCompleted(i: nat)
      requires Valid() && i < |env.phases| && completedPhases == allPhases.Prefix(i)
      modifies this`completedPhases, this`completed, allPhases.arr
      ensures Valid() && AllPhasesUntouched()
      ensures completedPhases == allPhases.Prefix(i + 1) && completed == old(completed) + [env.phases[i].name]
    {
      hide Names;
      NameAt(env.phases, i);
      assert allPhases.Elems()[i] == Names(env.phases)[i];
      completedPhases := Append(completedPhases, env.phases[i].name);
      completed := completed + [env.phases[i].name];
      ghost var elems := allPhases.Elems();
      assert |elems| == |old(allPhases.Elems())|;
      assert forall k :: 0 <= k < |elems| ==> elems[k] == old(allPhases.Elems())[k];
    }

    method StartPhase(a: Answers, i: nat) returns (failed: bool)
      requires Valid() && Fits(env, a) && i < |env.phases| && completedPhases == allPhases.Prefix(i)
      modifies this`completedPhases, this`completed, this`current, this`calls, this`pubs, allPhases.arr
      ensures Valid() && AllPhasesUntouched()
      ensures failed == !a.start[i]
      ensures completedPhases == allPhases.Prefix(if failed then i else i + 1)
      ensures Performed(NodeletModel.StartPhase(env, old(Model()), a, i))
    {
      hide Persist, Written;
      var name := env.phases[i].name;
      current := current.(currentPhase := name);
      ghost var announced := Written(env, Model());
      TryToPersistStatus();
      calls := calls + [StartCall(i, a.start[i])];
      failed := !a.start[i];
      if failed {
        current := current.(lastFailedPhase := name);
      } else {
        RecordCompleted(i);
      }
      Associates(old(pubs), announced, Written(env, Model()));
      TryToPersistStatus();
    }

    /** The branch of the start handler that brings the chain down and up again. */
    method RestartService(a: Answers)
      requires Valid() && env.Usable() && Fits(env, a) && 0 <= current.failedStatusCheck < |env.phases|
      modifies this, allPhases.arr
      ensures Valid() && AllPhasesUntouched()
      ensures Performed(Restart(env, old(Model()), a))
    {
      hide Persist, Written, RestartDown, RestartUp;
      ghost var down, up := RestartDown(env, Model(), a), RestartUp(env, Model(), a).step;
      var failedStep, failed := BringDownAndUp(a);
      if failed {
        current := current.(serviceState := ServiceFalse, startFailStep := failedStep);
      } else {
        current := current.(startAttempts := 0, serviceState := ServiceTrue, lastFailedPhase := "",
                            startFailStep := -1);
      }
      Associates(old(pubs), down.pubs + up.pubs, Written(env, Model()));
      TryToPersistStatus();
    }

    method BringDownAndUp(a: Answers) returns (failedStep: nat, failed: bool)
      requires Valid() && env.Usable() && Fits(env, a) && 0 <= current.failedStatusCheck < |env.phases|
      modifies this, allPhases.arr
      ensures Valid() && AllPhasesUntouched()
      ensures var down, up := RestartDown(env, old(Model()), a), RestartUp(env, old(Model()), a);
              && Performed(Step(up.step.st, down.calls + up.step.calls, down.pubs + up.step.pubs))
              && failedStep == up.last && failed == up.failed
    {
      hide NodeletModel.Stop, NodeletModel.Start, FullRetry, RestartIndex;
      ghost var m := Model();
      var failedCheck := BringDown(a);
      failedStep, failed := Start(failedCheck, a);
      Associates(old(calls), RestartDown(env, m, a).calls, RestartUp(env, m, a).step.calls);
      Associates(old(pubs), RestartDown(env, m, a).pubs, RestartUp(env, m, a).step.pubs);
    }

    method BringDown(a: Answers) returns (failedCheck: int)
      requires Valid() && env.Usable() && Fits(env, a) && 0 <= current.failedStatusCheck < |env.phases|
      modifies this
      ensures Valid() && AllPhasesUntouched()
      ensures failedCheck == RestartIndex(env, old(Model()))
      ensures var down := RestartDown(env, old(Model()), a);
              Performed(down.(st := down.st.(clusterID := env.cfg.clusterID, clusterRole := env.cfg.clusterRole)))
    {
      hide NodeletModel.Stop, FullRetry, RestartIndex;
      failedCheck := CountAttempt();
      var _ := Stop(failedCheck, false, a);
      current := current.(clusterID := env.cfg.clusterID, clusterRole := env.cfg.clusterRole);
    }

    /** Counts the attempt and decides how far down it goes. */
    method CountAttempt() returns (failedCheck: int)
      requires env.Usable()
      modifies this`current
      ensures failedCheck == RestartIndex(env, old(Model()))
      ensures current == old(current).(startAttempts := old(current).startAttempts + 1)
    {
      failedCheck := current.failedStatusCheck;
      current := current.(startAttempts := current.startAttempts + 1);
      if current.startAttempts % env.cfg.fullRetryCount == 0 {
        failedCheck := 0;
      }
    }

    method HandleServiceStartState(a: Answers)
      requires Valid() && env.Usable() && Fits(env, a) && 0 <= current.failedStatusCheck < |env.phases|
      modifies this, allPhases.arr
      ensures Valid() && AllPhasesUntouched()
      ensures Performed(HandleStart(env, old(Model()), a))
    {
      hide Persist, Written, Restart;
      if env.cfg.disableScripts {
        return;
      }
      current := current.(operation := StartOp);
      if current.kubeRunning && ((current.clusterID == env.cfg.clusterID && current.clusterRole == env.cfg.clusterRole)
                         || (current.clusterRole == ROLE_NONE && current.clusterID == "")) {
        current := current.(startAttempts := 0, serviceState := ServiceTrue, startFailStep := -1);
        completedPhases := allPhases;
        completed := Names(env.phases);
        TryToPersistStatus();
      } else {
        RestartService(a);
      }
    }

    method HandleServiceStopState(a: Answers)
      requires Valid() && env.Usable() && Fits(env, a)
      modifies this
      ensures Valid() && AllPhasesUntouched()
      ensures Performed(HandleStop(env, old(Model()), a))
    {
      current := current.(operation := StopOp);
      if env.cfg.disableScripts {
        return;
      }
      if current.kubeRunning {
        var _ := Stop(0, false, a);
        current := current.(startFailStep := -1);
      }
    }

    method Reconcile(a: Answers)
      requires Valid() && env.Usable() && Fits(env, a) && InRange(env, Model())
      modifies this, allPhases.arr
      ensures Valid() && AllPhasesUntouched()
      ensures Performed(NodeletModel.Reconcile(env, old(Model()), a))
    {
      hide Persist, Written, StatusPass, HandleStart, HandleStop;
      ghost var status := StatusPass(env, Model(), a);
      ghost var handled := Handle(env, status.st, a);
      Status(a);
      match env.cfg.kubeServiceState {
        case ServiceTrue => HandleServiceStartState(a);
        case ServiceFalse => HandleServiceStopState(a);
        case ServiceOther(_) =>
      }
      Associates(old(calls), status.calls, handled.calls);
      Associates(old(pubs), status.pubs, handled.pubs);
      Associates(old(pubs), status.pubs + handled.pubs, Written(env, Model()));
      TryToPersistStatus();
    }

    /** The whole process: one write, a reset when no cluster is set, then one iteration after the other. */
    method Run(ghost file: Loaded, its: seq<Answers>)
      requires Valid() && env.Usable() && Model() == Construct(env, file) && forall a :: a in its ==> Fits(env, a)
      modifies this, allPhases.arr
      ensures Valid() && AllPhasesUntouched()
      ensures InRange(env, Boot(env, file))
      ensures var r := NodeletRuns.Run(env, Boot(env, file), its);
              && Model() == r.st && calls == old(calls) + r.calls
              && pubs == old(pubs) + Written(env, Construct(env, file)) + r.pubs
    {
      hide NodeletModel.Reconcile, Written, NodeletRuns.Run;
      Announce(file);
      ghost var boot, begun := Model(), pubs;
      NothingRun(env, boot, its);
      var i := 0;
      while i < |its|
        invariant 0 <= i <= |its|
        invariant Valid() && AllPhasesUntouched()
        invariant var r := NodeletRuns.Run(env, boot, its[..i]);
                  Model() == r.st && calls == old(calls) + r.calls && pubs == begun + r.pubs
      {
        ghost var before, t := NodeletRuns.Run(env, boot, its[..i]), NodeletModel.Reconcile(env, Model(), its[i]);
        NodeletRetries.RunSplitsLast(env, boot, its, i);
        Reconcile(its[i]);
        Associates(old(calls), before.calls, t.calls);
        Associates(begun, before.pubs, t.pubs);
        i := i + 1;
      }
      assert its[..i] == its;
    }

    method Announce(ghost file: Loaded)
      requires Valid() && env.Usable() && Model() == Construct(env, file)
      modifies this`current, this`pubs
      ensures Model() == Boot(env, file) && InRange(env, Model())
      ensures pubs == old(pubs) + Written(env, Construct(env, file))
    {
      TryToPersistStatus();
      if env.cfg.clusterID == "" {
        current := current.(nodeState := Ok, startAttempts := 0);
      }
    }
  }

  lemma NothingRun(e: Env, s: State, its: seq<Answers>)
    requires e.Usable() && InRange(e, s) && forall a :: a in its ==> Fits(e, a)
    ensures NodeletRuns.Run(e, s, its[..0]) == Step(s, [], [])
  {
  }
}
