/** The command line's way into the phases: checked indices and the choice about certificates. */
module PhaseCommands {
  import opened Sequences
  import opened Phases
  import opened NodeletModel
  import opened NodeletObject
  import opened NodeletRetries
  import opened NodeletOutcomes

  /** The state in which a restart command calls Stop. */
  function RestartCommandState(e: Env, file: Loaded, regenCerts: bool): State {
    var s := Construct(e, file);
    if regenCerts then s else s.(operation := StartOp, failedStatusCheck := -1)
  }

  class PhasesOptions {
    var phase: int
    const single: bool
    const force: bool
    const nodelet: Nodelet

    constructor (phase: int, single: bool, force: bool, nodelet: Nodelet)
      ensures this.phase == phase && this.single == single && this.force == force && this.nodelet == nodelet
    {
      this.phase := phase;
      this.single := single;
      this.force := force;
      this.nodelet := nodelet;
    }

    /**
     Accepts numbers from 0 to the number of phases and turns them into indices. The index is good for
     every accepted number unless there is no phase at all, as for an unknown role.
     */
    method Validate(checkAgents: bool, agentsRunning: bool) returns (ok: bool)
      modifies this`phase
      ensures ok <==> !(checkAgents && agentsRunning) && 0 <= old(phase) <= |nodelet.env.phases|
      ensures ok ==> phase == (if old(phase) > 0 then old(phase) - 1 else 0)
      ensures ok ==> (0 <= phase < |nodelet.env.phases| <==> nodelet.env.phases != [])
      ensures !ok ==> phase == old(phase)
    {
      if checkAgents && agentsRunning {
        return false;
      }
      if phase > |nodelet.env.phases| || phase < 0 {
        return false;
      }
      if phase > 0 {
        phase := phase - 1;
      }
      return true;
    }

    /** What a phase alone is made to do, in order; its recorded state is left as it was. */
    ghost function SingleCalls(a: Answers): seq<Call>
      requires Fits(nodelet.env, a) && 0 <= phase < |nodelet.env.phases|
      reads this
    {
      [StopCall(phase, a.stop[phase]), StartCall(phase, a.start[phase])]
    }

    /** The phase alone, or the chain down to it and up from it, whatever stopping answers. */
    method Restart(a: Answers, reportsStopped: bool, reportsFailed: bool) returns (failed: bool)
      requires nodelet.Valid() && Fits(nodelet.env, a) && 0 <= phase < |nodelet.env.phases|
      modifies nodelet, nodelet.allPhases.arr
      ensures nodelet.Valid() && nodelet.AllPhasesUntouched()
      ensures single ==> nodelet.Performed(Step(old(nodelet.Model()), SingleCalls(a), [])) && failed == reportsFailed
      ensures !single ==>
                var down := Stop(nodelet.env, old(nodelet.Model()), a, phase, force).step;
                var up := Start(nodelet.env, down.st, a, phase);
                && nodelet.Performed(Step(up.step.st, down.calls + up.step.calls, down.pubs + up.step.pubs))
                && failed == up.failed
    {
      if single {
        var _ := nodelet.StopSinglePhase(phase, a, reportsStopped);
        failed := nodelet.StartSinglePhase(phase, a, reportsFailed);
      } else {
        failed := RestartChain(a);
      }
    }

    method RestartChain(a: Answers) returns (failed: bool)
      requires nodelet.Valid() && Fits(nodelet.env, a) && 0 <= phase < |nodelet.env.phases|
      modifies nodelet, nodelet.allPhases.arr
      ensures nodelet.Valid() && nodelet.AllPhasesUntouched()
      ensures var down := Stop(nodelet.env, old(nodelet.Model()), a, phase, force).step;
              var up := Start(nodelet.env, down.st, a, phase);
              && nodelet.Performed(Step(up.step.st, down.calls + up.step.calls, down.pubs + up.step.pubs))
              && failed == up.failed
    {
      hide Stop, Start;
      ghost var down := Stop(nodelet.env, nodelet.Model(), a, phase, force).step;
      ghost var up := Start(nodelet.env, down.st, a, phase).step;
      var _ := nodelet.Stop(phase, force, a);
      var _, startFailed := nodelet.Start(phase, a);
      Associates(old(nodelet.calls), down.calls, up.calls);
      Associates(old(nodelet.pubs), down.pubs, up.pubs);
      failed := startFailed;
    }
  }

  /** A restart command drops the certificates only when asked to and when its way down reaches them. */
  lemma CommandDropsCertsExactly(e: Env, file: Loaded, a: Answers, lo: nat, force: bool, regenCerts: bool)
    requires Fits(e, a) && lo < |e.phases| && GenCertsFirst(e.phases)
    ensures CertsStopped(Stop(e, RestartCommandState(e, file, regenCerts), a, lo, force).step.calls)
            <==> regenCerts && lo == 0 && (force || StopsWorkAbove(a, 0, |e.phases| - 1))
  {
    var s := RestartCommandState(e, file, regenCerts);
    if lo == 0 {
      StopChainReachesCerts(e, s, a, force, |e.phases| - 1, false);
    } else {
      StopChainBounds(e, s, a, lo, force, |e.phases| - 1, false);
    }
  }
}
