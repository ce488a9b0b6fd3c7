/**
 The reconciler on values: what one call of Status, Stop, Start and Reconcile does to the
 node's state, which phase operations it calls in which order, and which snapshots of the
 state it writes to the extension file. The phases are an adversary: every answer they may
 give in one iteration is a parameter.
 */
module NodeletModel {
  import opened Phases

  datatype ServiceState = ServiceTrue | ServiceFalse | ServiceOther(text: string)
  datatype NodeState = Ok | Converging | Retrying | Failed | NodeOther(text: string)
  datatype Operation = StartOp | StopOp | StatusOp

  const NUM_RETRIES_FOR_ERROR_STATE := 10
  const NANOSECONDS := 1_000_000_000

  datatype Config = Config(
    kubeServiceState: ServiceState,
    clusterRole: string,
    clusterID: string,
    fullRetryCount: int,
    thresholdSeconds: int,
    disableScripts: bool,
    disableExtFile: bool)

  /** What stays fixed while the process runs: its configuration and its phases. */
  datatype Env = Env(phases: seq<Phase>, cfg: Config) {
    // The source divides by the retry count and looks at phases[0].
    predicate Usable() {
      0 < |phases| && cfg.fullRetryCount != 0
    }
  }

  /** The fields of ExtensionData that the reconciler reads back or reports. */
  datatype State = State(
    serviceState: ServiceState,
    nodeState: NodeState,
    startAttempts: int,
    clusterID: string,
    clusterRole: string,
    completed: seq<string>,
    currentPhase: string,
    lastFailedPhase: string,
    operation: Operation,
    kubeRunning: bool,
    failedStatusCheck: int,
    lastSuccessfulStatus: int,
    startFailStep: int)

  /** What the phases answer in one iteration (true is success) and the clock in nanoseconds. */
  datatype Answers = Answers(status: seq<bool>, stop: seq<bool>, start: seq<bool>, clock: int)

  ghost predicate Fits(e: Env, a: Answers) {
    |a.status| == |a.stop| == |a.start| == |e.phases|
  }

  datatype Call =
    | StatusCall(phase: nat, ok: bool)
    | StopCall(phase: nat, ok: bool)
    | StartCall(phase: nat, ok: bool)

  /** A new state, the phase operations called on the way and the snapshots written. */
  datatype Step = Step(st: State, calls: seq<Call>, pubs: seq<State>)

  // ---- Extension file -------------------------------------------------------------------

  /** The node state that a write of the extension file reports. */
  function ReportedNodeState(cfg: Config, s: State): NodeState {
    if s.serviceState == ServiceTrue then Ok
    else if (cfg.kubeServiceState == ServiceTrue && !s.kubeRunning)
         || (cfg.kubeServiceState == ServiceFalse && s.kubeRunning) then
      if s.startAttempts == 1 then Converging
      else if 1 < s.startAttempts <= NUM_RETRIES_FOR_ERROR_STATE then Retrying
      else if s.startAttempts > NUM_RETRIES_FOR_ERROR_STATE then Failed
      else s.nodeState
    else if cfg.kubeServiceState == ServiceTrue || cfg.kubeServiceState == ServiceFalse then Ok
    else s.nodeState
  }

  function Persist(e: Env, s: State): (t: State)
    ensures t == s.(nodeState := t.nodeState)
  {
    if e.cfg.disableExtFile then s else s.(nodeState := ReportedNodeState(e.cfg, s))
  }

  function Written(e: Env, s: State): seq<State> {
    if e.cfg.disableExtFile then [] else [Persist(e, s)]
  }

  /** What an extension file left by an earlier process may hold. */
  datatype Loaded = Loaded(nodeState: NodeState, startAttempts: int, clusterID: string, clusterRole: string,
                           currentPhase: string, lastFailedPhase: string)

  /** The state a fresh process begins with, before its first write. */
  function Construct(e: Env, file: Loaded): State {
    var l := if e.cfg.disableExtFile then Loaded(Converging, 1, "", "", "", "")
             else if file.nodeState == Ok then file.(nodeState := Converging, startAttempts := 1)
             else file;
    State(ServiceFalse, l.nodeState, l.startAttempts, l.clusterID, l.clusterRole, [], l.currentPhase,
          l.lastFailedPhase, StopOp, false, 0, 0, -1)
  }

  /** The state at the start of the reconciliation loop: one write, then a reset when no cluster is set. */
  function Boot(e: Env, file: Loaded): State {
    var s := Persist(e, Construct(e, file));
    if e.cfg.clusterID == "" then s.(nodeState := Ok, startAttempts := 0) else s
  }

  // ---- Status ---------------------------------------------------------------------------

  /** The first index from `i` on whose answer is a failure, or the number of answers. */
  function FirstFailure(ok: seq<bool>, i: nat): (f: nat)
    requires i <= |ok|
    ensures i <= f <= |ok|
    ensures forall j :: i <= j < f ==> ok[j]
    ensures f < |ok| ==> !ok[f]
    decreases |ok| - i
  {
    if i < |ok| && ok[i] then FirstFailure(ok, i + 1) else i
  }

  ghost predicate AllTrue(ok: seq<bool>) {
    forall i :: 0 <= i < |ok| ==> ok[i]
  }

  /** Whether a status pass finds no failing check; with scripts disabled it runs none. */
  ghost predicate ChecksPass(e: Env, a: Answers) {
    e.cfg.disableScripts || AllTrue(a.status)
  }

  function StatusCalls(ok: seq<bool>): seq<Call> {
    var f := FirstFailure(ok, 0);
    seq(if f < |ok| then f + 1 else f, i requires 0 <= i => StatusCall(i, i < f))
  }

  function StatusPass(e: Env, s: State, a: Answers): (r: Step)
    requires Fits(e, a)
    ensures InRange(e, s) && 0 < |e.phases| ==> 0 <= r.st.failedStatusCheck < |e.phases|
    ensures r.st == s.(operation := StatusOp, kubeRunning := r.st.kubeRunning, nodeState := r.st.nodeState,
                       failedStatusCheck := r.st.failedStatusCheck, lastSuccessfulStatus := r.st.lastSuccessfulStatus)
  {
    var s1 := s.(operation := StatusOp, kubeRunning := false);
    if s.startFailStep != -1 then
      Step(Persist(e, s1).(failedStatusCheck := s.startFailStep), [], Written(e, s1))
    else
      var f := FirstFailure(a.status, 0);
      var s2 := Persist(e, s1);
      if e.cfg.disableScripts || f == |a.status| then
        Step(s2.(kubeRunning := true, failedStatusCheck := 0, lastSuccessfulStatus := a.clock),
             if e.cfg.disableScripts then [] else StatusCalls(a.status), Written(e, s1))
      else
        var s3 :=
          if s.serviceState == ServiceTrue then
            if a.clock - s.lastSuccessfulStatus < e.cfg.thresholdSeconds * NANOSECONDS
            then s2.(kubeRunning := true, failedStatusCheck := 0)
            else s2.(failedStatusCheck := f)
          else s2.(failedStatusCheck := 0, lastSuccessfulStatus := a.clock);
        Step(s3, StatusCalls(a.status), Written(e, s1))
  }

  // ---- Stop -----------------------------------------------------------------------------

  /** A restart keeps the certificates unless their own status check failed. */
  predicate SkipsCerts(e: Env, s: State, idx: nat)
    requires idx < |e.phases|
  {
    s.operation == StartOp && e.phases[idx].order == GEN_CERTS_ORDER && s.failedStatusCheck != idx
  }

  datatype StopChainResult = StopChainResult(calls: seq<Call>, skipped: bool, failed: bool)

  /** The calls made by walking down from `idx` to `lo`, after a call that did or did not fail. */
  function StopChain(e: Env, s: State, a: Answers, lo: nat, force: bool, idx: int, failed: bool): StopChainResult
    requires Fits(e, a) && lo <= idx + 1 <= |e.phases|
    decreases idx + 1
  {
    if idx < lo then StopChainResult([], false, failed)
    else if SkipsCerts(e, s, idx) then StopChainResult([], true, false)
    else if !a.stop[idx] && !force then StopChainResult([StopCall(idx, false)], false, true)
    else
      var r := StopChain(e, s, a, lo, force, idx - 1, !a.stop[idx]);
      r.(calls := [StopCall(idx, a.stop[idx])] + r.calls)
  }

  /** What is recorded once the chain is down to `lo`; a complete stop forgets the attempts and the identity. */
  function StoppedAt(e: Env, s: State, lo: nat): State
    requires lo < |e.phases|
  {
    var s1 := s.(serviceState := ServiceFalse, completed := Names(e.phases)[..lo]);
    if lo == 0
    then s1.(startAttempts := 0, clusterID := "", clusterRole := "", currentPhase := "", lastFailedPhase := "")
    else s1
  }

  datatype StopResult = StopResult(step: Step, failed: bool)

  function Stop(e: Env, s: State, a: Answers, lo: nat, force: bool): (r: StopResult)
    requires Fits(e, a) && lo < |e.phases|
    ensures r.step.calls == StopChain(e, s, a, lo, force, |e.phases| - 1, false).calls
    ensures r.step.st.kubeRunning == s.kubeRunning && r.step.st.lastSuccessfulStatus == s.lastSuccessfulStatus
    ensures r.step.st.operation == s.operation && r.step.st.failedStatusCheck == s.failedStatusCheck
    ensures r.step.st.startFailStep == s.startFailStep
  {
    var r := StopChain(e, s, a, lo, force, |e.phases| - 1, false);
    if r.skipped then StopResult(Step(s, r.calls, []), false)
    else
      var s1 := StoppedAt(e, s, lo);
      StopResult(Step(Persist(e, s1), r.calls, Written(e, s1)), r.failed)
  }

  // ---- Start ----------------------------------------------------------------------------

  datatype StartResult = StartResult(step: Step, last: nat, failed: bool)

  /** Starting phases changes what is reported about them and nothing else. */
  ghost predicate ReportOnly(s: State, t: State) {
    t == s.(completed := t.completed, currentPhase := t.currentPhase, lastFailedPhase := t.lastFailedPhase,
            nodeState := t.nodeState)
  }

  /** Starting one phase: announce it, call it, then record it as completed or as failed. */
  function StartPhase(e: Env, s: State, a: Answers, i: nat): (r: Step)
    requires Fits(e, a) && i < |e.phases|
    ensures ReportOnly(s, r.st)
    ensures r.st.completed == if a.start[i] then s.completed + [e.phases[i].name] else s.completed
    ensures !a.start[i] ==> r.st.lastFailedPhase == e.phases[i].name
  {
    var name := e.phases[i].name;
    var s1 := s.(currentPhase := name);
    var s2 := if a.start[i] then Persist(e, s1).(completed := s.completed + [name])
              else Persist(e, s1).(lastFailedPhase := name);
    Step(Persist(e, s2), [StartCall(i, a.start[i])], Written(e, s1) + Written(e, s2))
  }

  /** The calls of a start chain depend on the answers alone. */
  function StartCalls(ok: seq<bool>, i: nat): seq<Call>
    requires i <= |ok|
    decreases |ok| - i
  {
    if i == |ok| then []
    else if !ok[i] then [StartCall(i, false)]
    else [StartCall(i, true)] + StartCalls(ok, i + 1)
  }

  function StartChain(e: Env, s: State, a: Answers, i: nat): (r: StartResult)
    requires Fits(e, a) && i <= |e.phases|
    ensures r.last == FirstFailure(a.start, i)
    ensures r.failed <==> r.last < |e.phases|
    ensures r.step.calls == StartCalls(a.start, i)
    ensures ReportOnly(s, r.step.st)
    ensures r.failed ==> r.step.st.lastFailedPhase == e.phases[r.last].name
    decreases |e.phases| - i
  {
    if i == |e.phases| then StartResult(Step(s, [], []), i, false)
    else
      var p := StartPhase(e, s, a, i);
      if !a.start[i] then StartResult(p, i, true)
      else
        var r := StartChain(e, p.st, a, i + 1);
        r.(step := Step(r.step.st, p.calls + r.step.calls, p.pubs + r.step.pubs))
  }

  function Start(e: Env, s: State, a: Answers, from: nat): (r: StartResult)
    requires Fits(e, a) && from < |e.phases|
    ensures r.last == FirstFailure(a.start, from)
    ensures r.failed <==> r.last < |e.phases|
    ensures r.step.calls == StartCalls(a.start, from)
    ensures ReportOnly(s, r.step.st)
    ensures r.failed ==> r.step.st.lastFailedPhase == e.phases[r.last].name
  {
    var r := StartChain(e, s.(completed := Names(e.phases)[..from]), a, from);
    var s1 := r.step.st.(currentPhase := "");
    r.(step := Step(Persist(e, s1), r.step.calls, r.step.pubs + Written(e, s1)))
  }

  // ---- Reconcile ------------------------------------------------------------------------

  /** Whether the reconciler takes the node as running what is asked of it. */
  predicate Settled(e: Env, s: State) {
    && s.kubeRunning
    && ((s.clusterID == e.cfg.clusterID && s.clusterRole == e.cfg.clusterRole)
        || (s.clusterRole == ROLE_NONE && s.clusterID == ""))
  }

  /** Whether the attempt with this number restarts the whole chain. */
  predicate FullRetryDue(e: Env, attempt: int)
    requires e.Usable()
  {
    attempt % e.cfg.fullRetryCount == 0
  }

  predicate FullRetry(e: Env, s: State)
    requires e.Usable()
  {
    FullRetryDue(e, s.startAttempts + 1)
  }

  /** The phase a restart goes down to and up from. */
  function RestartIndex(e: Env, s: State): (i: int)
    requires e.Usable()
    ensures i == 0 || i == s.failedStatusCheck
  {
    if FullRetry(e, s) then 0 else s.failedStatusCheck
  }

  /** The way down of a restart, on the attempt it counts. */
  function RestartDown(e: Env, s: State, a: Answers): Step
    requires e.Usable() && Fits(e, a) && 0 <= s.failedStatusCheck < |e.phases|
  {
    Stop(e, s.(startAttempts := s.startAttempts + 1), a, RestartIndex(e, s), false).step
  }

  /** The way up of a restart, under the configured identity. */
  function RestartUp(e: Env, s: State, a: Answers): StartResult
    requires e.Usable() && Fits(e, a) && 0 <= s.failedStatusCheck < |e.phases|
  {
    var down := RestartDown(e, s, a).st;
    Start(e, down.(clusterID := e.cfg.clusterID, clusterRole := e.cfg.clusterRole), a, RestartIndex(e, s))
  }

  function Restart(e: Env, s: State, a: Answers): Step
    requires e.Usable() && Fits(e, a) && 0 <= s.failedStatusCheck < |e.phases|
  {
    var down := RestartDown(e, s, a);
    var up := RestartUp(e, s, a);
    var s1 := if up.failed
              then up.step.st.(serviceState := ServiceFalse, startFailStep := up.last)
              else up.step.st.(startAttempts := 0, serviceState := ServiceTrue, lastFailedPhase := "",
                               startFailStep := -1);
    Step(Persist(e, s1), down.calls + up.step.calls, down.pubs + up.step.pubs + Written(e, s1))
  }

  function HandleStart(e: Env, s: State, a: Answers): Step
    requires e.Usable() && Fits(e, a)
    requires 0 <= s.failedStatusCheck < |e.phases|
  {
    if e.cfg.disableScripts then Step(s, [], [])
    else
      var s1 := s.(operation := StartOp);
      if Settled(e, s1) then
        var s2 := s1.(startAttempts := 0, serviceState := ServiceTrue, startFailStep := -1,
                      completed := Names(e.phases));
        Step(Persist(e, s2), [], Written(e, s2))
      else Restart(e, s1, a)
  }

  function HandleStop(e: Env, s: State, a: Answers): Step
    requires e.Usable() && Fits(e, a)
  {
    var s1 := s.(operation := StopOp);
    if e.cfg.disableScripts || !s.kubeRunning then Step(s1, [], [])
    else
      var down := Stop(e, s1, a, 0, false).step;
      Step(down.st.(startFailStep := -1), down.calls, down.pubs)
  }

  /** A fail step names a phase, so the status pass hands on an index in range. */
  ghost predicate InRange(e: Env, s: State) {
    -1 <= s.startFailStep < |e.phases|
  }

  function Handle(e: Env, s: State, a: Answers): Step
    requires e.Usable() && Fits(e, a)
    requires 0 <= s.failedStatusCheck < |e.phases|
  {
    match e.cfg.kubeServiceState
    case ServiceTrue => HandleStart(e, s, a)
    case ServiceFalse => HandleStop(e, s, a)
    case ServiceOther(_) => Step(s, [], [])
  }

  function Reconcile(e: Env, s: State, a: Answers): (r: Step)
    requires e.Usable() && Fits(e, a) && InRange(e, s)
    ensures InRange(e, r.st)
  {
    var status := StatusPass(e, s, a);
    var handled := Handle(e, status.st, a);
    Step(Persist(e, handled.st), status.calls + handled.calls, status.pubs + handled.pubs + Written(e, handled.st))
  }
}
