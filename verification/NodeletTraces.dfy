/** The order in which phases are brought up and torn down, over the whole history of calls. */
module NodeletTraces {
  import opened Sequences
  import opened NodeletModel
  import opened NodeletRuns

  datatype Latest = Never | Latest(call: Call)

  /** The most recent call made on phase `j`. */
  function LatestOn(calls: seq<Call>, j: nat): Latest {
    if calls == [] then Never
    else
      var c := calls[|calls| - 1];
      if c.phase == j then Latest(c) else LatestOn(calls[..|calls| - 1], j)
  }

  /** The phase was last heard of starting well or passing its check. */
  ghost predicate Live(calls: seq<Call>, j: nat) {
    LatestOn(calls, j) in {Latest(StartCall(j, true)), Latest(StatusCall(j, true))}
  }

  /** The last thing done to the phase was to stop it, and that worked. */
  ghost predicate Down(calls: seq<Call>, j: nat) {
    LatestOn(calls, j) == Latest(StopCall(j, true))
  }

  /** A phase is started only on top of live phases and stopped only beneath stopped ones. */
  ghost predicate Allowed(n: nat, before: seq<Call>, c: Call) {
    match c
    case StatusCall(_, _) => true
    case StartCall(i, _) => forall j :: 0 <= j < i ==> Live(before, j)
    case StopCall(i, _) => forall j :: i < j < n ==> Down(before, j)
  }

  ghost predicate Ordered(n: nat, calls: seq<Call>) {
    forall p :: 0 <= p < |calls| ==> Allowed(n, calls[..p], calls[p])
  }

  lemma OrderedSnoc(n: nat, calls: seq<Call>, c: Call)
    requires Ordered(n, calls) && Allowed(n, calls, c)
    ensures Ordered(n, calls + [c])
  {
    var all := calls + [c];
    forall p | 0 <= p < |all| ensures Allowed(n, all[..p], all[p]) {
      assert all[..p] == calls[..p];
      assert p == |calls| ==> calls[..p] == calls;
    }
  }

  lemma LatestSnoc(calls: seq<Call>, c: Call)
    ensures LatestOn(calls + [c], c.phase) == Latest(c)
    ensures forall j: nat :: j != c.phase ==> (Live(calls + [c], j) <==> Live(calls, j))
    ensures forall j: nat :: j != c.phase ==> (Down(calls + [c], j) <==> Down(calls, j))
  {
  }

  /** A status pass leaves every checked phase before the first failure live. */
  lemma {:induction false} StatusOrdered(n: nat, before: seq<Call>, ok: seq<bool>, k: nat)
    requires Ordered(n, before) && k <= |StatusCalls(ok)|
    ensures Ordered(n, before + StatusCalls(ok)[..k])
    ensures forall j: nat :: j < k && j < FirstFailure(ok, 0) ==> Live(before + StatusCalls(ok)[..k], j)
  {
    var calls := StatusCalls(ok);
    if k == 0 {
      assert before + calls[..0] == before;
    } else {
      StatusOrdered(n, before, ok, k - 1);
      var shorter := before + calls[..k - 1];
      assert before + calls[..k] == shorter + [calls[k - 1]];
      OrderedSnoc(n, shorter, calls[k - 1]);
      LatestSnoc(shorter, calls[k - 1]);
    }
  }

  lemma {:induction false} StopChainOrdered(e: Env, s: State, a: Answers, lo: nat, idx: int, failed: bool,
                                            before: seq<Call>)
    requires Fits(e, a) && lo <= idx + 1 <= |e.phases|
    requires Ordered(|e.phases|, before)
    requires forall j :: idx < j < |e.phases| ==> Down(before, j)
    ensures Ordered(|e.phases|, before + StopChain(e, s, a, lo, false, idx, failed).calls)
    ensures forall j: nat :: j < lo ==>
              (Live(before + StopChain(e, s, a, lo, false, idx, failed).calls, j) <==> Live(before, j))
    decreases idx + 1
  {
    var calls := StopChain(e, s, a, lo, false, idx, failed).calls;
    if idx < lo || SkipsCerts(e, s, idx) {
      assert before + calls == before;
    } else {
      var c := StopCall(idx, a.stop[idx]);
      OrderedSnoc(|e.phases|, before, c);
      LatestSnoc(before, c);
      if a.stop[idx] {
        StopChainOrdered(e, s, a, lo, idx - 1, false, before + [c]);
        assert before + calls == (before + [c]) + StopChain(e, s, a, lo, false, idx - 1, false).calls;
      }
    }
  }

  lemma {:induction false} StartCallsOrdered(ok: seq<bool>, i: nat, before: seq<Call>)
    requires i <= |ok| && Ordered(|ok|, before)
    requires forall j: nat :: j < i ==> Live(before, j)
    ensures Ordered(|ok|, before + StartCalls(ok, i))
    ensures forall j: nat :: j < FirstFailure(ok, i) ==> Live(before + StartCalls(ok, i), j)
    decreases |ok| - i
  {
    if i == |ok| {
      assert before + StartCalls(ok, i) == before;
    } else {
      var c := StartCall(i, ok[i]);
      OrderedSnoc(|ok|, before, c);
      LatestSnoc(before, c);
      if ok[i] {
        StartCallsOrdered(ok, i + 1, before + [c]);
        Associates(before, [c], StartCalls(ok, i + 1));
      }
    }
  }

  /** After a failed start, everything below the failed phase is live. */
  ghost predicate LiveBelowFailure(s: State, calls: seq<Call>) {
    forall j: nat :: j < s.startFailStep ==> Live(calls, j)
  }

  lemma RestartOrdered(e: Env, s: State, a: Answers, before: seq<Call>)
    requires e.Usable() && Fits(e, a) && 0 <= s.failedStatusCheck < |e.phases|
    requires Ordered(|e.phases|, before)
    requires forall j: nat :: j < s.failedStatusCheck ==> Live(before, j)
    ensures Ordered(|e.phases|, before + Restart(e, s, a).calls)
    ensures LiveBelowFailure(Restart(e, s, a).st, before + Restart(e, s, a).calls)
  {
    hide Persist, Written, FullRetry, Ordered, Live, Start, Stop;
    var from := RestartIndex(e, s);
    var down := RestartDown(e, s, a);
    StopChainOrdered(e, s.(startAttempts := s.startAttempts + 1), a, from, |e.phases| - 1, false, before);
    StartCallsOrdered(a.start, from, before + down.calls);
    Associates(before, down.calls, StartCalls(a.start, from));
  }

  lemma HandleOrdered(e: Env, s: State, a: Answers, before: seq<Call>)
    requires e.Usable() && Fits(e, a) && 0 <= s.failedStatusCheck < |e.phases|
    requires Ordered(|e.phases|, before) && LiveBelowFailure(s, before)
    requires forall j: nat :: j < s.failedStatusCheck ==> Live(before, j)
    ensures Ordered(|e.phases|, before + Handle(e, s, a).calls)
    ensures LiveBelowFailure(Handle(e, s, a).st, before + Handle(e, s, a).calls)
  {
    var r := Handle(e, s, a);
    if e.cfg.disableScripts || e.cfg.kubeServiceState.ServiceOther? {
      assert before + r.calls == before;
    } else if e.cfg.kubeServiceState == ServiceTrue {
      var t := s.(operation := StartOp);
      if Settled(e, t) {
        assert before + r.calls == before;
      } else {
        RestartOrdered(e, t, a, before);
      }
    } else if !s.kubeRunning {
      assert before + r.calls == before;
    } else {
      StopChainOrdered(e, s.(operation := StopOp), a, 0, |e.phases| - 1, false, before);
    }
  }

  lemma StatusPassOrdered(e: Env, s: State, a: Answers, before: seq<Call>)
    requires e.Usable() && Fits(e, a) && InRange(e, s)
    requires Ordered(|e.phases|, before) && LiveBelowFailure(s, before)
    ensures Ordered(|e.phases|, before + StatusPass(e, s, a).calls)
    ensures LiveBelowFailure(StatusPass(e, s, a).st, before + StatusPass(e, s, a).calls)
    ensures var r := StatusPass(e, s, a);
            forall j: nat :: j < r.st.failedStatusCheck ==> Live(before + r.calls, j)
  {
    hide Persist, Written, Ordered, Live;
    if s.startFailStep != -1 || e.cfg.disableScripts {
      assert before + StatusPass(e, s, a).calls == before;
    } else {
      StatusOrdered(|e.phases|, before, a.status, |StatusCalls(a.status)|);
      assert StatusCalls(a.status)[..|StatusCalls(a.status)|] == StatusCalls(a.status);
    }
  }

  lemma ReconcileOrdered(e: Env, s: State, a: Answers, before: seq<Call>)
    requires e.Usable() && Fits(e, a) && InRange(e, s)
    requires Ordered(|e.phases|, before) && LiveBelowFailure(s, before)
    ensures Ordered(|e.phases|, before + Reconcile(e, s, a).calls)
    ensures LiveBelowFailure(Reconcile(e, s, a).st, before + Reconcile(e, s, a).calls)
  {
    var status := StatusPass(e, s, a);
    StatusPassOrdered(e, s, a, before);
    HandleOrdered(e, status.st, a, before + status.calls);
    Associates(before, status.calls, Handle(e, status.st, a).calls);
  }

  /** In every run, phases are brought up bottom to top and torn down top to bottom. */
  lemma {:induction false} RunOrdered(e: Env, file: Loaded, its: seq<Answers>)
    requires e.Usable() && forall a :: a in its ==> Fits(e, a)
    ensures Ordered(|e.phases|, Run(e, Boot(e, file), its).calls)
    ensures LiveBelowFailure(Run(e, Boot(e, file), its).st, Run(e, Boot(e, file), its).calls)
  {
    if its != [] {
      RunOrdered(e, file, its[..|its| - 1]);
      var r := Run(e, Boot(e, file), its[..|its| - 1]);
      ReconcileOrdered(e, r.st, its[|its| - 1], r.calls);
    }
  }
}
