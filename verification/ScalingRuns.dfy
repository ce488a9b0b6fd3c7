/** What holds at every moment of a scale run. */
module ScalingRuns {
  import opened Options
  import opened DiffNodes
  import opened Scaling

  // ---- What an observer of etcd sees ----------------------------------------------------

  /**
   `unsynced` and `synced` are the addresses that joined in this run, `removed` those that left; `curr` are the
   current masters, and `coming` is the one that is being added.
   */
  datatype Watch = Watch(members: Members, unsynced: set<string>, synced: set<string>, removed: set<string>,
                         curr: seq<Host>, coming: Option<Host>)

  function Begin(members: Members, curr: seq<Host>): Watch {
    Watch(members, {}, {}, {}, curr, None)
  }

  function Observe(w: Watch, ev: Event): Watch {
    match ev
    case Rendered(h, _) => w.(coming := Some(h))
    case MemberAdded(ip) => w.(members := w.members[ip := UNNAMED], unsynced := w.unsynced + {ip})
    case MemberStarted(ip, name) => w.(members := w.members[ip := name])
    case Synced(ip) =>
      w.(unsynced := w.unsynced - {ip}, synced := w.synced + {ip},
         curr := w.curr + if w.coming.Some? then [w.coming.value] else [])
    case MemberRemoved(ip) => w.(members := w.members - {ip}, removed := w.removed + {ip})
    case _ => w
  }

  function ObserveAll(w: Watch, events: seq<Event>): Watch {
    if events == [] then w else Observe(ObserveAll(w, events[..|events| - 1]), events[|events| - 1])
  }

  /**
   etcd's members before; the masters that stay, apart those that are not members at their configured address;
   the masters that join; and the names of those that leave.
   */
  datatype Plan = Plan(ipv6: bool, start: Members, kept: set<Host>, strangers: set<Host>, joining: set<Host>,
                       leaving: set<string>)

  ghost function PlanOf(ipv6: bool, members: Members, staying: set<Host>, joining: set<Host>, leaving: set<string>)
    : Plan
  {
    var kept := set h | h in staying && Registered(h, members);
    Plan(ipv6, members, kept, staying - kept, joining, leaving)
  }

  /** The host is a member under its own name and address. */
  ghost predicate Registered(h: Host, members: Members) {
    HostIp(h) in members && members[HostIp(h)] == h.name
  }

  ghost predicate AllIn(hosts: set<Host>, members: Members) {
    forall h :: h in hosts ==> Registered(h, members)
  }

  ghost predicate Extends(members: Members, start: Members) {
    forall a :: a in start ==> a in members && members[a] == start[a]
  }

  /** The host is wanted, and a member unless it was none at the start. */
  ghost predicate Known(plan: Plan, members: Members, h: Host) {
    h.name !in plan.leaving && (h in plan.strangers || (h in plan.kept + plan.joining && Registered(h, members)))
  }

  /** A host is reached at its address, or by its name for want of one. */
  ghost predicate HasAddress(h: Host, ip: string) {
    match h.ip
    case Some(own) => ip == own
    case None => ip == h.name
  }

  ghost predicate IsEndpoint(ipv6: bool, h: Host, e: string) {
    exists ip :: HasAddress(h, ip) && e == if ipv6 then "https://[" + ip + "]:4001" else "https://" + ip + ":4001"
  }

  /** The endpoints are those of the current masters, one for each and in order, and these are known. */
  ghost predicate Reaches(plan: Plan, w: Watch, endpoints: seq<string>) {
    && |endpoints| == |w.curr|
    && forall i :: 0 <= i < |endpoints| ==>
         IsEndpoint(plan.ipv6, w.curr[i], endpoints[i]) && Known(plan, w.members, w.curr[i])
  }

  /** The master on its way in, at its address. */
  ghost predicate Coming(plan: Plan, w: Watch, ip: string) {
    w.coming.Some? && w.coming.value in plan.joining && HasAddress(w.coming.value, ip)
  }

  /** All wanted masters are in and nobody is on the way. */
  ghost predicate Complete(plan: Plan, w: Watch) {
    w.unsynced == {} && AllIn(plan.kept, w.members) && AllIn(plan.joining, w.members)
  }

  /** Nobody is on the way in and nobody has left. */
  ghost predicate Growing(w: Watch) {
    w.unsynced == {} && w.removed == {}
  }

  /** The names and addresses of a list of masters, of hosts, and of the members that joined in this run. */
  ghost function Pairs(list: map<string, string>): set<(string, string)> {
    set n | n in list :: (n, list[n])
  }

  ghost function HostPairs(hosts: set<Host>): set<(string, string)> {
    set h | h in hosts :: (h.name, HostIp(h))
  }

  ghost function SyncedPairs(w: Watch): set<(string, string)> {
    set a | a in w.synced && a in w.members :: (w.members[a], a)
  }

  /** What the observer may see next. */
  ghost predicate MayHappen(plan: Plan, w: Watch, ev: Event) {
    match ev
    // the list given to a new master: those that stay, those that have joined, and itself
    case Rendered(h, list) =>
      h in plan.joining && Growing(w)
      && Pairs(list) == HostPairs(plan.kept + plan.strangers) + SyncedPairs(w) + {(h.name, HostIp(h))}
    case AddCalled(ip, endpoints) => Growing(w) && Coming(plan, w, ip) && Reaches(plan, w, endpoints)
    // members join one at a time, each after the one before it has synced, and nobody has left yet
    case MemberAdded(ip) => Growing(w) && ip !in w.members && Coming(plan, w, ip)
    case MemberStarted(ip, name) => w.unsynced == {ip} && Coming(plan, w, ip) && name == w.coming.value.name
    case Synced(ip) =>
      w.unsynced == {ip} && ip in w.members && Coming(plan, w, ip) && w.members[ip] == w.coming.value.name
    // members leave only once all wanted masters are in and synced
    case ListCalled(endpoints) => Complete(plan, w) && Reaches(plan, w, endpoints)
    case RemoveCalled(ip, endpoints) =>
      Complete(plan, w) && Reaches(plan, w, endpoints) && ip in w.members && w.members[ip] in plan.leaving
    case MemberRemoved(ip) => Complete(plan, w) && ip in w.members && w.members[ip] in plan.leaving
  }

  /** What holds at every moment. */
  ghost predicate Healthy(plan: Plan, w: Watch) {
    && |w.unsynced| <= 1
    && AllIn(plan.kept, w.members)
    && (w.removed == {} ==> Extends(w.members, plan.start))
    && (w.removed != {} ==> Complete(plan, w))
    && w.removed !! w.members.Keys && w.members.Keys <= plan.start.Keys + w.synced + w.unsynced
  }

  ghost predicate SafeRun(plan: Plan, w: Watch, events: seq<Event>) {
    && (forall p :: 0 <= p < |events| ==> MayHappen(plan, ObserveAll(w, events[..p]), events[p]))
    && (forall p :: 0 <= p <= |events| ==> Healthy(plan, ObserveAll(w, events[..p])))
  }

  lemma {:induction false} ObserveConcat(w: Watch, x: seq<Event>, y: seq<Event>)
    ensures ObserveAll(w, x + y) == ObserveAll(ObserveAll(w, x), y)
  {
    if y == [] {
      assert x + y == x;
    } else {
      var n := |y| - 1;
      ObserveConcat(w, x, y[..n]);
      assert (x + y)[..|x + y| - 1] == x + y[..n];
    }
  }

  lemma SafeConcat(plan: Plan, w: Watch, x: seq<Event>, y: seq<Event>)
    requires SafeRun(plan, w, x) && SafeRun(plan, ObserveAll(w, x), y)
    ensures SafeRun(plan, w, x + y)
  {
    hide MayHappen, Healthy, ObserveAll;
    var z := x + y;
    forall p | 0 <= p <= |z|
      ensures Healthy(plan, ObserveAll(w, z[..p]))
      ensures p < |z| ==> MayHappen(plan, ObserveAll(w, z[..p]), z[p])
    {
      if p < |x| {
        assert z[..p] == x[..p];
      } else {
        assert z[..p] == x + y[..p - |x|];
        ObserveConcat(w, x, y[..p - |x|]);
      }
    }
  }

  lemma SafeNothing(plan: Plan, w: Watch)
    requires Healthy(plan, w)
    ensures SafeRun(plan, w, []) && ObserveAll(w, []) == w
  {
  }

  /** A safe run with one more event. */
  lemma SafeSnoc(plan: Plan, w: Watch, events: seq<Event>, ev: Event)
    requires SafeRun(plan, w, events)
    requires var v := ObserveAll(w, events); MayHappen(plan, v, ev) && Healthy(plan, Observe(v, ev))
    ensures SafeRun(plan, w, events + [ev]) && ObserveAll(w, events + [ev]) == Observe(ObserveAll(w, events), ev)
  {
    hide MayHappen, Healthy, Observe;
    var z := events + [ev];
    assert z[..|events|] == events;
    forall p | 0 <= p <= |z|
      ensures Healthy(plan, ObserveAll(w, z[..p]))
      ensures p < |z| ==> MayHappen(plan, ObserveAll(w, z[..p]), z[p])
    {
      if p <= |events| {
        assert z[..p] == events[..p];
        assert events[..|events|] == events;
      } else {
        assert z[..p] == z;
      }
    }
  }

  // ---- Adding ---------------------------------------------------------------------------

  ghost function AsSet(hosts: seq<Host>): set<Host> {
    set h | h in hosts
  }

  lemma {:induction false} MasterListHolds(hosts: seq<Host>)
    requires DistinctNames(hosts)
    ensures MasterList(hosts).Keys == NameSet(hosts) && Pairs(MasterList(hosts)) == HostPairs(AsSet(hosts))
  {
    if hosts != [] {
      hide Pairs, HostPairs, NameSet, AsSet;
      var n := |hosts| - 1;
      var h := hosts[n];
      MasterListHolds(hosts[..n]);
      LastOf(hosts);
      PairsOfNewKey(MasterList(hosts[..n]), h.name, HostIp(h));
      PairsOfMore(AsSet(hosts[..n]), h);
    }
  }

  lemma LastOf(hosts: seq<Host>)
    requires hosts != [] && DistinctNames(hosts)
    ensures var n := |hosts| - 1;
            && NameSet(hosts) == NameSet(hosts[..n]) + {hosts[n].name} && hosts[n].name !in NameSet(hosts[..n])
            && AsSet(hosts) == AsSet(hosts[..n]) + {hosts[n]}
  {
    var n := |hosts| - 1;
    assert hosts == hosts[..n] + [hosts[n]];
  }

  lemma PairsOfNewKey(m: map<string, string>, k: string, v: string)
    requires k !in m
    ensures Pairs(m[k := v]) == Pairs(m) + {(k, v)}
  {
    var m' := m[k := v];
    assert k in m';
    forall n | n in m ensures (n, m[n]) in Pairs(m') {
      assert n in m' && m'[n] == m[n];
    }
  }

  lemma PairsOfMore(hosts: set<Host>, h: Host)
    ensures HostPairs(hosts + {h}) == HostPairs(hosts) + {(h.name, HostIp(h))}
  {
  }

  /** Calls made with the current masters reach them all, and nobody else. */
  lemma EndpointsReach(plan: Plan, w: Watch)
    requires forall h :: h in w.curr ==> Known(plan, w.members, h)
    ensures Reaches(plan, w, Endpoints(plan.ipv6, w.curr))
  {
    hide Known;
    var all := Endpoints(plan.ipv6, w.curr);
    forall i | 0 <= i < |all|
      ensures IsEndpoint(plan.ipv6, w.curr[i], all[i]) && Known(plan, w.members, w.curr[i])
    {
      assert w.curr[i] in w.curr && HasAddress(w.curr[i], HostIp(w.curr[i]));
    }
  }

  /** Masters are being added and none is on the way. */
  ghost predicate Calm(plan: Plan, w: Watch) {
    && Growing(w) && Extends(w.members, plan.start) && AllIn(plan.kept, w.members)
    && w.synced <= w.members.Keys <= plan.start.Keys + w.synced
  }

  /** Where the run stands between two additions. */
  ghost predicate BetweenAdds(plan: Plan, s: ScaleState, w: Watch) {
    && s.members == w.members && s.curr == w.curr && Calm(plan, w)
    && DistinctNames(s.curr) && (forall h :: h in s.curr ==> Known(plan, w.members, h))
    && s.list == MasterList(s.curr) && Pairs(s.list) == HostPairs(plan.kept + plan.strangers) + SyncedPairs(w)
  }

  /** A host that may be added next. */
  ghost predicate Addable(plan: Plan, s: ScaleState, h: Host) {
    h in plan.joining && h.name !in NameSet(s.curr) && h.name !in plan.leaving
  }

  lemma BetweenAddsHealthy(plan: Plan, s: ScaleState, w: Watch)
    requires BetweenAdds(plan, s, w)
    ensures Healthy(plan, w)
  {
  }

  /** Rendering the list, and calling etcd before it answers. */
  lemma RenderSafe(plan: Plan, s: ScaleState, w: Watch, h: Host)
    requires BetweenAdds(plan, s, w) && Addable(plan, s, h)
    ensures var v := w.(coming := Some(h));
            var rendered := Rendered(h, s.list[h.name := HostIp(h)]);
            MayHappen(plan, w, rendered) && Observe(w, rendered) == v && BetweenAdds(plan, s, v)
  {
    var v := w.(coming := Some(h));
    MasterListHolds(s.curr);
    PairsOfNewKey(s.list, h.name, HostIp(h));
    assert SyncedPairs(v) == SyncedPairs(w);
  }

  lemma CallSafe(plan: Plan, s: ScaleState, w: Watch, h: Host)
    requires BetweenAdds(plan, s, w) && Addable(plan, s, h) && w.coming == Some(h)
    ensures var called := AddCalled(HostIp(h), Endpoints(plan.ipv6, s.curr));
            MayHappen(plan, w, called) && Observe(w, called) == w
  {
    EndpointsReach(plan, w);
  }

  lemma AddedSafe(plan: Plan, w: Watch, h: Host)
    requires Calm(plan, w) && h in plan.joining && HostIp(h) !in w.members && w.coming == Some(h)
    ensures var ip := HostIp(h);
            var v := w.(members := w.members[ip := UNNAMED], unsynced := {ip});
            && MayHappen(plan, w, MemberAdded(ip)) && Observe(w, MemberAdded(ip)) == v && Healthy(plan, v)
  {
    InWithOneMore(plan.kept, w.members, h);
  }

  lemma StartedSafe(plan: Plan, w: Watch, h: Host)
    requires Calm(plan, w) && h in plan.joining && HostIp(h) !in w.members && w.coming == Some(h)
    ensures var ip := HostIp(h);
            var v := w.(members := w.members[ip := UNNAMED], unsynced := {ip});
            var u := w.(members := w.members[ip := h.name], unsynced := {ip});
            && MayHappen(plan, v, MemberStarted(ip, h.name)) && Observe(v, MemberStarted(ip, h.name)) == u
            && Healthy(plan, u)
  {
    var ip := HostIp(h);
    InWithOneMore(plan.kept, w.members, h);
    assert w.members[ip := UNNAMED][ip := h.name] == w.members[ip := h.name];
  }

  /** The observer's view once the master is in and synced. */
  function Joined(w: Watch, h: Host): Watch {
    w.(members := w.members[HostIp(h) := h.name], unsynced := {}, synced := w.synced + {HostIp(h)},
       curr := w.curr + [h])
  }

  lemma SyncedSafe(plan: Plan, w: Watch, h: Host)
    requires Calm(plan, w) && h in plan.joining && HostIp(h) !in w.members && w.coming == Some(h)
    ensures var ip := HostIp(h);
            var u := w.(members := w.members[ip := h.name], unsynced := {ip});
            && MayHappen(plan, u, Synced(ip)) && Observe(u, Synced(ip)) == Joined(w, h)
            && Healthy(plan, Joined(w, h)) && Calm(plan, Joined(w, h))
  {
    InWithOneMore(plan.kept, w.members, h);
  }

  /** A member joins, starts and syncs: each step may happen and leaves etcd healthy. */
  lemma JoinStepsSafe(plan: Plan, s: ScaleState, w: Watch, h: Host)
    requires BetweenAdds(plan, s, w) && Addable(plan, s, h) && HostIp(h) !in s.members && w.coming == Some(h)
    ensures var ip := HostIp(h);
            var w1 := Observe(w, MemberAdded(ip));
            var w2 := Observe(w1, MemberStarted(ip, h.name));
            var w3 := Observe(w2, Synced(ip));
            && MayHappen(plan, w, MemberAdded(ip)) && Healthy(plan, w1)
            && MayHappen(plan, w1, MemberStarted(ip, h.name)) && Healthy(plan, w2)
            && MayHappen(plan, w2, Synced(ip)) && Healthy(plan, w3)
            && w2.members == w3.members == s.members[ip := h.name] && w3 == Joined(w, h)
  {
    hide MayHappen, Healthy, BetweenAdds, Observe, Calm;
    BetweenAddsWatches(plan, s, w);
    AddedSafe(plan, w, h);
    StartedSafe(plan, w, h);
    SyncedSafe(plan, w, h);
  }

  lemma JoinedBetweenAdds(plan: Plan, s: ScaleState, w: Watch, h: Host)
    requires BetweenAdds(plan, s, w) && Addable(plan, s, h) && HostIp(h) !in s.members && w.coming == Some(h)
    ensures var ip := HostIp(h);
            BetweenAdds(plan, ScaleState(s.curr + [h], s.list[h.name := ip], s.members[ip := h.name]), Joined(w, h))
  {
    hide MasterList, HostPairs, SyncedPairs, Calm, MayHappen, Healthy, Observe, Known;
    AppendDistinct(s.curr, h);
    ListGrows(plan, s, w, h);
    SyncedSafe(plan, w, h);
    KnownWithOneMore(plan, s, w, h);
  }

  lemma KnownWithOneMore(plan: Plan, s: ScaleState, w: Watch, h: Host)
    requires BetweenAdds(plan, s, w) && Addable(plan, s, h) && HostIp(h) !in s.members
    ensures forall x :: x in s.curr + [h] ==> Known(plan, w.members[HostIp(h) := h.name], x)
  {
    hide Calm, MasterList;
    forall x | x in s.curr ensures Known(plan, w.members[HostIp(h) := h.name], x) {
      assert Known(plan, w.members, x);
    }
  }

  /** The list of masters grows by the new one, and with it the pairs that have synced. */
  lemma ListGrows(plan: Plan, s: ScaleState, w: Watch, h: Host)
    requires BetweenAdds(plan, s, w) && Addable(plan, s, h) && HostIp(h) !in s.members
    ensures var ip := HostIp(h);
            && s.list[h.name := ip] == MasterList(s.curr + [h])
            && Pairs(s.list[h.name := ip]) == HostPairs(plan.kept + plan.strangers) + SyncedPairs(Joined(w, h))
  {
    var ip, more := HostIp(h), s.curr + [h];
    assert more[..|s.curr|] == s.curr;
    MasterListHolds(s.curr);
    PairsOfNewKey(s.list, h.name, ip);
    SyncedGrows(w, h);
  }

  lemma SyncedGrows(w: Watch, h: Host)
    requires w.synced <= w.members.Keys && HostIp(h) !in w.members
    ensures SyncedPairs(Joined(w, h)) == SyncedPairs(w) + {(h.name, HostIp(h))}
  {
    var v := Joined(w, h);
    forall a | a in w.synced ensures (v.members[a], a) == (w.members[a], a) {
    }
  }

  lemma InWithOneMore(hosts: set<Host>, members: Members, h: Host)
    requires AllIn(hosts, members) && HostIp(h) !in members
    ensures AllIn(hosts, members[HostIp(h) := UNNAMED])
    ensures AllIn(hosts, members[HostIp(h) := h.name])
  {
  }

  /** What one addition ends in. */
  ghost predicate AddEnds(plan: Plan, s: ScaleState, w: Watch, added: seq<Host>, r: ScaleResult) {
    && SafeRun(plan, w, r.events)
    && ObserveAll(w, r.events).members == r.st.members
    && (r.ok ==> BetweenAdds(plan, r.st, ObserveAll(w, r.events)) && r.st.curr == s.curr + added)
  }

  lemma AddOneSafe(plan: Plan, s: ScaleState, w: Watch, h: Host, a: AddAnswer)
    requires BetweenAdds(plan, s, w) && Addable(plan, s, h)
    ensures AddEnds(plan, s, w, [h], AddOne(plan.ipv6, s, h, a))
  {
    hide SafeRun, ObserveAll, MayHappen, Healthy, BetweenAdds, Addable, Observe, MasterList, Endpoints;
    var ip, v := HostIp(h), w.(coming := Some(h));
    var e1, e2 := Rendered(h, s.list[h.name := ip]), AddCalled(ip, Endpoints(plan.ipv6, s.curr));
    RenderSafe(plan, s, w, h);
    CallSafe(plan, s, v, h);
    BetweenAddsHealthy(plan, s, w);
    BetweenAddsHealthy(plan, s, v);
    BetweenAddsWatches(plan, s, w);
    SafeNothing(plan, w);
    assert [] + [e1] == [e1] && [e1] + [e2] == [e1, e2];
    SafeSnoc(plan, w, [], e1);
    SafeSnoc(plan, w, [e1], e2);
    if a.rendered && a.deployer && a.client && a.accepted && ip !in s.members {
      JoinSafe(plan, s, w, v, h, [e1, e2], a.arrival);
    }
  }

  lemma BetweenAddsWatches(plan: Plan, s: ScaleState, w: Watch)
    requires BetweenAdds(plan, s, w)
    ensures s.members == w.members && Calm(plan, w)
  {
  }

  lemma JoinSafe(plan: Plan, s: ScaleState, w: Watch, v: Watch, h: Host, before: seq<Event>, arrival: Arrival)
    requires BetweenAdds(plan, s, v) && Addable(plan, s, h) && HostIp(h) !in s.members && v.coming == Some(h)
    requires SafeRun(plan, w, before) && ObserveAll(w, before) == v
    ensures var r := Join(s.(list := s.list[h.name := HostIp(h)]), h, arrival);
            AddEnds(plan, s, w, [h], r.(events := before + r.events))
  {
    hide SafeRun, ObserveAll, MayHappen, Healthy, BetweenAdds, Addable, Observe, MasterList, Joined;
    var ip := HostIp(h);
    var e1, e2, e3 := MemberAdded(ip), MemberStarted(ip, h.name), Synced(ip);
    JoinStepsSafe(plan, s, v, h);
    AddingUnnamed(v, ip);
    SafeSnoc(plan, w, before, e1);
    SafeSnoc(plan, w, before + [e1], e2);
    SafeSnoc(plan, w, before + [e1] + [e2], e3);
    assert before + [e1] + [e2] == before + [e1, e2] && before + [e1] + [e2] + [e3] == before + [e1, e2, e3];
    BetweenAddsWatches(plan, s, v);
    JoinedBetweenAdds(plan, s, v, h);
  }

  lemma AddingUnnamed(w: Watch, ip: string)
    ensures Observe(w, MemberAdded(ip)).members == w.members[ip := UNNAMED]
  {
  }

  lemma {:induction false} AddAllSafe(plan: Plan, s: ScaleState, w: Watch, hosts: seq<Host>, answers: seq<AddAnswer>)
    requires BetweenAdds(plan, s, w) && |hosts| == |answers| && DistinctNames(hosts)
    requires AsSet(hosts) <= plan.joining && NameSet(hosts) !! NameSet(s.curr) + plan.leaving
    ensures AddEnds(plan, s, w, hosts, AddAll(plan.ipv6, s, hosts, answers))
    decreases |hosts|
  {
    hide SafeRun, ObserveAll, AddOne, BetweenAdds, Healthy;
    if hosts == [] {
      BetweenAddsHealthy(plan, s, w);
      BetweenAddsWatches(plan, s, w);
      SafeNothing(plan, w);
      assert s.curr + hosts == s.curr;
    } else {
      var h := hosts[0];
      FirstIsAddable(plan, s, hosts);
      AddOneSafe(plan, s, w, h, answers[0]);
      var r := AddOne(plan.ipv6, s, h, answers[0]);
      if r.ok {
        NamesAfterFirst(plan, s.curr, hosts);
        var v := ObserveAll(w, r.events);
        AddAllSafe(plan, r.st, v, hosts[1..], answers[1..]);
        var rest := AddAll(plan.ipv6, r.st, hosts[1..], answers[1..]);
        SafeConcat(plan, w, r.events, rest.events);
        ObserveConcat(w, r.events, rest.events);
        assert s.curr + hosts == (s.curr + [h]) + hosts[1..];
      }
    }
  }

  lemma FirstIsAddable(plan: Plan, s: ScaleState, hosts: seq<Host>)
    requires hosts != [] && AsSet(hosts) <= plan.joining && NameSet(hosts) !! NameSet(s.curr) + plan.leaving
    ensures Addable(plan, s, hosts[0])
  {
    assert hosts[0] in AsSet(hosts) && hosts[0].name in NameSet(hosts);
  }

  lemma NamesAfterFirst(plan: Plan, curr: seq<Host>, hosts: seq<Host>)
    requires hosts != [] && DistinctNames(hosts) && AsSet(hosts) <= plan.joining
    requires NameSet(hosts) !! NameSet(curr) + plan.leaving
    ensures DistinctNames(hosts[1..]) && AsSet(hosts[1..]) <= plan.joining
    ensures NameSet(hosts[1..]) !! NameSet(curr + [hosts[0]]) + plan.leaving
  {
    assert NameSet(curr + [hosts[0]]) == NameSet(curr) + {hosts[0].name};
    forall n | n in NameSet(hosts[1..]) ensures n in NameSet(hosts) && n != hosts[0].name {
      var i :| 0 <= i < |hosts[1..]| && hosts[1..][i].name == n;
      assert hosts[i + 1] in hosts;
    }
    forall h | h in AsSet(hosts[1..]) ensures h in AsSet(hosts) {
    }
  }

  // ---- Removing -------------------------------------------------------------------------

  ghost predicate BetweenRemoves(plan: Plan, s: ScaleState, w: Watch) {
    && s.members == w.members && s.curr == w.curr && Complete(plan, w)
    && w.removed !! w.members.Keys && w.members.Keys <= plan.start.Keys + w.synced
    && (w.removed == {} ==> Extends(w.members, plan.start))
    && AsSet(s.curr) == plan.kept + plan.strangers + plan.joining
    && forall h :: h in s.curr ==> Known(plan, w.members, h)
  }

  lemma BetweenRemovesHealthy(plan: Plan, s: ScaleState, w: Watch)
    requires BetweenRemoves(plan, s, w)
    ensures Healthy(plan, w)
  {
  }

  /** Taking out a member whose name is to leave touches no wanted one. */
  lemma RemovalSafe(plan: Plan, s: ScaleState, w: Watch, ip: string)
    requires BetweenRemoves(plan, s, w) && ip in s.members && s.members[ip] in plan.leaving
    ensures var v := Observe(w, MemberRemoved(ip));
            && MayHappen(plan, w, MemberRemoved(ip)) && Healthy(plan, v)
            && BetweenRemoves(plan, s.(members := s.members - {ip}), v)
  {
    forall h | h in plan.kept + plan.joining ensures Registered(h, s.members - {ip}) {
      assert h in AsSet(s.curr) && Registered(h, w.members);
    }
  }

  ghost predicate RemoveEnds(plan: Plan, s: ScaleState, w: Watch, r: ScaleResult) {
    && SafeRun(plan, w, r.events)
    && ObserveAll(w, r.events).members == r.st.members && r.st.curr == s.curr
    && (r.ok ==> BetweenRemoves(plan, r.st, ObserveAll(w, r.events)))
  }

  lemma RemoveOneSafe(plan: Plan, s: ScaleState, w: Watch, h: Host, a: RemoveAnswer)
    requires BetweenRemoves(plan, s, w) && h.ip == None && h.name in plan.leaving
    ensures RemoveEnds(plan, s, w, RemoveOne(plan.ipv6, s, h, a))
  {
    hide SafeRun, ObserveAll, MayHappen, Healthy, BetweenRemoves, Observe, Endpoints, SwapDelete;
    var endpoints := Endpoints(plan.ipv6, s.curr);
    BetweenRemovesHealthy(plan, s, w);
    SafeNothing(plan, w);
    NotAmongCurrent(plan, s, w, h);
    RemoveCallsSafe(plan, s, w, endpoints);
    var e1 := ListCalled(endpoints);
    SafeSnoc(plan, w, [], e1);
    assert [] + [e1] == [e1];
    var found := FirstNamed(a.listing, s.members, HostIp(h));
    if found.Some? {
      var ip := found.value;
      var e2, e3 := RemoveCalled(ip, endpoints), MemberRemoved(ip);
      RemovalSafe(plan, s, w, ip);
      RemovalCallSafe(plan, s, w, ip, endpoints);
      RemovalWatched(plan, s, w, ip);
      SafeSnoc(plan, w, [e1], e2);
      SafeSnoc(plan, w, [e1] + [e2], e3);
      assert [e1] + [e2] == [e1, e2] && [e1, e2] + [e3] == [e1, e2, e3];
    }
  }

  lemma NotAmongCurrent(plan: Plan, s: ScaleState, w: Watch, h: Host)
    requires BetweenRemoves(plan, s, w) && h.name in plan.leaving
    ensures SwapDelete(s.curr, h.name, 0) == s.curr && s.members == w.members
  {
    SwapDeleteRemovesOne(s.curr, h.name, 0);
  }

  lemma RemoveCallsSafe(plan: Plan, s: ScaleState, w: Watch, endpoints: seq<string>)
    requires BetweenRemoves(plan, s, w) && endpoints == Endpoints(plan.ipv6, s.curr)
    ensures MayHappen(plan, w, ListCalled(endpoints)) && Observe(w, ListCalled(endpoints)) == w
  {
    EndpointsReach(plan, w);
  }

  lemma RemovalCallSafe(plan: Plan, s: ScaleState, w: Watch, ip: string, endpoints: seq<string>)
    requires BetweenRemoves(plan, s, w) && endpoints == Endpoints(plan.ipv6, s.curr)
    requires ip in s.members && s.members[ip] in plan.leaving
    ensures MayHappen(plan, w, RemoveCalled(ip, endpoints)) && Observe(w, RemoveCalled(ip, endpoints)) == w
  {
    EndpointsReach(plan, w);
  }

  lemma RemovalWatched(plan: Plan, s: ScaleState, w: Watch, ip: string)
    requires BetweenRemoves(plan, s, w)
    ensures Observe(w, MemberRemoved(ip)).members == s.members - {ip}
  {
  }

  lemma {:induction false} RemoveAllSafe(plan: Plan, s: ScaleState, w: Watch, hosts: seq<Host>,
                                         answers: seq<RemoveAnswer>)
    requires BetweenRemoves(plan, s, w) && |hosts| == |answers|
    requires forall h :: h in hosts ==> h.ip == None && h.name in plan.leaving
    ensures RemoveEnds(plan, s, w, RemoveAll(plan.ipv6, s, hosts, answers))
    decreases |hosts|
  {
    hide SafeRun, ObserveAll, RemoveOne, BetweenRemoves, Healthy;
    if hosts == [] {
      BetweenRemovesHealthy(plan, s, w);
      SafeNothing(plan, w);
      assert s.members == w.members by {
        BetweenRemovesWatches(plan, s, w);
      }
    } else {
      RemoveOneSafe(plan, s, w, hosts[0], answers[0]);
      var r := RemoveOne(plan.ipv6, s, hosts[0], answers[0]);
      if r.ok {
        RemoveAllSafe(plan, r.st, ObserveAll(w, r.events), hosts[1..], answers[1..]);
        var rest := RemoveAll(plan.ipv6, r.st, hosts[1..], answers[1..]);
        SafeConcat(plan, w, r.events, rest.events);
        ObserveConcat(w, r.events, rest.events);
      }
    }
  }

  lemma BetweenRemovesWatches(plan: Plan, s: ScaleState, w: Watch)
    requires BetweenRemoves(plan, s, w)
    ensures s.members == w.members
  {
  }

  // ---- The whole run --------------------------------------------------------------------

  /** The three lists of a diff: no name twice or in two lists, and no address for the masters that leave. */
  ghost predicate ProperDiff(newMasters: seq<Host>, oldMasters: seq<Host>, curr: seq<Host>) {
    && DistinctNames(newMasters) && DistinctNames(oldMasters) && DistinctNames(curr)
    && NameSet(newMasters) !! NameSet(curr) && NameSet(oldMasters) !! NameSet(curr) + NameSet(newMasters)
    && forall h :: h in oldMasters ==> h.ip == None
  }

  ghost function PlanFor(ipv6: bool, members: Members, newMasters: seq<Host>, oldMasters: seq<Host>, curr: seq<Host>)
    : Plan
  {
    PlanOf(ipv6, members, AsSet(curr), AsSet(newMasters), NameSet(oldMasters))
  }

  function AtStart(curr: seq<Host>, members: Members): ScaleState {
    ScaleState(curr, MasterList(curr), members)
  }

  /**
   However far a scale run gets, whatever etcd's members are, each of its steps is allowed and etcd is healthy at
   every moment.
   */
  lemma ScaleIsSafe(ipv6: bool, curr: seq<Host>, members: Members, newMasters: seq<Host>, oldMasters: seq<Host>,
                    adds: seq<AddAnswer>, removes: seq<RemoveAnswer>)
    requires |newMasters| == |adds| && |oldMasters| == |removes|
    requires ProperDiff(newMasters, oldMasters, curr)
    ensures var plan := PlanFor(ipv6, members, newMasters, oldMasters, curr);
            var r := Scale(ipv6, AtStart(curr, members), newMasters, oldMasters, adds, removes);
            && SafeRun(plan, Begin(members, curr), r.events)
            && ObserveAll(Begin(members, curr), r.events).members == r.st.members
            && (r.ok ==> AllIn(plan.kept + plan.joining, r.st.members) && r.st.curr == curr + newMasters)
  {
    hide SafeRun, ObserveAll, AddAll, RemoveAll, MasterList;
    var plan := PlanFor(ipv6, members, newMasters, oldMasters, curr);
    var s, w := AtStart(curr, members), Begin(members, curr);
    MasterListHolds(curr);
    assert SyncedPairs(w) == {} && plan.kept + plan.strangers == AsSet(curr);
    forall h | h in curr ensures Known(plan, members, h) {
      assert h in AsSet(curr) && h.name in NameSet(curr);
    }
    AddAllSafe(plan, s, w, newMasters, adds);
    var up := AddAll(ipv6, s, newMasters, adds);
    if up.ok {
      var v := ObserveAll(w, up.events);
      forall h | h in plan.joining ensures h !in plan.strangers {
        assert h.name in NameSet(newMasters);
      }
      AddsComplete(plan, up.st, v, curr, newMasters);
      forall h | h in oldMasters ensures h.name in plan.leaving {
        assert h.name in NameSet(oldMasters);
      }
      RemoveAllSafe(plan, up.st, v, oldMasters, removes);
      var down := RemoveAll(ipv6, up.st, oldMasters, removes);
      SafeConcat(plan, w, up.events, down.events);
      ObserveConcat(w, up.events, down.events);
    }
  }

  lemma AddsComplete(plan: Plan, s: ScaleState, w: Watch, curr: seq<Host>, newMasters: seq<Host>)
    requires BetweenAdds(plan, s, w) && s.curr == curr + newMasters
    requires plan.kept + plan.strangers == AsSet(curr) && plan.joining == AsSet(newMasters)
    requires plan.strangers !! plan.joining
    ensures BetweenRemoves(plan, s, w)
  {
    assert AsSet(s.curr) == AsSet(curr) + AsSet(newMasters);
    forall h | h in plan.joining ensures Registered(h, w.members) {
      assert h in s.curr && Known(plan, w.members, h);
    }
  }

  /** etcd has a member for each of the hosts and no other. */
  ghost predicate ExactlyIn(hosts: set<Host>, members: Members) {
    AllIn(hosts, members) && forall a :: a in members ==> exists h :: h in hosts && HostIp(h) == a
  }

  ghost function MemberPairs(members: Members): set<(string, string)> {
    set a | a in members :: (members[a], a)
  }

  /**
   When etcd's members are the masters that stay, whole: the list given to each new master is etcd's membership
   at that moment and the new master itself.
   */
  lemma NewMasterSeesMembership(ipv6: bool, curr: seq<Host>, members: Members, newMasters: seq<Host>,
                                adds: seq<AddAnswer>, p: nat)
    requires |newMasters| == |adds| && ProperDiff(newMasters, [], curr) && ExactlyIn(AsSet(curr), members)
    requires var r := Scale(ipv6, AtStart(curr, members), newMasters, [], adds, []);
             p < |r.events| && r.events[p].Rendered?
    ensures var r := Scale(ipv6, AtStart(curr, members), newMasters, [], adds, []);
            Pairs(r.events[p].list)
            == MemberPairs(ObserveAll(Begin(members, curr), r.events[..p]).members)
               + {(r.events[p].host.name, HostIp(r.events[p].host))}
  {
    hide Scale, ObserveAll, MasterList, Pairs, HostPairs, SyncedPairs, MemberPairs;
    ScaleIsSafe(ipv6, curr, members, newMasters, [], adds, []);
    var r := Scale(ipv6, AtStart(curr, members), newMasters, [], adds, []);
    var plan := PlanFor(ipv6, members, newMasters, [], curr);
    var w := ObserveAll(Begin(members, curr), r.events[..p]);
    assert MayHappen(plan, w, r.events[p]) && Healthy(plan, w);
    assert plan.kept == AsSet(curr) && plan.kept + plan.strangers == plan.kept;
    PairsAddUp(plan, w);
  }

  lemma PairsAddUp(plan: Plan, w: Watch)
    requires Growing(w) && Healthy(plan, w) && ExactlyIn(plan.kept, plan.start)
    ensures MemberPairs(w.members) == HostPairs(plan.kept) + SyncedPairs(w)
  {
    forall a | a in w.members ensures (w.members[a], a) in HostPairs(plan.kept) + SyncedPairs(w) {
      if a in plan.start {
        var h :| h in plan.kept && HostIp(h) == a;
        assert Registered(h, w.members);
      }
    }
    forall h | h in plan.kept ensures (h.name, HostIp(h)) in MemberPairs(w.members) {
      assert Registered(h, w.members);
    }
  }
}
