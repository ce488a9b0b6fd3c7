/** When a scale run ends with the wanted masters, from the configuration on and run after run. */
module ScalingOutcomes {
  import opened Options
  import opened DiffNodes
  import opened Scaling
  import opened ScalingRuns

  // ---- When success means the wanted masters --------------------------------------------

  /** The addresses at which etcd has a member of that name. */
  ghost function At(members: Members, name: string): set<string> {
    set a | a in members && members[a] == name
  }

  lemma AddOneMembers(ipv6: bool, s: ScaleState, h: Host, a: AddAnswer)
    requires AddOne(ipv6, s, h, a).ok
    ensures HostIp(h) !in s.members && AddOne(ipv6, s, h, a).st.members == s.members[HostIp(h) := h.name]
  {
  }

  lemma {:induction false} AddAllMembers(ipv6: bool, s: ScaleState, hosts: seq<Host>, answers: seq<AddAnswer>)
    requires |hosts| == |answers| && AddAll(ipv6, s, hosts, answers).ok
    ensures var r := AddAll(ipv6, s, hosts, answers).st.members;
            && Extends(r, s.members) && AllIn(AsSet(hosts), r)
            && r.Keys == s.members.Keys + Ips(hosts) && Ips(hosts) !! s.members.Keys
    decreases |hosts|
  {
    hide AddOne;
    if hosts == [] {
      assert Ips(hosts) == {};
    } else {
      var h := hosts[0];
      AddOneMembers(ipv6, s, h, answers[0]);
      AddAllMembers(ipv6, AddOne(ipv6, s, h, answers[0]).st, hosts[1..], answers[1..]);
      assert hosts == [h] + hosts[1..];
      assert Ips(hosts) == {HostIp(h)} + Ips(hosts[1..]);
      assert AsSet(hosts) == {h} + AsSet(hosts[1..]);
    }
  }

  /** Each removal takes one member of its name, and members of other names stay. */
  ghost predicate Lessened(before: Members, after: Members, names: set<string>) {
    && Extends(before, after)
    && (forall n :: n !in names ==> At(after, n) == At(before, n))
    && (forall n :: n in names ==> exists a :: a in At(before, n) && At(after, n) == At(before, n) - {a})
  }

  lemma {:induction false} RemoveAllMembers(ipv6: bool, s: ScaleState, hosts: seq<Host>, answers: seq<RemoveAnswer>)
    requires |hosts| == |answers| && RemoveAll(ipv6, s, hosts, answers).ok
    requires DistinctNames(hosts) && forall h :: h in hosts ==> h.ip == None
    ensures Lessened(s.members, RemoveAll(ipv6, s, hosts, answers).st.members, NameSet(hosts))
    decreases |hosts|
  {
    hide SwapDelete, Endpoints;
    if hosts == [] {
      assert NameSet(hosts) == {};
    } else {
      var h := hosts[0];
      var ip := FirstNamed(answers[0].listing, s.members, HostIp(h)).value;
      var mid := RemoveOne(ipv6, s, h, answers[0]).st;
      var last := RemoveAll(ipv6, mid, hosts[1..], answers[1..]).st.members;
      RemoveAllMembers(ipv6, mid, hosts[1..], answers[1..]);
      FirstOf(hosts);
      LessenedByOne(s.members, ip, h.name, last, NameSet(hosts[1..]));
    }
  }

  lemma FirstOf(hosts: seq<Host>)
    requires hosts != [] && DistinctNames(hosts)
    ensures NameSet(hosts) == {hosts[0].name} + NameSet(hosts[1..]) && hosts[0].name !in NameSet(hosts[1..])
  {
    assert hosts == [hosts[0]] + hosts[1..];
  }

  lemma LessenedByOne(before: Members, ip: string, name: string, after: Members, names: set<string>)
    requires ip in before && before[ip] == name && name !in names && Lessened(before - {ip}, after, names)
    ensures Lessened(before, after, {name} + names)
  {
    var mid := before - {ip};
    assert At(mid, name) == At(before, name) - {ip};
    forall n | n != name ensures At(mid, n) == At(before, n) {
    }
    assert ip in At(before, name) && At(after, name) == At(before, name) - {ip};
  }

  /** etcd's members are the masters that stay, at their addresses, and, once each, those that are to leave. */
  ghost predicate OnlyActive(members: Members, curr: seq<Host>, leaving: set<string>) {
    && AllIn(AsSet(curr), members)
    && (forall a :: a in members ==> a in Ips(curr) || members[a] in leaving)
    && (forall a, b :: a in members && b in members && members[a] == members[b] && members[a] in leaving ==> a == b)
  }

  /**
   A run can succeed only if no new address is a member's yet and every master that leaves is a member by its
   name. Success then leaves exactly the wanted masters just if etcd's members were the active masters, those that
   stay at their configured addresses.
   */
  lemma SuccessLeavesWantedExactly(ipv6: bool, curr: seq<Host>, members: Members, newMasters: seq<Host>,
                                   oldMasters: seq<Host>, adds: seq<AddAnswer>, removes: seq<RemoveAnswer>)
    requires |newMasters| == |adds| && |oldMasters| == |removes|
    requires ProperDiff(newMasters, oldMasters, curr)
    requires Scale(ipv6, AtStart(curr, members), newMasters, oldMasters, adds, removes).ok
    ensures Ips(newMasters) !! members.Keys && NameSet(oldMasters) <= members.Values
    ensures var r := Scale(ipv6, AtStart(curr, members), newMasters, oldMasters, adds, removes).st.members;
            ExactlyIn(AsSet(curr) + AsSet(newMasters), r) <==> OnlyActive(members, curr, NameSet(oldMasters))
  {
    hide MasterList, AddAll, RemoveAll;
    var s := AtStart(curr, members);
    var up := AddAll(ipv6, s, newMasters, adds).st;
    AddAllMembers(ipv6, s, newMasters, adds);
    RemoveAllMembers(ipv6, up, oldMasters, removes);
    var r := RemoveAll(ipv6, up, oldMasters, removes).st.members;
    hide Scale;
    LeaversUnmoved(members, up.members, newMasters, NameSet(oldMasters));
    WantedExactly(members, up.members, r, curr, newMasters, NameSet(oldMasters));
  }

  /** How the members before the run relate to those after the additions. */
  ghost predicate Grown(members: Members, more: Members, newMasters: seq<Host>) {
    && Extends(more, members) && AllIn(AsSet(newMasters), more)
    && more.Keys == members.Keys + Ips(newMasters) && Ips(newMasters) !! members.Keys
  }

  lemma LeaversUnmoved(members: Members, more: Members, newMasters: seq<Host>, leaving: set<string>)
    requires Grown(members, more, newMasters) && NameSet(newMasters) !! leaving
    ensures forall n :: n in leaving ==> At(more, n) == At(members, n)
  {
    forall a | a in more && a !in members ensures more[a] !in leaving {
      var h :| h in newMasters && HostIp(h) == a;
      assert h in AsSet(newMasters) && Registered(h, more) && h.name in NameSet(newMasters);
    }
  }

  lemma WantedExactly(members: Members, more: Members, last: Members, curr: seq<Host>, newMasters: seq<Host>,
                      leaving: set<string>)
    requires Grown(members, more, newMasters) && Lessened(more, last, leaving)
    requires forall n :: n in leaving ==> At(more, n) == At(members, n)
    requires NameSet(curr) + NameSet(newMasters) !! leaving && NameSet(curr) !! NameSet(newMasters)
    ensures leaving <= members.Values
    ensures ExactlyIn(AsSet(curr) + AsSet(newMasters), last) <==> OnlyActive(members, curr, leaving)
  {
    hide Grown, Lessened, OnlyActive, ExactlyIn;
    LeaversAreMembers(members, more, last, leaving);
    if OnlyActive(members, curr, leaving) {
      ActiveBecomeWanted(members, more, last, curr, newMasters, leaving);
    }
    if ExactlyIn(AsSet(curr) + AsSet(newMasters), last) {
      WantedWereActive(members, more, last, curr, newMasters, leaving);
    }
  }

  lemma LeaversAreMembers(members: Members, more: Members, last: Members, leaving: set<string>)
    requires Lessened(more, last, leaving) && forall n :: n in leaving ==> At(more, n) == At(members, n)
    ensures leaving <= members.Values
  {
    forall n | n in leaving ensures n in members.Values {
      var a :| a in At(more, n);
      assert a in At(members, n);
    }
  }

  /** A wanted master is never taken out. */
  lemma WantedStay(more: Members, last: Members, h: Host, leaving: set<string>)
    requires Lessened(more, last, leaving) && Registered(h, more) && h.name !in leaving
    ensures Registered(h, last)
  {
    assert HostIp(h) in At(more, h.name);
    assert HostIp(h) in At(last, h.name);
  }

  lemma ActiveBecomeWanted(members: Members, more: Members, last: Members, curr: seq<Host>, newMasters: seq<Host>,
                           leaving: set<string>)
    requires Grown(members, more, newMasters) && Lessened(more, last, leaving)
    requires forall n :: n in leaving ==> At(more, n) == At(members, n)
    requires NameSet(curr) + NameSet(newMasters) !! leaving
    requires OnlyActive(members, curr, leaving)
    ensures ExactlyIn(AsSet(curr) + AsSet(newMasters), last)
  {
    var wanted := AsSet(curr) + AsSet(newMasters);
    forall h | h in wanted ensures Registered(h, last) {
      assert Registered(h, more) && h.name in NameSet(curr) + NameSet(newMasters);
      WantedStay(more, last, h, leaving);
    }
    forall a | a in last ensures exists h :: h in wanted && HostIp(h) == a {
      assert a in At(last, last[a]);
      if last[a] in leaving {
        LeaversGone(members, more, last, curr, leaving, last[a]);
      } else if a in members {
        var h :| h in curr && HostIp(h) == a;
        assert h in wanted;
      } else {
        var h :| h in newMasters && HostIp(h) == a;
        assert h in wanted;
      }
    }
  }

  lemma LeaversGone(members: Members, more: Members, last: Members, curr: seq<Host>, leaving: set<string>, n: string)
    requires Lessened(more, last, leaving) && OnlyActive(members, curr, leaving)
    requires n in leaving && At(more, n) == At(members, n)
    ensures At(last, n) == {}
  {
    var b :| b in At(more, n) && At(last, n) == At(more, n) - {b};
    forall a | a in At(more, n) ensures a == b {
      assert a in At(members, n) && b in At(members, n);
    }
  }

  lemma WantedWereActive(members: Members, more: Members, last: Members, curr: seq<Host>, newMasters: seq<Host>,
                         leaving: set<string>)
    requires Grown(members, more, newMasters) && Lessened(more, last, leaving)
    requires forall n :: n in leaving ==> At(more, n) == At(members, n)
    requires NameSet(curr) + NameSet(newMasters) !! leaving && NameSet(curr) !! NameSet(newMasters)
    requires ExactlyIn(AsSet(curr) + AsSet(newMasters), last)
    ensures OnlyActive(members, curr, leaving)
  {
    forall h | h in AsSet(curr) ensures Registered(h, members) {
      StayedWhereItWas(members, more, last, curr, newMasters, h);
    }
    forall a | a in members && members[a] !in leaving ensures a in Ips(curr) {
      assert a in At(more, members[a]);
      assert a in At(last, members[a]);
      var h :| h in AsSet(curr) + AsSet(newMasters) && HostIp(h) == a;
      assert h in newMasters ==> a in Ips(newMasters);
    }
    forall a, b | a in members && b in members && members[a] == members[b] && members[a] in leaving ensures a == b {
      OneLeaverEach(more, last, curr, newMasters, leaving, members[a]);
      assert a in At(members, members[a]) && b in At(members, members[a]);
    }
  }

  lemma StayedWhereItWas(members: Members, more: Members, last: Members, curr: seq<Host>, newMasters: seq<Host>,
                         h: Host)
    requires Grown(members, more, newMasters) && Extends(more, last) && Registered(h, last)
    requires h in curr && NameSet(curr) !! NameSet(newMasters)
    ensures Registered(h, members)
  {
    assert h.name in NameSet(curr);
    forall other | other in newMasters ensures more[HostIp(other)] in NameSet(newMasters) {
      assert other in AsSet(newMasters) && Registered(other, more);
    }
  }

  /** No member with the name of a leaver is left, so there was only one. */
  lemma OneLeaverEach(more: Members, last: Members, curr: seq<Host>, newMasters: seq<Host>, leaving: set<string>,
                      n: string)
    requires Lessened(more, last, leaving) && n in leaving && NameSet(curr) + NameSet(newMasters) !! leaving
    requires ExactlyIn(AsSet(curr) + AsSet(newMasters), last)
    ensures forall a, b :: a in At(more, n) && b in At(more, n) ==> a == b
  {
    forall a | a in last ensures last[a] !in leaving {
      var h :| h in AsSet(curr) + AsSet(newMasters) && HostIp(h) == a;
      assert Registered(h, last) && h.name in NameSet(curr) + NameSet(newMasters);
    }
    assert At(last, n) == {};
    var c :| c in At(more, n) && At(last, n) == At(more, n) - {c};
    forall a, b | a in At(more, n) && b in At(more, n) ensures a == b {
      assert a !in At(last, n) && b !in At(last, n);
    }
  }

  // ---- When a run succeeds --------------------------------------------------------------

  predicate AddWorks(a: AddAnswer) {
    a.rendered && a.deployer && a.client && a.accepted && a.arrival == InSync
  }

  predicate RemoveWorks(a: RemoveAnswer) {
    a.client && a.accepted && a.deployer && a.deleted
  }

  ghost predicate DistinctAddresses(hosts: seq<Host>) {
    forall i, j :: 0 <= i < j < |hosts| ==> HostIp(hosts[i]) != HostIp(hosts[j])
  }

  /** etcd's list shows a member of that name. */
  ghost predicate Listed(listing: seq<string>, members: Members, name: string) {
    exists ip :: ip in listing && ip in members && members[ip] == name
  }

  lemma {:induction false} AddAllSucceeds(ipv6: bool, s: ScaleState, hosts: seq<Host>, answers: seq<AddAnswer>)
    requires |hosts| == |answers|
    ensures AddAll(ipv6, s, hosts, answers).ok
            <==> (forall a :: a in answers ==> AddWorks(a)) && DistinctAddresses(hosts) && Ips(hosts) !! s.members.Keys
    decreases |hosts|
  {
    hide AddOne, AddWorks;
    if hosts == [] {
      assert Ips(hosts) == {};
    } else {
      var h, r := hosts[0], AddOne(ipv6, s, hosts[0], answers[0]);
      AddOneSucceeds(ipv6, s, h, answers[0]);
      FirstAddress(hosts);
      assert answers == [answers[0]] + answers[1..];
      if r.ok {
        AddAllSucceeds(ipv6, r.st, hosts[1..], answers[1..]);
      }
    }
  }

  lemma AddOneSucceeds(ipv6: bool, s: ScaleState, h: Host, a: AddAnswer)
    ensures AddOne(ipv6, s, h, a).ok <==> AddWorks(a) && HostIp(h) !in s.members
    ensures AddOne(ipv6, s, h, a).ok ==> AddOne(ipv6, s, h, a).st.members == s.members[HostIp(h) := h.name]
  {
  }

  lemma FirstAddress(hosts: seq<Host>)
    requires hosts != []
    ensures Ips(hosts) == {HostIp(hosts[0])} + Ips(hosts[1..])
    ensures DistinctAddresses(hosts) <==> DistinctAddresses(hosts[1..]) && HostIp(hosts[0]) !in Ips(hosts[1..])
  {
    var rest := hosts[1..];
    assert hosts == [hosts[0]] + rest;
    if DistinctAddresses(hosts) {
      forall h | h in rest ensures HostIp(h) != HostIp(hosts[0]) {
        var i :| 0 <= i < |rest| && rest[i] == h;
        assert hosts[i + 1] == h;
      }
    }
    if HostIp(hosts[0]) !in Ips(rest) {
      forall i | 0 <= i < |rest| ensures HostIp(rest[i]) != HostIp(hosts[0]) {
        assert rest[i] in rest;
      }
    }
  }

  lemma RemoveOneSucceeds(ipv6: bool, s: ScaleState, h: Host, a: RemoveAnswer)
    requires h.ip == None
    ensures RemoveOne(ipv6, s, h, a).ok <==> RemoveWorks(a) && Listed(a.listing, s.members, h.name)
    ensures RemoveOne(ipv6, s, h, a).ok ==>
              exists ip :: ip in s.members && s.members[ip] == h.name
                           && RemoveOne(ipv6, s, h, a).st.members == s.members - {ip}
  {
    hide Endpoints, SwapDelete;
    FirstNamedIsListed(a.listing, s.members, h.name);
  }

  /** A master that is removed and deleted goes from the current masters if it is among them, and no other does. */
  lemma RemovedFromCurrent(ipv6: bool, s: ScaleState, h: Host, a: RemoveAnswer)
    requires RemoveOne(ipv6, s, h, a).ok
    ensures var curr := RemoveOne(ipv6, s, h, a).st.curr;
            && (h.name !in NameSet(s.curr) ==> curr == s.curr)
            && (h.name in NameSet(s.curr) ==>
                  exists x :: x in s.curr && x.name == h.name && multiset(curr) == multiset(s.curr) - multiset{x})
  {
    hide SwapDelete, Endpoints, FirstNamed;
    SwapDeleteRemovesOne(s.curr, h.name, 0);
  }

  lemma {:induction false} FirstNamedIsListed(listing: seq<string>, members: Members, name: string)
    ensures FirstNamed(listing, members, name).Some? ==> FirstNamed(listing, members, name).value in listing
    ensures FirstNamed(listing, members, name).Some? <==> Listed(listing, members, name)
  {
    if listing != [] {
      FirstNamedIsListed(listing[1..], members, name);
      assert listing == [listing[0]] + listing[1..];
    }
  }

  /** Whether every removal finds its member. */
  ghost predicate RemovesWork(hosts: seq<Host>, answers: seq<RemoveAnswer>, members: Members)
    requires |hosts| == |answers|
  {
    forall i :: 0 <= i < |hosts| ==> RemoveWorks(answers[i]) && Listed(answers[i].listing, members, hosts[i].name)
  }

  lemma {:induction false} RemoveAllSucceeds(ipv6: bool, s: ScaleState, hosts: seq<Host>, answers: seq<RemoveAnswer>)
    requires |hosts| == |answers| && DistinctNames(hosts) && forall h :: h in hosts ==> h.ip == None
    ensures RemoveAll(ipv6, s, hosts, answers).ok <==> RemovesWork(hosts, answers, s.members)
    decreases |hosts|
  {
    hide RemoveOne, RemoveWorks, Listed;
    if hosts != [] {
      var r := RemoveOne(ipv6, s, hosts[0], answers[0]);
      RemoveOneSucceeds(ipv6, s, hosts[0], answers[0]);
      if r.ok {
        var ip :| ip in s.members && s.members[ip] == hosts[0].name && r.st.members == s.members - {ip};
        RemoveAllSucceeds(ipv6, r.st, hosts[1..], answers[1..]);
        OthersStayListed(hosts, answers, s.members, ip);
      }
    }
  }

  lemma OthersStayListed(hosts: seq<Host>, answers: seq<RemoveAnswer>, members: Members, ip: string)
    requires hosts != [] && |hosts| == |answers| && DistinctNames(hosts)
    requires ip in members && members[ip] == hosts[0].name
    requires RemoveWorks(answers[0]) && Listed(answers[0].listing, members, hosts[0].name)
    ensures RemovesWork(hosts, answers, members) <==> RemovesWork(hosts[1..], answers[1..], members - {ip})
  {
    hide RemoveWorks;
    forall i | 0 < i < |hosts|
      ensures Listed(answers[i].listing, members, hosts[i].name)
              <==> Listed(answers[i].listing, members - {ip}, hosts[i].name)
    {
      assert hosts[i].name != hosts[0].name;
    }
    hide Listed;
    var rest, more := hosts[1..], answers[1..];
    forall i | 0 <= i < |rest|
      ensures RemoveWorks(more[i]) && Listed(more[i].listing, members - {ip}, rest[i].name)
              <==> RemoveWorks(answers[i + 1]) && Listed(answers[i + 1].listing, members, hosts[i + 1].name)
    {
    }
    if RemovesWork(rest, more, members - {ip}) {
      forall i | 0 <= i < |hosts|
        ensures RemoveWorks(answers[i]) && Listed(answers[i].listing, members, hosts[i].name)
      {
        if i > 0 {
          assert RemoveWorks(more[i - 1]) && Listed(more[i - 1].listing, members - {ip}, rest[i - 1].name);
        }
      }
    }
  }

  /**
   A run succeeds exactly if every step of it works, the new masters' addresses differ from each other and from
   those of the members, and etcd's list shows each master that leaves.
   */
  lemma SucceedsExactly(ipv6: bool, curr: seq<Host>, members: Members, newMasters: seq<Host>, oldMasters: seq<Host>,
                        adds: seq<AddAnswer>, removes: seq<RemoveAnswer>)
    requires |newMasters| == |adds| && |oldMasters| == |removes| && ProperDiff(newMasters, oldMasters, curr)
    ensures Scale(ipv6, AtStart(curr, members), newMasters, oldMasters, adds, removes).ok
            <==> && (forall a :: a in adds ==> AddWorks(a))
                 && DistinctAddresses(newMasters) && Ips(newMasters) !! members.Keys
                 && RemovesWork(oldMasters, removes, members)
  {
    hide AddAll, RemoveAll, MasterList, AddWorks, RemoveWorks, DistinctAddresses;
    var s := AtStart(curr, members);
    AddAllSucceeds(ipv6, s, newMasters, adds);
    if AddAll(ipv6, s, newMasters, adds).ok {
      var up := AddAll(ipv6, s, newMasters, adds).st;
      AddAllMembers(ipv6, s, newMasters, adds);
      RemoveAllSucceeds(ipv6, up, oldMasters, removes);
      LeaversUnmoved(members, up.members, newMasters, NameSet(oldMasters));
      forall i | 0 <= i < |oldMasters|
        ensures Listed(removes[i].listing, up.members, oldMasters[i].name)
                <==> Listed(removes[i].listing, members, oldMasters[i].name)
      {
        assert oldMasters[i].name in NameSet(oldMasters);
        ListedAt(removes[i].listing, up.members, members, oldMasters[i].name);
      }
    }
  }

  lemma ListedAt(listing: seq<string>, more: Members, members: Members, name: string)
    requires At(more, name) == At(members, name)
    ensures Listed(listing, more, name) <==> Listed(listing, members, name)
  {
    forall ip ensures ip in more && more[ip] == name <==> ip in members && members[ip] == name {
      assert ip in At(more, name) <==> ip in At(members, name);
    }
  }

  // ---- From the configuration to the run ------------------------------------------------

  ghost function HostsOf(hosts: map<string, Host>, names: set<string>): set<Host> {
    set n | n in names && n in hosts :: hosts[n]
  }

  /** The masters of a configuration; of several with one name the last counts. */
  ghost function Wanted(desired: seq<Host>): set<Host> {
    HostsOf(ByName(desired), ByName(desired).Keys)
  }

  ghost function Kept(desired: seq<Host>, active: seq<string>): set<Host> {
    HostsOf(ByName(desired), ByName(desired).Keys * Elements(active))
  }

  ghost function Joining(desired: seq<Host>, active: seq<string>): set<Host> {
    HostsOf(ByName(desired), ByName(desired).Keys - Elements(active))
  }

  ghost function Retired(desired: seq<Host>, active: seq<string>): set<string> {
    Elements(active) - ByName(desired).Keys
  }

  lemma ListedHosts(hosts: seq<Host>, from: map<string, Host>, names: set<string>)
    requires ListsExactly(hosts, from, names) && names <= from.Keys
    requires forall n :: n in names ==> from[n].name == n
    ensures AsSet(hosts) == HostsOf(from, names) && NameSet(hosts) == names
  {
    forall n | n in names ensures n in NameSet(hosts) && from[n] in AsSet(hosts) {
      assert from[n] in hosts;
    }
  }

  lemma DiffIsProper(desired: seq<Host>, active: seq<string>, newMasters: seq<Host>, oldMasters: seq<Host>,
                     curr: seq<Host>)
    requires ListsExactly(newMasters, ByName(desired), ByName(desired).Keys - Elements(active))
    requires ListsExactly(curr, ByName(desired), ByName(desired).Keys * Elements(active))
    requires var retired := Retired(desired, active);
             ListsExactly(oldMasters, map n | n in retired :: Host(n, None), retired)
    ensures ProperDiff(newMasters, oldMasters, curr)
    ensures AsSet(curr) == Kept(desired, active) && AsSet(newMasters) == Joining(desired, active)
    ensures NameSet(oldMasters) == Retired(desired, active)
    ensures AsSet(curr) + AsSet(newMasters) == Wanted(desired)
  {
    var wanted, there, retired := ByName(desired), Elements(active), Retired(desired, active);
    ByNameIsDesired(desired);
    ListedHosts(newMasters, wanted, wanted.Keys - there);
    ListedHosts(curr, wanted, wanted.Keys * there);
    ListedHosts(oldMasters, map n | n in retired :: Host(n, None), retired);
    assert HostsOf(wanted, wanted.Keys) == HostsOf(wanted, wanted.Keys - there) + HostsOf(wanted, wanted.Keys * there);
  }

  /** etcd's members are the masters that stay, at their addresses, and, once each, those that are to leave. */
  ghost predicate MembersAreActive(desired: seq<Host>, active: seq<string>, members: Members) {
    var retired := Retired(desired, active);
    && AllIn(Kept(desired, active), members)
    && (forall a :: a in members ==> members[a] in retired || exists h :: h in Kept(desired, active) && HostIp(h) == a)
    && (forall a, b :: a in members && b in members && members[a] == members[b] && members[a] in retired ==> a == b)
  }

  /**
   From the configured and the active masters to the end of the run: every step is safe, and success leaves exactly
   the configured masters just if etcd's members were the active ones.
   */
  method ScaleCluster(ipv6: bool, desired: seq<Host>, active: seq<string>, members: Members,
                      adds: Host -> AddAnswer, removes: Host -> RemoveAnswer)
    returns (ok: bool, operator: ClusterOperator)
    ensures var kept, joining, retired := Kept(desired, active), Joining(desired, active), Retired(desired, active);
            var plan := PlanOf(ipv6, members, kept, joining, retired);
            exists curr :: AsSet(curr) == kept && DistinctNames(curr)
                           && SafeRun(plan, Begin(members, curr), operator.events)
    ensures ok ==> (ExactlyIn(Wanted(desired), operator.members) <==> MembersAreActive(desired, active, members))
  {
    hide SafeRun, Scale, Kept, Joining, Wanted, Ips, MasterList, ExactlyIn, MembersAreActive, AllIn;
    var newMasters, oldMasters, curr := GetDiffNodes(desired, active);
    DiffIsProper(desired, active, newMasters, oldMasters, curr);
    operator := new ClusterOperator(ipv6, curr, members);
    var a := seq(|newMasters|, i requires 0 <= i < |newMasters| => adds(newMasters[i]));
    var b := seq(|oldMasters|, i requires 0 <= i < |oldMasters| => removes(oldMasters[i]));
    ok := operator.ScaleMasters(newMasters, oldMasters, a, b);
    ghost var r := Scale(ipv6, AtStart(curr, members), newMasters, oldMasters, a, b);
    assert [] + r.events == r.events;
    ScaleIsSafe(ipv6, curr, members, newMasters, oldMasters, a, b);
    ActiveEitherWay(desired, active, members, curr, NameSet(oldMasters));
    if ok {
      SuccessLeavesWantedExactly(ipv6, curr, members, newMasters, oldMasters, a, b);
    }
  }

  lemma ActiveEitherWay(desired: seq<Host>, active: seq<string>, members: Members, curr: seq<Host>,
                        leaving: set<string>)
    requires AsSet(curr) == Kept(desired, active) && leaving == Retired(desired, active)
    ensures OnlyActive(members, curr, leaving) <==> MembersAreActive(desired, active, members)
  {
    hide Kept, Retired;
    forall a ensures a in Ips(curr) <==> exists h :: h in Kept(desired, active) && HostIp(h) == a {
      if a in Ips(curr) {
        var h :| h in curr && HostIp(h) == a;
        assert h in AsSet(curr);
      }
    }
  }

  // ---- Run after run --------------------------------------------------------------------

  /**
   When etcd's members are the masters of the last configuration and no master that stays changes its address,
   a run toward the next configuration meets that condition, so after a success etcd's members are the masters of
   that configuration. This includes removing masters that an earlier run added.
   */
  lemma RunsFollowConfiguration(last: seq<Host>, next: seq<Host>, active: seq<string>, members: Members)
    requires ExactlyIn(Wanted(last), members) && Elements(active) == ByName(last).Keys
    requires forall n :: n in ByName(last) && n in ByName(next) ==> HostIp(ByName(last)[n]) == HostIp(ByName(next)[n])
    ensures MembersAreActive(next, active, members)
  {
    ByNameIsDesired(last);
    ByNameIsDesired(next);
    forall h | h in Kept(next, active) ensures Registered(h, members) {
      var before := ByName(last)[h.name];
      assert before in Wanted(last) && Registered(before, members);
    }
    forall a | a in members
      ensures members[a] in Retired(next, active) || exists h :: h in Kept(next, active) && HostIp(h) == a
      ensures members[a] in ByName(last) && HostIp(ByName(last)[members[a]]) == a
    {
      var h :| h in Wanted(last) && HostIp(h) == a;
      assert Registered(h, members) && h.name in ByName(last) && ByName(last)[h.name] == h;
      if h.name in ByName(next) {
        assert ByName(next)[h.name] in Kept(next, active);
      }
    }
  }
}
