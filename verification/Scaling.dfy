/** Growing and shrinking the set of masters one etcd member at a time, with any step allowed to fail. */
module Scaling {
  import opened Sequences
  import opened Options
  import opened DiffNodes

  /** etcd's members: for each peer address the name of the member, empty until its etcd has started. */
  type Members = map<string, string>

  const UNNAMED := ""

  function Endpoint(ipv6: bool, ip: string): string {
    if ipv6 then "https://[" + ip + "]:4001" else "https://" + ip + ":4001"
  }

  function Endpoints(ipv6: bool, hosts: seq<Host>): seq<string> {
    seq(|hosts|, i requires 0 <= i < |hosts| => Endpoint(ipv6, HostIp(hosts[i])))
  }

  /** The list of masters given to a host: every name with its address. */
  function MasterList(hosts: seq<Host>): map<string, string> {
    if hosts == [] then map[]
    else MasterList(hosts[..|hosts| - 1])[hosts[|hosts| - 1].name := HostIp(hosts[|hosts| - 1])]
  }

  /** What can be seen of a run; each call of etcd shows before its outcome. */
  datatype Event =
    | Rendered(host: Host, list: map<string, string>)
    | AddCalled(address: string, endpoints: seq<string>)
    | MemberAdded(address: string)
    | MemberStarted(address: string, name: string)
    | Synced(address: string)
    | ListCalled(endpoints: seq<string>)
    | RemoveCalled(address: string, endpoints: seq<string>)
    | MemberRemoved(address: string)

  /** How far an accepted master gets: nowhere, to a running etcd, or to a converged node. */
  datatype Arrival = Silent | Started | InSync

  /** Which parts of adding one master work. */
  datatype AddAnswer = AddAnswer(rendered: bool, deployer: bool, client: bool, accepted: bool, arrival: Arrival)

  /** Which parts of removing one master work; etcd lists its members in any order, or none when that fails. */
  datatype RemoveAnswer =
    RemoveAnswer(client: bool, listing: seq<string>, accepted: bool, deployer: bool, deleted: bool)

  datatype ScaleState = ScaleState(curr: seq<Host>, list: map<string, string>, members: Members)
  datatype ScaleResult = ScaleResult(st: ScaleState, events: seq<Event>, ok: bool)

  /** What becomes of a master that etcd has accepted. */
  function Join(s: ScaleState, h: Host, arrival: Arrival): ScaleResult {
    var ip := HostIp(h);
    var started := s.(members := s.members[ip := h.name]);
    match arrival
    case Silent => ScaleResult(s.(members := s.members[ip := UNNAMED]), [MemberAdded(ip)], false)
    case Started => ScaleResult(started, [MemberAdded(ip), MemberStarted(ip, h.name)], false)
    case InSync =>
      ScaleResult(started.(curr := s.curr + [h]), [MemberAdded(ip), MemberStarted(ip, h.name), Synced(ip)], true)
  }

  /** etcd takes an address only once. */
  function AddOne(ipv6: bool, s: ScaleState, h: Host, a: AddAnswer): ScaleResult {
    var ip := HostIp(h);
    var s1 := s.(list := s.list[h.name := ip]);
    if !a.rendered then ScaleResult(s1, [], false)
    else if !a.deployer || !a.client then ScaleResult(s1, [Rendered(h, s1.list)], false)
    else
      var before := [Rendered(h, s1.list), AddCalled(ip, Endpoints(ipv6, s.curr))];
      if !a.accepted || ip in s.members then ScaleResult(s1, before, false)
      else
        var r := Join(s1, h, a.arrival);
        r.(events := before + r.events)
  }

  function AddAll(ipv6: bool, s: ScaleState, hosts: seq<Host>, answers: seq<AddAnswer>): ScaleResult
    requires |hosts| == |answers|
    decreases |hosts|
  {
    if hosts == [] then ScaleResult(s, [], true)
    else
      var r := AddOne(ipv6, s, hosts[0], answers[0]);
      if !r.ok then r
      else
        var rest := AddAll(ipv6, r.st, hosts[1..], answers[1..]);
        rest.(events := r.events + rest.events)
  }

  /** Removing a host by putting the last one in its place. */
  function SwapDelete(hosts: seq<Host>, name: string, i: nat): seq<Host>
    requires i <= |hosts|
    decreases |hosts| - i
  {
    if i == |hosts| then hosts
    else if hosts[i].name == name then hosts[i := hosts[|hosts| - 1]][..|hosts| - 1]
    else SwapDelete(hosts, name, i + 1)
  }

  /** The address of the first member listed under a name. */
  function FirstNamed(listing: seq<string>, members: Members, name: string): (r: Option<string>)
    ensures r.Some? ==> r.value in members && members[r.value] == name
    ensures r.None? ==> forall a :: a in listing && a in members ==> members[a] != name
  {
    if listing == [] then None
    else if listing[0] in members && members[listing[0]] == name then Some(listing[0])
    else FirstNamed(listing[1..], members, name)
  }

  function RemoveOne(ipv6: bool, s: ScaleState, h: Host, a: RemoveAnswer): ScaleResult {
    var endpoints := Endpoints(ipv6, s.curr);
    if !a.client then ScaleResult(s, [], false)
    else
      match FirstNamed(a.listing, s.members, HostIp(h))
      case None => ScaleResult(s, [ListCalled(endpoints)], false)
      case Some(ip) =>
        var before := [ListCalled(endpoints), RemoveCalled(ip, endpoints)];
        if !a.accepted then ScaleResult(s, before, false)
        else
          var s1 := s.(members := s.members - {ip});
          if !a.deployer || !a.deleted then ScaleResult(s1, before + [MemberRemoved(ip)], false)
          else ScaleResult(s1.(curr := SwapDelete(s.curr, h.name, 0)), before + [MemberRemoved(ip)], true)
  }

  function RemoveAll(ipv6: bool, s: ScaleState, hosts: seq<Host>, answers: seq<RemoveAnswer>): ScaleResult
    requires |hosts| == |answers|
    decreases |hosts|
  {
    if hosts == [] then ScaleResult(s, [], true)
    else
      var r := RemoveOne(ipv6, s, hosts[0], answers[0]);
      if !r.ok then r
      else
        var rest := RemoveAll(ipv6, r.st, hosts[1..], answers[1..]);
        rest.(events := r.events + rest.events)
  }

  function Scale(ipv6: bool, s: ScaleState, newMasters: seq<Host>, oldMasters: seq<Host>,
                 adds: seq<AddAnswer>, removes: seq<RemoveAnswer>): ScaleResult
    requires |newMasters| == |adds| && |oldMasters| == |removes|
  {
    var up := AddAll(ipv6, s, newMasters, adds);
    if !up.ok then up
    else
      var down := RemoveAll(ipv6, up.st, oldMasters, removes);
      down.(events := up.events + down.events)
  }

  // ---- The operator as it runs ----------------------------------------------------------

  class ClusterOperator {
    const ipv6: bool
    var currMasters: seq<Host>
    var masterList: map<string, string>
    var members: Members           // of etcd
    ghost var events: seq<Event>   // everything done so far

    constructor (ipv6: bool, currMasters: seq<Host>, members: Members)
      ensures this.ipv6 == ipv6 && Model() == ScaleState(currMasters, map[], members) && events == []
    {
      this.ipv6, this.currMasters, this.masterList, this.members := ipv6, currMasters, map[], members;
      events := [];
    }

    ghost function Model(): ScaleState
      reads this
    {
      ScaleState(currMasters, masterList, members)
    }

    twostate predicate Performed(r: ScaleResult)
      reads this
    {
      Model() == r.st && events == old(events) + r.events
    }

    method AddMasters(newMasters: seq<Host>, answers: seq<AddAnswer>) returns (ok: bool)
      requires |newMasters| == |answers|
      modifies this
      ensures var r := AddAll(ipv6, old(Model()).(list := MasterList(old(currMasters))), newMasters, answers);
              Performed(r) && ok == r.ok
    {
      hide AddOne;
      InitMasterList();
      ghost var whole := AddAll(ipv6, Model(), newMasters, answers);
      var i := 0;
      while i < |newMasters|
        invariant 0 <= i <= |newMasters|
        invariant var rest := AddAll(ipv6, Model(), newMasters[i..], answers[i..]);
                  && whole.st == rest.st && whole.ok == rest.ok
                  && old(events) + whole.events == events + rest.events
      {
        ghost var m, before := Model(), events;
        ok := AddMaster(newMasters[i], answers[i]);
        ghost var r := AddOne(ipv6, m, newMasters[i], answers[i]);
        assert newMasters[i..][1..] == newMasters[i + 1..] && answers[i..][1..] == answers[i + 1..];
        if !ok {
          return;
        }
        Associates(before, r.events, AddAll(ipv6, r.st, newMasters[i + 1..], answers[i + 1..]).events);
        i := i + 1;
      }
      ok := true;
    }

    method InitMasterList()
      modifies this`masterList
      ensures masterList == MasterList(currMasters)
    {
      masterList := map[];
      for i := 0 to |currMasters|
        invariant masterList == MasterList(currMasters[..i])
      {
        assert currMasters[..i + 1][..i] == currMasters[..i];
        masterList := masterList[currMasters[i].name := HostIp(currMasters[i])];
      }
      assert currMasters[..|currMasters|] == currMasters;
    }

    method AddMaster(host: Host, a: AddAnswer) returns (ok: bool)
      modifies this
      ensures var r := AddOne(ipv6, old(Model()), host, a);
              Performed(r) && ok == r.ok
    {
      var ip := HostIp(host);
      masterList := masterList[host.name := ip];
      if !a.rendered {
        return false;
      }
      events := events + [Rendered(host, masterList)];
      if !a.deployer || !a.client {
        return false;
      }
      events := events + [AddCalled(ip, Endpoints(ipv6, currMasters))];
      if !a.accepted || ip in members {
        return false;
      }
      ghost var before := events;
      ok := JoinMaster(host, a.arrival);
      Associates(old(events), before[|old(events)|..], events[|before|..]);
    }

    /** Spawns the master and waits for it. */
    method JoinMaster(host: Host, arrival: Arrival) returns (ok: bool)
      modifies this
      ensures var r := Join(old(Model()), host, arrival);
              Performed(r) && ok == r.ok
    {
      var ip := HostIp(host);
      members := members[ip := UNNAMED];
      events := events + [MemberAdded(ip)];
      if arrival == Silent {
        return false;
      }
      members := members[ip := host.name];
      events := events + [MemberStarted(ip, host.name)];
      if arrival == Started {
        return false;
      }
      events := events + [Synced(ip)];
      currMasters := currMasters + [host];
      ok := true;
    }

    method RemoveMasters(oldMasters: seq<Host>, answers: seq<RemoveAnswer>) returns (ok: bool)
      requires |oldMasters| == |answers|
      modifies this
      ensures var r := RemoveAll(ipv6, old(Model()), oldMasters, answers);
              Performed(r) && ok == r.ok
    {
      hide RemoveOne;
      ghost var whole := RemoveAll(ipv6, Model(), oldMasters, answers);
      var i := 0;
      while i < |oldMasters|
        invariant 0 <= i <= |oldMasters|
        invariant var rest := RemoveAll(ipv6, Model(), oldMasters[i..], answers[i..]);
                  && whole.st == rest.st && whole.ok == rest.ok
                  && old(events) + whole.events == events + rest.events
      {
        ghost var m, before := Model(), events;
        ok := RemoveMaster(oldMasters[i], answers[i]);
        ghost var r := RemoveOne(ipv6, m, oldMasters[i], answers[i]);
        assert oldMasters[i..][1..] == oldMasters[i + 1..] && answers[i..][1..] == answers[i + 1..];
        if !ok {
          return;
        }
        Associates(before, r.events, RemoveAll(ipv6, r.st, oldMasters[i + 1..], answers[i + 1..]).events);
        i := i + 1;
      }
      ok := true;
    }

    /** The loop through etcd's list of members. */
    method FindEtcdMember(listing: seq<string>, name: string) returns (found: Option<string>)
      ensures found == FirstNamed(listing, members, name)
    {
      for i := 0 to |listing|
        invariant FirstNamed(listing, members, name) == FirstNamed(listing[i..], members, name)
      {
        assert listing[i..][0] == listing[i] && listing[i..][1..] == listing[i + 1..];
        if listing[i] in members && members[listing[i]] == name {
          return Some(listing[i]);
        }
      }
      found := None;
    }

    method RemoveMaster(host: Host, a: RemoveAnswer) returns (ok: bool)
      modifies this
      ensures var r := RemoveOne(ipv6, old(Model()), host, a);
              Performed(r) && ok == r.ok
    {
      hide FirstNamed, SwapDelete;
      if !a.client {
        return false;
      }
      events := events + [ListCalled(Endpoints(ipv6, currMasters))];
      var found := FindEtcdMember(a.listing, HostIp(host));
      if found.None? {
        return false;
      }
      events := events + [RemoveCalled(found.value, Endpoints(ipv6, currMasters))];
      if !a.accepted {
        return false;
      }
      events := events + [MemberRemoved(found.value)];
      members := members - {found.value};
      if !a.deployer || !a.deleted {
        return false;
      }
      DropFromCurrent(host.name);
      ok := true;
    }

    method DropFromCurrent(name: string)
      modifies this`currMasters
      ensures currMasters == SwapDelete(old(currMasters), name, 0)
    {
      var i := 0;
      while i < |currMasters|
        invariant 0 <= i <= |currMasters| && currMasters == old(currMasters)
        invariant SwapDelete(currMasters, name, 0) == SwapDelete(currMasters, name, i)
      {
        if currMasters[i].name == name {
          currMasters := currMasters[i := currMasters[|currMasters| - 1]];
          currMasters := currMasters[..|currMasters| - 1];
          return;
        }
        i := i + 1;
      }
    }

    method ScaleMasters(newMasters: seq<Host>, oldMasters: seq<Host>, adds: seq<AddAnswer>, removes: seq<RemoveAnswer>)
      returns (ok: bool)
      requires |newMasters| == |adds| && |oldMasters| == |removes|
      modifies this
      ensures var s := old(Model()).(list := MasterList(old(currMasters)));
              var r := Scale(ipv6, s, newMasters, oldMasters, adds, removes);
              Performed(r) && ok == r.ok
    {
      ghost var up := AddAll(ipv6, Model().(list := MasterList(currMasters)), newMasters, adds);
      ok := AddMasters(newMasters, adds);
      if ok {
        ok := RemoveMasters(oldMasters, removes);
        Associates(old(events), up.events, RemoveAll(ipv6, up.st, oldMasters, removes).events);
      }
    }
  }

  // ---- Swap-delete ----------------------------------------------------------------------

  lemma SwappingOut(hosts: seq<Host>, i: nat)
    requires i < |hosts|
    ensures multiset(hosts[i := hosts[|hosts| - 1]][..|hosts| - 1]) == multiset(hosts) - multiset{hosts[i]}
  {
    var n := |hosts| - 1;
    assert hosts == hosts[..n] + [hosts[n]];
    if i == n {
      assert hosts[i := hosts[n]][..n] == hosts[..n];
    } else {
      assert hosts[i := hosts[n]][..n] == hosts[..n][i := hosts[n]];
      assert multiset(hosts[..n][i := hosts[n]]) == multiset(hosts[..n]) - multiset{hosts[i]} + multiset{hosts[n]};
    }
  }

  /** It takes away exactly one entry of that name, and nothing if there is none. */
  lemma {:induction false} SwapDeleteRemovesOne(hosts: seq<Host>, name: string, i: nat)
    requires i <= |hosts| && forall k :: 0 <= k < i ==> hosts[k].name != name
    ensures name !in NameSet(hosts) ==> SwapDelete(hosts, name, i) == hosts
    ensures name in NameSet(hosts) ==>
              exists h :: h in hosts && h.name == name
                          && multiset(SwapDelete(hosts, name, i)) == multiset(hosts) - multiset{h}
    decreases |hosts| - i
  {
    if i == |hosts| {
      assert forall h :: h in hosts ==> h.name != name;
    } else if hosts[i].name == name {
      SwappingOut(hosts, i);
      assert hosts[i] in hosts;
    } else {
      SwapDeleteRemovesOne(hosts, name, i + 1);
    }
  }
}
