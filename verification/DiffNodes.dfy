/** Comparing the hosts a cluster should have with those it has. */
module DiffNodes {
  import opened Options

  datatype Host = Host(name: string, ip: Option<string>)

  /** How other hosts and etcd know it: its address, or its name for want of one. */
  function HostIp(h: Host): (ip: string)
    ensures h.ip == Some(ip) || (h.ip == None && ip == h.name)
  {
    if h.ip.Some? then h.ip.value else h.name
  }

  ghost predicate DistinctNames(hosts: seq<Host>) {
    forall i, j :: 0 <= i < j < |hosts| ==> hosts[i].name != hosts[j].name
  }

  ghost function NameSet(hosts: seq<Host>): set<string> {
    set h | h in hosts :: h.name
  }

  ghost function Ips(hosts: seq<Host>): set<string> {
    set h | h in hosts :: HostIp(h)
  }

  function NameList(hosts: seq<Host>): seq<string> {
    seq(|hosts|, i requires 0 <= i < |hosts| => hosts[i].name)
  }

  /** The desired hosts by name; of several with one name the last counts. */
  function ByName(desired: seq<Host>): map<string, Host> {
    if desired == [] then map[]
    else ByName(desired[..|desired| - 1])[desired[|desired| - 1].name := desired[|desired| - 1]]
  }

  lemma {:induction false} ByNameIsDesired(desired: seq<Host>)
    ensures ByName(desired).Keys == NameSet(desired)
    ensures forall n :: n in ByName(desired) ==> ByName(desired)[n] in desired && ByName(desired)[n].name == n
  {
    if desired != [] {
      var m := |desired| - 1;
      ByNameIsDesired(desired[..m]);
      assert desired == desired[..m] + [desired[m]];
      assert NameSet(desired) == NameSet(desired[..m]) + {desired[m].name};
    }
  }

  /** Of the desired hosts of one name the last counts; so without repeated names every one does. */
  lemma {:induction false} ByNameComplete(desired: seq<Host>, i: nat)
    requires i < |desired| && forall j :: i < j < |desired| ==> desired[j].name != desired[i].name
    ensures desired[i].name in ByName(desired) && ByName(desired)[desired[i].name] == desired[i]
  {
    var m := |desired| - 1;
    if i < m {
      ByNameComplete(desired[..m], i);
    }
  }

  ghost predicate ListsExactly(hosts: seq<Host>, from: map<string, Host>, names: set<string>) {
    && DistinctNames(hosts)
    && forall h :: h in hosts <==> h.name in names && h.name in from && from[h.name] == h
  }

  /** What to add, what to remove and what stays, whatever order the maps are walked in. */
  method GetDiffNodes(desired: seq<Host>, active: seq<string>)
    returns (newNodes: seq<Host>, oldNodes: seq<Host>, currNodes: seq<Host>)
    ensures var wanted, there := ByName(desired), Elements(active);
            && ListsExactly(newNodes, wanted, wanted.Keys - there)
            && ListsExactly(currNodes, wanted, wanted.Keys * there)
            && ListsExactly(oldNodes, map n | n in there - wanted.Keys :: Host(n, None), there - wanted.Keys)
  {
    var activeNodes: set<string> := {};
    for i := 0 to |active|
      invariant activeNodes == set n | n in active[..i]
    {
      activeNodes := activeNodes + {active[i]};
    }
    assert active[..|active|] == active;
    var desiredNodes: map<string, Host> := map[];
    for i := 0 to |desired|
      invariant desiredNodes == ByName(desired[..i])
    {
      assert desired[..i + 1][..i] == desired[..i];
      desiredNodes := desiredNodes[desired[i].name := desired[i]];
    }
    assert desired[..|desired|] == desired;
    ByNameIsDesired(desired);
    oldNodes := CollectOld(activeNodes, desiredNodes);
    newNodes, currNodes := CollectDesired(activeNodes, desiredNodes);
  }

  method CollectOld(activeNodes: set<string>, desiredNodes: map<string, Host>) returns (oldNodes: seq<Host>)
    ensures ListsExactly(oldNodes, map n | n in activeNodes - desiredNodes.Keys :: Host(n, None),
                         activeNodes - desiredNodes.Keys)
  {
    oldNodes := [];
    var todo := activeNodes;
    while todo != {}
      invariant todo <= activeNodes
      invariant DistinctNames(oldNodes)
      invariant forall h :: h in oldNodes
                            <==> h.name in activeNodes - todo - desiredNodes.Keys && h == Host(h.name, None)
    {
      var n :| n in todo;
      todo := todo - {n};
      if n !in desiredNodes {
        AppendDistinct(oldNodes, Host(n, None));
        oldNodes := oldNodes + [Host(n, None)];
      }
    }
  }

  lemma AppendDistinct(hosts: seq<Host>, h: Host)
    requires DistinctNames(hosts) && forall x :: x in hosts ==> x.name != h.name
    ensures DistinctNames(hosts + [h])
  {
  }

  method CollectDesired(activeNodes: set<string>, desiredNodes: map<string, Host>)
    returns (newNodes: seq<Host>, currNodes: seq<Host>)
    requires forall n :: n in desiredNodes ==> desiredNodes[n].name == n
    ensures ListsExactly(newNodes, desiredNodes, desiredNodes.Keys - activeNodes)
    ensures ListsExactly(currNodes, desiredNodes, desiredNodes.Keys * activeNodes)
  {
    newNodes, currNodes := [], [];
    var todo := desiredNodes.Keys;
    while todo != {}
      invariant todo <= desiredNodes.Keys
      invariant ListsExactly(newNodes, desiredNodes, desiredNodes.Keys - todo - activeNodes)
      invariant ListsExactly(currNodes, desiredNodes, (desiredNodes.Keys - todo) * activeNodes)
    {
      var n :| n in todo;
      var h := desiredNodes[n];
      todo := todo - {n};
      if n !in activeNodes {
        AppendDistinct(newNodes, h);
        newNodes := newNodes + [h];
      } else {
        AppendDistinct(currNodes, h);
        currNodes := currNodes + [h];
      }
    }
  }

  // ---- The gate before an upgrade -------------------------------------------------------

  ghost predicate Distinct(names: seq<string>) {
    forall i, j :: 0 <= i < j < |names| ==> names[i] != names[j]
  }

  ghost function Elements(names: seq<string>): set<string> {
    set n | n in names
  }

  /** A list is as long as the set of its elements exactly when nothing repeats. */
  lemma {:induction false} Pigeonhole(names: seq<string>)
    ensures |Elements(names)| <= |names|
    ensures Distinct(names) <==> |Elements(names)| == |names|
  {
    if names != [] {
      var m := |names| - 1;
      var last := names[m];
      Pigeonhole(names[..m]);
      assert names == names[..m] + [last];
      assert Elements(names) == Elements(names[..m]) + {last};
      if last in names[..m] {
        assert Elements(names) == Elements(names[..m]);
      } else {
        assert |Elements(names)| == |Elements(names[..m])| + 1;
      }
    }
  }

  lemma {:induction false} SameElementsPermute(x: seq<string>, y: seq<string>)
    requires Distinct(x) && Distinct(y) && Elements(x) == Elements(y)
    ensures multiset(x) == multiset(y)
  {
    forall n ensures multiset(x)[n] == multiset(y)[n] {
      CountOfDistinct(x, n);
      CountOfDistinct(y, n);
      assert n in Elements(x) <==> n in Elements(y);
    }
  }

  lemma {:induction false} CountOfDistinct(x: seq<string>, n: string)
    requires Distinct(x)
    ensures multiset(x)[n] == if n in x then 1 else 0
  {
    if x != [] {
      var m := |x| - 1;
      assert x == x[..m] + [x[m]];
      CountOfDistinct(x[..m], n);
    }
  }

  /** The two checks the upgrade makes before it touches anything. */
  method NodesMatch(desired: seq<Host>, active: seq<string>) returns (ok: bool)
    ensures ok <==> |desired| == |active| && Elements(NameList(desired)) == Elements(active)
  {
    if |desired| != |active| {
      return false;
    }
    var newNodes, oldNodes, _ := GetDiffNodes(desired, active);
    ok := |newNodes| == 0 && |oldNodes| == 0;
    DiffsEmptyExactly(desired, active, newNodes, oldNodes);
  }

  lemma DiffsEmptyExactly(desired: seq<Host>, active: seq<string>, newNodes: seq<Host>, oldNodes: seq<Host>)
    requires var wanted, there := ByName(desired), (set n | n in active);
             && ListsExactly(newNodes, wanted, wanted.Keys - there)
             && ListsExactly(oldNodes, map n | n in there - wanted.Keys :: Host(n, None), there - wanted.Keys)
    ensures newNodes == [] && oldNodes == [] <==> Elements(NameList(desired)) == Elements(active)
  {
    ByNameIsDesired(desired);
    var wanted, there := ByName(desired), (set n | n in active);
    assert Elements(active) == there;
    NamesAreElements(desired);
    forall n | n in wanted.Keys - there ensures newNodes != [] {
      assert wanted[n] in newNodes;
    }
    forall n | n in there - wanted.Keys ensures oldNodes != [] {
      assert Host(n, None) in oldNodes;
    }
    if newNodes != [] {
      assert newNodes[0] in newNodes;
      assert newNodes[0].name in wanted.Keys - there;
    }
    if oldNodes != [] {
      assert oldNodes[0] in oldNodes;
      assert oldNodes[0].name in there - wanted.Keys;
    }
  }

  lemma NamesAreElements(hosts: seq<Host>)
    ensures Elements(NameList(hosts)) == NameSet(hosts)
  {
    forall n | n in NameSet(hosts) ensures n in Elements(NameList(hosts)) {
      var h :| h in hosts && h.name == n;
      var i :| 0 <= i < |hosts| && hosts[i] == h;
      assert NameList(hosts)[i] == n;
    }
  }

  /** Node names being unique, the gate passes exactly if the desired names are a permutation of the active ones. */
  lemma GateIsPermutation(desired: seq<Host>, active: seq<string>)
    requires Distinct(active)
    ensures |desired| == |active| && Elements(NameList(desired)) == Elements(active)
            <==> Distinct(NameList(desired)) && multiset(NameList(desired)) == multiset(active)
  {
    var names := NameList(desired);
    Pigeonhole(active);
    Pigeonhole(names);
    if |desired| == |active| && Elements(names) == Elements(active) {
      SameElementsPermute(names, active);
    }
    if multiset(names) == multiset(active) {
      assert |multiset(names)| == |names| && |multiset(active)| == |active|;
      forall n ensures n in Elements(names) <==> n in Elements(active) {
        assert n in names <==> n in multiset(names);
        assert n in active <==> n in multiset(active);
      }
    }
  }

  /**
   That names are unique is needed: a list with a repeated name, which the Kubernetes API does not return, could
   pass the gate against one that is no permutation of it.
   */
  lemma RepeatsFoolTheGate()
    ensures exists desired: seq<Host>, active: seq<string> ::
              && |desired| == |active| && Elements(NameList(desired)) == Elements(active)
              && multiset(NameList(desired)) != multiset(active)
  {
    var desired := [Host("a", None), Host("a", None), Host("b", None)];
    var active := ["a", "b", "b"];
    assert NameList(desired) == ["a", "a", "b"];
    assert Elements(["a", "a", "b"]) == {"a", "b"} == Elements(active);
    assert multiset(["a", "a", "b"])["a"] == 2 && multiset(active)["a"] == 1;
  }
}
