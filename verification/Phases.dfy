/** The phase lists of the three node roles and the check that orders them. */
module Phases {
  import opened Options

  const ROLE_NONE := "none"
  const ROLE_WORKER := "worker"
  const ROLE_MASTER := "master"

  /** A phase as the reconciler sees it: a name to report and an order number. */
  datatype Phase = Phase(name: string, order: int)

  const GEN_CERTS_ORDER := 20
  const UNCORDON_ORDER := 130
  const DRAIN_ORDER := 210

  function Names(phases: seq<Phase>): (names: seq<string>)
    ensures |names| == |phases|
  {
    seq(|phases|, i requires 0 <= i < |phases| => phases[i].name)
  }

  lemma NameAt(phases: seq<Phase>, i: nat)
    requires i < |phases|
    ensures Names(phases)[i] == phases[i].name
  {
  }

  ghost predicate StrictlyOrdered(phases: seq<Phase>) {
    forall i, j :: 0 <= i < j < |phases| ==> phases[i].order < phases[j].order
  }

  /** The source compares neighbours only; the promise is about every pair. */
  method ValidatePhaseOrdering(phases: seq<Phase>) returns (ok: bool)
    ensures ok <==> StrictlyOrdered(phases)
  {
    var i := 0;
    while i < |phases| - 1
      invariant 0 <= i
      invariant i <= |phases| - 1 || |phases| == 0
      invariant forall j, k :: 0 <= j < k <= i && k < |phases| ==> phases[j].order < phases[k].order
    {
      if phases[i].order >= phases[i + 1].order {
        return false;
      }
      i := i + 1;
    }
    return true;
  }

  function MasterPhases(): seq<Phase> {
    [ Phase("Generate certs / Send signing request to CA", 20),
      Phase("Prepare configuration", 30),
      Phase("Configure Container Runtime", 40),
      Phase("Start Container Runtime", 45),
      Phase("Load user images to container runtime", 48),
      Phase("Configure etcd", 50),
      Phase("Start etcd", 55),
      Phase("Network configuration", 60),
      Phase("Configure CNI plugin", 65),
      Phase("Configure and start pf9-bouncer", 70),
      Phase("Miscellaneous scripts and checks", 75),
      Phase("Configure and Start kubelet", 80),
      Phase("Configure and start kube-proxy", 90),
      Phase("Wait for k8s services and network to be up", 100),
      Phase("Apply and validate node taints", 110),
      Phase("Apply dynamic kubelet configuration", 120),
      Phase("Uncordon node", 130),
      Phase("Deploy app catalog", 160),
      Phase("Configure and start Keepalived", 180),
      Phase("Configure and start coredns", 206),
      Phase("Drain all pods (stop only operation)", 210) ]
  }

  function WorkerPhases(): seq<Phase> {
    [ Phase("Generate certs / Send signing request to CA", 20),
      Phase("Prepare configuration", 30),
      Phase("Configure Container Runtime", 40),
      Phase("Start Container Runtime", 45),
      Phase("Load user images to container runtime", 48),
      Phase("Network configuration", 60),
      Phase("Configure CNI plugin", 65),
      Phase("Miscellaneous scripts and checks", 75),
      Phase("Configure and Start kubelet", 80),
      Phase("Configure and start kube-proxy", 90),
      Phase("Wait for k8s services and network to be up", 100),
      Phase("Apply and validate node taints", 110),
      Phase("Apply dynamic kubelet configuration", 120),
      Phase("Uncordon node", 130),
      Phase("Drain all pods (stop only operation)", 210) ]
  }

  function NoRolePhases(): seq<Phase> {
    [ Phase("No role assigned. (Cleanup scripts only)", 10) ]
  }

  /**
   The phases for a role. A role that is none of the three yields an empty list, or an error left over from
   setting up control groups; every other list is in strict order.
   */
  method InitAndLoadRolePhases(role: string, useCgroups: bool, disableScripts: bool, cgroupsWork: bool)
    returns (r: Option<seq<Phase>>)
    ensures var unknown := role !in {ROLE_NONE, ROLE_WORKER, ROLE_MASTER};
            && (r.None? <==> unknown && useCgroups && !disableScripts && !cgroupsWork)
            && (r.Some? ==> StrictlyOrdered(r.value) && (r.value == [] <==> unknown))
            && (role == ROLE_MASTER ==> r == Some(MasterPhases()))
            && (role == ROLE_WORKER ==> r == Some(WorkerPhases()))
            && (role == ROLE_NONE ==> r.Some? && |r.value| == 1 && r.value[0].order != GEN_CERTS_ORDER)
  {
    hide MasterPhases, WorkerPhases;
    var ok := true;
    if useCgroups && !disableScripts {
      ok := cgroupsWork;
    }
    var phaseList: seq<Phase> := [];
    if role == ROLE_NONE {
      phaseList, ok := NoRolePhases(), true;
    } else if role == ROLE_WORKER {
      phaseList := WorkerPhases();
      WorkerPhasesShape();
      ok := ValidatePhaseOrdering(phaseList);
    } else if role == ROLE_MASTER {
      phaseList := MasterPhases();
      MasterPhasesShape();
      ok := ValidatePhaseOrdering(phaseList);
    }
    if !ok {
      return None;
    }
    return Some(phaseList);
  }

  /** Certificates are generated by the first phase and by no other. */
  ghost predicate GenCertsFirst(phases: seq<Phase>) {
    && 0 < |phases|
    && phases[0].order == GEN_CERTS_ORDER
    && forall i :: 0 < i < |phases| ==> phases[i].order != GEN_CERTS_ORDER
  }

  /** The uncordon phase stands at index `u` and the drain phase is last. */
  ghost predicate UncordonAt(phases: seq<Phase>, u: nat) {
    && u < |phases| - 1
    && (forall i :: 0 <= i < |phases| ==> (phases[i].order == UNCORDON_ORDER <==> i == u))
    && (forall i :: 0 <= i < |phases| ==> (phases[i].order == DRAIN_ORDER <==> i == |phases| - 1))
  }

  /** Comparing neighbours is enough. */
  lemma {:induction false} NeighboursSuffice(phases: seq<Phase>, i: nat, j: nat)
    requires forall k :: 0 <= k < |phases| - 1 ==> phases[k].order < phases[k + 1].order
    requires i < j < |phases|
    ensures phases[i].order < phases[j].order
  {
    if i + 1 < j {
      NeighboursSuffice(phases, i, j - 1);
      assert phases[j - 1].order < phases[j - 1 + 1].order;
    } else {
      assert phases[i].order < phases[i + 1].order;
    }
  }

  lemma OrderFixesPlaces(phases: seq<Phase>, u: nat)
    requires forall k :: 0 <= k < |phases| - 1 ==> phases[k].order < phases[k + 1].order
    requires u < |phases| - 1
    requires phases[0].order == GEN_CERTS_ORDER
    requires phases[u].order == UNCORDON_ORDER
    requires phases[|phases| - 1].order == DRAIN_ORDER
    ensures StrictlyOrdered(phases) && GenCertsFirst(phases) && UncordonAt(phases, u)
  {
    forall i, j | 0 <= i < j < |phases| ensures phases[i].order < phases[j].order {
      NeighboursSuffice(phases, i, j);
    }
  }

  /** The role lists pass the ordering check; certificates come first and draining last. */
  lemma MasterPhasesShape()
    ensures |MasterPhases()| == 21 && StrictlyOrdered(MasterPhases())
    ensures GenCertsFirst(MasterPhases()) && UncordonAt(MasterPhases(), 16)
  {
    OrderFixesPlaces(MasterPhases(), 16);
  }

  lemma WorkerPhasesShape()
    ensures |WorkerPhases()| == 15 && StrictlyOrdered(WorkerPhases())
    ensures GenCertsFirst(WorkerPhases()) && UncordonAt(WorkerPhases(), 13)
  {
    OrderFixesPlaces(WorkerPhases(), 13);
  }

  /** Where the phases of a worker stand in the list of a master. */
  function AmongMasters(i: nat): nat {
    if i < 5 then i else if i < 7 then i + 2 else if i < 14 then i + 3 else i + 6
  }

  /** The phases that only a control plane needs: etcd, its webhook, the add-ons and the virtual address. */
  predicate ControlPlaneOnly(order: int) {
    order == 50 || order == 55 || order == 70 || order == 160 || order == 180 || order == 206
  }

  /** A worker runs exactly the phases of a master that are not the control plane's, in the same order. */
  lemma WorkerIsMasterWithoutControlPlane()
    ensures forall i :: 0 <= i < 15 ==> WorkerPhases()[i] == MasterPhases()[AmongMasters(i)]
    ensures forall j :: 0 <= j < 21 ==>
              (ControlPlaneOnly(MasterPhases()[j].order) <==> forall i :: 0 <= i < 15 ==> AmongMasters(i) != j)
  {
    forall j | 0 <= j < 21
      ensures ControlPlaneOnly(MasterPhases()[j].order) <==> forall i :: 0 <= i < 15 ==> AmongMasters(i) != j
    {
      var i := if j < 5 then j else if j < 9 then j - 2 else if j < 17 then j - 3 else j - 6;
      assert !ControlPlaneOnly(MasterPhases()[j].order) ==> 0 <= i < 15 && AmongMasters(i) == j;
    }
  }
}
