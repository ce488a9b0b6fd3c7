/** Who cordoned the node: the annotation protocol shared by the uncordon phase, the drain phase and the user. */
module Cordon {

  const SHUTDOWN := "KubeStackShutDown"
  const USER_CORDON := "UserNodeCordon"

  /** The node object in the cluster and the boot marker on the host. */
  datatype NodeObject = NodeObject(unschedulable: bool, annotations: map<string, string>, booting: bool) {
    predicate Marked(key: string) {
      key in annotations && annotations[key] == "true"
    }
  }

  /** How far a phase operation got, each part succeeding or ending it with an error; or what the user did. */
  datatype Step =
    | Status(fetched: bool, updated: bool)
    | DrainStop(reached: bool, cordoned: bool, drained: bool, annotated: bool)
    | UncordonStart(removed: bool, fetched: bool, uncordoned: bool)
    | DrainStart(removed: bool)
    | BootMarker
    | User(cordon: bool)

  function After(n: NodeObject, step: Step): NodeObject {
    match step
    case Status(fetched, updated) =>
      if n.booting || !fetched || n.Marked(SHUTDOWN) || !updated then n
      else if n.unschedulable then n.(annotations := n.annotations[USER_CORDON := "true"])
      else n.(annotations := n.annotations - {USER_CORDON})
    case DrainStop(reached, cordoned, drained, annotated) =>
      if !reached || !cordoned then n
      else if !drained || !annotated then n.(unschedulable := true)
      else n.(unschedulable := true, annotations := n.annotations[SHUTDOWN := "true"])
    case UncordonStart(removed, fetched, uncordoned) =>
      if !removed then n
      else
        var m := n.(annotations := n.annotations - {SHUTDOWN});
        if !fetched || m.Marked(USER_CORDON) || !uncordoned then m else m.(unschedulable := false)
    case DrainStart(removed) => if removed then n.(booting := false) else n
    case BootMarker => n.(booting := true)
    case User(cordon) => n.(unschedulable := cordon)
  }

  function AfterAll(n: NodeObject, steps: seq<Step>): NodeObject {
    if steps == [] then n else After(AfterAll(n, steps[..|steps| - 1]), steps[|steps| - 1])
  }

  function Members(keys: seq<string>): set<string> {
    set k | k in keys
  }

  // ---- The phases as they run -----------------------------------------------------------

  /** The cluster's node, reached through calls that may each fail. */
  class Cluster {
    var unschedulable: bool
    var annotations: map<string, string>
    var booting: bool

    constructor (n: NodeObject)
      ensures Model() == n
    {
      unschedulable, annotations, booting := n.unschedulable, n.annotations, n.booting;
    }

    ghost function Model(): NodeObject
      reads this
    {
      NodeObject(unschedulable, annotations, booting)
    }

    method AddAnnotationsToNode(annotsToAdd: map<string, string>, ok: bool) returns (err: bool)
      modifies this`annotations
      ensures err == !ok
      ensures annotations == if ok then old(annotations) + annotsToAdd else old(annotations)
    {
      if !ok {
        return true;
      }
      var todo := annotsToAdd.Keys;
      while todo != {}
        invariant todo <= annotsToAdd.Keys
        invariant annotations == old(annotations) + (annotsToAdd - todo)
      {
        var k :| k in todo;
        annotations := annotations[k := annotsToAdd[k]];
        todo := todo - {k};
      }
      assert annotsToAdd - {} == annotsToAdd;
      err := false;
    }

    method RemoveAnnotationsFromNode(annotsToRemove: seq<string>, ok: bool) returns (err: bool)
      modifies this`annotations
      ensures err == !ok
      ensures annotations == if ok then old(annotations) - Members(annotsToRemove) else old(annotations)
    {
      if !ok {
        return true;
      }
      for i := 0 to |annotsToRemove|
        invariant annotations == old(annotations) - Members(annotsToRemove[..i])
      {
        annotations := annotations - {annotsToRemove[i]};
        assert Members(annotsToRemove[..i + 1]) == Members(annotsToRemove[..i]) + {annotsToRemove[i]};
      }
      assert annotsToRemove[..|annotsToRemove|] == annotsToRemove;
      err := false;
    }

    method UncordonPhaseStatus(identified: bool, fetched: bool, updated: bool) returns (err: bool)
      modifies this
      ensures Model() == After(old(Model()), Status(identified && fetched, updated))
      ensures err ==> Model() == old(Model())
    {
      if !identified {
        return true;
      }
      if booting {
        return false;
      }
      if !fetched {
        return true;
      }
      if SHUTDOWN in annotations && annotations[SHUTDOWN] == "true" {
        return false;
      }
      if unschedulable {
        err := AddAnnotationsToNode(map[USER_CORDON := "true"], updated);
      } else {
        err := RemoveAnnotationsFromNode([USER_CORDON], updated);
        assert Members([USER_CORDON]) == {USER_CORDON};
      }
    }

    method UncordonPhaseStart(removed: bool, fetched: bool, uncordoned: bool, detached: bool) returns (err: bool)
      modifies this
      ensures Model() == After(old(Model()), UncordonStart(removed, fetched, uncordoned))
      ensures !err ==> !Model().Marked(SHUTDOWN) && (unschedulable ==> Model().Marked(USER_CORDON))
    {
      err := RemoveAnnotationsFromNode([SHUTDOWN], removed);
      assert Members([SHUTDOWN]) == {SHUTDOWN};
      if err || !fetched {
        return true;
      }
      if USER_CORDON in annotations && annotations[USER_CORDON] == "true" {
        return false;
      }
      if !uncordoned {
        return true;
      }
      unschedulable := false;
      err := !detached;
    }

    method DrainPhaseStart(removable: bool) returns (err: bool)
      modifies this`booting
      ensures Model() == After(old(Model()), DrainStart(removable))
      ensures err <==> booting
    {
      if booting && !removable {
        return true;
      }
      booting := false;
      err := false;
    }

    method DrainPhaseStop(reached: bool, cordoned: bool, drained: bool, annotated: bool) returns (err: bool)
      modifies this
      ensures Model() == After(old(Model()), DrainStop(reached, cordoned, drained, annotated))
      ensures !err ==> unschedulable && Model().Marked(SHUTDOWN)
    {
      if !reached || !cordoned {
        return true;
      }
      unschedulable := true;
      if !drained {
        return true;
      }
      err := AddAnnotationsToNode(map[SHUTDOWN := "true"], annotated);
    }
  }

  // ---- A user's cordon survives ---------------------------------------------------------

  /** The user's cordon has been seen and recorded. */
  predicate UserCordoned(n: NodeObject) {
    n.unschedulable && n.Marked(USER_CORDON)
  }

  /** A status pass records a cordon exactly when nothing else explains it. */
  lemma StatusRecordsUnexplained(n: NodeObject)
    ensures var shutDown := SHUTDOWN in n.annotations && n.annotations[SHUTDOWN] == "true";
            var m := After(n, Status(true, true));
            if n.booting || shutDown then m == n
            else
              && m.unschedulable == n.unschedulable && m.booting == n.booting
              && (if n.unschedulable then USER_CORDON in m.annotations && m.annotations[USER_CORDON] == "true"
                  else USER_CORDON !in m.annotations)
  {
  }

  /** A start leaves a cordon exactly if the user's mark, and no other value, stands on it; the shutdown mark goes. */
  lemma StartLiftsExactly(n: NodeObject)
    ensures var m := After(n, UncordonStart(true, true, true));
            && SHUTDOWN !in m.annotations
            && (m.unschedulable <==>
                  n.unschedulable && USER_CORDON in n.annotations && n.annotations[USER_CORDON] == "true")
  {
    assert USER_CORDON != SHUTDOWN;
  }

  /** From the boot marker until the drain phase starts, status passes leave the node as it is. */
  lemma {:induction false} BootingIsLeftAlone(n: NodeObject, steps: seq<Step>)
    requires forall step :: step in steps ==> step.Status?
    ensures AfterAll(After(n, BootMarker), steps) == n.(booting := true)
    ensures After(After(n, BootMarker), DrainStart(true)) == n.(booting := false)
  {
    if steps != [] {
      BootingIsLeftAlone(n, steps[..|steps| - 1]);
    }
  }

  /** Once recorded, nothing but the user lifts it: no phase operation does, finished or interrupted anywhere. */
  lemma {:induction false} UserCordonSurvives(n: NodeObject, steps: seq<Step>)
    requires UserCordoned(n) && User(false) !in steps
    ensures UserCordoned(AfterAll(n, steps))
  {
    if steps != [] {
      UserCordonSurvives(n, steps[..|steps| - 1]);
      var m := AfterAll(n, steps[..|steps| - 1]);
      assert USER_CORDON != SHUTDOWN;
      assert UserCordoned(After(m, steps[|steps| - 1]));
    }
  }

  // ---- Without a user's cordon ----------------------------------------------------------

  /** Whatever cordon there is can be told to be the node's own. */
  predicate OwnCordonOnly(n: NodeObject) {
    !n.Marked(USER_CORDON) && (n.unschedulable ==> n.Marked(SHUTDOWN) || n.booting)
  }

  /** The operations that leave a cordon nobody can attribute. */
  predicate LosesTrack(n: NodeObject, step: Step) {
    match step
    case Status(_, _) => false
    // cordoned, but the shutdown was not written down
    case DrainStop(reached, cordoned, drained, annotated) =>
      reached && cordoned && !(drained && annotated) && !n.Marked(SHUTDOWN) && !n.booting
    // the shutdown was struck out, but the cordon stayed
    case UncordonStart(removed, fetched, uncordoned) =>
      removed && !(fetched && uncordoned) && n.unschedulable && !n.booting
    // the boot marker was the only explanation
    case DrainStart(removed) => removed && n.unschedulable && !n.Marked(SHUTDOWN)
    case BootMarker => false
    // the cordon is the user's
    case User(cordon) => cordon && !n.Marked(SHUTDOWN) && !n.booting
  }

  lemma TrackKeptExactly(n: NodeObject, step: Step)
    requires OwnCordonOnly(n)
    ensures OwnCordonOnly(After(n, step)) <==> !LosesTrack(n, step)
  {
  }

  ghost predicate KeepsTrack(n: NodeObject, steps: seq<Step>) {
    forall i :: 0 <= i < |steps| ==> !LosesTrack(AfterAll(n, steps[..i]), steps[i])
  }

  /** As long as no operation loses track, the node never takes its own cordon for the user's. */
  lemma {:induction false} NeverMistakenForUser(n: NodeObject, steps: seq<Step>)
    requires OwnCordonOnly(n) && KeepsTrack(n, steps)
    ensures OwnCordonOnly(AfterAll(n, steps))
  {
    if steps != [] {
      var m := |steps| - 1;
      forall i | 0 <= i < m ensures !LosesTrack(AfterAll(n, steps[..m][..i]), steps[..m][i]) {
        assert steps[..m][..i] == steps[..i];
      }
      NeverMistakenForUser(n, steps[..m]);
      TrackKeptExactly(AfterAll(n, steps[..m]), steps[m]);
    }
  }

  /** So every finished start of the uncordon phase ends schedulable. */
  lemma StartEndsSchedulable(n: NodeObject, steps: seq<Step>)
    requires OwnCordonOnly(n) && KeepsTrack(n, steps)
    ensures !After(AfterAll(n, steps), UncordonStart(true, true, true)).unschedulable
  {
    NeverMistakenForUser(n, steps);
    assert USER_CORDON != SHUTDOWN;
  }

  /** No operation touches an annotation that is neither of the two. */
  lemma {:induction false} OtherAnnotationsStay(n: NodeObject, steps: seq<Step>, key: string)
    requires key != SHUTDOWN && key != USER_CORDON
    ensures var m := AfterAll(n, steps);
            (key in m.annotations <==> key in n.annotations)
            && (key in n.annotations ==> m.annotations[key] == n.annotations[key])
  {
    if steps != [] {
      OtherAnnotationsStay(n, steps[..|steps| - 1], key);
    }
  }

  // ---- The user's last word -------------------------------------------------------------

  /** A status pass that gets through and finds neither the boot marker nor the shutdown mark. */
  predicate Sees(n: NodeObject, step: Step) {
    step == Status(true, true) && !n.booting && !n.Marked(SHUTDOWN)
  }

  /** Whether the last status pass that saw the node saw it cordoned. */
  predicate LastSeen(n: NodeObject, steps: seq<Step>) {
    if steps == [] then n.Marked(USER_CORDON)
    else
      var before := AfterAll(n, steps[..|steps| - 1]);
      if Sees(before, steps[|steps| - 1]) then before.unschedulable else LastSeen(n, steps[..|steps| - 1])
  }

  /** In every run the user's mark says what was last seen, so it agrees with the user exactly if that did. */
  lemma {:induction false} MarkIsLastSeen(n: NodeObject, steps: seq<Step>)
    ensures AfterAll(n, steps).Marked(USER_CORDON) == LastSeen(n, steps)
  {
    if steps != [] {
      MarkIsLastSeen(n, steps[..|steps| - 1]);
      assert USER_CORDON != SHUTDOWN;
    }
  }

  /** A status pass right after the user acted makes the mark agree exactly if it sees the node or it agreed before. */
  lemma ActionRecordedExactly(n: NodeObject, cordon: bool)
    ensures After(After(n, User(cordon)), Status(true, true)).Marked(USER_CORDON) == cordon
            <==> (!n.booting && !n.Marked(SHUTDOWN)) || n.Marked(USER_CORDON) == cordon
  {
  }

  /** The node is as the user wants it, and known to be. */
  predicate Agreed(n: NodeObject, cordon: bool) {
    if cordon then UserCordoned(n) else OwnCordonOnly(n)
  }

  lemma AgreementKeptExactly(n: NodeObject, cordon: bool, step: Step)
    requires Agreed(n, cordon) && !step.User?
    ensures Agreed(After(n, step), cordon) <==> cordon || !LosesTrack(n, step)
  {
    assert USER_CORDON != SHUTDOWN;
  }

  /**
   A user's action that a status pass has seen stands until the user acts again: a cordon against every phase
   operation, an uncordon as long as none of them loses track.
   */
  lemma LastActionStands(n: NodeObject, cordon: bool, rest: seq<Step>)
    requires !n.booting && !n.Marked(SHUTDOWN) && forall step :: step in rest ==> !step.User?
    requires cordon || KeepsTrack(After(After(n, User(cordon)), Status(true, true)), rest)
    ensures var m := AfterAll(After(After(n, User(cordon)), Status(true, true)), rest);
            Agreed(m, cordon) && m.Marked(USER_CORDON) == cordon
  {
    var m := After(After(n, User(cordon)), Status(true, true));
    assert Agreed(m, cordon);
    if cordon {
      UserCordonSurvives(m, rest);
    } else {
      NeverMistakenForUser(m, rest);
    }
  }

  /** An action that no status pass saw is undone by the next restart: the node ends up the other way. */
  lemma UnseenActionIsUndone(n: NodeObject, cordon: bool)
    requires n.Marked(USER_CORDON) != cordon
    ensures var drained := After(After(n, User(cordon)), DrainStop(true, true, true, true));
            After(drained, UncordonStart(true, true, true)).unschedulable == !cordon
  {
    assert USER_CORDON != SHUTDOWN;
  }
}
