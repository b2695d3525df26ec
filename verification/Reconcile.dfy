/**
 Deriving one status from a Deployment and a set of Pods: internal/monitoring/reconcile.go and the
 index lookups and handlers of internal/monitoring/monitor.go.
 */
module Reconcile {
  import opened Wrappers
  import opened StatusEvents
  import opened KubeObjects
  import opened Dcm

  function MapPodPhaseToStatus(phase: PodPhase): Option<Status> {
    match phase
    case Pending => Some(PENDING)
    case Running => Some(RUNNING)
    case Failed => Some(FAILED)
    case PhaseUnknown => Some(UNKNOWN)
    case _ => None
  }

  function PhaseText(phase: PodPhase): string {
    match phase
    case Pending => "Pending"
    case Running => "Running"
    case Succeeded => "Succeeded"
    case Failed => "Failed"
    case PhaseUnknown => "Unknown"
    case OtherPhase(name) => name
  }

  // The first non-empty waiting or terminated reason, or the empty string.
  function FailureReason(containers: seq<ContainerState>): string {
    if containers == [] then "" else
      var c := containers[0];
      if c.waiting.Some? && c.waiting.value != "" then c.waiting.value
      else if c.terminated.Some? && c.terminated.value != "" then c.terminated.value
      else FailureReason(containers[1..])
  }

  datatype Verdict = Verdict(status: Status, message: string)

  function FirstReplicaFailure(conditions: seq<Condition>): Option<Condition> {
    if conditions == [] then None
    else if conditions[0].replicaFailure && conditions[0].isTrue then Some(conditions[0])
    else FirstReplicaFailure(conditions[1..])
  }

  // None stands for a result that is not to be published.
  function ReconcileStatus(deploy: Option<Deployment>, pod: Option<Pod>): Option<Verdict> {
    match (deploy, pod)
    case (None, None) => Some(Verdict(DELETED, "resource no longer exists"))
    case (_, Some(p)) =>
      (match MapPodPhaseToStatus(p.phase)
       case None => None
       case Some(status) =>
         var reason := FailureReason(p.containers);
         Some(Verdict(status, if status == FAILED && reason != "" then reason else PhaseText(p.phase))))
    case (Some(d), None) =>
      if d.replicas == Some(0) then Some(Verdict(FAILED, "deployment scaled to zero"))
      else match FirstReplicaFailure(d.conditions)
           case Some(c) => Some(Verdict(FAILED, if c.message != "" then c.message else "replica failure"))
           case None => Some(Verdict(PENDING, "waiting for pods"))
  }

  // The reason reported is the first non-empty one, waiting before terminated within a container.
  lemma {:induction false} FailureReasonIsFirst(containers: seq<ContainerState>)
    ensures FailureReason(containers) == "" <==>
            forall i :: 0 <= i < |containers| ==> containers[i].waiting in {None, Some("")}
                                                  && containers[i].terminated in {None, Some("")}
    ensures FailureReason(containers) != "" ==>
              exists i :: 0 <= i < |containers| && FailureReason(containers[..i]) == ""
                && (Some(FailureReason(containers)) == containers[i].waiting
                    || (containers[i].waiting in {None, Some("")}
                        && Some(FailureReason(containers)) == containers[i].terminated))
  {
    if containers != [] {
      var c, rest := containers[0], containers[1..];
      FailureReasonIsFirst(rest);
      assert containers == [c] + rest;
      if c.waiting !in {None, Some("")} || c.terminated !in {None, Some("")} {
        assert containers[..0] == [];
      } else if FailureReason(rest) != "" {
        var i :| 0 <= i < |rest| && FailureReason(rest[..i]) == ""
                 && (Some(FailureReason(rest)) == rest[i].waiting
                     || (rest[i].waiting in {None, Some("")} && Some(FailureReason(rest)) == rest[i].terminated));
        assert containers[..i + 1][0] == c && containers[..i + 1][1..] == rest[..i];
        assert containers[i + 1] == rest[i];
      }
    }
  }

  lemma {:induction false} FirstReplicaFailureExists(conditions: seq<Condition>)
    ensures FirstReplicaFailure(conditions).Some? <==>
            exists i :: 0 <= i < |conditions| && conditions[i].replicaFailure && conditions[i].isTrue
  {
    if conditions != [] {
      FirstReplicaFailureExists(conditions[1..]);
      if i :| 1 <= i < |conditions| && conditions[i].replicaFailure && conditions[i].isTrue {
        assert conditions[1..][i - 1] == conditions[i];
      }
    }
  }

  // Without a Pod a Deployment is failed when it is scaled to zero or reports a replica failure,
  // and pending otherwise.
  lemma DeploymentAloneVerdict(d: Deployment)
    ensures StatusOf(ReconcileStatus(Some(d), None)) ==
            Some(if d.replicas == Some(0)
                    || exists i :: 0 <= i < |d.conditions| && d.conditions[i].replicaFailure && d.conditions[i].isTrue
                 then FAILED else PENDING)
  {
    FirstReplicaFailureExists(d.conditions);
  }

  // ---- What a verdict says, told from the objects ----

  predicate HasReason(c: ContainerState) {
    c.waiting !in {None, Some("")} || c.terminated !in {None, Some("")}
  }

  predicate ReasonIs(c: ContainerState, message: string) {
    Some(message) == if c.waiting !in {None, Some("")} then c.waiting else c.terminated
  }

  // The message of a failed Pod: the reason of its first container that has one, or the phase.
  ghost predicate TellsFailure(message: string, containers: seq<ContainerState>) {
    if exists i :: 0 <= i < |containers| && HasReason(containers[i])
    then exists i :: 0 <= i < |containers| && HasReason(containers[i]) && ReasonIs(containers[i], message)
                     && forall j :: 0 <= j < i ==> !HasReason(containers[j])
    else message == "Failed"
  }

  ghost predicate TellsPod(status: Status, message: string, p: Pod) {
    match p.phase
    case Pending => status == PENDING && message == "Pending"
    case Running => status == RUNNING && message == "Running"
    case PhaseUnknown => status == UNKNOWN && message == "Unknown"
    case Failed => status == FAILED && TellsFailure(message, p.containers)
    case _ => false
  }

  predicate ReplicasFail(c: Condition) {
    c.replicaFailure && c.isTrue
  }

  ghost predicate TellsDeployment(status: Status, message: string, d: Deployment) {
    if d.replicas == Some(0) then status == FAILED && message == "deployment scaled to zero"
    else if exists i :: 0 <= i < |d.conditions| && ReplicasFail(d.conditions[i])
    then status == FAILED
         && exists i :: 0 <= i < |d.conditions| && ReplicasFail(d.conditions[i])
              && message == (if d.conditions[i].message != "" then d.conditions[i].message else "replica failure")
              && forall j :: 0 <= j < i ==> !ReplicasFail(d.conditions[j])
    else status == PENDING && message == "waiting for pods"
  }

  // What an event tells of an instance: its Pod if there is one, or its Deployment, or neither.
  ghost predicate Tells(status: Status, message: string, d: Option<Deployment>, p: Option<Pod>) {
    if p.Some? then TellsPod(status, message, p.value)
    else if d.Some? then TellsDeployment(status, message, d.value)
    else status == DELETED && message == "resource no longer exists"
  }

  lemma {:induction false} FailureReasonTells(containers: seq<ContainerState>)
    ensures TellsFailure(if FailureReason(containers) != "" then FailureReason(containers) else "Failed", containers)
    ensures FailureReason(containers) != "" <==> exists i :: 0 <= i < |containers| && HasReason(containers[i])
  {
    if containers != [] {
      var rest := containers[1..];
      FailureReasonTells(rest);
      assert forall i :: 0 <= i < |rest| ==> rest[i] == containers[i + 1];
      if HasReason(containers[0]) {
        assert ReasonIs(containers[0], FailureReason(containers));
      } else if FailureReason(rest) != "" {
        var i :| 0 <= i < |rest| && HasReason(rest[i]) && ReasonIs(rest[i], FailureReason(rest))
                 && forall j :: 0 <= j < i ==> !HasReason(rest[j]);
        assert HasReason(containers[i + 1]) && ReasonIs(containers[i + 1], FailureReason(containers));
        assert forall j :: 0 <= j < i + 1 ==> !HasReason(containers[j]) by {
          assert forall j :: 0 < j < i + 1 ==> containers[j] == rest[j - 1];
        }
      }
    }
  }

  lemma {:induction false} FirstReplicaFailureIs(conditions: seq<Condition>)
    ensures FirstReplicaFailure(conditions).Some? <==>
            exists i :: 0 <= i < |conditions| && ReplicasFail(conditions[i])
    ensures FirstReplicaFailure(conditions).Some? ==>
            exists i :: 0 <= i < |conditions| && ReplicasFail(conditions[i])
              && conditions[i] == FirstReplicaFailure(conditions).value
              && forall j :: 0 <= j < i ==> !ReplicasFail(conditions[j])
  {
    if conditions != [] {
      var rest := conditions[1..];
      FirstReplicaFailureIs(rest);
      assert forall i :: 0 <= i < |rest| ==> rest[i] == conditions[i + 1];
      if !ReplicasFail(conditions[0]) && FirstReplicaFailure(rest).Some? {
        var i :| 0 <= i < |rest| && ReplicasFail(rest[i]) && rest[i] == FirstReplicaFailure(rest).value
                 && forall j :: 0 <= j < i ==> !ReplicasFail(rest[j]);
        assert ReplicasFail(conditions[i + 1]);
        assert forall j :: 0 < j < i + 1 ==> conditions[j] == rest[j - 1];
      }
    }
  }

  // Nothing is to be said of a Pod in a phase without a status, and otherwise what the objects tell.
  lemma VerdictTells(d: Option<Deployment>, p: Option<Pod>)
    ensures ReconcileStatus(d, p).Some? <==>
            (p.Some? ==> p.value.phase in {Pending, Running, Failed, PhaseUnknown})
    ensures ReconcileStatus(d, p).Some? ==>
              Tells(ReconcileStatus(d, p).value.status, ReconcileStatus(d, p).value.message, d, p)
  {
    if p.Some? {
      FailureReasonTells(p.value.containers);
    } else if d.Some? {
      FirstReplicaFailureIs(d.value.conditions);
    }
  }

  function PodPhasePriority(phase: PodPhase): nat {
    match phase
    case Failed => 4
    case PhaseUnknown => 3
    case Pending => 2
    case Running => 1
    case _ => 0
  }

  // The first Pod of highest priority.
  function WorstPod(items: seq<Pod>): Option<Pod> {
    if items == [] then None else
      var front, p := items[..|items| - 1], items[|items| - 1];
      match WorstPod(front)
      case None => Some(p)
      case Some(w) => if PodPhasePriority(p.phase) > PodPhasePriority(w.phase) then Some(p) else Some(w)
  }

  method LookupPod(items: seq<Pod>) returns (worst: Option<Pod>)
    ensures worst == WorstPod(items)
    ensures worst.None? <==> items == []
    ensures worst.Some? ==> worst.value in items
    ensures forall p :: p in items && worst.Some? ==>
              PodPhasePriority(p.phase) <= PodPhasePriority(worst.value.phase)
  {
    WorstPodIsWorst(items);
    if |items| == 0 {
      return None;
    }
    if |items| == 1 {
      assert items[..0] == [];
      return Some(items[0]);
    }
    worst := None;
    var worstPriority: int := -1;
    var i := 0;
    while i < |items|
      invariant 0 <= i <= |items|
      invariant worst == WorstPod(items[..i])
      invariant worstPriority == match worst case None => -1 case Some(w) => PodPhasePriority(w.phase)
    {
      assert items[..i + 1][..i] == items[..i];
      var p := PodPhasePriority(items[i].phase);
      if p > worstPriority {
        worstPriority := p;
        worst := Some(items[i]);
      }
      i := i + 1;
    }
    assert items[..i] == items;
  }

  lemma {:induction false} WorstPodIsWorst(items: seq<Pod>)
    ensures WorstPod(items).None? <==> items == []
    ensures items != [] ==>
              var w := WorstPod(items).value;
              w in items && forall p :: p in items ==> PodPhasePriority(p.phase) <= PodPhasePriority(w.phase)
  {
    if items != [] {
      var front := items[..|items| - 1];
      WorstPodIsWorst(front);
      assert items == front + [items[|items| - 1]];
    }
  }

  ghost predicate SomePodIn(items: seq<Pod>, phase: PodPhase) {
    exists p :: p in items && p.phase == phase
  }

  // The most severe phase present, in the order Failed, Unknown, Pending, Running.
  ghost function MostSevere(items: seq<Pod>): Option<Status> {
    if SomePodIn(items, Failed) then Some(FAILED)
    else if SomePodIn(items, PhaseUnknown) then Some(UNKNOWN)
    else if SomePodIn(items, Pending) then Some(PENDING)
    else if SomePodIn(items, Running) then Some(RUNNING)
    else None
  }

  ghost function StatusOf(v: Option<Verdict>): Option<Status> {
    if v.Some? then Some(v.value.status) else None
  }

  // The status that lookup and reconciliation give is the most severe one present, and nothing
  // is published when no Pod is in a phase with a status.
  lemma LookupReportsMostSevere(deploy: Option<Deployment>, items: seq<Pod>)
    requires items != []
    ensures StatusOf(ReconcileStatus(deploy, WorstPod(items))) == MostSevere(items)
  {
    WorstPodIsWorst(items);
    var w := WorstPod(items).value;
    assert SomePodIn(items, w.phase);
  }

  lemma LookupIgnoresOrder(deploy: Option<Deployment>, a: seq<Pod>, b: seq<Pod>)
    requires multiset(a) == multiset(b)
    ensures StatusOf(ReconcileStatus(deploy, WorstPod(a))) == StatusOf(ReconcileStatus(deploy, WorstPod(b)))
  {
    forall p ensures p in a <==> p in b {
      assert p in a <==> p in multiset(a);
      assert p in b <==> p in multiset(b);
    }
    if a == [] {
      assert |multiset(b)| == 0;
    } else {
      assert a[0] in b;
      LookupReportsMostSevere(deploy, a);
      LookupReportsMostSevere(deploy, b);
      forall phase ensures SomePodIn(a, phase) <==> SomePodIn(b, phase) {
      }
    }
  }

  // ---- The four handlers ----

  datatype Notification =
    | DeployChanged(deploy: Deployment)
    | DeployRemoved(deploy: Deployment)
    | PodChanged(pod: Pod)
    | PodRemoved(pod: Pod)

  function NoteID(n: Notification): string {
    match n
    case DeployChanged(d) => InstanceID(d.labels)
    case DeployRemoved(d) => InstanceID(d.labels)
    case PodChanged(p) => InstanceID(p.labels)
    case PodRemoved(p) => InstanceID(p.labels)
  }

  function FirstDeploy(items: seq<Deployment>): Option<Deployment> {
    if items == [] then None else Some(items[0])
  }

  datatype Subject = Subject(deploy: Option<Deployment>, pod: Option<Pod>)

  // What a handler reconciles: the object notified and what the indexes hold for its instance.
  // A changed Pod stands for itself; a removed Deployment is taken as absent.
  function SubjectOf(n: Notification, deploys: seq<Deployment>, pods: seq<Pod>): Subject {
    match n
    case DeployChanged(d) => Subject(Some(d), WorstPod(pods))
    case DeployRemoved(_) => Subject(None, WorstPod(pods))
    case PodChanged(p) => Subject(FirstDeploy(deploys), Some(p))
    case PodRemoved(_) => Subject(FirstDeploy(deploys), WorstPod(pods))
  }

  function VerdictOn(x: Subject): Option<Verdict> {
    ReconcileStatus(x.deploy, x.pod)
  }

  function Handled(n: Notification, deploys: seq<Deployment>, pods: seq<Pod>): Option<Verdict> {
    VerdictOn(SubjectOf(n, deploys, pods))
  }

  lemma DeletedOnlyWhenGone(n: Notification, deploys: seq<Deployment>, pods: seq<Pod>)
    ensures StatusOf(Handled(n, deploys, pods)) == Some(DELETED)
            <==> pods == [] && (n.DeployRemoved? || (n.PodRemoved? && deploys == []))
  {
    WorstPodIsWorst(pods);
  }

  // The highest priority among the Pods, and 0 without any.
  function HighestPriority(pods: seq<Pod>): nat {
    if pods == [] then 0 else
      var rest, p := HighestPriority(pods[1..]), PodPhasePriority(pods[0].phase);
      if p > rest then p else rest
  }

  function StatusOfPriority(priority: nat): Option<Status> {
    if priority == 4 then Some(FAILED) else if priority == 3 then Some(UNKNOWN)
    else if priority == 2 then Some(PENDING) else if priority == 1 then Some(RUNNING) else None
  }

  lemma {:induction false} HighestPriorityIs(pods: seq<Pod>)
    ensures forall p :: p in pods ==> PodPhasePriority(p.phase) <= HighestPriority(pods)
    ensures HighestPriority(pods) > 0 ==> exists p :: p in pods && PodPhasePriority(p.phase) == HighestPriority(pods)
  {
    if pods != [] {
      HighestPriorityIs(pods[1..]);
      assert pods == [pods[0]] + pods[1..];
      assert pods[0] in pods;
    }
  }

  lemma MostSevereHasHighestPriority(pods: seq<Pod>)
    ensures MostSevere(pods) == StatusOfPriority(HighestPriority(pods))
  {
    HighestPriorityIs(pods);
    if HighestPriority(pods) > 0 {
      var p :| p in pods && PodPhasePriority(p.phase) == HighestPriority(pods);
      assert SomePodIn(pods, p.phase);
    }
  }

  // The handler of a Pod change reports the Pod it was given, whatever the index holds by then.
  // That is the most severe status in the index exactly when the Pod's priority is the highest
  // there, an empty index counting as priority 0.
  lemma PodChangeAgreesIff(p: Pod, deploys: seq<Deployment>, pods: seq<Pod>)
    ensures StatusOf(Handled(PodChanged(p), deploys, pods)) == MostSevere(pods)
            <==> PodPhasePriority(p.phase) == HighestPriority(pods)
  {
    MostSevereHasHighestPriority(pods);
    HighestPriorityIs(pods);
  }

  // REQ-MON-050 wants the worst Pod of an instance to take precedence; a change of a running Pod
  // reports RUNNING beside a failed one.
  lemma PodChangeCanHideFailure(healthy: Pod, broken: Pod)
    requires healthy.phase == Running && broken.phase == Failed
    ensures StatusOf(Handled(PodChanged(healthy), [], [broken, healthy])) == Some(RUNNING)
    ensures MostSevere([broken, healthy]) == Some(FAILED)
  {
    assert broken in [broken, healthy];
  }
}
