/**
 What a read of the store answers: findDeployment, buildContainer and selectActivePod of
 internal/kubernetes/store.go as relations on the cluster.
 */
module StoreRead {
  import opened Wrappers
  import opened StatusEvents
  import opened KubeObjects
  import opened ApiTypes
  import opened Convert
  import opened Cluster
  import opened StoreModel
  import Reconcile

  // Which of the API calls behind a read fail.
  datatype ReadFaults = ReadFaults(find: bool, pods: bool, services: bool)

  predicate IsRollingUpdate(d: Deployment) {
    || (d.replicas.Some? && d.updatedReplicas != d.replicas.value)
    || d.unavailableReplicas > 0
  }

  predicate TooManyPods(d: Deployment, pods: seq<Pod>) {
    |pods| > 1 && !(|pods| == 2 && IsRollingUpdate(d))
  }

  // A running Pod with none before it or, when no Pod is running, the first of the newest.
  ghost predicate ActiveAt(pods: seq<Pod>, i: nat) {
    && i < |pods|
    && if exists j :: 0 <= j < |pods| && pods[j].phase == Running
       then pods[i].phase == Running && forall j :: 0 <= j < i ==> pods[j].phase != Running
       else && (forall j :: 0 <= j < |pods| ==> pods[j].created <= pods[i].created)
            && (forall j :: 0 <= j < i ==> pods[j].created < pods[i].created)
  }

  ghost predicate IsActive(p: Pod, pods: seq<Pod>) {
    exists i: nat :: ActiveAt(pods, i) && pods[i] == p
  }

  lemma ActiveIsUnique(p: Pod, q: Pod, pods: seq<Pod>)
    requires IsActive(p, pods) && IsActive(q, pods)
    ensures p == q
  {
    var i: nat :| ActiveAt(pods, i) && pods[i] == p;
    var j: nat :| ActiveAt(pods, j) && pods[j] == q;
    assert i == j;
  }

  method SelectActivePod(pods: seq<Pod>) returns (active: Pod)
    requires pods != []
    ensures IsActive(active, pods)
  {
    for i := 0 to |pods|
      invariant forall j :: 0 <= j < i ==> pods[j].phase != Running
    {
      if pods[i].phase == Running {
        assert ActiveAt(pods, i);
        return pods[i];
      }
    }
    active := pods[0];
    ghost var at: nat := 0;
    for i := 1 to |pods|
      invariant at < i && pods[at] == active
      invariant forall j :: 0 <= j < i ==> pods[j].created <= active.created
      invariant forall j :: 0 <= j < at ==> pods[j].created < active.created
    {
      if pods[i].created > active.created {
        active := pods[i];
        at := i;
      }
    }
    assert ActiveAt(pods, at);
  }

  // The Service that a read takes: the only one of the instance.
  ghost predicate IsOnlyService(st: State, id: string, svc: Option<Service>) {
    match svc
    case None => forall n :: ServiceNames(st, id) != {n}
    case Some(s) => s.name in st.services && st.services[s.name] == s && ServiceNames(st, id) == {s.name}
  }

  function ServiceInfoOf(svc: Option<Service>): Option<ServiceInfo> {
    if svc.None? then None else Some(ServiceInfo(svc.value.name, svc.value.serviceType, NonEmpty(svc.value.ports)))
  }

  // Status and address come from the active Pod; without Pods the container is pending.
  ghost predicate PodTells(status: Option<Status>, ip: string, pods: seq<Pod>) {
    if pods == [] then status == Some(PENDING) && ip == ""
    else exists p :: IsActive(p, pods) && status == Reconcile.MapPodPhaseToStatus(p.phase) && ip == p.ip
  }

  // The container that a read makes of a Deployment.
  ghost predicate Reads(c: Container, d: Deployment, id: string, st: State, namespace: string, pods: seq<Pod>) {
    && c.id == id
    && exists svc, ip ::
         IsOnlyService(st, id, svc) && c.service == ServiceInfoOf(svc)
         && PodTells(c.status, ip, pods) && c.spec == WithAddress(ReadSpec(d, svc, namespace), ip)
  }

  // `pods` is what the Pod listing returns.
  predicate Readable(d: Deployment, pods: seq<Pod>, f: ReadFaults) {
    !f.pods && !TooManyPods(d, pods) && !f.services
  }

  // The error of a read that fails: the Pods are listed before the Services.
  function ReadError(d: Deployment, pods: seq<Pod>, f: ReadFaults): StoreError {
    if !f.pods && TooManyPods(d, pods) then ConflictError else Infrastructure(Unavailable)
  }

  ghost predicate ReadStep(st: State, namespace: string, d: Deployment, id: string, pods: seq<Pod>, f: ReadFaults,
                           r: Result<Container, StoreError>)
  {
    if Readable(d, pods, f) then r.Ok? && Reads(r.value, d, id, st, namespace, pods)
    else r == Err(ReadError(d, pods, f))
  }

  // A read conflicts for more than two Pods, or for two while the Deployment is not rolling out, and
  // otherwise takes the status of the Pod there is, or PENDING without one.
  lemma ReadStepMeans(st: State, namespace: string, d: Deployment, id: string, pods: seq<Pod>, f: ReadFaults,
                      r: Result<Container, StoreError>)
    requires ReadStep(st, namespace, d, id, pods, f, r)
    ensures r == Err(ConflictError) <==>
              !f.pods && (|pods| > 2 || (|pods| == 2 && d.unavailableReplicas <= 0
                                         && (d.replicas.None? || d.replicas == Some(d.updatedReplicas))))
    ensures r.Ok? && pods == [] ==> r.value.status == Some(PENDING)
    ensures r.Ok? && |pods| == 1 ==> r.value.status == Reconcile.MapPodPhaseToStatus(pods[0].phase)
  {
  }

  ghost predicate GetStep(st: State, namespace: string, id: string, pods: seq<Pod>, f: ReadFaults,
                          r: Result<Container, StoreError>)
  {
    if f.find then r == Err(Infrastructure(Unavailable))
    else if DeploymentNames(st, id) == {} then r == Err(NotFoundError)
    else if Several(st, id) then r == Err(ConflictError)
    else exists n :: n in DeploymentNames(st, id) && ReadStep(st, namespace, st.deployments[n], id, pods, f, r)
  }
}
