/**
 What the store's calls do to the cluster, the invariant they keep, and the map from instance to
 container that a serial run of them maintains.
 */
module StoreModel {
  import opened Wrappers
  import opened StatusEvents
  import opened Dcm
  import opened ApiTypes
  import opened Convert
  import opened Cluster

  datatype StoreError = NotFoundError | ConflictError | InvalidArgumentError | Infrastructure(cause: ApiError)

  predicate HasID(labels: LabelMap, id: string) {
    Matches(labels, InstanceSelector(id))
  }

  predicate Managed(labels: LabelMap) {
    && LABEL_MANAGED_BY in labels && labels[LABEL_MANAGED_BY] == VALUE_MANAGED_BY_DCM
    && LABEL_INSTANCE_ID in labels
  }

  lemma HasIDMeans(labels: LabelMap, id: string)
    ensures HasID(labels, id) <==> Managed(labels) && labels[LABEL_INSTANCE_ID] == id
  {
    var sel := InstanceSelector(id);
    assert LABEL_INSTANCE_ID != LABEL_MANAGED_BY;
    assert sel.Keys == {LABEL_INSTANCE_ID, LABEL_MANAGED_BY};
    assert LABEL_INSTANCE_ID in sel && LABEL_MANAGED_BY in sel;
  }

  lemma BuiltHasID(spec: ContainerSpec, id: string, other: string)
    ensures HasID(LabelsFor(spec, id), other) <==> other == id
  {
    HasIDMeans(LabelsFor(spec, id), other);
    MergeThenFilter(id, if spec.metadata.labels.Some? then spec.metadata.labels.value else map[]);
  }

  // At most one Deployment and one Service per instance, and no Service without its Deployment.
  ghost predicate Safe(st: State) {
    && WellNamed(st)
    && (forall id, m, n | m in st.deployments && n in st.deployments && m != n ::
          !HasID(st.deployments[m].labels, id) || !HasID(st.deployments[n].labels, id))
    && (forall id, m, n | m in st.services && n in st.services && m != n ::
          !HasID(st.services[m].labels, id) || !HasID(st.services[n].labels, id))
    && (forall id, m :: m in st.services && HasID(st.services[m].labels, id) ==> Deployed(st, id))
  }

  ghost predicate Deployed(st: State, id: string) {
    exists n :: n in st.deployments && HasID(st.deployments[n].labels, id)
  }

  // ---- Create ----

  // Which of Create's API calls fail: the duplicate check, the Deployment, the Service and the
  // rollback of the Deployment.
  datatype CreateFaults = CreateFaults(check: bool, deployment: bool, service: bool, rollback: bool)

  // The suffixes that the API server generates for the two objects' names.
  datatype Suffixes = Suffixes(deployment: string, service: string)

  function DeploymentName(spec: ContainerSpec, x: Suffixes): string {
    spec.metadata.name + "-" + x.deployment
  }

  function ServiceName(spec: ContainerSpec, x: Suffixes): string {
    spec.metadata.name + "-" + x.service
  }

  function WithDeployment(st: State, spec: ContainerSpec, id: string, x: Suffixes): State {
    st.(deployments := st.deployments[DeploymentName(spec, x) := BuildDeployment(spec, id, DeploymentName(spec, x))])
  }

  function WithService(st: State, cfg: K8sConfig, spec: ContainerSpec, id: string, x: Suffixes): State {
    st.(services := st.services[ServiceName(spec, x) := BuildService(spec, id, cfg, ServiceName(spec, x))])
  }

  ghost function CreateOutcome(st: State, cfg: K8sConfig, spec: ContainerSpec, id: string, x: Suffixes, f: CreateFaults)
    : (State, Result<(), StoreError>)
  {
    if f.check then (st, Err(Infrastructure(Unavailable)))
    else if Deployed(st, id) then (st, Err(ConflictError))
    else if f.deployment then (st, Err(Infrastructure(Unavailable)))
    else if DeploymentName(spec, x) in st.deployments then (st, Err(ConflictError))
    else
      var st1 := WithDeployment(st, spec, id, x);
      if Visible(SpecPorts(spec)) == [] then (st1, Ok(()))
      else if !f.service && ServiceName(spec, x) !in st.services then (WithService(st1, cfg, spec, id, x), Ok(()))
      else (if f.rollback then st1 else st,
            Err(Infrastructure(if f.service then Unavailable else AlreadyExists)))
  }

  // newContainerResult: Create answers with the caller's own spec, stamped with the namespace.
  function Stamped(r: Result<(), StoreError>, spec: ContainerSpec, id: string, cfg: K8sConfig): Result<Container, StoreError> {
    match r
    case Err(e) => Err(e)
    case Ok(_) => Ok(Container(id, spec.(metadata := spec.metadata.(namespace := Some(cfg.namespace))), Some(PENDING), None))
  }

  lemma AddDeploymentSafe(st: State, spec: ContainerSpec, id: string, x: Suffixes)
    requires Safe(st) && !Deployed(st, id) && DeploymentName(spec, x) !in st.deployments
    ensures Safe(WithDeployment(st, spec, id, x)) && Deployed(WithDeployment(st, spec, id, x), id)
    ensures forall other :: other != id ==> (Deployed(WithDeployment(st, spec, id, x), other) <==> Deployed(st, other))
    ensures forall m :: m in st.services ==> !HasID(st.services[m].labels, id)
  {
    var name := DeploymentName(spec, x);
    var t := WithDeployment(st, spec, id, x);
    forall other ensures HasID(t.deployments[name].labels, other) <==> other == id {
      BuiltHasID(spec, id, other);
    }
    forall other | Deployed(st, other) ensures Deployed(t, other) {
      var n :| n in st.deployments && HasID(st.deployments[n].labels, other);
      assert t.deployments[n] == st.deployments[n];
    }
    assert HasID(t.deployments[name].labels, id);
  }

  lemma AddServiceSafe(st: State, cfg: K8sConfig, spec: ContainerSpec, id: string, x: Suffixes)
    requires Safe(st) && Deployed(st, id) && ServiceName(spec, x) !in st.services
    requires forall m :: m in st.services ==> !HasID(st.services[m].labels, id)
    ensures Safe(WithService(st, cfg, spec, id, x))
  {
    var t := WithService(st, cfg, spec, id, x);
    forall other ensures HasID(t.services[ServiceName(spec, x)].labels, other) <==> other == id {
      BuiltHasID(spec, id, other);
    }
    forall other | Deployed(st, other) ensures Deployed(t, other) {
      var n :| n in st.deployments && HasID(st.deployments[n].labels, other);
      assert n in t.deployments;
    }
  }

  // The states in which Create's API calls may leave the cluster.
  ghost predicate MidCreate(st: State, cfg: K8sConfig, spec: ContainerSpec, id: string, x: Suffixes, mid: State) {
    || mid == st
    || (!Deployed(st, id) && DeploymentName(spec, x) !in st.deployments
        && (mid == WithDeployment(st, spec, id, x)
            || (ServiceName(spec, x) !in st.services
                && mid == WithService(WithDeployment(st, spec, id, x), cfg, spec, id, x))))
  }

  lemma MidCreateSafe(st: State, cfg: K8sConfig, spec: ContainerSpec, id: string, x: Suffixes, mid: State)
    requires Safe(st) && MidCreate(st, cfg, spec, id, x, mid)
    ensures Safe(mid)
  {
    if mid != st {
      CreateStagesSafe(st, cfg, spec, id, x);
    }
  }

  lemma CreateStagesSafe(st: State, cfg: K8sConfig, spec: ContainerSpec, id: string, x: Suffixes)
    requires Safe(st) && !Deployed(st, id) && DeploymentName(spec, x) !in st.deployments
    ensures Safe(WithDeployment(st, spec, id, x))
    ensures ServiceName(spec, x) !in st.services ==> Safe(WithService(WithDeployment(st, spec, id, x), cfg, spec, id, x))
  {
    AddDeploymentSafe(st, spec, id, x);
    if ServiceName(spec, x) !in st.services {
      AddServiceSafe(WithDeployment(st, spec, id, x), cfg, spec, id, x);
    }
  }

  lemma CreateKeepsSafe(st: State, cfg: K8sConfig, spec: ContainerSpec, id: string, x: Suffixes, f: CreateFaults)
    requires Safe(st)
    ensures Safe(CreateOutcome(st, cfg, spec, id, x, f).0)
  {
    MidCreateSafe(st, cfg, spec, id, x, CreateOutcome(st, cfg, spec, id, x, f).0);
  }

  // ---- Delete ----

  // Which of Delete's API calls fail: the two listings, the k-th Service and the Deployment.
  datatype DeleteFaults = DeleteFaults(find: bool, services: bool, service: nat -> bool, deployment: bool)

  ghost function ServiceNames(st: State, id: string): set<string> {
    set n | n in st.services && HasID(st.services[n].labels, id)
  }

  ghost function DeploymentNames(st: State, id: string): set<string> {
    set n | n in st.deployments && HasID(st.deployments[n].labels, id)
  }

  ghost predicate Several(st: State, id: string) {
    exists m, n :: m in DeploymentNames(st, id) && n in DeploymentNames(st, id) && m != n
  }

  // The first of the calls i, .., n - 1 that fails, or n when none does.
  function FirstFailing(fails: nat -> bool, i: nat, n: nat): (k: nat)
    requires i <= n
    ensures i <= k <= n && (k < n ==> fails(k))
    ensures forall j :: i <= j < k ==> !fails(j)
    decreases n - i
  {
    if i == n || fails(i) then i else FirstFailing(fails, i + 1, n)
  }

  function Without(st: State, gone: set<string>): State {
    st.(services := st.services - gone)
  }

  // Services go first and the Deployment last. The first call that fails ends the Delete and
  // keeps the Deployment; the Services before it are gone, in whatever order they were listed.
  ghost predicate DeleteStep(st: State, id: string, f: DeleteFaults, t: State, r: Result<(), StoreError>) {
    var names := ServiceNames(st, id);
    if f.find then t == st && r == Err(Infrastructure(Unavailable))
    else if DeploymentNames(st, id) == {} then t == st && r == Err(NotFoundError)
    else if Several(st, id) then t == st && r == Err(ConflictError)
    else if f.services then t == st && r == Err(Infrastructure(Unavailable))
    else if FirstFailing(f.service, 0, |names|) == |names| && !f.deployment then
      t == State(st.deployments - DeploymentNames(st, id), st.services - names) && r == Ok(())
    else
      && r == Err(Infrastructure(Unavailable))
      && exists gone :: gone <= names && |gone| == FirstFailing(f.service, 0, |names|) && t == Without(st, gone)
  }

  // The states in which Delete's API calls may leave the cluster.
  ghost predicate MidDelete(st: State, id: string, mid: State) {
    || (exists gone :: gone <= ServiceNames(st, id) && mid == Without(st, gone))
    || mid == State(st.deployments - DeploymentNames(st, id), st.services - ServiceNames(st, id))
  }

  lemma IsMidDelete(st: State, id: string, gone: set<string>)
    requires gone <= ServiceNames(st, id)
    ensures MidDelete(st, id, Without(st, gone))
  {
  }

  lemma MidDeleteSafe(st: State, id: string, mid: State)
    requires Safe(st) && MidDelete(st, id, mid)
    ensures Safe(mid)
  {
    if gone :| gone <= ServiceNames(st, id) && mid == Without(st, gone) {
      RemoveServicesSafe(st, gone);
    } else {
      RemoveInstanceSafe(st, id, mid);
    }
  }

  lemma RemoveServicesSafe(st: State, gone: set<string>)
    requires Safe(st)
    ensures Safe(Without(st, gone))
  {
    var t := Without(st, gone);
    forall id | Deployed(st, id) ensures Deployed(t, id) {
      var n :| n in st.deployments && HasID(st.deployments[n].labels, id);
      assert n in t.deployments;
    }
  }

  lemma RemoveInstanceSafe(st: State, id: string, t: State)
    requires Safe(st)
    requires t.services == st.services - ServiceNames(st, id)
    requires t.deployments == st.deployments - DeploymentNames(st, id)
    ensures Safe(t)
    ensures !Deployed(t, id)
  {
    forall other, m | m in t.services && HasID(t.services[m].labels, other) ensures Deployed(t, other) {
      HasIDMeans(t.services[m].labels, other);
      HasIDMeans(t.services[m].labels, id);
      assert other != id && Deployed(st, other);
      var n :| n in st.deployments && HasID(st.deployments[n].labels, other);
      HasIDMeans(st.deployments[n].labels, other);
      HasIDMeans(st.deployments[n].labels, id);
      assert n in t.deployments;
    }
  }

  lemma DeleteKeepsSafe(st: State, id: string, f: DeleteFaults, t: State, r: Result<(), StoreError>)
    requires Safe(st) && DeleteStep(st, id, f, t, r)
    ensures Safe(t)
  {
    if t != st {
      MidDeleteSafe(st, id, t);
    }
  }
}
