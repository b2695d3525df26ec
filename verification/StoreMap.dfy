/**
 Serial runs of the store refine a map from instance to container: the spec as it reads back and
 whether a Service exposes it.
 */
module StoreMap {
  import opened Wrappers
  import opened Dcm
  import opened KubeObjects
  import opened ApiTypes
  import opened Convert
  import opened RoundTrip
  import opened Cluster
  import opened StoreModel
  import opened StoreRead

  datatype Entry = Entry(spec: ContainerSpec, exposed: bool)

  ghost function TheDeployment(st: State, id: string): Deployment
    requires Deployed(st, id)
  {
    var n :| n in st.deployments && HasID(st.deployments[n].labels, id);
    st.deployments[n]
  }

  ghost function TheService(st: State, id: string): Option<Service> {
    if n :| n in st.services && HasID(st.services[n].labels, id) then Some(st.services[n]) else None
  }

  ghost function EntryOf(st: State, id: string, namespace: string): Entry
    requires Deployed(st, id)
  {
    Entry(ReadSpec(TheDeployment(st, id), TheService(st, id), namespace), TheService(st, id).Some?)
  }

  ghost function Ids(st: State): set<string> {
    set n | n in st.deployments && Managed(st.deployments[n].labels) :: st.deployments[n].labels[LABEL_INSTANCE_ID]
  }

  lemma IdsAreDeployed(st: State, id: string)
    ensures id in Ids(st) <==> Deployed(st, id)
  {
    if Deployed(st, id) {
      var n :| n in st.deployments && HasID(st.deployments[n].labels, id);
      HasIDMeans(st.deployments[n].labels, id);
    }
    if id in Ids(st) {
      var n :| n in st.deployments && Managed(st.deployments[n].labels) && st.deployments[n].labels[LABEL_INSTANCE_ID] == id;
      HasIDMeans(st.deployments[n].labels, id);
    }
  }

  ghost function Abs(st: State, namespace: string): map<string, Entry> {
    map id | id in Ids(st) && Deployed(st, id) :: EntryOf(st, id, namespace)
  }

  lemma AbsDomain(st: State, namespace: string, id: string)
    ensures id in Abs(st, namespace) <==> Deployed(st, id)
    ensures Deployed(st, id) ==> Abs(st, namespace)[id] == EntryOf(st, id, namespace)
  {
    IdsAreDeployed(st, id);
  }

  // An entry whose ports are all hidden again.
  function HideSpec(spec: ContainerSpec): ContainerSpec {
    var ports := SpecPorts(spec);
    if ports == [] then spec else
      spec.(network := Some(spec.network.value.(ports :=
        Some(seq(|ports|, i requires 0 <= i < |ports| => ports[i].(visibility := VisNone))))))
  }

  function Hide(e: Entry): Entry {
    Entry(HideSpec(e.spec), false)
  }

  // ---- An entry depends on the objects of its own instance only ----

  ghost predicate SameFor(st: State, t: State, id: string) {
    && (forall n | n in st.deployments && HasID(st.deployments[n].labels, id) ::
          n in t.deployments && t.deployments[n] == st.deployments[n])
    && (forall n | n in t.deployments && HasID(t.deployments[n].labels, id) ::
          n in st.deployments && t.deployments[n] == st.deployments[n])
    && (forall n | n in st.services && HasID(st.services[n].labels, id) ::
          n in t.services && t.services[n] == st.services[n])
    && (forall n | n in t.services && HasID(t.services[n].labels, id) ::
          n in st.services && t.services[n] == st.services[n])
  }

  lemma EntryIs(st: State, id: string, n: string)
    requires Safe(st) && n in st.deployments && HasID(st.deployments[n].labels, id)
    ensures Deployed(st, id) && TheDeployment(st, id) == st.deployments[n]
  {
  }

  lemma ServiceIs(st: State, id: string, m: string)
    requires Safe(st) && m in st.services && HasID(st.services[m].labels, id)
    ensures TheService(st, id) == Some(st.services[m])
  {
  }

  lemma EntryFrame(st: State, t: State, id: string, namespace: string)
    requires Safe(st) && Safe(t) && SameFor(st, t, id)
    ensures Deployed(st, id) <==> Deployed(t, id)
    ensures Deployed(st, id) ==> EntryOf(t, id, namespace) == EntryOf(st, id, namespace)
  {
    if Deployed(t, id) {
      var n :| n in t.deployments && HasID(t.deployments[n].labels, id);
      assert n in st.deployments && HasID(st.deployments[n].labels, id);
    }
    if Deployed(st, id) {
      var n :| n in st.deployments && HasID(st.deployments[n].labels, id);
      assert n in t.deployments && t.deployments[n] == st.deployments[n];
      EntryIs(st, id, n);
      EntryIs(t, id, n);
      ServiceFrame(st, t, id);
    }
  }

  lemma ServiceFrame(st: State, t: State, id: string)
    requires Safe(st) && Safe(t) && SameFor(st, t, id)
    ensures TheService(st, id) == TheService(t, id)
  {
    if m :| m in st.services && HasID(st.services[m].labels, id) {
      assert m in t.services && t.services[m] == st.services[m];
      ServiceIs(st, id, m);
      ServiceIs(t, id, m);
    }
  }

  // Two maps agree when they agree on one instance and the objects of all others are the same.
  lemma AbsFrame(st: State, t: State, id: string, namespace: string)
    requires Safe(st) && Safe(t)
    requires forall other | other != id :: SameFor(st, t, other)
    ensures Abs(t, namespace) - {id} == Abs(st, namespace) - {id}
  {
    forall other | other != id
      ensures other in Abs(t, namespace) <==> other in Abs(st, namespace)
      ensures other in Abs(st, namespace) ==> Abs(t, namespace)[other] == Abs(st, namespace)[other]
    {
      EntryFrame(st, t, other, namespace);
      AbsDomain(st, namespace, other);
      AbsDomain(t, namespace, other);
    }
  }

  lemma MapPut<V>(m: map<string, V>, n: map<string, V>, id: string, v: V)
    requires n - {id} == m - {id} && id in n && n[id] == v
    ensures n == m[id := v]
  {
    forall k ensures k in n <==> k in m[id := v] {
      assert k != id ==> (k in m <==> k in m - {id}) && (k in n <==> k in n - {id});
    }
    forall k | k in n ensures n[k] == m[id := v][k] {
      assert k != id ==> m[k] == (m - {id})[k] && n[k] == (n - {id})[k];
    }
  }

  lemma MapRemove<V>(m: map<string, V>, n: map<string, V>, id: string)
    requires n - {id} == m - {id} && id !in n
    ensures n == m - {id}
  {
    assert n == n - {id};
  }

  // ---- Create ----

  // The new instance's entry, without and with its Service.
  lemma DeploymentOnlyEntry(st: State, cfg: K8sConfig, spec: ContainerSpec, id: string, x: Suffixes)
    requires Safe(st) && !Deployed(st, id) && DeploymentName(spec, x) !in st.deployments
    ensures var t := WithDeployment(st, spec, id, x);
            Deployed(t, id)
            && EntryOf(t, id, cfg.namespace)
               == Entry(HideSpec(NormalForm(spec, DeploymentName(spec, x), cfg)), false)
  {
    var name := DeploymentName(spec, x);
    var t := WithDeployment(st, spec, id, x);
    AddDeploymentSafe(st, spec, id, x);
    BuiltHasID(spec, id, id);
    EntryIs(t, id, name);
    SpecRoundTrip(spec, id, cfg, name, "");
    HiddenIsBare(spec, id, cfg, name, "");
  }

  lemma HiddenIsBare(spec: ContainerSpec, id: string, cfg: K8sConfig, name: string, svcName: string)
    ensures HideSpec(ReadSpec(BuildDeployment(spec, id, name), ServiceFor(spec, id, cfg, svcName), cfg.namespace))
            == ReadSpec(BuildDeployment(spec, id, name), None, cfg.namespace)
  {
    HideReadSpec(BuildDeployment(spec, id, name), ServiceFor(spec, id, cfg, svcName), cfg.namespace);
  }

  lemma HideReadSpec(d: Deployment, svc: Option<Service>, namespace: string)
    ensures HideSpec(ReadSpec(d, svc, namespace)) == ReadSpec(d, None, namespace)
  {
    var bare := SpecFromDeployment(d, namespace);
    var ports := SpecPorts(bare);
    if ports != [] {
      assert SpecPorts(HideSpec(ReadSpec(d, svc, namespace))) == ports;
    }
  }

  lemma ExposedEntry(st: State, cfg: K8sConfig, spec: ContainerSpec, id: string, x: Suffixes)
    requires Safe(st) && !Deployed(st, id) && DeploymentName(spec, x) !in st.deployments
    requires Visible(SpecPorts(spec)) != [] && ServiceName(spec, x) !in st.services
    ensures var t := WithService(WithDeployment(st, spec, id, x), cfg, spec, id, x);
            Deployed(t, id)
            && EntryOf(t, id, cfg.namespace) == Entry(NormalForm(spec, DeploymentName(spec, x), cfg), true)
  {
    var name, svcName := DeploymentName(spec, x), ServiceName(spec, x);
    var t := WithService(WithDeployment(st, spec, id, x), cfg, spec, id, x);
    AddDeploymentSafe(st, spec, id, x);
    AddServiceSafe(WithDeployment(st, spec, id, x), cfg, spec, id, x);
    BuiltHasID(spec, id, id);
    EntryIs(t, id, name);
    ServiceIs(t, id, svcName);
    SpecRoundTrip(spec, id, cfg, name, svcName);
  }

  lemma NoPortsNoHiding(spec: ContainerSpec, id: string, cfg: K8sConfig, name: string)
    requires Visible(SpecPorts(spec)) == []
    ensures HideSpec(NormalForm(spec, name, cfg)) == NormalForm(spec, name, cfg)
  {
    SpecRoundTrip(spec, id, cfg, name, "");
    HiddenIsBare(spec, id, cfg, name, "");
  }

  lemma AbsPut(st: State, t: State, id: string, namespace: string, entry: Entry)
    requires Safe(st) && Safe(t)
    requires forall other | other != id :: SameFor(st, t, other)
    requires Deployed(t, id) && EntryOf(t, id, namespace) == entry
    ensures Abs(t, namespace) == Abs(st, namespace)[id := entry]
  {
    AbsFrame(st, t, id, namespace);
    AbsDomain(t, namespace, id);
    MapPut(Abs(st, namespace), Abs(t, namespace), id, entry);
  }

  lemma AbsWithDeployment(st: State, cfg: K8sConfig, spec: ContainerSpec, id: string, x: Suffixes)
    requires Safe(st) && !Deployed(st, id) && DeploymentName(spec, x) !in st.deployments
    ensures Abs(WithDeployment(st, spec, id, x), cfg.namespace)
            == Abs(st, cfg.namespace)[id := Entry(HideSpec(NormalForm(spec, DeploymentName(spec, x), cfg)), false)]
  {
    var t := WithDeployment(st, spec, id, x);
    AddDeploymentSafe(st, spec, id, x);
    DeploymentOnlyEntry(st, cfg, spec, id, x);
    forall other | other != id ensures SameFor(st, t, other) {
      BuiltHasID(spec, id, other);
    }
    AbsPut(st, t, id, cfg.namespace, EntryOf(t, id, cfg.namespace));
  }

  lemma NewObjectsAreOwn(st: State, cfg: K8sConfig, spec: ContainerSpec, id: string, x: Suffixes, other: string)
    requires DeploymentName(spec, x) !in st.deployments && ServiceName(spec, x) !in st.services && other != id
    ensures SameFor(st, WithService(WithDeployment(st, spec, id, x), cfg, spec, id, x), other)
  {
    BuiltHasID(spec, id, other);
  }

  lemma AbsWithService(st: State, cfg: K8sConfig, spec: ContainerSpec, id: string, x: Suffixes)
    requires Safe(st) && !Deployed(st, id) && DeploymentName(spec, x) !in st.deployments
    requires Visible(SpecPorts(spec)) != [] && ServiceName(spec, x) !in st.services
    ensures Abs(WithService(WithDeployment(st, spec, id, x), cfg, spec, id, x), cfg.namespace)
            == Abs(st, cfg.namespace)[id := Entry(NormalForm(spec, DeploymentName(spec, x), cfg), true)]
  {
    var t := WithService(WithDeployment(st, spec, id, x), cfg, spec, id, x);
    AddDeploymentSafe(st, spec, id, x);
    AddServiceSafe(WithDeployment(st, spec, id, x), cfg, spec, id, x);
    ExposedEntry(st, cfg, spec, id, x);
    forall other | other != id ensures SameFor(st, t, other) {
      NewObjectsAreOwn(st, cfg, spec, id, x, other);
    }
    AbsPut(st, t, id, cfg.namespace, EntryOf(t, id, cfg.namespace));
  }

  // Which of the generated names are already in use.
  datatype Taken = Taken(deployment: bool, service: bool)

  function TakenNames(st: State, spec: ContainerSpec, x: Suffixes): Taken {
    Taken(DeploymentName(spec, x) in st.deployments, ServiceName(spec, x) in st.services)
  }

  ghost function NewEntry(spec: ContainerSpec, cfg: K8sConfig, x: Suffixes): Entry {
    Entry(NormalForm(spec, DeploymentName(spec, x), cfg), Visible(SpecPorts(spec)) != [])
  }

  // Create on the map: it adds an absent instance under its normal form, always when no call fails
  // and the names are free. A failed Create leaves the map alone unless the rollback failed too.
  ghost function AbsCreate(m: map<string, Entry>, cfg: K8sConfig, spec: ContainerSpec, id: string, x: Suffixes,
                     f: CreateFaults, taken: Taken): (map<string, Entry>, Result<(), StoreError>)
  {
    var entry := NewEntry(spec, cfg, x);
    if f.check then (m, Err(Infrastructure(Unavailable)))
    else if id in m then (m, Err(ConflictError))
    else if f.deployment then (m, Err(Infrastructure(Unavailable)))
    else if taken.deployment then (m, Err(ConflictError))
    else if entry.exposed && (f.service || taken.service) then
      (if f.rollback then m[id := Hide(entry)] else m,
       Err(Infrastructure(if f.service then Unavailable else AlreadyExists)))
    else (m[id := entry], Ok(()))
  }

  // The part of Create after the duplicate check and the Deployment.
  lemma DeployedCreateRefines(st: State, cfg: K8sConfig, spec: ContainerSpec, id: string, x: Suffixes, f: CreateFaults)
    requires Safe(st) && !f.check && !f.deployment && !Deployed(st, id) && DeploymentName(spec, x) !in st.deployments
    ensures var (t, r) := CreateOutcome(st, cfg, spec, id, x, f);
            (Abs(t, cfg.namespace), r)
            == AbsCreate(Abs(st, cfg.namespace), cfg, spec, id, x, f, TakenNames(st, spec, x))
  {
    AbsDomain(st, cfg.namespace, id);
    AbsWithDeployment(st, cfg, spec, id, x);
    if Visible(SpecPorts(spec)) == [] {
      NoPortsNoHiding(spec, id, cfg, DeploymentName(spec, x));
    } else if ServiceName(spec, x) !in st.services {
      AbsWithService(st, cfg, spec, id, x);
    }
  }

  // Create on the cluster is Create on the map.
  lemma CreateRefines(st: State, cfg: K8sConfig, spec: ContainerSpec, id: string, x: Suffixes, f: CreateFaults)
    requires Safe(st)
    ensures var (t, r) := CreateOutcome(st, cfg, spec, id, x, f);
            Safe(t) && (Abs(t, cfg.namespace), r)
                       == AbsCreate(Abs(st, cfg.namespace), cfg, spec, id, x, f, TakenNames(st, spec, x))
  {
    CreateKeepsSafe(st, cfg, spec, id, x, f);
    AbsDomain(st, cfg.namespace, id);
    if !f.check && !f.deployment && !Deployed(st, id) && DeploymentName(spec, x) !in st.deployments {
      DeployedCreateRefines(st, cfg, spec, id, x, f);
    }
  }

  // ---- Get ----

  lemma FoundIffPresent(st: State, id: string, namespace: string)
    requires Safe(st)
    ensures DeploymentNames(st, id) == {} <==> id !in Abs(st, namespace)
    ensures !Several(st, id)
  {
    AbsDomain(st, namespace, id);
    if Deployed(st, id) {
      var n :| n in st.deployments && HasID(st.deployments[n].labels, id);
      assert n in DeploymentNames(st, id);
    } else {
      assert DeploymentNames(st, id) == {};
    }
  }

  lemma OnlyServiceIsThe(st: State, id: string, svc: Option<Service>)
    requires Safe(st) && IsOnlyService(st, id, svc)
    ensures svc == TheService(st, id)
  {
    match svc {
      case Some(s) =>
        assert s.name in ServiceNames(st, id);
        ServiceIs(st, id, s.name);
      case None =>
        assert forall m :: m in ServiceNames(st, id) ==> ServiceNames(st, id) == {m};
        assert ServiceNames(st, id) == {};
        assert forall m :: m in st.services && HasID(st.services[m].labels, id) ==> m in ServiceNames(st, id);
    }
  }

  // Get on the map. Whether two Pods are too many depends on the rollout, which the map does not show.
  ghost predicate AbsGet(m: map<string, Entry>, id: string, pods: seq<Pod>, f: ReadFaults, r: Result<Container, StoreError>) {
    if f.find then r == Err(Infrastructure(Unavailable))
    else if id !in m then r == Err(NotFoundError)
    else if f.pods then r == Err(Infrastructure(Unavailable))
    else if |pods| > 2 then r == Err(ConflictError)
    else || (|pods| == 2 && r == Err(ConflictError))
         || (if f.services then r == Err(Infrastructure(Unavailable)) else r.Ok? && ShowsEntry(r.value, id, m[id], pods))
  }

  // The container is the entry, with what its active Pod tells.
  ghost predicate ShowsEntry(c: Container, id: string, e: Entry, pods: seq<Pod>) {
    && c.id == id && (c.service.Some? <==> e.exposed)
    && exists ip :: PodTells(c.status, ip, pods) && c.spec == WithAddress(e.spec, ip)
  }

  lemma ReadShowsEntry(st: State, namespace: string, id: string, n: string, c: Container, pods: seq<Pod>)
    requires Safe(st) && n in DeploymentNames(st, id) && Reads(c, st.deployments[n], id, st, namespace, pods)
    ensures Deployed(st, id) && ShowsEntry(c, id, EntryOf(st, id, namespace), pods)
  {
    var svc, ip :| IsOnlyService(st, id, svc) && c.service == ServiceInfoOf(svc) && PodTells(c.status, ip, pods)
                   && c.spec == WithAddress(ReadSpec(st.deployments[n], svc, namespace), ip);
    OnlyServiceIsThe(st, id, svc);
    EntryIs(st, id, n);
  }

  lemma GetRefines(st: State, namespace: string, id: string, pods: seq<Pod>, f: ReadFaults, r: Result<Container, StoreError>)
    requires Safe(st) && GetStep(st, namespace, id, pods, f, r)
    ensures AbsGet(Abs(st, namespace), id, pods, f, r)
  {
    FoundIffPresent(st, id, namespace);
    AbsDomain(st, namespace, id);
    if !f.find && id in Abs(st, namespace) {
      var n :| n in DeploymentNames(st, id) && ReadStep(st, namespace, st.deployments[n], id, pods, f, r);
      if Readable(st.deployments[n], pods, f) {
        ReadShowsEntry(st, namespace, id, n, r.value, pods);
      }
    }
  }

  // ---- Delete ----

  // Delete on the map: it takes a present instance away, always when no call fails. A failed Delete
  // keeps the key, so that it can be retried; at most the exposure is gone.
  ghost function AbsDelete(m: map<string, Entry>, id: string, f: DeleteFaults): (map<string, Entry>, Result<(), StoreError>) {
    if f.find then (m, Err(Infrastructure(Unavailable)))
    else if id !in m then (m, Err(NotFoundError))
    else if f.services || (m[id].exposed && f.service(0)) then (m, Err(Infrastructure(Unavailable)))
    else if f.deployment then (m[id := Hide(m[id])], Err(Infrastructure(Unavailable)))
    else (m - {id}, Ok(()))
  }

  lemma OthersUntouched(st: State, id: string, t: State, other: string)
    requires MidDelete(st, id, t) && other != id
    ensures SameFor(st, t, other)
  {
    forall n | n in st.deployments && HasID(st.deployments[n].labels, other) ensures n !in DeploymentNames(st, id) {
      HasIDMeans(st.deployments[n].labels, other);
      HasIDMeans(st.deployments[n].labels, id);
    }
    forall n | n in st.services && HasID(st.services[n].labels, other) ensures n !in ServiceNames(st, id) {
      HasIDMeans(st.services[n].labels, other);
      HasIDMeans(st.services[n].labels, id);
    }
  }

  // In a safe state an instance has one Service when it is exposed and none otherwise.
  lemma ServiceCount(st: State, id: string)
    requires Safe(st)
    ensures |ServiceNames(st, id)| == if TheService(st, id).Some? then 1 else 0
  {
    if m :| m in st.services && HasID(st.services[m].labels, id) {
      assert ServiceNames(st, id) == {m};
    } else {
      assert ServiceNames(st, id) == {};
    }
  }

  // Taking the Services away leaves the entry hidden.
  lemma StrippedEntry(st: State, id: string, namespace: string)
    requires Safe(st) && Deployed(st, id)
    ensures var t := Without(st, ServiceNames(st, id));
            Safe(t) && Deployed(t, id) && EntryOf(t, id, namespace) == Hide(EntryOf(st, id, namespace))
  {
    var t := Without(st, ServiceNames(st, id));
    RemoveServicesSafe(st, ServiceNames(st, id));
    var n :| n in st.deployments && HasID(st.deployments[n].labels, id);
    EntryIs(st, id, n);
    EntryIs(t, id, n);
    HideReadSpec(st.deployments[n], TheService(st, id), namespace);
    assert TheService(t, id) == None;
  }

  lemma AbsStripped(st: State, id: string, namespace: string)
    requires Safe(st) && Deployed(st, id)
    ensures var t := Without(st, ServiceNames(st, id));
            id in Abs(st, namespace) && Abs(t, namespace) == Abs(st, namespace)[id := Hide(Abs(st, namespace)[id])]
  {
    var t := Without(st, ServiceNames(st, id));
    StrippedEntry(st, id, namespace);
    AbsDomain(st, namespace, id);
    forall other | other != id ensures SameFor(st, t, other) {
      OthersUntouched(st, id, t, other);
    }
    AbsPut(st, t, id, namespace, Hide(EntryOf(st, id, namespace)));
  }

  lemma AbsWithoutInstance(st: State, id: string, t: State, namespace: string)
    requires Safe(st) && t == State(st.deployments - DeploymentNames(st, id), st.services - ServiceNames(st, id))
    ensures Safe(t) && Abs(t, namespace) == Abs(st, namespace) - {id}
  {
    RemoveInstanceSafe(st, id, t);
    forall other | other != id ensures SameFor(st, t, other) {
      OthersUntouched(st, id, t, other);
    }
    AbsFrame(st, t, id, namespace);
    AbsDomain(t, namespace, id);
    MapRemove(Abs(st, namespace), Abs(t, namespace), id);
  }

  lemma SubsetBySize(a: set<string>, b: set<string>)
    requires a <= b
    ensures |a| <= |b|
    ensures |a| == |b| ==> a == b
    ensures |a| == 0 ==> a == {}
  {
    assert b == a + (b - a);
  }

  // A Delete that ends early leaves all of the instance's Services or none.
  lemma StoppedDelete(st: State, id: string, f: DeleteFaults, t: State, r: Result<(), StoreError>)
    requires Safe(st) && DeleteStep(st, id, f, t, r)
    requires !f.find && DeploymentNames(st, id) != {} && !Several(st, id) && !f.services
    requires f.deployment || (TheService(st, id).Some? && f.service(0))
    ensures r == Err(Infrastructure(Unavailable))
    ensures t == if TheService(st, id).Some? && f.service(0) then st else Without(st, ServiceNames(st, id))
  {
    var names := ServiceNames(st, id);
    ServiceCount(st, id);
    var gone :| gone <= names && |gone| == FirstFailing(f.service, 0, |names|) && t == Without(st, gone);
    SubsetBySize(gone, names);
    assert st.services - {} == st.services;
  }

  lemma DeleteOfPresentRefines(st: State, id: string, f: DeleteFaults, t: State, r: Result<(), StoreError>, namespace: string)
    requires Safe(st) && DeleteStep(st, id, f, t, r) && !f.find && !f.services && Deployed(st, id)
    ensures Safe(t) && (Abs(t, namespace), r) == AbsDelete(Abs(st, namespace), id, f)
  {
    FoundIffPresent(st, id, namespace);
    AbsDomain(st, namespace, id);
    ServiceCount(st, id);
    if f.deployment || (TheService(st, id).Some? && f.service(0)) {
      StoppedDelete(st, id, f, t, r);
      StrippedEntry(st, id, namespace);
      AbsStripped(st, id, namespace);
    } else {
      AbsWithoutInstance(st, id, t, namespace);
    }
  }

  // Delete on the cluster is Delete on the map.
  lemma DeleteRefines(st: State, id: string, f: DeleteFaults, t: State, r: Result<(), StoreError>, namespace: string)
    requires Safe(st) && DeleteStep(st, id, f, t, r)
    ensures Safe(t) && (Abs(t, namespace), r) == AbsDelete(Abs(st, namespace), id, f)
  {
    FoundIffPresent(st, id, namespace);
    AbsDomain(st, namespace, id);
    if !f.find && !f.services && Deployed(st, id) {
      DeleteOfPresentRefines(st, id, f, t, r, namespace);
    }
  }

  // ---- Serial runs ----

  datatype Call =
    | CallCreate(spec: ContainerSpec, createID: string, suffixes: Suffixes, createFaults: CreateFaults)
    | CallGet(getID: string, pods: seq<Pod>, readFaults: ReadFaults)
    | CallDelete(deleteID: string, deleteFaults: DeleteFaults)

  datatype Reply =
    | CreateReply(created: Result<Container, StoreError>)
    | GetReply(got: Result<Container, StoreError>)
    | DeleteReply(deleted: Result<(), StoreError>)

  ghost predicate CallStep(st: State, cfg: K8sConfig, c: Call, t: State, r: Reply) {
    match c
    case CallCreate(spec, id, x, f) =>
      var (u, o) := CreateOutcome(st, cfg, spec, id, x, f);
      t == u && r == CreateReply(Stamped(o, spec, id, cfg))
    case CallGet(id, pods, f) => t == st && r.GetReply? && GetStep(st, cfg.namespace, id, pods, f, r.got)
    case CallDelete(id, f) => r.DeleteReply? && DeleteStep(st, id, f, t, r.deleted)
  }

  ghost predicate AbsStep(m: map<string, Entry>, cfg: K8sConfig, c: Call, taken: Taken, n: map<string, Entry>, r: Reply) {
    match c
    case CallCreate(spec, id, x, f) =>
      var (u, o) := AbsCreate(m, cfg, spec, id, x, f, taken);
      n == u && r == CreateReply(Stamped(o, spec, id, cfg))
    case CallGet(id, pods, f) => n == m && r.GetReply? && AbsGet(m, id, pods, f, r.got)
    case CallDelete(id, f) => r.DeleteReply? && (n, r.deleted) == AbsDelete(m, id, f)
  }

  // Which names a call of Create would find in use.
  function TakenBy(st: State, c: Call): Taken {
    if c.CallCreate? then TakenNames(st, c.spec, c.suffixes) else Taken(false, false)
  }

  ghost predicate SerialRun(cfg: K8sConfig, states: seq<State>, calls: seq<Call>, replies: seq<Reply>) {
    && |states| == |calls| + 1 == |replies| + 1
    && forall i :: 0 <= i < |calls| ==> CallStep(states[i], cfg, calls[i], states[i + 1], replies[i])
  }

  lemma {:induction false} SerialRunIsSafe(cfg: K8sConfig, states: seq<State>, calls: seq<Call>, replies: seq<Reply>, i: nat)
    requires SerialRun(cfg, states, calls, replies) && Safe(states[0]) && i < |states|
    ensures Safe(states[i])
  {
    if i > 0 {
      SerialRunIsSafe(cfg, states, calls, replies, i - 1);
      CallKeepsSafe(cfg, states[i - 1], calls[i - 1], states[i], replies[i - 1]);
    }
  }

  lemma CallKeepsSafe(cfg: K8sConfig, st: State, c: Call, t: State, r: Reply)
    requires Safe(st) && CallStep(st, cfg, c, t, r)
    ensures Safe(t)
  {
    match c
    case CallCreate(spec, id, x, f) => CreateKeepsSafe(st, cfg, spec, id, x, f);
    case CallGet(_, _, _) =>
    case CallDelete(id, f) => DeleteKeepsSafe(st, id, f, t, r.deleted);
  }

  // Every state of a serial run that starts safely is safe, and every call changes the map and
  // answers as the map's own operation does.
  lemma SerialRunRefinesMap(cfg: K8sConfig, states: seq<State>, calls: seq<Call>, replies: seq<Reply>, i: nat)
    requires SerialRun(cfg, states, calls, replies) && Safe(states[0]) && i < |calls|
    ensures AbsStep(Abs(states[i], cfg.namespace), cfg, calls[i], TakenBy(states[i], calls[i]),
                    Abs(states[i + 1], cfg.namespace), replies[i])
  {
    SerialRunIsSafe(cfg, states, calls, replies, i);
    CallRefines(cfg, states[i], calls[i], states[i + 1], replies[i]);
  }

  lemma CallRefines(cfg: K8sConfig, st: State, c: Call, t: State, r: Reply)
    requires Safe(st) && CallStep(st, cfg, c, t, r)
    ensures AbsStep(Abs(st, cfg.namespace), cfg, c, TakenBy(st, c), Abs(t, cfg.namespace), r)
  {
    match c
    case CallCreate(spec, id, x, f) => CreateRefines(st, cfg, spec, id, x, f);
    case CallGet(id, pods, f) => GetRefines(st, cfg.namespace, id, pods, f, r.got);
    case CallDelete(id, f) => DeleteRefines(st, id, f, t, r.deleted, cfg.namespace);
  }

  lemma CreatedEntry(st: State, cfg: K8sConfig, spec: ContainerSpec, id: string, x: Suffixes, f: CreateFaults)
    requires Safe(st) && CreateOutcome(st, cfg, spec, id, x, f).1.Ok?
    ensures var t := CreateOutcome(st, cfg, spec, id, x, f).0;
            Safe(t) && id !in Abs(st, cfg.namespace)
            && Abs(t, cfg.namespace) == Abs(st, cfg.namespace)[id := NewEntry(spec, cfg, x)]
  {
    CreateRefines(st, cfg, spec, id, x, f);
  }

  // After a successful Create a Get whose calls succeed answers with the spec's normal form.
  lemma GetAfterCreate(st: State, cfg: K8sConfig, spec: ContainerSpec, id: string, x: Suffixes, f: CreateFaults,
                       pods: seq<Pod>, g: ReadFaults, r: Result<Container, StoreError>)
    requires Safe(st) && CreateOutcome(st, cfg, spec, id, x, f).1.Ok?
    requires GetStep(CreateOutcome(st, cfg, spec, id, x, f).0, cfg.namespace, id, pods, g, r)
    requires !g.find && !g.pods && !g.services && |pods| <= 1
    ensures r.Ok? && ShowsEntry(r.value, id, NewEntry(spec, cfg, x), pods)
    ensures KeepsMemoryText(spec.resources, r.value.spec.resources)
  {
    CreatedEntry(st, cfg, spec, id, x, f);
    GetRefines(CreateOutcome(st, cfg, spec, id, x, f).0, cfg.namespace, id, pods, g, r);
    ShownMemoryText(r.value, id, spec, cfg, x, pods);
  }

  // Canonical memory texts are answered as they were given.
  ghost predicate KeepsMemoryText(given: ContainerResources, got: ContainerResources) {
    && (IsCanonicalText(given.memoryMin) ==> got.memoryMin == given.memoryMin)
    && (IsCanonicalText(given.memoryMax) ==> got.memoryMax == given.memoryMax)
  }

  lemma ShownMemoryText(c: Container, id: string, spec: ContainerSpec, cfg: K8sConfig, x: Suffixes, pods: seq<Pod>)
    requires ShowsEntry(c, id, NewEntry(spec, cfg, x), pods)
    ensures KeepsMemoryText(spec.resources, c.spec.resources)
  {
    assert c.spec.resources == NormalForm(spec, DeploymentName(spec, x), cfg).resources;
    if IsCanonicalText(spec.resources.memoryMin) { CanonicalTextStays(spec.resources.memoryMin); }
    if IsCanonicalText(spec.resources.memoryMax) { CanonicalTextStays(spec.resources.memoryMax); }
  }

  // Create and then Delete without faults is the identity on the map.
  lemma DeleteUndoesCreate(st: State, cfg: K8sConfig, spec: ContainerSpec, id: string, x: Suffixes, f: CreateFaults,
                           g: DeleteFaults, t: State, r: Result<(), StoreError>)
    requires Safe(st) && CreateOutcome(st, cfg, spec, id, x, f).1.Ok?
    requires DeleteStep(CreateOutcome(st, cfg, spec, id, x, f).0, id, g, t, r)
    requires !g.find && !g.services && !g.deployment && !g.service(0)
    ensures r.Ok? && Abs(t, cfg.namespace) == Abs(st, cfg.namespace)
  {
    CreatedEntry(st, cfg, spec, id, x, f);
    DeleteRefines(CreateOutcome(st, cfg, spec, id, x, f).0, id, g, t, r, cfg.namespace);
    PutThenRemove(Abs(st, cfg.namespace), id, NewEntry(spec, cfg, x));
  }

  lemma PutThenRemove<V>(m: map<string, V>, id: string, v: V)
    requires id !in m
    ensures id in m[id := v] && m[id := v] - {id} == m
  {
  }
}
