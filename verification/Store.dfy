/**
 The store's calls as the source makes them, API call by API call: internal/kubernetes/store.go,
 store_create.go, store_get.go and store_delete.go.
 */
module Store {
  import opened Wrappers
  import opened StatusEvents
  import opened Dcm
  import opened KubeObjects
  import opened ApiTypes
  import opened Convert
  import opened Cluster
  import opened StoreModel
  import opened StoreMap
  import opened StoreRead

  lemma ListedServices(items: seq<Service>, st: State, id: string)
    requires WellNamed(st) && ListsServices(items, st, InstanceSelector(id))
    ensures forall n :: n in ServiceNames(st, id) <==> exists i :: 0 <= i < |items| && items[i].name == n
    ensures |items| == 1 ==> IsOnlyService(st, id, Some(items[0]))
    ensures |items| != 1 ==> IsOnlyService(st, id, None)
  {
    forall n | n in ServiceNames(st, id) ensures exists i :: 0 <= i < |items| && items[i].name == n {
      assert st.services[n] in items;
    }
    forall i | 0 <= i < |items| ensures items[i].name in ServiceNames(st, id) {
      assert items[i] in items;
    }
    if |items| == 1 {
      assert ServiceNames(st, id) == {items[0].name};
    } else if |items| > 1 {
      assert items[0].name in ServiceNames(st, id) && items[1].name in ServiceNames(st, id);
    }
  }

  lemma ListedDeployments(items: seq<Deployment>, st: State, id: string)
    requires WellNamed(st) && ListsDeployments(items, st, InstanceSelector(id))
    ensures forall n :: n in DeploymentNames(st, id) <==> exists i :: 0 <= i < |items| && items[i].name == n
    ensures items == [] <==> !Deployed(st, id)
  {
    forall n | n in DeploymentNames(st, id) ensures exists i :: 0 <= i < |items| && items[i].name == n {
      assert st.deployments[n] in items;
    }
    forall i | 0 <= i < |items| ensures items[i].name in DeploymentNames(st, id) {
      assert items[i] in items;
    }
    if items != [] {
      assert items[0].name in DeploymentNames(st, id);
    }
    if Deployed(st, id) {
      var n :| n in st.deployments && HasID(st.deployments[n].labels, id);
      assert n in DeploymentNames(st, id);
    }
  }

  class K8sContainerStore {
    const client: Client
    const cfg: K8sConfig

    constructor (client: Client, cfg: K8sConfig)
      ensures this.client == client && this.cfg == cfg
    {
      this.client, this.cfg := client, cfg;
    }

    method FindDeployment(id: string, fails: bool) returns (r: Result<Deployment, StoreError>)
      requires WellNamed(client.View())
      ensures r.Ok? ==> !fails && r.value.name in client.deployments && client.deployments[r.value.name] == r.value
                        && DeploymentNames(client.View(), id) == {r.value.name}
      ensures r == Err(NotFoundError) <==> !fails && DeploymentNames(client.View(), id) == {}
      ensures r == Err(ConflictError) <==> !fails && Several(client.View(), id)
      ensures r in {Err(NotFoundError), Err(ConflictError), Err(Infrastructure(Unavailable))} || r.Ok?
      ensures fails <==> r == Err(Infrastructure(Unavailable))
    {
      var deploys := client.ListDeployments(InstanceSelector(id), fails);
      match deploys {
        case Err(e) => r := Err(Infrastructure(e));
        case Ok(items) =>
          ListedDeployments(items, client.View(), id);
          if |items| == 0 {
            assert DeploymentNames(client.View(), id) == {};
            r := Err(NotFoundError);
          } else if |items| > 1 {
            assert items[0].name in DeploymentNames(client.View(), id);
            assert items[1].name in DeploymentNames(client.View(), id);
            r := Err(ConflictError);
          } else {
            assert items[0] in items;
            assert DeploymentNames(client.View(), id) == {items[0].name};
            r := Ok(items[0]);
          }
      }
    }

    // containerFromDeployment followed by enrichFromCluster. `pods` is what the Pod listing returns.
    method BuildContainer(d: Deployment, id: string, pods: seq<Pod>, f: ReadFaults)
      returns (r: Result<Container, StoreError>)
      requires WellNamed(client.View())
      ensures ReadStep(client.View(), cfg.namespace, d, id, pods, f, r)
    {
      var c := new ContainerObject.FromDeployment(d, id, cfg.namespace);
      ghost var bare := c.spec;
      ghost var ip := "";
      if f.pods {
        return Err(Infrastructure(Unavailable));
      }
      if |pods| == 1 {
        assert ActiveAt(pods, 0);
        c.EnrichWithPod(pods[0]);
        ip := pods[0].ip;
      } else if |pods| == 2 && IsRollingUpdate(d) {
        var active := SelectActivePod(pods);
        c.EnrichWithPod(active);
        ip := active.ip;
      } else if |pods| > 1 {
        return Err(ConflictError);
      } else {
        c.status := Some(PENDING);
      }
      assert PodTells(c.status, ip, pods) && c.spec == WithAddress(bare, ip);
      var svcs := client.ListServices(InstanceSelector(id), f.services);
      if svcs.Err? {
        return Err(Infrastructure(svcs.error));
      }
      ListedServices(svcs.value, client.View(), id);
      ghost var svc: Option<Service> := None;
      if |svcs.value| == 1 {
        ServiceAfterAddress(bare, ip, svcs.value[0]);
        c.EnrichWithService(svcs.value[0]);
        svc := Some(svcs.value[0]);
      }
      assert IsOnlyService(client.View(), id, svc) && c.service == ServiceInfoOf(svc);
      assert c.spec == WithAddress(ReadSpec(d, svc, cfg.namespace), ip);
      return Ok(Container(c.id, c.spec, c.status, c.service));
    }

    // In a safe state Get answers as the map does, and it changes nothing.
    method Get(id: string, pods: seq<Pod>, f: ReadFaults) returns (r: Result<Container, StoreError>)
      requires WellNamed(client.View())
      ensures GetStep(client.View(), cfg.namespace, id, pods, f, r)
      ensures Safe(client.View()) ==> AbsGet(Abs(client.View(), cfg.namespace), id, pods, f, r)
    {
      var d := FindDeployment(id, f.find);
      if d.Err? {
        r := Err(d.error);
      } else {
        r := BuildContainer(d.value, id, pods, f);
        assert d.value.name in DeploymentNames(client.View(), id);
        assert !Several(client.View(), id);
      }
      if Safe(client.View()) {
        GetRefines(client.View(), cfg.namespace, id, pods, f, r);
      }
    }

    method Create(spec: ContainerSpec, id: string, x: Suffixes, f: CreateFaults)
      returns (r: Result<Container, StoreError>)
      requires WellNamed(client.View())
      modifies client
      ensures client.View() == CreateOutcome(old(client.View()), cfg, spec, id, x, f).0
      ensures r == Stamped(CreateOutcome(old(client.View()), cfg, spec, id, x, f).1, spec, id, cfg)
      ensures old(client.trace) <= client.trace
      ensures forall mid :: mid in client.trace[|old(client.trace)|..] ==>
                MidCreate(old(client.View()), cfg, spec, id, x, mid)
    {
      ghost var st := client.View();
      var existing := client.ListDeployments(InstanceSelector(id), f.check);
      if existing.Err? {
        return Err(Infrastructure(existing.error));
      }
      ListedDeployments(existing.value, st, id);
      if |existing.value| > 0 {
        return Err(ConflictError);
      }
      var servicePorts := PortsWithVisibility(spec);
      var name := DeploymentName(spec, x);
      var created := client.CreateDeployment(BuildDeployment(spec, id, name), f.deployment);
      if created.Err? {
        return Err(if created.error == AlreadyExists then ConflictError else Infrastructure(created.error));
      }
      if |servicePorts| > 0 {
        var exposed := ExposeOrRollback(spec, id, x, f);
        if exposed.Err? {
          assert !f.rollback ==> client.deployments == st.deployments;
          return Err(exposed.error);
        }
      }
      return Stamped(Ok(()), spec, id, cfg);
    }

    // The Service part of Create: when its creation fails the Deployment is deleted again.
    method ExposeOrRollback(spec: ContainerSpec, id: string, x: Suffixes, f: CreateFaults) returns (r: Result<(), StoreError>)
      requires DeploymentName(spec, x) in client.deployments
      modifies client
      ensures var st := old(client.View());
              var taken := ServiceName(spec, x) in st.services;
              r == (if f.service then Err(Infrastructure(Unavailable))
                    else if taken then Err(Infrastructure(AlreadyExists)) else Ok(()))
              && client.View() ==
                   (if r.Ok? then WithService(st, cfg, spec, id, x)
                    else if f.rollback then st else st.(deployments := st.deployments - {DeploymentName(spec, x)}))
              && client.trace == old(client.trace) + (if r.Ok? then [client.View()] else [st, client.View()])
    {
      var svc := client.CreateService(BuildService(spec, id, cfg, ServiceName(spec, x)), f.service);
      if svc.Err? {
        var rollback := client.DeleteDeployment(DeploymentName(spec, x), f.rollback);
        return Err(Infrastructure(svc.error));
      }
      return Ok(());
    }

    method Delete(id: string, f: DeleteFaults) returns (r: Result<(), StoreError>)
      requires WellNamed(client.View())
      modifies client
      ensures DeleteStep(old(client.View()), id, f, client.View(), r)
      ensures old(client.trace) <= client.trace
      ensures AllMidDelete(client.trace[|old(client.trace)|..], old(client.View()), id)
    {
      var d := FindDeployment(id, f.find);
      if d.Err? {
        return Err(d.error);
      }
      assert !Several(client.View(), id);
      var svcs := client.ListServices(InstanceSelector(id), f.services);
      if svcs.Err? {
        return Err(Infrastructure(svcs.error));
      }
      ListingCovers(svcs.value, client.View(), id);
      r := DeleteObjects(d.value.name, svcs.value, id, f);
    }

    // The second half of Delete: first the Services listed, then the Deployment.
    method DeleteObjects(name: string, items: seq<Service>, id: string, f: DeleteFaults) returns (r: Result<(), StoreError>)
      requires Covers(items, client.View(), id) && !Several(client.View(), id)
      requires !f.find && !f.services && DeploymentNames(client.View(), id) == {name}
      modifies client
      ensures DeleteStep(old(client.View()), id, f, client.View(), r)
      ensures old(client.trace) <= client.trace
      ensures AllMidDelete(client.trace[|old(client.trace)|..], old(client.View()), id)
    {
      ghost var st := client.View();
      assert name in DeploymentNames(st, id);
      CoveredExist(items, st, id);
      var removed, count := DeleteServices(items, f.service);
      DeletionTraceFits(st, items, id, count);
      if removed.Err? {
        AllMidDeletePush(DeletionTrace(st, items, count), client.View(), st, id);
        FailedDeleteStep(st, id, f, items, count);
        return Err(removed.error);
      }
      var last := client.DeleteDeployment(name, f.deployment);
      if last.Err? {
        AllMidDeletePush(DeletionTrace(st, items, count), client.View(), st, id);
        FailedDeleteStep(st, id, f, items, count);
        return Err(Infrastructure(last.error));
      }
      WholeDeleteStep(st, id, f, items);
      AllMidDeletePush(DeletionTrace(st, items, count), client.View(), st, id);
      return Ok(());
    }

    // The loop of Delete over the Services listed for the instance, with the number it deleted.
    method DeleteServices(items: seq<Service>, fails: nat -> bool)
      returns (r: Result<(), StoreError>, ghost count: nat)
      requires DistinctNames(items) && forall i :: 0 <= i < |items| ==> items[i].name in client.services
      modifies client
      ensures count <= |items| && client.View() == WithoutServices(old(client.View()), items, count)
      ensures r == if count == |items| then Ok(()) else Err(Infrastructure(Unavailable))
      ensures count == FirstFailing(fails, 0, |items|)
      ensures client.trace == old(client.trace) + DeletionTrace(old(client.View()), items, count)
                              + (if count < |items| then [client.View()] else [])
    {
      ghost var st := client.View();
      assert st.services - {} == st.services;
      for i := 0 to |items|
        invariant client.View() == WithoutServices(st, items, i)
        invariant forall j :: 0 <= j < i ==> !fails(j)
        invariant client.trace == old(client.trace) + DeletionTrace(st, items, i)
      {
        NamesMembers(items, i);
        var deleted := client.DeleteService(items[i].name, fails(i));
        if deleted.Err? {
          assert FirstFailing(fails, 0, |items|) == i;
          return Err(Infrastructure(deleted.error)), i;
        }
        assert client.services == st.services - NamesUpTo(items, i + 1);
      }
      return Ok(()), |items|;
    }
  }

  // ---- The Services of a Delete, one after the other ----

  ghost function NamesUpTo(items: seq<Service>, i: nat): set<string>
    requires i <= |items|
  {
    if i == 0 then {} else NamesUpTo(items, i - 1) + {items[i - 1].name}
  }

  ghost function WithoutServices(st: State, items: seq<Service>, i: nat): State
    requires i <= |items|
  {
    Without(st, NamesUpTo(items, i))
  }

  // The states after each of the first i deletions.
  ghost function DeletionTrace(st: State, items: seq<Service>, i: nat): seq<State>
    requires i <= |items|
  {
    if i == 0 then [] else DeletionTrace(st, items, i - 1) + [WithoutServices(st, items, i)]
  }

  ghost predicate DistinctNames(items: seq<Service>) {
    forall i, j :: 0 <= i < j < |items| ==> items[i].name != items[j].name
  }

  // The listing names every Service of the instance, once.
  ghost predicate Covers(items: seq<Service>, st: State, id: string) {
    NamesUpTo(items, |items|) == ServiceNames(st, id) && DistinctNames(items)
  }

  lemma {:induction false} NamesMembers(items: seq<Service>, i: nat)
    requires i <= |items|
    ensures forall n :: n in NamesUpTo(items, i) <==> exists j :: 0 <= j < i && items[j].name == n
  {
    if i > 0 {
      NamesMembers(items, i - 1);
      forall n ensures n in NamesUpTo(items, i) <==> exists j :: 0 <= j < i && items[j].name == n {
        if n in NamesUpTo(items, i - 1) {
          var j :| 0 <= j < i - 1 && items[j].name == n;
        }
      }
    }
  }

  lemma {:induction false} NamesCount(items: seq<Service>, i: nat)
    requires i <= |items| && DistinctNames(items)
    ensures |NamesUpTo(items, i)| == i
  {
    if i > 0 {
      NamesCount(items, i - 1);
      NamesMembers(items, i - 1);
    }
  }

  lemma {:induction false} NamesGrow(items: seq<Service>, i: nat)
    requires i <= |items|
    ensures NamesUpTo(items, i) <= NamesUpTo(items, |items|)
    decreases |items| - i
  {
    if i < |items| {
      NamesGrow(items, i + 1);
    }
  }

  lemma ListingCovers(items: seq<Service>, st: State, id: string)
    requires WellNamed(st) && ListsServices(items, st, InstanceSelector(id))
    ensures Covers(items, st, id)
  {
    NamesMembers(items, |items|);
    ListedServices(items, st, id);
  }

  lemma PrefixNames(items: seq<Service>, st: State, id: string, i: nat)
    requires Covers(items, st, id) && i <= |items|
    ensures NamesUpTo(items, i) <= ServiceNames(st, id) && |NamesUpTo(items, i)| == i
    ensures |ServiceNames(st, id)| == |items|
  {
    NamesGrow(items, i);
    NamesCount(items, i);
    NamesCount(items, |items|);
  }

  lemma CoveredExist(items: seq<Service>, st: State, id: string)
    requires Covers(items, st, id)
    ensures forall i :: 0 <= i < |items| ==> items[i].name in st.services
  {
    NamesMembers(items, |items|);
    forall i | 0 <= i < |items| ensures items[i].name in st.services {
      assert items[i].name in ServiceNames(st, id);
    }
  }

  ghost predicate AllMidDelete(mids: seq<State>, st: State, id: string) {
    forall i :: 0 <= i < |mids| ==> MidDelete(st, id, mids[i])
  }

  lemma AllMidDeletePush(mids: seq<State>, mid: State, st: State, id: string)
    requires AllMidDelete(mids, st, id) && MidDelete(st, id, mid)
    ensures AllMidDelete(mids + [mid], st, id)
  {
  }

  lemma {:induction false} DeletionTraceFits(st: State, items: seq<Service>, id: string, i: nat)
    requires Covers(items, st, id) && i <= |items|
    ensures AllMidDelete(DeletionTrace(st, items, i), st, id) && MidDelete(st, id, WithoutServices(st, items, i))
  {
    PrefixNames(items, st, id, i);
    IsMidDelete(st, id, NamesUpTo(items, i));
    if i > 0 {
      DeletionTraceFits(st, items, id, i - 1);
    }
  }

  // A Delete that stopped after some Services were gone.
  lemma StoppedDeleteStep(st: State, id: string, f: DeleteFaults, gone: set<string>)
    requires !f.find && !f.services && DeploymentNames(st, id) != {} && !Several(st, id)
    requires gone <= ServiceNames(st, id) && |gone| == FirstFailing(f.service, 0, |ServiceNames(st, id)|)
    requires |gone| < |ServiceNames(st, id)| || f.deployment
    ensures DeleteStep(st, id, f, Without(st, gone), Err(Infrastructure(Unavailable)))
  {
  }

  lemma FailedDeleteStep(st: State, id: string, f: DeleteFaults, items: seq<Service>, count: nat)
    requires Covers(items, st, id)
    requires !f.find && !f.services && DeploymentNames(st, id) != {} && !Several(st, id)
    requires count == FirstFailing(f.service, 0, |items|) && (count < |items| || f.deployment)
    ensures DeleteStep(st, id, f, WithoutServices(st, items, count), Err(Infrastructure(Unavailable)))
  {
    PrefixNames(items, st, id, count);
    StoppedDeleteStep(st, id, f, NamesUpTo(items, count));
  }

  lemma WholeDeleteStep(st: State, id: string, f: DeleteFaults, items: seq<Service>)
    requires Covers(items, st, id)
    requires !f.find && !f.services && !f.deployment && DeploymentNames(st, id) != {} && !Several(st, id)
    requires FirstFailing(f.service, 0, |items|) == |items|
    ensures var t := State(st.deployments - DeploymentNames(st, id), WithoutServices(st, items, |items|).services);
            DeleteStep(st, id, f, t, Ok(())) && MidDelete(st, id, t)
  {
    PrefixNames(items, st, id, |items|);
  }

  // Create answers with the given id, pending, and the caller's own spec in the store's namespace.
  lemma CreateAnswer(spec: ContainerSpec, id: string, cfg: K8sConfig, r: Result<Container, StoreError>)
    requires r == Stamped(Ok(()), spec, id, cfg)
    ensures r.Ok? && r.value.id == id && r.value.status == Some(PENDING) && r.value.service.None?
    ensures r.value.spec == spec.(metadata := r.value.spec.metadata)
    ensures r.value.spec.metadata == ContainerMetadata(spec.metadata.name, spec.metadata.labels, Some(cfg.namespace))
  {
  }

  // Create answers with the name the caller gave; a later Get answers with the generated one.
  lemma CreateAnswersOldName(st: State, cfg: K8sConfig, spec: ContainerSpec, id: string, x: Suffixes, f: CreateFaults)
    requires Safe(st) && CreateOutcome(st, cfg, spec, id, x, f).1.Ok?
    ensures var (t, r) := CreateOutcome(st, cfg, spec, id, x, f);
            id in Abs(t, cfg.namespace)
            && var got := Abs(t, cfg.namespace)[id].spec;
               var answered := Stamped(r, spec, id, cfg).value.spec;
               got.metadata.name == answered.metadata.name + "-" + x.deployment
               && got.metadata.name != answered.metadata.name
  {
    CreatedEntry(st, cfg, spec, id, x, f);
    assert |DeploymentName(spec, x)| > |spec.metadata.name|;
  }
}
