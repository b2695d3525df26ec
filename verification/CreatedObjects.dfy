/**
 What a successful Create asks the cluster to run, told from the spec alone: the Deployment and the
 Service of internal/kubernetes/convert.go.
 */
module CreatedObjects {
  import opened Wrappers
  import opened StatusEvents
  import opened Dcm
  import opened KubeObjects
  import opened ApiTypes
  import opened Convert
  import opened RoundTrip
  import opened Cluster
  import opened StoreModel
  import opened GoInts
  import Reconcile
  import Units

  // The user's labels and the three labels of the instance.
  ghost predicate CarriesLabels(labels: LabelMap, spec: ContainerSpec, id: string) {
    && "dcm.project/managed-by" in labels && labels["dcm.project/managed-by"] == "dcm"
    && "dcm.project/dcm-instance-id" in labels && labels["dcm.project/dcm-instance-id"] == id
    && "dcm.project/dcm-service-type" in labels && labels["dcm.project/dcm-service-type"] == "container"
    && forall k :: k !in RESERVED_LABEL_KEYS ==>
         (k in labels <==> spec.metadata.labels.Some? && k in spec.metadata.labels.value)
         && (k in labels ==> labels[k] == spec.metadata.labels.value[k])
  }

  lemma LabelsCarry(spec: ContainerSpec, id: string)
    ensures CarriesLabels(LabelsFor(spec, id), spec, id)
  {
  }

  // A selector that finds exactly the objects of one instance.
  ghost predicate SelectsInstance(selector: LabelMap, id: string) {
    selector == map["dcm.project/managed-by" := "dcm", "dcm.project/dcm-instance-id" := id,
                    "dcm.project/dcm-service-type" := "container"]
  }

  // One container, named after the spec, with the spec's image, process and resources.
  ghost predicate RunsSpec(c: TemplateContainer, spec: ContainerSpec) {
    && c.name == spec.metadata.name && c.image == spec.image
    && c.cpuRequest == spec.resources.cpuMin && c.cpuLimit == spec.resources.cpuMax
    && IsMemory(c.memoryRequest, spec.resources.memoryMin) && IsMemory(c.memoryLimit, spec.resources.memoryMax)
    && RunsProcess(c, spec.process) && OpensPorts(c.ports, spec)
  }

  // The bytes of a memory text, and zero when its conversion failed.
  predicate IsMemory(bytes: nat, text: string) {
    Units.ConvertMemory(text) == Some(bytes) || (Units.ConvertMemory(text).None? && bytes == 0)
  }

  ghost predicate RunsProcess(c: TemplateContainer, process: Option<ContainerProcess>) {
    match process
    case None => c.command == [] && c.args == [] && c.env == []
    case Some(p) =>
      && (p.command == Some(c.command) || (p.command.None? && c.command == []))
      && (p.args == Some(c.args) || (p.args.None? && c.args == []))
      && (p.env == Some(c.env) || (p.env.None? && c.env == []))
  }

  ghost predicate OpensPorts(numbers: seq<int>, spec: ContainerSpec) {
    var ports := if spec.network.Some? && spec.network.value.ports.Some? then spec.network.value.ports.value else [];
    |numbers| == |ports| && forall i :: 0 <= i < |ports| ==> IsNumber(numbers[i], ports[i].containerPort)
  }

  // A port number as the cluster's 32 bits hold it.
  predicate IsNumber(n: int, port: int) {
    -0x8000_0000 <= n < 0x8000_0000 && (port - n) % 0x1_0000_0000 == 0
  }

  lemma NumbersFit(port: int)
    ensures IsNumber(Int32(port), port)
    ensures 1 <= port <= 65535 ==> Int32(port) == port
  {
    Int32Means(port);
  }

  ghost predicate IsDeploymentFor(d: Deployment, spec: ContainerSpec, id: string, name: string) {
    && d.name == name && d.replicas == Some(1) && CarriesLabels(d.labels, spec, id)
    && SelectsInstance(d.selector, id) && CarriesLabels(d.podLabels, spec, id) && Matches(d.podLabels, d.selector)
    && RunsSpec(d.container, spec) && d.updatedReplicas == 0 && d.unavailableReplicas == 0 && d.conditions == []
  }

  lemma BuiltDeployment(spec: ContainerSpec, id: string, name: string)
    ensures IsDeploymentFor(BuildDeployment(spec, id, name), spec, id, name)
  {
    LabelsCarry(spec, id);
    forall i | 0 <= i < |SpecPorts(spec)| ensures IsNumber(Int32(SpecPorts(spec)[i].containerPort), SpecPorts(spec)[i].containerPort) {
      NumbersFit(SpecPorts(spec)[i].containerPort);
    }
  }

  // ---- The Service ----

  ghost function VisibleIndices(ports: seq<ContainerPort>): set<int> {
    set i | 0 <= i < |ports| && ports[i].visibility != VisNone
  }

  lemma {:induction false} VisibleCount(ports: seq<ContainerPort>)
    ensures |Visible(ports)| == |VisibleIndices(ports)|
  {
    if ports != [] {
      var front := ports[..|ports| - 1];
      VisibleCount(front);
      var n := |ports| - 1;
      assert VisibleIndices(ports) ==
             VisibleIndices(front) + (if ports[n].visibility != VisNone then {n} else {});
    }
  }

  // One entry for each visible port, to and from its number.
  ghost predicate ServesPorts(entries: seq<ServicePort>, ports: seq<ContainerPort>) {
    && |entries| == |VisibleIndices(ports)|
    && (forall j :: 0 <= j < |entries| ==> entries[j].port == entries[j].targetPort && ServesSome(entries[j], ports))
    && (forall i :: i in VisibleIndices(ports) ==> IsServed(entries, ports[i].containerPort))
  }

  ghost predicate ServesSome(e: ServicePort, ports: seq<ContainerPort>) {
    exists i :: i in VisibleIndices(ports) && IsNumber(e.port, ports[i].containerPort)
  }

  ghost predicate IsServed(entries: seq<ServicePort>, port: int) {
    exists j :: 0 <= j < |entries| && IsNumber(entries[j].port, port)
  }

  ghost predicate IsServiceFor(s: Service, spec: ContainerSpec, id: string, cfg: K8sConfig, name: string) {
    && s.name == name && CarriesLabels(s.labels, spec, id) && SelectsInstance(s.selector, id)
    && ServesPorts(s.ports, SpecPorts(spec))
    && s.serviceType == if exists p :: p in SpecPorts(spec) && p.visibility == VisExternal
                        then cfg.externalServiceType else ClusterIP
  }

  lemma EntriesServe(ports: seq<ContainerPort>, entries: seq<ServicePort>)
    requires |entries| == |Visible(ports)|
    requires forall j :: 0 <= j < |entries| ==>
               entries[j] == ServicePort(Int32(Visible(ports)[j].containerPort), Int32(Visible(ports)[j].containerPort))
    ensures ServesPorts(entries, ports)
  {
    VisibleCount(ports);
    VisibleMembers(ports);
    var visible := Visible(ports);
    forall j | 0 <= j < |entries| ensures ServesSome(entries[j], ports) {
      assert visible[j] in ports;
      var i :| 0 <= i < |ports| && ports[i] == visible[j];
      NumbersFit(ports[i].containerPort);
      assert i in VisibleIndices(ports);
    }
    forall i | i in VisibleIndices(ports) ensures IsServed(entries, ports[i].containerPort) {
      assert ports[i] in visible;
      var j :| 0 <= j < |visible| && visible[j] == ports[i];
      NumbersFit(ports[i].containerPort);
      assert IsNumber(entries[j].port, ports[i].containerPort);
    }
  }

  lemma BuiltService(spec: ContainerSpec, id: string, cfg: K8sConfig, name: string)
    ensures IsServiceFor(BuildService(spec, id, cfg, name), spec, id, cfg, name)
  {
    LabelsCarry(spec, id);
    EntriesServe(SpecPorts(spec), BuildService(spec, id, cfg, name).ports);
    ExternalIsVisible(SpecPorts(spec));
  }

  // ---- What Create leaves behind ----

  // A successful Create adds one Deployment, under the generated name, that asks for one replica
  // of the spec; until it has Pods the monitor calls it pending.
  lemma CreateAddsDeployment(st: State, cfg: K8sConfig, spec: ContainerSpec, id: string, x: Suffixes, f: CreateFaults)
    requires CreateOutcome(st, cfg, spec, id, x, f).1.Ok?
    ensures var t := CreateOutcome(st, cfg, spec, id, x, f).0;
            var name := spec.metadata.name + "-" + x.deployment;
            name !in st.deployments && name in t.deployments
            && t.deployments == st.deployments[name := t.deployments[name]]
            && IsDeploymentFor(t.deployments[name], spec, id, name)
            && Reconcile.Tells(PENDING, "waiting for pods", Some(t.deployments[name]), None)
  {
    BuiltDeployment(spec, id, DeploymentName(spec, x));
  }

  // It adds one Service when a port is visible, under its own generated name, and none otherwise.
  lemma CreateAddsService(st: State, cfg: K8sConfig, spec: ContainerSpec, id: string, x: Suffixes, f: CreateFaults)
    requires CreateOutcome(st, cfg, spec, id, x, f).1.Ok?
    ensures var t := CreateOutcome(st, cfg, spec, id, x, f).0;
            var name := spec.metadata.name + "-" + x.service;
            if VisibleIndices(SpecPorts(spec)) == {} then t.services == st.services
            else name !in st.services && name in t.services
                 && t.services == st.services[name := t.services[name]]
                 && IsServiceFor(t.services[name], spec, id, cfg, name)
  {
    VisibleCount(SpecPorts(spec));
    BuiltService(spec, id, cfg, ServiceName(spec, x));
    assert VisibleIndices(SpecPorts(spec)) != {} ==> |VisibleIndices(SpecPorts(spec))| > 0;
  }
}
