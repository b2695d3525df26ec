/**
 From an API spec to a Deployment and a Service, and back: internal/kubernetes/convert.go and the
 port functions of store_create.go.
 */
module Convert {
  import opened Wrappers
  import opened StatusEvents
  import opened Dcm
  import opened KubeObjects
  import opened ApiTypes
  import opened GoInts
  import Units
  import Reconcile

  datatype K8sConfig = K8sConfig(namespace: string, externalServiceType: ServiceType)

  // A failed conversion leaves the zero quantity.
  function MemoryBytes(text: string): nat {
    match Units.ConvertMemory(text) case Some(q) => q case None => 0
  }

  function ListOr<T>(o: Option<seq<T>>): seq<T> {
    if o.Some? then o.value else []
  }

  function SpecPorts(spec: ContainerSpec): seq<ContainerPort> {
    if spec.network.Some? then ListOr(spec.network.value.ports) else []
  }

  function PortNumbers(ports: seq<ContainerPort>): seq<int> {
    seq(|ports|, i requires 0 <= i < |ports| => Int32(ports[i].containerPort))
  }

  function ProcessOr(spec: ContainerSpec): ContainerProcess {
    if spec.process.Some? then spec.process.value else ContainerProcess(None, None, None)
  }

  function LabelsFor(spec: ContainerSpec, id: string): LabelMap {
    if spec.metadata.labels.Some? then MergeLabels(Labels(id), spec.metadata.labels.value) else Labels(id)
  }

  // `name` is the name the API server generates from the spec's name and a suffix.
  function BuildDeployment(spec: ContainerSpec, id: string, name: string): Deployment {
    var proc := ProcessOr(spec);
    Deployment(
      name, LabelsFor(spec, id), Some(1), Labels(id), LabelsFor(spec, id),
      TemplateContainer(
        spec.metadata.name, spec.image,
        spec.resources.cpuMin, spec.resources.cpuMax,
        MemoryBytes(spec.resources.memoryMin), MemoryBytes(spec.resources.memoryMax),
        ListOr(proc.command), ListOr(proc.args), ListOr(proc.env), PortNumbers(SpecPorts(spec))),
      0, 0, [])
  }

  function Visible(ports: seq<ContainerPort>): seq<ContainerPort> {
    if ports == [] then [] else
      var front, p := ports[..|ports| - 1], ports[|ports| - 1];
      if p.visibility != VisNone then Visible(front) + [p] else Visible(front)
  }

  method PortsWithVisibility(spec: ContainerSpec) returns (result: seq<ContainerPort>)
    ensures result == Visible(SpecPorts(spec))
    ensures forall p :: p in result <==> p in SpecPorts(spec) && p.visibility != VisNone
  {
    result := [];
    if spec.network.None? || spec.network.value.ports.None? || |spec.network.value.ports.value| == 0 {
      return;
    }
    var ports := spec.network.value.ports.value;
    for i := 0 to |ports|
      invariant result == Visible(ports[..i])
      invariant forall p :: p in result <==> p in ports[..i] && p.visibility != VisNone
    {
      assert ports[..i + 1] == ports[..i] + [ports[i]] && ports[..i + 1][..i] == ports[..i];
      if ports[i].visibility != VisNone {
        result := result + [ports[i]];
      }
    }
    assert ports[..|ports|] == ports;
  }

  predicate HasExternalPort(ports: seq<ContainerPort>) {
    exists i :: 0 <= i < |ports| && ports[i].visibility == VisExternal
  }

  function ResolveServiceType(cfg: K8sConfig, ports: seq<ContainerPort>): ServiceType {
    if HasExternalPort(ports) then cfg.externalServiceType else ClusterIP
  }

  function BuildService(spec: ContainerSpec, id: string, cfg: K8sConfig, name: string): Service {
    var ports := Visible(SpecPorts(spec));
    Service(name, LabelsFor(spec, id), ResolveServiceType(cfg, ports), Labels(id),
            seq(|ports|, i requires 0 <= i < |ports| =>
              ServicePort(Int32(ports[i].containerPort), Int32(ports[i].containerPort))))
  }

  // ---- Reading back ----

  function UserLabels(labels: LabelMap): Option<LabelMap> {
    var user := labels - RESERVED_LABEL_KEYS;
    if user == map[] then None else Some(user)
  }

  function NonEmpty<T(==)>(s: seq<T>): Option<seq<T>> {
    if s == [] then None else Some(s)
  }

  function ProcessFrom(c: TemplateContainer): Option<ContainerProcess> {
    if c.command == [] && c.args == [] && c.env == [] then None
    else Some(ContainerProcess(NonEmpty(c.command), NonEmpty(c.args), NonEmpty(c.env)))
  }

  function SpecFromDeployment(d: Deployment, namespace: string): ContainerSpec {
    var c := d.container;
    ContainerSpec(
      c.image,
      ContainerMetadata(d.name, UserLabels(d.labels), Some(namespace)),
      ContainerResources(c.cpuRequest, c.cpuLimit, Units.MemoryQuantityToAPI(c.memoryRequest),
                         Units.MemoryQuantityToAPI(c.memoryLimit)),
      ProcessFrom(c),
      if c.ports == [] then None
      else Some(ContainerNetwork(None, Some(seq(|c.ports|, i requires 0 <= i < |c.ports| =>
                                              ContainerPort(c.ports[i], VisNone))))),
      None)
  }

  function InferVisibility(t: ServiceType): Visibility {
    match t
    case LoadBalancer => VisExternal
    case NodePort => VisExternal
    case _ => VisInternal
  }

  ghost predicate Targets(svc: Service, port: int) {
    exists i :: 0 <= i < |svc.ports| && svc.ports[i].targetPort == port
  }

  ghost function PortWithService(p: ContainerPort, svc: Service): ContainerPort {
    if Targets(svc, p.containerPort) then p.(visibility := InferVisibility(svc.serviceType)) else p
  }

  ghost function PortsWithService(ports: seq<ContainerPort>, svc: Service): seq<ContainerPort> {
    seq(|ports|, i requires 0 <= i < |ports| => PortWithService(ports[i], svc))
  }

  ghost function SpecWithService(spec: ContainerSpec, svc: Service): ContainerSpec {
    if SpecPorts(spec) == [] then spec else
      spec.(network := Some(spec.network.value.(ports := Some(PortsWithService(SpecPorts(spec), svc)))))
  }

  // What Get reads from a Deployment and, when there is exactly one, its Service.
  ghost function ReadSpec(d: Deployment, svc: Option<Service>, namespace: string): ContainerSpec {
    var spec := SpecFromDeployment(d, namespace);
    if svc.Some? then SpecWithService(spec, svc.value) else spec
  }

  // A spec with the address that a Pod contributes.
  function WithAddress(spec: ContainerSpec, ip: string): ContainerSpec {
    if ip == "" then spec else
      spec.(network := Some(ContainerNetwork(Some(ip), if spec.network.Some? then spec.network.value.ports else None)))
  }

  lemma ServiceAfterAddress(spec: ContainerSpec, ip: string, svc: Service)
    ensures SpecWithService(WithAddress(spec, ip), svc) == WithAddress(SpecWithService(spec, svc), ip)
  {
    assert SpecPorts(WithAddress(spec, ip)) == SpecPorts(spec);
  }

  // The container under construction, enriched in place.
  class ContainerObject {
    var id: string
    var spec: ContainerSpec
    var status: Option<Status>
    var service: Option<ServiceInfo>

    constructor FromDeployment(d: Deployment, instanceID: string, namespace: string)
      ensures id == instanceID && spec == SpecFromDeployment(d, namespace)
      ensures status.None? && service.None?
    {
      id, spec, status, service := instanceID, SpecFromDeployment(d, namespace), None, None;
    }

    // Only a Pod address changes the spec, and only its network address.
    method EnrichWithPod(pod: Pod)
      modifies this
      ensures id == old(id) && service == old(service)
      ensures var s := Reconcile.MapPodPhaseToStatus(pod.phase);
              status == if s.Some? then s else old(status)
      ensures spec == WithAddress(old(spec), pod.ip)
      ensures SpecPorts(spec) == SpecPorts(old(spec))
      ensures spec.(network := None) == old(spec).(network := None)
    {
      var mapped := Reconcile.MapPodPhaseToStatus(pod.phase);
      if mapped.Some? {
        status := mapped;
      }
      if pod.ip != "" {
        if spec.network.None? {
          spec := spec.(network := Some(ContainerNetwork(None, None)));
        }
        spec := spec.(network := Some(spec.network.value.(ip := Some(pod.ip))));
      }
    }

    method EnrichWithService(svc: Service)
      modifies this
      ensures id == old(id) && status == old(status)
      ensures service == Some(ServiceInfo(svc.name, svc.serviceType, NonEmpty(svc.ports)))
      ensures spec == SpecWithService(old(spec), svc)
    {
      var targets: set<int> := {};
      for i := 0 to |svc.ports|
        invariant forall t :: t in targets <==> exists j :: 0 <= j < i && svc.ports[j].targetPort == t
        invariant spec == old(spec) && id == old(id) && status == old(status)
      {
        targets := targets + {svc.ports[i].targetPort};
      }
      service := Some(ServiceInfo(svc.name, svc.serviceType, NonEmpty(svc.ports)));
      if spec.network.Some? && spec.network.value.ports.Some? && |spec.network.value.ports.value| > 0 {
        var visibility := InferVisibility(svc.serviceType);
        var ports := spec.network.value.ports.value;
        ghost var before := ports;
        for i := 0 to |ports|
          invariant |ports| == |before|
          invariant forall j :: 0 <= j < i ==> ports[j] == PortWithService(before[j], svc)
          invariant forall j :: i <= j < |ports| ==> ports[j] == before[j]
        {
          if ports[i].containerPort in targets {
            ports := ports[i := ports[i].(visibility := visibility)];
          }
        }
        assert ports == PortsWithService(before, svc);
        spec := spec.(network := Some(spec.network.value.(ports := Some(ports))));
      }
    }
  }
}
