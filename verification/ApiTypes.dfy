// The API's container types, as far as the store and the handlers use them.
module ApiTypes {
  import opened Wrappers
  import opened StatusEvents
  import opened Dcm
  import opened KubeObjects

  datatype Visibility = VisNone | VisInternal | VisExternal

  datatype ContainerPort = ContainerPort(containerPort: int, visibility: Visibility)

  datatype ContainerNetwork = ContainerNetwork(ip: Option<string>, ports: Option<seq<ContainerPort>>)

  datatype ContainerProcess = ContainerProcess(
    command: Option<seq<string>>, args: Option<seq<string>>, env: Option<seq<EnvVar>>)

  datatype ContainerMetadata = ContainerMetadata(
    name: string, labels: Option<LabelMap>, namespace: Option<string>)

  datatype ContainerResources = ContainerResources(cpuMin: int, cpuMax: int, memoryMin: string, memoryMax: string)

  datatype ContainerSpec = ContainerSpec(
    image: string, metadata: ContainerMetadata, resources: ContainerResources,
    process: Option<ContainerProcess>, network: Option<ContainerNetwork>, providerHints: Option<string>)

  datatype ServiceInfo = ServiceInfo(name: string, serviceType: ServiceType, ports: Option<seq<ServicePort>>)

  datatype Container = Container(
    id: string, spec: ContainerSpec, status: Option<Status>, service: Option<ServiceInfo>)
}
