// The parts of the Kubernetes objects that the service provider reads and writes.
module KubeObjects {
  import opened Wrappers
  import opened Dcm

  datatype PodPhase = Pending | Running | Succeeded | Failed | PhaseUnknown | OtherPhase(name: string)

  // The reasons of a container's waiting and terminated states, when it has them.
  datatype ContainerState = ContainerState(waiting: Option<string>, terminated: Option<string>)

  datatype Pod = Pod(name: string, labels: LabelMap, phase: PodPhase, containers: seq<ContainerState>,
                     ip: string, created: int)

  datatype Condition = Condition(replicaFailure: bool, isTrue: bool, message: string)

  datatype EnvVar = EnvVar(name: string, value: string)

  // A container of a pod template. Quantities are a number of CPUs and a number of bytes.
  datatype TemplateContainer = TemplateContainer(
    name: string, image: string,
    cpuRequest: int, cpuLimit: int, memoryRequest: nat, memoryLimit: nat,
    command: seq<string>, args: seq<string>, env: seq<EnvVar>, ports: seq<int>)

  datatype Deployment = Deployment(
    name: string, labels: LabelMap, replicas: Option<int>, selector: LabelMap, podLabels: LabelMap,
    container: TemplateContainer,
    updatedReplicas: int, unavailableReplicas: int, conditions: seq<Condition>)

  datatype ServiceType = ClusterIP | NodePort | LoadBalancer | OtherType(text: string)

  datatype ServicePort = ServicePort(port: int, targetPort: int)

  datatype Service = Service(
    name: string, labels: LabelMap, serviceType: ServiceType, selector: LabelMap, ports: seq<ServicePort>)
}
