/**
 What a stored spec reads back as, stated without the Deployment and the Service in between.
 */
module RoundTrip {
  import opened Wrappers
  import opened Dcm
  import opened KubeObjects
  import opened ApiTypes
  import opened Convert
  import opened GoInts
  import Units
  import Decimal

  function NormalLabels(spec: ContainerSpec): Option<LabelMap> {
    if spec.metadata.labels.None? then None else
      var user := spec.metadata.labels.value - RESERVED_LABEL_KEYS;
      if user == map[] then None else Some(user)
  }

  function NormalProcess(spec: ContainerSpec): Option<ContainerProcess> {
    var p := ProcessOr(spec);
    if p.command in {None, Some([])} && p.args in {None, Some([])} && p.env in {None, Some([])} then None
    else Some(ContainerProcess(if p.command == Some([]) then None else p.command,
                               if p.args == Some([]) then None else p.args,
                               if p.env == Some([]) then None else p.env))
  }

  // A port is exposed when its number is that of some port with a visibility other than none.
  ghost predicate Exposed(ports: seq<ContainerPort>, number: int) {
    exists p :: p in ports && p.visibility != VisNone && Int32(p.containerPort) == Int32(number)
  }

  ghost function NormalPort(ports: seq<ContainerPort>, p: ContainerPort, cfg: K8sConfig): ContainerPort {
    ContainerPort(
      Int32(p.containerPort),
      if !Exposed(ports, p.containerPort) then VisNone
      else if (exists q :: q in ports && q.visibility == VisExternal)
              && cfg.externalServiceType in {NodePort, LoadBalancer} then VisExternal
      else VisInternal)
  }

  ghost function NormalNetwork(spec: ContainerSpec, cfg: K8sConfig): Option<ContainerNetwork> {
    var ports := SpecPorts(spec);
    if ports == [] then None else
      Some(ContainerNetwork(None, Some(seq(|ports|, i requires 0 <= i < |ports| => NormalPort(ports, ports[i], cfg)))))
  }

  function NormalMemory(text: string): string {
    Units.MemoryQuantityToAPI(MemoryBytes(text))
  }

  // Same image, CPU, command, args, env, user labels and ports in their order; memory in
  // canonical text; empty lists, labels and hints absent; the generated name; the namespace.
  ghost function NormalForm(spec: ContainerSpec, name: string, cfg: K8sConfig): ContainerSpec {
    ContainerSpec(
      spec.image,
      ContainerMetadata(name, NormalLabels(spec), Some(cfg.namespace)),
      spec.resources.(memoryMin := NormalMemory(spec.resources.memoryMin),
                      memoryMax := NormalMemory(spec.resources.memoryMax)),
      NormalProcess(spec),
      NormalNetwork(spec, cfg),
      None)
  }

  ghost function ServiceFor(spec: ContainerSpec, id: string, cfg: K8sConfig, svcName: string): Option<Service> {
    if Visible(SpecPorts(spec)) == [] then None else Some(BuildService(spec, id, cfg, svcName))
  }

  lemma {:induction false} VisibleMembers(ports: seq<ContainerPort>)
    ensures forall p :: p in Visible(ports) <==> p in ports && p.visibility != VisNone
  {
    if ports != [] {
      VisibleMembers(ports[..|ports| - 1]);
      assert ports == ports[..|ports| - 1] + [ports[|ports| - 1]];
    }
  }

  lemma LabelsReadBack(spec: ContainerSpec, id: string)
    ensures UserLabels(LabelsFor(spec, id)) == NormalLabels(spec)
  {
    if spec.metadata.labels.Some? {
      MergeThenFilter(id, spec.metadata.labels.value);
    } else {
      assert Labels(id) - RESERVED_LABEL_KEYS == map[];
    }
  }

  lemma ProcessReadsBack(spec: ContainerSpec, id: string, name: string)
    ensures ProcessFrom(BuildDeployment(spec, id, name).container) == NormalProcess(spec)
  {
  }

  lemma ExternalIsVisible(ports: seq<ContainerPort>)
    ensures HasExternalPort(Visible(ports)) <==> exists q :: q in ports && q.visibility == VisExternal
  {
    VisibleMembers(ports);
    if q :| q in ports && q.visibility == VisExternal {
      assert q in Visible(ports);
    }
  }

  lemma TargetsAreExposed(spec: ContainerSpec, id: string, cfg: K8sConfig, svcName: string, number: int)
    ensures Targets(BuildService(spec, id, cfg, svcName), Int32(number)) <==> Exposed(SpecPorts(spec), number)
  {
    var ports := SpecPorts(spec);
    var visible := Visible(ports);
    var svc := BuildService(spec, id, cfg, svcName);
    VisibleMembers(ports);
    if Exposed(ports, number) {
      var p :| p in ports && p.visibility != VisNone && Int32(p.containerPort) == Int32(number);
      var i :| 0 <= i < |visible| && visible[i] == p;
      assert svc.ports[i].targetPort == Int32(number);
    }
    if Targets(svc, Int32(number)) {
      var i :| 0 <= i < |svc.ports| && svc.ports[i].targetPort == Int32(number);
      assert visible[i] in visible;
    }
  }

  lemma PortReadsBack(spec: ContainerSpec, id: string, cfg: K8sConfig, svcName: string, p: ContainerPort)
    requires p in SpecPorts(spec)
    ensures var read := ContainerPort(Int32(p.containerPort), VisNone);
            var svc := ServiceFor(spec, id, cfg, svcName);
            (if svc.Some? then PortWithService(read, svc.value) else read) == NormalPort(SpecPorts(spec), p, cfg)
  {
    var ports := SpecPorts(spec);
    VisibleMembers(ports);
    TargetsAreExposed(spec, id, cfg, svcName, p.containerPort);
    ExternalIsVisible(ports);
    if Visible(ports) == [] {
      assert !Exposed(ports, p.containerPort);
    }
  }

  lemma NetworkReadsBack(spec: ContainerSpec, id: string, cfg: K8sConfig, name: string, svcName: string)
    ensures ReadSpec(BuildDeployment(spec, id, name), ServiceFor(spec, id, cfg, svcName), cfg.namespace).network
            == NormalNetwork(spec, cfg)
  {
    var ports := SpecPorts(spec);
    forall i | 0 <= i < |ports|
      ensures var read := ContainerPort(Int32(ports[i].containerPort), VisNone);
              var svc := ServiceFor(spec, id, cfg, svcName);
              (if svc.Some? then PortWithService(read, svc.value) else read) == NormalPort(ports, ports[i], cfg)
    {
      PortReadsBack(spec, id, cfg, svcName, ports[i]);
    }
    var read := ReadSpec(BuildDeployment(spec, id, name), ServiceFor(spec, id, cfg, svcName), cfg.namespace);
    if ports != [] {
      assert SpecPorts(read) == seq(|ports|, i requires 0 <= i < |ports| => NormalPort(ports, ports[i], cfg));
    }
  }

  // What is read from the objects built for a spec is its normal form.
  lemma SpecRoundTrip(spec: ContainerSpec, id: string, cfg: K8sConfig, name: string, svcName: string)
    ensures ReadSpec(BuildDeployment(spec, id, name), ServiceFor(spec, id, cfg, svcName), cfg.namespace)
            == NormalForm(spec, name, cfg)
  {
    LabelsReadBack(spec, id);
    ProcessReadsBack(spec, id, name);
    NetworkReadsBack(spec, id, cfg, name, svcName);
  }

  // ---- Memory keeps its bytes ----

  lemma NormalMemoryKeepsBytes(text: string)
    requires Units.ConvertMemory(text).Some?
    ensures Units.ConvertMemory(NormalMemory(text)) == Units.ConvertMemory(text)
            <==> Units.Expressible(MemoryBytes(text))
  {
    Units.MemoryTextRoundTrip(text);
  }

  // The texts of the API's pattern that are written as the canonical form writes them.
  ghost predicate IsCanonicalText(text: string) {
    exists num, unit :: IsCanonicalPair(text, num, unit)
  }

  ghost predicate IsCanonicalPair(text: string, num: string, unit: string) {
    text == num + unit && Units.SizeOf(unit).Some? && Decimal.AllDigits(num) && Units.IsCanonical(num, unit)
  }

  // Memory is read back in the very text of the spec exactly when that text is canonical.
  lemma MemoryTextIff(num: string, unit: string)
    requires Units.SizeOf(unit).Some? && Decimal.AllDigits(num)
    ensures NormalMemory(num + unit) == num + unit <==> Units.IsCanonical(num, unit)
  {
    Units.TextComesBackIff(num, unit);
  }

  lemma CanonicalTextStays(text: string)
    requires IsCanonicalText(text)
    ensures NormalMemory(text) == text
  {
    var num, unit :| IsCanonicalPair(text, num, unit);
    MemoryTextIff(num, unit);
  }

  // ---- Visibility ----

  predicate ValidPorts(ports: seq<ContainerPort>) {
    && (forall i :: 0 <= i < |ports| ==> 1 <= ports[i].containerPort <= 65535)
    && (forall i, j :: 0 <= i < j < |ports| ==> ports[i].containerPort != ports[j].containerPort)
  }

  lemma ExposedIffVisible(ports: seq<ContainerPort>, i: nat)
    requires ValidPorts(ports) && i < |ports|
    ensures Exposed(ports, ports[i].containerPort) <==> ports[i].visibility != VisNone
    ensures Int32(ports[i].containerPort) == ports[i].containerPort
  {
    if ports[i].visibility != VisNone {
      assert ports[i] in ports;
    }
  }

  // With valid, distinct ports a port reads back as none exactly when it was none; any other
  // reads back as external if some port was external, and as internal otherwise.
  lemma VisibilityRoundTrip(spec: ContainerSpec, id: string, cfg: K8sConfig, name: string, svcName: string, i: nat)
    requires ValidPorts(SpecPorts(spec)) && cfg.externalServiceType in {NodePort, LoadBalancer}
    requires i < |SpecPorts(spec)|
    ensures var ports := SpecPorts(spec);
            var d := BuildDeployment(spec, id, name);
            var read := SpecPorts(ReadSpec(d, ServiceFor(spec, id, cfg, svcName), cfg.namespace));
            |read| == |ports| && read[i].containerPort == ports[i].containerPort
            && (read[i].visibility == VisNone <==> ports[i].visibility == VisNone)
            && (read[i].visibility == VisExternal <==>
                  ports[i].visibility != VisNone && exists q :: q in ports && q.visibility == VisExternal)
  {
    SpecRoundTrip(spec, id, cfg, name, svcName);
    ExposedIffVisible(SpecPorts(spec), i);
    assert SpecPorts(NormalForm(spec, name, cfg))[i] == NormalPort(SpecPorts(spec), SpecPorts(spec)[i], cfg);
  }

  lemma NoServiceIffAllNone(spec: ContainerSpec, id: string, cfg: K8sConfig, svcName: string)
    ensures ServiceFor(spec, id, cfg, svcName).None?
            <==> forall i :: 0 <= i < |SpecPorts(spec)| ==> SpecPorts(spec)[i].visibility == VisNone
  {
    VisibleMembers(SpecPorts(spec));
    if Visible(SpecPorts(spec)) != [] {
      assert Visible(SpecPorts(spec))[0] in SpecPorts(spec);
    }
  }

  // ---- Normalising twice ----

  lemma NormalMemoryStable(text: string)
    ensures NormalMemory(NormalMemory(text)) == NormalMemory(text)
            <==> MemoryBytes(text) == 0 || Units.Expressible(MemoryBytes(text))
  {
    var q := MemoryBytes(text);
    QuantityBound(text);
    Units.MemoryRoundTripIff(q);
    if !Units.Expressible(q) {
      Units.InexpressiblePrints(q);
      Units.InexpressiblePrints(0);
      PrintsZeroOnlyForZero(q);
    }
  }

  lemma QuantityBound(text: string)
    ensures MemoryBytes(text) <= Units.MAX_QUANTITY
  {
  }

  lemma PrintsZeroOnlyForZero(q: nat)
    ensures Units.PrintQuantity(q) == Units.PrintQuantity(0) <==> q == 0
  {
    var (unit, suffix) := Units.CanonicalUnit(q);
    assert Units.PrintQuantity(0) == Decimal.Itoa(0) == "0";
    Decimal.ItoaIsDigits(q / unit);
    if q != 0 && Units.PrintQuantity(q) == "0" {
      assert |suffix| == 0;
      Decimal.ParseItoa(q / unit);
      Decimal.ParseItoa(0);
    }
  }

  lemma NetworkStable(spec: ContainerSpec, name: string, again: string, cfg: K8sConfig)
    ensures NormalNetwork(NormalForm(spec, name, cfg), cfg) == NormalNetwork(spec, cfg)
  {
    var ports := SpecPorts(spec);
    var once := SpecPorts(NormalForm(spec, name, cfg));
    if ports != [] {
      forall i | 0 <= i < |ports| ensures NormalPort(once, once[i], cfg) == once[i] {
        PortStable(ports, once, cfg, i);
      }
      assert seq(|once|, i requires 0 <= i < |once| => NormalPort(once, once[i], cfg)) == once;
    }
  }

  lemma Int32Idempotent(n: int)
    ensures Int32(Int32(n)) == Int32(n)
  {
  }

  lemma PortStable(ports: seq<ContainerPort>, once: seq<ContainerPort>, cfg: K8sConfig, i: nat)
    requires |once| == |ports| && i < |ports|
    requires forall j :: 0 <= j < |ports| ==> once[j] == NormalPort(ports, ports[j], cfg)
    ensures NormalPort(once, once[i], cfg) == once[i]
  {
    Int32Idempotent(ports[i].containerPort);
    if Exposed(ports, ports[i].containerPort) {
      assert once[i] in once && once[i].visibility != VisNone;
      assert Exposed(once, once[i].containerPort);
    } else if Exposed(once, once[i].containerPort) {
      var p :| p in once && p.visibility != VisNone && Int32(p.containerPort) == Int32(once[i].containerPort);
      var j :| 0 <= j < |once| && once[j] == p;
      Int32Idempotent(ports[j].containerPort);
      assert Exposed(ports, ports[i].containerPort);
    }
    if q :| q in once && q.visibility == VisExternal {
      var j :| 0 <= j < |once| && once[j] == q;
    }
  }

  lemma LabelsStable(spec: ContainerSpec, name: string, cfg: K8sConfig)
    ensures NormalLabels(NormalForm(spec, name, cfg)) == NormalLabels(spec)
  {
    if NormalLabels(spec).Some? {
      var user := NormalLabels(spec).value;
      assert user - RESERVED_LABEL_KEYS == user;
    }
  }

  // Apart from the name, normalising twice is normalising once exactly when both memory amounts
  // are zero or print with the suffix Mi, Gi or Ti.
  lemma NormalFormStableIff(spec: ContainerSpec, name: string, again: string, cfg: K8sConfig)
    ensures NormalForm(NormalForm(spec, name, cfg), again, cfg) == NormalForm(spec, again, cfg)
            <==> (forall text :: text in {spec.resources.memoryMin, spec.resources.memoryMax} ==>
                    MemoryBytes(text) == 0 || Units.Expressible(MemoryBytes(text)))
  {
    NormalMemoryStable(spec.resources.memoryMin);
    NormalMemoryStable(spec.resources.memoryMax);
    NetworkStable(spec, name, again, cfg);
    LabelsStable(spec, name, cfg);
  }
}
