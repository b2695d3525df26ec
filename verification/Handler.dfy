/**
 CreateContainer of internal/handlers/container/handler.go: the validation gate before the store.
 */
module Handler {
  import opened Wrappers
  import opened Dcm
  import opened ApiTypes
  import opened Convert
  import opened StoreModel
  import opened Store
  import opened Validation
  import Cluster
  import Units

  datatype CreateResponse =
    | Created(container: Container)
    | ReservedContainerID(pointer: string)
    | SingleError(error: ValidationError)
    | MultipleErrors(errors: seq<ValidationError>)
    | StoreFailure(cause: StoreError)

  const RESERVED_ID := "health"

  // A spec that may be stored: requests within limits, readable memory and no reserved label.
  predicate Storable(spec: ContainerSpec) {
    var res := spec.resources;
    var lo, hi := Units.ConvertMemory(res.memoryMin), Units.ConvertMemory(res.memoryMax);
    && res.cpuMin <= res.cpuMax && lo.Some? && hi.Some? && lo.value <= hi.value
    && (spec.metadata.labels.Some? ==>
          spec.metadata.labels.value.Keys !!
            {"dcm.project/managed-by", "dcm.project/dcm-instance-id", "dcm.project/dcm-service-type"})
  }

  // A response with all the errors, which names a single one alone.
  predicate Rejects(r: CreateResponse, errs: seq<ValidationError>) {
    match r
    case SingleError(e) => errs == [e]
    case MultipleErrors(es) => errs == es && |es| >= 2
    case _ => false
  }

  // The store is reached exactly with a free id and a spec without violations; otherwise the
  // cluster is untouched and the response carries all the errors.
  method CreateContainer(store: K8sContainerStore, spec: ContainerSpec, requested: Option<string>, generated: string,
                         order: seq<string>, x: Suffixes, f: CreateFaults)
    returns (r: CreateResponse)
    requires Cluster.WellNamed(store.client.View()) && KeyOrder(order)
    modifies store.client
    ensures var id := if requested.Some? then requested.value else generated;
            if id == "health" then r == ReservedContainerID("#/spec/id")
            else if !Storable(spec) then Rejects(r, AllErrors(spec, order))
            else r == match CreateOutcome(old(store.client.View()), store.cfg, spec, id, x, f).1
                      case Err(e) => StoreFailure(e)
                      case Ok(_) => Created(Stamped(Ok(()), spec, id, store.cfg).value)
    ensures var id := if requested.Some? then requested.value else generated;
            store.client.View() ==
              if id == "health" || !Storable(spec) then old(store.client.View())
              else CreateOutcome(old(store.client.View()), store.cfg, spec, id, x, f).0
  {
    GateIsExact(spec, order);
    var id := if requested.Some? then requested.value else generated;
    if id == RESERVED_ID {
      return ReservedContainerID("#/spec/id");
    }
    var errs := ValidateResources(spec);
    var labelErrs := ValidateUserLabels(spec, order);
    errs := errs + labelErrs;
    if |errs| == 1 {
      return SingleError(errs[0]);
    }
    if |errs| >= 2 {
      return MultipleErrors(errs);
    }
    var created := store.Create(spec, id, x, f);
    if created.Err? {
      return StoreFailure(created.error);
    }
    return Created(created.value);
  }

  lemma StorableIff(spec: ContainerSpec)
    ensures Storable(spec) <==> forall v :: !Violates(spec, v)
  {
    ReservedKeysAre();
    if forall v :: !Violates(spec, v) {
      assert !Violates(spec, CpuMinAboveMax) && !Violates(spec, MemoryMinInvalid)
             && !Violates(spec, MemoryMaxInvalid) && !Violates(spec, MemoryMinAboveMax);
      if spec.metadata.labels.Some? {
        forall k | k in spec.metadata.labels.value ensures k !in RESERVED_LABEL_KEYS {
          assert !Violates(spec, ReservedLabel(k));
        }
      }
    }
  }

  lemma GateIsExact(spec: ContainerSpec, order: seq<string>)
    requires KeyOrder(order)
    ensures AllErrors(spec, order) == [] <==> Storable(spec)
  {
    StorableIff(spec);
    var errs := AllErrors(spec, order);
    if v :| Violates(spec, v) {
      AllErrorsExact(spec, order, v);
    } else if errs != [] {
      SomeErrorIsReported(spec, order);
    }
  }

  lemma SomeErrorIsReported(spec: ContainerSpec, order: seq<string>)
    requires KeyOrder(order) && AllErrors(spec, order) != []
    ensures exists v :: Violates(spec, v)
  {
    var all := RESOURCE_CHECKS + LabelChecks(SortStrings(order));
    ChecksAreComplete(order);
    CollectConcat(Bad(spec), RESOURCE_CHECKS, LabelChecks(SortStrings(order)));
    CollectNoRepeats(Bad(spec), all);
    assert Violates(spec, Collect(Bad(spec), all)[0].what);
  }

  // Behind the gate both conversions whose errors buildDeployment drops have succeeded, requests
  // stay within limits, and the user's labels come back whole.
  lemma GateMakesBuildSafe(spec: ContainerSpec, id: string, name: string)
    requires Storable(spec)
    ensures var c := BuildDeployment(spec, id, name).container;
            Units.ConvertMemory(spec.resources.memoryMin) == Some(c.memoryRequest)
            && Units.ConvertMemory(spec.resources.memoryMax) == Some(c.memoryLimit)
            && c.memoryRequest <= c.memoryLimit && c.cpuRequest <= c.cpuLimit
    ensures spec.metadata.labels.Some? ==>
              spec.metadata.labels.value.Keys !! RESERVED_LABEL_KEYS
              && forall k :: k in spec.metadata.labels.value ==>
                   k in LabelsFor(spec, id) && LabelsFor(spec, id)[k] == spec.metadata.labels.value[k]
  {
    ReservedKeysAre();
    assert Labels(id).Keys == RESERVED_LABEL_KEYS;
  }
}
