/**
 Request validation of internal/handlers/container/validation.go: JSON Pointer escaping, resource
 bounds and reserved labels.
 */
module Validation {
  import opened Dcm
  import opened ApiTypes
  import Ordering
  import Units

  // strings.ReplaceAll with a one-character pattern.
  function ReplaceAll(s: string, c: char, to: string): string {
    if s == "" then "" else (if s[0] == c then to else [s[0]]) + ReplaceAll(s[1..], c, to)
  }

  function JsonPointerEscape(s: string): string {
    ReplaceAll(ReplaceAll(s, '~', "~0"), '/', "~1")
  }

  const LABELS_POINTER := "#/spec/metadata/labels/"

  function LabelPointer(key: string): string {
    LABELS_POINTER + JsonPointerEscape(key)
  }

  // Section 3 of RFC 6901: '~' is written ~0 and '/' is written ~1.
  function EscapeChars(s: string): string {
    if s == "" then "" else
      (if s[0] == '~' then "~0" else if s[0] == '/' then "~1" else [s[0]]) + EscapeChars(s[1..])
  }

  // Every occurrence of the pair a, b from the left is replaced.
  function ReplacePair(s: string, a: char, b: char, to: char): string {
    if |s| < 2 then s
    else if s[0] == a && s[1] == b then [to] + ReplacePair(s[2..], a, b, to)
    else [s[0]] + ReplacePair(s[1..], a, b, to)
  }

  // Section 4 of RFC 6901: first ~1 becomes '/', then ~0 becomes '~'.
  function Unescape(s: string): string {
    ReplacePair(ReplacePair(s, '~', '1', '/'), '~', '0', '~')
  }

  lemma {:induction false} ReplaceAllConcat(a: string, b: string, c: char, to: string)
    ensures ReplaceAll(a + b, c, to) == ReplaceAll(a, c, to) + ReplaceAll(b, c, to)
  {
    if a == "" {
      assert a + b == b;
    } else {
      assert (a + b)[1..] == a[1..] + b;
      ReplaceAllConcat(a[1..], b, c, to);
    }
  }

  lemma {:induction false} EscapeIsCharwise(s: string)
    ensures JsonPointerEscape(s) == EscapeChars(s)
  {
    if s != "" {
      EscapeIsCharwise(s[1..]);
      var head := if s[0] == '~' then "~0" else [s[0]];
      ReplaceAllConcat(head, ReplaceAll(s[1..], '~', "~0"), '/', "~1");
      assert ReplaceAll(head, '/', "~1") == if s[0] == '/' then "~1" else head by {
        assert head[1..] == if s[0] == '~' then "0" else "";
        assert "0"[1..] == "";
      }
    }
  }

  lemma {:induction false} UndoSlash(s: string)
    ensures ReplacePair(EscapeChars(s), '~', '1', '/') == ReplaceAll(s, '~', "~0")
  {
    if s != "" {
      UndoSlash(s[1..]);
      var rest := EscapeChars(s[1..]);
      if s[0] == '~' {
        assert EscapeChars(s) == "~0" + rest;
        assert EscapeChars(s)[1..] == "0" + rest && ("0" + rest)[1..] == rest;
      } else if s[0] == '/' {
        assert EscapeChars(s) == "~1" + rest;
        assert EscapeChars(s)[2..] == rest;
      } else {
        assert EscapeChars(s) == [s[0]] + rest;
        assert EscapeChars(s)[1..] == rest;
      }
    }
  }

  lemma {:induction false} UndoTilde(s: string)
    ensures ReplacePair(ReplaceAll(s, '~', "~0"), '~', '0', '~') == s
  {
    if s != "" {
      UndoTilde(s[1..]);
      var rest := ReplaceAll(s[1..], '~', "~0");
      if s[0] == '~' {
        assert (("~0" + rest)[2..]) == rest;
      } else {
        assert ([s[0]] + rest)[1..] == rest;
      }
      assert s == [s[0]] + s[1..];
    }
  }

  lemma LabelPointerIs(key: string)
    ensures LabelPointer(key) == "#/spec/metadata/labels/" + EscapeChars(key)
  {
    EscapeIsCharwise(key);
  }

  lemma EscapeRoundTrip(s: string)
    ensures Unescape(JsonPointerEscape(s)) == s
  {
    EscapeIsCharwise(s);
    UndoSlash(s);
    UndoTilde(s);
  }

  lemma LabelPointerInjective(a: string, b: string)
    requires LabelPointer(a) == LabelPointer(b)
    ensures a == b
  {
    assert LabelPointer(a)[|LABELS_POINTER|..] == JsonPointerEscape(a);
    assert LabelPointer(b)[|LABELS_POINTER|..] == JsonPointerEscape(b);
    EscapeRoundTrip(a);
    EscapeRoundTrip(b);
  }

  // ---- Violations ----

  datatype Violation =
    | CpuMinAboveMax
    | MemoryMinInvalid
    | MemoryMaxInvalid
    | MemoryMinAboveMax
    | ReservedLabel(key: string)

  datatype ValidationError = ValidationError(what: Violation, pointer: string)

  predicate HasLabel(spec: ContainerSpec, key: string) {
    spec.metadata.labels.Some? && key in spec.metadata.labels.value
  }

  // What a spec does wrong, told without the order of the checks.
  predicate Violates(spec: ContainerSpec, v: Violation) {
    var res := spec.resources;
    match v
    case CpuMinAboveMax => res.cpuMin > res.cpuMax
    case MemoryMinInvalid => Units.ConvertMemory(res.memoryMin).None?
    case MemoryMaxInvalid => Units.ConvertMemory(res.memoryMax).None?
    case MemoryMinAboveMax =>
      var lo, hi := Units.ConvertMemory(res.memoryMin), Units.ConvertMemory(res.memoryMax);
      lo.Some? && hi.Some? && lo.value > hi.value
    case ReservedLabel(k) =>
      k in RESERVED_LABEL_KEYS && HasLabel(spec, k)
  }

  function PointerOf(v: Violation): string {
    match v
    case CpuMinAboveMax => "#/spec/resources/cpu/min"
    case MemoryMinInvalid => "#/spec/resources/memory/min"
    case MemoryMaxInvalid => "#/spec/resources/memory/max"
    case MemoryMinAboveMax => "#/spec/resources/memory/min"
    case ReservedLabel(k) => LabelPointer(k)
  }

  ghost predicate Reports(errs: seq<ValidationError>, v: Violation) {
    exists i :: 0 <= i < |errs| && errs[i] == ValidationError(v, PointerOf(v))
  }

  ghost predicate NoRepeats(errs: seq<ValidationError>) {
    forall i, j :: 0 <= i < j < |errs| ==> errs[i].what != errs[j].what
  }

  const RESOURCE_CHECKS := [CpuMinAboveMax, MemoryMinInvalid, MemoryMaxInvalid, MemoryMinAboveMax]

  // The errors of those checks that are bad, in the order of the list.
  function Collect(bad: Violation -> bool, checks: seq<Violation>): seq<ValidationError> {
    if checks == [] then [] else
      Collect(bad, checks[..|checks| - 1]) + ErrorIf(bad, checks[|checks| - 1])
  }

  function ErrorIf(bad: Violation -> bool, v: Violation): seq<ValidationError> {
    if bad(v) then [ValidationError(v, PointerOf(v))] else []
  }

  function Bad(spec: ContainerSpec): Violation -> bool {
    v => Violates(spec, v)
  }

  function ErrorsFor(spec: ContainerSpec, checks: seq<Violation>): seq<ValidationError> {
    Collect(Bad(spec), checks)
  }

  lemma CollectPush(bad: Violation -> bool, checks: seq<Violation>, v: Violation)
    ensures Collect(bad, checks + [v]) == Collect(bad, checks) + ErrorIf(bad, v)
  {
    assert (checks + [v])[..|checks|] == checks;
  }

  lemma ResourceErrors(bad: Violation -> bool)
    ensures Collect(bad, RESOURCE_CHECKS) ==
            [] + ErrorIf(bad, CpuMinAboveMax) + ErrorIf(bad, MemoryMinInvalid) + ErrorIf(bad, MemoryMaxInvalid)
            + ErrorIf(bad, MemoryMinAboveMax)
  {
    CollectPush(bad, [], CpuMinAboveMax);
    CollectPush(bad, [] + [CpuMinAboveMax], MemoryMinInvalid);
    CollectPush(bad, [] + [CpuMinAboveMax] + [MemoryMinInvalid], MemoryMaxInvalid);
    CollectPush(bad, [] + [CpuMinAboveMax] + [MemoryMinInvalid] + [MemoryMaxInvalid], MemoryMinAboveMax);
    assert RESOURCE_CHECKS == [] + [CpuMinAboveMax] + [MemoryMinInvalid] + [MemoryMaxInvalid] + [MemoryMinAboveMax];
  }

  method ValidateResources(spec: ContainerSpec) returns (errs: seq<ValidationError>)
    ensures errs == ErrorsFor(spec, RESOURCE_CHECKS)
  {
    var res := spec.resources;
    ResourceErrors(Bad(spec));
    errs := [];
    if res.cpuMin > res.cpuMax {
      errs := errs + [ValidationError(CpuMinAboveMax, "#/spec/resources/cpu/min")];
    }
    var minMem := Units.ConvertMemory(res.memoryMin);
    if minMem.None? {
      errs := errs + [ValidationError(MemoryMinInvalid, "#/spec/resources/memory/min")];
    }
    var maxMem := Units.ConvertMemory(res.memoryMax);
    if maxMem.None? {
      errs := errs + [ValidationError(MemoryMaxInvalid, "#/spec/resources/memory/max")];
    }
    if minMem.Some? && maxMem.Some? && minMem.value > maxMem.value {
      errs := errs + [ValidationError(MemoryMinAboveMax, "#/spec/resources/memory/min")];
    }
  }

  function LabelChecks(keys: seq<string>): seq<Violation> {
    seq(|keys|, i requires 0 <= i < |keys| => ReservedLabel(keys[i]))
  }

  function SortStrings(keys: seq<string>): seq<string> {
    Ordering.SortBy(keys, (k: string) => k)
  }

  function LabelError(spec: ContainerSpec, key: string): seq<ValidationError> {
    if HasLabel(spec, key) then [ValidationError(ReservedLabel(key), LabelPointer(key))]
    else []
  }

  // `order` is the order in which Go happens to read the map of reserved keys.
  method ValidateUserLabels(spec: ContainerSpec, order: seq<string>) returns (errs: seq<ValidationError>)
    requires forall k :: k in order ==> k in RESERVED_LABEL_KEYS
    ensures errs == ErrorsFor(spec, LabelChecks(SortStrings(order)))
  {
    errs := [];
    var keys := SortStrings(order);
    SortedAreReserved(spec, order);
    var i := 0;
    while i < |keys|
      invariant 0 <= i <= |keys|
      invariant errs == ErrorsFor(spec, LabelChecks(keys[..i]))
    {
      LabelErrorsPush(spec, keys, i);
      if spec.metadata.labels.Some? && keys[i] in spec.metadata.labels.value {
        errs := errs + [ValidationError(ReservedLabel(keys[i]), LabelPointer(keys[i]))];
      }
      i := i + 1;
    }
    assert keys[..i] == keys;
  }

  lemma SortedAreReserved(spec: ContainerSpec, order: seq<string>)
    requires forall k :: k in order ==> k in RESERVED_LABEL_KEYS
    ensures forall i :: 0 <= i < |SortStrings(order)| ==>
              (Bad(spec)(ReservedLabel(SortStrings(order)[i])) <==> HasLabel(spec, SortStrings(order)[i]))
  {
    var keys := SortStrings(order);
    Ordering.SortBySorts(order, (k: string) => k);
    forall i | 0 <= i < |keys| ensures Bad(spec)(ReservedLabel(keys[i])) <==> HasLabel(spec, keys[i]) {
      assert keys[i] in multiset(order);
      ReservedIsBad(spec, keys[i]);
    }
  }

  lemma ReservedIsBad(spec: ContainerSpec, key: string)
    requires key in RESERVED_LABEL_KEYS
    ensures Bad(spec)(ReservedLabel(key)) <==> HasLabel(spec, key)
  {
  }

  lemma LabelErrorsPush(spec: ContainerSpec, keys: seq<string>, i: nat)
    requires i < |keys| && (Bad(spec)(ReservedLabel(keys[i])) <==> HasLabel(spec, keys[i]))
    ensures ErrorsFor(spec, LabelChecks(keys[..i + 1]))
            == ErrorsFor(spec, LabelChecks(keys[..i])) + LabelError(spec, keys[i])
  {
    assert LabelChecks(keys[..i + 1]) == LabelChecks(keys[..i]) + [ReservedLabel(keys[i])];
    CollectPush(Bad(spec), LabelChecks(keys[..i]), ReservedLabel(keys[i]));
  }

  lemma ReportsConcat(a: seq<ValidationError>, b: seq<ValidationError>, v: Violation)
    ensures Reports(a + b, v) <==> Reports(a, v) || Reports(b, v)
  {
    if i :| 0 <= i < |a| && a[i] == ValidationError(v, PointerOf(v)) {
      assert (a + b)[i] == a[i];
    }
    if i :| 0 <= i < |b| && b[i] == ValidationError(v, PointerOf(v)) {
      assert (a + b)[|a| + i] == b[i];
    }
  }

  lemma {:induction false} CollectReports(bad: Violation -> bool, checks: seq<Violation>, v: Violation)
    ensures Reports(Collect(bad, checks), v) <==> v in checks && bad(v)
  {
    if checks != [] {
      var front, last := checks[..|checks| - 1], checks[|checks| - 1];
      CollectReports(bad, front, v);
      ReportsConcat(Collect(bad, front), ErrorIf(bad, last), v);
      assert checks == front + [last];
      if v == last && bad(v) {
        assert ErrorIf(bad, last)[0] == ValidationError(v, PointerOf(v));
      }
    }
  }

  lemma {:induction false} CollectNoRepeats(bad: Violation -> bool, checks: seq<Violation>)
    requires forall i, j :: 0 <= i < j < |checks| ==> checks[i] != checks[j]
    ensures NoRepeats(Collect(bad, checks))
    ensures forall i :: 0 <= i < |Collect(bad, checks)| ==>
              Collect(bad, checks)[i].what in checks && bad(Collect(bad, checks)[i].what)
  {
    if checks != [] {
      CollectNoRepeats(bad, checks[..|checks| - 1]);
    }
  }

  lemma {:induction false} CollectConcat(bad: Violation -> bool, a: seq<Violation>, b: seq<Violation>)
    ensures Collect(bad, a + b) == Collect(bad, a) + Collect(bad, b)
  {
    if b == [] {
      assert a + b == a;
    } else {
      assert (a + b)[..|a + b| - 1] == a + b[..|b| - 1];
      CollectConcat(bad, a, b[..|b| - 1]);
    }
  }

  // One read of the reserved keys, each exactly once.
  ghost predicate KeyOrder(order: seq<string>) {
    && (forall k :: k in order <==> k in RESERVED_LABEL_KEYS)
    && (forall i, j :: 0 <= i < j < |order| ==> order[i] != order[j])
  }

  function AllErrors(spec: ContainerSpec, order: seq<string>): seq<ValidationError> {
    ErrorsFor(spec, RESOURCE_CHECKS) + ErrorsFor(spec, LabelChecks(SortStrings(order)))
  }

  lemma SortedKeysComplete(order: seq<string>)
    requires KeyOrder(order)
    ensures KeyOrder(SortStrings(order))
  {
    var key := (k: string) => k;
    var keys := SortStrings(order);
    Ordering.SortBySorts(order, key);
    Ordering.SortIgnoresOrder(order, order, key);
    forall k ensures k in keys <==> k in order {
      assert k in keys <==> k in multiset(keys);
      assert k in order <==> k in multiset(order);
    }
    forall i, j | 0 <= i < j < |keys| ensures keys[i] != keys[j] {
      assert key(keys[i]) != key(keys[j]);
    }
  }

  lemma LabelChecksMembers(keys: seq<string>, v: Violation)
    ensures v in LabelChecks(keys) <==> v.ReservedLabel? && v.key in keys
  {
    if v.ReservedLabel? && v.key in keys {
      var i :| 0 <= i < |keys| && keys[i] == v.key;
      assert LabelChecks(keys)[i] == v;
    }
  }

  lemma ResourceChecksMembers(v: Violation)
    ensures v in RESOURCE_CHECKS <==> !v.ReservedLabel?
  {
    assert RESOURCE_CHECKS[0] == CpuMinAboveMax && RESOURCE_CHECKS[1] == MemoryMinInvalid
           && RESOURCE_CHECKS[2] == MemoryMaxInvalid && RESOURCE_CHECKS[3] == MemoryMinAboveMax;
  }

  lemma ChecksAreComplete(order: seq<string>)
    requires KeyOrder(order)
    ensures var all := RESOURCE_CHECKS + LabelChecks(SortStrings(order));
            (forall v :: v in all <==> (v.ReservedLabel? ==> v.key in RESERVED_LABEL_KEYS))
            && (forall i, j :: 0 <= i < j < |all| ==> all[i] != all[j])
  {
    var keys := SortStrings(order);
    SortedKeysComplete(order);
    var labels := LabelChecks(keys);
    forall v ensures v in RESOURCE_CHECKS + labels <==> (v.ReservedLabel? ==> v.key in RESERVED_LABEL_KEYS) {
      LabelChecksMembers(keys, v);
      ResourceChecksMembers(v);
    }
    NoRepeatsConcat(RESOURCE_CHECKS, labels);
  }

  lemma NoRepeatsConcat(a: seq<Violation>, b: seq<Violation>)
    requires forall i, j :: 0 <= i < j < |a| ==> a[i] != a[j]
    requires forall i, j :: 0 <= i < j < |b| ==> b[i] != b[j]
    requires forall i, j :: 0 <= i < |a| && 0 <= j < |b| ==> a[i] != b[j]
    ensures forall i, j :: 0 <= i < j < |a + b| ==> (a + b)[i] != (a + b)[j]
  {
  }

  // The errors are every violation of the spec, each exactly once with its own pointer.
  lemma AllErrorsExact(spec: ContainerSpec, order: seq<string>, v: Violation)
    requires KeyOrder(order)
    ensures Reports(AllErrors(spec, order), v) <==> Violates(spec, v)
    ensures NoRepeats(AllErrors(spec, order))
  {
    var labels := LabelChecks(SortStrings(order));
    ChecksAreComplete(order);
    CollectConcat(Bad(spec), RESOURCE_CHECKS, labels);
    CollectReports(Bad(spec), RESOURCE_CHECKS + labels, v);
    CollectNoRepeats(Bad(spec), RESOURCE_CHECKS + labels);
  }

  lemma {:induction false} DistinctByMultiset(a: seq<string>, b: seq<string>)
    requires forall k :: k in a <==> k in b
    requires forall i, j :: 0 <= i < j < |a| ==> a[i] != a[j]
    requires forall i, j :: 0 <= i < j < |b| ==> b[i] != b[j]
    ensures multiset(a) == multiset(b)
  {
    var key := (k: string) => k;
    forall x ensures multiset(a)[x] == multiset(b)[x] {
      if x in a {
        var i :| 0 <= i < |a| && a[i] == x;
        var j :| 0 <= j < |b| && b[j] == x;
        Ordering.OnceInDistinct(a, i, key);
        Ordering.OnceInDistinct(b, j, key);
      } else {
        assert x !in multiset(a) && x !in multiset(b);
      }
    }
  }

  lemma ErrorOrderIgnoresMapOrder(spec: ContainerSpec, a: seq<string>, b: seq<string>)
    requires KeyOrder(a) && KeyOrder(b)
    ensures AllErrors(spec, a) == AllErrors(spec, b)
  {
    DistinctByMultiset(a, b);
    Ordering.SortIgnoresOrder(a, b, (k: string) => k);
  }
}
