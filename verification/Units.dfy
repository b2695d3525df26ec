/**
 Memory units of internal/units/convert.go.

 A resource.Quantity is modelled by its number of bytes, capped at 2^63 - 1 as the Kubernetes
 library documents, and printed in the library's canonical form: the largest binary suffix that
 leaves a whole number. Texts are decimal digits followed by a suffix, as the API's pattern
 ^[0-9]+(MB|GB|TB)$ admits.
 */
module Units {
  import opened Wrappers
  import opened Decimal
  import opened GoInts

  const KI := 0x400
  const MI := 0x10_0000
  const GI := 0x4000_0000
  const TI := 0x100_0000_0000
  const PI := 0x4_0000_0000_0000
  const EI := 0x1000_0000_0000_0000
  const MAX_QUANTITY := MAX_INT64

  function CutSuffix(s: string, suffix: string): Option<string> {
    if |suffix| <= |s| && s[|s| - |suffix|..] == suffix then Some(s[..|s| - |suffix|]) else None
  }

  function UnitSize(suffix: string): Option<nat> {
    if suffix == "Ki" then Some(KI) else if suffix == "Mi" then Some(MI)
    else if suffix == "Gi" then Some(GI) else if suffix == "Ti" then Some(TI)
    else if suffix == "Pi" then Some(PI) else if suffix == "Ei" then Some(EI) else None
  }

  function Capped(n: nat): nat {
    Min(n, MAX_QUANTITY)
  }

  // resource.ParseQuantity on decimal digits with an optional binary suffix.
  function ParseQuantity(s: string): Option<nat> {
    if |s| >= 2 && UnitSize(s[|s| - 2..]).Some? then
      match ParseDigits(s[..|s| - 2])
      case None => None
      case Some(n) => Some(Capped(n * UnitSize(s[|s| - 2..]).value))
    else
      match ParseDigits(s)
      case None => None
      case Some(n) => Some(Capped(n))
  }

  // The unit and suffix of the canonical form.
  function CanonicalUnit(q: nat): (u: (nat, string))
    ensures u.0 > 0 && q % u.0 == 0
  {
    if q == 0 then (1, "")
    else if q % EI == 0 then (EI, "Ei") else if q % PI == 0 then (PI, "Pi")
    else if q % TI == 0 then (TI, "Ti") else if q % GI == 0 then (GI, "Gi")
    else if q % MI == 0 then (MI, "Mi") else if q % KI == 0 then (KI, "Ki")
    else (1, "")
  }

  function PrintQuantity(q: nat): string {
    var (unit, suffix) := CanonicalUnit(q);
    Itoa(q / unit) + suffix
  }

  type UnitTable = seq<(string, string)>

  const API_TO_K8S: UnitTable := [("MB", "Mi"), ("GB", "Gi"), ("TB", "Ti")]
  const K8S_TO_API: UnitTable := [("Mi", "MB"), ("Gi", "GB"), ("Ti", "TB")]

  // The first entry of a table, read in the given order, whose left side ends the text, with
  // that end replaced by the entry's right side.
  function Translate(table: UnitTable, text: string): Option<string> {
    if table == [] then None else
      match CutSuffix(text, table[0].0)
      case Some(num) => Some(num + table[0].1)
      case None => Translate(table[1..], text)
  }

  // ConvertMemory with its map read in the given order; None is its error.
  function ConvertMemoryIn(order: UnitTable, text: string): Option<nat> {
    match Translate(order, text)
    case None => None
    case Some(t) => ParseQuantity(t)
  }

  function MemoryQuantityToAPIIn(order: UnitTable, q: nat): string {
    match Translate(order, PrintQuantity(q))
    case None => PrintQuantity(q)
    case Some(t) => t
  }

  function ConvertMemory(text: string): Option<nat> {
    ConvertMemoryIn(API_TO_K8S, text)
  }

  function MemoryQuantityToAPI(q: nat): string {
    MemoryQuantityToAPIIn(K8S_TO_API, q)
  }

  // ---- The order in which Go reads the maps does not matter ----

  ghost predicate Unambiguous(table: UnitTable) {
    forall x, y :: x in table && y in table && x.0 == y.0 ==> x == y
  }

  ghost predicate TwoLetter(table: UnitTable) {
    forall x :: x in table ==> |x.0| == 2
  }

  lemma {:induction false} TranslateByEntry(table: UnitTable, text: string, e: (string, string))
    requires TwoLetter(table) && Unambiguous(table) && e in table && CutSuffix(text, e.0).Some?
    ensures Translate(table, text) == Some(CutSuffix(text, e.0).value + e.1)
  {
    var head := table[0];
    assert head in table;
    if CutSuffix(text, head.0).Some? {
      assert head.0 == text[|text| - 2..] == e.0;
    } else {
      assert e in table[1..];
      TranslateByEntry(table[1..], text, e);
    }
  }

  lemma {:induction false} TranslateNone(table: UnitTable, text: string)
    requires forall e :: e in table ==> CutSuffix(text, e.0).None?
    ensures Translate(table, text).None?
  {
    if table != [] {
      assert table[0] in table;
      TranslateNone(table[1..], text);
    }
  }

  lemma TranslateIgnoresOrder(a: UnitTable, b: UnitTable, text: string)
    requires TwoLetter(a) && Unambiguous(a) && forall e :: e in a <==> e in b
    ensures Translate(a, text) == Translate(b, text)
  {
    if e :| e in a && CutSuffix(text, e.0).Some? {
      TranslateByEntry(a, text, e);
      TranslateByEntry(b, text, e);
    } else {
      TranslateNone(a, text);
      TranslateNone(b, text);
    }
  }

  lemma SameMembers(a: UnitTable, b: UnitTable, e: (string, string))
    requires multiset(a) == multiset(b)
    ensures e in a <==> e in b
  {
    assert e in a <==> e in multiset(a);
    assert e in b <==> e in multiset(b);
  }

  lemma TablesAreClear()
    ensures TwoLetter(API_TO_K8S) && Unambiguous(API_TO_K8S)
    ensures TwoLetter(K8S_TO_API) && Unambiguous(K8S_TO_API)
  {
    assert "MB"[0] != "GB"[0] && "MB"[0] != "TB"[0] && "GB"[0] != "TB"[0];
    assert "Mi"[0] != "Gi"[0] && "Mi"[0] != "Ti"[0] && "Gi"[0] != "Ti"[0];
  }

  lemma MapOrderIsIrrelevant(toK8s: UnitTable, toAPI: UnitTable, text: string, q: nat)
    requires multiset(toK8s) == multiset(API_TO_K8S) && multiset(toAPI) == multiset(K8S_TO_API)
    ensures ConvertMemoryIn(toK8s, text) == ConvertMemory(text)
    ensures MemoryQuantityToAPIIn(toAPI, q) == MemoryQuantityToAPI(q)
  {
    TablesAreClear();
    forall e ensures e in API_TO_K8S <==> e in toK8s { SameMembers(API_TO_K8S, toK8s, e); }
    forall e ensures e in K8S_TO_API <==> e in toAPI { SameMembers(K8S_TO_API, toAPI, e); }
    TranslateIgnoresOrder(API_TO_K8S, toK8s, text);
    TranslateIgnoresOrder(K8S_TO_API, toAPI, PrintQuantity(q));
  }

  // ---- Bytes survive the round trip through API text ----

  function SizeOf(apiUnit: string): Option<nat> {
    if apiUnit == "MB" then Some(MI) else if apiUnit == "GB" then Some(GI)
    else if apiUnit == "TB" then Some(TI) else None
  }

  lemma TranslateSuffix(num: string, suffix: string)
    requires |suffix| == 2
    ensures CutSuffix(num + suffix, suffix) == Some(num)
    ensures forall other :: |other| == 2 && other != suffix ==> CutSuffix(num + suffix, other).None?
  {
    var s := num + suffix;
    assert s[|s| - 2..] == suffix && s[..|s| - 2] == num;
  }

  function K8sUnit(apiUnit: string): string {
    if apiUnit == "MB" then "Mi" else if apiUnit == "GB" then "Gi" else "Ti"
  }

  lemma ParseSuffixed(num: string, suffix: string)
    requires |suffix| == 2 && UnitSize(suffix).Some?
    ensures ParseQuantity(num + suffix) ==
            match ParseDigits(num) case None => None case Some(n) => Some(Capped(n * UnitSize(suffix).value))
  {
    var t := num + suffix;
    assert t[|t| - 2..] == suffix && t[..|t| - 2] == num;
  }

  lemma UnitsCorrespond(unit: string)
    requires SizeOf(unit).Some?
    ensures |unit| == 2 && |K8sUnit(unit)| == 2 && UnitSize(K8sUnit(unit)) == SizeOf(unit)
    ensures (unit, K8sUnit(unit)) in API_TO_K8S && (K8sUnit(unit), unit) in K8S_TO_API
  {
    assert API_TO_K8S[0] == ("MB", "Mi") && API_TO_K8S[1] == ("GB", "Gi") && API_TO_K8S[2] == ("TB", "Ti");
    assert K8S_TO_API[0] == ("Mi", "MB") && K8S_TO_API[1] == ("Gi", "GB") && K8S_TO_API[2] == ("Ti", "TB");
  }

  // A text of the API's pattern is its number of units. Other numbers before a unit, such as
  // fractions, are outside the texts modelled.
  lemma ConvertMemoryReads(num: string, unit: string)
    requires SizeOf(unit).Some?
    ensures ConvertMemory(num + unit).Some? <==> AllDigits(num)
    ensures AllDigits(num) ==>
              ParseDigits(num).Some?
              && ConvertMemory(num + unit) == Some(Min(ParseDigits(num).value * SizeOf(unit).value, 9223372036854775807))
  {
    ParseAccepts(num);
    UnitsCorrespond(unit);
    TablesAreClear();
    TranslateSuffix(num, unit);
    TranslateByEntry(API_TO_K8S, num + unit, (unit, K8sUnit(unit)));
    ParseSuffixed(num, K8sUnit(unit));
  }

  lemma UnknownUnitIsRefused(text: string)
    requires forall unit :: SizeOf(unit).Some? ==> CutSuffix(text, unit).None?
    ensures ConvertMemory(text).None?
  {
    assert SizeOf("MB").Some? && SizeOf("GB").Some? && SizeOf("TB").Some?;
    TranslateNone(API_TO_K8S, text);
  }

  // The quantities whose canonical suffix is Mi, Gi or Ti.
  predicate Expressible(q: nat) {
    q % MI == 0 && q % PI != 0
  }

  lemma ExbibyteIsPebibytes(q: nat)
    requires q % EI == 0
    ensures q % PI == 0
  {
    assert q == PI * (1024 * (q / EI));
  }

  lemma ExpressibleUnit(q: nat) returns (unit: string)
    requires Expressible(q)
    ensures SizeOf(unit).Some? && CanonicalUnit(q) == (SizeOf(unit).value, K8sUnit(unit))
  {
    if q % EI == 0 { ExbibyteIsPebibytes(q); }
    unit := if q % TI == 0 then "TB" else if q % GI == 0 then "GB" else "MB";
  }

  lemma ExpressiblePrints(q: nat) returns (unit: string)
    requires Expressible(q)
    ensures SizeOf(unit).Some? && q % SizeOf(unit).value == 0
    ensures MemoryQuantityToAPI(q) == Itoa(q / SizeOf(unit).value) + unit
  {
    unit := ExpressibleUnit(q);
    UnitsCorrespond(unit);
    TablesAreClear();
    var num := Itoa(q / SizeOf(unit).value);
    TranslateSuffix(num, K8sUnit(unit));
    TranslateByEntry(K8S_TO_API, num + K8sUnit(unit), (K8sUnit(unit), unit));
  }

  // A text that ends in a digit, or in one of the suffixes Ki, Pi and Ei, has no API unit.
  lemma OtherSuffixesAreKept(num: string, suffix: string)
    requires num != "" && IsDigit(num[|num| - 1])
    requires suffix in {"", "Ki", "Pi", "Ei"}
    ensures Translate(API_TO_K8S, num + suffix).None? && Translate(K8S_TO_API, num + suffix).None?
  {
    var s := num + suffix;
    forall e | e in API_TO_K8S || e in K8S_TO_API ensures CutSuffix(s, e.0).None? {
      assert |e.0| == 2 && !IsDigit(e.0[1]) && (e.0[0] == 'M' || e.0[0] == 'G' || e.0[0] == 'T');
      if |s| >= 2 {
        var end := s[|s| - 2..];
        assert end[0] == s[|s| - 2] && end[1] == s[|s| - 1];
        if suffix == "" {
          assert IsDigit(end[1]);
        } else {
          assert end[0] == suffix[0];
        }
      }
    }
    TranslateNone(API_TO_K8S, s);
    TranslateNone(K8S_TO_API, s);
  }

  lemma MebibytesDivide(q: nat)
    requires q % TI == 0 || q % GI == 0
    ensures q % MI == 0
  {
    if q % TI == 0 { assert q == MI * (0x10_0000 * (q / TI)); } else { assert q == MI * (1024 * (q / GI)); }
  }

  lemma InexpressibleSuffix(q: nat)
    requires !Expressible(q)
    ensures CanonicalUnit(q).1 in {"", "Ki", "Pi", "Ei"}
  {
    if q % TI == 0 || q % GI == 0 { MebibytesDivide(q); }
  }

  lemma InexpressiblePrints(q: nat)
    requires !Expressible(q)
    ensures MemoryQuantityToAPI(q) == PrintQuantity(q)
    ensures ConvertMemory(MemoryQuantityToAPI(q)).None?
  {
    InexpressibleSuffix(q);
    ItoaIsDigits(q / CanonicalUnit(q).0);
    OtherSuffixesAreKept(Itoa(q / CanonicalUnit(q).0), CanonicalUnit(q).1);
  }

  // Reading the text of a quantity back gives the same bytes exactly when the canonical suffix is
  // Mi, Gi or Ti; otherwise the text is refused. Zero and the multiples of 2^50 are what an API
  // text can denote and not get back.
  lemma MemoryRoundTripIff(q: nat)
    requires q <= MAX_QUANTITY
    ensures ConvertMemory(MemoryQuantityToAPI(q)) == Some(q) <==> Expressible(q)
    ensures !Expressible(q) ==> ConvertMemory(MemoryQuantityToAPI(q)).None?
  {
    if Expressible(q) {
      var unit := ExpressiblePrints(q);
      var size := SizeOf(unit).value;
      ItoaIsDigits(q / size);
      ParseItoa(q / size);
      ConvertMemoryReads(Itoa(q / size), unit);
      assert q / size * size == q;
    } else {
      InexpressiblePrints(q);
    }
  }

  lemma MemoryTextRoundTrip(text: string)
    requires ConvertMemory(text).Some?
    ensures var q := ConvertMemory(text).value;
            q <= MAX_QUANTITY
            && (ConvertMemory(MemoryQuantityToAPI(q)) == Some(q) <==> Expressible(q))
  {
    MemoryRoundTripIff(ConvertMemory(text).value);
  }

  // A text the API accepts whose quantity does not come back.
  lemma PebibyteIsLost()
    ensures ConvertMemory("1024TB") == Some(PI)
    ensures ConvertMemory(MemoryQuantityToAPI(PI)).None?
  {
    assert "1024TB" == "1024" + "TB";
    assert "1024"[..3] == "102" && "102"[..2] == "10" && "10"[..1] == "1";
    assert ParseDigits("1024") == Some(1024);
    ParseAccepts("1024");
    ConvertMemoryReads("1024", "TB");
    InexpressiblePrints(PI);
  }

  // ---- In which text a quantity is written ----

  // The units are powers of 1024, and the cap is the largest int64.
  lemma UnitSizesAre()
    ensures SizeOf("MB") == UnitSize("Mi") == Some(1048576)
    ensures SizeOf("GB") == UnitSize("Gi") == Some(1073741824)
    ensures SizeOf("TB") == UnitSize("Ti") == Some(1099511627776)
    ensures UnitSize("Ki") == Some(1024) && UnitSize("Pi") == Some(1125899906842624)
    ensures UnitSize("Ei") == Some(1152921504606846976) && MAX_QUANTITY == 9223372036854775807
  {
  }

  const BINARY_UNITS: set<nat> :=
    {1024, 1048576, 1073741824, 1099511627776, 1125899906842624, 1152921504606846976}

  // The printed unit divides the quantity, and no larger one does.
  lemma PrintedUnitIsLargest(q: nat, larger: nat)
    requires q > 0 && larger in BINARY_UNITS && larger > CanonicalUnit(q).0
    ensures q % CanonicalUnit(q).0 == 0 && q % larger != 0
  {
  }

  // Whatever its suffix, the canonical text denotes the quantity.
  lemma PrintedTextParses(q: nat)
    requires q <= MAX_QUANTITY
    ensures ParseQuantity(PrintQuantity(q)) == Some(q)
  {
    var (unit, suffix) := CanonicalUnit(q);
    ItoaIsDigits(q / unit);
    ParseItoa(q / unit);
    CanonicalSuffix(q);
    assert q / unit * unit == q;
    if suffix == "" {
      ParsePlain(Itoa(q));
      assert Itoa(q) + "" == Itoa(q);
    } else {
      ParseSuffixed(Itoa(q / unit), suffix);
    }
  }

  lemma CanonicalSuffix(q: nat)
    ensures var (unit, suffix) := CanonicalUnit(q);
            if suffix == "" then unit == 1 else |suffix| == 2 && UnitSize(suffix) == Some(unit)
  {
  }

  lemma ParsePlain(num: string)
    requires AllDigits(num)
    ensures ParseQuantity(num) == match ParseDigits(num) case None => None case Some(n) => Some(Capped(n))
  {
    if |num| >= 2 {
      assert IsDigit(num[|num| - 2..][1]);
    }
  }

  // A text without a leading zero whose number is no multiple of 1024 and whose bytes are not capped.
  ghost predicate IsCanonical(num: string, unit: string)
    requires SizeOf(unit).Some? && AllDigits(num)
  {
    num[0] != '0' && ParseDigits(num).Some? && ParseDigits(num).value % 1024 != 0
    && ParseDigits(num).value * SizeOf(unit).value <= 9223372036854775807
  }

  lemma LargerDivides(n: nat, size: nat)
    requires size in {MI, GI, TI} && n * size % (1024 * size) == 0
    ensures n % 1024 == 0
  {
    var k := n * size / (1024 * size);
    if size == MI { assert n * MI == MI * (1024 * k); }
    else if size == GI { assert n * GI == GI * (1024 * k); }
    else { assert n * TI == TI * (1024 * k); }
    assert n == 1024 * k;
  }

  lemma PebibytesAreTebibytes(q: nat)
    requires q % PI == 0
    ensures q % TI == 0
  {
    assert q == TI * (1024 * (q / PI));
  }

  lemma TebibytesDivide(q: nat)
    requires q % PI == 0 || q % EI == 0
    ensures q % TI == 0
  {
    if q % EI == 0 { ExbibyteIsPebibytes(q); }
    PebibytesAreTebibytes(q);
  }

  lemma GibibytesDivide(q: nat)
    requires q % TI == 0
    ensures q % GI == 0
  {
    assert q == GI * (1024 * (q / TI));
  }

  lemma TerabytesUnit(n: nat)
    requires n % 1024 != 0
    ensures Expressible(n * TI) && CanonicalUnit(n * TI) == (TI, "Ti")
  {
    var q := n * TI;
    assert q % TI == 0;
    if q % PI == 0 { LargerDivides(n, TI); }
    if q % EI == 0 { ExbibyteIsPebibytes(q); }
    MebibytesDivide(q);
  }

  lemma GigabytesUnit(n: nat)
    requires n % 1024 != 0
    ensures Expressible(n * GI) && CanonicalUnit(n * GI) == (GI, "Gi")
  {
    var q := n * GI;
    assert q % GI == 0;
    if q % PI == 0 || q % EI == 0 { TebibytesDivide(q); LargerDivides(n, GI); }
    if q % TI == 0 { LargerDivides(n, GI); }
    MebibytesDivide(q);
  }

  lemma MegabytesUnit(n: nat)
    requires n % 1024 != 0
    ensures Expressible(n * MI) && CanonicalUnit(n * MI) == (MI, "Mi")
  {
    var q := n * MI;
    assert q % MI == 0;
    if q % PI == 0 || q % EI == 0 { TebibytesDivide(q); GibibytesDivide(q); LargerDivides(n, MI); }
    if q % TI == 0 { GibibytesDivide(q); LargerDivides(n, MI); }
    if q % GI == 0 { LargerDivides(n, MI); }
  }

  lemma UnitOfMultiple(n: nat, unit: string)
    requires SizeOf(unit).Some? && n % 1024 != 0
    ensures Expressible(n * SizeOf(unit).value) && CanonicalUnit(n * SizeOf(unit).value) == (SizeOf(unit).value, K8sUnit(unit))
  {
    if unit == "TB" { TerabytesUnit(n); } else if unit == "GB" { GigabytesUnit(n); } else { MegabytesUnit(n); }
  }

  lemma CanonicalComesBack(num: string, unit: string)
    requires SizeOf(unit).Some? && AllDigits(num) && IsCanonical(num, unit)
    ensures ConvertMemory(num + unit).Some? && MemoryQuantityToAPI(ConvertMemory(num + unit).value) == num + unit
  {
    var n, size := ParseDigits(num).value, SizeOf(unit).value;
    ConvertMemoryReads(num, unit);
    ItoaOfDigits(num);
    UnitOfMultiple(n, unit);
    var other := ExpressiblePrints(n * size);
    assert n * size / size == n;
    UnitsCorrespond(unit);
    TablesAreClear();
    TranslateSuffix(num, K8sUnit(unit));
    TranslateByEntry(K8S_TO_API, num + K8sUnit(unit), (K8sUnit(unit), unit));
  }

  // A quantity printed in an API unit has a canonical number in front of it.
  lemma PrintedIsCanonical(q: nat, num: string, unit: string)
    requires q <= MAX_QUANTITY && Expressible(q) && SizeOf(unit).Some? && AllDigits(num)
    requires MemoryQuantityToAPI(q) == num + unit
    ensures IsCanonical(num, unit)
  {
    var printed := ExpressibleUnit(q);
    var size := SizeOf(printed).value;
    UnitsCorrespond(printed);
    UnitsCorrespond(unit);
    TablesAreClear();
    TranslateSuffix(Itoa(q / size), K8sUnit(printed));
    TranslateByEntry(K8S_TO_API, Itoa(q / size) + K8sUnit(printed), (K8sUnit(printed), printed));
    SplitUnit(Itoa(q / size), printed, num, unit);
    ParseItoa(q / size);
    assert q / size * size == q;
    NumberIsReduced(q, printed);
    if q / size > 0 { NoLeadingZero(q / size); }
  }

  lemma SplitUnit(a: string, u: string, b: string, v: string)
    requires |u| == 2 && |v| == 2 && a + u == b + v
    ensures a == b && u == v
  {
    assert (a + u)[|a + u| - 2..] == u && (b + v)[|b + v| - 2..] == v;
    assert (a + u)[..|a + u| - 2] == a && (b + v)[..|b + v| - 2] == b;
  }

  lemma NextUnitDivides(q: nat, size: nat)
    requires size in {MI, GI, TI} && q % size == 0 && q / size % 1024 == 0
    ensures q % (1024 * size) == 0
  {
    var m := q / size / 1024;
    if size == MI { assert q == GI * m; } else if size == GI { assert q == TI * m; } else { assert q == PI * m; }
  }

  // Otherwise the next larger unit would have been printed.
  lemma NumberIsReduced(q: nat, unit: string)
    requires Expressible(q) && SizeOf(unit).Some? && CanonicalUnit(q) == (SizeOf(unit).value, K8sUnit(unit))
    ensures q / SizeOf(unit).value % 1024 != 0
  {
    if q / SizeOf(unit).value % 1024 == 0 {
      NextUnitDivides(q, SizeOf(unit).value);
    }
  }

  // A text of the API's pattern is written back as it was exactly when it is canonical.
  lemma TextComesBackIff(num: string, unit: string)
    requires SizeOf(unit).Some? && AllDigits(num)
    ensures ConvertMemory(num + unit).Some?
    ensures MemoryQuantityToAPI(ConvertMemory(num + unit).value) == num + unit <==> IsCanonical(num, unit)
  {
    ConvertMemoryReads(num, unit);
    var q := ConvertMemory(num + unit).value;
    if IsCanonical(num, unit) {
      CanonicalComesBack(num, unit);
    } else if MemoryQuantityToAPI(q) == num + unit {
      if Expressible(q) {
        PrintedIsCanonical(q, num, unit);
      } else {
        InexpressiblePrints(q);
      }
    }
  }
}
