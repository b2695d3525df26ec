/**
 The registrar of internal/registration/registration.go: capped exponential backoff in 64-bit
 durations, the classes of response, and the once-only start.
 */
module Registration {
  import opened GoInts

  // Half the largest duration.
  const HALF := 0x3FFF_FFFF_FFFF_FFFF

  function NextBackoff(backoff: int, max: int): int {
    var doubled := Wrap64(backoff * 2);
    if doubled > max then max else doubled
  }

  // The wait after the k-th failed request.
  function Backoff(initial: int, max: int, k: nat): int {
    if k == 0 then initial else NextBackoff(Backoff(initial, max, k - 1), max)
  }

  function CappedExponential(initial: int, max: int, k: nat): int {
    if k == 0 then initial else Min(initial * Pow2(k), max)
  }

  lemma NextIsDouble(backoff: int, max: int)
    requires 0 <= backoff <= HALF
    ensures NextBackoff(backoff, max) == Min(backoff * 2, max)
  {
  }

  lemma Scale(a: int, p: int)
    ensures a * (2 * p) == a * p * 2
  {
  }

  lemma {:induction false} BackoffIsCapped(initial: int, max: int, k: nat)
    requires 0 <= initial <= HALF && 0 <= max <= HALF
    ensures Backoff(initial, max, k) == CappedExponential(initial, max, k)
    ensures 0 <= Backoff(initial, max, k) <= HALF
  {
    if k > 0 {
      BackoffIsCapped(initial, max, k - 1);
      NextIsDouble(Backoff(initial, max, k - 1), max);
      Scale(initial, Pow2(k - 1));
    }
  }

  lemma {:induction false} ZeroStaysZero(max: int, k: nat)
    requires 0 <= max
    ensures Backoff(0, max, k) == CappedExponential(0, max, k) == 0
  {
    if k > 0 {
      ZeroStaysZero(max, k - 1);
    }
  }

  // By the 63rd doubling the formula has reached the cap, whatever the start.
  lemma FormulaReachesCap(initial: int, max: int)
    requires 1 <= initial && 0 <= max <= MAX_INT64
    ensures CappedExponential(initial, max, 63) == max && CappedExponential(initial, max, 64) == max
  {
    Pow2Of64();
    assert initial * Pow2(63) >= Pow2(63);
    assert initial * Pow2(64) >= Pow2(64);
  }

  lemma WrapsBelowZero(n: int)
    requires HALF < n <= MAX_INT64
    ensures Wrap64(n * 2) == n * 2 - 0x1_0000_0000_0000_0000 < 0
  {
  }

  lemma TooLongStartWraps(initial: int, max: int)
    requires HALF < initial <= MAX_INT64 && 0 <= max <= MAX_INT64
    ensures Backoff(initial, max, 1) != CappedExponential(initial, max, 1)
  {
    WrapsBelowZero(initial);
    assert Backoff(initial, max, 0) == initial;
  }

  lemma TooLongCapWraps(initial: int, max: int)
    requires 1 <= initial <= MAX_INT64 && HALF < max <= MAX_INT64
    requires Backoff(initial, max, 63) == CappedExponential(initial, max, 63)
    ensures Backoff(initial, max, 64) != CappedExponential(initial, max, 64)
  {
    FormulaReachesCap(initial, max);
    WrapsBelowZero(max);
  }

  // The waits are min(initial * 2^k, max), with the first one uncapped, exactly when no doubling
  // can leave 64 bits: the start is zero, or start and cap are at most half the largest duration.
  lemma BackoffFormulaIff(initial: int, max: int)
    requires 0 <= initial <= MAX_INT64 && 0 <= max <= MAX_INT64
    ensures (forall k: nat :: Backoff(initial, max, k) == CappedExponential(initial, max, k))
            <==> initial == 0 || (initial <= HALF && max <= HALF)
  {
    if initial == 0 {
      forall k: nat ensures Backoff(initial, max, k) == CappedExponential(initial, max, k) { ZeroStaysZero(max, k); }
    } else if initial <= HALF && max <= HALF {
      forall k: nat ensures Backoff(initial, max, k) == CappedExponential(initial, max, k) {
        BackoffIsCapped(initial, max, k);
      }
    } else if initial > HALF {
      TooLongStartWraps(initial, max);
    } else {
      if Backoff(initial, max, 63) == CappedExponential(initial, max, 63) {
        TooLongCapWraps(initial, max);
      }
    }
  }

  lemma {:induction false} WaitsDoNotShrink(initial: int, max: int, k: nat)
    requires 0 <= initial <= max <= HALF
    ensures 0 <= Backoff(initial, max, k) <= Backoff(initial, max, k + 1) <= max
  {
    if k > 0 {
      WaitsDoNotShrink(initial, max, k - 1);
    }
    NextIsDouble(Backoff(initial, max, k), max);
  }

  // ---- The retry loop ----

  datatype Response = NoResponse | Status(code: int)

  datatype Outcome = Registered | Refused | Retry

  function Classify(r: Response): Outcome {
    match r
    case NoResponse => Retry
    case Status(code) =>
      if 400 <= code < 500 then Refused
      else if code == 200 || code == 201 then Registered else Retry
  }

  // One turn of the loop: the answer to the request, and whether the wait after it, if there is
  // one, ends by cancellation.
  datatype Turn = Turn(response: Response, cancelled: bool)

  datatype End = Succeeded | GaveUp | Cancelled | StillRunning

  predicate AreBackoffs(waits: seq<int>, initial: int, max: int) {
    forall i :: 0 <= i < |waits| ==> waits[i] == Backoff(initial, max, i)
  }

  lemma BackoffsPush(waits: seq<int>, wait: int, initial: int, max: int)
    requires AreBackoffs(waits, initial, max) && wait == Backoff(initial, max, |waits|)
    ensures AreBackoffs(waits + [wait], initial, max)
  {
  }

  // A turn after which no request follows: a registration, a 4xx or a cancelled wait.
  predicate Ends(t: Turn) {
    t.response in {Status(200), Status(201)} || (t.response.Status? && 400 <= t.response.code < 500) || t.cancelled
  }

  // A run against any finite stretch of environment.
  method Run(initial: int, max: int, turns: seq<Turn>) returns (requests: nat, waits: seq<int>, end: End)
    ensures requests <= |turns|
    ensures forall i :: 0 <= i < requests - 1 ==> !Ends(turns[i])
    ensures end == Succeeded <==> requests > 0 && turns[requests - 1].response in {Status(200), Status(201)}
    ensures end == GaveUp <==>
              requests > 0 && turns[requests - 1].response.Status? && 400 <= turns[requests - 1].response.code < 500
    ensures end == Cancelled <==>
              requests > 0 && turns[requests - 1].cancelled && end != Succeeded && end != GaveUp
    ensures end == StillRunning <==> requests == |turns| && forall i :: 0 <= i < |turns| ==> !Ends(turns[i])
    ensures |waits| == requests - (if end == Succeeded || end == GaveUp then 1 else 0)
    ensures AreBackoffs(waits, initial, max)
  {
    var backoff := initial;
    requests, waits := 0, [];
    while requests < |turns|
      invariant requests <= |turns| && |waits| == requests
      invariant forall i :: 0 <= i < requests ==> !Ends(turns[i])
      invariant AreBackoffs(waits, initial, max)
      invariant backoff == Backoff(initial, max, requests)
    {
      var t := turns[requests];
      requests := requests + 1;
      match Classify(t.response) {
        case Registered => return requests, waits, Succeeded;
        case Refused => return requests, waits, GaveUp;
        case Retry =>
      }
      BackoffsPush(waits, backoff, initial, max);
      waits := waits + [backoff];
      if t.cancelled {
        return requests, waits, Cancelled;
      }
      backoff := Wrap64(backoff * 2);
      if backoff > max {
        backoff := max;
      }
    }
    end := StillRunning;
  }

  // startOnce and the done channel. However often Start is called, one goroutine runs and closes
  // the channel once.
  class Registrar {
    var startOnce: bool
    var launched: nat
    var done: bool

    ghost predicate Valid()
      reads this
    {
      launched == (if startOnce then 1 else 0) && (done ==> startOnce)
    }

    constructor ()
      ensures Valid() && !startOnce && !done
    {
      startOnce, launched, done := false, 0, false;
    }

    method Start()
      requires Valid()
      modifies this
      ensures Valid() && startOnce && launched == 1 && done == old(done)
      ensures old(startOnce) ==> launched == old(launched)
    {
      if !startOnce {
        startOnce := true;
        launched := launched + 1;
      }
    }

    // The goroutine that Start launches: it closes the channel when its run has ended.
    method Goroutine(initial: int, max: int, turns: seq<Turn>) returns (requests: nat, waits: seq<int>, end: End)
      requires Valid() && launched == 1 && !done
      modifies this
      ensures Valid() && startOnce && launched == 1
      ensures done <==> exists i :: 0 <= i < |turns| && Ends(turns[i])
    {
      requests, waits, end := Run(initial, max, turns);
      done := end != StillRunning;
    }
  }
}
