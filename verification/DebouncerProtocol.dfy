/**
 The debouncer of internal/monitoring/debouncer.go as a protocol over its atomic steps.

 Every accepted submission owns one timer, numbered by its position in `subs`. A timer and the
 callback it starts move through the phases below. Firing, the callback's locked section, the
 call of the publish function, its return and the deferred Done are separate steps, so a callback
 that has already fired can race a newer Submit whose call of Stop on the timer came too late.
 */
module DebouncerProtocol {
  import opened Wrappers
  import opened StatusEvents

  datatype Submission = Submission(id: string, event: StatusEvent)

  datatype Phase =
    | Armed       // the timer is running
    | Fired       // the timer has expired, its callback waits for the mutex
    | Counted     // the callback has left its locked section, after Add(1)
    | Publishing  // the publish function is running
    | Returned    // the publish function has returned, Done is still due
    | Finished    // Done has been called
    | Cancelled   // stopped before it expired
    | Abandoned   // the callback found the debouncer stopped

  datatype State = State(
    subs: seq<Submission>,
    phase: seq<Phase>,
    timers: map<string, nat>,
    stopped: bool,
    wg: int,
    log: seq<nat>,      // submissions in the order in which the publish function was called
    stopping: nat,      // calls of Stop that wait for the wait group
    stopReturned: bool  // some call of Stop has returned
  )

  const INIT := State([], [], map[], false, 0, [], 0, false)

  datatype Action =
    | Submit(id: string, event: StatusEvent)
    | Fire(k: nat)
    | Lock(k: nat)
    | Publish(k: nat)
    | Return(k: nat)
    | Done(k: nat)
    | StopLock
    | StopReturn

  predicate At(s: State, k: nat, p: Phase) {
    k < |s.phase| && s.phase[k] == p
  }

  predicate Enabled(s: State, a: Action) {
    match a
    case Submit(_, _) => true
    case Fire(k) => At(s, k, Armed)
    case Lock(k) => At(s, k, Fired) && k < |s.subs|
    case Publish(k) => At(s, k, Counted)
    case Return(k) => At(s, k, Publishing)
    case Done(k) => At(s, k, Returned)
    case StopLock => true
    case StopReturn => s.stopping > 0 && s.wg == 0
  }

  // Stopping a timer has an effect only while the timer is still running.
  function StopTimer(phase: seq<Phase>, k: nat): seq<Phase> {
    if k < |phase| && phase[k] == Armed then phase[k := Cancelled] else phase
  }

  function StopTimers(phase: seq<Phase>, ks: set<nat>): seq<Phase> {
    seq(|phase|, i requires 0 <= i < |phase| =>
      if phase[i] == Armed && i in ks then Cancelled else phase[i])
  }

  function Apply(s: State, a: Action): State
    requires Enabled(s, a)
  {
    match a
    case Submit(id, event) =>
      if s.stopped then s else
        var phase := if id in s.timers then StopTimer(s.phase, s.timers[id]) else s.phase;
        s.(subs := s.subs + [Submission(id, event)],
           phase := phase + [Armed],
           timers := s.timers[id := |s.subs|])
    case Fire(k) => s.(phase := s.phase[k := Fired])
    case Lock(k) =>
      if s.stopped then s.(phase := s.phase[k := Abandoned]) else
        s.(phase := s.phase[k := Counted], timers := s.timers - {s.subs[k].id}, wg := s.wg + 1)
    case Publish(k) => s.(phase := s.phase[k := Publishing], log := s.log + [k])
    case Return(k) => s.(phase := s.phase[k := Returned])
    case Done(k) => s.(phase := s.phase[k := Finished], wg := s.wg - 1)
    case StopLock =>
      s.(phase := StopTimers(s.phase, s.timers.Values),
         timers := map[], stopped := true, stopping := s.stopping + 1)
    case StopReturn => s.(stopping := s.stopping - 1, stopReturned := true)
  }

  // The state after a run from `s`, or None when some step of it is not enabled.
  function Exec(s: State, run: seq<Action>): Option<State> {
    if run == [] then Some(s) else
      match Exec(s, run[..|run| - 1])
      case None => None
      case Some(t) =>
        var a := run[|run| - 1];
        if Enabled(t, a) then Some(Apply(t, a)) else None
  }

  // ---- What every run keeps ----

  predicate InFlightPhase(p: Phase) {
    p == Counted || p == Publishing || p == Returned
  }

  predicate PublishedPhase(p: Phase) {
    p == Publishing || p == Returned || p == Finished
  }

  function CountInFlight(phase: seq<Phase>): nat {
    if phase == [] then 0 else
      CountInFlight(phase[..|phase| - 1]) + (if InFlightPhase(phase[|phase| - 1]) then 1 else 0)
  }

  // No later submission for the same instance.
  ghost predicate Newest(subs: seq<Submission>, k: nat) {
    k < |subs| && forall j :: k < j < |subs| ==> subs[j].id != subs[k].id
  }

  // A map entry names the newest submission of its instance, before its callback's locked section.
  ghost predicate MapInv(s: State) {
    forall id :: id in s.timers ==>
      s.timers[id] < |s.subs| && s.subs[s.timers[id]].id == id && Newest(s.subs, s.timers[id])
      && (At(s, s.timers[id], Armed) || At(s, s.timers[id], Fired))
  }

  // The publish calls are, each once, the submissions in a published phase.
  ghost predicate LogInv(s: State) {
    && (forall k :: 0 <= k < |s.phase| ==> (k in s.log <==> PublishedPhase(s.phase[k])))
    && (forall i :: 0 <= i < |s.log| ==> s.log[i] < |s.phase|)
    && (forall i, j :: 0 <= i < j < |s.log| ==> s.log[i] != s.log[j])
  }

  // Before Stop the newest submission of an instance is never given up.
  ghost predicate NewestInv(s: State) {
    !s.stopped ==> forall k: nat :: Newest(s.subs, k) ==> !At(s, k, Cancelled) && !At(s, k, Abandoned)
  }

  ghost predicate StopInv(s: State) {
    && (s.stopped ==> s.timers == map[])
    && (s.stopping > 0 ==> s.stopped)
    && (s.stopReturned ==> s.stopped && s.wg == 0)
  }

  ghost predicate Inv(s: State) {
    && |s.phase| == |s.subs|
    && s.wg == CountInFlight(s.phase)
    && MapInv(s) && LogInv(s) && NewestInv(s) && StopInv(s)
  }

  lemma {:induction false} CountUpdate(phase: seq<Phase>, k: nat, p: Phase)
    requires k < |phase|
    ensures CountInFlight(phase[k := p]) ==
            CountInFlight(phase) + (if InFlightPhase(p) then 1 else 0)
                                 - (if InFlightPhase(phase[k]) then 1 else 0)
  {
    var n := |phase| - 1;
    if k == n {
      assert phase[k := p][..n] == phase[..n];
    } else {
      assert phase[k := p][..n] == phase[..n][k := p];
      CountUpdate(phase[..n], k, p);
    }
  }

  lemma {:induction false} CountPush(phase: seq<Phase>, p: Phase)
    ensures CountInFlight(phase + [p]) == CountInFlight(phase) + (if InFlightPhase(p) then 1 else 0)
  {
    assert (phase + [p])[..|phase|] == phase;
  }

  lemma {:induction false} CountSame(a: seq<Phase>, b: seq<Phase>)
    requires |a| == |b|
    requires forall k :: 0 <= k < |a| ==> (InFlightPhase(a[k]) <==> InFlightPhase(b[k]))
    ensures CountInFlight(a) == CountInFlight(b)
  {
    if a != [] {
      CountSame(a[..|a| - 1], b[..|b| - 1]);
    }
  }

  lemma {:induction false} CountZero(phase: seq<Phase>, k: nat)
    requires CountInFlight(phase) == 0 && k < |phase|
    ensures !InFlightPhase(phase[k])
  {
    if k < |phase| - 1 {
      CountZero(phase[..|phase| - 1], k);
    }
  }

  lemma NewestAfterPush(subs: seq<Submission>, sub: Submission, k: nat)
    ensures Newest(subs + [sub], k) <==> k == |subs| || (Newest(subs, k) && subs[k].id != sub.id)
  {
    var all := subs + [sub];
    if k < |subs| {
      assert all[|subs|] == sub && all[k] == subs[k];
      if Newest(all, k) {
        assert forall j :: k < j < |subs| ==> all[j] == subs[j];
      }
    }
  }

  lemma SubmitKeepsMapAndNewest(s: State, id: string, event: StatusEvent)
    requires |s.phase| == |s.subs| && MapInv(s) && NewestInv(s) && !s.stopped
    ensures MapInv(Apply(s, Submit(id, event))) && NewestInv(Apply(s, Submit(id, event)))
  {
    var t := Apply(s, Submit(id, event));
    forall i | i in t.timers
      ensures t.timers[i] < |t.subs| && t.subs[t.timers[i]].id == i && Newest(t.subs, t.timers[i])
      ensures At(t, t.timers[i], Armed) || At(t, t.timers[i], Fired)
    {
      NewestAfterPush(s.subs, Submission(id, event), t.timers[i]);
    }
    forall k: nat | Newest(t.subs, k) ensures !At(t, k, Cancelled) && !At(t, k, Abandoned) {
      NewestAfterPush(s.subs, Submission(id, event), k);
    }
  }

  lemma SubmitKeepsLog(s: State, id: string, event: StatusEvent)
    requires |s.phase| == |s.subs| && LogInv(s) && s.wg == CountInFlight(s.phase)
    ensures LogInv(Apply(s, Submit(id, event)))
    ensures s.wg == CountInFlight(Apply(s, Submit(id, event)).phase)
  {
    var phase := if id in s.timers then StopTimer(s.phase, s.timers[id]) else s.phase;
    CountSame(s.phase, phase);
    CountPush(phase, Armed);
  }

  lemma SubmitKeepsInv(s: State, id: string, event: StatusEvent)
    requires Inv(s)
    ensures Inv(Apply(s, Submit(id, event)))
  {
    if !s.stopped {
      SubmitKeepsMapAndNewest(s, id, event);
      SubmitKeepsLog(s, id, event);
    }
  }

  lemma FireKeepsInv(s: State, k: nat)
    requires Inv(s) && Enabled(s, Fire(k))
    ensures Inv(Apply(s, Fire(k)))
  {
    CountUpdate(s.phase, k, Fired);
  }

  lemma LockKeepsInv(s: State, k: nat)
    requires Inv(s) && Enabled(s, Lock(k))
    ensures Inv(Apply(s, Lock(k)))
  {
    CountUpdate(s.phase, k, if s.stopped then Abandoned else Counted);
  }

  lemma PublishKeepsInv(s: State, k: nat)
    requires Inv(s) && Enabled(s, Publish(k))
    ensures Inv(Apply(s, Publish(k)))
  {
    CountUpdate(s.phase, k, Publishing);
    assert k !in s.log;
  }

  lemma ReturnKeepsInv(s: State, k: nat)
    requires Inv(s) && Enabled(s, Return(k))
    ensures Inv(Apply(s, Return(k)))
  {
    CountUpdate(s.phase, k, Returned);
  }

  lemma DoneKeepsInv(s: State, k: nat)
    requires Inv(s) && Enabled(s, Done(k))
    ensures Inv(Apply(s, Done(k)))
  {
    CountUpdate(s.phase, k, Finished);
    if s.stopReturned {
      CountZero(s.phase, k);
    }
  }

  lemma StopLockKeepsInv(s: State)
    requires Inv(s)
    ensures Inv(Apply(s, StopLock))
  {
    CountSame(s.phase, Apply(s, StopLock).phase);
  }

  lemma StepKeepsInv(s: State, a: Action)
    requires Inv(s) && Enabled(s, a)
    ensures Inv(Apply(s, a))
  {
    match a
    case Submit(id, event) => SubmitKeepsInv(s, id, event);
    case Fire(k) => FireKeepsInv(s, k);
    case Lock(k) => LockKeepsInv(s, k);
    case Publish(k) => PublishKeepsInv(s, k);
    case Return(k) => ReturnKeepsInv(s, k);
    case Done(k) => DoneKeepsInv(s, k);
    case StopLock => StopLockKeepsInv(s);
    case StopReturn =>
  }

  lemma {:induction false} RunKeepsInv(s: State, run: seq<Action>)
    requires Inv(s)
    ensures Exec(s, run).Some? ==> Inv(Exec(s, run).value)
  {
    if run != [] && Exec(s, run).Some? {
      RunKeepsInv(s, run[..|run| - 1]);
      StepKeepsInv(Exec(s, run[..|run| - 1]).value, run[|run| - 1]);
    }
  }
}
