/**
 The debouncer with a clock: a timer's expiry and its whole callback are one step.

 Time may not pass the deadline of a running timer, so a due timer expires before the clock moves
 on; at the very instant of a deadline the expiry, a newer Submit and Stop may come in any order.
 Every step is a sequence of steps of DebouncerProtocol.
 */
module TimedDebouncer {
  import opened Wrappers
  import opened StatusEvents
  import P = DebouncerProtocol
  import R = DebouncerRuns

  // An accepted submission and the time at which it was made.
  datatype Stamp = Stamp(id: string, event: StatusEvent, time: nat)

  datatype State = State(core: P.State, now: nat, ledger: seq<Stamp>, stoppedAt: Option<nat>)

  const START := State(P.INIT, 0, [], None)

  datatype Action =
    | Submit(id: string, event: StatusEvent)
    | Tick(dt: nat)
    | Expire(id: string)
    | Stop

  predicate Running(s: State, k: nat) {
    k < |s.ledger| && P.At(s.core, k, P.Armed)
  }

  predicate Enabled(interval: nat, s: State, a: Action) {
    match a
    case Submit(_, _) => true
    case Tick(dt) => forall k: nat :: k < |s.ledger| && Running(s, k) ==> s.now + dt <= s.ledger[k].time + interval
    case Expire(id) =>
      && id in s.core.timers && !s.core.stopped
      && Running(s, s.core.timers[id]) && s.core.timers[id] < |s.core.subs|
      && s.ledger[s.core.timers[id]].time + interval <= s.now
    case Stop => s.core.wg == 0
  }

  // Timer k expires and its callback runs to the end.
  function Callback(c: P.State, k: nat): P.State
    requires P.At(c, k, P.Armed) && !c.stopped && k < |c.subs|
  {
    var fired := P.Apply(c, P.Fire(k));
    var counted := P.Apply(fired, P.Lock(k));
    var publishing := P.Apply(counted, P.Publish(k));
    var returned := P.Apply(publishing, P.Return(k));
    P.Apply(returned, P.Done(k))
  }

  function Step(interval: nat, s: State, a: Action): State
    requires Enabled(interval, s, a)
  {
    match a
    case Submit(id, event) =>
      s.(core := P.Apply(s.core, P.Submit(id, event)),
         ledger := if s.core.stopped then s.ledger else s.ledger + [Stamp(id, event, s.now)])
    case Tick(dt) => s.(now := s.now + dt)
    case Expire(id) => s.(core := Callback(s.core, s.core.timers[id]))
    case Stop =>
      s.(core := P.Apply(P.Apply(s.core, P.StopLock), P.StopReturn),
         stoppedAt := if s.stoppedAt.None? then Some(s.now) else s.stoppedAt)
  }

  function After(interval: nat, h: seq<Action>): Option<State> {
    if h == [] then Some(START) else
      match After(interval, h[..|h| - 1])
      case None => None
      case Some(s) =>
        if Enabled(interval, s, h[|h| - 1]) then Some(Step(interval, s, h[|h| - 1])) else None
  }

  // ---- The history alone, without any timer ----

  function Clock(h: seq<Action>): nat {
    if h == [] then 0 else
      Clock(h[..|h| - 1]) + (if h[|h| - 1].Tick? then h[|h| - 1].dt else 0)
  }

  function StopTime(h: seq<Action>): Option<nat> {
    if h == [] then None else
      var before := StopTime(h[..|h| - 1]);
      if before.None? && h[|h| - 1].Stop? then Some(Clock(h)) else before
  }

  function Accepted(h: seq<Action>): seq<Stamp> {
    if h == [] then [] else
      var front, a := h[..|h| - 1], h[|h| - 1];
      Accepted(front) + (if a.Submit? && StopTime(front).None? then [Stamp(a.id, a.event, Clock(front))] else [])
  }

  // Submission k meets no later submission for its instance, and no Stop, before its deadline,
  // and the deadline has come.
  ghost predicate May(interval: nat, ledger: seq<Stamp>, stop: Option<nat>, now: nat, k: nat) {
    && k < |ledger|
    && (forall j :: k < j < |ledger| && ledger[j].id == ledger[k].id
          ==> ledger[j].time >= ledger[k].time + interval)
    && (stop.Some? ==> stop.value >= ledger[k].time + interval)
    && now >= ledger[k].time + interval
  }

  // The same with all the comparisons strict.
  ghost predicate Must(interval: nat, ledger: seq<Stamp>, stop: Option<nat>, now: nat, k: nat) {
    && k < |ledger|
    && (forall j :: k < j < |ledger| && ledger[j].id == ledger[k].id
          ==> ledger[j].time > ledger[k].time + interval)
    && (stop.Some? ==> stop.value > ledger[k].time + interval)
    && now > ledger[k].time + interval
  }

  // A later submission for the instance, or Stop, comes no later than the deadline.
  ghost predicate Lost(interval: nat, ledger: seq<Stamp>, stop: Option<nat>, k: nat)
    requires k < |ledger|
  {
    || (exists j :: k < j < |ledger| && ledger[j].id == ledger[k].id
          && ledger[j].time <= ledger[k].time + interval)
    || (stop.Some? && stop.value <= ledger[k].time + interval)
  }

  // ---- What every run keeps ----

  ghost predicate LedgerMatches(s: State) {
    && |s.ledger| == |s.core.subs|
    && (forall k :: 0 <= k < |s.ledger| ==>
          s.ledger[k].id == s.core.subs[k].id && s.ledger[k].event == s.core.subs[k].event
          && s.ledger[k].time <= s.now)
    && (s.core.stopped <==> s.stoppedAt.Some?)
    && (s.stoppedAt.Some? ==> s.stoppedAt.value <= s.now)
  }

  ghost predicate Judged(interval: nat, s: State, k: nat) {
    && k < |s.core.phase| && k < |s.ledger|
    && match s.core.phase[k]
       case Armed => !s.core.stopped && s.now <= s.ledger[k].time + interval
       case Finished => May(interval, s.ledger, s.stoppedAt, s.now, k)
       case Cancelled => Lost(interval, s.ledger, s.stoppedAt, k)
       case _ => false
  }

  ghost predicate Inv(interval: nat, s: State) {
    && P.Inv(s.core) && R.Coalesced(s.core) && s.core.wg == 0
    && LedgerMatches(s)
    && forall k: nat :: k < |s.core.subs| ==> Judged(interval, s, k)
  }

  lemma CallbackEffect(c: P.State, k: nat)
    requires P.At(c, k, P.Armed) && !c.stopped && k < |c.subs|
    ensures Callback(c, k) == c.(phase := c.phase[k := P.Finished], log := c.log + [k],
                                 timers := c.timers - {c.subs[k].id})
  {
    assert Callback(c, k).phase == c.phase[k := P.Finished];
  }

  // The publish function runs from the end of the locked section to Done.
  function PublishSteps(k: nat): seq<P.Action> {
    [P.Publish(k)] + ([P.Return(k)] + ([P.Done(k)] + []))
  }

  function CallbackSteps(k: nat): seq<P.Action> {
    [P.Fire(k)] + ([P.Lock(k)] + PublishSteps(k))
  }

  lemma PublishIsRun(counted: P.State, k: nat)
    requires P.At(counted, k, P.Counted)
    ensures var publishing := P.Apply(counted, P.Publish(k));
            var returned := P.Apply(publishing, P.Return(k));
            P.Exec(counted, PublishSteps(k)) == Some(P.Apply(returned, P.Done(k)))
  {
    var publishing := P.Apply(counted, P.Publish(k));
    var returned := P.Apply(publishing, P.Return(k));
    R.ExecCons(counted, P.Publish(k), [P.Return(k)] + ([P.Done(k)] + []));
    R.ExecCons(publishing, P.Return(k), [P.Done(k)] + []);
    R.ExecCons(returned, P.Done(k), []);
  }

  lemma CallbackIsRun(c: P.State, k: nat)
    requires P.At(c, k, P.Armed) && !c.stopped && k < |c.subs|
    ensures P.Exec(c, CallbackSteps(k)) == Some(Callback(c, k))
  {
    var fired := P.Apply(c, P.Fire(k));
    var counted := P.Apply(fired, P.Lock(k));
    R.ExecCons(c, P.Fire(k), [P.Lock(k)] + PublishSteps(k));
    R.ExecCons(fired, P.Lock(k), PublishSteps(k));
    PublishIsRun(counted, k);
  }

  lemma CallbackKeepsInv(c: P.State, k: nat)
    requires P.Inv(c) && R.Coalesced(c) && P.At(c, k, P.Armed) && !c.stopped
    ensures P.Inv(Callback(c, k)) && R.Coalesced(Callback(c, k))
  {
    CallbackIsRun(c, k);
    R.NoSubmitIsTimely(c, CallbackSteps(k));
    P.RunKeepsInv(c, CallbackSteps(k));
    R.TimelyRunKeepsCoalesced(c, CallbackSteps(k));
  }

  lemma Both(c: P.State, a: P.Action)
    requires P.Inv(c) && R.Coalesced(c) && P.Enabled(c, a) && R.Timely(c, a)
    ensures P.Inv(P.Apply(c, a)) && R.Coalesced(P.Apply(c, a))
  {
    P.StepKeepsInv(c, a);
    R.TimelyStepKeepsCoalesced(c, a);
  }

  lemma NothingLate(interval: nat, s: State, id: string, event: StatusEvent)
    requires Inv(interval, s)
    ensures R.Timely(s.core, P.Submit(id, event))
  {
    forall k | 0 <= k < |s.core.subs| ensures s.core.phase[k] != P.Fired && s.core.phase[k] != P.Counted {
      assert Judged(interval, s, k);
    }
  }

  lemma SubmitKeepsJudged(interval: nat, s: State, id: string, event: StatusEvent, k: nat)
    requires |s.core.phase| == |s.core.subs| && LedgerMatches(s) && !s.core.stopped
    requires k < |s.ledger| && Judged(interval, s, k)
    requires id in s.core.timers ==> s.core.timers[id] < |s.core.subs| && s.core.subs[s.core.timers[id]].id == id
    ensures Judged(interval, Step(interval, s, Submit(id, event)), k)
  {
    var t := Step(interval, s, Submit(id, event));
    var n := |s.ledger|;
    assert t.ledger[n].time == s.now && t.ledger[n].id == id;
    assert forall j :: 0 <= j < n ==> t.ledger[j] == s.ledger[j];
    if j :| k < j < n && s.ledger[j].id == s.ledger[k].id && s.ledger[j].time <= s.ledger[k].time + interval {
      assert t.ledger[j] == s.ledger[j];
    }
  }

  lemma SubmitKeepsInv(interval: nat, s: State, id: string, event: StatusEvent)
    requires Inv(interval, s)
    ensures Inv(interval, Step(interval, s, Submit(id, event)))
  {
    NothingLate(interval, s, id, event);
    Both(s.core, P.Submit(id, event));
    SubmitCounts(s.core, id, event);
    if !s.core.stopped {
      var t := Step(interval, s, Submit(id, event));
      forall k: nat | k < |t.core.subs| ensures Judged(interval, t, k) {
        if k < |s.ledger| {
          SubmitKeepsJudged(interval, s, id, event, k);
        }
      }
    }
  }

  lemma SubmitCounts(c: P.State, id: string, event: StatusEvent)
    requires P.Inv(c) && c.wg == 0
    ensures P.Apply(c, P.Submit(id, event)).wg == 0
  {
  }

  lemma TickKeepsInv(interval: nat, s: State, dt: nat)
    requires Inv(interval, s) && Enabled(interval, s, Tick(dt))
    ensures Inv(interval, Step(interval, s, Tick(dt)))
  {
    var t := Step(interval, s, Tick(dt));
    forall k: nat | k < |t.core.subs| ensures Judged(interval, t, k) {
      assert Judged(interval, s, k);
      assert s.core.phase[k] == P.Armed ==> Running(s, k);
    }
  }

  lemma ExpireKeepsInv(interval: nat, s: State, id: string)
    requires Inv(interval, s) && Enabled(interval, s, Expire(id))
    ensures Inv(interval, Step(interval, s, Expire(id)))
  {
    var t := Step(interval, s, Expire(id));
    var n := s.core.timers[id];
    CallbackEffect(s.core, n);
    CallbackKeepsInv(s.core, n);
    assert P.Newest(s.core.subs, n) && !s.core.stopped;
    forall k: nat | k < |t.core.subs| ensures Judged(interval, t, k) {
      assert Judged(interval, s, k);
    }
  }

  lemma StopKeepsInv(interval: nat, s: State)
    requires Inv(interval, s)
    ensures Inv(interval, Step(interval, s, Stop))
  {
    var locked := P.Apply(s.core, P.StopLock);
    Both(s.core, P.StopLock);
    Both(locked, P.StopReturn);
    var t := Step(interval, s, Stop);
    forall k: nat | k < |t.core.subs| ensures Judged(interval, t, k) {
      assert Judged(interval, s, k);
      if s.core.phase[k] == P.Armed {
        assert P.At(s.core, k, P.Armed);
        assert s.core.subs[k].id in s.core.timers;
        assert k in s.core.timers.Values;
      }
    }
  }

  lemma {:induction false} AfterKeepsInv(interval: nat, h: seq<Action>)
    requires After(interval, h).Some?
    ensures Inv(interval, After(interval, h).value)
  {
    if h != [] {
      var front := h[..|h| - 1];
      AfterKeepsInv(interval, front);
      var s := After(interval, front).value;
      match h[|h| - 1]
      case Submit(id, event) => SubmitKeepsInv(interval, s, id, event);
      case Tick(dt) => TickKeepsInv(interval, s, dt);
      case Expire(id) => ExpireKeepsInv(interval, s, id);
      case Stop => StopKeepsInv(interval, s);
    }
  }

  lemma StepKeepsHistory(interval: nat, s: State, a: Action)
    requires LedgerMatches(s) && Enabled(interval, s, a)
    ensures var t := Step(interval, s, a);
            && t.ledger == s.ledger + (if a.Submit? && s.stoppedAt.None? then [Stamp(a.id, a.event, s.now)] else [])
            && t.now == s.now + (if a.Tick? then a.dt else 0)
            && t.stoppedAt == if a.Stop? && s.stoppedAt.None? then Some(s.now) else s.stoppedAt
  {
  }

  lemma {:induction false} LedgerIsHistory(interval: nat, h: seq<Action>)
    requires After(interval, h).Some?
    ensures var s := After(interval, h).value;
            s.ledger == Accepted(h) && s.now == Clock(h) && s.stoppedAt == StopTime(h)
  {
    if h != [] {
      var front := h[..|h| - 1];
      LedgerIsHistory(interval, front);
      AfterKeepsInv(interval, front);
      StepKeepsHistory(interval, After(interval, front).value, h[|h| - 1]);
    }
  }
}
