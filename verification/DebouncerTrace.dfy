/**
 What a timed debouncer publishes, told from the history of its calls alone.
 */
module DebouncerTrace {
  import opened Wrappers
  import opened StatusEvents
  import P = DebouncerProtocol
  import R = DebouncerRuns
  import opened TimedDebouncer

  // The submissions of one instance among the publishes, in publish order.
  function PublishedOf(log: seq<nat>, subs: seq<P.Submission>, id: string): seq<nat> {
    if log == [] then [] else
      var front, k := log[..|log| - 1], log[|log| - 1];
      PublishedOf(front, subs, id) + (if k < |subs| && subs[k].id == id then [k] else [])
  }

  // The submissions of one instance that survive the window, in submission order.
  ghost function Surviving(interval: nat, ledger: seq<Stamp>, stop: Option<nat>, now: nat, id: string, n: nat): seq<nat>
    requires n <= |ledger|
  {
    if n == 0 then [] else
      Surviving(interval, ledger, stop, now, id, n - 1)
      + (if ledger[n - 1].id == id && May(interval, ledger, stop, now, n - 1) then [n - 1] else [])
  }

  // No later submission for the instance, no Stop and not the present falls exactly on a deadline.
  ghost predicate NoTies(interval: nat, ledger: seq<Stamp>, stop: Option<nat>, now: nat, id: string) {
    forall k :: 0 <= k < |ledger| && ledger[k].id == id ==>
      && now != ledger[k].time + interval
      && (stop.Some? ==> stop.value != ledger[k].time + interval)
      && forall j :: k < j < |ledger| && ledger[j].id == id ==> ledger[j].time != ledger[k].time + interval
  }

  // For every history: what must survive the window is published, what is published may survive
  // it, and each instance's publishes come in submission order.
  lemma PublishedIsWindowFilter(interval: nat, h: seq<Action>, k: nat)
    requires After(interval, h).Some?
    ensures var log := After(interval, h).value.core.log;
            (Must(interval, Accepted(h), StopTime(h), Clock(h), k) ==> k in log)
            && (k in log ==> May(interval, Accepted(h), StopTime(h), Clock(h), k))
            && R.InOrder(After(interval, h).value.core)
  {
    AfterKeepsInv(interval, h);
    LedgerIsHistory(interval, h);
    var s := After(interval, h).value;
    if k < |s.core.subs| {
      assert Judged(interval, s, k);
    }
  }

  ghost predicate Increasing(a: seq<nat>) {
    forall i, j :: 0 <= i < j < |a| ==> a[i] < a[j]
  }

  lemma {:induction false} IncreasingIsUnique(a: seq<nat>, b: seq<nat>)
    requires Increasing(a) && Increasing(b)
    requires forall k: nat :: k in a <==> k in b
    ensures a == b
  {
    if a == [] {
      assert forall i :: 0 <= i < |b| ==> b[i] in b;
    } else {
      assert a[|a| - 1] in b;
      var a', b' := a[..|a| - 1], b[..|b| - 1];
      var x, y := a[|a| - 1], b[|b| - 1];
      assert y in b;
      assert x == y;
      assert a == a' + [x] && b == b' + [y];
      forall k: nat ensures k in a' <==> k in b' {
        assert (k in a <==> k in a' || k == x) && (k in b <==> k in b' || k == y);
        assert x !in a' && y !in b';
      }
      IncreasingIsUnique(a', b');
    }
  }

  lemma {:induction false} PublishedMembers(log: seq<nat>, subs: seq<P.Submission>, id: string, k: nat)
    ensures k in PublishedOf(log, subs, id) <==> k in log && k < |subs| && subs[k].id == id
  {
    if log != [] {
      assert log == log[..|log| - 1] + [log[|log| - 1]];
      PublishedMembers(log[..|log| - 1], subs, id, k);
    }
  }

  // Publishes of one instance that are in submission order and not repeated increase.
  lemma {:induction false} PublishedIncreasing(log: seq<nat>, subs: seq<P.Submission>, id: string)
    requires forall i, j ::
               0 <= i < j < |log| && log[i] < |subs| && log[j] < |subs| && subs[log[i]].id == subs[log[j]].id
               ==> log[i] < log[j]
    ensures Increasing(PublishedOf(log, subs, id))
  {
    if log != [] {
      var n := |log| - 1;
      var front, k := log[..n], log[n];
      PublishedIncreasing(front, subs, id);
      var p := PublishedOf(front, subs, id);
      if k < |subs| && subs[k].id == id {
        forall i | 0 <= i < |p| ensures p[i] < k {
          PublishedMembers(front, subs, id, p[i]);
          var m :| 0 <= m < n && log[m] == p[i];
        }
      }
    }
  }

  lemma {:induction false} SurvivingMembers(interval: nat, ledger: seq<Stamp>, stop: Option<nat>, now: nat, id: string, n: nat)
    requires n <= |ledger|
    ensures Increasing(Surviving(interval, ledger, stop, now, id, n))
    ensures forall k: nat :: k in Surviving(interval, ledger, stop, now, id, n) <==>
              k < n && ledger[k].id == id && May(interval, ledger, stop, now, k)
  {
    if n > 0 {
      SurvivingMembers(interval, ledger, stop, now, id, n - 1);
      var s := Surviving(interval, ledger, stop, now, id, n - 1);
      forall i | 0 <= i < |s| ensures s[i] < n - 1 {
        assert s[i] in s;
      }
    }
  }

  // Away from ties the publishes of an instance are exactly the submissions that survive the
  // window, in submission order.
  lemma PublishedExactly(interval: nat, h: seq<Action>, id: string)
    requires After(interval, h).Some?
    requires NoTies(interval, Accepted(h), StopTime(h), Clock(h), id)
    ensures var c := After(interval, h).value.core;
            PublishedOf(c.log, c.subs, id)
            == Surviving(interval, Accepted(h), StopTime(h), Clock(h), id, |Accepted(h)|)
  {
    var c := After(interval, h).value.core;
    var ledger, stop, now := Accepted(h), StopTime(h), Clock(h);
    var kept := Surviving(interval, ledger, stop, now, id, |ledger|);
    AfterKeepsInv(interval, h);
    LedgerIsHistory(interval, h);
    PublishedIncreasing(c.log, c.subs, id);
    SurvivingMembers(interval, ledger, stop, now, id, |ledger|);
    forall k: nat ensures k in PublishedOf(c.log, c.subs, id) <==> k in kept {
      PublishedMembers(c.log, c.subs, id, k);
      PublishedIsWindowFilter(interval, h, k);
      if k < |ledger| && ledger[k].id == id && May(interval, ledger, stop, now, k) {
        assert Must(interval, ledger, stop, now, k);
      }
    }
    IncreasingIsUnique(PublishedOf(c.log, c.subs, id), kept);
  }

  lemma AfterPush(interval: nat, h: seq<Action>, s: State, a: Action) returns (longer: seq<Action>, t: State)
    requires After(interval, h) == Some(s) && Enabled(interval, s, a)
    ensures longer == h + [a] && t == Step(interval, s, a) && After(interval, longer) == Some(t)
    ensures Accepted(longer) == Accepted(h) + (if a.Submit? && StopTime(h).None? then [Stamp(a.id, a.event, Clock(h))] else [])
    ensures Clock(longer) == Clock(h) + (if a.Tick? then a.dt else 0)
    ensures !a.Stop? ==> StopTime(longer) == StopTime(h)
  {
    longer, t := h + [a], Step(interval, s, a);
    assert longer[..|h|] == h;
  }

  // ---- No history is stuck ----

  lemma DueOrFree(interval: nat, s: State) returns (id: Option<string>)
    requires Inv(interval, s)
    ensures match id case None => Enabled(interval, s, Tick(1)) case Some(i) => Enabled(interval, s, Expire(i))
  {
    if k: nat :| k < |s.ledger| && Running(s, k) && s.now + 1 > s.ledger[k].time + interval {
      assert Judged(interval, s, k) && P.At(s.core, k, P.Armed);
      id := Some(s.core.subs[k].id);
    } else {
      id := None;
    }
  }

  lemma ExpireReducesWork(interval: nat, s: State, id: string)
    requires Inv(interval, s) && Enabled(interval, s, Expire(id))
    ensures R.Work(Step(interval, s, Expire(id)).core.phase) < R.Work(s.core.phase)
  {
    var k := s.core.timers[id];
    CallbackEffect(s.core, k);
    R.WorkUpdate(s.core.phase, k, P.Finished);
  }

  // The calls of two histories are the same, at the same times.
  predicate SameCalls(h: seq<Action>, longer: seq<Action>) {
    Accepted(longer) == Accepted(h) && StopTime(longer) == StopTime(h)
  }

  // One step towards a later time: an expiry that is due, or a tick.
  lemma Progress(interval: nat, h: seq<Action>, s: State) returns (longer: seq<Action>, t: State)
    requires After(interval, h) == Some(s)
    ensures After(interval, longer) == Some(t) && SameCalls(h, longer)
    ensures t.now == s.now + 1 || (t.now == s.now && R.Work(t.core.phase) < R.Work(s.core.phase))
  {
    AfterKeepsInv(interval, h);
    var due := DueOrFree(interval, s);
    if due.Some? {
      ExpireReducesWork(interval, s, due.value);
      longer, t := AfterPush(interval, h, s, Expire(due.value));
    } else {
      longer, t := AfterPush(interval, h, s, Tick(1));
    }
  }

  // From every history the clock can reach any later time without any further call.
  lemma {:induction false} TimeCanPass(interval: nat, h: seq<Action>, s: State, dt: nat)
    returns (longer: seq<Action>, t: State)
    requires After(interval, h) == Some(s)
    ensures After(interval, longer) == Some(t) && SameCalls(h, longer) && t.now == s.now + dt
    decreases dt, R.Work(s.core.phase)
  {
    if dt == 0 {
      longer, t := h, s;
    } else {
      var next, u := Progress(interval, h, s);
      longer, t := TimeCanPass(interval, next, u, s.now + dt - u.now);
    }
  }

  // A timer at its deadline.
  lemma DueTimer(interval: nat, first: StatusEvent) returns (h: seq<Action>, s: State)
    ensures After(interval, h) == Some(s)
    ensures s == State(P.State([P.Submission("a", first)], [P.Armed], map["a" := 0], false, 0, [], 0, false),
                       interval, [Stamp("a", first, 0)], None)
    ensures Accepted(h) == [Stamp("a", first, 0)] && StopTime(h) == None && Clock(h) == interval
  {
    h, s := AfterPush(interval, [], START, Submit("a", first));
    h, s := AfterPush(interval, h, s, Tick(interval));
  }

  lemma TimerWins(interval: nat, first: StatusEvent, second: StatusEvent) returns (h: seq<Action>)
    ensures After(interval, h).Some? && 0 in After(interval, h).value.core.log
    ensures Accepted(h) == [Stamp("a", first, 0), Stamp("a", second, interval)]
    ensures StopTime(h) == None && Clock(h) == interval
  {
    var due, s := DueTimer(interval, first);
    CallbackEffect(s.core, 0);
    h, s := AfterPush(interval, due, s, Expire("a"));
    h, s := AfterPush(interval, h, s, Submit("a", second));
  }

  lemma SubmitWins(interval: nat, first: StatusEvent, second: StatusEvent) returns (h: seq<Action>)
    ensures After(interval, h).Some? && 0 !in After(interval, h).value.core.log
    ensures Accepted(h) == [Stamp("a", first, 0), Stamp("a", second, interval)]
    ensures StopTime(h) == None && Clock(h) == interval
  {
    var due, s := DueTimer(interval, first);
    h, s := AfterPush(interval, due, s, Submit("a", second));
  }

  // On a tie the calls alone do not decide: two runs with the same submissions at the same times,
  // the second of them at the very deadline of the first, of which one publishes the first.
  lemma TieGoesEitherWay(interval: nat, first: StatusEvent, second: StatusEvent)
    returns (kept: seq<Action>, dropped: seq<Action>)
    ensures After(interval, kept).Some? && After(interval, dropped).Some?
    ensures Accepted(kept) == Accepted(dropped) == [Stamp("a", first, 0), Stamp("a", second, interval)]
    ensures StopTime(kept) == StopTime(dropped) == None && Clock(kept) == Clock(dropped) == interval
    ensures 0 in After(interval, kept).value.core.log && 0 !in After(interval, dropped).value.core.log
  {
    kept := TimerWins(interval, first, second);
    dropped := SubmitWins(interval, first, second);
  }

  // ---- Instances do not affect one another ----

  function Concerns(a: Action, id: string): bool {
    match a
    case Submit(i, _) => i == id
    case Expire(i) => i == id
    case _ => true
  }

  function Project(h: seq<Action>, id: string): seq<Action> {
    if h == [] then [] else
      var front, a := h[..|h| - 1], h[|h| - 1];
      Project(front, id) + (if Concerns(a, id) then [a] else [])
  }

  function EventsOf(c: P.State, id: string): seq<StatusEvent> {
    Events(c.log, c.subs, id)
  }

  function Events(log: seq<nat>, subs: seq<P.Submission>, id: string): seq<StatusEvent> {
    if log == [] then [] else
      var front, k := log[..|log| - 1], log[|log| - 1];
      Events(front, subs, id) + (if k < |subs| && subs[k].id == id then [subs[k].event] else [])
  }

  lemma {:induction false} EventsIgnoreLaterSubs(log: seq<nat>, subs: seq<P.Submission>, sub: P.Submission, id: string)
    requires forall i :: 0 <= i < |log| ==> log[i] < |subs|
    ensures Events(log, subs + [sub], id) == Events(log, subs, id)
  {
    if log != [] {
      EventsIgnoreLaterSubs(log[..|log| - 1], subs, sub, id);
    }
  }

  lemma EventsPush(log: seq<nat>, subs: seq<P.Submission>, k: nat, id: string)
    ensures Events(log + [k], subs, id)
            == Events(log, subs, id) + (if k < |subs| && subs[k].id == id then [subs[k].event] else [])
  {
    assert (log + [k])[..|log|] == log;
  }

  ghost predicate Pending(s: State, id: string, event: StatusEvent, time: nat) {
    id in s.core.timers &&
    var k := s.core.timers[id];
    k < |s.ledger| && k < |s.core.subs| && P.At(s.core, k, P.Armed)
    && s.ledger[k].time == time && s.core.subs[k].event == event
  }

  // Both states are alike as far as one instance is concerned; the second knows no other.
  ghost predicate Alike(s: State, t: State, id: string) {
    && s.now == t.now && s.stoppedAt == t.stoppedAt
    && (forall i :: i in t.core.timers ==> i == id)
    && (id in s.core.timers <==> id in t.core.timers)
    && (forall event, time :: Pending(s, id, event, time) <==> Pending(t, id, event, time))
    && EventsOf(s.core, id) == EventsOf(t.core, id)
  }

  lemma MappedIsPending(interval: nat, s: State, id: string)
    requires Inv(interval, s) && id in s.core.timers
    ensures var k := s.core.timers[id];
            P.At(s.core, k, P.Armed) && s.core.subs[k].id == id && !s.core.stopped
            && Pending(s, id, s.core.subs[k].event, s.ledger[k].time)
  {
    assert Judged(interval, s, s.core.timers[id]);
  }

  lemma SubmitStaysAlike(interval: nat, s: State, t: State, id: string, event: StatusEvent)
    requires Inv(interval, s) && Inv(interval, t) && Alike(s, t, id)
    ensures Alike(Step(interval, s, Submit(id, event)), Step(interval, t, Submit(id, event)), id)
  {
    if !s.core.stopped {
      EventsIgnoreLaterSubs(s.core.log, s.core.subs, P.Submission(id, event), id);
      EventsIgnoreLaterSubs(t.core.log, t.core.subs, P.Submission(id, event), id);
      SubmitIsPending(interval, s, id, event);
      SubmitIsPending(interval, t, id, event);
    }
  }

  lemma SubmitIsPending(interval: nat, s: State, id: string, event: StatusEvent)
    requires Inv(interval, s) && !s.core.stopped
    ensures forall e, time :: Pending(Step(interval, s, Submit(id, event)), id, e, time) <==>
              e == event && time == s.now
  {
  }

  lemma OtherSubmitStaysAlike(interval: nat, s: State, t: State, id: string, other: string, event: StatusEvent)
    requires Inv(interval, s) && Alike(s, t, id) && other != id
    ensures Alike(Step(interval, s, Submit(other, event)), t, id)
  {
    var u := Step(interval, s, Submit(other, event));
    if !s.core.stopped {
      EventsIgnoreLaterSubs(s.core.log, s.core.subs, P.Submission(other, event), id);
      if id in s.core.timers {
        MappedIsPending(interval, s, id);
      }
      forall e, time ensures Pending(u, id, e, time) <==> Pending(s, id, e, time) {
      }
    }
  }

  lemma ExpireEvents(interval: nat, s: State, id: string, other: string)
    requires Inv(interval, s) && Enabled(interval, s, Expire(other))
    ensures var k := s.core.timers[other];
            EventsOf(Step(interval, s, Expire(other)).core, id)
            == EventsOf(s.core, id) + (if other == id then [s.core.subs[k].event] else [])
  {
    var k := s.core.timers[other];
    CallbackEffect(s.core, k);
    MappedIsPending(interval, s, other);
    EventsPush(s.core.log, s.core.subs, k, id);
  }

  lemma ExpireStaysAlike(interval: nat, s: State, t: State, id: string)
    requires Inv(interval, s) && Inv(interval, t) && Alike(s, t, id) && Enabled(interval, s, Expire(id))
    ensures Enabled(interval, t, Expire(id))
    ensures Alike(Step(interval, s, Expire(id)), Step(interval, t, Expire(id)), id)
  {
    MappedIsPending(interval, s, id);
    MappedIsPending(interval, t, id);
    ExpireEvents(interval, s, id, id);
    ExpireEvents(interval, t, id, id);
    CallbackEffect(s.core, s.core.timers[id]);
    CallbackEffect(t.core, t.core.timers[id]);
  }

  lemma OtherExpireStaysAlike(interval: nat, s: State, t: State, id: string, other: string)
    requires Inv(interval, s) && Alike(s, t, id) && other != id && Enabled(interval, s, Expire(other))
    ensures Alike(Step(interval, s, Expire(other)), t, id)
  {
    var u := Step(interval, s, Expire(other));
    ExpireEvents(interval, s, id, other);
    MappedIsPending(interval, s, other);
    CallbackEffect(s.core, s.core.timers[other]);
    if id in s.core.timers {
      MappedIsPending(interval, s, id);
      assert s.core.timers[id] != s.core.timers[other];
    }
    forall e, time ensures Pending(u, id, e, time) <==> Pending(s, id, e, time) {
    }
  }

  lemma TickStaysAlike(interval: nat, s: State, t: State, id: string, dt: nat)
    requires Inv(interval, s) && Inv(interval, t) && Alike(s, t, id) && Enabled(interval, s, Tick(dt))
    ensures Enabled(interval, t, Tick(dt))
    ensures Alike(Step(interval, s, Tick(dt)), Step(interval, t, Tick(dt)), id)
  {
    forall k: nat | k < |t.ledger| && Running(t, k) ensures t.now + dt <= t.ledger[k].time + interval {
      assert Judged(interval, t, k);
      assert P.At(t.core, k, P.Armed);
      assert t.core.subs[k].id == id && t.core.timers[id] == k;
      MappedIsPending(interval, t, id);
      MappedIsPending(interval, s, id);
      assert Running(s, s.core.timers[id]);
    }
    var u, v := Step(interval, s, Tick(dt)), Step(interval, t, Tick(dt));
    forall e, time ensures Pending(u, id, e, time) <==> Pending(v, id, e, time) {
      assert Pending(u, id, e, time) <==> Pending(s, id, e, time);
      assert Pending(v, id, e, time) <==> Pending(t, id, e, time);
    }
  }

  // A run seen through one instance's calls, the clock and Stop is itself a run, and it
  // publishes the same events for that instance.
  lemma {:induction false} InstancesAreIndependent(interval: nat, h: seq<Action>, id: string)
    requires After(interval, h).Some?
    ensures After(interval, Project(h, id)).Some?
    ensures Alike(After(interval, h).value, After(interval, Project(h, id)).value, id)
    ensures EventsOf(After(interval, h).value.core, id) == EventsOf(After(interval, Project(h, id)).value.core, id)
  {
    if h != [] {
      var front, a := h[..|h| - 1], h[|h| - 1];
      InstancesAreIndependent(interval, front, id);
      AfterKeepsInv(interval, front);
      AfterKeepsInv(interval, Project(front, id));
      var s, t := After(interval, front).value, After(interval, Project(front, id)).value;
      StepStaysAlike(interval, s, t, id, a);
      if Concerns(a, id) {
        assert Project(h, id)[..|Project(h, id)| - 1] == Project(front, id);
      } else {
        assert Project(h, id) == Project(front, id);
      }
    }
  }

  lemma StepStaysAlike(interval: nat, s: State, t: State, id: string, a: Action)
    requires Inv(interval, s) && Inv(interval, t) && Alike(s, t, id) && Enabled(interval, s, a)
    ensures if Concerns(a, id)
            then Enabled(interval, t, a) && Alike(Step(interval, s, a), Step(interval, t, a), id)
            else Alike(Step(interval, s, a), t, id)
  {
    match a
    case Submit(i, event) =>
      if i == id { SubmitStaysAlike(interval, s, t, id, event); }
      else { OtherSubmitStaysAlike(interval, s, t, id, i, event); }
    case Expire(i) =>
      if i == id { ExpireStaysAlike(interval, s, t, id); }
      else { OtherExpireStaysAlike(interval, s, t, id, i); }
    case Tick(dt) => TickStaysAlike(interval, s, t, id, dt);
    case Stop => StopStaysAlike(interval, s, t, id);
  }

  lemma StopStaysAlike(interval: nat, s: State, t: State, id: string)
    requires Inv(interval, s) && Inv(interval, t) && Alike(s, t, id)
    ensures Alike(Step(interval, s, Stop), Step(interval, t, Stop), id)
  {
  }

  // ---- Every timed run is an interleaving of the protocol's steps ----

  lemma {:induction false} TimelyConcat(s: P.State, run: seq<P.Action>, more: seq<P.Action>)
    requires P.Exec(s, run).Some? && R.TimelyRun(s, run) && R.TimelyRun(P.Exec(s, run).value, more)
    ensures R.TimelyRun(s, run + more)
  {
    if more == [] {
      assert run + more == run;
    } else {
      var n := |more| - 1;
      TimelyConcat(s, run, more[..n]);
      assert (run + more)[..|run + more| - 1] == run + more[..n];
      R.ExecConcat(s, run, more[..n]);
    }
  }

  function StepsOf(s: State, a: Action): seq<P.Action> {
    match a
    case Submit(id, event) => [P.Submit(id, event)] + []
    case Tick(_) => []
    case Expire(id) => if id in s.core.timers then CallbackSteps(s.core.timers[id]) else []
    case Stop => [P.StopLock] + ([P.StopReturn] + [])
  }

  lemma StepIsRun(interval: nat, s: State, a: Action)
    requires Inv(interval, s) && Enabled(interval, s, a)
    ensures P.Exec(s.core, StepsOf(s, a)) == Some(Step(interval, s, a).core)
    ensures R.TimelyRun(s.core, StepsOf(s, a))
  {
    match a
    case Submit(id, event) =>
      R.ExecCons(s.core, P.Submit(id, event), []);
      NothingLate(interval, s, id, event);
      assert ([P.Submit(id, event)] + [])[..0] == [];
    case Tick(_) =>
    case Expire(id) =>
      CallbackIsRun(s.core, s.core.timers[id]);
      R.NoSubmitIsTimely(s.core, StepsOf(s, a));
    case Stop =>
      R.ExecCons(s.core, P.StopLock, [P.StopReturn] + []);
      R.ExecCons(P.Apply(s.core, P.StopLock), P.StopReturn, []);
      R.NoSubmitIsTimely(s.core, StepsOf(s, a));
  }

  lemma {:induction false} TimedRunIsInterleaving(interval: nat, h: seq<Action>) returns (run: seq<P.Action>)
    requires After(interval, h).Some?
    ensures P.Exec(P.INIT, run) == Some(After(interval, h).value.core)
    ensures R.TimelyRun(P.INIT, run)
  {
    if h == [] {
      run := [];
    } else {
      var front, a := h[..|h| - 1], h[|h| - 1];
      var before := TimedRunIsInterleaving(interval, front);
      AfterKeepsInv(interval, front);
      var s := After(interval, front).value;
      StepIsRun(interval, s, a);
      run := before + StepsOf(s, a);
      R.ExecConcat(P.INIT, before, StepsOf(s, a));
      TimelyConcat(P.INIT, before, StepsOf(s, a));
    }
  }
}
