/**
 What holds of every interleaving of the debouncer's steps, and when publishes come in order.
 */
module DebouncerRuns {
  import opened Wrappers
  import opened StatusEvents
  import opened DebouncerProtocol

  ghost predicate Reachable(s: State) {
    exists run :: Exec(INIT, run) == Some(s)
  }

  lemma ReachableInv(s: State)
    requires Reachable(s)
    ensures Inv(s)
  {
    var run :| Exec(INIT, run) == Some(s);
    RunKeepsInv(INIT, run);
  }

  // Timers and callbacks have nothing left to do before a publish.
  predicate Quiescent(s: State) {
    forall k :: 0 <= k < |s.phase| ==>
      s.phase[k] != Armed && s.phase[k] != Fired && s.phase[k] != Counted
  }

  predicate InFlight(s: State, k: nat) {
    k < |s.phase| && InFlightPhase(s.phase[k])
  }

  // ---- Safety of every run ----

  lemma PublishedAtMostOnce(s: State)
    requires Reachable(s)
    ensures forall i, j :: 0 <= i < j < |s.log| ==> s.log[i] != s.log[j]
    ensures forall i :: 0 <= i < |s.log| ==> s.log[i] < |s.subs|
  {
    ReachableInv(s);
  }

  lemma MapEntryNamesNewest(s: State, id: string)
    requires Reachable(s) && id in s.timers
    ensures s.timers[id] < |s.subs| && s.subs[s.timers[id]].id == id
    ensures forall j :: s.timers[id] < j < |s.subs| ==> s.subs[j].id != id
    ensures At(s, s.timers[id], Armed) || At(s, s.timers[id], Fired)
  {
    ReachableInv(s);
  }

  lemma QuiescentPublishedNewest(s: State, k: nat)
    requires Reachable(s) && Quiescent(s) && !s.stopped
    requires Newest(s.subs, k)
    ensures k in s.log
  {
    ReachableInv(s);
  }

  lemma WaitGroupCountsCallbacks(s: State)
    requires Reachable(s)
    ensures s.wg == CountInFlight(s.phase)
    ensures s.wg == 0 <==> forall k :: 0 <= k < |s.phase| ==> !InFlight(s, k)
  {
    ReachableInv(s);
    if s.wg == 0 {
      forall k | 0 <= k < |s.phase| ensures !InFlight(s, k) { CountZero(s.phase, k); }
    } else {
      CountPositive(s.phase);
      var k :| 0 <= k < |s.phase| && InFlightPhase(s.phase[k]);
      assert InFlight(s, k);
    }
  }

  lemma {:induction false} CountPositive(phase: seq<Phase>)
    requires CountInFlight(phase) > 0
    ensures exists k :: 0 <= k < |phase| && InFlightPhase(phase[k])
  {
    var n := |phase| - 1;
    if !InFlightPhase(phase[n]) {
      CountPositive(phase[..n]);
      var k :| 0 <= k < n && InFlightPhase(phase[..n][k]);
      assert InFlightPhase(phase[k]);
    }
  }

  lemma NoAddOnceStopped(s: State, a: Action)
    requires Reachable(s) && s.stopped && Enabled(s, a)
    ensures Apply(s, a).stopped && Apply(s, a).wg <= s.wg
    ensures Apply(s, a).subs == s.subs && Apply(s, a).timers == map[]
    ensures forall k: nat :: InFlight(Apply(s, a), k) ==> InFlight(s, k)
  {
    ReachableInv(s);
  }

  // Once a call of Stop has returned no publish is running, none ever starts and the map stays empty.
  lemma {:induction false} SilentAfterStop(s: State, run: seq<Action>)
    requires Reachable(s) && s.stopReturned
    requires Exec(s, run).Some?
    ensures var t := Exec(s, run).value;
            t.stopReturned && t.log == s.log && t.subs == s.subs && t.timers == map[]
            && forall k: nat :: !InFlight(t, k)
  {
    ReachableInv(s);
    RunKeepsInv(s, run);
    var t := Exec(s, run).value;
    if run == [] {
    } else {
      var front := run[..|run| - 1];
      SilentAfterStop(s, front);
      var u := Exec(s, front).value;
      RunKeepsInv(s, front);
      if run[|run| - 1].Publish? {
        assert InFlight(u, run[|run| - 1].k);
      }
    }
    forall k: nat ensures !InFlight(t, k) {
      if k < |t.phase| { CountZero(t.phase, k); }
    }
  }

  // ---- Progress: the outstanding callbacks can always run to the end ----

  function Rank(p: Phase): nat {
    match p
    case Armed => 5 case Fired => 4 case Counted => 3 case Publishing => 2 case Returned => 1
    case _ => 0
  }

  function Work(phase: seq<Phase>): nat {
    if phase == [] then 0 else Work(phase[..|phase| - 1]) + Rank(phase[|phase| - 1])
  }

  lemma {:induction false} WorkUpdate(phase: seq<Phase>, k: nat, p: Phase)
    requires k < |phase|
    ensures Work(phase[k := p]) == Work(phase) + Rank(p) - Rank(phase[k])
  {
    var n := |phase| - 1;
    if k == n {
      assert phase[k := p][..n] == phase[..n];
    } else {
      assert phase[k := p][..n] == phase[..n][k := p];
      WorkUpdate(phase[..n], k, p);
    }
  }

  predicate CallbackStep(a: Action) {
    !a.Submit? && !a.StopLock? && !a.StopReturn?
  }

  function NextStep(s: State, k: nat): Action
    requires k < |s.phase| && Rank(s.phase[k]) > 0
  {
    match s.phase[k]
    case Armed => Fire(k)
    case Fired => Lock(k)
    case Counted => Publish(k)
    case Publishing => Return(k)
    case _ => Done(k)
  }

  lemma ExecPush(s: State, run: seq<Action>, a: Action)
    requires Exec(s, run).Some? && Enabled(Exec(s, run).value, a)
    ensures Exec(s, run + [a]) == Some(Apply(Exec(s, run).value, a))
  {
    assert (run + [a])[..|run|] == run;
  }

  lemma {:induction false} ExecConcat(s: State, run: seq<Action>, more: seq<Action>)
    requires Exec(s, run).Some?
    ensures Exec(s, run + more) == Exec(Exec(s, run).value, more)
  {
    if more == [] {
      assert run + more == run;
    } else {
      var n := |more| - 1;
      assert (run + more)[..|run + more| - 1] == run + more[..n];
      ExecConcat(s, run, more[..n]);
    }
  }

  lemma NextStepReducesWork(s: State, k: nat)
    requires Inv(s) && k < |s.phase| && Rank(s.phase[k]) > 0
    ensures Enabled(s, NextStep(s, k))
    ensures var t := Apply(s, NextStep(s, k));
            Inv(t) && Work(t.phase) < Work(s.phase) && t.subs == s.subs && t.stopped == s.stopped
  {
    var a := NextStep(s, k);
    StepKeepsInv(s, a);
    var t := Apply(s, a);
    assert t.phase == s.phase[k := t.phase[k]];
    WorkUpdate(s.phase, k, t.phase[k]);
  }

  lemma ExecCons(s: State, a: Action, rest: seq<Action>)
    requires Enabled(s, a)
    ensures Exec(s, [a] + rest) == Exec(Apply(s, a), rest)
  {
    ExecPush(s, [], a);
    assert [] + [a] == [a];
    ExecConcat(s, [a], rest);
  }

  lemma IdleIsQuiescent(s: State)
    requires Inv(s)
    requires forall k :: 0 <= k < |s.phase| ==> Rank(s.phase[k]) == 0
    ensures Quiescent(s) && s.wg == 0
  {
    if s.wg > 0 {
      CountPositive(s.phase);
    }
  }

  // From every reachable state some run of callback steps alone finishes every callback. In it
  // the wait group drops to zero, so no call of Stop waits for ever.
  lemma {:induction false} CallbacksCanFinish(s: State) returns (run: seq<Action>)
    requires Inv(s)
    ensures forall i :: 0 <= i < |run| ==> CallbackStep(run[i])
    ensures Exec(s, run).Some?
    ensures var t := Exec(s, run).value;
            Quiescent(t) && t.wg == 0 && t.subs == s.subs && t.stopped == s.stopped
    decreases Work(s.phase)
  {
    if k: nat :| k < |s.phase| && Rank(s.phase[k]) > 0 {
      var a := NextStep(s, k);
      NextStepReducesWork(s, k);
      var rest := CallbacksCanFinish(Apply(s, a));
      run := [a] + rest;
      ExecCons(s, a, rest);
    } else {
      run := [];
      IdleIsQuiescent(s);
    }
  }

  // ---- Order of publishes ----

  // No callback for the instance is between its expiry and its publish when Submit is called.
  predicate Timely(s: State, a: Action) {
    a.Submit? ==>
      forall k :: 0 <= k < |s.subs| && k < |s.phase| && s.subs[k].id == a.id ==>
        s.phase[k] != Fired && s.phase[k] != Counted
  }

  predicate TimelyRun(s: State, run: seq<Action>) {
    run == [] ||
    (var front := run[..|run| - 1];
     TimelyRun(s, front) && (Exec(s, front).Some? ==> Timely(Exec(s, front).value, run[|run| - 1])))
  }

  // Every instance's submissions are published in their order.
  predicate InOrder(s: State) {
    forall i, j :: 0 <= i < j < |s.log| && s.log[i] < |s.subs| && s.log[j] < |s.subs|
                   && s.subs[s.log[i]].id == s.subs[s.log[j]].id
                   ==> s.log[i] < s.log[j]
  }

  predicate Live(s: State, k: nat) {
    k < |s.phase| && (s.phase[k] == Armed || s.phase[k] == Fired || s.phase[k] == Counted)
  }

  // Only the newest submission of an instance is still on its way to a publish.
  ghost predicate LiveIsNewest(s: State) {
    forall k: nat :: Live(s, k) ==> Newest(s.subs, k)
  }

  // Every running timer is the one the map holds for its instance.
  ghost predicate ArmedIsMapped(s: State) {
    forall k: nat :: At(s, k, Armed) ==>
      k < |s.subs| && s.subs[k].id in s.timers && s.timers[s.subs[k].id] == k
  }

  ghost predicate Coalesced(s: State) {
    LiveIsNewest(s) && (!s.stopped ==> ArmedIsMapped(s)) && InOrder(s)
  }

  lemma TimelySubmitKeepsLive(s: State, id: string, event: StatusEvent)
    requires |s.phase| == |s.subs| && !s.stopped
    requires LiveIsNewest(s) && ArmedIsMapped(s) && Timely(s, Submit(id, event))
    ensures LiveIsNewest(Apply(s, Submit(id, event)))
  {
    var t := Apply(s, Submit(id, event));
    forall k: nat | Live(t, k) ensures Newest(t.subs, k) {
      NewestAfterPush(s.subs, Submission(id, event), k);
      if k < |s.subs| {
        assert Live(s, k);
        assert s.subs[k].id == id ==> At(s, k, Armed);
      }
    }
  }

  lemma SubmitKeepsMapped(s: State, id: string, event: StatusEvent)
    requires |s.phase| == |s.subs| && !s.stopped && ArmedIsMapped(s)
    ensures ArmedIsMapped(Apply(s, Submit(id, event)))
  {
    var t := Apply(s, Submit(id, event));
    forall k: nat | At(t, k, Armed)
      ensures k < |t.subs| && t.subs[k].id in t.timers && t.timers[t.subs[k].id] == k
    {
      if k < |s.subs| {
        assert At(s, k, Armed);
      }
    }
  }

  lemma TimelySubmitKeepsCoalesced(s: State, id: string, event: StatusEvent)
    requires Inv(s) && Coalesced(s) && Timely(s, Submit(id, event))
    ensures Coalesced(Apply(s, Submit(id, event)))
  {
    if !s.stopped {
      TimelySubmitKeepsLive(s, id, event);
      SubmitKeepsMapped(s, id, event);
    }
  }

  lemma LockKeepsMapped(s: State, k: nat)
    requires |s.phase| == |s.subs| && !s.stopped
    requires LiveIsNewest(s) && ArmedIsMapped(s) && Enabled(s, Lock(k))
    ensures ArmedIsMapped(Apply(s, Lock(k)))
  {
    var t := Apply(s, Lock(k));
    forall j: nat | At(t, j, Armed)
      ensures j < |t.subs| && t.subs[j].id in t.timers && t.timers[t.subs[j].id] == j
    {
      assert Live(s, j) && Live(s, k) && At(s, j, Armed);
      assert Newest(s.subs, j) && Newest(s.subs, k);
    }
  }

  lemma PublishKeepsOrder(s: State, k: nat)
    requires Inv(s) && LiveIsNewest(s) && InOrder(s) && Enabled(s, Publish(k))
    ensures InOrder(Apply(s, Publish(k)))
  {
    assert Live(s, k);
    assert Newest(s.subs, k) && k !in s.log;
    var t := Apply(s, Publish(k));
    forall i, j | 0 <= i < j < |t.log| && t.subs[t.log[i]].id == t.subs[t.log[j]].id
      ensures t.log[i] < t.log[j]
    {
      if j == |s.log| {
        assert t.log[j] == k && t.log[i] == s.log[i] && s.log[i] != k;
      } else {
        assert t.log[i] == s.log[i] && t.log[j] == s.log[j];
      }
    }
  }

  // A step that moves one submission forward, changing neither the map nor the log.
  lemma PhaseStepKeepsCoalesced(s: State, t: State, k: nat, p: Phase)
    requires Coalesced(s) && k < |s.phase|
    requires t.subs == s.subs && t.phase == s.phase[k := p] && t.timers == s.timers
    requires t.stopped == s.stopped && t.log == s.log
    requires p != Armed && (Live(t, k) ==> Live(s, k))
    ensures Coalesced(t)
  {
    forall j: nat | Live(t, j) ensures Newest(t.subs, j) {
      assert Live(s, j);
    }
    if !s.stopped {
      forall j: nat | At(t, j, Armed)
        ensures j < |t.subs| && t.subs[j].id in t.timers && t.timers[t.subs[j].id] == j
      {
        assert At(s, j, Armed);
      }
    }
  }

  lemma LiveShrinks(s: State, t: State)
    requires LiveIsNewest(s) && t.subs == s.subs
    requires forall j: nat :: Live(t, j) ==> Live(s, j)
    ensures LiveIsNewest(t)
  {
  }

  lemma TimelyStepKeepsCoalesced(s: State, a: Action)
    requires Inv(s) && Coalesced(s) && Enabled(s, a) && Timely(s, a)
    ensures Coalesced(Apply(s, a))
  {
    var t := Apply(s, a);
    match a
    case Submit(id, event) => TimelySubmitKeepsCoalesced(s, id, event);
    case Fire(k) => PhaseStepKeepsCoalesced(s, t, k, Fired);
    case Lock(k) =>
      if s.stopped {
        PhaseStepKeepsCoalesced(s, t, k, Abandoned);
      } else {
        LockKeepsMapped(s, k);
        LiveShrinks(s, t);
      }
    case Publish(k) =>
      PublishKeepsOrder(s, k);
      PhaseStepKeepsCoalesced(s, t.(log := s.log), k, Publishing);
    case Return(k) => PhaseStepKeepsCoalesced(s, t, k, Returned);
    case Done(k) => PhaseStepKeepsCoalesced(s, t, k, Finished);
    case StopLock => LiveShrinks(s, t);
    case StopReturn => LiveShrinks(s, t);
  }

  lemma {:induction false} TimelyRunKeepsCoalesced(s: State, run: seq<Action>)
    requires Inv(s) && Coalesced(s) && TimelyRun(s, run) && Exec(s, run).Some?
    ensures Coalesced(Exec(s, run).value)
  {
    if run != [] {
      var front := run[..|run| - 1];
      TimelyRunKeepsCoalesced(s, front);
      RunKeepsInv(s, front);
      TimelyStepKeepsCoalesced(Exec(s, front).value, run[|run| - 1]);
    }
  }

  // With timely submissions each instance's publishes come in submission order, so the last
  // one published for an instance is its newest submission.
  lemma TimelyRunPublishesInOrder(run: seq<Action>)
    requires TimelyRun(INIT, run) && Exec(INIT, run).Some?
    ensures var s := Exec(INIT, run).value;
            InOrder(s)
            && (Quiescent(s) && !s.stopped ==>
                  forall i: nat :: LastOfInstance(s, i) ==> Newest(s.subs, s.log[i]))
  {
    RunKeepsInv(INIT, run);
    TimelyRunKeepsCoalesced(INIT, run);
    var s := Exec(INIT, run).value;
    if Quiescent(s) && !s.stopped {
      forall i: nat | LastOfInstance(s, i) ensures Newest(s.subs, s.log[i]) {
        LastPublishedIsNewest(s, i);
      }
    }
  }

  // The i-th publish is the last one for its instance.
  predicate LastOfInstance(s: State, i: nat) {
    && i < |s.log| && s.log[i] < |s.subs|
    && forall j :: i < j < |s.log| && s.log[j] < |s.subs| ==> s.subs[s.log[j]].id != s.subs[s.log[i]].id
  }

  lemma {:induction false} NewestExists(subs: seq<Submission>, k: nat) returns (n: nat)
    requires k < |subs|
    ensures k <= n && Newest(subs, n) && subs[n].id == subs[k].id
    decreases |subs| - k
  {
    if j: nat :| k < j < |subs| && subs[j].id == subs[k].id {
      n := NewestExists(subs, j);
    } else {
      n := k;
    }
  }

  lemma LastPublishedIsNewest(s: State, i: nat)
    requires Inv(s) && InOrder(s) && Quiescent(s) && !s.stopped && LastOfInstance(s, i)
    ensures Newest(s.subs, s.log[i])
  {
    var n := NewestExists(s.subs, s.log[i]);
    assert n in s.log;
    var j :| 0 <= j < |s.log| && s.log[j] == n;
    assert j <= i;
  }

  ghost predicate NoSubmit(run: seq<Action>) {
    forall i :: 0 <= i < |run| ==> !run[i].Submit?
  }

  lemma {:induction false} NoSubmitIsTimely(s: State, run: seq<Action>)
    requires NoSubmit(run)
    ensures TimelyRun(s, run)
  {
    if run != [] {
      NoSubmitIsTimely(s, run[..|run| - 1]);
    }
  }

  // ---- When a Submit replaces the event before it ----

  // The only submission of the instance still on its way to a publish, if there is one, is the
  // running timer that the map holds.
  ghost predicate OnlyMappedIsLive(s: State, id: string) {
    forall k: nat :: Live(s, k) && k < |s.subs| && s.subs[k].id == id ==>
      At(s, k, Armed) && id in s.timers && s.timers[id] == k
  }

  // The submissions of one instance are published in their order.
  predicate OrderedFor(s: State, id: string) {
    forall i, j :: 0 <= i < j < |s.log| && s.log[i] < |s.subs| && s.log[j] < |s.subs|
                   && s.subs[s.log[i]].id == id && s.subs[s.log[j]].id == id
                   ==> s.log[i] < s.log[j]
  }

  // No continuation of `t` publishes a submission of the instance older than `n` that `s` had not.
  ghost predicate Replaces(s: State, t: State, id: string, n: nat) {
    forall run, k: nat | NoSubmit(run) && Exec(t, run).Some? && k < n && k < |t.subs| && t.subs[k].id == id ::
      k in Exec(t, run).value.log ==> k in s.log
  }

  // Every continuation of `t` publishes the instance's submissions in their order.
  ghost predicate StaysOrdered(t: State, id: string) {
    forall run :: NoSubmit(run) && Exec(t, run).Some? ==> OrderedFor(Exec(t, run).value, id)
  }

  // The steps that take a live submission to its publish.
  function ToPublish(p: Phase, k: nat): seq<Action>
    decreases Rank(p)
  {
    match p
    case Armed => [Fire(k)] + ToPublish(Fired, k)
    case Fired => [Lock(k)] + ToPublish(Counted, k)
    case _ => [Publish(k)] + []
  }

  lemma {:induction false} ToPublishRuns(s: State, k: nat)
    requires |s.phase| == |s.subs| && !s.stopped && Live(s, k)
    ensures Exec(s, ToPublish(s.phase[k], k)).Some? && NoSubmit(ToPublish(s.phase[k], k))
    ensures var t := Exec(s, ToPublish(s.phase[k], k)).value;
            t.log == s.log + [k] && t.subs == s.subs && !t.stopped && t.phase == s.phase[k := Publishing]
    decreases Rank(s.phase[k])
  {
    var a := NextStep(s, k);
    var t := Apply(s, a);
    if s.phase[k] == Counted {
      ExecCons(s, a, []);
    } else {
      ToPublishRuns(t, k);
      ExecCons(s, a, ToPublish(t.phase[k], k));
    }
  }

  // A live submission `k` can still be published after a live submission `n`.
  lemma Overtakes(s: State, k: nat, n: nat) returns (run: seq<Action>)
    requires |s.phase| == |s.subs| && !s.stopped && Live(s, k) && Live(s, n) && k != n
    ensures NoSubmit(run) && Exec(s, run).Some?
    ensures var t := Exec(s, run).value;
            t.log == s.log + [n] + [k] && t.subs == s.subs && t.phase == s.phase[n := Publishing][k := Publishing]
  {
    var first, second := ToPublish(s.phase[n], n), ToPublish(s.phase[k], k);
    ToPublishRuns(s, n);
    ToPublishRuns(Exec(s, first).value, k);
    ExecConcat(s, first, second);
    run := first + second;
  }

  lemma DeadStep(s: State, a: Action, k: nat)
    requires k < |s.phase| && !Live(s, k) && !a.Submit? && Enabled(s, a)
    ensures var t := Apply(s, a);
            t.subs == s.subs && |t.phase| == |s.phase| && !Live(t, k) && (k in t.log ==> k in s.log)
  {
  }

  // A submission that is no longer live never becomes live and is never published again.
  lemma {:induction false} DeadStaysUnpublished(s: State, run: seq<Action>, k: nat)
    requires k < |s.phase| && !Live(s, k) && NoSubmit(run) && Exec(s, run).Some?
    ensures var t := Exec(s, run).value;
            t.subs == s.subs && k < |t.phase| && !Live(t, k) && (k in t.log ==> k in s.log)
  {
    if run != [] {
      DeadStaysUnpublished(s, run[..|run| - 1], k);
      DeadStep(Exec(s, run[..|run| - 1]).value, run[|run| - 1], k);
    }
  }

  lemma SubmitLeavesOneLive(s: State, id: string, event: StatusEvent)
    requires Inv(s) && !s.stopped && OnlyMappedIsLive(s, id)
    ensures var t := Apply(s, Submit(id, event));
            forall k: nat :: Live(t, k) && t.subs[k].id == id ==> k == |s.subs|
  {
    var t := Apply(s, Submit(id, event));
    forall k: nat | Live(t, k) && t.subs[k].id == id ensures k == |s.subs| {
      if k < |s.subs| {
        assert Live(s, k);
      }
    }
  }

  // What breaks the condition survives the Submit.
  lemma StrayStaysLive(s: State, id: string, event: StatusEvent) returns (k: nat)
    requires Inv(s) && !s.stopped && !OnlyMappedIsLive(s, id)
    ensures k < |s.subs| && s.subs[k].id == id && Live(Apply(s, Submit(id, event)), k) && k !in s.log
  {
    k :| Live(s, k) && k < |s.subs| && s.subs[k].id == id
         && !(At(s, k, Armed) && id in s.timers && s.timers[id] == k);
  }

  // A Submit replaces the previous event of its instance, as its documentation promises, exactly
  // when the only live submission of the instance is the running timer that the map holds. Both a
  // callback between expiry and publish and a running timer whose entry was deleted break it.
  lemma SubmitReplacesIff(s: State, id: string, event: StatusEvent)
    requires Inv(s) && !s.stopped
    ensures Replaces(s, Apply(s, Submit(id, event)), id, |s.subs|) <==> OnlyMappedIsLive(s, id)
  {
    var t := Apply(s, Submit(id, event));
    if OnlyMappedIsLive(s, id) {
      SubmitLeavesOneLive(s, id, event);
      forall run, k: nat | NoSubmit(run) && Exec(t, run).Some? && k < |s.subs| && t.subs[k].id == id
                           && k in Exec(t, run).value.log
        ensures k in s.log
      {
        DeadStaysUnpublished(t, run, k);
      }
    } else {
      var k := StrayStaysLive(s, id, event);
      ToPublishRuns(t, k);
      assert k in Exec(t, ToPublish(t.phase[k], k)).value.log;
    }
  }

  lemma PublishNewestKeepsOrder(s: State, id: string, k: nat)
    requires Inv(s) && OrderedFor(s, id) && Enabled(s, Publish(k))
    requires s.subs[k].id == id ==> Newest(s.subs, k)
    ensures OrderedFor(Apply(s, Publish(k)), id)
  {
    var t := Apply(s, Publish(k));
    assert k !in s.log;
    forall i, j | 0 <= i < j < |t.log| && t.subs[t.log[i]].id == id && t.subs[t.log[j]].id == id
      ensures t.log[i] < t.log[j]
    {
      if j == |s.log| {
        assert t.log[j] == k && t.log[i] == s.log[i] && s.log[i] != k;
      } else {
        assert t.log[i] == s.log[i] && t.log[j] == s.log[j];
      }
    }
  }

  lemma UnchangedLogOrder(s: State, t: State, id: string)
    requires Inv(s) && t.log == s.log && |s.subs| <= |t.subs| && t.subs[..|s.subs|] == s.subs
    ensures OrderedFor(t, id) <==> OrderedFor(s, id)
  {
    assert forall i :: 0 <= i < |s.log| ==> t.subs[s.log[i]] == s.subs[s.log[i]] by {
      assert forall k :: 0 <= k < |s.subs| ==> t.subs[k] == t.subs[..|s.subs|][k];
    }
  }

  // The instance's publishes are in order and only its newest submission is still on its way.
  ghost predicate OneOnItsWay(s: State, id: string) {
    && OrderedFor(s, id)
    && forall k: nat :: Live(s, k) && k < |s.subs| && s.subs[k].id == id ==> Newest(s.subs, k)
  }

  lemma MappedIsNewest(s: State, id: string)
    requires Inv(s) && OrderedFor(s, id) && OnlyMappedIsLive(s, id)
    ensures OneOnItsWay(s, id)
  {
  }

  // The step is no Submit for the instance that leaves an older submission on its way.
  ghost predicate Replacing(s: State, a: Action, id: string) {
    a.Submit? && a.id == id && !s.stopped ==> OnlyMappedIsLive(s, id)
  }

  lemma SubmitKeepsOneOnItsWay(s: State, id: string, event: StatusEvent, other: string)
    requires Inv(s) && OneOnItsWay(s, other) && !s.stopped && Replacing(s, Submit(id, event), other)
    ensures OneOnItsWay(Apply(s, Submit(id, event)), other)
  {
    var t := Apply(s, Submit(id, event));
    UnchangedLogOrder(s, t, other);
    if id == other {
      SubmitLeavesOneLive(s, id, event);
    }
    forall k: nat | Live(t, k) && t.subs[k].id == other ensures Newest(t.subs, k) {
      NewestAfterPush(s.subs, Submission(id, event), k);
      assert k < |s.subs| ==> Live(s, k);
    }
  }

  lemma StepKeepsOneOnItsWay(s: State, a: Action, id: string)
    requires Inv(s) && OneOnItsWay(s, id) && Enabled(s, a) && Replacing(s, a, id)
    ensures OneOnItsWay(Apply(s, a), id)
  {
    var t := Apply(s, a);
    if a.Submit? {
      if !s.stopped { SubmitKeepsOneOnItsWay(s, a.id, a.event, id); }
    } else {
      if a.Publish? {
        assert Live(s, a.k);
        PublishNewestKeepsOrder(s, id, a.k);
      } else {
        UnchangedLogOrder(s, t, id);
      }
      forall k: nat | Live(t, k) && t.subs[k].id == id ensures Newest(t.subs, k) {
        assert Live(s, k);
      }
    }
  }

  lemma {:induction false} NoSubmitKeepsOneOnItsWay(s: State, run: seq<Action>, id: string)
    requires Inv(s) && OneOnItsWay(s, id) && NoSubmit(run) && Exec(s, run).Some?
    ensures OneOnItsWay(Exec(s, run).value, id)
  {
    if run != [] {
      var front := run[..|run| - 1];
      NoSubmitKeepsOneOnItsWay(s, front, id);
      RunKeepsInv(s, front);
      StepKeepsOneOnItsWay(Exec(s, front).value, run[|run| - 1], id);
    }
  }

  // A Submit keeps all publishes of its instance in submission order exactly when they were in
  // order so far and the Submit replaces what is still on its way.
  lemma SubmitKeepsOrderIff(s: State, id: string, event: StatusEvent)
    requires Inv(s) && !s.stopped
    ensures StaysOrdered(Apply(s, Submit(id, event)), id) <==> OrderedFor(s, id) && OnlyMappedIsLive(s, id)
  {
    var n, t := |s.subs|, Apply(s, Submit(id, event));
    UnchangedLogOrder(s, t, id);
    assert Exec(t, []) == Some(t) && NoSubmit([]);
    if OrderedFor(s, id) && OnlyMappedIsLive(s, id) {
      SubmitKeepsInv(s, id, event);
      MappedIsNewest(s, id);
      SubmitKeepsOneOnItsWay(s, id, event, id);
      forall run | NoSubmit(run) && Exec(t, run).Some? ensures OrderedFor(Exec(t, run).value, id) {
        NoSubmitKeepsOneOnItsWay(t, run, id);
      }
    } else if OrderedFor(s, id) {
      var k := StrayStaysLive(s, id, event);
      var run := Overtakes(t, k, n);
      var v, m := Exec(t, run).value, |s.log|;
      assert v.log[m] == n && v.log[m + 1] == k && v.subs[n].id == v.subs[k].id == id;
    }
  }

  // ---- Two runs that break the promise ----

  lemma Step(run: seq<Action>, s: State, a: Action) returns (longer: seq<Action>, t: State)
    requires Exec(INIT, run) == Some(s) && Enabled(s, a)
    ensures longer == run + [a] && t == Apply(s, a) && Exec(INIT, longer) == Some(t)
  {
    ExecPush(INIT, run, a);
    longer, t := run + [a], Apply(s, a);
  }

  // A concrete run whose last publish for an instance is not its newest submission: submission 0
  // is counted but not yet published when submission 1 replaces it.
  lemma StalePublishCanComeLast(first: StatusEvent, second: StatusEvent)
    ensures exists run :: Exec(INIT, run).Some? &&
              var s := Exec(INIT, run).value;
              s.log == [1, 0] && s.subs == [Submission("a", first), Submission("a", second)] && Quiescent(s)
  {
    var run, s := Step([], INIT, Submit("a", first));
    run, s := Step(run, s, Fire(0));
    run, s := Step(run, s, Lock(0));
    run, s := Step(run, s, Submit("a", second));
    assert s.phase == [Counted, Armed];
    var late := Overtakes(s, 0, 1);
    ExecConcat(INIT, run, late);
    assert Exec(INIT, run + late) == Exec(s, late);
  }

  // Submission 0 has fired when submission 1 takes its map entry.
  lemma FiredThenReplaced(first: StatusEvent, second: StatusEvent) returns (run: seq<Action>, s: State)
    ensures Exec(INIT, run) == Some(s)
    ensures s == State([Submission("a", first), Submission("a", second)], [Fired, Armed], map["a" := 1],
                       false, 0, [], 0, false)
  {
    run, s := Step([], INIT, Submit("a", first));
    run, s := Step(run, s, Fire(0));
    run, s := Step(run, s, Submit("a", second));
  }

  // The callback of submission 0 then deletes the entry of submission 1 and runs to its end.
  lemma OrphanRun(first: StatusEvent, second: StatusEvent) returns (s: State)
    ensures Reachable(s) && !s.stopped && s.phase == [Finished, Armed] && s.timers == map[]
    ensures s.subs == [Submission("a", first), Submission("a", second)] && s.log == [0]
  {
    var run: seq<Action>;
    run, s := FiredThenReplaced(first, second);
    run, s := Step(run, s, Lock(0));
    run, s := Step(run, s, Publish(0));
    run, s := Step(run, s, Return(0));
    run, s := Step(run, s, Done(0));
  }

  // No callback is left between expiry and publish, and yet a third Submit finds no entry, leaves
  // timer 1 running and does not replace its event.
  lemma OrphanIsNotReplaced(first: StatusEvent, second: StatusEvent, third: StatusEvent) returns (s: State)
    ensures Reachable(s) && s.subs == [Submission("a", first), Submission("a", second)]
    ensures Timely(s, Submit("a", third)) && 1 !in s.log
    ensures !Replaces(s, Apply(s, Submit("a", third)), "a", 2)
    ensures !StaysOrdered(Apply(s, Submit("a", third)), "a")
  {
    s := OrphanRun(first, second);
    assert Live(s, 1) && s.subs[1].id == "a" && "a" !in s.timers;
    ReachableInv(s);
    SubmitReplacesIff(s, "a", third);
    SubmitKeepsOrderIff(s, "a", third);
  }
}
