/**
 The status pipeline converges: once every notification is handled, the newest submission of an
 instance is the verdict on what is left of it, and the debouncer publishes that submission.
 */
module Convergence {
  import opened Wrappers
  import opened StatusEvents
  import opened KubeObjects
  import opened Dcm
  import opened Reconcile
  import opened Monitor
  import P = DebouncerProtocol
  import R = DebouncerRuns

  lemma NotedPush(notes: seq<Notification>, n: Notification, id: string)
    ensures NotedIn(notes + [n], id) <==> NotedIn(notes, id) || NoteID(n) == id
  {
    var all := notes + [n];
    if NotedIn(notes, id) {
      var i :| 0 <= i < |notes| && NoteID(notes[i]) == id;
      assert NoteID(all[i]) == id;
    }
    assert all[|notes|] == n;
  }

  lemma LastForPush(notes: seq<Notification>, n: Notification, i: nat)
    ensures LastFor(notes + [n], i) <==>
            i == |notes| || (LastFor(notes, i) && NoteID(notes[i]) != NoteID(n))
  {
    var all := notes + [n];
    assert all[|notes|] == n;
    assert forall j :: 0 <= j < |notes| ==> all[j] == notes[j];
  }

  lemma NotedPop(notes: seq<Notification>, id: string)
    requires notes != []
    ensures NotedIn(notes, id) <==> NoteID(notes[0]) == id || NotedIn(notes[1..], id)
  {
    if i :| 1 <= i < |notes| && NoteID(notes[i]) == id {
      assert notes[1..][i - 1] == notes[i];
    }
  }

  lemma LastForPop(notes: seq<Notification>, i: nat)
    requires notes != []
    ensures LastFor(notes[1..], i) <==> LastFor(notes, i + 1)
  {
    if LastFor(notes[1..], i) {
      forall j | i + 1 < j < |notes| ensures NoteID(notes[j]) != NoteID(notes[i + 1]) {
        assert notes[1..][j - 1] == notes[j];
      }
    }
  }

  lemma SubmittedKeepsInv(c: P.State, id: string, v: Option<Verdict>)
    requires P.Inv(c)
    ensures P.Inv(Submitted(c, id, v)) && Submitted(c, id, v).stopped == c.stopped
  {
    if id != "" && v.Some? {
      P.SubmitKeepsInv(c, id, EventOf(id, v.value));
    }
  }

  lemma SubmittedKeepsOthers(c: P.State, id: string, v: Option<Verdict>, other: string, w: Verdict)
    requires other != id && LastSubmitted(c, other, w)
    ensures LastSubmitted(Submitted(c, id, v), other, w)
  {
    if Accepts(c, id, v) {
      var k: nat :| P.Newest(c.subs, k) && c.subs[k] == P.Submission(other, StatusEvent(other, w.status, w.message));
      P.NewestAfterPush(c.subs, P.Submission(id, EventOf(id, v.value)), k);
    }
  }

  lemma SubmittedIsLast(c: P.State, id: string, v: Verdict)
    requires id != "" && !c.stopped
    ensures LastSubmitted(Submitted(c, id, Some(v)), id, v)
  {
    P.NewestAfterPush(c.subs, P.Submission(id, EventOf(id, v)), |c.subs|);
  }

  lemma HandledKeepsTold(s: System, n: Notification, x: Subject)
    requires ToldInv(s)
    ensures ToldInv(HandledNote(s, n, x))
  {
    var t, id := HandledNote(s, n, x), NoteID(n);
    forall other | other in t.told
      ensures VerdictOn(t.told[other]).Some? && LastSubmitted(t.core, other, VerdictOn(t.told[other]).value)
    {
      if other == id && Accepts(s.core, id, VerdictOn(x)) {
        SubmittedIsLast(s.core, id, VerdictOn(x).value);
      } else if other != id {
        SubmittedKeepsOthers(s.core, id, VerdictOn(x), other, VerdictOn(s.told[other]).value);
      }
    }
  }

  // A note handled for an instance with cached Pods tells of a Pod, if it tells anything.
  lemma HandledKeepsPodsTold(s: System, u: System, n: Notification, x: Subject)
    requires PodsToldInv(s) && u.pods == s.pods && u.told == s.told && u.core == s.core
    requires forall m :: m in s.podNotes ==> m in u.podNotes || m == n
    requires (exists m :: m in s.pods && InstanceID(s.pods[m].labels) == NoteID(n)) ==> x.pod.Some?
    requires n.PodChanged? ==> x.pod == Some(n.pod)
    ensures PodsToldInv(HandledNote(u, n, x))
  {
    var t := HandledNote(u, n, x);
    if !t.core.stopped {
      forall m | m in t.pods ensures PodIsTold(t, m) {
        assert PodIsTold(s, m);
      }
    }
  }

  // ---- What one instance's convergence depends on ----

  ghost predicate SameDeploys(s: System, t: System, id: string) {
    forall n :: (n in s.deploys && InstanceID(s.deploys[n].labels) == id)
                || (n in t.deploys && InstanceID(t.deploys[n].labels) == id)
                ==> n in s.deploys && n in t.deploys && s.deploys[n] == t.deploys[n]
  }

  ghost predicate SamePods(s: System, t: System, id: string) {
    forall n :: (n in s.pods && InstanceID(s.pods[n].labels) == id)
                || (n in t.pods && InstanceID(t.pods[n].labels) == id)
                ==> n in s.pods && n in t.pods && s.pods[n] == t.pods[n]
  }

  ghost predicate SameHandled(s: System, t: System, id: string) {
    && (id in s.handled <==> id in t.handled)
    && (id in s.handled ==> s.handled[id] == t.handled[id])
    && (id in s.told <==> id in t.told)
    && (id in s.told ==> s.told[id] == t.told[id])
  }

  lemma DeployFrame(s: System, t: System, id: string, d: Option<Deployment>)
    requires SameDeploys(s, t, id) && IsDeploy(s, id, d)
    ensures IsDeploy(t, id, d)
  {
  }

  lemma PodFrame(s: System, t: System, id: string, p: Option<Pod>)
    requires SamePods(s, t, id) && SameHandled(s, t, id) && SpeaksFor(s, id, p)
    ensures SpeaksFor(t, id, p)
  {
  }

  lemma StaysConverged(s: System, t: System, id: string)
    requires Converged(s, id) && SameDeploys(s, t, id) && SamePods(s, t, id) && SameHandled(s, t, id)
    ensures Converged(t, id)
  {
    var x :| ConvergedOn(s, id, x);
    DeployFrame(s, t, id, x.deploy);
    PodFrame(s, t, id, x.pod);
    assert ConvergedOn(t, id, x);
  }

  // ---- The queues ----

  lemma DeployNotesPushed(s: System, t: System, n: Notification)
    requires DeployNotesInv(s) && t.deployNotes == s.deployNotes + [n] && DeployNoteTells(t, n)
    requires forall id :: id != NoteID(n) ==> SameDeploys(s, t, id)
    ensures DeployNotesInv(t)
  {
    forall i: nat | LastFor(t.deployNotes, i) ensures DeployNoteTells(t, t.deployNotes[i]) {
      LastForPush(s.deployNotes, n, i);
      if i < |s.deployNotes| {
        assert SameDeploys(s, t, NoteID(s.deployNotes[i]));
      }
    }
  }

  lemma PodNotesPushed(s: System, t: System, n: Notification)
    requires PodNotesInv(s) && t.podNotes == s.podNotes + [n] && PodNoteTells(t, n)
    requires forall id :: id != NoteID(n) ==> SamePods(s, t, id)
    ensures PodNotesInv(t)
  {
    forall i: nat | LastFor(t.podNotes, i) ensures PodNoteTells(t, t.podNotes[i]) {
      LastForPush(s.podNotes, n, i);
      if i < |s.podNotes| {
        assert SamePods(s, t, NoteID(s.podNotes[i]));
      }
    }
  }

  lemma DeployNotesPopped(s: System, t: System)
    requires DeployNotesInv(s) && s.deployNotes != []
    requires t.deployNotes == s.deployNotes[1..] && t.deploys == s.deploys
    ensures DeployNotesInv(t)
  {
    forall i: nat | LastFor(t.deployNotes, i) ensures DeployNoteTells(t, t.deployNotes[i]) {
      LastForPop(s.deployNotes, i);
      assert DeployNoteTells(s, s.deployNotes[i + 1]);
    }
  }

  lemma PodNotesPopped(s: System, t: System)
    requires PodNotesInv(s) && s.podNotes != []
    requires t.podNotes == s.podNotes[1..] && t.pods == s.pods
    ensures PodNotesInv(t)
  {
    forall i: nat | LastFor(t.podNotes, i) ensures PodNoteTells(t, t.podNotes[i]) {
      LastForPop(s.podNotes, i);
      assert PodNoteTells(s, s.podNotes[i + 1]);
    }
  }

  lemma DeployNotesKept(s: System, t: System)
    requires DeployNotesInv(s) && t.deploys == s.deploys && t.deployNotes == s.deployNotes
    ensures DeployNotesInv(t)
  {
    forall i: nat | LastFor(t.deployNotes, i) ensures DeployNoteTells(t, t.deployNotes[i]) {
      assert DeployNoteTells(s, s.deployNotes[i]);
    }
  }

  lemma PodNotesKept(s: System, t: System)
    requires PodNotesInv(s) && t.pods == s.pods && t.podNotes == s.podNotes
    ensures PodNotesInv(t)
  {
    forall i: nat | LastFor(t.podNotes, i) ensures PodNoteTells(t, t.podNotes[i]) {
      assert PodNoteTells(s, s.podNotes[i]);
    }
  }

  lemma HeadIsLast(notes: seq<Notification>)
    requires notes != [] && !NotedIn(notes[1..], NoteID(notes[0]))
    ensures LastFor(notes, 0)
  {
    forall j | 0 < j < |notes| ensures NoteID(notes[j]) != NoteID(notes[0]) {
      assert notes[1..][j - 1] == notes[j];
    }
  }

  // ---- Every step keeps the invariant ----

  // A change of the caches leaves alone what is settled.
  lemma CachesChanged(s: System, t: System, n: Notification)
    requires Inv(s) && t.core == s.core && t.handled == s.handled && t.told == s.told && t.noted == s.noted + {NoteID(n)}
    requires (t.deployNotes == s.deployNotes + [n] && t.podNotes == s.podNotes)
             || (t.podNotes == s.podNotes + [n] && t.deployNotes == s.deployNotes)
    requires forall id :: id != NoteID(n) ==> SameDeploys(s, t, id) && SamePods(s, t, id)
    ensures forall id :: Settled(t, id) ==> Converged(t, id)
  {
    forall id | Settled(t, id) ensures Converged(t, id) {
      NotedPush(s.deployNotes, n, id);
      NotedPush(s.podNotes, n, id);
      assert Settled(s, id);
      assert SameDeploys(s, t, id) && SamePods(s, t, id);
      StaysConverged(s, t, id);
    }
  }

  lemma PodsStayTold(s: System, t: System)
    requires PodsToldInv(s) && t.core.stopped == s.core.stopped && t.told == s.told
    requires s.podNotes <= t.podNotes
    requires forall n :: n in t.pods ==> (n in s.pods && s.pods[n] == t.pods[n]) || PodChanged(t.pods[n]) in t.podNotes
    ensures PodsToldInv(t)
  {
    if !t.core.stopped {
      forall n | n in t.pods ensures PodIsTold(t, n) {
        if n in s.pods {
          assert PodIsTold(s, n);
        }
      }
    }
  }

  lemma DeployUpsertKeepsCaches(s: System, d: Deployment)
    requires CacheInv(s) && Enabled(s, DeployUpsert(d))
    ensures CacheInv(Apply(s, DeployUpsert(d)))
  {
  }

  lemma DeployUpsertFrame(s: System, d: Deployment, id: string)
    requires CacheInv(s) && Enabled(s, DeployUpsert(d)) && id != InstanceID(d.labels)
    ensures SameDeploys(s, Apply(s, DeployUpsert(d)), id)
  {
  }

  lemma PodUpsertKeepsCaches(s: System, p: Pod)
    requires CacheInv(s) && Enabled(s, PodUpsert(p))
    ensures CacheInv(Apply(s, PodUpsert(p)))
  {
  }

  lemma PodUpsertStaysTold(s: System, p: Pod)
    requires PodsToldInv(s) && Enabled(s, PodUpsert(p))
    ensures PodsToldInv(Apply(s, PodUpsert(p)))
  {
    var t := Apply(s, PodUpsert(p));
    assert t.podNotes[|s.podNotes|] == PodChanged(p);
    PodsStayTold(s, t);
  }

  lemma PodUpsertFrame(s: System, p: Pod, id: string)
    requires CacheInv(s) && Enabled(s, PodUpsert(p)) && id != InstanceID(p.labels)
    ensures SamePods(s, Apply(s, PodUpsert(p)), id)
  {
  }

  lemma DeployUpsertKeepsInv(s: System, d: Deployment)
    requires Inv(s) && Enabled(s, DeployUpsert(d))
    ensures Inv(Apply(s, DeployUpsert(d)))
  {
    var t := Apply(s, DeployUpsert(d));
    DeployUpsertKeepsCaches(s, d);
    forall id | id != InstanceID(d.labels) ensures SameDeploys(s, t, id) { DeployUpsertFrame(s, d, id); }
    DeployNotesPushed(s, t, DeployChanged(d));
    PodNotesKept(s, t);
    PodsStayTold(s, t);
    CachesChanged(s, t, DeployChanged(d));
  }

  lemma DeployDeleteKeepsInv(s: System, name: string)
    requires Inv(s) && Enabled(s, DeployDelete(name))
    ensures Inv(Apply(s, DeployDelete(name)))
  {
    var t := Apply(s, DeployDelete(name));
    DeployNotesPushed(s, t, DeployRemoved(s.deploys[name]));
    PodNotesKept(s, t);
    PodsStayTold(s, t);
    CachesChanged(s, t, DeployRemoved(s.deploys[name]));
  }

  lemma PodUpsertKeepsInv(s: System, p: Pod)
    requires Inv(s) && Enabled(s, PodUpsert(p))
    ensures Inv(Apply(s, PodUpsert(p)))
  {
    var t := Apply(s, PodUpsert(p));
    PodUpsertKeepsCaches(s, p);
    forall id | id != InstanceID(p.labels) ensures SamePods(s, t, id) { PodUpsertFrame(s, p, id); }
    PodNotesPushed(s, t, PodChanged(p));
    DeployNotesKept(s, t);
    PodUpsertStaysTold(s, p);
    CachesChanged(s, t, PodChanged(p));
  }

  lemma PodDeleteKeepsInv(s: System, name: string)
    requires Inv(s) && Enabled(s, PodDelete(name))
    ensures Inv(Apply(s, PodDelete(name)))
  {
    var t := Apply(s, PodDelete(name));
    PodNotesPushed(s, t, PodRemoved(s.pods[name]));
    DeployNotesKept(s, t);
    PodsStayTold(s, t);
    CachesChanged(s, t, PodRemoved(s.pods[name]));
  }

  lemma WorstIsWorst(s: System, id: string, items: seq<Pod>)
    requires CacheInv(s) && ListsPods(items, s.pods, id)
    ensures IsWorstPod(s, id, WorstPod(items))
  {
    WorstPodIsWorst(items);
    forall n | n in s.pods && InstanceID(s.pods[n].labels) == id ensures s.pods[n] in items {
      assert s.pods[n].name == n;
    }
  }

  lemma FirstIsDeploy(s: System, id: string, items: seq<Deployment>)
    requires CacheInv(s) && ListsDeploys(items, s.deploys, id)
    ensures IsDeploy(s, id, FirstDeploy(items))
  {
    if items == [] {
      forall n | n in s.deploys ensures InstanceID(s.deploys[n].labels) != id {
        assert s.deploys[n] !in items;
      }
    } else {
      assert items[0] in items;
    }
  }

  // Handling the last notification of an instance settles it.
  lemma HandledConverges(s: System, n: Notification, x: Subject)
    requires !s.core.stopped && NoteID(n) != "" && IsDeploy(s, NoteID(n), x.deploy)
    requires match n case PodChanged(p) => x.pod == Some(p) && IsPod(s, NoteID(n), x.pod)
                     case _ => IsWorstPod(s, NoteID(n), x.pod)
    ensures Converged(HandledNote(s, n, x), NoteID(n))
  {
    assert ConvergedOn(HandledNote(s, n, x), NoteID(n), x);
  }

  lemma OtherStaysConverged(s: System, u: System, n: Notification, x: Subject, other: string)
    requires Converged(s, other) && other != NoteID(n)
    requires u.deploys == s.deploys && u.pods == s.pods && u.handled == s.handled && u.told == s.told
    ensures Converged(HandledNote(u, n, x), other)
  {
    StaysConverged(s, HandledNote(u, n, x), other);
  }

  lemma DeployNoteConverges(s: System, u: System, items: seq<Pod>)
    requires Inv(s) && Enabled(s, HandleDeployNote(items)) && u == s.(deployNotes := s.deployNotes[1..])
    requires NoteID(s.deployNotes[0]) != "" && !NotedIn(u.deployNotes, NoteID(s.deployNotes[0])) && !s.core.stopped
    ensures Converged(Apply(s, HandleDeployNote(items)), NoteID(s.deployNotes[0]))
  {
    var n := s.deployNotes[0];
    HeadIsLast(s.deployNotes);
    assert DeployNoteTells(s, n);
    WorstIsWorst(s, NoteID(n), items);
    HandledConverges(u, n, SubjectOf(n, [], items));
  }

  lemma PodNoteConverges(s: System, u: System, deploys: seq<Deployment>, items: seq<Pod>)
    requires Inv(s) && Enabled(s, HandlePodNote(deploys, items)) && u == s.(podNotes := s.podNotes[1..])
    requires NoteID(s.podNotes[0]) != "" && !NotedIn(u.podNotes, NoteID(s.podNotes[0])) && !s.core.stopped
    ensures Converged(Apply(s, HandlePodNote(deploys, items)), NoteID(s.podNotes[0]))
  {
    var n := s.podNotes[0];
    HeadIsLast(s.podNotes);
    assert PodNoteTells(s, n);
    WorstIsWorst(s, NoteID(n), items);
    FirstIsDeploy(s, NoteID(n), deploys);
    HandledConverges(u, n, SubjectOf(n, deploys, items));
  }

  lemma ListedIfCached(s: System, id: string, items: seq<Pod>)
    requires CacheInv(s) && ListsPods(items, s.pods, id)
    ensures (exists m :: m in s.pods && InstanceID(s.pods[m].labels) == id) ==> WorstPod(items).Some?
  {
    WorstPodIsWorst(items);
    if m :| m in s.pods && InstanceID(s.pods[m].labels) == id {
      assert s.pods[m] in items;
    }
  }

  lemma HandleDeployKeepsInv(s: System, items: seq<Pod>)
    requires Inv(s) && Enabled(s, HandleDeployNote(items))
    ensures Inv(Apply(s, HandleDeployNote(items)))
  {
    var t, u := Apply(s, HandleDeployNote(items)), s.(deployNotes := s.deployNotes[1..]);
    var n := s.deployNotes[0];
    var x := SubjectOf(n, [], items);
    SubmittedKeepsInv(s.core, NoteID(n), VerdictOn(x));
    DeployNotesPopped(s, t);
    PodNotesKept(s, t);
    HandledKeepsTold(u, n, x);
    ListedIfCached(s, NoteID(n), items);
    HandledKeepsPodsTold(s, u, n, x);
    forall id | Settled(t, id) ensures Converged(t, id) {
      NotedPop(s.deployNotes, id);
      if id == NoteID(n) {
        DeployNoteConverges(s, u, items);
      } else {
        assert Settled(s, id);
        OtherStaysConverged(s, u, n, x, id);
      }
    }
  }

  lemma HandlePodKeepsInv(s: System, deploys: seq<Deployment>, items: seq<Pod>)
    requires Inv(s) && Enabled(s, HandlePodNote(deploys, items))
    ensures Inv(Apply(s, HandlePodNote(deploys, items)))
  {
    var t, u := Apply(s, HandlePodNote(deploys, items)), s.(podNotes := s.podNotes[1..]);
    var n := s.podNotes[0];
    var x := SubjectOf(n, deploys, items);
    SubmittedKeepsInv(s.core, NoteID(n), VerdictOn(x));
    PodNotesPopped(s, t);
    DeployNotesKept(s, t);
    HandledKeepsTold(u, n, x);
    ListedIfCached(s, NoteID(n), items);
    HandledKeepsPodsTold(s, u, n, x);
    forall id | Settled(t, id) ensures Converged(t, id) {
      NotedPop(s.podNotes, id);
      if id == NoteID(n) {
        PodNoteConverges(s, u, deploys, items);
      } else {
        assert Settled(s, id);
        OtherStaysConverged(s, u, n, x, id);
      }
    }
  }

  lemma DebounceKeepsInv(s: System, step: P.Action)
    requires Inv(s) && Enabled(s, Debounce(step))
    ensures Inv(Apply(s, Debounce(step)))
  {
    P.StepKeepsInv(s.core, step);
    var t := Apply(s, Debounce(step));
    assert t.core.subs == s.core.subs && (s.core.stopped ==> t.core.stopped);
    PodNotesKept(s, t);
    DeployNotesKept(s, t);
    if !t.core.stopped { PodsStayTold(s, t); }
    forall id | Settled(t, id) ensures Converged(t, id) {
      assert Settled(s, id);
      StaysConverged(s, t, id);
    }
  }

  lemma {:induction false} EveryRunKeepsInv(run: seq<Action>)
    requires After(run).Some?
    ensures Inv(After(run).value)
  {
    if run != [] {
      var front := run[..|run| - 1];
      EveryRunKeepsInv(front);
      var s := After(front).value;
      match run[|run| - 1]
      case DeployUpsert(d) => DeployUpsertKeepsInv(s, d);
      case DeployDelete(name) => DeployDeleteKeepsInv(s, name);
      case PodUpsert(p) => PodUpsertKeepsInv(s, p);
      case PodDelete(name) => PodDeleteKeepsInv(s, name);
      case HandleDeployNote(items) => HandleDeployKeepsInv(s, items);
      case HandlePodNote(deploys, items) => HandlePodKeepsInv(s, deploys, items);
      case Debounce(step) => DebounceKeepsInv(s, step);
    }
  }

  ghost predicate AtMostOnePod(s: System, id: string) {
    forall m, n :: m in s.pods && n in s.pods && m != n ==>
      InstanceID(s.pods[m].labels) != id || InstanceID(s.pods[n].labels) != id
  }

  // The newest submission of the instance, and that a quiescent debouncer has published it.
  ghost predicate NewestIs(c: P.State, id: string, v: Verdict) {
    exists k: nat :: P.Newest(c.subs, k) && c.subs[k] == P.Submission(id, StatusEvent(id, v.status, v.message))
                     && (R.Quiescent(c) ==> k in c.log)
  }

  lemma ToldIsNewest(s: System, id: string)
    requires P.Inv(s.core) && ToldInv(s) && !s.core.stopped && id in s.told
    ensures NewestIs(s.core, id, VerdictOn(s.told[id]).value)
  {
    var c, v := s.core, VerdictOn(s.told[id]).value;
    var k: nat :| P.Newest(c.subs, k) && c.subs[k] == P.Submission(id, StatusEvent(id, v.status, v.message));
    assert R.Quiescent(c) ==> k in c.log;
  }

  lemma NewestIsTold(s: System, id: string, v: Verdict)
    requires ToldInv(s) && NewestIs(s.core, id, v)
    ensures id in s.told && v == VerdictOn(s.told[id]).value
  {
    var c := s.core;
    var k: nat :| P.Newest(c.subs, k) && c.subs[k] == P.Submission(id, StatusEvent(id, v.status, v.message));
    assert c.subs[k].id in s.told;
    var w := VerdictOn(s.told[id]).value;
    var j: nat :| P.Newest(c.subs, j) && c.subs[j] == P.Submission(id, StatusEvent(id, w.status, w.message));
    assert j == k;
  }

  lemma OneDeploy(s: System, id: string, d: Option<Deployment>, e: Option<Deployment>)
    requires CacheInv(s) && IsDeploy(s, id, d) && IsDeploy(s, id, e)
    ensures d == e
  {
  }

  lemma OnePod(s: System, id: string, p: Option<Pod>, q: Option<Pod>)
    requires CacheInv(s) && AtMostOnePod(s, id) && IsPod(s, id, p) && IsPod(s, id, q)
    ensures p == q
  {
  }

  lemma SettledMeans(run: seq<Action>, id: string) returns (x: Subject)
    requires After(run).Some? && Settled(After(run).value, id)
    ensures Inv(After(run).value) && ConvergedOn(After(run).value, id, x) && IsPod(After(run).value, id, x.pod)
  {
    EveryRunKeepsInv(run);
    var s := After(run).value;
    assert Converged(s, id);
    x :| ConvergedOn(s, id, x);
  }

  // With at most one surviving Pod, and a verdict to be published on it and the Deployment, the
  // newest submission of every notified instance is that verdict. Once the debouncer is quiescent
  // that submission has been published.
  lemma MonitorConverges(run: seq<Action>, id: string, d: Option<Deployment>, p: Option<Pod>)
    requires After(run).Some?
    requires var s := After(run).value;
             Settled(s, id) && AtMostOnePod(s, id) && IsDeploy(s, id, d) && IsPod(s, id, p)
             && ReconcileStatus(d, p).Some?
    ensures NewestIs(After(run).value.core, id, ReconcileStatus(d, p).value)
    ensures Tells(ReconcileStatus(d, p).value.status, ReconcileStatus(d, p).value.message, d, p)
  {
    VerdictTells(d, p);
    var s := After(run).value;
    var x := SettledMeans(run, id);
    OneDeploy(s, id, d, x.deploy);
    OnePod(s, id, p, x.pod);
    ToldIsNewest(s, id);
  }

  // With several surviving Pods the same holds of the status when all of them are in one phase.
  lemma MonitorConvergesOnPhase(run: seq<Action>, id: string, status: Status)
    requires After(run).Some?
    requires var s := After(run).value;
             Settled(s, id)
             && (exists n :: n in s.pods && InstanceID(s.pods[n].labels) == id)
             && (forall n :: n in s.pods && InstanceID(s.pods[n].labels) == id ==>
                   MapPodPhaseToStatus(s.pods[n].phase) == Some(status))
    ensures exists v: Verdict :: v.status == status && NewestIs(After(run).value.core, id, v)
  {
    var x := SettledMeans(run, id);
    ToldIsNewest(After(run).value, id);
  }

  // ---- Whether the worst Pod is reported ----

  // The newest submission is about a Pod of the given priority.
  predicate TellsPriority(s: System, id: string, priority: nat) {
    id in s.told && s.told[id].pod.Some? && PodPhasePriority(s.told[id].pod.value.phase) == priority
  }

  lemma ToldStatus(x: Subject)
    requires VerdictOn(x).Some? && x.pod.Some?
    ensures Some(VerdictOn(x).value.status) == StatusOfPriority(PodPhasePriority(x.pod.value.phase))
    ensures 1 <= PodPhasePriority(x.pod.value.phase) <= 4
  {
  }

  lemma HighestPriorityBound(items: seq<Pod>)
    ensures HighestPriority(items) <= 4
  {
    HighestPriorityIs(items);
  }

  // A settled instance with a cached Pod in a phase with a status has told of a Pod.
  lemma SettledToldOfPod(s: System, id: string, items: seq<Pod>)
    requires PodsToldInv(s) && Settled(s, id) && ListsPods(items, s.pods, id) && MostSevere(items).Some?
    ensures id in s.told && s.told[id].pod.Some?
  {
    var phase := if SomePodIn(items, Failed) then Failed else if SomePodIn(items, PhaseUnknown) then PhaseUnknown
                 else if SomePodIn(items, Pending) then Pending else Running;
    var q :| q in items && q.phase == phase;
    assert PodIsTold(s, q.name);
    assert PodChanged(q) !in s.podNotes by {
      assert NoteID(PodChanged(q)) == id;
    }
  }

  // The status a newest submission reports, by the priority of the Pod it is about.
  lemma NewestReports(s: System, id: string, items: seq<Pod>, v: Verdict)
    requires ToldInv(s) && PodsToldInv(s) && Settled(s, id) && ListsPods(items, s.pods, id)
    requires NewestIs(s.core, id, v) && Some(v.status) == MostSevere(items)
    ensures TellsPriority(s, id, HighestPriority(items))
  {
    NewestIsTold(s, id, v);
    SettledToldOfPod(s, id, items);
    MostSevereHasHighestPriority(items);
    HighestPriorityBound(items);
    ToldStatus(s.told[id]);
  }

  lemma TellsReports(s: System, id: string, items: seq<Pod>)
    requires P.Inv(s.core) && ToldInv(s) && !s.core.stopped && TellsPriority(s, id, HighestPriority(items))
    ensures exists v: Verdict :: NewestIs(s.core, id, v) && Some(v.status) == MostSevere(items)
  {
    ToldIsNewest(s, id);
    ToldStatus(s.told[id]);
    MostSevereHasHighestPriority(items);
  }

  // In every settled state, whatever the Pods, the newest submission reports the most severe status
  // among them exactly when the Pod it is about had the highest priority among them. That Pod may
  // have changed since, or be gone, when no later notification had a verdict to be published.
  lemma SettledReportsWorstIff(run: seq<Action>, id: string, items: seq<Pod>)
    requires After(run).Some? && Settled(After(run).value, id)
    requires ListsPods(items, After(run).value.pods, id)
    ensures var s := After(run).value;
            (exists v: Verdict :: NewestIs(s.core, id, v) && Some(v.status) == MostSevere(items))
            <==> TellsPriority(s, id, HighestPriority(items))
  {
    var s := After(run).value;
    EveryRunKeepsInv(run);
    if v: Verdict :| NewestIs(s.core, id, v) && Some(v.status) == MostSevere(items) {
      NewestReports(s, id, items, v);
    }
    if TellsPriority(s, id, HighestPriority(items)) {
      TellsReports(s, id, items);
    }
  }

  // The last notification handled was a change of a Pod in a phase without a status.
  predicate LastWasSilent(s: System, id: string) {
    id in s.handled && s.handled[id].PodChanged? && MapPodPhaseToStatus(s.handled[id].pod.phase).None?
  }

  // When the last notification handled was not silent, it alone decides: the worst Pod is reported
  // exactly when it was not a change of a Pod below the highest priority.
  lemma LastHandledDecides(run: seq<Action>, id: string, items: seq<Pod>)
    requires After(run).Some? && Settled(After(run).value, id) && !LastWasSilent(After(run).value, id)
    requires ListsPods(items, After(run).value.pods, id) && MostSevere(items).Some?
    ensures var s := After(run).value;
            id in s.handled
            && ((exists v: Verdict :: NewestIs(s.core, id, v) && Some(v.status) == MostSevere(items))
                <==> (s.handled[id].PodChanged? ==>
                        PodPhasePriority(s.handled[id].pod.phase) == HighestPriority(items)))
  {
    var x := SettledMeans(run, id);
    SettledReportsWorstIff(run, id, items);
    LastHandledTells(After(run).value, id, items, x);
  }

  lemma LastHandledTells(s: System, id: string, items: seq<Pod>, x: Subject)
    requires CacheInv(s) && ConvergedOn(s, id, x) && !LastWasSilent(s, id)
    requires ListsPods(items, s.pods, id) && MostSevere(items).Some?
    ensures TellsPriority(s, id, HighestPriority(items))
            <==> (s.handled[id].PodChanged? ==>
                    PodPhasePriority(s.handled[id].pod.phase) == HighestPriority(items))
  {
    SpokenForIsListed(s, id, items, x.pod);
  }

  lemma SpokenForIsListed(s: System, id: string, items: seq<Pod>, p: Option<Pod>)
    requires CacheInv(s) && ListsPods(items, s.pods, id) && MostSevere(items).Some? && SpeaksFor(s, id, p)
    ensures p.Some? && p.value in items
    ensures !s.handled[id].PodChanged? ==>
              PodPhasePriority(p.value.phase) == HighestPriority(items) && HighestPriority(items) > 0
  {
    MostSevereHasHighestPriority(items);
    HighestPriorityIs(items);
    assert items != [] && items[0] in items;
  }

  // ---- The last event published ----

  // The step submits an event for the instance.
  ghost predicate SubmitsFor(s: System, a: Action, id: string)
    requires Enabled(s, a)
  {
    match a
    case HandleDeployNote(items) =>
      NoteID(s.deployNotes[0]) == id && Accepts(s.core, id, Handled(s.deployNotes[0], [], items))
    case HandlePodNote(deploys, items) =>
      NoteID(s.podNotes[0]) == id && Accepts(s.core, id, Handled(s.podNotes[0], deploys, items))
    case _ => false
  }

  // Every submission of the instance finds at most the running timer that the map holds.
  ghost predicate AlwaysReplaces(run: seq<Action>, id: string) {
    run == [] ||
    (var front, a := run[..|run| - 1], run[|run| - 1];
     && AlwaysReplaces(front, id)
     && (After(front).Some? && Enabled(After(front).value, a) && SubmitsFor(After(front).value, a, id) ==>
           R.OnlyMappedIsLive(After(front).value.core, id)))
  }

  lemma SubmittedKeepsOneOnItsWay(c: P.State, note: string, v: Option<Verdict>, id: string)
    requires P.Inv(c) && R.OneOnItsWay(c, id)
    requires note == id && Accepts(c, id, v) ==> R.OnlyMappedIsLive(c, id)
    ensures R.OneOnItsWay(Submitted(c, note, v), id)
  {
    if Accepts(c, note, v) {
      R.SubmitKeepsOneOnItsWay(c, note, EventOf(note, v.value), id);
    }
  }

  lemma StepKeepsOneOnItsWay(s: System, a: Action, id: string)
    requires Inv(s) && Enabled(s, a) && R.OneOnItsWay(s.core, id)
    requires SubmitsFor(s, a, id) ==> R.OnlyMappedIsLive(s.core, id)
    ensures R.OneOnItsWay(Apply(s, a).core, id)
  {
    match a
    case HandleDeployNote(items) =>
      SubmittedKeepsOneOnItsWay(s.core, NoteID(s.deployNotes[0]), Handled(s.deployNotes[0], [], items), id);
    case HandlePodNote(deploys, items) =>
      SubmittedKeepsOneOnItsWay(s.core, NoteID(s.podNotes[0]), Handled(s.podNotes[0], deploys, items), id);
    case Debounce(step) => R.StepKeepsOneOnItsWay(s.core, step, id);
    case _ =>
  }

  lemma {:induction false} RunKeepsOneOnItsWay(run: seq<Action>, id: string)
    requires After(run).Some? && AlwaysReplaces(run, id)
    ensures R.OneOnItsWay(After(run).value.core, id)
  {
    if run != [] {
      var front := run[..|run| - 1];
      RunKeepsOneOnItsWay(front, id);
      EveryRunKeepsInv(front);
      StepKeepsOneOnItsWay(After(front).value, run[|run| - 1], id);
    }
  }

  ghost predicate LastPublishedIs(c: P.State, id: string, v: Verdict) {
    exists i: nat :: R.LastOfInstance(c, i) && c.subs[c.log[i]] == P.Submission(id, StatusEvent(id, v.status, v.message))
  }

  lemma NewestIsLastPublished(c: P.State, id: string, v: Verdict)
    requires P.Inv(c) && R.OrderedFor(c, id) && R.Quiescent(c) && NewestIs(c, id, v)
    ensures LastPublishedIs(c, id, v)
  {
    var k: nat :| P.Newest(c.subs, k) && c.subs[k] == P.Submission(id, StatusEvent(id, v.status, v.message)) && k in c.log;
    var i :| 0 <= i < |c.log| && c.log[i] == k;
    assert R.LastOfInstance(c, i);
  }

  // The last event published for an instance says what is to be said of a Deployment and a Pod.
  ghost predicate LastEventSays(c: P.State, id: string, x: Subject) {
    exists i: nat :: R.LastOfInstance(c, i) && Says(c.subs[c.log[i]], id, x)
  }

  // The end of the pipeline: when no submission of the instance left an older one on its way, and
  // the debouncer is quiescent, the last event published for a settled instance is the verdict on
  // its final Deployment and Pod.
  lemma LastEventIsFinalVerdict(run: seq<Action>, id: string, d: Option<Deployment>, p: Option<Pod>)
    requires After(run).Some? && AlwaysReplaces(run, id)
    requires var s := After(run).value;
             Settled(s, id) && AtMostOnePod(s, id) && IsDeploy(s, id, d) && IsPod(s, id, p)
             && !Quiet(Subject(d, p)) && R.Quiescent(s.core)
    ensures LastEventSays(After(run).value.core, id, Subject(d, p))
  {
    VerdictTells(d, p);
    MonitorConverges(run, id, d, p);
    EveryRunKeepsInv(run);
    RunKeepsOneOnItsWay(run, id);
    var c, v := After(run).value.core, ReconcileStatus(d, p).value;
    NewestIsLastPublished(c, id, v);
    var i: nat :| R.LastOfInstance(c, i) && c.subs[c.log[i]] == P.Submission(id, StatusEvent(id, v.status, v.message));
    assert Says(c.subs[c.log[i]], id, Subject(d, p));
  }

  ghost predicate NamesInstances(c: P.State) {
    forall k :: 0 <= k < |c.subs| ==> c.subs[k].event.instanceID == c.subs[k].id && c.subs[k].id != ""
  }

  lemma SubmittedNamesInstances(c: P.State, id: string, x: Subject)
    requires NamesInstances(c)
    ensures NamesInstances(Submitted(c, id, VerdictOn(x)))
  {
    SubmittedSays(c, id, x);
    var u := Submitted(c, id, VerdictOn(x));
    assert forall k :: 0 <= k < |c.subs| && |c.subs| < |u.subs| ==> u.subs[k] == u.subs[..|c.subs|][k];
  }

  lemma StepNamesInstances(s: System, a: Action)
    requires Enabled(s, a) && NamesInstances(s.core)
    ensures NamesInstances(Apply(s, a).core)
  {
    match a
    case HandleDeployNote(items) =>
      SubmittedNamesInstances(s.core, NoteID(s.deployNotes[0]), SubjectOf(s.deployNotes[0], [], items));
    case HandlePodNote(deploys, items) =>
      SubmittedNamesInstances(s.core, NoteID(s.podNotes[0]), SubjectOf(s.podNotes[0], deploys, items));
    case Debounce(step) => assert P.Apply(s.core, step).subs == s.core.subs;
    case _ =>
  }

  // Every event submitted names its own instance, which is never the empty one.
  lemma {:induction false} EveryEventNamesItsInstance(run: seq<Action>)
    requires After(run).Some?
    ensures NamesInstances(After(run).value.core)
  {
    if run != [] {
      EveryEventNamesItsInstance(run[..|run| - 1]);
      StepNamesInstances(After(run[..|run| - 1]).value, run[|run| - 1]);
    }
  }

  // ---- No state is stuck ----

  lemma AfterPush(run: seq<Action>, s: System, a: Action) returns (longer: seq<Action>, t: System)
    requires After(run) == Some(s) && Enabled(s, a)
    ensures longer == run + [a] && t == Apply(s, a) && After(longer) == Some(t)
  {
    longer, t := run + [a], Apply(s, a);
    assert longer[..|run|] == run;
  }

  lemma {:induction false} ListedPods(pods: map<string, Pod>, id: string, names: set<string>) returns (items: seq<Pod>)
    requires names <= pods.Keys && forall n :: n in pods ==> pods[n].name == n
    ensures forall p :: p in items <==> p.name in names && pods[p.name] == p && InstanceID(p.labels) == id
    ensures forall i, j :: 0 <= i < j < |items| ==> items[i] != items[j]
    decreases names
  {
    if n :| n in names {
      var rest := ListedPods(pods, id, names - {n});
      items := if InstanceID(pods[n].labels) == id then rest + [pods[n]] else rest;
      assert forall i :: 0 <= i < |rest| ==> rest[i] in rest;
    } else {
      items := [];
    }
  }

  lemma {:induction false} ListedDeploys(deploys: map<string, Deployment>, id: string, names: set<string>)
    returns (items: seq<Deployment>)
    requires names <= deploys.Keys && forall n :: n in deploys ==> deploys[n].name == n
    ensures forall d :: d in items <==> d.name in names && deploys[d.name] == d && InstanceID(d.labels) == id
    ensures forall i, j :: 0 <= i < j < |items| ==> items[i] != items[j]
    decreases names
  {
    if n :| n in names {
      var rest := ListedDeploys(deploys, id, names - {n});
      items := if InstanceID(deploys[n].labels) == id then rest + [deploys[n]] else rest;
      assert forall i :: 0 <= i < |rest| ==> rest[i] in rest;
    } else {
      items := [];
    }
  }

  predicate IsHandler(a: Action) {
    a.HandleDeployNote? || a.HandlePodNote?
  }

  // Whenever a notification is queued, some handler can run.
  lemma NextHandler(s: System) returns (a: Action)
    requires CacheInv(s) && (s.deployNotes != [] || s.podNotes != [])
    ensures Enabled(s, a) && IsHandler(a)
  {
    if s.deployNotes != [] {
      var items := ListedPods(s.pods, NoteID(s.deployNotes[0]), s.pods.Keys);
      a := HandleDeployNote(items);
    } else {
      var items := ListedPods(s.pods, NoteID(s.podNotes[0]), s.pods.Keys);
      var deploys := ListedDeploys(s.deploys, NoteID(s.podNotes[0]), s.deploys.Keys);
      a := HandlePodNote(deploys, items);
    }
  }

  // The handlers alone can empty both queues.
  lemma {:induction false} QueuesCanDrain(run: seq<Action>) returns (longer: seq<Action>, t: System)
    requires After(run).Some?
    ensures After(longer) == Some(t) && t.deployNotes == [] && t.podNotes == [] && run <= longer
    ensures forall i :: |run| <= i < |longer| ==> IsHandler(longer[i])
    ensures t.deploys == After(run).value.deploys && t.pods == After(run).value.pods
    ensures t.noted == After(run).value.noted && t.core.stopped == After(run).value.core.stopped
    decreases |After(run).value.deployNotes| + |After(run).value.podNotes|
  {
    var s := After(run).value;
    EveryRunKeepsInv(run);
    if s.deployNotes == [] && s.podNotes == [] {
      longer, t := run, s;
    } else {
      var a := NextHandler(s);
      var next, u := AfterPush(run, s, a);
      HandlerEffect(s, a);
      longer, t := QueuesCanDrain(next);
    }
  }

  lemma HandlerEffect(s: System, a: Action)
    requires Enabled(s, a) && IsHandler(a)
    ensures var t := Apply(s, a);
            |t.deployNotes| + |t.podNotes| < |s.deployNotes| + |s.podNotes|
            && t.deploys == s.deploys && t.pods == s.pods && t.noted == s.noted && t.core.stopped == s.core.stopped
  {
  }

  // The debouncer's callbacks alone can then publish what was submitted.
  lemma {:induction false} CallbacksLift(run: seq<Action>, steps: seq<P.Action>) returns (longer: seq<Action>, t: System)
    requires After(run).Some? && P.Exec(After(run).value.core, steps).Some?
    requires forall i :: 0 <= i < |steps| ==> R.CallbackStep(steps[i])
    ensures After(longer) == Some(t) && t == After(run).value.(core := P.Exec(After(run).value.core, steps).value)
    decreases |steps|
  {
    if steps == [] {
      longer, t := run, After(run).value;
    } else {
      var n := |steps| - 1;
      longer, t := CallbacksLift(run, steps[..n]);
      longer, t := AfterPush(longer, t, Debounce(steps[n]));
    }
  }

  // From every state before Stop the pipeline can come to rest: every notification handled, every
  // notified instance settled, and everything submitted published.
  lemma PipelineCanSettle(run: seq<Action>) returns (longer: seq<Action>, t: System)
    requires After(run).Some? && !After(run).value.core.stopped
    ensures After(longer) == Some(t) && R.Quiescent(t.core)
    ensures t.deploys == After(run).value.deploys && t.pods == After(run).value.pods
    ensures forall id :: id in After(run).value.noted && id != "" ==> Settled(t, id)
  {
    longer, t := QueuesCanDrain(run);
    EveryRunKeepsInv(longer);
    var steps := R.CallbacksCanFinish(t.core);
    longer, t := CallbacksLift(longer, steps);
  }

  // ---- Runs that show what can go wrong ----

  // Two Pods of one instance, or two states of one Pod, whose changes are still queued.
  lemma TwoChanges(a: Pod, b: Pod) returns (run: seq<Action>, s: System)
    requires a.labels == b.labels
    ensures After(run) == Some(s)
    ensures var id := InstanceID(a.labels);
            s == FRESH.(pods := map[][a.name := a][b.name := b], podNotes := [PodChanged(a), PodChanged(b)],
                        owner := map[][a.name := id][b.name := id], noted := {id})
  {
    run, s := AfterPush([], FRESH, PodUpsert(a));
    run, s := AfterPush(run, s, PodUpsert(b));
  }

  lemma FirstHandled(a: Pod, b: Pod, items: seq<Pod>, run: seq<Action>, s: System) returns (longer: seq<Action>, t: System)
    requires After(run) == Some(s) && s.deploys == map[] && s.podNotes == [PodChanged(a), PodChanged(b)]
    requires a.labels == b.labels && ListsPods(items, s.pods, InstanceID(b.labels))
    requires InstanceID(b.labels) != "" && !s.core.stopped && MapPodPhaseToStatus(a.phase).Some?
    ensures After(longer) == Some(t) && t.podNotes == [PodChanged(b)] && t.deploys == map[]
    ensures t.pods == s.pods && t.deployNotes == s.deployNotes && t.noted == s.noted && !t.core.stopped
    ensures InstanceID(b.labels) in t.told && t.told[InstanceID(b.labels)] == Subject(None, Some(a))
  {
    longer, t := AfterPush(run, s, HandlePodNote([], items));
  }

  // Both changes handled, whatever the order in which the index lists the Pods.
  lemma BothHandled(a: Pod, b: Pod, items: seq<Pod>, run: seq<Action>, s: System) returns (longer: seq<Action>, t: System)
    requires After(run) == Some(s) && s.deploys == map[] && s.podNotes == [PodChanged(a), PodChanged(b)]
    requires a.labels == b.labels && ListsPods(items, s.pods, InstanceID(b.labels))
    requires InstanceID(b.labels) != "" && !s.core.stopped && MapPodPhaseToStatus(a.phase).Some?
    ensures After(longer) == Some(t) && t.podNotes == []
    ensures t.pods == s.pods && t.deployNotes == s.deployNotes && t.noted == s.noted && !t.core.stopped
    ensures var id := InstanceID(b.labels);
            id in t.handled && t.handled[id] == PodChanged(b)
            && id in t.told && t.told[id] == Subject(None, Some(if MapPodPhaseToStatus(b.phase).Some? then b else a))
  {
    longer, t := FirstHandled(a, b, items, run, s);
    longer, t := AfterPush(longer, t, HandlePodNote([], items));
  }

  // A Pod fails and then runs before its first notification is handled. The handler reports FAILED
  // while the index holds no failed Pod.
  lemma StaleChangeIsReported(stale: Pod, now: Pod) returns (run: seq<Action>, s: System)
    requires stale.name == now.name && stale.labels == now.labels && InstanceID(now.labels) != ""
    requires stale.phase == Failed && now.phase == Running
    ensures After(run) == Some(s) && Enabled(s, HandlePodNote([], [now])) && s.podNotes[0] == PodChanged(stale)
    ensures StatusOf(Handled(s.podNotes[0], [], [now])) == Some(FAILED) && MostSevere([now]) == Some(RUNNING)
  {
    run, s := TwoChanges(stale, now);
    assert now in [now] && SomePodIn([now], Running);
  }

  lemma TwoListed(a: Pod, b: Pod) returns (items: seq<Pod>)
    requires a.labels == b.labels
    ensures ListsPods(items, map[][a.name := a][b.name := b], InstanceID(b.labels))
  {
    items := if a.name == b.name then [b] else [a, b];
    assert |items| == 2 ==> items[0] == a && items[1] == b;
  }

  // After both changes are handled the instance is settled on the last of the two that has a status.
  lemma TwoSettled(a: Pod, b: Pod) returns (run: seq<Action>, s: System)
    requires a.labels == b.labels && InstanceID(b.labels) != "" && MapPodPhaseToStatus(a.phase).Some?
    ensures After(run) == Some(s) && Settled(s, InstanceID(b.labels)) && s.pods == map[][a.name := a][b.name := b]
    ensures var told := if MapPodPhaseToStatus(b.phase).Some? then b else a;
            NewestIs(s.core, InstanceID(b.labels), VerdictOn(Subject(None, Some(told))).value)
    ensures InstanceID(b.labels) in s.handled && s.handled[InstanceID(b.labels)] == PodChanged(b)
  {
    var u: System;
    run, u := TwoChanges(a, b);
    var items := TwoListed(a, b);
    run, s := BothHandled(a, b, items, run, u);
    EveryRunKeepsInv(run);
    ToldIsNewest(s, InstanceID(b.labels));
  }

  // A settled instance whose newest submission is RUNNING beside a failed Pod: the change of the
  // running Pod was handled last.
  lemma FailureStaysHidden(broken: Pod, healthy: Pod) returns (run: seq<Action>, s: System)
    requires broken.name != healthy.name && broken.labels == healthy.labels && InstanceID(healthy.labels) != ""
    requires broken.phase == Failed && healthy.phase == Running
    ensures After(run) == Some(s) && Settled(s, InstanceID(healthy.labels))
    ensures broken.name in s.pods && s.pods[broken.name] == broken
    ensures exists v: Verdict :: v.status == RUNNING && NewestIs(s.core, InstanceID(healthy.labels), v)
  {
    run, s := TwoSettled(broken, healthy);
  }

  // The last notification handled is a change of a succeeded Pod, below the failed one, and yet the
  // failed one is reported: the change of the succeeded Pod submitted nothing.
  lemma SilentChangeHidesNothing(broken: Pod, gone: Pod) returns (run: seq<Action>, s: System)
    requires broken.name != gone.name && broken.labels == gone.labels && InstanceID(gone.labels) != ""
    requires broken.phase == Failed && gone.phase == Succeeded
    ensures After(run) == Some(s) && Settled(s, InstanceID(gone.labels)) && LastWasSilent(s, InstanceID(gone.labels))
    ensures s.pods == map[broken.name := broken, gone.name := gone] && MostSevere([broken, gone]) == Some(FAILED)
    ensures exists v: Verdict :: v.status == FAILED && NewestIs(s.core, InstanceID(gone.labels), v)
  {
    run, s := TwoSettled(broken, gone);
    assert [broken, gone][0] == broken;
    assert SomePodIn([broken, gone], Failed);
  }

  // A Pod runs and then succeeds: the instance stays settled on RUNNING without a running Pod.
  lemma ObsoleteStatusStays(before: Pod, after: Pod) returns (run: seq<Action>, s: System)
    requires before.name == after.name && before.labels == after.labels && InstanceID(after.labels) != ""
    requires before.phase == Running && after.phase == Succeeded
    ensures After(run) == Some(s) && Settled(s, InstanceID(after.labels))
    ensures s.pods == map[after.name := after] && MostSevere([after]) == None
    ensures exists v: Verdict :: v.status == RUNNING && NewestIs(s.core, InstanceID(after.labels), v)
  {
    run, s := TwoSettled(before, after);
  }
}
