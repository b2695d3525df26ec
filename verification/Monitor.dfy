/**
 The status monitor of internal/monitoring/monitor.go: the handlers as calls on a debouncer, the
 publish retries, and the whole pipeline from informer caches to publishes as one machine.
 */
module Monitor {
  import opened Wrappers
  import opened StatusEvents
  import opened KubeObjects
  import opened Dcm
  import opened Reconcile
  import P = DebouncerProtocol
  import DebouncerObject
  import opened GoInts

  function EventOf(id: string, v: Verdict): StatusEvent {
    StatusEvent(id, v.status, v.message)
  }

  // reconcileAndSubmit: a notification without an instance id, or a result not to be published,
  // submits nothing.
  function Submitted(c: P.State, id: string, v: Option<Verdict>): P.State {
    if id == "" || v.None? then c else P.Apply(c, P.Submit(id, EventOf(id, v.value)))
  }

  // What a submission for an instance says of a Deployment and a Pod.
  ghost predicate Says(sub: P.Submission, id: string, x: Subject) {
    sub.id == id && sub.event.instanceID == id && Tells(sub.event.status, sub.event.message, x.deploy, x.pod)
  }

  ghost predicate Quiet(x: Subject) {
    x.pod.Some? && x.pod.value.phase !in {Pending, Running, Failed, PhaseUnknown}
  }

  // A handler submits one event that says what is to be said, or nothing.
  ghost predicate HandlerStep(c: P.State, id: string, x: Subject, u: P.State) {
    if id == "" || Quiet(x) || c.stopped then u == c
    else |u.subs| == |c.subs| + 1 && u.subs[..|c.subs|] == c.subs && Says(u.subs[|c.subs|], id, x)
  }

  lemma SubmittedSays(c: P.State, id: string, x: Subject)
    ensures HandlerStep(c, id, x, Submitted(c, id, VerdictOn(x)))
  {
    VerdictTells(x.deploy, x.pod);
  }

  method Handle(n: Notification, deploys: seq<Deployment>, pods: seq<Pod>, debouncer: DebouncerObject.Debouncer)
    requires debouncer.Valid()
    modifies debouncer
    ensures debouncer.Valid()
    ensures HandlerStep(old(debouncer.View()), NoteID(n), SubjectOf(n, deploys, pods), debouncer.View())
    ensures debouncer.View() == Submitted(old(debouncer.View()), NoteID(n), Handled(n, deploys, pods))
  {
    var id := NoteID(n);
    SubmittedSays(debouncer.View(), id, SubjectOf(n, deploys, pods));
    if id == "" {
      return;
    }
    var verdict: Option<Verdict>;
    match n {
      case DeployChanged(d) =>
        var pod := LookupPod(pods);
        verdict := ReconcileStatus(Some(d), pod);
      case DeployRemoved(_) =>
        var pod := LookupPod(pods);
        verdict := ReconcileStatus(None, pod);
      case PodChanged(p) =>
        verdict := ReconcileStatus(FirstDeploy(deploys), Some(p));
      case PodRemoved(_) =>
        var pod := LookupPod(pods);
        verdict := ReconcileStatus(FirstDeploy(deploys), pod);
    }
    if verdict.Some? {
      debouncer.Submit(id, EventOf(id, verdict.value));
    }
  }

  const MAX_ATTEMPTS := 5

  // publishWithRetry. `ok(k)` is the outcome of the k-th attempt and `cancelled(k)` whether the
  // wait after it ends by cancellation. Waits are in milliseconds.
  method PublishWithRetry(ok: nat -> bool, cancelled: nat -> bool)
    returns (attempts: nat, delivered: bool, waits: seq<nat>)
    ensures 1 <= attempts <= 5
    ensures forall k :: 1 <= k < attempts ==> !ok(k) && !cancelled(k)
    ensures delivered <==> ok(attempts)
    ensures !delivered && attempts < 5 ==> cancelled(attempts)
    ensures |waits| == attempts - 1
    ensures forall i :: 0 <= i < |waits| ==> waits[i] == 10 * Pow2(i)
  {
    var backoff := 10;
    waits := [];
    attempts := 1;
    while attempts <= MAX_ATTEMPTS
      invariant 1 <= attempts <= MAX_ATTEMPTS
      invariant forall k :: 1 <= k < attempts ==> !ok(k) && !cancelled(k)
      invariant |waits| == attempts - 1 && backoff == 10 * Pow2(attempts - 1)
      invariant forall i :: 0 <= i < |waits| ==> waits[i] == 10 * Pow2(i)
      decreases MAX_ATTEMPTS - attempts
    {
      if ok(attempts) {
        return attempts, true, waits;
      }
      if attempts == MAX_ATTEMPTS {
        return attempts, false, waits;
      }
      if cancelled(attempts) {
        return attempts, false, waits;
      }
      waits := waits + [backoff];
      backoff := backoff * 2;
      attempts := attempts + 1;
    }
    assert false;
  }

  // ---- The pipeline: caches, notification queues, handlers and the debouncer ----

  // Each informer updates its cache and then queues a notification. The queues are handled in
  // order, one call at a time, while the caches may already be ahead of them.
  datatype System = System(
    deploys: map<string, Deployment>,
    pods: map<string, Pod>,
    deployNotes: seq<Notification>,
    podNotes: seq<Notification>,
    owner: map<string, string>,  // instance of every Pod name seen so far
    noted: set<string>,          // instances notified so far
    handled: map<string, Notification>,  // the last notification handled of each instance
    told: map<string, Subject>,  // what the newest submission of each instance is the verdict on
    core: P.State)

  const FRESH := System(map[], map[], [], [], map[], {}, map[], map[], P.INIT)

  datatype Action =
    | DeployUpsert(deploy: Deployment)   // added, updated or resynced
    | DeployDelete(name: string)
    | PodUpsert(pod: Pod)
    | PodDelete(name: string)
    | HandleDeployNote(items: seq<Pod>)
    | HandlePodNote(deploys: seq<Deployment>, items: seq<Pod>)
    | Debounce(step: P.Action)

  // What the by-instance index returns, in whatever order.
  ghost predicate ListsPods(items: seq<Pod>, pods: map<string, Pod>, id: string) {
    && (forall p :: p in items <==> p.name in pods && pods[p.name] == p && InstanceID(p.labels) == id)
    && (forall i, j :: 0 <= i < j < |items| ==> items[i] != items[j])
  }

  ghost predicate ListsDeploys(items: seq<Deployment>, deploys: map<string, Deployment>, id: string) {
    && (forall d :: d in items <==> d.name in deploys && deploys[d.name] == d && InstanceID(d.labels) == id)
    && (forall i, j :: 0 <= i < j < |items| ==> items[i] != items[j])
  }

  // At most one Deployment per instance at any time; a Pod's instance label never changes.
  ghost predicate Enabled(s: System, a: Action) {
    match a
    case DeployUpsert(d) =>
      (forall n :: n in s.deploys && InstanceID(s.deploys[n].labels) == InstanceID(d.labels) ==> n == d.name)
      && (d.name in s.deploys ==> InstanceID(s.deploys[d.name].labels) == InstanceID(d.labels))
    case DeployDelete(name) => name in s.deploys
    case PodUpsert(p) => p.name in s.owner ==> s.owner[p.name] == InstanceID(p.labels)
    case PodDelete(name) => name in s.pods
    case HandleDeployNote(items) =>
      s.deployNotes != [] && ListsPods(items, s.pods, NoteID(s.deployNotes[0]))
    case HandlePodNote(deploys, items) =>
      s.podNotes != [] && ListsPods(items, s.pods, NoteID(s.podNotes[0]))
      && ListsDeploys(deploys, s.deploys, NoteID(s.podNotes[0]))
    case Debounce(step) => !step.Submit? && P.Enabled(s.core, step)
  }

  predicate Accepts(c: P.State, id: string, v: Option<Verdict>) {
    id != "" && v.Some? && !c.stopped
  }

  function HandledNote(s: System, n: Notification, x: Subject): System {
    s.(handled := s.handled[NoteID(n) := n],
       told := if Accepts(s.core, NoteID(n), VerdictOn(x)) then s.told[NoteID(n) := x] else s.told,
       core := Submitted(s.core, NoteID(n), VerdictOn(x)))
  }

  ghost function Apply(s: System, a: Action): System
    requires Enabled(s, a)
  {
    match a
    case DeployUpsert(d) =>
      s.(deploys := s.deploys[d.name := d], deployNotes := s.deployNotes + [DeployChanged(d)],
         noted := s.noted + {InstanceID(d.labels)})
    case DeployDelete(name) =>
      s.(deploys := s.deploys - {name}, deployNotes := s.deployNotes + [DeployRemoved(s.deploys[name])],
         noted := s.noted + {InstanceID(s.deploys[name].labels)})
    case PodUpsert(p) =>
      s.(pods := s.pods[p.name := p], podNotes := s.podNotes + [PodChanged(p)],
         owner := s.owner[p.name := InstanceID(p.labels)], noted := s.noted + {InstanceID(p.labels)})
    case PodDelete(name) =>
      s.(pods := s.pods - {name}, podNotes := s.podNotes + [PodRemoved(s.pods[name])],
         noted := s.noted + {InstanceID(s.pods[name].labels)})
    case HandleDeployNote(items) =>
      var n := s.deployNotes[0];
      HandledNote(s.(deployNotes := s.deployNotes[1..]), n, SubjectOf(n, [], items))
    case HandlePodNote(deploys, items) =>
      var n := s.podNotes[0];
      HandledNote(s.(podNotes := s.podNotes[1..]), n, SubjectOf(n, deploys, items))
    case Debounce(step) => s.(core := P.Apply(s.core, step))
  }

  ghost function After(run: seq<Action>): Option<System> {
    if run == [] then Some(FRESH) else
      match After(run[..|run| - 1])
      case None => None
      case Some(s) => if Enabled(s, run[|run| - 1]) then Some(Apply(s, run[|run| - 1])) else None
  }

  // ---- What the pipeline keeps ----

  ghost predicate NotedIn(notes: seq<Notification>, id: string) {
    exists i :: 0 <= i < |notes| && NoteID(notes[i]) == id
  }

  ghost predicate LastFor(notes: seq<Notification>, i: nat) {
    i < |notes| && forall j :: i < j < |notes| ==> NoteID(notes[j]) != NoteID(notes[i])
  }

  ghost predicate IsDeploy(s: System, id: string, d: Option<Deployment>) {
    match d
    case None => forall n :: n in s.deploys ==> InstanceID(s.deploys[n].labels) != id
    case Some(x) => x.name in s.deploys && s.deploys[x.name] == x && InstanceID(x.labels) == id
  }

  ghost predicate IsPod(s: System, id: string, p: Option<Pod>) {
    match p
    case None => forall n :: n in s.pods ==> InstanceID(s.pods[n].labels) != id
    case Some(x) => x.name in s.pods && s.pods[x.name] == x && InstanceID(x.labels) == id
  }

  ghost predicate CacheInv(s: System) {
    && (forall n :: n in s.deploys ==> s.deploys[n].name == n)
    && (forall n :: n in s.pods ==> s.pods[n].name == n && n in s.owner && s.owner[n] == InstanceID(s.pods[n].labels))
    && (forall m, n :: m in s.deploys && n in s.deploys && m != n
          ==> InstanceID(s.deploys[m].labels) != InstanceID(s.deploys[n].labels))
  }

  ghost predicate DeployNoteTells(s: System, n: Notification) {
    match n
    case DeployChanged(d) => IsDeploy(s, InstanceID(d.labels), Some(d))
    case DeployRemoved(d) => IsDeploy(s, InstanceID(d.labels), None)
    case _ => false
  }

  ghost predicate PodNoteTells(s: System, n: Notification) {
    match n
    case PodChanged(p) => IsPod(s, InstanceID(p.labels), Some(p))
    case PodRemoved(_) => true
    case _ => false
  }

  // The last notification queued for an instance tells the present state of the cache.
  ghost predicate DeployNotesInv(s: System) {
    forall i: nat :: LastFor(s.deployNotes, i) ==> DeployNoteTells(s, s.deployNotes[i])
  }

  ghost predicate PodNotesInv(s: System) {
    forall i: nat :: LastFor(s.podNotes, i) ==> PodNoteTells(s, s.podNotes[i])
  }

  ghost predicate LastSubmitted(c: P.State, id: string, v: Verdict) {
    exists k: nat :: P.Newest(c.subs, k) && c.subs[k] == P.Submission(id, StatusEvent(id, v.status, v.message))
  }

  // The newest submission of an instance is the verdict on what it is recorded to tell.
  ghost predicate ToldInv(s: System) {
    && (forall id :: id in s.told ==>
          VerdictOn(s.told[id]).Some? && LastSubmitted(s.core, id, VerdictOn(s.told[id]).value))
    && (forall k :: 0 <= k < |s.core.subs| ==> s.core.subs[k].id in s.told)
  }

  // The change of a cached Pod with a status is still queued, or its instance has told of a Pod.
  ghost predicate PodIsTold(s: System, n: string)
    requires n in s.pods
  {
    var p := s.pods[n];
    InstanceID(p.labels) != "" && MapPodPhaseToStatus(p.phase).Some? ==>
      PodChanged(p) in s.podNotes || (InstanceID(p.labels) in s.told && s.told[InstanceID(p.labels)].pod.Some?)
  }

  ghost predicate PodsToldInv(s: System) {
    !s.core.stopped ==> forall n :: n in s.pods ==> PodIsTold(s, n)
  }

  // A cached Pod of the instance of highest priority, or None when there is no Pod of it.
  ghost predicate IsWorstPod(s: System, id: string, p: Option<Pod>) {
    && IsPod(s, id, p)
    && forall n :: n in s.pods && InstanceID(s.pods[n].labels) == id && p.Some? ==>
         PodPhasePriority(s.pods[n].phase) <= PodPhasePriority(p.value.phase)
  }

  // The cached Pod that the last notification handled speaks for: a change of a Pod for that Pod,
  // any other notification for a worst Pod.
  ghost predicate SpeaksFor(s: System, id: string, p: Option<Pod>) {
    && id in s.handled
    && match s.handled[id]
       case PodChanged(x) => p == Some(x) && IsPod(s, id, p)
       case _ => IsWorstPod(s, id, p)
  }

  // The last notification handled was about the cached Deployment and the Pod it speaks for, and
  // the newest submission tells of these unless they have no verdict to be published.
  ghost predicate ConvergedOn(s: System, id: string, x: Subject) {
    && IsDeploy(s, id, x.deploy) && SpeaksFor(s, id, x.pod)
    && (VerdictOn(x).Some? ==> id in s.told && s.told[id] == x)
  }

  ghost predicate Converged(s: System, id: string) {
    exists x :: ConvergedOn(s, id, x)
  }

  // Every notification for the instance is handled and the debouncer is not stopped.
  ghost predicate Settled(s: System, id: string) {
    id != "" && id in s.noted && !NotedIn(s.deployNotes, id) && !NotedIn(s.podNotes, id) && !s.core.stopped
  }

  ghost predicate Inv(s: System) {
    && P.Inv(s.core) && CacheInv(s) && DeployNotesInv(s) && PodNotesInv(s) && ToldInv(s) && PodsToldInv(s)
    && forall id :: Settled(s, id) ==> Converged(s, id)
  }
}
