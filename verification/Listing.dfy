/**
 List of internal/kubernetes/store_list.go: pages of the name-sorted Deployments.
 */
module Listing {
  import opened Wrappers
  import opened Dcm
  import opened KubeObjects
  import opened ApiTypes
  import opened Cluster
  import opened StoreModel
  import opened StoreRead
  import opened Store
  import opened PageToken
  import opened GoInts
  import Ordering

  const DEFAULT_PAGE_SIZE := 50

  function PageSize(maxPageSize: int): (size: nat)
    ensures size > 0
  {
    if maxPageSize <= 0 then DEFAULT_PAGE_SIZE else maxPageSize
  }

  function Offset(total: nat, token: string): nat {
    match DecodePageToken(token) case None => total case Some(n) => Min(n, total)
  }

  // Where the page that starts at an offset ends.
  function PageEnd(total: nat, maxPageSize: int, offset: nat): (to: nat)
    ensures Min(offset, total) <= to <= total && to - Min(offset, total) <= PageSize(maxPageSize)
    ensures Min(offset, total) < total ==> Min(offset, total) < to
    ensures to < total ==> to - Min(offset, total) == PageSize(maxPageSize)
  {
    Min(offset, total) + Min(PageSize(maxPageSize), total - Min(offset, total))
  }

  // The part of a list from an offset on, and the token that continues it.
  function PageAt<T>(items: seq<T>, maxPageSize: int, offset: nat): (seq<T>, Option<string>) {
    var to := PageEnd(|items|, maxPageSize, offset);
    (items[Min(offset, |items|)..to], if to < |items| then Some(EncodeOffset(to)) else None)
  }

  // A page is a stretch of the list from its offset on. Its token decodes to where it ends, which is
  // further on, and there is no token exactly at the end of the list. A page with a token is full.
  lemma PageBounds<T>(items: seq<T>, maxPageSize: int, offset: nat)
    requires |items| <= MAX_INT64
    ensures var (page, next) := PageAt(items, maxPageSize, offset);
            var from := Min(offset, |items|);
            from + |page| <= |items| && page == items[from..from + |page|]
            && |page| <= (if maxPageSize <= 0 then 50 else maxPageSize)
            && (next.Some? ==> |page| == if maxPageSize <= 0 then 50 else maxPageSize)
            && (next.None? <==> from + |page| == |items|)
            && (next.Some? ==> |page| > 0 && DecodePageToken(next.value) == Some(from + |page|))
  {
    var to := PageEnd(|items|, maxPageSize, offset);
    if to < |items| {
      OffsetRoundTrip(to);
    }
  }

  // The pages a client gets that follows the tokens, asking for sizes(k) items at the k-th call.
  function Follow<T>(items: seq<T>, sizes: nat -> int, k: nat, token: string): seq<seq<T>>
    requires |items| <= MAX_INT64
    decreases |items| - Offset(|items|, token)
  {
    match DecodePageToken(token)
    case None => []
    case Some(n) =>
      PageBounds(items, sizes(k), n);
      var (page, next) := PageAt(items, sizes(k), n);
      [page] + (if next.Some? then Follow(items, sizes, k + 1, next.value) else [])
  }

  function Flatten<T>(pages: seq<seq<T>>): seq<T> {
    if pages == [] then [] else pages[0] + Flatten(pages[1..])
  }

  lemma FlattenCons<T>(page: seq<T>, rest: seq<seq<T>>)
    ensures Flatten([page] + rest) == page + Flatten(rest)
  {
    assert ([page] + rest)[1..] == rest;
  }

  lemma TakeThenDrop<T>(items: seq<T>, from: nat, to: nat)
    requires from <= to <= |items|
    ensures items[from..to] + items[to..] == items[from..]
  {
  }

  // Whatever the page sizes, following the tokens from an accepted one ends and gives the rest of
  // the list, each item exactly once and in order.
  lemma {:induction false} FollowGivesTheRest<T>(items: seq<T>, sizes: nat -> int, k: nat, token: string)
    requires |items| <= MAX_INT64 && DecodePageToken(token).Some?
    ensures Flatten(Follow(items, sizes, k, token)) == items[Offset(|items|, token)..]
    decreases |items| - Offset(|items|, token)
  {
    var n := DecodePageToken(token).value;
    var from := Min(n, |items|);
    var (page, next) := PageAt(items, sizes(k), n);
    PageBounds(items, sizes(k), n);
    if next.Some? {
      FollowGivesTheRest(items, sizes, k + 1, next.value);
      FlattenCons(page, Follow(items, sizes, k + 1, next.value));
    } else {
      FlattenCons(page, []);
    }
    TakeThenDrop(items, from, from + |page|);
  }

  lemma FollowFromTheStart<T>(items: seq<T>, sizes: nat -> int)
    requires |items| <= MAX_INT64
    ensures Flatten(Follow(items, sizes, 0, "")) == items
  {
    FollowGivesTheRest(items, sizes, 0, "");
  }

  // ---- The listing of a cluster ----

  const BY_NAME := (d: Deployment) => d.name

  // The labels by which the cluster's Deployments are selected.
  predicate IsContainerDeployment(labels: LabelMap) {
    && "dcm.project/managed-by" in labels && labels["dcm.project/managed-by"] == "dcm"
    && "dcm.project/dcm-service-type" in labels && labels["dcm.project/dcm-service-type"] == "container"
  }

  // The managed Deployments of a cluster, each once, by name in Go's order of strings.
  ghost predicate IsSortedListing(items: seq<Deployment>, st: State) {
    && (forall d :: d in items <==>
          d.name in st.deployments && st.deployments[d.name] == d && IsContainerDeployment(d.labels))
    && InNameOrder(items)
  }

  ghost predicate InNameOrder(items: seq<Deployment>) {
    forall i, j :: 0 <= i < j < |items| ==> Ordering.Precedes(items[i].name, items[j].name)
  }

  lemma NameOrderIsSorted(items: seq<Deployment>)
    ensures InNameOrder(items) <==> Ordering.Sorted(items, BY_NAME) && Ordering.DistinctKeys(items, BY_NAME)
  {
    forall i, j | 0 <= i < j < |items|
      ensures Ordering.Precedes(items[i].name, items[j].name)
              <==> !Ordering.Less(items[j].name, items[i].name) && items[i].name != items[j].name
    {
      var a, b := items[i].name, items[j].name;
      Ordering.LessIsPrecedes(a, b);
      Ordering.LessTotal(a, b);
      Ordering.LessIrreflexive(a);
      if Ordering.Less(a, b) && Ordering.Less(b, a) {
        Ordering.LessTransitive(a, b, a);
      }
    }
    assert forall d: Deployment :: BY_NAME(d) == d.name;
  }

  lemma SelectedAreContainers(items: seq<Deployment>, st: State)
    ensures (forall d :: d in items <==>
              d.name in st.deployments && st.deployments[d.name] == d && Matches(d.labels, Selector()))
            <==> (forall d :: d in items <==>
              d.name in st.deployments && st.deployments[d.name] == d && IsContainerDeployment(d.labels))
  {
    forall labels ensures Matches(labels, Selector()) <==> IsContainerDeployment(labels) {
      SelectorMeans(labels);
    }
  }

  lemma SortedListingIs(items: seq<Deployment>, st: State)
    ensures IsSortedListing(items, st) <==>
            ListsDeployments(items, st, Selector()) && Ordering.Sorted(items, BY_NAME)
  {
    NameOrderIsSorted(items);
    SelectedAreContainers(items, st);
  }

  lemma SameListing(a: seq<Deployment>, b: seq<Deployment>, st: State, selector: LabelMap)
    requires ListsDeployments(a, st, selector) && ListsDeployments(b, st, selector)
    ensures multiset(a) == multiset(b) && Ordering.DistinctKeys(a, BY_NAME)
  {
    forall d ensures multiset(a)[d] == multiset(b)[d] {
      if d in a {
        var i :| 0 <= i < |a| && a[i] == d;
        assert d in b;
        var j :| 0 <= j < |b| && b[j] == d;
        Ordering.OnceInDistinct(a, i, BY_NAME);
        Ordering.OnceInDistinct(b, j, BY_NAME);
      } else {
        assert d !in b;
      }
    }
  }

  // A cluster has one sorted listing, so pages of different calls fit together.
  lemma SortedListingIsUnique(a: seq<Deployment>, b: seq<Deployment>, st: State)
    requires IsSortedListing(a, st) && IsSortedListing(b, st)
    ensures a == b
  {
    SortedListingIs(a, st);
    SortedListingIs(b, st);
    SameListing(a, b, st, Selector());
    SameListing(b, a, st, Selector());
    Ordering.SortedIsUnique(a, b, BY_NAME);
  }

  lemma ListingPermutes(items: seq<Deployment>, other: seq<Deployment>, st: State, selector: LabelMap)
    requires ListsDeployments(items, st, selector) && multiset(other) == multiset(items)
    requires Ordering.DistinctKeys(other, BY_NAME)
    ensures ListsDeployments(other, st, selector)
  {
    assert forall i, j :: 0 <= i < j < |other| ==> BY_NAME(other[i]) != BY_NAME(other[j]);
    forall d ensures d in other <==> d in items {
      assert d in other <==> d in multiset(other);
      assert d in items <==> d in multiset(items);
    }
  }

  lemma SortGivesListing(items: seq<Deployment>, st: State)
    requires ListsDeployments(items, st, Selector())
    ensures IsSortedListing(Ordering.SortBy(items, BY_NAME), st)
  {
    var sorted := Ordering.SortBy(items, BY_NAME);
    Ordering.SortBySorts(items, BY_NAME);
    SameListing(items, items, st, Selector());
    Ordering.DistinctKeysPermute(items, sorted, BY_NAME);
    ListingPermutes(items, sorted, st, Selector());
    SortedListingIs(sorted, st);
  }

  datatype ContainerList = ContainerList(containers: seq<Container>, nextPageToken: Option<string>)

  // Each container is read from the Deployment at its place in the page. `pods` is what the Pod
  // listing of an instance returns.
  ghost predicate IsPage(l: ContainerList, p: (seq<Deployment>, Option<string>), st: State, namespace: string,
                         pods: string -> seq<Pod>)
  {
    l.nextPageToken == p.1 && AllRead(l.containers, p.0, st, namespace, pods)
  }

  ghost predicate AllRead(containers: seq<Container>, page: seq<Deployment>, st: State, namespace: string,
                          pods: string -> seq<Pod>)
  {
    && |containers| == |page|
    && forall i :: 0 <= i < |page| ==> ReadFrom(containers[i], page[i], st, namespace, pods)
  }

  ghost predicate ReadFrom(c: Container, d: Deployment, st: State, namespace: string, pods: string -> seq<Pod>) {
    Reads(c, d, InstanceID(d.labels), st, namespace, pods(InstanceID(d.labels)))
  }

  // `faults` tells which calls fail for an instance.
  predicate CanRead(d: Deployment, pods: string -> seq<Pod>, faults: string -> ReadFaults) {
    Readable(d, pods(InstanceID(d.labels)), faults(InstanceID(d.labels)))
  }

  predicate AllCanRead(page: seq<Deployment>, pods: string -> seq<Pod>, faults: string -> ReadFaults) {
    forall d :: d in page ==> CanRead(d, pods, faults)
  }

  // The error is that of the first Deployment of the page that cannot be read.
  ghost predicate FirstError(page: seq<Deployment>, pods: string -> seq<Pod>, faults: string -> ReadFaults, e: StoreError) {
    exists i :: 0 <= i < |page| && AllCanRead(page[..i], pods, faults) && Fails(page[i], pods, faults, e)
  }

  predicate Fails(d: Deployment, pods: string -> seq<Pod>, faults: string -> ReadFaults, e: StoreError) {
    && !CanRead(d, pods, faults)
    && e == ReadError(d, pods(InstanceID(d.labels)), faults(InstanceID(d.labels)))
  }

  // One Deployment of the page that cannot be read, such as an instance with too many Pods,
  // refuses the whole page.
  ghost predicate PageStep(page: (seq<Deployment>, Option<string>), st: State, namespace: string, pods: string -> seq<Pod>,
                           faults: string -> ReadFaults, r: Result<ContainerList, StoreError>)
  {
    match r
    case Ok(l) => AllCanRead(page.0, pods, faults) && IsPage(l, page, st, namespace, pods)
    case Err(e) => FirstError(page.0, pods, faults, e)
  }

  ghost predicate ListStep(st: State, namespace: string, maxPageSize: int, token: string, fails: bool,
                           pods: string -> seq<Pod>, faults: string -> ReadFaults, r: Result<ContainerList, StoreError>)
  {
    match DecodePageToken(token)
    case None => r == Err(InvalidArgumentError)
    case Some(offset) =>
      if fails then r == Err(Infrastructure(Unavailable))
      else exists sorted ::
             IsSortedListing(sorted, st) && PageStep(PageAt(sorted, maxPageSize, offset), st, namespace, pods, faults, r)
  }

  method List(store: K8sContainerStore, maxPageSize: int, pageToken: string, fails: bool,
              pods: string -> seq<Pod>, faults: string -> ReadFaults)
    returns (r: Result<ContainerList, StoreError>)
    requires WellNamed(store.client.View())
    ensures ListStep(store.client.View(), store.cfg.namespace, maxPageSize, pageToken, fails, pods, faults, r)
  {
    var decoded := DecodePageToken(pageToken);
    if decoded.None? {
      return Err(InvalidArgumentError);
    }
    var items := SortedDeployments(store, fails);
    if items.Err? {
      return Err(items.error);
    }
    var paged, next := SelectPage(items.value, maxPageSize, decoded.value);
    var built := BuildPage(store, paged, pods, faults);
    if built.Err? {
      return Err(built.error);
    }
    return Ok(ContainerList(built.value, next));
  }

  // The clamping and slicing of List.
  method SelectPage(items: seq<Deployment>, maxPageSize: int, decoded: nat)
    returns (paged: seq<Deployment>, next: Option<string>)
    ensures (paged, next) == PageAt(items, maxPageSize, decoded)
  {
    var size := if maxPageSize <= 0 then DEFAULT_PAGE_SIZE else maxPageSize;
    var offset, total := decoded, |items|;
    if offset > total {
      offset := total;
    }
    var limit := Min(size, total - offset);
    paged := items[offset..offset + limit];
    next := if offset + limit < total then Some(EncodeOffset(offset + limit)) else None;
  }

  // The listing and the sort of List.
  method SortedDeployments(store: K8sContainerStore, fails: bool) returns (r: Result<seq<Deployment>, StoreError>)
    requires WellNamed(store.client.View())
    ensures if fails then r == Err(Infrastructure(Unavailable))
            else r.Ok? && IsSortedListing(r.value, store.client.View())
  {
    var deploys := store.client.ListDeployments(Selector(), fails);
    if deploys.Err? {
      return Err(Infrastructure(deploys.error));
    }
    SortGivesListing(deploys.value, store.client.View());
    return Ok(Ordering.SortBy(deploys.value, BY_NAME));
  }

  // The loop of List: one container for each Deployment of the page, or the error of the first
  // that cannot be read.
  method BuildPage(store: K8sContainerStore, page: seq<Deployment>, pods: string -> seq<Pod>, faults: string -> ReadFaults)
    returns (r: Result<seq<Container>, StoreError>)
    requires WellNamed(store.client.View())
    ensures r.Ok? <==> AllCanRead(page, pods, faults)
    ensures r.Err? ==> FirstError(page, pods, faults, r.error)
    ensures r.Ok? ==> AllRead(r.value, page, store.client.View(), store.cfg.namespace, pods)
  {
    ghost var st, namespace := store.client.View(), store.cfg.namespace;
    var containers := [];
    for i := 0 to |page|
      invariant AllRead(containers, page[..i], st, namespace, pods)
      invariant AllCanRead(page[..i], pods, faults)
    {
      var c := ReadOne(store, page[i], pods, faults);
      if c.Err? {
        assert page[i] in page;
        return Err(c.error);
      }
      AllReadPush(containers, c.value, page, i, st, namespace, pods, faults);
      containers := containers + [c.value];
    }
    assert page[..|page|] == page;
    return Ok(containers);
  }

  lemma AllReadPush(containers: seq<Container>, c: Container, page: seq<Deployment>, i: nat, st: State,
                    namespace: string, pods: string -> seq<Pod>, faults: string -> ReadFaults)
    requires i < |page| && AllRead(containers, page[..i], st, namespace, pods) && AllCanRead(page[..i], pods, faults)
    requires ReadFrom(c, page[i], st, namespace, pods) && CanRead(page[i], pods, faults)
    ensures AllRead(containers + [c], page[..i + 1], st, namespace, pods) && AllCanRead(page[..i + 1], pods, faults)
  {
    assert page[..i + 1] == page[..i] + [page[i]];
  }

  method ReadOne(store: K8sContainerStore, d: Deployment, pods: string -> seq<Pod>, faults: string -> ReadFaults)
    returns (r: Result<Container, StoreError>)
    requires WellNamed(store.client.View())
    ensures r.Ok? <==> CanRead(d, pods, faults)
    ensures r.Err? ==> Fails(d, pods, faults, r.error)
    ensures r.Ok? ==> ReadFrom(r.value, d, store.client.View(), store.cfg.namespace, pods)
  {
    var id := InstanceID(d.labels);
    r := store.BuildContainer(d, id, pods(id), faults(id));
  }

  // ---- Following the tokens over a fixed cluster ----

  // A call of List that succeeded, with its answer.
  datatype ListCall = ListCall(size: int, token: string, pods: string -> seq<Pod>, faults: string -> ReadFaults,
                               list: ContainerList)

  ghost predicate Answered(c: ListCall, st: State, namespace: string) {
    ListStep(st, namespace, c.size, c.token, false, c.pods, c.faults, Ok(c.list))
  }

  // Each call continues with the token of the answer before it, until an answer has none.
  ghost predicate IsWalk(calls: seq<ListCall>, st: State, namespace: string) {
    && calls != [] && Answered(calls[0], st, namespace)
    && if |calls| == 1 then calls[0].list.nextPageToken == None
       else calls[0].list.nextPageToken == Some(calls[1].token) && IsWalk(calls[1..], st, namespace)
  }

  function Walked(calls: seq<ListCall>): seq<Container> {
    if calls == [] then [] else calls[0].list.containers + Walked(calls[1..])
  }

  // One container for each Deployment, in their order, whatever Pods were listed at the time.
  ghost predicate ReadInOrder(containers: seq<Container>, items: seq<Deployment>, st: State, namespace: string) {
    && |containers| == |items|
    && forall i :: 0 <= i < |items| ==> ReadOf(containers[i], items[i], st, namespace)
  }

  ghost predicate ReadOf(c: Container, d: Deployment, st: State, namespace: string) {
    exists pods :: Reads(c, d, InstanceID(d.labels), st, namespace, pods)
  }

  lemma AnswerIsPage(c: ListCall, sorted: seq<Deployment>, st: State, namespace: string)
    requires Answered(c, st, namespace) && IsSortedListing(sorted, st)
    ensures DecodePageToken(c.token).Some?
    ensures IsPage(c.list, PageAt(sorted, c.size, DecodePageToken(c.token).value), st, namespace, c.pods)
  {
    var offset := DecodePageToken(c.token).value;
    var items :| IsSortedListing(items, st)
                 && PageStep(PageAt(items, c.size, offset), st, namespace, c.pods, c.faults, Ok(c.list));
    SortedListingIsUnique(items, sorted, st);
  }

  lemma PageInOrder(containers: seq<Container>, page: seq<Deployment>, st: State, namespace: string, pods: string -> seq<Pod>)
    requires AllRead(containers, page, st, namespace, pods)
    ensures ReadInOrder(containers, page, st, namespace)
  {
    forall i | 0 <= i < |page| ensures ReadOf(containers[i], page[i], st, namespace) {
      assert ReadFrom(containers[i], page[i], st, namespace, pods);
    }
  }

  lemma InOrderConcat(a: seq<Container>, b: seq<Container>, x: seq<Deployment>, y: seq<Deployment>, st: State, namespace: string)
    requires ReadInOrder(a, x, st, namespace) && ReadInOrder(b, y, st, namespace)
    ensures ReadInOrder(a + b, x + y, st, namespace)
  {
  }

  // One answer of a walk: the stretch it covers and where the next one starts.
  lemma AnswerCovers(c: ListCall, sorted: seq<Deployment>, st: State, namespace: string) returns (to: nat)
    requires Answered(c, st, namespace) && IsSortedListing(sorted, st) && |sorted| <= MAX_INT64
    ensures Offset(|sorted|, c.token) <= to <= |sorted|
    ensures ReadInOrder(c.list.containers, sorted[Offset(|sorted|, c.token)..to], st, namespace)
    ensures c.list.nextPageToken.None? ==> to == |sorted|
    ensures c.list.nextPageToken.Some? ==>
              Offset(|sorted|, c.token) < to && Offset(|sorted|, c.list.nextPageToken.value) == to
  {
    AnswerIsPage(c, sorted, st, namespace);
    var n := DecodePageToken(c.token).value;
    PageBounds(sorted, c.size, n);
    var (page, _) := PageAt(sorted, c.size, n);
    PageInOrder(c.list.containers, page, st, namespace, c.pods);
    to := Min(n, |sorted|) + |page|;
  }

  lemma StretchesJoin(a: seq<Container>, b: seq<Container>, sorted: seq<Deployment>, from: nat, to: nat, st: State,
                      namespace: string)
    requires from <= to <= |sorted|
    requires ReadInOrder(a, sorted[from..to], st, namespace) && ReadInOrder(b, sorted[to..], st, namespace)
    ensures ReadInOrder(a + b, sorted[from..], st, namespace)
  {
    TakeThenDrop(sorted, from, to);
    InOrderConcat(a, b, sorted[from..to], sorted[to..], st, namespace);
  }

  lemma {:induction false} WalkGivesTheRest(calls: seq<ListCall>, sorted: seq<Deployment>, st: State, namespace: string)
    requires IsWalk(calls, st, namespace) && IsSortedListing(sorted, st) && |sorted| <= MAX_INT64
    ensures ReadInOrder(Walked(calls), sorted[Offset(|sorted|, calls[0].token)..], st, namespace)
    ensures |calls| <= |sorted| - Offset(|sorted|, calls[0].token) + 1
    decreases |calls|
  {
    var to := AnswerCovers(calls[0], sorted, st, namespace);
    if |calls| > 1 {
      WalkGivesTheRest(calls[1..], sorted, st, namespace);
    } else {
      assert Walked(calls[1..]) == [] && sorted[to..] == [];
    }
    StretchesJoin(calls[0].list.containers, Walked(calls[1..]), sorted, Offset(|sorted|, calls[0].token), to, st, namespace);
  }

  // Following the tokens from the empty one over a fixed cluster takes at most one call more than
  // there are Deployments, and the answers together hold one container for each of them by name.
  lemma WalkCoversCluster(calls: seq<ListCall>, sorted: seq<Deployment>, st: State, namespace: string)
    requires IsWalk(calls, st, namespace) && calls[0].token == ""
    requires IsSortedListing(sorted, st) && |sorted| <= MAX_INT64
    ensures ReadInOrder(Walked(calls), sorted, st, namespace) && |calls| <= |sorted| + 1
  {
    WalkGivesTheRest(calls, sorted, st, namespace);
  }
}
