/** frontend/src/entities/request/model/RequestsStore.ts: the cached requests of the page, under every
    interleaving of the answers to its calls. Each method is the code between two `await`s. */
module RequestsStore {
  import opened Basics
  import opened RequestStatus

  datatype PartnerRequest = PartnerRequest(id: string, status: Status, subject: string)

  datatype LoadState = Idle | Loading | ListReady | ListError

  datatype DetailStatus = DetailLoading | Ready | NotFound | DetailError

  datatype DetailState = DetailState(id: string, status: DetailStatus)

  // --- The order of ids ------------------------------------------------------------------------

  predicate Less(a: string, b: string) {
    b != "" && (a == "" || a[0] < b[0] || (a[0] == b[0] && Less(a[1..], b[1..])))
  }

  lemma {:induction false} LessIsTotal(a: string, b: string)
    ensures a == b || Less(a, b) || Less(b, a)
  {
    if a != "" && b != "" && a[0] == b[0] {
      LessIsTotal(a[1..], b[1..]);
      assert a == [a[0]] + a[1..] && b == [b[0]] + b[1..];
    }
  }

  lemma {:induction false} LessIsTransitive(a: string, b: string, c: string)
    requires Less(a, b) && Less(b, c)
    ensures Less(a, c)
  {
    if a != "" && a[0] == b[0] == c[0] {
      LessIsTransitive(a[1..], b[1..], c[1..]);
    }
  }

  lemma {:induction false} LessIsStrict(a: string)
    ensures !Less(a, a)
  {
    if a != "" {
      LessIsStrict(a[1..]);
    }
  }

  // --- mergeById -------------------------------------------------------------------------------

  // Newest first, and no id twice.
  predicate IsDescending(items: seq<PartnerRequest>) {
    forall i, j :: 0 <= i < j < |items| ==> Less(items[j].id, items[i].id)
  }

  predicate HasDistinctIds(items: seq<PartnerRequest>) {
    forall i, j :: 0 <= i < j < |items| ==> items[i].id != items[j].id
  }

  // The last request of a list with this id.
  function LastOf(items: seq<PartnerRequest>, id: string): Option<PartnerRequest> {
    if items == [] then None
    else if items[|items| - 1].id == id then Some(items[|items| - 1])
    else LastOf(items[..|items| - 1], id)
  }

  lemma {:induction false} LastOfFinds(items: seq<PartnerRequest>, id: string)
    ensures LastOf(items, id).Some? ==> LastOf(items, id).value in items && LastOf(items, id).value.id == id
    ensures LastOf(items, id).None? ==> forall i :: 0 <= i < |items| ==> items[i].id != id
  {
    if items != [] {
      LastOfFinds(items[..|items| - 1], id);
    }
  }

  lemma OnlyOne(items: seq<PartnerRequest>, i: nat)
    requires HasDistinctIds(items) && i < |items|
    ensures LastOf(items, items[i].id) == Some(items[i])
  {
    LastOfFinds(items, items[i].id);
  }

  // Every id that either list knows, with the incoming request where there is one.
  ghost predicate IsMerge(merged: seq<PartnerRequest>, known: seq<PartnerRequest>, incoming: seq<PartnerRequest>) {
    forall id :: LastOf(merged, id) == if LastOf(incoming, id).Some? then LastOf(incoming, id) else LastOf(known, id)
  }

  // The Map of mergeById, its entries in order of insertion.
  method SetEntry(entries: seq<PartnerRequest>, request: PartnerRequest) returns (r: seq<PartnerRequest>)
    requires HasDistinctIds(entries)
    ensures HasDistinctIds(r)
    ensures forall id :: LastOf(r, id) == if id == request.id then Some(request) else LastOf(entries, id)
  {
    var k := 0;
    while k < |entries| && entries[k].id != request.id
      invariant 0 <= k <= |entries| && forall j :: 0 <= j < k ==> entries[j].id != request.id
    {
      k := k + 1;
    }
    r := if k < |entries| then entries[k := request] else entries + [request];
    forall id ensures LastOf(r, id) == if id == request.id then Some(request) else LastOf(entries, id) {
      SameRequests(r, entries, request, k, id);
    }
  }

  lemma SameRequests(r: seq<PartnerRequest>, entries: seq<PartnerRequest>, request: PartnerRequest, k: nat, id: string)
    requires HasDistinctIds(entries) && HasDistinctIds(r) && k <= |entries|
    requires r == if k < |entries| then entries[k := request] else entries + [request]
    requires k < |entries| ==> entries[k].id == request.id
    ensures LastOf(r, id) == if id == request.id then Some(request) else LastOf(entries, id)
  {
    LastOfFinds(r, id);
    LastOfFinds(entries, id);
    hide LastOf;
    assert r[k] == request;
    OnlyOne(r, k);
    if id != request.id {
      if LastOf(r, id).Some? {
        var i: nat :| i < |r| && r[i] == LastOf(r, id).value;
        OnlyOne(entries, i);
      }
      if LastOf(entries, id).Some? {
        var i: nat :| i < |entries| && entries[i] == LastOf(entries, id).value;
        OnlyOne(r, i);
      }
    }
  }

  // One step of `sort(newestFirst)`.
  function Inserted(sorted: seq<PartnerRequest>, request: PartnerRequest): (r: seq<PartnerRequest>)
    ensures |r| == |sorted| + 1
  {
    if sorted == [] || Less(request.id, sorted[|sorted| - 1].id) then sorted + [request]
    else Inserted(sorted[..|sorted| - 1], request) + [sorted[|sorted| - 1]]
  }

  lemma {:induction false} InsertedHolds(sorted: seq<PartnerRequest>, request: PartnerRequest)
    requires LastOf(sorted, request.id).None?
    ensures forall id :: LastOf(Inserted(sorted, request), id) == if id == request.id then Some(request)
      else LastOf(sorted, id)
    ensures forall x :: x in Inserted(sorted, request) ==> x in sorted || x == request
  {
    if sorted == [] || Less(request.id, sorted[|sorted| - 1].id) {
      assert (sorted + [request])[..|sorted|] == sorted;
    } else {
      var n := |sorted| - 1;
      InsertedHolds(sorted[..n], request);
      var front := Inserted(sorted[..n], request);
      assert (front + [sorted[n]])[..|front|] == front;
    }
  }

  lemma {:induction false} InsertedIsDescending(sorted: seq<PartnerRequest>, request: PartnerRequest)
    requires IsDescending(sorted) && LastOf(sorted, request.id).None?
    ensures IsDescending(Inserted(sorted, request))
  {
    hide Less;
    if sorted == [] {
    } else if Less(request.id, sorted[|sorted| - 1].id) {
      var n := |sorted| - 1;
      forall i | 0 <= i < n ensures Less(request.id, sorted[i].id) {
        LessIsTransitive(request.id, sorted[n].id, sorted[i].id);
      }
    } else {
      var n := |sorted| - 1;
      var front := Inserted(sorted[..n], request);
      InsertedIsDescending(sorted[..n], request);
      InsertedHolds(sorted[..n], request);
      LessIsTotal(sorted[n].id, request.id);
      assert forall i :: 0 <= i < |front| ==> front[i] in sorted[..n] || front[i] == request;
      assert forall i :: 0 <= i < |front| ==> Less(sorted[n].id, front[i].id);
    }
  }

  lemma DescendingIsDistinct(items: seq<PartnerRequest>)
    requires IsDescending(items)
    ensures HasDistinctIds(items)
  {
    forall i, j | 0 <= i < j < |items| ensures items[i].id != items[j].id {
      LessIsStrict(items[i].id);
    }
  }

  // `sort(newestFirst)`
  method Sort(entries: seq<PartnerRequest>) returns (sorted: seq<PartnerRequest>)
    requires HasDistinctIds(entries)
    ensures IsDescending(sorted) && forall id :: LastOf(sorted, id) == LastOf(entries, id)
  {
    hide Less, HasDistinctIds, IsDescending, LastOf;
    NoRequests();
    sorted := [];
    var i := 0;
    assert entries[..0] == [];
    while i < |entries|
      invariant 0 <= i <= |entries| && IsDescending(sorted)
      invariant forall id :: LastOf(sorted, id) == LastOf(entries[..i], id)
    {
      NotSeenBefore(entries, i);
      OneMore(entries, i);
      InsertedHolds(sorted, entries[i]);
      InsertedIsDescending(sorted, entries[i]);
      sorted := Inserted(sorted, entries[i]);
      i := i + 1;
    }
    assert entries[..i] == entries;
  }

  lemma NoRequests()
    ensures IsDescending([]) && HasDistinctIds([]) && forall id :: LastOf([], id) == None
  {
  }

  lemma NotSeenBefore(entries: seq<PartnerRequest>, i: nat)
    requires HasDistinctIds(entries) && i < |entries|
    ensures LastOf(entries[..i], entries[i].id).None?
  {
    LastOfFinds(entries[..i], entries[i].id);
  }

  lemma OneMore(items: seq<PartnerRequest>, i: nat)
    requires i < |items|
    ensures forall id :: LastOf(items[..i + 1], id) == if items[i].id == id then Some(items[i])
      else LastOf(items[..i], id)
  {
    var front := items[..i + 1];
    assert front[..|front| - 1] == items[..i] && front[|front| - 1] == items[i];
    forall id ensures LastOf(front, id) == if items[i].id == id then Some(items[i]) else LastOf(items[..i], id) {
      LastOfStep(front, id);
    }
  }

  lemma LastOfStep(items: seq<PartnerRequest>, id: string)
    requires items != []
    ensures LastOf(items, id) ==
      if items[|items| - 1].id == id then Some(items[|items| - 1]) else LastOf(items[..|items| - 1], id)
  {
  }

  lemma MergeOneMore(
      after: seq<PartnerRequest>, before: seq<PartnerRequest>, known: seq<PartnerRequest>,
      incoming: seq<PartnerRequest>, i: nat)
    requires i < |incoming| && IsMerge(before, known, incoming[..i])
    requires forall id :: LastOf(after, id) == if id == incoming[i].id then Some(incoming[i]) else LastOf(before, id)
    ensures IsMerge(after, known, incoming[..i + 1])
  {
    hide LastOf;
    OneMore(incoming, i);
    forall id ensures LastOf(after, id)
      == if LastOf(incoming[..i + 1], id).Some? then LastOf(incoming[..i + 1], id) else LastOf(known, id)
    {
      assert LastOf(before, id) == if LastOf(incoming[..i], id).Some? then LastOf(incoming[..i], id)
        else LastOf(known, id);
    }
  }

  method MergeById(known: seq<PartnerRequest>, incoming: seq<PartnerRequest>) returns (merged: seq<PartnerRequest>)
    requires IsDescending(known)
    ensures IsDescending(merged) && IsMerge(merged, known, incoming)
  {
    hide Less, HasDistinctIds, IsDescending, LastOf;
    DescendingIsDistinct(known);
    NoRequests();
    var byId := known;
    var i := 0;
    assert incoming[..0] == [];
    while i < |incoming|
      invariant 0 <= i <= |incoming| && HasDistinctIds(byId) && IsMerge(byId, known, incoming[..i])
    {
      OneMore(incoming, i);
      ghost var before := byId;
      byId := SetEntry(byId, incoming[i]);
      MergeOneMore(byId, before, known, incoming, i);
      i := i + 1;
    }
    assert incoming[..i] == incoming;
    merged := Sort(byId);
  }

  // For every id the same request, or none.
  ghost predicate HoldTheSame(a: seq<PartnerRequest>, b: seq<PartnerRequest>) {
    forall id :: LastOf(a, id) == LastOf(b, id)
  }

  lemma BothOrNoneEmpty(a: seq<PartnerRequest>, b: seq<PartnerRequest>)
    requires HoldTheSame(a, b)
    ensures a == [] <==> b == []
  {
    if a != [] { assert LastOf(b, a[|a| - 1].id).Some?; }
    if b != [] { assert LastOf(a, b[|b| - 1].id).Some?; }
  }

  lemma OldestIsTheSame(a: seq<PartnerRequest>, b: seq<PartnerRequest>)
    requires IsDescending(a) && IsDescending(b) && HoldTheSame(a, b) && a != [] && b != []
    ensures a[|a| - 1] == b[|b| - 1]
  {
    var m, n := |a| - 1, |b| - 1;
    assert LastOf(b, a[m].id) == Some(a[m]) && LastOf(a, b[n].id) == Some(b[n]);
    LastOfFinds(b, a[m].id);
    LastOfFinds(a, b[n].id);
    hide LastOf, HoldTheSame;
    var i: nat :| i < |b| && b[i] == a[m];
    var j: nat :| j < |a| && a[j] == b[n];
    if i < n && j < m {
      LessIsTransitive(a[m].id, a[j].id, b[i].id);
      LessIsStrict(a[m].id);
    }
  }

  lemma OthersAreTheSame(a: seq<PartnerRequest>, b: seq<PartnerRequest>)
    requires IsDescending(a) && IsDescending(b) && HoldTheSame(a, b) && a != [] && b != []
    requires a[|a| - 1] == b[|b| - 1]
    ensures IsDescending(a[..|a| - 1]) && IsDescending(b[..|b| - 1]) && HoldTheSame(a[..|a| - 1], b[..|b| - 1])
  {
    var c, d := a[..|a| - 1], b[..|b| - 1];
    forall id ensures LastOf(c, id) == LastOf(d, id) {
      assert LastOf(a, id) == LastOf(b, id);
      if id == a[|a| - 1].id {
        OldestComesOnce(a);
        OldestComesOnce(b);
      }
    }
  }

  lemma OldestComesOnce(a: seq<PartnerRequest>)
    requires IsDescending(a) && a != []
    ensures LastOf(a[..|a| - 1], a[|a| - 1].id) == None
  {
    DescendingIsDistinct(a);
    LastOfFinds(a[..|a| - 1], a[|a| - 1].id);
  }

  // The merge is what its two properties say, and nothing else: two descending lists with the same requests are equal.
  lemma {:induction false} MergesAreUnique(a: seq<PartnerRequest>, b: seq<PartnerRequest>)
    requires IsDescending(a) && IsDescending(b) && HoldTheSame(a, b)
    ensures a == b
  {
    hide HoldTheSame, LastOf, IsDescending;
    BothOrNoneEmpty(a, b);
    if a != [] {
      var m, n := |a| - 1, |b| - 1;
      OldestIsTheSame(a, b);
      OthersAreTheSame(a, b);
      MergesAreUnique(a[..m], b[..n]);
      assert a == a[..m] + [a[m]] && b == b[..n] + [b[n]];
    }
  }


  // --- The store -------------------------------------------------------------------------------

  datatype State = State(
    items: seq<PartnerRequest>, listState: LoadState, detail: Option<DetailState>, retrying: set<string>)

  const INITIAL := State([], Idle, None, {})

  // What happens between two awaits: the page calls a method, or an answer comes in.
  datatype Event =
    | LoadList
    | ListCame(incoming: seq<PartnerRequest>)
    | ListFailed(background: bool)
    | LoadDetail(id: string)
    | DetailCame(id: string, request: PartnerRequest)  // GET /requests/{id} was answered
    | DetailFailed(id: string, notFound: bool)
    | Created(request: PartnerRequest)
    | Retry(id: string)
    | Retried(request: PartnerRequest)
    | RetryOver(id: string)

  predicate Knows(items: seq<PartnerRequest>, id: string) {
    exists i :: 0 <= i < |items| && items[i].id == id
  }

  // The requests that an event merges into the cache.
  function MergedBy(e: Event): seq<PartnerRequest> {
    match e
    case ListCame(incoming) => incoming
    case DetailCame(_, request) => [request]
    case Created(request) => [request]
    case Retried(request) => [request]
    case _ => []
  }

  predicate Shows(s: State, id: string) {
    s.detail.Some? && s.detail.value.id == id
  }

  function DetailAfter(s: State, e: Event): Option<DetailState> {
    match e
    case LoadDetail(id) => Some(DetailState(id, if Knows(s.items, id) then Ready else DetailLoading))
    case DetailCame(id, _) => if Shows(s, id) then Some(DetailState(id, Ready)) else s.detail
    case DetailFailed(id, notFound) =>
      if !Shows(s, id) then s.detail
      else if Knows(s.items, id) then Some(DetailState(id, Ready))
      else Some(DetailState(id, if notFound then NotFound else DetailError))
    case _ => s.detail
  }

  function ListStateAfter(s: State, e: Event): LoadState {
    match e
    case LoadList => Loading
    case ListCame(_) => ListReady
    case ListFailed(background) => if background && |s.items| > 0 then s.listState else ListError
    case _ => s.listState
  }

  function RetryingAfter(s: State, e: Event): set<string> {
    match e
    case Retry(id) => s.retrying + {id}
    case RetryOver(id) => s.retrying - {id}
    case _ => s.retrying
  }

  ghost predicate Follows(s: State, e: Event, t: State) {
    && IsDescending(t.items) && IsMerge(t.items, s.items, MergedBy(e))
    && (MergedBy(e) == [] ==> t.items == s.items)
    && t.detail == DetailAfter(s, e) && t.listState == ListStateAfter(s, e) && t.retrying == RetryingAfter(s, e)
  }

  ghost predicate IsRun(states: seq<State>, events: seq<Event>) {
    && |states| == |events| + 1 && states[0] == INITIAL
    && forall k :: 0 <= k < |events| ==> Follows(states[k], events[k], states[k + 1])
  }

  lemma KnowsIsLastOf(items: seq<PartnerRequest>, id: string)
    ensures Knows(items, id) <==> LastOf(items, id).Some?
  {
    LastOfFinds(items, id);
  }

  lemma {:induction false} DescendingAlong(states: seq<State>, events: seq<Event>, k: nat)
    requires IsRun(states, events) && k <= |events|
    ensures IsDescending(states[k].items)
  {
    if k > 0 {
      assert Follows(states[k - 1], events[k - 1], states[k]);
    }
  }

  // No request ever disappears from the page.
  lemma {:induction false} KnownRequestsStay(states: seq<State>, events: seq<Event>, i: nat, k: nat, id: string)
    requires IsRun(states, events) && i <= k <= |events| && Knows(states[i].items, id)
    ensures Knows(states[k].items, id)
    decreases k
  {
    if i < k {
      hide IsDescending, LastOf, Knows, DetailAfter;
      KnownRequestsStay(states, events, i, k - 1, id);
      assert Follows(states[k - 1], events[k - 1], states[k]);
      KnowsIsLastOf(states[k - 1].items, id);
      KnowsIsLastOf(states[k].items, id);
    }
  }

  // All requests merged by the first events of a run, in order.
  function AllMerged(events: seq<Event>): seq<PartnerRequest> {
    if events == [] then [] else AllMerged(events[..|events| - 1]) + MergedBy(events[|events| - 1])
  }

  lemma {:induction false} LastOfSum(a: seq<PartnerRequest>, b: seq<PartnerRequest>, id: string)
    ensures LastOf(a + b, id) == if LastOf(b, id).Some? then LastOf(b, id) else LastOf(a, id)
  {
    if b == [] {
      assert a + b == a;
    } else {
      assert (a + b)[..|a + b| - 1] == a + b[..|b| - 1];
      LastOfSum(a, b[..|b| - 1], id);
    }
  }

  // Whatever the order of the answers, the cache holds for every id the request that was merged last, and only ids that
  // some answer brought.
  lemma {:induction false} TheLastAnswerWins(states: seq<State>, events: seq<Event>, k: nat, id: string)
    requires IsRun(states, events) && k <= |events|
    ensures LastOf(states[k].items, id) == LastOf(AllMerged(events[..k]), id)
  {
    if k == 0 {
      assert events[..0] == [];
    } else {
      TheLastAnswerWins(states, events, k - 1, id);
      assert events[..k][..k - 1] == events[..k - 1];
      hide LastOf, IsDescending, DetailAfter;
      assert Follows(states[k - 1], events[k - 1], states[k]);
      LastOfSum(AllMerged(events[..k - 1]), MergedBy(events[k - 1]), id);
    }
  }

  // A `ready` detail names a cached request.
  predicate ReadyIsCached(s: State) {
    s.detail.Some? && s.detail.value.status == Ready ==> Knows(s.items, s.detail.value.id)
  }

  // The answer to GET /requests/{id} for the page shown is a request of another id, and the one shown is unknown.
  predicate AnswersForAnother(s: State, e: Event) {
    e.DetailCame? && Shows(s, e.id) && e.request.id != e.id && !Knows(s.items, e.id)
  }

  // A step keeps this exactly when the answer to a detail call is about the request that was asked for, or it is known
  // already.
  lemma ReadyExactlyWithoutMixups(s: State, e: Event, t: State)
    requires Follows(s, e, t) && ReadyIsCached(s)
    ensures ReadyIsCached(t) <==> !AnswersForAnother(s, e)
  {
    if t.detail.Some? {
      var id := t.detail.value.id;
      KnowsIsLastOf(s.items, id);
      KnowsIsLastOf(t.items, id);
      hide IsDescending, Knows;
      if e.DetailCame? {
        assert [e.request][..0] == [];
        LastOfStep([e.request], id);
      }
    }
  }

  ghost predicate ReadySoFar(states: seq<State>, n: nat)
    requires n < |states|
  {
    forall k :: 0 <= k <= n ==> ReadyIsCached(states[k])
  }

  predicate NoMixupsBefore(states: seq<State>, events: seq<Event>, n: nat)
    requires n <= |events| <= |states|
  {
    forall k :: 0 <= k < n ==> !AnswersForAnother(states[k], events[k])
  }

  // Along a run a `ready` detail names a cached request in every state, exactly until the first such mix-up.
  lemma {:induction false} ReadyAlongExactlyWithoutMixups(states: seq<State>, events: seq<Event>, n: nat)
    requires IsRun(states, events) && n <= |events|
    ensures ReadySoFar(states, n) <==> NoMixupsBefore(states, events, n)
  {
    hide Follows, Knows, AnswersForAnother;
    if n > 0 {
      hide ReadyIsCached;
      ReadyAlongExactlyWithoutMixups(states, events, n - 1);
      if ReadyIsCached(states[n - 1]) {
        ReadyExactlyWithoutMixups(states[n - 1], events[n - 1], states[n]);
      }
    }
  }

  // The API answers for the id it is asked for; then a `ready` detail always names a cached request.
  lemma ReadyDetailsAreCached(states: seq<State>, events: seq<Event>, k: nat)
    requires IsRun(states, events) && k <= |events|
    requires forall i :: 0 <= i < k && events[i].DetailCame? ==> events[i].request.id == events[i].id
    ensures ReadyIsCached(states[k])
  {
    hide IsRun, ReadyIsCached;
    ReadyAlongExactlyWithoutMixups(states, events, k);
  }

  lemma OneMerged(request: PartnerRequest)
    ensures IsDescending([request]) && IsMerge([request], [], [request]) && IsMerge([], [], [])
  {
    forall id ensures LastOf([request], id) == if LastOf([request], id).Some? then LastOf([request], id)
      else LastOf([], id) {
      LastOfStep([request], id);
    }
  }

  // If it answers for another id, the page is ready to show a request that it does not have: from the first state on,
  // for any two ids.
  lemma AMixedUpAnswerShowsNothing(id: string, other: PartnerRequest) returns (states: seq<State>)
    requires other.id != id
    ensures var events := [LoadDetail(id), DetailCame(id, other)];
      IsRun(states, events) && ReadyIsCached(states[1]) && !ReadyIsCached(states[2])
  {
    hide IsMerge;
    var asked := INITIAL.(detail := Some(DetailState(id, DetailLoading)));
    var answered := asked.(items := [other], detail := Some(DetailState(id, Ready)));
    OneMerged(other);
    states := [INITIAL, asked, answered];
    assert Follows(INITIAL, LoadDetail(id), asked) && Follows(asked, DetailCame(id, other), answered);
  }

  class RequestsStore {
    var items: seq<PartnerRequest>
    var listState: LoadState
    var detail: Option<DetailState>
    var retrying: set<string>

    function Contents(): State
      reads this
    {
      State(items, listState, detail, retrying)
    }

    constructor ()
      ensures Contents() == INITIAL
    {
      items, listState, detail, retrying := [], Idle, None, {};
    }

    method FindById(id: string) returns (found: Option<PartnerRequest>)
      ensures found.Some? <==> Knows(items, id)
      ensures found.Some? ==> found.value in items && found.value.id == id
    {
      var i := 0;
      while i < |items|
        invariant 0 <= i <= |items| && forall j :: 0 <= j < i ==> items[j].id != id
      {
        if items[i].id == id {
          return Some(items[i]);
        }
        i := i + 1;
      }
      return None;
    }

    method Merge(incoming: seq<PartnerRequest>)
      requires IsDescending(items)
      modifies this`items
      ensures IsDescending(items) && IsMerge(items, old(items), incoming)
    {
      items := MergeById(items, incoming);
    }

    lemma NothingMerged(known: seq<PartnerRequest>)
      ensures IsMerge(known, known, [])
    {
    }

    // `loadList` up to its call.
    method BeginList()
      requires IsDescending(items)
      modifies this
      ensures Follows(old(Contents()), LoadList, Contents())
      ensures items == old(items) && listState == Loading && detail == old(detail) && retrying == old(retrying)
    {
      listState := Loading;
      NothingMerged(items);
    }

    // `loadList` and `refreshList` after the answer.
    method ListAnswered(incoming: seq<PartnerRequest>)
      requires IsDescending(items)
      modifies this
      ensures Follows(old(Contents()), ListCame(incoming), Contents())
      ensures IsMerge(items, old(items), incoming) && IsDescending(items)
      ensures listState == ListReady && detail == old(detail) && retrying == old(retrying)
    {
      hide IsDescending;
      ghost var known := items;
      Merge(incoming);
      listState := ListReady;
      EmptyMerge(items, known, incoming);
    }

    method ListCallFailed(background: bool)
      requires IsDescending(items)
      modifies this
      ensures Follows(old(Contents()), ListFailed(background), Contents())
      ensures items == old(items) && detail == old(detail) && retrying == old(retrying)
      // Only a list that shows something, and that nobody is waiting for, hides the failure.
      ensures listState == if background && items != [] then old(listState) else ListError
    {
      NothingMerged(items);
      if background && |items| > 0 {
        return;
      }
      listState := ListError;
    }

    // `loadDetail` up to the call it may need.
    method BeginDetail(id: string) returns (asks: bool)
      requires IsDescending(items)
      modifies this
      ensures Follows(old(Contents()), LoadDetail(id), Contents())
      ensures asks <==> !Knows(items, id)
      ensures items == old(items) && listState == old(listState) && retrying == old(retrying)
      ensures detail == Some(DetailState(id, if asks then DetailLoading else Ready))
    {
      NothingMerged(items);
      var found := FindById(id);
      if found.Some? {
        detail := Some(DetailState(id, Ready));
        return false;
      }
      detail := Some(DetailState(id, DetailLoading));
      return true;
    }

    // `fetchDetail` after the answer.
    method DetailAnswered(id: string, request: PartnerRequest)
      requires IsDescending(items)
      modifies this
      ensures Follows(old(Contents()), DetailCame(id, request), Contents())
      ensures IsMerge(items, old(items), [request]) && listState == old(listState) && retrying == old(retrying)
      ensures old(detail).Some? && old(detail).value.id == id ==> detail == Some(DetailState(id, Ready))
      ensures old(detail).None? || old(detail).value.id != id ==> detail == old(detail)
    {
      hide IsDescending, IsMerge;
      Merge([request]);
      if detail.Some? && detail.value.id == id {
        detail := Some(DetailState(id, Ready));
      }
    }

    method DetailCallFailed(id: string, notFound: bool)
      requires IsDescending(items)
      modifies this
      ensures Follows(old(Contents()), DetailFailed(id, notFound), Contents())
      ensures items == old(items) && listState == old(listState) && retrying == old(retrying)
      ensures old(detail).None? || old(detail).value.id != id ==> detail == old(detail)
      ensures old(detail).Some? && old(detail).value.id == id ==>
        && detail.Some? && detail.value.id == id
        && match detail.value.status
           case Ready => Knows(items, id)
           case NotFound => !Knows(items, id) && notFound
           case DetailError => !Knows(items, id) && !notFound
           case DetailLoading => false
    {
      NothingMerged(items);
      if detail.None? || detail.value.id != id {
        return;
      }
      var found := FindById(id);
      if found.Some? {
        detail := Some(DetailState(id, Ready));
        return;
      }
      detail := Some(DetailState(id, if notFound then NotFound else DetailError));
    }

    // `create` after the answer.
    method CreateAnswered(request: PartnerRequest)
      requires IsDescending(items)
      modifies this
      ensures Follows(old(Contents()), Event.Created(request), Contents())
      ensures IsMerge(items, old(items), [request])
      ensures listState == old(listState) && detail == old(detail) && retrying == old(retrying)
    {
      hide IsDescending, IsMerge;
      Merge([request]);
    }

    // `retry`: up to its call, after the answer, and its `finally`.
    method BeginRetry(id: string)
      requires IsDescending(items)
      modifies this
      ensures Follows(old(Contents()), Retry(id), Contents())
      ensures items == old(items) && listState == old(listState) && detail == old(detail)
      ensures forall other :: other in retrying <==> other == id || other in old(retrying)
    {
      NothingMerged(items);
      retrying := retrying + {id};
    }

    method RetryAnswered(request: PartnerRequest)
      requires IsDescending(items)
      modifies this
      ensures Follows(old(Contents()), Retried(request), Contents())
      ensures IsMerge(items, old(items), [request])
      ensures listState == old(listState) && detail == old(detail) && retrying == old(retrying)
    {
      hide IsDescending, IsMerge;
      Merge([request]);
    }

    method EndRetry(id: string)
      requires IsDescending(items)
      modifies this
      ensures Follows(old(Contents()), RetryOver(id), Contents())
      ensures items == old(items) && listState == old(listState) && detail == old(detail)
      ensures forall other :: other in retrying <==> other != id && other in old(retrying)
    {
      NothingMerged(items);
      retrying := retrying - {id};
    }
  }

  // Merging nothing changes nothing.
  lemma EmptyMerge(merged: seq<PartnerRequest>, known: seq<PartnerRequest>, incoming: seq<PartnerRequest>)
    requires IsDescending(merged) && IsDescending(known) && IsMerge(merged, known, incoming)
    ensures incoming == [] ==> merged == known
  {
    if incoming == [] {
      assert forall id :: LastOf(incoming, id) == None;
      MergesAreUnique(merged, known);
    }
  }
}
