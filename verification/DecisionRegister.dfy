/** What the conditional write of dynamodb-decision-repository.ts makes of any sequence of events: a
    register in which the latest `OccurredAt` wins, whatever the order and number of deliveries. */
module DecisionRegister {
  import opened Basics
  import opened RequestStatus
  import opened RequestsTable

  // The stored decision after these events of one request have arrived, in this order.
  function Register(arrivals: seq<StoredDecision>): Option<StoredDecision> {
    if arrivals == [] then None
    else
      var before := Register(arrivals[..|arrivals| - 1]);
      var event := arrivals[|arrivals| - 1];
      if Replaces(before, event) then Some(event) else before
  }

  lemma RegisterGrows(arrivals: seq<StoredDecision>, event: StoredDecision)
    ensures Register(arrivals + [event]) == if Replaces(Register(arrivals), event) then Some(event)
      else Register(arrivals)
  {
    assert (arrivals + [event])[..|arrivals|] == arrivals;
  }

  // The event at position k is strictly later than everything before it and at least as late as everything after.
  predicate WinsAt(arrivals: seq<StoredDecision>, k: nat) {
    && k < |arrivals|
    && (forall j :: 0 <= j < k ==> arrivals[j].atMs < arrivals[k].atMs)
    && (forall j :: k <= j < |arrivals| ==> arrivals[j].atMs <= arrivals[k].atMs)
  }

  // The greatest time, and of several events with that time the first received.
  ghost predicate IsFirstLatest(arrivals: seq<StoredDecision>, d: Option<StoredDecision>) {
    if arrivals == [] then d == None else exists k: nat :: WinsAt(arrivals, k) && d == Some(arrivals[k])
  }

  // Arrival j gives the stored event a later time than it was stored with.
  predicate Redates(arrivals: seq<StoredDecision>, j: nat)
    requires j < |arrivals|
  {
    var stored := Register(arrivals[..j]);
    stored.Some? && stored.value.eventId == arrivals[j].eventId && stored.value.atMs < arrivals[j].atMs
  }

  // As decisions.py sends them: an event id always carries the one time its document was built with.
  predicate OneTimePerEvent(arrivals: seq<StoredDecision>) {
    forall i, j :: 0 <= i < |arrivals| && 0 <= j < |arrivals| && arrivals[i].eventId == arrivals[j].eventId
      ==> arrivals[i].atMs == arrivals[j].atMs
  }

  lemma TheWinnerIsUnique(arrivals: seq<StoredDecision>, k: nat, d: Option<StoredDecision>)
    requires WinsAt(arrivals, k)
    ensures IsFirstLatest(arrivals, d) <==> d == Some(arrivals[k])
  {
  }

  lemma TheWinnerAfterOneMore(arrivals: seq<StoredDecision>, event: StoredDecision, k: nat)
    requires WinsAt(arrivals, k)
    ensures WinsAt(arrivals + [event], if arrivals[k].atMs < event.atMs then |arrivals| else k)
  {
  }

  lemma OneMoreWin(arrivals: seq<StoredDecision>, event: StoredDecision, k: nat)
    requires k < |arrivals| && WinsAt(arrivals, k) && Register(arrivals) == Some(arrivals[k])
    ensures var all := arrivals + [event];
      IsFirstLatest(all, Register(all)) <==> !Redates(all, |arrivals|)
  {
    hide Register, WinsAt, IsFirstLatest;
    var all := arrivals + [event];
    assert all[..|arrivals|] == arrivals;
    RegisterGrows(arrivals, event);
    TheWinnerAfterOneMore(arrivals, event, k);
    TheWinnerIsUnique(all, if arrivals[k].atMs < event.atMs then |arrivals| else k, Register(all));
  }

  lemma FirstArrival(event: StoredDecision)
    ensures IsFirstLatest([event], Register([event])) && !Redates([event], 0)
  {
    NothingYet();
    RegisterGrows([], event);
    hide Register;
    assert [] + [event] == [event] && [event][..0] == [] && WinsAt([event], 0);
  }

  lemma NothingYet()
    ensures Register([]) == None
  {
  }

  lemma OneMoreArrival(arrivals: seq<StoredDecision>, event: StoredDecision)
    requires IsFirstLatest(arrivals, Register(arrivals))
    ensures var all := arrivals + [event];
      IsFirstLatest(all, Register(all)) <==> !Redates(all, |arrivals|)
  {
    if arrivals == [] {
      hide IsFirstLatest, Register, Redates;
      FirstArrival(event);
      assert arrivals + [event] == [event];
    } else {
      hide Register, Redates;
      var k: nat :| WinsAt(arrivals, k) && Register(arrivals) == Some(arrivals[k]);
      hide IsFirstLatest, WinsAt;
      OneMoreWin(arrivals, event, k);
    }
  }


  // The two sides of the theorem below.
  ghost predicate RightSoFar(arrivals: seq<StoredDecision>) {
    forall n :: 0 <= n <= |arrivals| ==> IsFirstLatest(arrivals[..n], Register(arrivals[..n]))
  }

  predicate NeverRedates(arrivals: seq<StoredDecision>) {
    forall j :: 0 <= j < |arrivals| ==> !Redates(arrivals, j)
  }

  lemma OneStep(before: seq<StoredDecision>, event: StoredDecision)
    ensures var all := before + [event];
      && (RightSoFar(all) <==> RightSoFar(before) && IsFirstLatest(all, Register(all)))
      && (NeverRedates(all) <==> NeverRedates(before) && !Redates(all, |before|))
  {
    hide IsFirstLatest, Register;
    var all := before + [event];
    assert all[..|all|] == all;
    assert forall n :: 0 <= n <= |before| ==> before[..n] == all[..n];
    assert forall j :: 0 <= j < |before| ==> Redates(before, j) == Redates(all, j);
    if RightSoFar(before) && IsFirstLatest(all, Register(all)) {
      forall n | 0 <= n <= |all| ensures IsFirstLatest(all[..n], Register(all[..n])) {
        if n <= |before| { assert before[..n] == all[..n]; }
      }
    }
    if RightSoFar(all) {
      forall n | 0 <= n <= |before| ensures IsFirstLatest(before[..n], Register(before[..n])) {
        assert before[..n] == all[..n];
      }
    }
    if NeverRedates(all) {
      forall j | 0 <= j < |before| ensures !Redates(before, j) {
        assert !Redates(all, j);
      }
    }
  }

  // Exactly when the register is right after every single arrival: when no arrival redates the stored event.
  lemma {:induction false} RightExactlyWithoutRedating(arrivals: seq<StoredDecision>)
    ensures RightSoFar(arrivals) <==> NeverRedates(arrivals)
  {
    if arrivals == [] {
    } else {
      var before, event := arrivals[..|arrivals| - 1], arrivals[|arrivals| - 1];
      assert before + [event] == arrivals && before[..|before|] == before;
      RightExactlyWithoutRedating(before);
      OneStep(before, event);
      hide Register, IsFirstLatest, Redates, NeverRedates;
      if RightSoFar(before) {
        OneMoreArrival(before, event);
      }
    }
  }

  lemma {:induction false} StoredHasArrived(arrivals: seq<StoredDecision>)
    ensures Register(arrivals).Some? <==> arrivals != []
    ensures Register(arrivals).Some? ==> Register(arrivals).value in arrivals
  {
    if arrivals != [] {
      StoredHasArrived(arrivals[..|arrivals| - 1]);
    }
  }

  // With one time per event id the register is right, after any order and any duplication of deliveries.
  lemma Converges(arrivals: seq<StoredDecision>)
    requires OneTimePerEvent(arrivals)
    ensures IsFirstLatest(arrivals, Register(arrivals))
  {
    forall j | 0 <= j < |arrivals| ensures !Redates(arrivals, j) {
      StoredHasArrived(arrivals[..j]);
    }
    RightExactlyWithoutRedating(arrivals);
    assert arrivals[..|arrivals|] == arrivals;
  }

  predicate SameEvents(a: seq<StoredDecision>, b: seq<StoredDecision>) {
    && (forall e :: e in a ==> e in b)
    && (forall e :: e in b ==> e in a)
  }

  lemma BothOrNoneEmpty(a: seq<StoredDecision>, b: seq<StoredDecision>)
    requires SameEvents(a, b)
    ensures a == [] <==> b == []
  {
    if a != [] { assert a[0] in b; }
    if b != [] { assert b[0] in a; }
  }

  lemma OneTimeInBoth(a: seq<StoredDecision>, b: seq<StoredDecision>)
    requires SameEvents(a, b) && OneTimePerEvent(a)
    ensures OneTimePerEvent(b)
  {
    forall i, j | 0 <= i < |b| && 0 <= j < |b| && b[i].eventId == b[j].eventId ensures b[i].atMs == b[j].atMs {
      assert b[i] in a && b[j] in a;
    }
  }

  lemma WinnersTie(a: seq<StoredDecision>, b: seq<StoredDecision>, k: nat, m: nat)
    requires SameEvents(a, b) && WinsAt(a, k) && WinsAt(b, m)
    ensures a[k] in a && b[m] in a && a[k].atMs == b[m].atMs
  {
    assert a[k] in b && b[m] in a;
  }

  // Two histories made of the same events end with the same time, and with the same event unless two events tie
  // for the greatest time.
  lemma OrderDoesNotMatter(a: seq<StoredDecision>, b: seq<StoredDecision>)
    requires SameEvents(a, b) && OneTimePerEvent(a)
    ensures Register(a).Some? == Register(b).Some?
    ensures Register(a).Some? ==> Register(a).value.atMs == Register(b).value.atMs
    ensures Register(a) == Register(b)
      || exists e, f :: e in a && f in a && e != f && e.atMs == f.atMs == Register(a).value.atMs
  {
    hide Register, OneTimePerEvent;
    OneTimeInBoth(a, b);
    Converges(a);
    Converges(b);
    BothOrNoneEmpty(a, b);
    if a == [] {
    } else {
      var k: nat :| WinsAt(a, k) && Register(a) == Some(a[k]);
      var m: nat :| WinsAt(b, m) && Register(b) == Some(b[m]);
      hide IsFirstLatest, WinsAt;
      WinnersTie(a, b, k, m);
    }
  }

  // Whatever arrives, the stored time never goes back, and a stored decision never disappears.
  lemma {:induction false} TheStoredTimeNeverDecreases(arrivals: seq<StoredDecision>, n: nat)
    requires n <= |arrivals| && Register(arrivals[..n]).Some?
    ensures Register(arrivals).Some? && Register(arrivals[..n]).value.atMs <= Register(arrivals).value.atMs
  {
    if n == |arrivals| {
      assert arrivals[..n] == arrivals;
    } else {
      var before := arrivals[..|arrivals| - 1];
      assert before[..n] == arrivals[..n];
      TheStoredTimeNeverDecreases(before, n);
    }
  }

  // Without that, the register can be wrong: an event that comes again with a later time is taken for a repeat.
  lemma ARedatedEventIsLost(e: StoredDecision, later: int)
    requires e.atMs < later
    ensures var f := e.(atMs := later);
      Register([e, f]) == Some(e) && !IsFirstLatest([e, f], Some(e))
  {
    var f := e.(atMs := later);
    assert [e, f] == [e] + [f] && [e] == [] + [e];
    RegisterGrows([], e);
    RegisterGrows([e], f);
    hide Register;
    TheWinnerIsUnique([e, f], 1, Some(e));
  }

  // --- The register among all the other writes to the table ------------------------------------

  datatype Write = Create(id: Ulid, content: Content) | Retry(id: Ulid) | Move(id: Ulid, to: Status)
    | Arrive(id: Ulid, event: StoredDecision)

  function After(t: Table, w: Write): Table {
    match w
    case Create(id, content) => CreateItem(t, id, content).0
    case Retry(id) => RetryItem(t, id).0
    case Move(id, to) => MoveItem(t, to, id).0
    case Arrive(id, event) => RecordDecisionOn(t, id, event).0
  }

  // The other writes do what they do in the step system.
  lemma OtherWrites(t: Table, id: Ulid, content: Content, to: Status)
    ensures id !in t.items ==> var u := After(t, Create(id, content));
      id in u.items && u.items[id].content == content && u.items[id].status == Created && u.items[id].decision == None
    ensures id in t.items && t.items[id].status == Failed ==> var u := After(t, Retry(id));
      id in u.items && u.items[id].status == Created && u.items[id].Retries() == t.items[id].Retries() + 1
    ensures id in t.items && MayMove(t.items[id].status, to) ==> var u := After(t, Move(id, to));
      id in u.items && u.items[id].status == to
  {
  }

  function AfterAll(writes: seq<Write>): Table {
    if writes == [] then EMPTY_TABLE else After(AfterAll(writes[..|writes| - 1]), writes[|writes| - 1])
  }

  // The events for one request that arrived while the request existed.
  function ArrivalsOf(writes: seq<Write>, id: Ulid): seq<StoredDecision> {
    if writes == [] then []
    else
      var before, w := writes[..|writes| - 1], writes[|writes| - 1];
      if w.Arrive? && w.id == id && id in AfterAll(before).items then ArrivalsOf(before, id) + [w.event]
      else ArrivalsOf(before, id)
  }

  function WithoutArrivals(writes: seq<Write>): seq<Write> {
    if writes == [] then []
    else
      var before, w := WithoutArrivals(writes[..|writes| - 1]), writes[|writes| - 1];
      if w.Arrive? then before else before + [w]
  }

  // A request of table t with this decision looks in table u as if it had none.
  predicate Apart(t: Table, u: Table, id: Ulid, decision: Option<StoredDecision>) {
    && (id in t.items <==> id in u.items)
    && (id in t.items ==> t.items[id].decision == decision && u.items[id] == t.items[id].(decision := None))
    && (id !in t.items ==> decision == None)
  }

  lemma OneWrite(t: Table, u: Table, w: Write, id: Ulid, decision: Option<StoredDecision>)
    requires Apart(t, u, id, decision)
    ensures !w.Arrive? ==> Apart(After(t, w), After(u, w), id, decision)
    ensures w.Arrive? ==> Apart(After(t, w), u, id,
      if w.id == id && id in t.items && Replaces(decision, w.event) then Some(w.event) else decision)
  {
  }

  // Over any run of writes to the table the decision of a request is the register of its own events, and
  // everything else about it is as if no event had ever arrived.
  lemma {:induction false} TheRegisterStandsApart(writes: seq<Write>, id: Ulid)
    ensures Apart(AfterAll(writes), AfterAll(WithoutArrivals(writes)), id, Register(ArrivalsOf(writes, id)))
  {
    if writes != [] {
      var before, w := writes[..|writes| - 1], writes[|writes| - 1];
      var plain, arrivals := WithoutArrivals(before), ArrivalsOf(before, id);
      assert !w.Arrive? ==> (plain + [w])[..|plain|] == plain;
      TheRegisterStandsApart(before, id);
      RegisterGrows(arrivals, if w.Arrive? then w.event else StoredDecision(Approved, "", 0));
      hide After, Apart, Register, Replaces;
      OneWrite(AfterAll(before), AfterAll(plain), w, id, Register(arrivals));
    }
  }
}
