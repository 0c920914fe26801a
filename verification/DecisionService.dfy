/** partner-sim/app/decisions.py with the event store of storage.py, and the sender's register behind the
    webhook: store before send, any number of sends of the same document, any loss of answers. */
module DecisionService {
  import opened Basics
  import opened RequestsTable
  import opened DecisionRegister

  datatype SendState = Pending | Delivered | NotDelivered

  // One row of `decision_events`; its document is kept as the event it carries.
  datatype EventRow = EventRow(requestId: Ulid, event: StoredDecision, state: SendState, attempts: nat)

  // All writes to the sender's table so far, the recipient's rows, and the events that got a 2xx answer.
  datatype State = State(writes: seq<Write>, rows: map<string, EventRow>, answered: set<string>)

  datatype Step =
    | Elsewhere(write: Write)                         // the API, the enqueuer, the workers
    | AddEvent(requestId: Ulid, event: StoredDecision)
    | Reach(eventId: string)                          // a copy of the stored document arrives at the webhook
    | RecordAttempt(eventId: string, delivered: bool) // what the sending thread saw

  predicate Enabled(s: State, step: Step) {
    match step
    case Elsewhere(write) => !write.Arrive?
    case AddEvent(_, event) => event.eventId !in s.rows // UNIQUE
    case Reach(eventId) => eventId in s.rows
    case RecordAttempt(eventId, delivered) => eventId in s.rows && (delivered ==> eventId in s.answered)
  }

  function Next(s: State, step: Step): State
    requires Enabled(s, step)
  {
    match step
    case Elsewhere(write) => s.(writes := s.writes + [write])
    case AddEvent(requestId, event) => s.(rows := s.rows[event.eventId := EventRow(requestId, event, Pending, 0)])
    case Reach(eventId) =>
      var row := s.rows[eventId];
      var known := row.requestId in AfterAll(s.writes).items; // otherwise the webhook answers 404
      s.(writes := s.writes + [Arrive(row.requestId, row.event)],
         answered := if known then s.answered + {eventId} else s.answered)
    case RecordAttempt(eventId, delivered) =>
      var row := s.rows[eventId];
      var state := if delivered then Delivered else NotDelivered;
      s.(rows := s.rows[eventId := row.(state := state, attempts := row.attempts + 1)])
  }

  const INITIAL := State([], map[], {})

  ghost predicate IsPath(run: seq<State>) {
    |run| > 0 && forall i {:trigger run[i]} :: 0 < i < |run| ==> Follows(run[i - 1], run[i])
  }

  ghost predicate IsRun(run: seq<State>) {
    IsPath(run) && run[0] == INITIAL
  }

  ghost predicate Follows(s: State, t: State) {
    exists step :: Enabled(s, step) && t == Next(s, step)
  }

  // --- What every run keeps --------------------------------------------------------------------

  predicate Keyed(s: State) {
    forall eventId :: eventId in s.rows ==> s.rows[eventId].event.eventId == eventId
  }

  // Whatever reached a request is a stored event of that request.
  predicate FromTheStore(s: State, id: Ulid) {
    forall e :: e in ArrivalsOf(s.writes, id) ==>
      e.eventId in s.rows && s.rows[e.eventId].event == e && s.rows[e.eventId].requestId == id
  }

  // Whoever got a 2xx answer is among the arrivals.
  predicate AnsweredArrived(s: State, id: Ulid) {
    forall eventId :: eventId in s.answered && eventId in s.rows && s.rows[eventId].requestId == id ==>
      s.rows[eventId].event in ArrivalsOf(s.writes, id)
  }

  predicate DeliveredWasAnswered(s: State) {
    && (forall eventId :: eventId in s.answered ==> eventId in s.rows)
    && (forall eventId :: eventId in s.rows && s.rows[eventId].state.Delivered? ==> eventId in s.answered)
  }

  ghost predicate Inv(s: State) {
    && Keyed(s) && DeliveredWasAnswered(s)
    && (forall id: Ulid :: FromTheStore(s, id) && AnsweredArrived(s, id))
  }

  lemma ArrivalsGrow(writes: seq<Write>, w: Write, id: Ulid)
    ensures ArrivalsOf(writes + [w], id) ==
      if w.Arrive? && w.id == id && id in AfterAll(writes).items then ArrivalsOf(writes, id) + [w.event]
      else ArrivalsOf(writes, id)
  {
    assert (writes + [w])[..|writes|] == writes;
  }

  lemma NextKeepsArrivals(s: State, step: Step, id: Ulid)
    requires Keyed(s) && DeliveredWasAnswered(s) && FromTheStore(s, id) && AnsweredArrived(s, id) && Enabled(s, step)
    ensures FromTheStore(Next(s, step), id) && AnsweredArrived(Next(s, step), id)
  {
    hide AfterAll;
    match step
    case Elsewhere(write) => ArrivalsGrow(s.writes, write, id);
    case Reach(eventId) => ArrivalsGrow(s.writes, Arrive(s.rows[eventId].requestId, s.rows[eventId].event), id);
    case _ =>
  }

  lemma NextKeepsInv(s: State, step: Step)
    requires Inv(s) && Enabled(s, step)
    ensures Inv(Next(s, step))
  {
    hide FromTheStore, AnsweredArrived;
    forall id: Ulid ensures FromTheStore(Next(s, step), id) && AnsweredArrived(Next(s, step), id) {
      NextKeepsArrivals(s, step, id);
    }
  }

  lemma {:induction false} InvAlong(run: seq<State>, i: nat)
    requires IsRun(run) && i < |run|
    ensures Inv(run[i])
  {
    if i > 0 {
      InvAlong(run, i - 1);
      assert Follows(run[i - 1], run[i]);
      var step :| Enabled(run[i - 1], step) && run[i] == Next(run[i - 1], step);
      NextKeepsInv(run[i - 1], step);
    }
  }

  // In every run, however often events are sent and whatever is lost: each request holds the latest of the events
  // that reached it (the first of equally late ones), every one of them a stored event of that request.
  lemma TheDecisionIsTheLatest(run: seq<State>, i: nat, id: Ulid)
    requires IsRun(run) && i < |run| && id in AfterAll(run[i].writes).items
    ensures var arrivals := ArrivalsOf(run[i].writes, id);
      && IsFirstLatest(arrivals, AfterAll(run[i].writes).items[id].decision)
      && (forall e :: e in arrivals ==> e.eventId in run[i].rows && run[i].rows[e.eventId].event == e)
  {
    var s := run[i];
    var arrivals := ArrivalsOf(s.writes, id);
    InvAlong(run, i);
    assert FromTheStore(s, id);
    TheRegisterStandsApart(s.writes, id);
    assert OneTimePerEvent(arrivals) by {
      forall m, n | 0 <= m < |arrivals| && 0 <= n < |arrivals| && arrivals[m].eventId == arrivals[n].eventId
        ensures arrivals[m].atMs == arrivals[n].atMs
      {
        assert arrivals[m] in arrivals && arrivals[n] in arrivals;
      }
    }
    Converges(arrivals);
  }

  // An event that the recipient's page shows as delivered counts for good: the request holds it, or one that is at
  // least as late.
  lemma DeliveredDecisionsCount(run: seq<State>, i: nat, eventId: string)
    requires IsRun(run) && i < |run| && eventId in run[i].rows && run[i].rows[eventId].state.Delivered?
    ensures var row, items := run[i].rows[eventId], AfterAll(run[i].writes).items;
      && row.requestId in items && items[row.requestId].decision.Some?
      && items[row.requestId].decision.value.atMs >= row.event.atMs
  {
    var s := run[i];
    var row := s.rows[eventId];
    InvAlong(run, i);
    assert AnsweredArrived(s, row.requestId);
    TheRegisterStandsApart(s.writes, row.requestId);
    StoredHasArrived(ArrivalsOf(s.writes, row.requestId));
    TheDecisionIsTheLatest(run, i, row.requestId);
  }

  // Once made, a decision is never lost or altered, whoever crashes: its row stays, and only the news about sending
  // it changes.
  lemma {:induction false} DecisionsAreKept(run: seq<State>, i: nat, j: nat, eventId: string)
    requires IsRun(run) && i <= j < |run| && eventId in run[i].rows
    ensures eventId in run[j].rows
    ensures var before, after := run[i].rows[eventId], run[j].rows[eventId];
      after.event == before.event && after.requestId == before.requestId && after.attempts >= before.attempts
    decreases j - i
  {
    if i < j {
      DecisionsAreKept(run, i, j - 1, eventId);
      assert Follows(run[j - 1], run[j]);
      var step :| Enabled(run[j - 1], step) && run[j] == Next(run[j - 1], step);
    }
  }

  // --- One thread of the simulator -------------------------------------------------------------

  // t can come after s in a run.
  ghost predicate Leads(s: State, t: State) {
    exists run :: IsPath(run) && run[0] == s && run[|run| - 1] == t
  }

  lemma LeadsToItself(s: State)
    ensures Leads(s, s)
  {
    assert IsPath([s]) && [s][0] == s;
  }

  lemma LeadsOneMore(s: State, t: State, step: Step)
    requires Leads(s, t) && Enabled(t, step)
    ensures Leads(s, Next(t, step))
  {
    var run :| IsPath(run) && run[0] == s && run[|run| - 1] == t;
    var u := Next(t, step);
    assert Follows(t, u);
    hide Follows;
    var longer := run + [u];
    forall i | 0 < i < |longer| ensures Follows(longer[i - 1], longer[i]) {
      if i < |run| { assert Follows(run[i - 1], run[i]); }
    }
    assert IsPath(longer) && longer[0] == s && longer[|longer| - 1] == u;
  }

  lemma LeadsOn(s: State, t: State, u: State)
    requires Leads(s, t) && Leads(t, u)
    ensures Leads(s, u)
  {
    hide Follows;
    var run :| IsPath(run) && run[0] == t && run[|run| - 1] == u;
    LeadsAlong(s, run, |run| - 1);
  }

  lemma {:induction false} LeadsAlong(s: State, run: seq<State>, i: nat)
    requires IsPath(run) && i < |run| && Leads(s, run[0])
    ensures Leads(s, run[i])
  {
    if i > 0 {
      LeadsAlong(s, run, i - 1);
      hide Leads;
      assert Follows(run[i - 1], run[i]);
      var step :| Enabled(run[i - 1], step) && run[i] == Next(run[i - 1], step);
      LeadsOneMore(s, run[i - 1], step);
    }
  }

  lemma {:induction false} RowsStayAlong(run: seq<State>, i: nat, eventId: string)
    requires IsPath(run) && i < |run| && eventId in run[0].rows
    ensures eventId in run[i].rows && run[i].rows[eventId].event == run[0].rows[eventId].event
    ensures run[i].rows[eventId].requestId == run[0].rows[eventId].requestId
    ensures run[i].rows[eventId].attempts >= run[0].rows[eventId].attempts
    ensures run[0].answered <= run[i].answered
  {
    if i > 0 {
      RowsStayAlong(run, i - 1, eventId);
      assert Follows(run[i - 1], run[i]);
    }
  }

  lemma LeadsKeepsRows(s: State, t: State, eventId: string)
    requires Leads(s, t) && eventId in s.rows
    ensures eventId in t.rows && t.rows[eventId].event == s.rows[eventId].event
    ensures t.rows[eventId].requestId == s.rows[eventId].requestId
    ensures t.rows[eventId].attempts >= s.rows[eventId].attempts && s.answered <= t.answered
  {
    hide Follows;
    var run :| IsPath(run) && run[0] == s && run[|run| - 1] == t;
    RowsStayAlong(run, |run| - 1, eventId);
  }

  // One call of a thread, and what came of it.
  datatype CallMade =
    | StoreCall(event: StoredDecision, stored: bool)
    | PostCall(eventId: string, delivered: bool)
    | NoteCall(eventId: string, delivered: bool)

  // The calls that send a stored event once.
  function SendingOf(row: Option<EventRow>): seq<CallMade> {
    match row
    case None => []
    case Some(r) => [PostCall(r.event.eventId, r.state.Delivered?), NoteCall(r.event.eventId, r.state.Delivered?)]
  }

  // Both systems, as one thread of the simulator meets them: everybody else goes on before every call.
  class Systems {
    var s: State
    // The calls that this thread has made, in order.
    ghost var calls: seq<CallMade>

    constructor ()
      ensures s == INITIAL && calls == []
    {
      s, calls := INITIAL, [];
    }

    method Do(step: Step)
      requires Enabled(s, step)
      modifies this`s
      ensures s == Next(old(s), step) && Leads(old(s), s)
    {
      LeadsToItself(s);
      LeadsOneMore(s, s, step);
      s := Next(s, step);
    }

    method Interfere()
      modifies this`s
      ensures Leads(old(s), s)
    {
      LeadsToItself(s);
    }

    // `add_event`: stored as pending, unless the id is taken, which SQLite refuses.
    method AddEvent(requestId: Ulid, event: StoredDecision) returns (stored: bool)
      modifies this
      ensures Leads(old(s), s)
      ensures stored ==> event.eventId in s.rows && s.rows[event.eventId] == EventRow(requestId, event, Pending, 0)
      ensures calls == old(calls) + [StoreCall(event, stored)]
      // Only an event that is there already is refused.
      ensures !stored ==> event.eventId in s.rows
    {
      ghost var before := s;
      Interfere();
      calls := calls + [StoreCall(event, event.eventId !in s.rows)];
      if event.eventId in s.rows {
        return false;
      }
      ghost var found := s;
      Do(Step.AddEvent(requestId, event));
      LeadsOn(before, found, s);
      return true;
    }

    // One POST: it may arrive or not, and its answer may get back or not.
    method Send(eventId: string, arrives: bool, answerGetsBack: bool) returns (delivered: bool)
      requires eventId in s.rows
      modifies this
      ensures Leads(old(s), s) && eventId in s.rows
      ensures delivered <==> arrives && answerGetsBack && eventId in s.answered
      ensures calls == old(calls) + [PostCall(eventId, delivered)]
    {
      ghost var before := s;
      Interfere();
      LeadsKeepsRows(before, s, eventId);
      delivered := false;
      if arrives {
        ghost var found := s;
        Do(Reach(eventId));
        LeadsOn(before, found, s);
        delivered := answerGetsBack && eventId in s.answered;
      }
      calls := calls + [PostCall(eventId, delivered)];
    }

    method RecordAttempt(eventId: string, delivered: bool) returns (row: EventRow)
      requires eventId in s.rows && (delivered ==> eventId in s.answered)
      modifies this
      ensures Leads(old(s), s) && eventId in s.rows && row == s.rows[eventId]
      ensures row.event == old(s).rows[eventId].event && row.attempts > old(s).rows[eventId].attempts
      ensures row.requestId == old(s).rows[eventId].requestId
      ensures row.state == if delivered then Delivered else NotDelivered
      // One more than it was at that moment.
      ensures exists t: State {:trigger Leads(old(s), t)} ::
        Leads(old(s), t) && eventId in t.rows && row.attempts == t.rows[eventId].attempts + 1
      ensures calls == old(calls) + [NoteCall(eventId, delivered)]
    {
      ghost var before := s;
      Interfere();
      LeadsKeepsRows(before, s, eventId);
      ghost var found := s;
      assert Leads(old(s), found);
      Do(Step.RecordAttempt(eventId, delivered));
      LeadsOn(before, found, s);
      row := s.rows[eventId];
      calls := calls + [NoteCall(eventId, delivered)];
    }
  }

  class DecisionService {
    const systems: Systems

    constructor (systems: Systems)
      ensures this.systems == systems
    {
      this.systems := systems;
    }

    // `_send`
    method SendStored(eventId: string, arrives: bool, answerGetsBack: bool) returns (row: EventRow)
      requires eventId in systems.s.rows
      modifies systems
      ensures Leads(old(systems.s), systems.s) && eventId in systems.s.rows && row == systems.s.rows[eventId]
      ensures row.event == old(systems.s).rows[eventId].event && row.attempts > old(systems.s).rows[eventId].attempts
      ensures row.requestId == old(systems.s).rows[eventId].requestId
      ensures row.state.Delivered? ==> arrives && answerGetsBack
      // One POST, and what it came to is noted.
      ensures var delivered := row.state.Delivered?;
        systems.calls == old(systems.calls) + [PostCall(eventId, delivered), NoteCall(eventId, delivered)]
      ensures !row.state.Pending?
    {
      hide Leads;
      ghost var before := systems.s;
      var delivered := systems.Send(eventId, arrives, answerGetsBack);
      ghost var sent := systems.s;
      LeadsKeepsRows(before, sent, eventId);
      row := systems.RecordAttempt(eventId, delivered);
      LeadsOn(before, sent, systems.s);
    }

    // `decide`: a new event for an accepted message. None: the document was invalid or the id taken, and this
    // thread stored and sent nothing.
    method Decide(requestId: Ulid, event: StoredDecision, valid: bool, arrives: bool, answerGetsBack: bool)
      returns (row: Option<EventRow>)
      modifies systems
      ensures Leads(old(systems.s), systems.s)
      ensures !valid ==> row == None && systems.s == old(systems.s) && systems.calls == old(systems.calls)
      // Stored first, then sent once, then noted; what could not be stored is not sent.
      ensures valid ==> systems.calls == old(systems.calls) + [StoreCall(event, row.Some?)] + SendingOf(row)
      ensures valid && row.None? ==> event.eventId in systems.s.rows
      ensures row.Some? ==>
        && event.eventId in systems.s.rows && systems.s.rows[event.eventId] == row.value
        && row.value.event == event && row.value.requestId == requestId && row.value.attempts >= 1
        && (row.value.state.Delivered? ==> arrives && answerGetsBack)
    {
      hide Leads;
      if !valid {
        LeadsToItself(systems.s);
        return None;
      }
      ghost var before := systems.s;
      var stored := systems.AddEvent(requestId, event);
      if !stored {
        return None;
      }
      ghost var added := systems.s;
      var sent := SendStored(event.eventId, arrives, answerGetsBack);
      LeadsOn(before, added, systems.s);
      return Some(sent);
    }

    // `resend`: the same event again, whatever became of it before.
    method Resend(eventId: string, arrives: bool, answerGetsBack: bool) returns (row: EventRow)
      requires eventId in systems.s.rows
      modifies systems
      ensures Leads(old(systems.s), systems.s) && eventId in systems.s.rows && row == systems.s.rows[eventId]
      ensures row.event == old(systems.s).rows[eventId].event && row.attempts > old(systems.s).rows[eventId].attempts
      ensures row.requestId == old(systems.s).rows[eventId].requestId
      ensures var delivered := row.state.Delivered?;
        systems.calls == old(systems.calls) + [PostCall(eventId, delivered), NoteCall(eventId, delivered)]
    {
      row := SendStored(eventId, arrives, answerGetsBack);
    }
  }
}
