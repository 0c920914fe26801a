/** When the exchange record and the status agree: always, if the attempts of one request never
    overlap; not always, if they do; and from a given state on exactly if no attempt can spoil it. */
module Overlap {
  import opened Basics
  import opened RequestStatus
  import opened RequestsTable
  import opened ReplyReader
  import opened DeliveryMessage
  import Replies
  import Recipient
  import opened Protocol
  import opened Histories

  // At most one attempt of this request is under way.
  ghost predicate NoOverlap(s: State, id: Ulid) {
    forall n, o :: n in s.attempts && o in s.attempts && n != o && s.attempts[n].id == id && s.attempts[o].id == id ==>
      s.attempts[n].pc.Over? || s.attempts[o].pc.Over?
  }

  predicate IsUndecided(pc: Pc) {
    pc.Ready? || pc.Calling? || pc.ToSave? || pc.ToMark?
  }

  predicate RecordMatches(exchanges: map<Ulid, Saved>, id: Ulid, status: Status) {
    status in {Sent, Rejected} ==> id in exchanges && Matches(exchanges[id].outcome, status)
  }

  predicate SoloAttempt(table: Table, exchanges: map<Ulid, Saved>, attempt: Attempt) {
    && (IsUndecided(attempt.pc) ==> attempt.id in table.items && table.items[attempt.id].status in DELIVERABLE_STATUSES)
    && (attempt.pc.ToMark? ==> RecordMatches(exchanges, attempt.id, attempt.pc.wanted))
    && (attempt.pc.ToSave? && attempt.pc.target.Some? ==> Matches(attempt.pc.outcome, attempt.pc.target.value))
  }

  ghost predicate SoloInv(s: State, id: Ulid) {
    && (forall n :: n in s.attempts && s.attempts[n].id == id ==> SoloAttempt(s.table, s.exchanges, s.attempts[n]))
    && (id in s.table.items ==> RecordMatches(s.exchanges, id, s.table.items[id].status))
  }

  lemma ApiKeepsSolo(s: State, e: ApiStep, id: Ulid)
    requires ApiEnabled(s.table, e) && SoloInv(s, id)
    ensures SoloInv(s.(table := ApiNext(s.table, e)), id)
  {
    hide Matches;
  }

  lemma EnqueueKeepsSolo(s: State, k: nat, e: EnqueueStep, id: Ulid)
    requires EnqueueEnabled(s, k, e) && SoloInv(s, id)
    ensures SoloInv(EnqueueNext(s, k, e), id)
  {
    hide Matches;
  }

  lemma QueueKeepsSolo(cfg: Config, s: State, e: QueueStep, id: Ulid)
    requires QueueEnabled(cfg, s, e) && SoloInv(s, id)
    ensures SoloInv(QueueNext(cfg, s, e), id)
  {
    hide RecordMatches;
  }

  lemma OwnStepStaysSolo(cfg: Config, s: State, n: nat, e: WorkStep)
    requires WorkEnabled(s, n, e) && SoloInv(s, s.attempts[n].id)
    ensures
      var t := WorkNext(cfg, s, n, e);
      SoloAttempt(t.table, t.exchanges, t.attempts[n]) && RecordMatches(t.exchanges, s.attempts[n].id,
        if s.attempts[n].id in t.table.items then t.table.items[s.attempts[n].id].status else Created)
  {
    hide Heard, KindOf, MessagesAfter, WireAfter, EntriesAfter, NoticesAfter;
    assert SoloAttempt(s.table, s.exchanges, s.attempts[n]);
    forall status: Status ensures IsTerminal(status) || status in DELIVERABLE_STATUSES {
      assert status.Created? || status.Queued? || status.Sent? || status.Failed? || status.Rejected?;
    }
  }

  lemma WorkKeepsSolo(cfg: Config, s: State, n: nat, e: WorkStep, id: Ulid)
    requires WorkEnabled(s, n, e) && SoloInv(s, id) && NoOverlap(s, id)
    ensures SoloInv(WorkNext(cfg, s, n, e), id)
  {
    var t := WorkNext(cfg, s, n, e);
    if s.attempts[n].id == id {
      OwnStepStaysSolo(cfg, s, n, e);
    }
    hide PcAfter, Matches;
    forall o | o in t.attempts && t.attempts[o].id == id ensures SoloAttempt(t.table, t.exchanges, t.attempts[o]) {
      if o != n {
        assert SoloAttempt(s.table, s.exchanges, s.attempts[o]);
        assert s.attempts[n].id == id && !s.attempts[n].pc.Over? ==> s.attempts[o].pc.Over?;
      }
    }
  }

  lemma StepKeepsSolo(cfg: Config, s: State, e: Step, id: Ulid)
    requires Enabled(cfg, s, e) && SoloInv(s, id) && NoOverlap(s, id)
    ensures SoloInv(Next(cfg, s, e), id)
  {
    hide SoloInv, NoOverlap, ApiNext, EnqueueNext, QueueNext, WorkNext, RecipientNext;
    match e
    case Api(api) => ApiKeepsSolo(s, api, id);
    case Enqueue(k, enqueue) => EnqueueKeepsSolo(s, k, enqueue, id);
    case Queue(queue) => QueueKeepsSolo(cfg, s, queue, id);
    case Work(n, work) => WorkKeepsSolo(cfg, s, n, work, id);
    case AtRecipient(recipient) => RecipientKeepsSolo(s, recipient, id);
  }

  lemma RecipientKeepsSolo(s: State, e: RecipientStep, id: Ulid)
    requires RecipientEnabled(s, e) && SoloInv(s, id)
    ensures SoloInv(s.(inbox := RecipientNext(s, e)), id)
  {
  }

  lemma InitialSolo(id: Ulid)
    ensures SoloInv(INITIAL, id)
  {
  }

  lemma {:induction false} SoloAlong(cfg: Config, run: seq<State>, i: nat, id: Ulid)
    requires IsRunFromTheStart(cfg, run) && i < |run|
    requires forall j :: 0 <= j < i ==> NoOverlap(run[j], id)
    ensures SoloInv(run[i], id)
  {
    hide SoloInv, Next, Enabled, NoOverlap, Follows;
    if i == 0 {
      InitialSolo(id);
    } else {
      SoloAlong(cfg, run, i - 1, id);
      var e := StepTaken(cfg, run, i);
      StepKeepsSolo(cfg, run[i - 1], e, id);
    }
  }

  // If the attempts of a request have never overlapped, the stored record of the finished request is the one that
  // belongs to its status, and no attempt is left that could put another one (see TheRecordStaysRightExactly): it
  // stays so, whatever overlaps later.
  lemma WithoutOverlapTheRecordMatches(cfg: Config, run: seq<State>, i: nat, id: Ulid)
    requires IsRunFromTheStart(cfg, run) && i < |run|
    requires forall j :: 0 <= j < i ==> NoOverlap(run[j], id)
    requires IsFinished(run[i], id)
    ensures RecordIsRight(run[i], id) && IsSettled(run[i], id)
  {
    hide IsRunFromTheStart, Matches;
    SoloAlong(cfg, run, i, id);
    assert forall n :: n in run[i].attempts && run[i].attempts[n].id == id ==>
      SoloAttempt(run[i].table, run[i].exchanges, run[i].attempts[n]);
  }

  // --- When the record of a finished request stays right, exactly --------------------------------------

  predicate IsFinished(s: State, id: Ulid) {
    id in s.table.items && s.table.items[id].status in {Sent, Rejected}
  }

  // The stored record tells what the status tells.
  predicate RecordIsRight(s: State, id: Ulid) {
    id in s.table.items && RecordMatches(s.exchanges, id, s.table.items[id].status)
  }

  // This attempt can still end in a record that does not belong to the status: its outcome is open, or is known to be
  // another one.
  predicate MaySpoil(pc: Pc, status: Status) {
    pc.Ready? || pc.Calling? || (pc.ToSave? && !Matches(pc.outcome, status))
  }

  // The record is right, and no attempt of the request can spoil it.
  ghost predicate IsSettled(s: State, id: Ulid) {
    && IsFinished(s, id) && RecordIsRight(s, id)
    && forall n :: n in s.attempts && s.attempts[n].id == id ==> !MaySpoil(s.attempts[n].pc, s.table.items[id].status)
  }

  lemma WorkStaysSettled(cfg: Config, s: State, n: nat, e: WorkStep, id: Ulid)
    requires WorkEnabled(s, n, e) && IsSettled(s, id)
    ensures IsSettled(WorkNext(cfg, s, n, e), id)
  {
    hide Heard, KindOf;
  }

  lemma ApiStaysSettled(s: State, e: ApiStep, id: Ulid)
    requires ApiEnabled(s.table, e) && IsSettled(s, id)
    ensures IsSettled(s.(table := ApiNext(s.table, e)), id)
  {
    hide Matches;
  }

  lemma EnqueueStaysSettled(s: State, k: nat, e: EnqueueStep, id: Ulid)
    requires EnqueueEnabled(s, k, e) && IsSettled(s, id)
    ensures IsSettled(EnqueueNext(s, k, e), id)
  {
    hide Matches;
  }

  lemma QueueStaysSettled(cfg: Config, s: State, e: QueueStep, id: Ulid)
    requires QueueEnabled(cfg, s, e) && IsSettled(s, id)
    ensures IsSettled(QueueNext(cfg, s, e), id)
  {
    hide Matches;
  }

  lemma RecipientStaysSettled(s: State, e: RecipientStep, id: Ulid)
    requires RecipientEnabled(s, e) && IsSettled(s, id)
    ensures IsSettled(s.(inbox := RecipientNext(s, e)), id)
  {
    hide Matches, RecipientNext;
  }

  lemma StepStaysSettled(cfg: Config, s: State, e: Step, id: Ulid)
    requires Enabled(cfg, s, e) && IsSettled(s, id)
    ensures IsSettled(Next(cfg, s, e), id)
  {
    hide IsSettled, ApiNext, EnqueueNext, QueueNext, WorkNext, RecipientNext;
    match e
    case Api(api) => ApiStaysSettled(s, api, id);
    case Enqueue(k, enqueue) => EnqueueStaysSettled(s, k, enqueue, id);
    case Queue(queue) => QueueStaysSettled(cfg, s, queue, id);
    case Work(n, work) => WorkStaysSettled(cfg, s, n, work, id);
    case AtRecipient(recipient) => RecipientStaysSettled(s, recipient, id);
  }

  lemma {:induction false} SettledAlong(cfg: Config, run: seq<State>, i: nat, id: Ulid)
    requires IsRun(cfg, run) && i < |run| && IsSettled(run[0], id)
    ensures IsSettled(run[i], id)
  {
    hide IsSettled, Enabled, Next, Follows;
    if i > 0 {
      SettledAlong(cfg, run, i - 1, id);
      var e := StepTaken(cfg, run, i);
      StepStaysSettled(cfg, run[i - 1], e, id);
    }
  }

  // How far an attempt is from its record.
  function StepsToRecord(pc: Pc): nat {
    if pc.Ready? then 2 else if pc.Calling? then 1 else 0
  }

  function SpoilingStep(pc: Pc): WorkStep {
    if pc.Ready? then Call else if pc.Calling? then Hear(NothingArrives(Timeout)) else Save
  }

  lemma SpoilingGoes(cfg: Config, s: State, n: nat, id: Ulid)
    requires IsFinished(s, id) && n in s.attempts && s.attempts[n].id == id
    requires MaySpoil(s.attempts[n].pc, s.table.items[id].status)
    ensures
      var pc := s.attempts[n].pc;
      && (pc.Ready? || pc.Calling? || pc.ToSave?) && WorkEnabled(s, n, SpoilingStep(pc))
      && var t := WorkNext(cfg, s, n, SpoilingStep(pc));
         if pc.ToSave? then !RecordIsRight(t, id)
         else
           && IsFinished(t, id) && n in t.attempts && t.attempts[n].id == id
           && MaySpoil(t.attempts[n].pc, t.table.items[id].status)
           && StepsToRecord(t.attempts[n].pc) < StepsToRecord(pc)
  {
    hide MessagesAfter, WireAfter, EntriesAfter, NoticesAfter, DocumentOf;
  }

  // One attempt that may spoil the record does: it calls if it has not, hears nothing, and puts what it has.
  lemma {:induction false} SpoilingRun(cfg: Config, s: State, n: nat, id: Ulid) returns (t: State)
    requires IsFinished(s, id) && n in s.attempts && s.attempts[n].id == id
    requires MaySpoil(s.attempts[n].pc, s.table.items[id].status)
    ensures Leads(cfg, s, t) && !RecordIsRight(t, id)
    decreases StepsToRecord(s.attempts[n].pc)
  {
    hide Leads, WorkNext, WorkEnabled, RecordIsRight, MaySpoil, SpoilingStep, IsFinished, StepsToRecord;
    var pc := s.attempts[n].pc;
    var e := SpoilingStep(pc);
    SpoilingGoes(cfg, s, n, id);
    t := WorkNext(cfg, s, n, e);
    LeadsToItself(cfg, s);
    LeadsOneStep(cfg, s, s, Work(n, e));
    if !pc.ToSave? {
      var u := SpoilingRun(cfg, t, n, id);
      LeadsOn(cfg, s, t, u);
      t := u;
    }
  }

  // The record of a finished request stays right, whatever happens next, if and only if it is right and no attempt of
  // the request is still under way to a record: building, calling, or holding an outcome that does not belong to the
  // status.
  lemma TheRecordStaysRightExactly(cfg: Config, s: State, id: Ulid)
    requires IsFinished(s, id)
    ensures (forall t :: Leads(cfg, s, t) ==> RecordIsRight(t, id)) <==> IsSettled(s, id)
  {
    hide RecordIsRight, MaySpoil;
    if IsSettled(s, id) {
      forall t | Leads(cfg, s, t) ensures RecordIsRight(t, id) {
        var run :| IsRun(cfg, run) && run[0] == s && run[|run| - 1] == t;
        SettledAlong(cfg, run, |run| - 1, id);
      }
    } else if RecordIsRight(s, id) {
      var n :| n in s.attempts && s.attempts[n].id == id && MaySpoil(s.attempts[n].pc, s.table.items[id].status);
      var t := SpoilingRun(cfg, s, n, id);
    } else {
      LeadsToItself(cfg, s);
    }
  }

  // --- And if they do overlap ----------------------------------------------------------------------------

  const SOME_ID: Ulid := "00000000000000000000000000"
  const SOME_CONTENT := Content([], [], [])
  const EASY := Config(5, (id, content) => true, (id, content) => true)

  ghost predicate Goes(s: State, e: Step, t: State) {
    Enabled(EASY, s, e) && Next(EASY, s, e) == t
  }

  lemma Continue(run: seq<State>, e: Step, t: State) returns (more: seq<State>)
    requires IsRunFromTheStart(EASY, run) && Goes(run[|run| - 1], e, t)
    ensures IsRunFromTheStart(EASY, more) && more == run + [t]
  {
    hide Enabled, Next;
    more := run + [t];
    forall i | 0 <= i && i + 1 < |more| ensures Follows(EASY, more[i], more[i + 1]) {
      if i + 1 < |run| {
        assert Follows(EASY, run[i], run[i + 1]);
      } else {
        assert Enabled(EASY, more[i], e) && Next(EASY, more[i], e) == more[i + 1];
      }
    }
  }

  // One request, one message, handed out twice.
  function Stored(): State { INITIAL.(table := CreateItem(EMPTY_TABLE, SOME_ID, SOME_CONTENT).0) }
  function PickedUp(): State { Stored().(enqueuers := map[0 := Enqueuer(0, Picked)]) }
  function Sent'(): State {
    PickedUp().(
      enqueuers := map[0 := Enqueuer(0, SentToQueue)],
      seen := {DeduplicationId(SOME_ID, 0)},
      messages := map[0 := Message(SOME_ID, 0, 0, Waiting)])
  }
  function WithAttempts(receives: nat, attempts: map<nat, Attempt>): State {
    Sent'().(messages := map[0 := Message(SOME_ID, 0, receives, Waiting)], attempts := attempts)
  }
  function AttemptAt(receiveCount: nat, pc: Pc): Attempt { Attempt(0, SOME_ID, receiveCount, pc) }
  function Both(one: Pc, two: Pc): State { WithAttempts(2, map[0 := AttemptAt(1, one), 1 := AttemptAt(2, two)]) }

  lemma MessageSent() returns (run: seq<State>)
    ensures IsRunFromTheStart(EASY, run) && run[|run| - 1] == Sent'()
  {
    assert Goes(INITIAL, Api(Create(SOME_ID, SOME_CONTENT)), Stored());
    assert Goes(Stored(), Enqueue(0, Pick(0)), PickedUp());
    assert Goes(PickedUp(), Enqueue(0, SendAccepted(0)), Sent'());
    hide Goes, Stored, PickedUp, Sent';
    run := Continue([INITIAL], Api(Create(SOME_ID, SOME_CONTENT)), Stored());
    run := Continue(run, Enqueue(0, Pick(0)), PickedUp());
    run := Continue(run, Enqueue(0, SendAccepted(0)), Sent'());
  }

  lemma FirstHandOut()
    ensures Goes(Sent'(), Queue(HandOut(0, 0)), WithAttempts(1, map[0 := AttemptAt(1, Received)]))
  {
  }

  lemma SecondHandOut()
    ensures Goes(WithAttempts(1, map[0 := AttemptAt(1, Received)]), Queue(HandOut(1, 0)), Both(Received, Received))
  {
    hide Sent', WorkEnabled, WorkNext, EnqueueEnabled, EnqueueNext, ApiEnabled, ApiNext, RecipientEnabled,
      RecipientNext;
    var one, two := AttemptAt(1, Received), AttemptAt(2, Received);
    assert map[0 := one][1 := two] == map[0 := one, 1 := two];
  }

  lemma HandedOutTwice() returns (run: seq<State>)
    ensures IsRunFromTheStart(EASY, run) && run[|run| - 1] == Both(Received, Received)
  {
    hide *;
    var once := WithAttempts(1, map[0 := AttemptAt(1, Received)]);
    FirstHandOut();
    SecondHandOut();
    run := MessageSent();
    run := Continue(run, Queue(HandOut(0, 0)), once);
    run := Continue(run, Queue(HandOut(1, 0)), Both(Received, Received));
  }


  const SOME_DOCUMENT: Recipient.Document := DocumentOf(SOME_ID, SOME_CONTENT)
  const SOME_REPLY := Replies.AcceptedReply(0, Some(SOME_ID))
  const SOME_ROW := Recipient.Row(Some(SOME_ID), None, 200, SOME_REPLY)

  function Asking(): State { Both(Calling, Calling).(wire := map[0 := SOME_DOCUMENT, 1 := SOME_DOCUMENT]) }
  function Handling(rows: seq<Recipient.Row>, stage: Recipient.Stage): State {
    Asking().(inbox := Recipient.Inbox(rows, map[Ours(0) := Recipient.Thread(SOME_DOCUMENT, stage)]))
  }

  // The state of the two attempts after one of them has moved on.
  lemma BothAfter(one: Pc, two: Pc, pc: Pc)
    ensures
      var s := Both(one, two);
      && 0 in s.attempts && s.attempts[0] == AttemptAt(1, one) && 1 in s.attempts && s.attempts[1] == AttemptAt(2, two)
      && s.(attempts := s.attempts[0 := AttemptAt(1, pc)]) == Both(pc, two)
      && s.(attempts := s.attempts[1 := AttemptAt(2, pc)]) == Both(one, pc)
  {
    hide Sent';
    assert map[0 := AttemptAt(1, one), 1 := AttemptAt(2, two)][0 := AttemptAt(1, pc)]
        == map[0 := AttemptAt(1, pc), 1 := AttemptAt(2, two)];
  }

  lemma BothAreStored(one: Pc, two: Pc)
    ensures FindForDelivery(Both(one, two), SOME_ID) == Some(Item(SOME_CONTENT, Created, None, None))
      && Both(one, two).wire == map[]
  {
  }

  lemma ReadGoes(s: State, n: nat)
    requires n in s.attempts && s.attempts[n].pc == Received && s.attempts[n].id == SOME_ID
    requires FindForDelivery(s, SOME_ID) == Some(Item(SOME_CONTENT, Created, None, None))
    ensures Goes(s, Work(n, Read), s.(attempts := s.attempts[n := s.attempts[n].(pc := Ready(SOME_CONTENT))]))
  {
    hide FindForDelivery;
    assert KindOf(EASY, SOME_ID, SOME_CONTENT) == Deliverable;
    hide KindOf;
  }


  lemma CallGoes(s: State, n: nat)
    requires n in s.attempts && s.attempts[n].pc == Ready(SOME_CONTENT) && s.attempts[n].id == SOME_ID
    ensures Goes(s, Work(n, Call),
                 s.(attempts := s.attempts[n := s.attempts[n].(pc := Calling)], wire := s.wire[n := SOME_DOCUMENT]))
  {
  }

  lemma BothRead(run: seq<State>) returns (more: seq<State>)
    requires IsRunFromTheStart(EASY, run) && run[|run| - 1] == Both(Received, Received)
    ensures IsRunFromTheStart(EASY, more) && more[|more| - 1] == Both(Ready(SOME_CONTENT), Ready(SOME_CONTENT))
  {
    hide Goes, Both, FindForDelivery, IsRunFromTheStart;
    var ready := Ready(SOME_CONTENT);
    BothAfter(Received, Received, ready);
    BothAreStored(Received, Received);
    ReadGoes(Both(Received, Received), 0);
    more := Continue(run, Work(0, Read), Both(ready, Received));
    BothAfter(ready, Received, ready);
    BothAreStored(ready, Received);
    ReadGoes(Both(ready, Received), 1);
    more := Continue(more, Work(1, Read), Both(ready, ready));
  }

  lemma BothAsk(run: seq<State>) returns (more: seq<State>)
    requires IsRunFromTheStart(EASY, run) && run[|run| - 1] == Both(Received, Received)
    ensures IsRunFromTheStart(EASY, more) && more[|more| - 1] == Asking()
  {
    hide Goes, Both, IsRunFromTheStart;
    var ready := Ready(SOME_CONTENT);
    more := BothRead(run);
    BothAfter(ready, ready, Calling);
    BothAreStored(ready, ready);
    CallGoes(Both(ready, ready), 0);
    var oneCalls := Both(Calling, ready).(wire := map[0 := SOME_DOCUMENT]);
    more := Continue(more, Work(0, Call), oneCalls);
    BothAfter(Calling, ready, Calling);
    CallGoes(oneCalls, 1);
    more := Continue(more, Work(1, Call), Asking());
  }


  function At(stage: Recipient.Stage): Recipient.Thread {
    Recipient.Thread(SOME_DOCUMENT, stage)
  }

  lemma AtRecipientGoes(s: State, e: RecipientStep)
    requires RecipientEnabled(s, e)
    ensures Goes(s, AtRecipient(e), s.(inbox := RecipientNext(s, e)))
  {
    hide RecipientEnabled, RecipientNext;
  }

  lemma OneThreadSteps(rows: seq<Recipient.Row>, stage: Recipient.Stage, move: Recipient.Move)
    requires Recipient.CanMove(stage, move)
    ensures
      var inbox := Recipient.Inbox(rows, map[Ours(0) := At(stage)]);
      var (more, next) := Recipient.Moved(rows, At(stage), move);
      Recipient.CanStep(inbox, Ours(0), move) &&
      Recipient.Step(inbox, Ours(0), move) == Recipient.Inbox(more, map[Ours(0) := At(next)])
  {
    hide Recipient.Moved, Recipient.CanMove;
  }

  lemma ThreadGoes(rows: seq<Recipient.Row>, stage: Recipient.Stage, move: Recipient.Move)
    requires Recipient.CanMove(stage, move)
    ensures
      var (more, next) := Recipient.Moved(rows, Recipient.Thread(SOME_DOCUMENT, stage), move);
      Goes(Handling(rows, stage), AtRecipient(Handle(Ours(0), move)), Handling(more, next))
  {
    hide Recipient.Moved, Recipient.CanMove, Asking, Recipient.CanArrive, Enabled, Next;
    OneThreadSteps(rows, stage, move);
    AtRecipientGoes(Handling(rows, stage), Handle(Ours(0), move));
  }

  lemma ArrivalGoes()
    ensures Goes(Asking(), AtRecipient(Arrives(0)), Handling([], Recipient.Arrived))
  {
  }

  lemma AcceptedInFourMoves()
    ensures
      var subject := SOME_CONTENT.subject;
      && Recipient.Moved([], At(Recipient.Arrived), Recipient.Parse(0)) == ([], Recipient.LookingUp(SOME_ID, subject))
      && Recipient.Moved([], At(Recipient.LookingUp(SOME_ID, subject)), Recipient.LookUp)
         == ([], Recipient.Judging(SOME_ID, subject))
      && Recipient.Moved([], At(Recipient.Judging(SOME_ID, subject)), Recipient.Judge(0))
         == ([], Recipient.Inserting(SOME_ROW))
      && Recipient.Moved([], At(Recipient.Inserting(SOME_ROW)), Recipient.Insert)
         == ([SOME_ROW], Recipient.Answered(Recipient.AnswerOf(SOME_ROW)))
  {
    var subject := SOME_CONTENT.subject;
    assert subject == [];
    assert Recipient.RulesOn(subject) == Recipient.Accept;
    assert Recipient.IsValid(SOME_DOCUMENT);
    assert Recipient.LateRow(SOME_ID, subject, 0) == Some(SOME_ROW);
    assert Recipient.IsSendable(SOME_REPLY);
    assert !Recipient.Collides([], SOME_ROW);
    assert [] + [SOME_ROW] == [SOME_ROW];
  }

  lemma OneIsAccepted(run: seq<State>) returns (more: seq<State>)
    requires IsRunFromTheStart(EASY, run) && run[|run| - 1] == Asking()
    ensures IsRunFromTheStart(EASY, more)
    ensures more[|more| - 1] == Handling([SOME_ROW], Recipient.Answered(Recipient.AnswerOf(SOME_ROW)))
  {
    var subject := SOME_CONTENT.subject;
    AcceptedInFourMoves();
    ArrivalGoes();
    hide Goes, Asking, Handling, Recipient.Moved;
    ThreadGoes([], Recipient.Arrived, Recipient.Parse(0));
    ThreadGoes([], Recipient.LookingUp(SOME_ID, subject), Recipient.LookUp);
    ThreadGoes([], Recipient.Judging(SOME_ID, subject), Recipient.Judge(0));
    ThreadGoes([], Recipient.Inserting(SOME_ROW), Recipient.Insert);
    more := Continue(run, AtRecipient(Arrives(0)), Handling([], Recipient.Arrived));
    more := Continue(more, AtRecipient(Handle(Ours(0), Recipient.Parse(0))),
      Handling([], Recipient.LookingUp(SOME_ID, subject)));
    more := Continue(more, AtRecipient(Handle(Ours(0), Recipient.LookUp)),
      Handling([], Recipient.Judging(SOME_ID, subject)));
    more := Continue(more, AtRecipient(Handle(Ours(0), Recipient.Judge(0))),
      Handling([], Recipient.Inserting(SOME_ROW)));
    more := Continue(more, AtRecipient(Handle(Ours(0), Recipient.Insert)),
                     Handling([SOME_ROW], Recipient.Answered(Recipient.AnswerOf(SOME_ROW))));
  }

  lemma TheAnswerMeansDelivered(s: State)
    requires s == Handling([SOME_ROW], Recipient.Answered(Recipient.AnswerOf(SOME_ROW)))
    ensures WorkEnabled(s, 0, Hear(Whole)) && PcAfter(EASY, s, 0, Hear(Whole)) == ToSave(ODelivered, Some(Sent))
  {
    assert IsUlid(SOME_ID);
    assert Heard(s, 0, SOME_ID, Whole).decision == Delivered;
    hide Heard;
  }

  lemma WorkGoes(s: State, n: nat, e: WorkStep) returns (t: State)
    requires WorkEnabled(s, n, e)
    ensures t == WorkNext(EASY, s, n, e) && Goes(s, Work(n, e), t)
  {
    hide WorkNext;
    t := WorkNext(EASY, s, n, e);
  }

  // The first attempt hears that it delivered; the second hears nothing.
  lemma BothHear(answered: State) returns (heard: State, gaveUp: State)
    requires answered == Handling([SOME_ROW], Recipient.Answered(Recipient.AnswerOf(SOME_ROW)))
    ensures Goes(answered, Work(0, Hear(Whole)), heard)
    ensures Goes(heard, Work(1, Hear(NothingArrives(Timeout))), gaveUp)
    ensures 0 in gaveUp.attempts && gaveUp.attempts[0] == AttemptAt(1, ToSave(ODelivered, Some(Sent)))
    ensures 1 in gaveUp.attempts && gaveUp.attempts[1] == AttemptAt(2, ToSave(ORetry, None))
    ensures SOME_ID in gaveUp.table.items && gaveUp.table.items[SOME_ID].status == Created
  {
    hide Goes;
    TheAnswerMeansDelivered(answered);
    heard := WorkGoes(answered, 0, Hear(Whole));
    gaveUp := WorkGoes(heard, 1, Hear(NothingArrives(Timeout)));
  }

  lemma SavesAndMarks(s: State) returns (saved: State, marked: State)
    requires 0 in s.attempts && 1 in s.attempts && s.attempts[0].id == s.attempts[1].id == SOME_ID
    requires s.attempts[0].pc == ToSave(ODelivered, Some(Sent)) && s.attempts[1].pc == ToSave(ORetry, None)
    requires SOME_ID in s.table.items && s.table.items[SOME_ID].status == Created
    ensures Goes(s, Work(0, Save), saved) && Goes(saved, Work(0, Mark), marked)
    ensures 1 in marked.attempts && marked.attempts[1] == s.attempts[1]
    ensures SOME_ID in marked.table.items && marked.table.items[SOME_ID].status == Sent
  {
    hide Goes, MessagesAfter, EntriesAfter, NoticesAfter, WireAfter;
    saved := WorkGoes(s, 0, Save);
    marked := WorkGoes(saved, 0, Mark);
  }

  lemma Overwrites(s: State) returns (t: State)
    requires 1 in s.attempts && s.attempts[1].id == SOME_ID && s.attempts[1].pc == ToSave(ORetry, None)
    ensures Goes(s, Work(1, Save), t)
    ensures t.table == s.table && SOME_ID in t.exchanges && t.exchanges[SOME_ID].outcome == ORetry
  {
    hide Goes, MessagesAfter, EntriesAfter, NoticesAfter, WireAfter;
    t := WorkGoes(s, 1, Save);
  }

  // From here on only the two attempts move: the one that delivered saves and marks, and then the
  // slow one, which heard nothing, saves.
  lemma SaveMarkAndOverwrite(run: seq<State>) returns (more: seq<State>)
    requires IsRunFromTheStart(EASY, run)
    requires
      var s := run[|run| - 1];
      && 0 in s.attempts && 1 in s.attempts && s.attempts[0].id == s.attempts[1].id == SOME_ID
      && s.attempts[0].pc == ToSave(ODelivered, Some(Sent)) && s.attempts[1].pc == ToSave(ORetry, None)
      && SOME_ID in s.table.items && s.table.items[SOME_ID].status == Created
    ensures IsRunFromTheStart(EASY, more)
    ensures
      var s := more[|more| - 1];
      && SOME_ID in s.table.items && s.table.items[SOME_ID].status == Sent
      && SOME_ID in s.exchanges && s.exchanges[SOME_ID].outcome == ORetry
  {
    hide Goes, Follows;
    var saved, marked := SavesAndMarks(run[|run| - 1]);
    var overwritten := Overwrites(marked);
    more := Continue(run, Work(0, Save), saved);
    more := Continue(more, Work(0, Mark), marked);
    more := Continue(more, Work(1, Save), overwritten);
  }

  // A slow attempt that heard nothing may overwrite the record of the one that delivered: the
  // request is `sent`, and the stored record says "retry".
  lemma OverlapMayOverwriteTheRecord() returns (run: seq<State>)
    ensures IsRunFromTheStart(EASY, run)
    ensures
      var s := run[|run| - 1];
      && SOME_ID in s.table.items && s.table.items[SOME_ID].status == Sent
      && SOME_ID in s.exchanges && s.exchanges[SOME_ID].outcome == ORetry
  {
    hide Goes, Handling;
    run := HandedOutTwice();
    run := BothAsk(run);
    run := OneIsAccepted(run);
    var heard, gaveUp := BothHear(run[|run| - 1]);
    run := Continue(run, Work(0, Hear(Whole)), heard);
    run := Continue(run, Work(1, Hear(NothingArrives(Timeout))), gaveUp);
    run := SaveMarkAndOverwrite(run);
  }
}
