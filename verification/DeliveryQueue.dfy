/** The FIFO queue with its dead-letter queue, drained by rounds of `deliver` (handlers/delivery-worker.ts,
    delivery-service.ts): one message group, redelivery from the first failure on. */
module DeliveryQueue {
  import opened Protocol
  import opened DeliveryService

  datatype Queued = Queued(id: nat, receives: nat)

  datatype Exit = Acknowledged | ToDeadLetters

  datatype Departure = Departure(id: nat, exit: Exit)

  // The messages still there, in send order, and the ones that have left, in order of leaving.
  datatype Line = Line(waiting: seq<Queued>, left: seq<Departure>)

  function WaitingIds(waiting: seq<Queued>): (ids: seq<nat>)
    ensures |ids| == |waiting|
    ensures forall i :: 0 <= i < |waiting| ==> ids[i] == waiting[i].id
  {
    seq(|waiting|, i requires 0 <= i < |waiting| => waiting[i].id)
  }

  function LeftIds(left: seq<Departure>): (ids: seq<nat>)
    ensures |ids| == |left|
    ensures forall i :: 0 <= i < |left| ==> ids[i] == left[i].id
  {
    seq(|left|, i requires 0 <= i < |left| => left[i].id)
  }

  // Everything ever sent, in the order of leaving and then of waiting.
  function InOrder(line: Line): seq<nat> {
    LeftIds(line.left) + WaitingIds(line.waiting)
  }

  ghost predicate CountsNeverIncrease(waiting: seq<Queued>) {
    forall i, j :: 0 <= i < j < |waiting| ==> waiting[i].receives >= waiting[j].receives
  }

  ghost predicate WithinLimit(waiting: seq<Queued>, max: nat) {
    forall i :: 0 <= i < |waiting| ==> waiting[i].receives <= max
  }

  // The remaining receives, summed over the queue; one more for each message, to leave.
  function Remaining(waiting: seq<Queued>, max: nat): nat {
    if waiting == [] then 0
    else (if waiting[0].receives <= max then max + 1 - waiting[0].receives else 0) + Remaining(waiting[1..], max)
  }

  // How many messages SQS moves away before it hands anything out: those out of receives.
  function OutOfReceives(waiting: seq<Queued>, max: nat): (k: nat)
    ensures k <= |waiting|
    ensures forall i :: 0 <= i < k ==> waiting[i].receives >= max
    ensures k < |waiting| ==> waiting[k].receives < max
  {
    if waiting == [] || waiting[0].receives < max then 0 else 1 + OutOfReceives(waiting[1..], max)
  }

  function Departures(waiting: seq<Queued>, exit: Exit): (left: seq<Departure>)
    ensures |left| == |waiting|
    ensures forall i :: 0 <= i < |waiting| ==> left[i] == Departure(waiting[i].id, exit)
  {
    seq(|waiting|, i requires 0 <= i < |waiting| => Departure(waiting[i].id, exit))
  }

  function Received(batch: seq<Queued>): (received: seq<Queued>)
    ensures |received| == |batch|
    ensures forall i :: 0 <= i < |batch| ==> received[i] == batch[i].(receives := batch[i].receives + 1)
  {
    seq(|batch|, i requires 0 <= i < |batch| => batch[i].(receives := batch[i].receives + 1))
  }

  // One round: dead-letter the head as long as it is out of receives, hand out the next messages,
  // and delete what `deliver` acknowledged. `outcomes` are those of the batch.
  predicate IsRound(line: Line, max: nat, outcomes: seq<DeliveryOutcome>) {
    && OutOfReceives(line.waiting, max) + |outcomes| <= |line.waiting|
    && (OutOfReceives(line.waiting, max) < |line.waiting| ==> outcomes != [])
    && StopsAtTheFirstFailure(outcomes)
  }

  function Round(line: Line, max: nat, outcomes: seq<DeliveryOutcome>): Line
    requires IsRound(line, max, outcomes)
  {
    RoundAt(line, OutOfReceives(line.waiting, max), |outcomes|, FirstStop(outcomes))
  }

  // `k` messages are out of receives, `size` are handed out, and `done` of those are acknowledged.
  function RoundAt(line: Line, k: nat, size: nat, done: nat): Line
    requires k + size <= |line.waiting| && done <= size
  {
    var batch := line.waiting[k..k + size];
    Line(
      Received(batch)[done..] + line.waiting[k + size..],
      line.left + Departures(line.waiting[..k], ToDeadLetters) + Departures(batch[..done], Acknowledged))
  }

  // The enqueuer sends a new message.
  function Send(line: Line, id: nat): Line {
    line.(waiting := line.waiting + [Queued(id, 0)])
  }

  ghost predicate IsSound(line: Line, max: nat) {
    CountsNeverIncrease(line.waiting) && WithinLimit(line.waiting, max)
  }

  lemma SendKeepsSound(line: Line, max: nat, id: nat)
    requires IsSound(line, max)
    ensures IsSound(Send(line, id), max)
    ensures InOrder(Send(line, id)) == InOrder(line) + [id]
  {
  }

  lemma IdsSplit(a: seq<Queued>, b: seq<Queued>)
    ensures WaitingIds(a + b) == WaitingIds(a) + WaitingIds(b)
  {
  }

  lemma ReceivingKeepsIds(batch: seq<Queued>, done: nat)
    requires done <= |batch|
    ensures WaitingIds(Received(batch)[done..]) == WaitingIds(batch[done..])
  {
  }

  lemma LeavingKeepsIds(left: seq<Departure>, dead: seq<Queued>, done: seq<Queued>)
    ensures LeftIds(left + Departures(dead, ToDeadLetters) + Departures(done, Acknowledged))
      == LeftIds(left) + WaitingIds(dead) + WaitingIds(done)
  {
  }

  lemma Regrouped<T>(a: seq<T>, b: seq<T>, c: seq<T>, d: seq<T>, e: seq<T>)
    ensures a + b + c + (d + e) == a + (b + (c + (d + e)))
  {
  }

  lemma CutInFour(s: seq<Queued>, k: nat, size: nat, done: nat)
    requires k + size <= |s| && done <= size
    ensures s == s[..k] + (s[k..k + size][..done] + (s[k..k + size][done..] + s[k + size..]))
  {
  }

  lemma PiecesKeepOrder(
    left: seq<Departure>, dead: seq<Queued>, gone: seq<Queued>, kept: seq<Queued>, again: seq<Queued>,
      rest: seq<Queued>)
    requires WaitingIds(again) == WaitingIds(kept)
    ensures LeftIds(left + Departures(dead, ToDeadLetters) + Departures(gone, Acknowledged)) + WaitingIds(again + rest)
      == LeftIds(left) + WaitingIds(dead + (gone + (kept + rest)))
  {
    hide *;
    LeavingKeepsIds(left, dead, gone);
    IdsSplit(again, rest);
    IdsSplit(dead, gone + (kept + rest));
    IdsSplit(gone, kept + rest);
    IdsSplit(kept, rest);
    Regrouped(LeftIds(left), WaitingIds(dead), WaitingIds(gone), WaitingIds(kept), WaitingIds(rest));
  }

  lemma RoundKeepsOrder(line: Line, k: nat, size: nat, done: nat)
    requires k + size <= |line.waiting| && done <= size
    ensures InOrder(RoundAt(line, k, size, done)) == InOrder(line)
  {
    hide WaitingIds, LeftIds, Received, Departures;
    var dead, batch, rest := line.waiting[..k], line.waiting[k..k + size], line.waiting[k + size..];
    ReceivingKeepsIds(batch, done);
    PiecesKeepOrder(line.left, dead, batch[..done], batch[done..], Received(batch)[done..], rest);
    CutInFour(line.waiting, k, size, done);
  }

  lemma BehindTheHead(waiting: seq<Queued>, max: nat, k: nat)
    requires CountsNeverIncrease(waiting) && k <= |waiting| && (k < |waiting| ==> waiting[k].receives < max)
    ensures forall i :: k <= i < |waiting| ==> waiting[i].receives < max
  {
  }

  lemma RoundKeepsSound(line: Line, max: nat, k: nat, size: nat, done: nat)
    requires k + size <= |line.waiting| && done <= size && IsSound(line, max)
    requires k < |line.waiting| ==> line.waiting[k].receives < max
    ensures IsSound(RoundAt(line, k, size, done), max)
  {
    BehindTheHead(line.waiting, max, k);
    var old', new' := line.waiting, RoundAt(line, k, size, done).waiting;
    assert forall i :: 0 <= i < |new'| ==>
      new'[i].receives == old'[k + done + i].receives + (if i < size - done then 1 else 0);
    assert k + done + |new'| == |old'|;
    hide RoundAt, Received;
    assert CountsNeverIncrease(new') && WithinLimit(new', max);
  }

  lemma {:induction false} RemainingSplits(a: seq<Queued>, b: seq<Queued>, max: nat)
    ensures Remaining(a + b, max) == Remaining(a, max) + Remaining(b, max)
  {
    if a == [] {
      assert a + b == b;
    } else {
      RemainingSplits(a[1..], b, max);
      assert (a + b)[1..] == a[1..] + b;
    }
  }

  lemma {:induction false} ReceivingCosts(batch: seq<Queued>, max: nat)
    requires forall i :: 0 <= i < |batch| ==> batch[i].receives < max
    ensures Remaining(Received(batch), max) + |batch| == Remaining(batch, max)
  {
    if batch != [] {
      ReceivingCosts(batch[1..], max);
      assert Received(batch)[1..] == Received(batch[1..]);
    }
  }

  lemma {:induction false} SoundIsPositive(waiting: seq<Queued>, max: nat)
    requires WithinLimit(waiting, max)
    ensures Remaining(waiting, max) >= |waiting|
  {
    if waiting != [] {
      SoundIsPositive(waiting[1..], max);
    }
  }

  lemma RoundCosts(line: Line, max: nat, k: nat, size: nat, done: nat)
    requires 0 < k + size <= |line.waiting| && done <= size && IsSound(line, max)
    requires k < |line.waiting| ==> line.waiting[k].receives < max
    ensures Remaining(RoundAt(line, k, size, done).waiting, max) < Remaining(line.waiting, max)
  {
    BehindTheHead(line.waiting, max, k);
    assert WithinLimit(line.waiting[..k], max);
    hide IsSound, CountsNeverIncrease;
    CutCosts(line.waiting, k, size, done, max);
  }

  lemma CutCosts(waiting: seq<Queued>, k: nat, size: nat, done: nat, max: nat)
    requires 0 < k + size <= |waiting| && done <= size
    requires WithinLimit(waiting[..k], max) && forall i :: k <= i < |waiting| ==> waiting[i].receives < max
    ensures Remaining(Received(waiting[k..k + size])[done..] + waiting[k + size..], max) < Remaining(waiting, max)
  {
    hide Remaining, Received, WithinLimit;
    var head, batch, rest := waiting[..k], waiting[k..k + size], waiting[k + size..];
    BatchCosts(batch, done, max);
    SoundIsPositive(head, max);
    RemainingSplits(Received(batch)[done..], rest, max);
    RemainingSplits(batch, rest, max);
    RemainingSplits(head, batch + rest, max);
    assert waiting == head + (batch + rest);
  }

  lemma RoundIsCut(line: Line, max: nat, outcomes: seq<DeliveryOutcome>)
    requires IsRound(line, max, outcomes)
    ensures
      var k, size, done := OutOfReceives(line.waiting, max), |outcomes|, FirstStop(outcomes);
      && k + size <= |line.waiting| && done <= size
      && (line.waiting != [] ==> 0 < k + size) && (k < |line.waiting| ==> line.waiting[k].receives < max)
      && Round(line, max, outcomes) == RoundAt(line, k, size, done)
      && line.left <= Round(line, max, outcomes).left
      && (line.waiting == [] ==> Round(line, max, outcomes).waiting == [])
  {
    hide StopsAtTheFirstFailure, FirstStop, Departures;
  }

  lemma RoundIsProgress(line: Line, max: nat, outcomes: seq<DeliveryOutcome>)
    requires IsRound(line, max, outcomes) && IsSound(line, max)
    ensures
      var next := Round(line, max, outcomes);
      && IsSound(next, max) && InOrder(next) == InOrder(line) && line.left <= next.left
      && (if line.waiting == [] then next.waiting == []
          else Remaining(next.waiting, max) < Remaining(line.waiting, max))
  {
    hide *;
    var k, size, done := OutOfReceives(line.waiting, max), |outcomes|, FirstStop(outcomes);
    RoundIsCut(line, max, outcomes);
    RoundKeepsOrder(line, k, size, done);
    RoundKeepsSound(line, max, k, size, done);
    if line.waiting != [] {
      RoundCosts(line, max, k, size, done);
    }
  }

  lemma BatchCosts(batch: seq<Queued>, done: nat, max: nat)
    requires done <= |batch| && forall i :: 0 <= i < |batch| ==> batch[i].receives < max
    ensures Remaining(Received(batch)[done..], max) + |batch| <= Remaining(batch, max)
  {
    var received := Received(batch);
    assert received == received[..done] + received[done..];
    RemainingSplits(received[..done], received[done..], max);
    ReceivingCosts(batch, max);
  }

  lemma BehindTheDead(line: Line, max: nat)
    requires IsSound(line, max)
    ensures forall j :: OutOfReceives(line.waiting, max) <= j < |line.waiting| ==> line.waiting[j].receives < max
  {
    hide OutOfReceives;
  }

  lemma OneExit(line: Line, k: nat, size: nat, done: nat, j: nat)
    requires k + size <= |line.waiting| && done <= size && j < k + done
    ensures
      var next := RoundAt(line, k, size, done);
      && |next.left| == |line.left| + k + done
      && next.left[|line.left| + j] == Departure(line.waiting[j].id, if j < k then ToDeadLetters else Acknowledged)
  {
    hide Received;
    var batch := line.waiting[k..k + size];
    var dead, gone := Departures(line.waiting[..k], ToDeadLetters), Departures(batch[..done], Acknowledged);
    if j < k {
      assert (line.left + dead + gone)[|line.left| + j] == dead[j];
    } else {
      assert (line.left + dead + gone)[|line.left| + j] == gone[j - k] && batch[..done][j - k] == line.waiting[j];
    }
  }

  // Whoever leaves in a round leaves for its reason: acknowledged by the worker, or out of receives.
  lemma ExitsAreTrue(line: Line, max: nat, outcomes: seq<DeliveryOutcome>, j: nat)
    requires IsRound(line, max, outcomes) && IsSound(line, max)
    requires j < |Round(line, max, outcomes).left| - |line.left|
    ensures
      var next, k := Round(line, max, outcomes), OutOfReceives(line.waiting, max);
      && j < |line.waiting|
      && var gone, was := next.left[|line.left| + j], line.waiting[j];
         && gone.id == was.id && (gone.exit == ToDeadLetters <==> was.receives >= max)
         && (gone.exit == Acknowledged ==>
              k <= j < k + |outcomes| && outcomes[j - k] in {OutSent, OutRejected, OutFailed, OutAlreadyDone})
  {
    hide OutOfReceives, FirstStop, StopsAtTheFirstFailure, RoundAt, IsSound;
    var k, size, done := OutOfReceives(line.waiting, max), |outcomes|, FirstStop(outcomes);
    RoundSize(line, k, size, done);
    OneExit(line, k, size, done, j);
    BehindTheDead(line, max);
  }

  lemma RoundSize(line: Line, k: nat, size: nat, done: nat)
    requires k + size <= |line.waiting| && done <= size
    ensures |RoundAt(line, k, size, done).left| == |line.left| + k + done
  {
  }

  // What happens to the queue next: a round of `deliver`, or a message that the enqueuer sends meanwhile.
  datatype Turn = Deliver(outcomes: seq<DeliveryOutcome>) | Enqueue(id: nat)

  predicate CanTurn(line: Line, max: nat, turn: Turn) {
    turn.Deliver? ==> IsRound(line, max, turn.outcomes)
  }

  function Turned(line: Line, max: nat, turn: Turn): Line
    requires CanTurn(line, max, turn)
  {
    match turn
    case Deliver(outcomes) => Round(line, max, outcomes)
    case Enqueue(id) => Send(line, id)
  }

  ghost predicate IsSchedule(line: Line, max: nat, schedule: seq<Turn>)
    decreases |schedule|
  {
    schedule == []
      || (CanTurn(line, max, schedule[0]) && IsSchedule(Turned(line, max, schedule[0]), max, schedule[1..]))
  }

  function After(line: Line, max: nat, schedule: seq<Turn>): Line
    requires IsSchedule(line, max, schedule)
    decreases |schedule|
  {
    if schedule == [] then line else After(Turned(line, max, schedule[0]), max, schedule[1..])
  }

  function SentIds(schedule: seq<Turn>): seq<nat> {
    if schedule == [] then []
    else (if schedule[0].Enqueue? then [schedule[0].id] else []) + SentIds(schedule[1..])
  }

  lemma SendCosts(line: Line, max: nat, id: nat)
    ensures Remaining(Send(line, id).waiting, max) == Remaining(line.waiting, max) + max + 1
    ensures InOrder(Send(line, id)) == InOrder(line) + [id] && Send(line, id).left == line.left
  {
    RemainingSplits(line.waiting, [Queued(id, 0)], max);
    assert Remaining([Queued(id, 0)], max) == max + 1 by { assert [Queued(id, 0)][1..] == []; }
  }

  lemma OneTurn(line: Line, max: nat, turn: Turn)
    requires IsSound(line, max) && CanTurn(line, max, turn)
    ensures
      var next := Turned(line, max, turn);
      && IsSound(next, max) && line.left <= next.left
      && InOrder(next) == InOrder(line) + (if turn.Enqueue? then [turn.id] else [])
      && Remaining(next.waiting, max) <= Remaining(line.waiting, max) + (if turn.Enqueue? then max + 1 else 0)
      && (turn.Deliver? && line.waiting != [] ==> Remaining(next.waiting, max) < Remaining(line.waiting, max))
      && (turn.Deliver? && line.waiting == [] ==> next.waiting == [])
  {
    hide InOrder, IsSound, IsRound, Remaining, Send, Round;
    match turn
    case Deliver(outcomes) =>
      RoundIsProgress(line, max, outcomes);
      assert InOrder(line) + [] == InOrder(line);
    case Enqueue(id) =>
      SendKeepsSound(line, max, id);
      SendCosts(line, max, id);
  }

  function SentBy(turn: Turn): seq<nat> {
    if turn.Enqueue? then [turn.id] else []
  }

  lemma SentStep(schedule: seq<Turn>)
    requires schedule != []
    ensures SentIds(schedule) == SentBy(schedule[0]) + SentIds(schedule[1..])
    ensures SentIds(schedule) == [] ==> schedule[0].Deliver? && SentIds(schedule[1..]) == []
  {
  }

  lemma AfterStep(line: Line, max: nat, schedule: seq<Turn>)
    requires IsSchedule(line, max, schedule) && schedule != []
    ensures CanTurn(line, max, schedule[0])
    ensures IsSchedule(Turned(line, max, schedule[0]), max, schedule[1..])
    ensures After(line, max, schedule) == After(Turned(line, max, schedule[0]), max, schedule[1..])
  {
    hide CanTurn, Turned;
  }

  lemma NoTurns(line: Line, max: nat)
    requires WithinLimit(line.waiting, max)
    ensures IsSchedule(line, max, []) && After(line, max, []) == line && SentIds([]) == []
    ensures InOrder(line) + [] == InOrder(line) && Remaining(line.waiting, max) >= |line.waiting|
  {
    SoundIsPositive(line.waiting, max);
  }

  lemma {:induction false} OrderAlong(line: Line, max: nat, schedule: seq<Turn>)
    requires IsSound(line, max) && IsSchedule(line, max, schedule)
    ensures
      var end := After(line, max, schedule);
      InOrder(end) == InOrder(line) + SentIds(schedule) && line.left <= end.left && IsSound(end, max)
    decreases |schedule|
  {
    hide InOrder, CanTurn, Turned, Remaining, After, SentIds, IsSchedule, CountsNeverIncrease;
    if schedule == [] {
      NoTurns(line, max);
    } else {
      SentStep(schedule);
      AfterStep(line, max, schedule);
      OneTurn(line, max, schedule[0]);
      OrderAlong(Turned(line, max, schedule[0]), max, schedule[1..]);
      assert InOrder(line) + SentBy(schedule[0]) + SentIds(schedule[1..])
        == InOrder(line) + (SentBy(schedule[0]) + SentIds(schedule[1..]));
    }
  }

  lemma {:induction false} CostAlong(line: Line, max: nat, schedule: seq<Turn>)
    requires IsSound(line, max) && IsSchedule(line, max, schedule)
    ensures Remaining(After(line, max, schedule).waiting, max)
      <= Remaining(line.waiting, max) + (max + 1) * |SentIds(schedule)|
    ensures SentIds(schedule) == [] && Remaining(line.waiting, max) <= |schedule| ==>
      After(line, max, schedule).waiting == []
    decreases |schedule|
  {
    hide InOrder, CanTurn, Turned, Remaining, After, SentIds, IsSchedule, CountsNeverIncrease;
    if schedule == [] {
      NoTurns(line, max);
    } else {
      SentStep(schedule);
      AfterStep(line, max, schedule);
      var next, rest := Turned(line, max, schedule[0]), schedule[1..];
      OneTurn(line, max, schedule[0]);
      CostAlong(next, max, rest);
      TimesSum(max + 1, |SentBy(schedule[0])|, |SentIds(rest)|);
      NothingRemains(next.waiting, max);
    }
  }

  lemma TimesSum(a: nat, m: nat, n: nat)
    ensures a * (m + n) == a * m + a * n && a * 0 == 0 && a * 1 == a
  {
  }

  lemma NothingRemains(waiting: seq<Queued>, max: nat)
    ensures waiting == [] ==> Remaining(waiting, max) == 0
  {
  }

  // Whatever the attempts come to, however the batches are cut and whatever is sent meanwhile: messages leave in send
  // order and exactly once, receive counts never increase along the queue and never pass the limit, the remaining
  // receives grow only with what is sent, and as many rounds in a row as there are remaining receives empty the queue.
  lemma TheQueueDrainsInOrder(line: Line, max: nat, schedule: seq<Turn>)
    requires IsSound(line, max) && IsSchedule(line, max, schedule)
    ensures
      var end := After(line, max, schedule);
      && InOrder(end) == InOrder(line) + SentIds(schedule)
      && line.left <= end.left
      && IsSound(end, max)
      && Remaining(end.waiting, max) <= Remaining(line.waiting, max) + (max + 1) * |SentIds(schedule)|
      && (SentIds(schedule) == [] && Remaining(line.waiting, max) <= |schedule| ==> end.waiting == [])
  {
    hide *;
    OrderAlong(line, max, schedule);
    CostAlong(line, max, schedule);
  }

  lemma {:induction false} SchedulesJoin(line: Line, max: nat, busy: seq<Turn>, quiet: seq<Turn>)
    requires IsSchedule(line, max, busy + quiet)
    ensures IsSchedule(line, max, busy) && IsSchedule(After(line, max, busy), max, quiet)
    ensures After(line, max, busy + quiet) == After(After(line, max, busy), max, quiet)
    decreases |busy|
  {
    if busy == [] {
      assert busy + quiet == quiet;
    } else {
      assert (busy + quiet)[1..] == busy[1..] + quiet;
      hide CanTurn, Turned;
      SchedulesJoin(Turned(line, max, busy[0]), max, busy[1..], quiet);
    }
  }

  // A queue that was written to while it drained: once the sends stop, everything ever sent has left, in the order it
  // was sent, after a bounded number of rounds.
  lemma OnceTheSendsStopAllLeaves(line: Line, max: nat, busy: seq<Turn>, quiet: seq<Turn>)
    requires IsSound(line, max) && IsSchedule(line, max, busy + quiet) && SentIds(quiet) == []
    requires Remaining(line.waiting, max) + (max + 1) * |SentIds(busy)| <= |quiet|
    ensures
      var end := After(line, max, busy + quiet);
      end.waiting == [] && LeftIds(end.left) == InOrder(line) + SentIds(busy)
  {
    SchedulesJoin(line, max, busy, quiet);
    var between := After(line, max, busy);
    var end := After(between, max, quiet);
    TheQueueDrainsInOrder(line, max, busy);
    TheQueueDrainsInOrder(between, max, quiet);
    assert InOrder(between) + [] == InOrder(between);
    assert InOrder(end) == LeftIds(end.left) + WaitingIds(end.waiting) == LeftIds(end.left);
  }

  // The event source mapping as a loop: whatever comes of the attempts, it ends, and everything
  // has left in the order it was sent.
  method Drain(line: Line, max: nat) returns (left: seq<Departure>)
    requires IsSound(line, max)
    ensures LeftIds(left) == InOrder(line)
    ensures line.left <= left
  {
    var now := line;
    while now.waiting != []
      invariant IsSound(now, max) && InOrder(now) == InOrder(line) && line.left <= now.left
      decreases Remaining(now.waiting, max)
    {
      var k := OutOfReceives(now.waiting, max);
      var outcomes := [];
      if k < |now.waiting| {
        outcomes := AnyOutcomes(|now.waiting| - k);
      }
      RoundIsProgress(now, max, outcomes);
      now := Round(now, max, outcomes);
    }
    left := now.left;
    assert WaitingIds(now.waiting) == [];
    assert InOrder(now) == LeftIds(left);
  }

  // Some batch of at most `most` messages, and what its attempts come to.
  method AnyOutcomes(most: nat) returns (outcomes: seq<DeliveryOutcome>)
    requires most > 0
    ensures 0 < |outcomes| <= most && StopsAtTheFirstFailure(outcomes)
  {
    outcomes := [OutRetry];
    if * {
      outcomes := [OutSent];
    }
  }
}
