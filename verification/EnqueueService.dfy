/** backend/src/services/enqueue-service.ts and handlers/enqueuer.ts: from stream records to queue
    messages, in their own form, while every other actor goes on. */
module EnqueueService {
  import opened Basics
  import opened RequestsTable
  import opened Protocol
  import opened World
  import NoLoss

  const MAX_MESSAGES_PER_CALL := 10

  // `key` is the sequence number of the stream record; `k` names this processing of it in the world.
  datatype EnqueueEntry = EnqueueEntry(key: nat, k: nat)

  datatype EnqueueResult = EnqueueResult(failedKeys: seq<nat>, sent: nat, queued: nat, alreadyMoved: nat)

  // What became of one entry.
  datatype Fate = SendFailed | MarkFailed | NowQueued | MovedBefore

  predicate Failed(fate: Fate) {
    fate.SendFailed? || fate.MarkFailed?
  }

  function FailedKeys(entries: seq<EnqueueEntry>, fates: seq<Fate>): (keys: seq<nat>)
    requires |fates| <= |entries|
  {
    if fates == [] then []
    else
      var last := |fates| - 1;
      FailedKeys(entries, fates[..last]) + (if Failed(fates[last]) then [entries[last].key] else [])
  }

  function Count(fates: seq<Fate>, fate: Fate): nat {
    multiset(fates)[fate]
  }

  function ResultOf(entries: seq<EnqueueEntry>, fates: seq<Fate>): EnqueueResult
    requires |fates| <= |entries|
  {
    EnqueueResult(
      FailedKeys(entries, fates),
      Count(fates, MarkFailed) + Count(fates, NowQueued) + Count(fates, MovedBefore),
      Count(fates, NowQueued),
      Count(fates, MovedBefore))
  }

  predicate IsPicked(s: State, entry: EnqueueEntry) {
    EnqueuerIsAt(s, entry.k, Picked) && s.enqueuers[entry.k].record == entry.key
  }

  // The message of this record was accepted by the queue and the mark has been tried after it:
  // Lambda may go past the record.
  predicate IsReadyToAcknowledge(s: State, entry: EnqueueEntry) {
    EnqueuerIsAt(s, entry.k, MarkTried) && s.enqueuers[entry.k].record == entry.key
  }

  predicate Distinct(entries: seq<EnqueueEntry>) {
    forall i, j :: 0 <= i < j < |entries| ==> entries[i].k != entries[j].k
  }

  // Entries up to `at` have their fate, `refused` of the chunk up to `end` were not accepted, and
  // the rest is untouched.
  ghost predicate EntryOk(s: State, entry: EnqueueEntry, fate: Fate) {
    && entry.k in s.enqueuers && s.enqueuers[entry.k].record == entry.key
    && (!Failed(fate) ==> IsReadyToAcknowledge(s, entry))
    && (fate.NowQueued? ==> WasQueuedSince(s.table, entry.key))
  }

  ghost predicate ChunkSoFar(
    s: State, entries: seq<EnqueueEntry>, at: nat, end: nat, refused: set<nat>, fates: seq<Fate>)
  {
    && |fates| == at <= end <= |entries|
    && (forall i :: 0 <= i < at ==> EntryOk(s, entries[i], fates[i]))
    && (forall i :: at <= i < end ==>
          if entries[i].k in refused then EntryOk(s, entries[i], SendFailed)
          else EnqueuerIsAt(s, entries[i].k, SentToQueue) && s.enqueuers[entries[i].k].record == entries[i].key)
    && (forall i :: end <= i < |entries| ==> IsPicked(s, entries[i]))
  }

  lemma OneMoves(
    before: State, after: State, mine: set<nat>, entries: seq<EnqueueEntry>, at: nat, end: nat,
    refused: set<nat>, fates: seq<Fate>, fate: Fate)
    requires ChunkSoFar(before, entries, at, end, refused, fates) && Distinct(entries) && at < end
    requires forall i :: 0 <= i < |entries| ==> entries[i].k in mine
    requires MovesEnqueuer(before, after, mine, entries[at].k, MarkTried)
      || (Failed(fate) && MovesEnqueuer(before, after, mine, entries[at].k, SentToQueue))
    requires fate.NowQueued? ==> WasQueuedSince(after.table, entries[at].key)
    ensures ChunkSoFar(after, entries, at + 1, end, refused, fates + [fate])
  {
  }

  // The names of these entries in the world, as they are offered to the queue.
  function NamesOf(entries: seq<EnqueueEntry>): (ks: seq<nat>)
    ensures |ks| == |entries| && forall i :: 0 <= i < |ks| ==> ks[i] == entries[i].k
  {
    seq(|entries|, i requires 0 <= i < |entries| => entries[i].k)
  }

  lemma NamesOfPart(entries: seq<EnqueueEntry>, start: nat, end: nat)
    requires start <= end <= |entries| && Distinct(entries)
    ensures
      var ks := NamesOf(entries[start..end]);
      && |ks| == end - start && (forall i :: start <= i < end ==> ks[i - start] == entries[i].k)
      && (forall i :: 0 <= i < |entries| ==> (entries[i].k in ks <==> start <= i < end))
      && forall i, j :: 0 <= i < j < |ks| ==> ks[i] != ks[j]
  {
    var ks := NamesOf(entries[start..end]);
    forall i | start <= i < end ensures ks[i - start] == entries[i].k {
      assert entries[start..end][i - start] == entries[i];
    }
    forall i | 0 <= i < |entries| ensures entries[i].k in ks <==> start <= i < end {
      if start <= i < end { assert ks[i - start] == entries[i].k; }
      if entries[i].k in ks {
        var j :| 0 <= j < |ks| && ks[j] == entries[i].k;
        assert entries[start + j].k == entries[i].k;
      }
    }
  }

  lemma ChunkIsPicked(s: State, entries: seq<EnqueueEntry>, start: nat, end: nat, fates: seq<Fate>)
    requires ChunkSoFar(s, entries, start, start, {}, fates) && start <= end <= |entries|
    ensures forall k :: k in NamesOf(entries[start..end]) ==> EnqueuerIsAt(s, k, Picked)
  {
    forall k | k in NamesOf(entries[start..end]) ensures EnqueuerIsAt(s, k, Picked) {
      var j :| 0 <= j < end - start && NamesOf(entries[start..end])[j] == k;
      assert entries[start..end][j] == entries[start + j] && IsPicked(s, entries[start + j]);
    }
  }

  // Those that were not taken are refused, and so are all when the call itself failed.
  lemma ChunkIsSent(
    before: State, after: State, mine: set<nat>, entries: seq<EnqueueEntry>, start: nat, end: nat,
    notTaken: set<nat>, refused: set<nat>, fates: seq<Fate>)
    requires ChunkSoFar(before, entries, start, start, {}, fates) && start <= end <= |entries| && Distinct(entries)
    requires forall i :: 0 <= i < |entries| ==> entries[i].k in mine
    requires BatchIsSent(before, after, mine, NamesOf(entries[start..end]), notTaken) && notTaken <= refused
    ensures ChunkSoFar(after, entries, start, end, refused, fates)
  {
    NamesOfPart(entries, start, end);
    hide NamesOf, Distinct;
    forall i | 0 <= i < start ensures EntryOk(after, entries[i], fates[i]) {
      assert EntryOk(before, entries[i], fates[i]);
    }
    forall i | end <= i < |entries| ensures IsPicked(after, entries[i]) {
      assert IsPicked(before, entries[i]);
    }
    forall i | start <= i < end
      ensures if entries[i].k in refused then EntryOk(after, entries[i], SendFailed)
        else EnqueuerIsAt(after, entries[i].k, SentToQueue) && after.enqueuers[entries[i].k].record == entries[i].key
    {
      assert IsPicked(before, entries[i]);
    }
  }

  // --- The calls behind the fates --------------------------------------------------------------------

  // The queue did not take this entry: it refused it, or the whole call failed.
  predicate WasRefused(made: seq<CallMade>, k: nat) {
    exists i :: 0 <= i < |made| && Refuses(made[i], k)
  }

  predicate Refuses(call: CallMade, k: nat) {
    call.BatchCall? && k in call.ks && (call.refused.Thrown? || k in call.refused.value)
  }

  // Each fate is what the calls for this entry came to.
  predicate IsToldBy(made: seq<CallMade>, k: nat, fate: Fate) {
    match fate
    case SendFailed => WasRefused(made, k)
    case MarkFailed => QueuedCall(k, Thrown) in made
    case NowQueued => QueuedCall(k, Ok(true)) in made
    case MovedBefore => QueuedCall(k, Ok(false)) in made
  }

  predicate AreToldBy(made: seq<CallMade>, entries: seq<EnqueueEntry>, fates: seq<Fate>) {
    |fates| <= |entries| && forall i :: 0 <= i < |fates| ==> IsToldBy(made, entries[i].k, fates[i])
  }

  // All that was offered to the queue, in order, in calls of at most ten.
  function Offered(made: seq<CallMade>): seq<nat> {
    if made == [] then []
    else
      var last := made[|made| - 1];
      Offered(made[..|made| - 1]) + (if last.BatchCall? then last.ks else [])
  }

  predicate InCallsOfTen(made: seq<CallMade>) {
    forall i :: 0 <= i < |made| && made[i].BatchCall? ==> 1 <= |made[i].ks| <= 10
  }

  // The books at entry `at` of the chunk up to `end`: the result counts the fates, the calls tell them, and they tell
  // which entries ahead were refused.
  ghost predicate IsBooked(
    entries: seq<EnqueueEntry>, at: nat, end: nat, refused: set<nat>, fates: seq<Fate>, result: EnqueueResult,
    made: seq<CallMade>)
  {
    && |fates| == at <= end <= |entries| && result == ResultOf(entries, fates)
    && AreToldBy(made, entries, fates) && Offered(made) == NamesOf(entries[..end]) && InCallsOfTen(made)
    && forall j :: at <= j < end && entries[j].k in refused ==> WasRefused(made, entries[j].k)
  }

  function FateOf(applied: Result<bool>): Fate {
    match applied
    case Thrown => MarkFailed
    case Ok(true) => NowQueued
    case Ok(false) => MovedBefore
  }

  lemma NothingIsBooked(entries: seq<EnqueueEntry>)
    ensures IsBooked(entries, 0, 0, {}, [], EnqueueResult([], 0, 0, 0), [])
  {
    hide AreToldBy, Offered, NamesOf, InCallsOfTen;
    NothingIsOffered(entries);
  }

  lemma BatchIsBooked(
    entries: seq<EnqueueEntry>, start: nat, end: nat, refused: set<nat>, fates: seq<Fate>, result: EnqueueResult,
    made: seq<CallMade>, answer: Result<set<nat>>)
    requires start < end <= |entries| && end <= start + 10
    requires IsBooked(entries, start, start, {}, fates, result, made)
    requires forall i :: start <= i < end ==>
      (entries[i].k in refused <==> answer.Thrown? || entries[i].k in answer.value)
    ensures IsBooked(entries, start, end, refused, fates, result, made
      + [BatchCall(NamesOf(entries[start..end]), answer)])
  {
    hide ResultOf, AreToldBy, Offered, NamesOf, InCallsOfTen, WasRefused;
    OneMoreBatch(made, entries, fates, start, end, answer);
    RefusedAreTold(made + [BatchCall(NamesOf(entries[start..end]), answer)], entries, start, end, refused, answer);
  }

  lemma RefusalIsBooked(
    entries: seq<EnqueueEntry>, at: nat, end: nat, refused: set<nat>, fates: seq<Fate>, result: EnqueueResult,
    made: seq<CallMade>)
    requires at < end <= |entries| && entries[at].k in refused
    requires IsBooked(entries, at, end, refused, fates, result, made)
    ensures IsBooked(
      entries, at + 1, end, refused, fates + [SendFailed],
      result.(failedKeys := result.failedKeys + [entries[at].key]), made)
  {
    hide ResultOf, AreToldBy, IsToldBy, Offered, NamesOf, InCallsOfTen, WasRefused;
    RefusedIsTold(made, entries[at].k);
    OneMoreFate(made, entries, fates, SendFailed);
    ResultGrows(entries, fates, SendFailed);
  }

  lemma MarkIsBooked(
    entries: seq<EnqueueEntry>, at: nat, end: nat, refused: set<nat>, fates: seq<Fate>, had: EnqueueResult,
    made: seq<CallMade>, applied: Result<bool>, result: EnqueueResult)
    requires at < end <= |entries| && IsBooked(entries, at, end, refused, fates, had, made)
    requires result.sent == had.sent + 1
    requires result.failedKeys == had.failedKeys + (if applied.Thrown? then [entries[at].key] else [])
    requires result.queued == had.queued + (if applied == Ok(true) then 1 else 0)
    requires result.alreadyMoved == had.alreadyMoved + (if applied == Ok(false) then 1 else 0)
    ensures IsBooked(
      entries, at + 1, end, refused, fates + [FateOf(applied)], result, made + [QueuedCall(entries[at].k, applied)])
  {
    hide ResultOf, AreToldBy, IsToldBy, Offered, NamesOf, InCallsOfTen, WasRefused;
    OneMoreMark(made, entries, fates, entries[at].k, applied);
    OneMoreFate(made + [QueuedCall(entries[at].k, applied)], entries, fates, FateOf(applied));
    ResultGrows(entries, fates, FateOf(applied));
  }

  lemma ChunkIsBooked(
    entries: seq<EnqueueEntry>, end: nat, refused: set<nat>, fates: seq<Fate>, result: EnqueueResult,
    made: seq<CallMade>)
    requires IsBooked(entries, end, end, refused, fates, result, made)
    ensures IsBooked(entries, end, end, {}, fates, result, made)
  {
    hide ResultOf, AreToldBy, Offered, NamesOf, InCallsOfTen, WasRefused;
  }

  lemma AllIsBooked(entries: seq<EnqueueEntry>, fates: seq<Fate>, result: EnqueueResult, made: seq<CallMade>)
    requires IsBooked(entries, |entries|, |entries|, {}, fates, result, made)
    ensures |fates| == |entries| && result == ResultOf(entries, fates)
    ensures AreToldBy(made, entries, fates) && Offered(made) == NamesOf(entries) && InCallsOfTen(made)
    ensures |result.failedKeys| + result.queued + result.alreadyMoved == |entries|
    ensures result.sent == |entries| - Count(fates, SendFailed)
    ensures result.queued == Count(fates, NowQueued) && result.alreadyMoved == Count(fates, MovedBefore)
  {
    hide ResultOf, AreToldBy, Offered, NamesOf, InCallsOfTen, WasRefused, Count;
    assert entries[..|entries|] == entries;
    AllAccountedFor(entries, fates);
  }

  lemma NothingIsOffered(entries: seq<EnqueueEntry>)
    ensures AreToldBy([], entries, []) && Offered([]) == NamesOf(entries[..0]) && InCallsOfTen([])
  {
  }

  lemma OneMoreBatch(
    made: seq<CallMade>, entries: seq<EnqueueEntry>, fates: seq<Fate>, start: nat, end: nat, refused: Result<set<nat>>)
    requires start < end <= |entries| && end <= start + 10
    requires AreToldBy(made, entries, fates) && Offered(made) == NamesOf(entries[..start]) && InCallsOfTen(made)
    ensures
      var more := made + [BatchCall(NamesOf(entries[start..end]), refused)];
      AreToldBy(more, entries, fates) && Offered(more) == NamesOf(entries[..end]) && InCallsOfTen(more)
  {
    var call := BatchCall(NamesOf(entries[start..end]), refused);
    ToldByMore(made, call, entries, fates);
    hide AreToldBy;
    assert (made + [call])[..|made|] == made;
    assert NamesOf(entries[..start]) + NamesOf(entries[start..end]) == NamesOf(entries[..end]);
  }

  lemma OneMoreMark(
    made: seq<CallMade>, entries: seq<EnqueueEntry>, fates: seq<Fate>, k: nat, applied: Result<bool>)
    requires AreToldBy(made, entries, fates) && InCallsOfTen(made)
    ensures
      var more := made + [QueuedCall(k, applied)];
      AreToldBy(more, entries, fates) && Offered(more) == Offered(made) && InCallsOfTen(more)
      && IsToldBy(more, k, if applied.Thrown? then MarkFailed else if applied.value then NowQueued else MovedBefore)
      && forall o :: WasRefused(made, o) ==> WasRefused(more, o)
  {
    var call := QueuedCall(k, applied);
    ToldByMore(made, call, entries, fates);
    hide AreToldBy;
    var more := made + [call];
    assert more[..|made|] == made && more[|made|] == call;
    forall o | WasRefused(made, o) ensures WasRefused(more, o) {
      RefusedByMore(made, call, o);
    }
  }

  lemma RefusedByMore(made: seq<CallMade>, call: CallMade, k: nat)
    requires WasRefused(made, k)
    ensures WasRefused(made + [call], k)
  {
    var i :| 0 <= i < |made| && Refuses(made[i], k);
    assert Refuses((made + [call])[i], k);
  }

  lemma ToldByMore(made: seq<CallMade>, call: CallMade, entries: seq<EnqueueEntry>, fates: seq<Fate>)
    requires AreToldBy(made, entries, fates)
    ensures AreToldBy(made + [call], entries, fates)
  {
    hide WasRefused;
    forall i | 0 <= i < |fates| ensures IsToldBy(made + [call], entries[i].k, fates[i]) {
      assert IsToldBy(made, entries[i].k, fates[i]);
      if fates[i].SendFailed? {
        RefusedByMore(made, call, entries[i].k);
      }
    }
  }

  lemma OneMoreFate(made: seq<CallMade>, entries: seq<EnqueueEntry>, fates: seq<Fate>, fate: Fate)
    requires AreToldBy(made, entries, fates) && |fates| < |entries| && IsToldBy(made, entries[|fates|].k, fate)
    ensures AreToldBy(made, entries, fates + [fate])
  {
    hide IsToldBy;
  }

  predicate Works(call: CallMade) {
    match call
    case BatchCall(_, refused) => refused == Ok({})
    case QueuedCall(_, applied) => applied.Ok?
    case _ => true
  }

  // If the queue takes every entry of every call and no update throws, every request is queued or has moved on.
  lemma WithoutFailuresAllAreQueued(made: seq<CallMade>, entries: seq<EnqueueEntry>, fates: seq<Fate>)
    requires AreToldBy(made, entries, fates)
    requires forall call :: call in made ==> Works(call)
    ensures forall i :: 0 <= i < |fates| ==> fates[i] in {NowQueued, MovedBefore}
    ensures FailedKeys(entries, fates) == []
  {
    forall i | 0 <= i < |fates| ensures fates[i] in {NowQueued, MovedBefore} {
      assert IsToldBy(made, entries[i].k, fates[i]);
      assert !Works(QueuedCall(entries[i].k, Thrown));
      hide WasRefused, Works;
      NothingIsRefused(made, entries[i].k);
    }
    NoFailedKeys(entries, fates);
  }

  lemma NothingIsRefused(made: seq<CallMade>, k: nat)
    requires forall call :: call in made ==> Works(call)
    ensures !WasRefused(made, k)
  {
    assert forall i :: 0 <= i < |made| ==> Works(made[i]);
  }

  lemma {:induction false} NoFailedKeys(entries: seq<EnqueueEntry>, fates: seq<Fate>)
    requires |fates| <= |entries| && forall i :: 0 <= i < |fates| ==> !Failed(fates[i])
    ensures FailedKeys(entries, fates) == []
  {
    if fates != [] {
      NoFailedKeys(entries, fates[..|fates| - 1]);
    }
  }

  class EnqueueWorker {
    const world: System
    const mine: set<nat>

    constructor (world: System, mine: set<nat>)
      ensures this.world == world && this.mine == mine
    {
      this.world, this.mine := world, mine;
    }

    // One SendMessageBatch call: the entries that were not accepted, or all of them when the call
    // itself failed (although some may have been stored).
    method Send(entries: seq<EnqueueEntry>, start: nat, end: nat, ghost fates: seq<Fate>)
      returns (refused: set<nat>, ghost answer: Result<set<nat>>)
      requires start <= end <= |entries| && mine <= world.s.enqueuers.Keys
      requires Distinct(entries) && forall i :: 0 <= i < |entries| ==> entries[i].k in mine
      requires ChunkSoFar(world.s, entries, start, start, {}, fates)
      modifies world
      ensures Leads(world.cfg, old(world.s), world.s) && mine <= world.s.enqueuers.Keys
      ensures ChunkSoFar(world.s, entries, start, end, refused, fates)
      // The whole chunk was offered in one call, and refused is what its answer says.
      ensures world.calls == old(world.calls) + [BatchCall(NamesOf(entries[start..end]), answer)]
      ensures forall i :: start <= i < end ==>
        (entries[i].k in refused <==> answer.Thrown? || entries[i].k in answer.value)
    {
      hide Leads, ChunkSoFar, BatchIsSent, EnqueuerIsAt, IsPicked;
      var ks := NamesOf(entries[start..end]);
      NamesOfPart(entries, start, end);
      ChunkIsPicked(world.s, entries, start, end, fates);
      assert forall k :: k in ks ==> k in mine by {
        assert forall i :: 0 <= i < |ks| ==> ks[i] == entries[start..end][i].k == entries[start + i].k;
      }
      ghost var before := world.s;
      ghost var notTaken;
      var result;
      result, notTaken := world.SendBatch(mine, ks);
      answer := result;
      refused := if result.Thrown? then set k | k in ks else result.value;
      assert notTaken <= refused by { TakenFromTheBatch(before, world.s, mine, ks, notTaken); }
      ChunkIsSent(before, world.s, mine, entries, start, end, notTaken, refused, fates);
      TakenFromTheBatch(before, world.s, mine, ks, notTaken);
    }

    // `markAsQueued`: one conditional update, for an entry that the queue has accepted.
    method MarkAsQueued(
      entries: seq<EnqueueEntry>, i: nat, end: nat, ghost refused: set<nat>, ghost fates: seq<Fate>,
      had: EnqueueResult, ghost made: seq<CallMade>)
      returns (result: EnqueueResult, ghost applied: Result<bool>)
      requires i < end <= |entries| && mine <= world.s.enqueuers.Keys && entries[i].k !in refused
      requires Distinct(entries) && forall i :: 0 <= i < |entries| ==> entries[i].k in mine
      requires ChunkSoFar(world.s, entries, i, end, refused, fates)
      requires IsBooked(entries, i, end, refused, fates, had, made)
      modifies world
      ensures Leads(world.cfg, old(world.s), world.s) && mine <= world.s.enqueuers.Keys
      ensures world.calls == old(world.calls) + [QueuedCall(entries[i].k, applied)]
      ensures ChunkSoFar(world.s, entries, i + 1, end, refused, fates + [FateOf(applied)])
      ensures IsBooked(entries, i + 1, end, refused, fates + [FateOf(applied)], result,
                       made + [QueuedCall(entries[i].k, applied)])
    {
      hide Leads, ChunkSoFar, IsBooked, IsPicked, IsReadyToAcknowledge, WasQueuedSince, Distinct, EnqueuerIsAt,
        MovesEnqueuer;
      ghost var earlier := world.s;
      NextIsSent(world.s, entries, i, end, refused, fates);
      var answer := world.MarkQueued(mine, entries[i].k);
      result := had.(sent := had.sent + 1);
      match answer {
        case Thrown => result := result.(failedKeys := result.failedKeys + [entries[i].key]);
        case Ok(true) => result := result.(queued := result.queued + 1);
        case Ok(false) => result := result.(alreadyMoved := result.alreadyMoved + 1);
      }
      applied := answer;
      OneMoves(earlier, world.s, mine, entries, i, end, refused, fates, FateOf(applied));
      MarkIsBooked(entries, i, end, refused, fates, had, made, applied, result);
    }

    method Enqueue(entries: seq<EnqueueEntry>)
      returns (result: EnqueueResult, ghost fates: seq<Fate>, ghost made: seq<CallMade>)
      requires mine <= world.s.enqueuers.Keys
      requires Distinct(entries) && forall i :: 0 <= i < |entries| ==> entries[i].k in mine
      requires forall i :: 0 <= i < |entries| ==> IsPicked(world.s, entries[i])
      modifies world
      ensures Leads(world.cfg, old(world.s), world.s) && mine <= world.s.enqueuers.Keys
      ensures |fates| == |entries| && result == ResultOf(entries, fates)
      ensures forall i :: 0 <= i < |entries| && !Failed(fates[i]) ==> IsReadyToAcknowledge(world.s, entries[i])
      ensures forall i :: 0 <= i < |entries| && fates[i].NowQueued? ==> WasQueuedSince(world.s.table, entries[i].key)
      ensures |result.failedKeys| + result.queued + result.alreadyMoved == |entries|
      ensures result.sent == |entries| - Count(fates, SendFailed)
      ensures result.queued == Count(fates, NowQueued) && result.alreadyMoved == Count(fates, MovedBefore)
      // Every entry was offered to the queue once, in order, and its fate is what the calls for it came to.
      ensures world.calls == old(world.calls) + made && Offered(made) == NamesOf(entries) && InCallsOfTen(made)
      ensures AreToldBy(made, entries, fates)
    {
      hide Leads, ChunkSoFar, IsBooked, ResultOf, IsPicked, IsReadyToAcknowledge, WasQueuedSince, Distinct,
        EnqueuerIsAt,
        MovesEnqueuer, Offered, InCallsOfTen, AreToldBy, NamesOf, Count, Failed;
      LeadsToItself(world.cfg, world.s);
      fates, made := [], [];
      result := EnqueueResult([], 0, 0, 0);
      NothingIsBooked(entries);
      var start := 0;
      NothingYet(world.s, entries);
      while start < |entries|
        invariant 0 <= start <= |entries| && mine <= world.s.enqueuers.Keys
        invariant Leads(world.cfg, old(world.s), world.s) && world.calls == old(world.calls) + made
        invariant ChunkSoFar(world.s, entries, start, start, {}, fates)
        invariant IsBooked(entries, start, start, {}, fates, result, made)
      {
        var end := if start + MAX_MESSAGES_PER_CALL <= |entries| then start + MAX_MESSAGES_PER_CALL else |entries|;
        ghost var before := world.s;
        var refused;
        ghost var answer;
        refused, answer := Send(entries, start, end, fates);
        LeadsOn(world.cfg, old(world.s), before, world.s);
        BatchIsBooked(entries, start, end, refused, fates, result, made, answer);
        made := made + [BatchCall(NamesOf(entries[start..end]), answer)];
        for i := start to end
          invariant mine <= world.s.enqueuers.Keys
          invariant Leads(world.cfg, old(world.s), world.s) && world.calls == old(world.calls) + made
          invariant ChunkSoFar(world.s, entries, i, end, refused, fates)
          invariant IsBooked(entries, i, end, refused, fates, result, made)
        {
          if entries[i].k in refused {
            RefusalIsBooked(entries, i, end, refused, fates, result, made);
            OneIsRefused(world.s, entries, i, end, refused, fates);
            result := result.(failedKeys := result.failedKeys + [entries[i].key]);
            fates := fates + [SendFailed];
          } else {
            ghost var earlier := world.s;
            ghost var applied;
            result, applied := MarkAsQueued(entries, i, end, refused, fates, result, made);
            fates, made := fates + [FateOf(applied)], made + [QueuedCall(entries[i].k, applied)];
            LeadsOn(world.cfg, old(world.s), earlier, world.s);
          }
        }
        ChunkIsOver(world.s, entries, end, refused, fates);
        ChunkIsBooked(entries, end, refused, fates, result, made);
        start := end;
      }
      AllIsBooked(entries, fates, result, made);
      AllReady(world.s, entries, fates);
    }

    // `handler`: the records of one stream batch. What is not for the queue is ignored, and a record that can never be
    // read is skipped; the keys of the failed entries are reported, and Lambda comes back from the first of them.
    method Handle(records: seq<StreamRecord>)
      returns (batchItemFailures: seq<nat>, ignored: nat, malformed: nat, ghost made: seq<CallMade>)
      requires mine <= world.s.enqueuers.Keys
      requires forall i, j :: 0 <= i < j < |records| ==> records[i].entry.k != records[j].entry.k
      requires forall i :: 0 <= i < |records| && IsUsable(records[i]) ==>
        records[i].entry.k in mine && IsPicked(world.s, records[i].entry)
      // The records are those of the stream.
      requires forall i :: 0 <= i < |records| ==> IsOfTheStream(world.s, records[i])
      modifies world
      ensures Leads(world.cfg, old(world.s), world.s) && mine <= world.s.enqueuers.Keys
      // Whatever is for the queue and not reported was accepted by the queue, and its mark was tried.
      ensures forall i :: 0 <= i < |records| && IsUsable(records[i]) && records[i].entry.key !in batchItemFailures ==>
        IsReadyToAcknowledge(world.s, records[i].entry)
      // Nothing else is reported, and nothing whose calls all worked.
      ensures forall key :: key in batchItemFailures ==> exists i ::
        && 0 <= i < |records| && IsUsable(records[i]) && records[i].entry.key == key
        && (WasRefused(made, records[i].entry.k) || QueuedCall(records[i].entry.k, Thrown) in made)
      // All of these, and only these, were offered to the queue, once and in order.
      ensures world.calls == old(world.calls) + made
      ensures Offered(made) == NamesOf(Usable(records)) && InCallsOfTen(made)
      ensures ignored == Number(records, (r: StreamRecord) => !IsForTheQueue(r.change))
      ensures malformed == Number(records, (r: StreamRecord) => IsForTheQueue(r.change) && !r.readable)
      ensures ignored + malformed + |Usable(records)| == |records|
    {
      hide Leads, FailedKeys, IsPicked, IsReadyToAcknowledge, Number, Offered, InCallsOfTen, WasRefused, NamesOf;
      var entries: seq<EnqueueEntry>;
      entries, ignored, malformed := SortOut(records);
      UsableAreFromTheRecords(records);
      UsableAreDistinct(records);
      assert forall j :: 0 <= j < |entries| ==> entries[j] in Usable(records);
      hide Usable, IsUsable;
      var result;
      ghost var fates;
      result, fates, made := Enqueue(entries);
      batchItemFailures := result.failedKeys;
      assert batchItemFailures == FailedKeys(entries, fates);
      FailedKeysAreExact(entries, fates);
    }
  }

  // The loop of `handler`.
  method SortOut(records: seq<StreamRecord>) returns (entries: seq<EnqueueEntry>, ignored: nat, malformed: nat)
    ensures entries == Usable(records)
    ensures ignored == Number(records, (r: StreamRecord) => !IsForTheQueue(r.change))
    ensures malformed == Number(records, (r: StreamRecord) => IsForTheQueue(r.change) && !r.readable)
    ensures ignored + malformed + |entries| == |records|
  {
    ghost var isIgnored := (r: StreamRecord) => !IsForTheQueue(r.change);
    ghost var isMalformed := (r: StreamRecord) => IsForTheQueue(r.change) && !r.readable;
    entries, ignored, malformed := [], 0, 0;
    var i := 0;
    assert records[..0] == [];
    while i < |records|
      invariant 0 <= i <= |records| && entries == Usable(records[..i])
      invariant ignored == Number(records[..i], isIgnored) && malformed == Number(records[..i], isMalformed)
      invariant ignored + malformed + |entries| == i
    {
      assert records[..i + 1][..i] == records[..i];
      if !IsForTheQueue(records[i].change) {
        ignored := ignored + 1;
      } else if records[i].readable {
        entries := entries + [records[i].entry];
      } else {
        malformed := malformed + 1;
      }
      i := i + 1;
    }
    assert records[..i] == records;
  }

  // A record of the stream, its place in the world, and whether its image can be read at all.
  datatype StreamRecord = StreamRecord(entry: EnqueueEntry, change: Change, readable: bool)

  predicate IsOfTheStream(s: State, record: StreamRecord) {
    record.entry.key < |s.table.changes| && record.change == s.table.changes[record.entry.key]
  }

  predicate IsUsable(record: StreamRecord) {
    IsForTheQueue(record.change) && record.readable
  }

  // How many of the records are of this kind.
  function Number(records: seq<StreamRecord>, isOne: StreamRecord -> bool): nat {
    if records == [] then 0
    else
      var last := |records| - 1;
      Number(records[..last], isOne) + (if isOne(records[last]) then 1 else 0)
  }

  function Usable(records: seq<StreamRecord>): seq<EnqueueEntry> {
    if records == [] then []
    else
      var last := |records| - 1;
      Usable(records[..last]) + (if IsUsable(records[last]) then [records[last].entry] else [])
  }

  lemma {:induction false} UsableAreFromTheRecords(records: seq<StreamRecord>)
    ensures forall e :: e in Usable(records) ==>
      exists i :: 0 <= i < |records| && IsUsable(records[i]) && records[i].entry == e
    ensures forall i :: 0 <= i < |records| && IsUsable(records[i]) ==> records[i].entry in Usable(records)
  {
    if records != [] {
      var last := |records| - 1;
      UsableAreFromTheRecords(records[..last]);
      hide IsUsable;
      assert forall i :: 0 <= i < last ==> records[..last][i] == records[i];
    }
  }

  lemma {:induction false} UsableAreDistinct(records: seq<StreamRecord>)
    requires forall i, j :: 0 <= i < j < |records| ==> records[i].entry.k != records[j].entry.k
    ensures Distinct(Usable(records))
  {
    if records != [] {
      var last := |records| - 1;
      var before := records[..last];
      UsableAreDistinct(before);
      UsableAreFromTheRecords(before);
      assert forall j :: 0 <= j < |Usable(before)| ==> Usable(before)[j] in Usable(before);
    }
  }

  lemma {:induction false} FailedKeysAreExact(entries: seq<EnqueueEntry>, fates: seq<Fate>)
    requires |fates| <= |entries|
    ensures forall i :: 0 <= i < |fates| && Failed(fates[i]) ==> entries[i].key in FailedKeys(entries, fates)
    ensures forall key :: key in FailedKeys(entries, fates) ==>
      exists i :: 0 <= i < |fates| && entries[i].key == key && Failed(fates[i])
  {
    if fates != [] {
      FailedKeysAreExact(entries, fates[..|fates| - 1]);
    }
  }

  // In every reachable state the queue has accepted the send of a record that Lambda may go past.
  lemma ReadyMeansAccepted(cfg: Config, s: State, entry: EnqueueEntry)
    requires Reachable(cfg, s) && IsReadyToAcknowledge(s, entry)
    ensures NoLoss.IsSeenRecord(s.table, s.seen, entry.key)
  {
    var run :| IsRunFromTheStart(cfg, run) && run[|run| - 1] == s;
    NoLoss.InvAlong(cfg, run, |run| - 1);
    assert entry.k in s.enqueuers;
  }

  lemma NothingYet(s: State, entries: seq<EnqueueEntry>)
    requires forall i :: 0 <= i < |entries| ==> IsPicked(s, entries[i])
    ensures ChunkSoFar(s, entries, 0, 0, {}, [])
  {
  }

  lemma NextIsSent(
    s: State, entries: seq<EnqueueEntry>, at: nat, end: nat, refused: set<nat>, fates: seq<Fate>)
    requires ChunkSoFar(s, entries, at, end, refused, fates) && at < end && entries[at].k !in refused
    ensures EnqueuerIsAt(s, entries[at].k, SentToQueue) && entries[at].k in s.enqueuers
    ensures s.enqueuers[entries[at].k].record == entries[at].key
  {
  }

  lemma OneIsRefused(
    s: State, entries: seq<EnqueueEntry>, at: nat, end: nat, refused: set<nat>, fates: seq<Fate>)
    requires ChunkSoFar(s, entries, at, end, refused, fates) && at < end && entries[at].k in refused
    ensures ChunkSoFar(s, entries, at + 1, end, refused, fates + [SendFailed])
  {
  }

  lemma TakenFromTheBatch(before: State, after: State, mine: set<nat>, ks: seq<nat>, notTaken: set<nat>)
    requires BatchIsSent(before, after, mine, ks, notTaken)
    ensures (forall k :: k in notTaken ==> k in ks) && mine <= after.enqueuers.Keys
  {
  }

  lemma RefusedAreTold(
    made: seq<CallMade>, entries: seq<EnqueueEntry>, start: nat, end: nat, refused: set<nat>, answer: Result<set<nat>>)
    requires start <= end <= |entries| && made != []
    requires made[|made| - 1] == BatchCall(NamesOf(entries[start..end]), answer)
    requires forall i :: start <= i < end ==>
      (entries[i].k in refused <==> answer.Thrown? || entries[i].k in answer.value)
    ensures forall j :: start <= j < end && entries[j].k in refused ==> WasRefused(made, entries[j].k)
  {
    forall j | start <= j < end && entries[j].k in refused ensures WasRefused(made, entries[j].k) {
      assert entries[start..end][j - start] == entries[j];
      assert NamesOf(entries[start..end])[j - start] == entries[j].k;
      assert Refuses(made[|made| - 1], entries[j].k);
    }
  }

  lemma RefusedIsTold(made: seq<CallMade>, k: nat)
    requires WasRefused(made, k)
    ensures IsToldBy(made, k, SendFailed)
  {
  }

  lemma ChunkIsOver(s: State, entries: seq<EnqueueEntry>, end: nat, refused: set<nat>, fates: seq<Fate>)
    requires ChunkSoFar(s, entries, end, end, refused, fates)
    ensures ChunkSoFar(s, entries, end, end, {}, fates)
  {
  }

  lemma AllReady(s: State, entries: seq<EnqueueEntry>, fates: seq<Fate>)
    requires ChunkSoFar(s, entries, |entries|, |entries|, {}, fates)
    ensures forall i :: 0 <= i < |entries| && !Failed(fates[i]) ==> IsReadyToAcknowledge(s, entries[i])
    ensures forall i :: 0 <= i < |entries| && fates[i].NowQueued? ==> WasQueuedSince(s.table, entries[i].key)
  {
  }

  lemma ResultGrows(entries: seq<EnqueueEntry>, fates: seq<Fate>, fate: Fate)
    requires |fates| < |entries|
    ensures
      var more := ResultOf(entries, fates + [fate]);
      var had := ResultOf(entries, fates);
      && more.failedKeys == had.failedKeys + (if Failed(fate) then [entries[|fates|].key] else [])
      && more.sent == had.sent + (if fate.SendFailed? then 0 else 1)
      && more.queued == had.queued + (if fate.NowQueued? then 1 else 0)
      && more.alreadyMoved == had.alreadyMoved + (if fate.MovedBefore? then 1 else 0)
  {
    assert (fates + [fate])[..|fates|] == fates;
  }

  // Every entry is either reported or moved on, and none is counted twice.
  lemma {:induction false} AllAccountedFor(entries: seq<EnqueueEntry>, fates: seq<Fate>)
    requires |fates| <= |entries|
    ensures
      var result := ResultOf(entries, fates);
      && |result.failedKeys| + result.queued + result.alreadyMoved == |fates|
      && result.sent + Count(fates, SendFailed) == |fates|
      && result.queued == Count(fates, NowQueued) && result.alreadyMoved == Count(fates, MovedBefore)
  {
    if fates != [] {
      var last := |fates| - 1;
      AllAccountedFor(entries, fates[..last]);
      ResultGrows(entries, fates[..last], fates[last]);
      assert fates[..last] + [fates[last]] == fates;
    }
  }
}
