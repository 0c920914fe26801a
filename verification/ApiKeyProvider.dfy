/** backend/src/repositories/ssm-api-key-provider.ts: a cached secret, one shared read, and a generation
    counter, under every interleaving of `get`, the answers of SSM and `invalidate`. */
module ApiKeyProvider {
  import opened Basics

  const CACHE_MS := 5 * 60 * 1000

  // `value` and `expiresAt` are the code's; `read` names the read that brought the value.
  datatype Cached = Cached(value: string, expiresAt: int, read: nat)

  // A read is named by the step that sent it, and remembers the generation it was sent in.
  datatype Read =
    | Sent(generation: nat)                             // waiting for SSM
    | Answered(generation: nat, value: Option<string>)  // `read` is over, its `finally` has not run yet
    | Settled(generation: nat, value: Option<string>)   // the callers that waited have the value, or the error

  datatype State = State(
    cached: Option<Cached>, inFlight: Option<nat>, generation: nat, readings: map<nat, Read>, step: nat)

  const INITIAL := State(None, None, 0, map[], 0)

  // The answer of SSM is None when the call failed or the parameter has no value.
  datatype Event = Get(now: int) | Answer(read: nat, value: Option<string>, now: int) | Finally(read: nat) | Invalidate

  predicate Enabled(s: State, e: Event) {
    match e
    case Get(_) | Invalidate => true
    case Answer(read, value, _) => read in s.readings && s.readings[read].Sent? && (value.Some? ==> value.value != "")
    case Finally(read) => read in s.readings && s.readings[read].Answered?
  }

  predicate IsServed(s: State, now: int) {
    s.cached.Some? && now < s.cached.value.expiresAt
  }

  function Next(s: State, e: Event): State
    requires Enabled(s, e)
  {
    var t := s.(step := s.step + 1);
    match e
    case Get(now) =>
      if IsServed(s, now) || s.inFlight.Some? then t
      else t.(inFlight := Some(s.step), readings := s.readings[s.step := Sent(s.generation)])
    case Answer(read, value, now) =>
      var g := s.readings[read].generation;
      var u := t.(readings := s.readings[read := Answered(g, value)]);
      if value.Some? && g == s.generation then u.(cached := Some(Cached(value.value, now + CACHE_MS, read))) else u
    case Finally(read) =>
      var u := t.(readings := s.readings[read := Settled(s.readings[read].generation, s.readings[read].value)]);
      if s.inFlight == Some(read) then u.(inFlight := None) else u
    case Invalidate => t.(cached := None, inFlight := None, generation := s.generation + 1)
  }

  // The read whose value a `get` in this state yields: the cached one, or the one it waits for.
  function SourceOf(s: State, now: int): nat {
    if IsServed(s, now) then s.cached.value.read
    else if s.inFlight.Some? then s.inFlight.value
    else s.step
  }

  ghost predicate IsRun(states: seq<State>, events: seq<Event>) {
    && |states| == |events| + 1 && states[0] == INITIAL
    && forall k :: 0 <= k < |events| ==> Enabled(states[k], events[k]) && states[k + 1] == Next(states[k], events[k])
  }

  // --- The invariant ---------------------------------------------------------------------------

  // A read sent in the present generation.
  predicate IsCurrent(s: State, read: nat) {
    read in s.readings && s.readings[read].generation == s.generation
  }

  predicate HasValue(read: Read, value: string) {
    !read.Sent? && read.value == Some(value)
  }

  predicate Inv(s: State) {
    && (forall r :: r in s.readings ==> r < s.step && s.readings[r].generation <= s.generation)
    && (s.inFlight.Some? ==> IsCurrent(s, s.inFlight.value) && !s.readings[s.inFlight.value].Settled?)
    && (s.cached.Some? ==>
          IsCurrent(s, s.cached.value.read) && HasValue(s.readings[s.cached.value.read], s.cached.value.value))
    // A read of this generation that is not settled is the shared one.
    && (forall r :: r in s.readings && IsCurrent(s, r) && !s.readings[r].Settled? ==> s.inFlight == Some(r))
  }

  lemma GetKeepsInv(s: State, now: int)
    requires Inv(s)
    ensures Inv(Next(s, Event.Get(now)))
  {
  }

  lemma AnswerKeepsInv(s: State, read: nat, value: Option<string>, now: int)
    requires Inv(s) && Enabled(s, Answer(read, value, now))
    ensures Inv(Next(s, Answer(read, value, now)))
  {
  }

  lemma FinallyKeepsInv(s: State, read: nat)
    requires Inv(s) && Enabled(s, Finally(read))
    ensures Inv(Next(s, Finally(read)))
  {
  }

  lemma NextKeepsInv(s: State, e: Event)
    requires Inv(s) && Enabled(s, e)
    ensures Inv(Next(s, e)) && Next(s, e).step == s.step + 1
  {
    match e
    case Get(now) => hide Inv; GetKeepsInv(s, now);
    case Answer(read, value, now) => hide Inv; AnswerKeepsInv(s, read, value, now);
    case Finally(read) => hide Inv; FinallyKeepsInv(s, read);
    case Invalidate =>
  }


  lemma {:induction false} InvAlong(states: seq<State>, events: seq<Event>, k: nat)
    requires IsRun(states, events) && k <= |events|
    ensures Inv(states[k]) && states[k].step == k
  {
    hide Next, Enabled;
    if k > 0 {
      InvAlong(states, events, k - 1);
      NextKeepsInv(states[k - 1], events[k - 1]);
    }
  }


  // Generations only grow, and grow with every `invalidate`.
  lemma {:induction false} GenerationsGrow(states: seq<State>, events: seq<Event>, i: nat, k: nat)
    requires IsRun(states, events) && i <= k <= |events|
    ensures states[i].generation <= states[k].generation
    ensures (exists j :: i <= j < k && events[j].Invalidate?) ==> states[i].generation < states[k].generation
    decreases k
  {
    if i < k {
      GenerationsGrow(states, events, i, k - 1);
    }
  }

  lemma OneStepRemembers(s: State, e: Event, read: nat)
    requires Inv(s) && Enabled(s, e) && read in Next(s, e).readings
    ensures
      var g := Next(s, e).readings[read].generation;
      if read in s.readings then read < s.step && g == s.readings[read].generation
      else e.Get? && read == s.step && g == s.generation
  {
  }

  // A read carries the generation of the step that sent it, for good.
  lemma {:induction false} ReadsRememberTheirGeneration(states: seq<State>, events: seq<Event>, k: nat, read: nat)
    requires IsRun(states, events) && k <= |events| && read in states[k].readings
    ensures read < k && events[read].Get? && states[k].readings[read].generation == states[read].generation
  {
    hide Inv, Next, Enabled;
    if k > 0 {
      InvAlong(states, events, k - 1);
      OneStepRemembers(states[k - 1], events[k - 1], read);
      if read in states[k - 1].readings {
        ReadsRememberTheirGeneration(states, events, k - 1, read);
      }
    }
  }


  // --- The theorems ----------------------------------------------------------------------------

  // A `get` begun after an `invalidate` never yields a value whose read was sent before it, whatever is running.
  lemma NothingStaleAfterInvalidate(states: seq<State>, events: seq<Event>, j: nat, i: nat)
    requires IsRun(states, events) && i < j < |events| && events[j].Get? && events[i].Invalidate?
    ensures var source := SourceOf(states[j], events[j].now);
      i < source <= j && source in states[j + 1].readings
  {
    var source := SourceOf(states[j], events[j].now);
    InvAlong(states, events, j);
    if source in states[j].readings {
      ReadsRememberTheirGeneration(states, events, j, source);
      if source <= i {
        GenerationsGrow(states, events, source, j);
      }
    }
  }

  predicate IsRunning(s: State, read: nat) {
    IsCurrent(s, read) && s.readings[read].Sent?
  }

  // At most one read of the current generation is running, and every `get` that finds no fresh value shares it.
  lemma OneReadPerGeneration(states: seq<State>, events: seq<Event>, k: nat)
    requires IsRun(states, events) && k <= |events|
    ensures forall r, q :: IsRunning(states[k], r) && IsRunning(states[k], q) ==> r == q
  {
    InvAlong(states, events, k);
  }

  ghost predicate AnsweredAt(events: seq<Event>, a: nat, read: nat, value: string, at: int) {
    a < |events| && events[a] == Answer(read, Some(value), at)
  }

  lemma {:induction false} TheCacheWasAnswered(states: seq<State>, events: seq<Event>, k: nat) returns (a: nat)
    requires IsRun(states, events) && k <= |events| && states[k].cached.Some?
    ensures var c := states[k].cached.value;
      && a < k && AnsweredAt(events, a, c.read, c.value, c.expiresAt - CACHE_MS)
      && forall i :: a <= i < k ==> !events[i].Invalidate?
  {
    if states[k].cached == states[k - 1].cached {
      a := TheCacheWasAnswered(states, events, k - 1);
    } else {
      a := k - 1;
    }
  }

  // Nothing is served from memory that SSM did not answer less than five minutes ago by our clock, to the read it is
  // served from; and no `invalidate` came between.
  lemma ServedValuesAreFresh(states: seq<State>, events: seq<Event>, j: nat) returns (a: nat)
    requires IsRun(states, events) && j < |events| && events[j].Get? && IsServed(states[j], events[j].now)
    ensures a < j && events[a].Answer? && events[a].read == SourceOf(states[j], events[j].now)
    ensures events[a].value == Some(states[j].cached.value.value)
    ensures events[j].now < events[a].now + 300_000
    ensures forall i :: a <= i < j ==> !events[i].Invalidate?
  {
    a := TheCacheWasAnswered(states, events, j);
  }

  lemma {:induction false} TheAnswerStays(states: seq<State>, events: seq<Event>, a: nat, k: nat)
    requires IsRun(states, events) && a < k <= |events|
    requires events[a].Answer? && events[a].value.Some? && IsCurrent(states[a], events[a].read)
    requires forall i :: a < i < k ==> !events[i].Invalidate? && !events[i].Answer?
    ensures states[k].cached == Some(Cached(events[a].value.value, events[a].now + CACHE_MS, events[a].read))
    decreases k
  {
    if k > a + 1 {
      TheAnswerStays(states, events, a, k - 1);
    }
  }

  // An answer to a read of the current generation is kept: for five minutes of our clock, until the next answer or an
  // `invalidate`, every `get` yields it and asks nobody.
  lemma AnswersAreKept(states: seq<State>, events: seq<Event>, a: nat, j: nat)
    requires IsRun(states, events) && a < j < |events|
    requires events[a].Answer? && events[a].value.Some? && IsCurrent(states[a], events[a].read)
    requires forall i :: a < i < j ==> !events[i].Invalidate? && !events[i].Answer?
    requires events[j].Get? && events[j].now < events[a].now + 300_000
    ensures IsServed(states[j], events[j].now) && states[j].cached.value.value == events[a].value.value
    ensures SourceOf(states[j], events[j].now) == events[a].read && states[j + 1].readings == states[j].readings
  {
    TheAnswerStays(states, events, a, j);
  }

  lemma OneStepAnswers(s: State, e: Event, read: nat)
    requires Inv(s) && Enabled(s, e) && read in Next(s, e).readings && !Next(s, e).readings[read].Sent?
    ensures
      var value := Next(s, e).readings[read].value;
      if read in s.readings && !s.readings[read].Sent? then s.readings[read].value == value
      else e.Answer? && e.read == read < s.step && e.value == value
  {
  }

  // A waiting `get` is answered with what SSM said to its read, kept or not.
  lemma {:induction false} WaitersGetTheirRead(states: seq<State>, events: seq<Event>, k: nat, read: nat)
    returns (a: nat)
    requires IsRun(states, events) && k <= |events| && read in states[k].readings && !states[k].readings[read].Sent?
    ensures read < a < k && events[a].Answer? && events[a].read == read
      && events[a].value == states[k].readings[read].value
  {
    hide Inv, Next, Enabled;
    assert k > 0;
    InvAlong(states, events, k - 1);
    OneStepAnswers(states[k - 1], events[k - 1], read);
    if read in states[k - 1].readings && !states[k - 1].readings[read].Sent? {
      a := WaitersGetTheirRead(states, events, k - 1, read);
    } else {
      a := k - 1;
    }
  }

  // When no read is open any more, the next `get` without a fresh value starts one: a failure blocks nobody.
  lemma NoReadIsForgotten(states: seq<State>, events: seq<Event>, k: nat)
    requires IsRun(states, events) && k <= |events|
    requires forall r :: r in states[k].readings ==> states[k].readings[r].Settled?
    ensures states[k].inFlight == None
  {
    InvAlong(states, events, k);
  }

  // --- The class -------------------------------------------------------------------------------

  datatype Got = Value(value: string) | Waits(read: nat)

  class SsmApiKeyProvider {
    var cached: Option<Cached>
    var inFlight: Option<nat>
    var generation: nat
    // The promises of all reads so far, and the number of steps.
    var readings: map<nat, Read>
    var step: nat

    function Contents(): State
      reads this
    {
      State(cached, inFlight, generation, readings, step)
    }

    constructor ()
      ensures Contents() == INITIAL
    {
      cached, inFlight, generation, readings, step := None, None, 0, map[], 0;
    }

    method Get(now: int) returns (got: Got)
      requires Inv(Contents())
      modifies this
      ensures Contents() == Next(old(Contents()), Event.Get(now)) && Inv(Contents())
      ensures got == if IsServed(old(Contents()), now) then Value(old(Contents()).cached.value.value)
                     else Waits(SourceOf(old(Contents()), now))
    {
      NextKeepsInv(Contents(), Event.Get(now));
      var here := step;
      step := step + 1;
      if cached.Some? && now < cached.value.expiresAt {
        return Value(cached.value.value);
      }
      if inFlight.None? {
        Start(here);
        inFlight := Some(here);
      }
      return Waits(inFlight.value);
    }

    // `read` up to its first `await`.
    method Start(name: nat)
      modifies this`readings
      ensures readings == old(readings)[name := Sent(generation)]
    {
      readings := readings[name := Sent(generation)];
    }

    // The rest of `read`.
    method GoOn(read: nat, value: Option<string>, now: int)
      requires Inv(Contents()) && Enabled(Contents(), Answer(read, value, now))
      modifies this
      ensures Contents() == Next(old(Contents()), Answer(read, value, now)) && Inv(Contents())
    {
      NextKeepsInv(Contents(), Answer(read, value, now));
      step := step + 1;
      var mine := readings[read].generation;
      readings := readings[read := Answered(mine, value)];
      if value.Some? && mine == generation {
        cached := Some(Cached(value.value, now + CACHE_MS, read));
      }
    }

    // The `finally` of a read.
    method Forget(read: nat)
      requires Inv(Contents()) && Enabled(Contents(), Finally(read))
      modifies this
      ensures Contents() == Next(old(Contents()), Finally(read)) && Inv(Contents())
    {
      NextKeepsInv(Contents(), Finally(read));
      step := step + 1;
      readings := readings[read := Settled(readings[read].generation, readings[read].value)];
      if inFlight == Some(read) {
        inFlight := None;
      }
    }

    method Invalidate()
      requires Inv(Contents())
      modifies this
      ensures Contents() == Next(old(Contents()), Event.Invalidate) && Inv(Contents())
    {
      NextKeepsInv(Contents(), Event.Invalidate);
      cached, inFlight := None, None;
      generation := generation + 1;
      step := step + 1;
    }
  }
}
