/** backend/src/services/log-archive-service.ts: one batch of log events, split over one object per UTC day.
    JSON and the hash of a line are any functions; gzip does not matter and is left away. */
module LogArchive {
  import opened Basics
  import EventTime
  import Strings

  // The last millisecond of the year 9999.
  const MAX_TIMESTAMP := 253_402_300_799_999

  type Timestamp = t: int | 0 <= t <= MAX_TIMESTAMP witness 0

  datatype LogEvent = LogEvent(id: string, timestamp: Timestamp, message: string)

  datatype Envelope = Envelope(messageType: string, logEvents: seq<LogEvent>)

  datatype Payload = Unreadable | Readable(envelope: Envelope)

  // --- Days ------------------------------------------------------------------------------------

  // `toISOString().slice(0, 10)`
  function DayOf(e: LogEvent): (day: string)
    ensures |day| == 10
  {
    hide EventTime.ToIso;
    DayText(e.timestamp);
    EventTime.ToIso(e.timestamp)[..10]
  }

  lemma DayText(t: Timestamp)
    ensures EventTime.IsTime(t)
    ensures var c := EventTime.DateOf(t / EventTime.MS_PER_DAY);
      0 <= c.year <= 9999 && |EventTime.ToIso(t)| == 24 && EventTime.ToIso(t)[..10] == DateText(c)
  {
    hide EventTime.DateOf, EventTime.IsDate, EventTime.D2, EventTime.D3, EventTime.D4;
    EventTime.FourDigitYears(t);
    EventTime.YearsOfTimes(t);
    var c, ms := EventTime.DateOf(t / EventTime.MS_PER_DAY), t % EventTime.MS_PER_DAY;
    var s := EventTime.ToIso(t);
    assert s == EventTime.Printed(c, ms, "Z");
    hide EventTime.Printed, EventTime.ToIso, DateText;
    EventTime.PrintedHasTheShape(c, ms, "Z");
    DateTextParts(c);
    ClockDashes(s);
    assert s[..10] == s[..4] + [s[4]] + s[5..7] + [s[7]] + s[8..10];
    assert DateText(c) == DateText(c)[..4] + [DateText(c)[4]] + DateText(c)[5..7] + [DateText(c)[7]] + DateText(c)[8..];
  }

  lemma ClockDashes(s: string)
    requires EventTime.IsOffsetDateTime(s)
    ensures |s| >= 19 && s[4] == '-' && s[7] == '-'
  {
    assert s[4] == s[..19][4] && s[7] == s[..19][7];
  }

  // Two events are filed under one day exactly when they happened on one day of UTC.
  lemma DateTextsDiffer(c: EventTime.Civil, d: EventTime.Civil)
    requires EventTime.IsDate(c) && EventTime.IsDate(d) && 0 <= c.year <= 9999 && 0 <= d.year <= 9999
    requires c.day <= 31 && d.day <= 31
    ensures DateText(c) == DateText(d) ==> c == d
  {
    hide EventTime.IsDate, EventTime.D2, EventTime.D4;
    EventTime.DatesAreSmall(c);
    EventTime.DatesAreSmall(d);
    DateTextParts(c);
    DateTextParts(d);
  }

  function DateText(c: EventTime.Civil): (s: string)
    requires EventTime.IsDate(c) && 0 <= c.year <= 9999 && c.day <= 31
    ensures |s| == 10
  {
    hide EventTime.IsDate;
    EventTime.DatesAreSmall(c);
    EventTime.D4(c.year) + "-" + EventTime.D2(c.month) + "-" + EventTime.D2(c.day)
  }

  lemma DateTextParts(c: EventTime.Civil)
    requires EventTime.IsDate(c) && 0 <= c.year <= 9999 && c.day <= 31
    ensures 1 <= c.month <= 12 && 1 <= c.day
    ensures var s := DateText(c);
      && s[4] == '-' && s[7] == '-'
      && s[..4] == EventTime.D4(c.year) && s[5..7] == EventTime.D2(c.month) && s[8..] == EventTime.D2(c.day)
  {
    hide EventTime.IsDate, Strings.Value, EventTime.D2, EventTime.D4;
    EventTime.DatesAreSmall(c);
  }

  // Two events are filed under one day exactly when they happened on one day of UTC.
  lemma OneDayTextPerDay(e: LogEvent, f: LogEvent)
    ensures DayOf(e) == DayOf(f) <==> e.timestamp / EventTime.MS_PER_DAY == f.timestamp / EventTime.MS_PER_DAY
  {
    var m, n := e.timestamp / EventTime.MS_PER_DAY, f.timestamp / EventTime.MS_PER_DAY;
    hide EventTime.ToIso, EventTime.DateOf, EventTime.IsDate, EventTime.DayOf, DateText;
    DayText(e.timestamp);
    DayText(f.timestamp);
    var c, d := EventTime.DateOf(m), EventTime.DateOf(n);
    DateTextsDiffer(c, d);
    assert EventTime.DayOf(c) == m && EventTime.DayOf(d) == n;
  }

  // --- What the archive is to hold -------------------------------------------------------------

  // The events of one day, in their original order.
  function EventsOf(events: seq<LogEvent>, day: string): seq<LogEvent> {
    if events == [] then []
    else
      var before := EventsOf(events[..|events| - 1], day);
      if DayOf(events[|events| - 1]) == day then before + [events[|events| - 1]] else before
  }

  // The days of a batch, in the order in which they first occur.
  function DaysOf(events: seq<LogEvent>): seq<string> {
    if events == [] then []
    else
      var before := DaysOf(events[..|events| - 1]);
      var day := DayOf(events[|events| - 1]);
      if day in before then before else before + [day]
  }

  predicate IsDistinct<T(==)>(s: seq<T>) {
    forall i, j :: 0 <= i < j < |s| ==> s[i] != s[j]
  }

  predicate Occurs(events: seq<LogEvent>, day: string) {
    exists i :: 0 <= i < |events| && DayOf(events[i]) == day
  }

  lemma OccursInOneMore(events: seq<LogEvent>, e: LogEvent, day: string)
    ensures Occurs(events + [e], day) <==> Occurs(events, day) || DayOf(e) == day
  {
    hide DayOf;
    var all := events + [e];
    if Occurs(events, day) {
      var i :| 0 <= i < |events| && DayOf(events[i]) == day;
      assert DayOf(all[i]) == day;
    }
    assert DayOf(all[|events|]) == DayOf(e);
    if Occurs(all, day) && DayOf(e) != day {
      var i :| 0 <= i < |all| && DayOf(all[i]) == day;
      assert DayOf(events[i]) == day;
    }
  }

  lemma NothingOccurs()
    ensures forall day :: !Occurs([], day)
  {
  }

  lemma {:induction false} DaysAreExact(events: seq<LogEvent>)
    ensures IsDistinct(DaysOf(events))
    ensures forall day :: day in DaysOf(events) <==> Occurs(events, day)
  {
    hide DayOf, Occurs;
    if events == [] {
      assert forall day :: !Occurs(events, day) by { NothingOccurs(); }
    } else {
      var n := |events| - 1;
      var before, e := events[..n], events[n];
      DaysAreExact(before);
      assert events == before + [e];
      forall day ensures day in DaysOf(events) <==> Occurs(events, day) {
        OccursInOneMore(before, e, day);
      }
    }
  }

  // The events of the days together, one day after the other.
  function AllOf(events: seq<LogEvent>, days: seq<string>): seq<LogEvent> {
    if days == [] then [] else AllOf(events, days[..|days| - 1]) + EventsOf(events, days[|days| - 1])
  }

  lemma EventsGrow(events: seq<LogEvent>, e: LogEvent, day: string)
    ensures EventsOf(events + [e], day) == EventsOf(events, day) + (if DayOf(e) == day then [e] else [])
  {
    hide DayOf;
    assert (events + [e])[..|events|] == events;
  }

  lemma AllOfSplits(events: seq<LogEvent>, days: seq<string>, day: string)
    ensures AllOf(events, days + [day]) == AllOf(events, days) + EventsOf(events, day)
  {
    hide EventsOf;
    assert (days + [day])[..|days|] == days;
  }

  lemma {:induction false} OneMoreEvent(events: seq<LogEvent>, e: LogEvent, days: seq<string>)
    requires IsDistinct(days)
    ensures multiset(AllOf(events + [e], days))
      == multiset(AllOf(events, days)) + (if DayOf(e) in days then multiset{e} else multiset{})
  {
    hide DayOf, EventsOf, AllOf;
    if days == [] {
      NoDaysNoEvents(events);
      NoDaysNoEvents(events + [e]);
    } else {
      var before, day := days[..|days| - 1], days[|days| - 1];
      OneMoreEvent(events, e, before);
      assert days == before + [day];
      AllOfSplits(events, before, day);
      AllOfSplits(events + [e], before, day);
      EventsGrow(events, e, day);
    }
  }

  lemma NoDaysNoEvents(events: seq<LogEvent>)
    ensures AllOf(events, []) == []
  {
  }

  lemma {:induction false} NothingOnOtherDays(events: seq<LogEvent>, day: string)
    requires day !in DaysOf(events)
    ensures EventsOf(events, day) == []
  {
    if events != [] {
      hide DayOf;
      NothingOnOtherDays(events[..|events| - 1], day);
    }
  }

  lemma ANewDay(events: seq<LogEvent>, e: LogEvent)
    requires DayOf(e) !in DaysOf(events)
    ensures AllOf(events + [e], DaysOf(events) + [DayOf(e)]) == AllOf(events + [e], DaysOf(events)) + [e]
  {
    hide DayOf;
    var days := DaysOf(events) + [DayOf(e)];
    assert days[..|days| - 1] == DaysOf(events);
    assert (events + [e])[..|events|] == events;
    NothingOnOtherDays(events, DayOf(e));
  }

  lemma DaysOneMore(events: seq<LogEvent>, e: LogEvent)
    ensures DaysOf(events + [e]) == if DayOf(e) in DaysOf(events) then DaysOf(events) else DaysOf(events) + [DayOf(e)]
  {
    hide DayOf;
    assert (events + [e])[..|events|] == events;
  }

  lemma NothingIsFiled()
    ensures AllOf([], DaysOf([])) == []
  {
  }

  // A day's events are in the order of the batch.
  lemma {:induction false} EventsKeepTheirOrder(a: seq<LogEvent>, b: seq<LogEvent>, day: string)
    ensures EventsOf(a + b, day) == EventsOf(a, day) + EventsOf(b, day)
    ensures |a| == 1 ==> EventsOf(a, day) == if DayOf(a[0]) == day then a else []
  {
    hide DayOf;
    if b == [] {
      assert a + b == a;
    } else {
      var n := |b| - 1;
      assert a + b == (a + b[..n]) + [b[n]] && b == b[..n] + [b[n]];
      EventsKeepTheirOrder(a, b[..n], day);
      EventsGrow(a + b[..n], b[n], day);
      EventsGrow(b[..n], b[n], day);
    }
  }

  // The days are in the order of their first events.
  lemma {:induction false} DaysAppearInOrder(events: seq<LogEvent>, i: nat, j: nat)
    requires i < j < |DaysOf(events)|
    ensures exists n: nat ::
      && n < |events| && DayOf(events[n]) == DaysOf(events)[i]
      && forall m :: 0 <= m <= n ==> DayOf(events[m]) != DaysOf(events)[j]
  {
    hide DayOf, Occurs;
    var before, e := events[..|events| - 1], events[|events| - 1];
    assert events == before + [e];
    DaysOneMore(before, e);
    if j < |DaysOf(before)| {
      DaysAppearInOrder(before, i, j);
    } else {
      DaysAreExact(before);
      var day := DaysOf(before)[i];
      assert Occurs(before, day) && !Occurs(before, DayOf(e));
      FirstOccurrence(before, day, DayOf(e));
    }
  }

  lemma FirstOccurrence(events: seq<LogEvent>, day: string, other: string)
    requires Occurs(events, day) && !Occurs(events, other)
    ensures exists n: nat :: n < |events| && DayOf(events[n]) == day
    ensures forall m :: 0 <= m < |events| ==> DayOf(events[m]) != other
  {
    hide DayOf;
    var n: nat :| n < |events| && DayOf(events[n]) == day;
  }

  // Together the days hold every event of the batch exactly once.
  lemma {:induction false} EveryEventIsFiledOnce(events: seq<LogEvent>)
    ensures multiset(AllOf(events, DaysOf(events))) == multiset(events)
  {
    hide *;
    if events == [] {
      NothingIsFiled();
    } else {
      var n := |events| - 1;
      var before, e := events[..n], events[n];
      assert events == before + [e];
      EveryEventIsFiledOnce(before);
      DaysAreExact(before);
      DaysOneMore(before, e);
      OneMoreEvent(before, e, DaysOf(before));
      if DayOf(e) !in DaysOf(before) {
        ANewDay(before, e);
      }
    }
  }

  // --- Objects ---------------------------------------------------------------------------------

  // How a batch becomes text: `JSON.stringify` of the envelope with these events, and a line feed; and the first 32 hex
  // digits of the SHA-256 of a line.
  datatype Format = Format(line: (Envelope, seq<LogEvent>) -> string, hash: string -> string)

  function KeyOf(format: Format, day: string, line: string): string
    requires |day| == 10
  {
    "logs/year=" + day[..4] + "/month=" + day[5..7] + "/day=" + day[8..10] + "/" + format.hash(line) + ".json.gz"
  }

  // An event's folder is named by the year, the month and the day of its own UTC date.
  lemma KeysTellTheDate(format: Format, e: LogEvent, line: string)
    ensures
      var c := EventTime.DateOf(e.timestamp / EventTime.MS_PER_DAY);
      && 0 <= c.year <= 9999 && 1 <= c.month <= 12 && 1 <= c.day <= 31
      && KeyOf(format, DayOf(e), line) ==
           "logs/year=" + EventTime.D4(c.year) + "/month=" + EventTime.D2(c.month) + "/day=" + EventTime.D2(c.day)
           + "/" + format.hash(line) + ".json.gz"
  {
    hide EventTime.ToIso, EventTime.DateOf, EventTime.IsDate, EventTime.D2, EventTime.D4, DateText;
    DayText(e.timestamp);
    DateTextParts(EventTime.DateOf(e.timestamp / EventTime.MS_PER_DAY));
  }

  datatype Object = Object(key: string, line: string)

  function ObjectOf(format: Format, envelope: Envelope, day: string): Object
    requires |day| == 10
  {
    var line := format.line(envelope, EventsOf(envelope.logEvents, day));
    Object(KeyOf(format, day, line), line)
  }

  predicate AreDays(days: seq<string>) {
    forall i :: 0 <= i < |days| ==> |days[i]| == 10
  }

  lemma {:induction false} DaysAreDays(events: seq<LogEvent>)
    ensures AreDays(DaysOf(events))
  {
    hide DayOf;
    if events != [] {
      DaysAreDays(events[..|events| - 1]);
    }
  }

  type Archive = map<string, string>

  // The store after these days of the batch have been written.
  function Stored(store: Archive, format: Format, envelope: Envelope, days: seq<string>): Archive
    requires AreDays(days)
  {
    if days == [] then store
    else
      var o := ObjectOf(format, envelope, days[|days| - 1]);
      Stored(store, format, envelope, days[..|days| - 1])[o.key := o.line]
  }

  // Different days are different folders, whatever the hash.
  lemma FoldersDiffer(format: Format, a: string, b: string, s: string, t: string)
    requires |a| == |b| == 10 && a[4] == b[4] == '-' && a[7] == b[7] == '-' && a != b
    ensures KeyOf(format, a, s) != KeyOf(format, b, t)
  {
    var k, l := KeyOf(format, a, s), KeyOf(format, b, t);
    assert k[10..14] == a[..4] && k[21..23] == a[5..7] && k[28..30] == a[8..10];
    assert l[10..14] == b[..4] && l[21..23] == b[5..7] && l[28..30] == b[8..10];
    assert a == a[..4] + [a[4]] + a[5..7] + [a[7]] + a[8..10] && b == b[..4] + [b[4]] + b[5..7] + [b[7]] + b[8..10];
  }

  function KeysOf(format: Format, envelope: Envelope, days: seq<string>): set<string>
    requires AreDays(days)
  {
    set i | 0 <= i < |days| :: ObjectOf(format, envelope, days[i]).key
  }

  predicate Same(s: Archive, t: Archive, key: string) {
    (key in s <==> key in t) && (key in s ==> s[key] == t[key])
  }

  lemma {:induction false} OthersStay(store: Archive, format: Format, envelope: Envelope, days: seq<string>,
      key: string)
    requires AreDays(days) && key !in KeysOf(format, envelope, days)
    ensures Same(Stored(store, format, envelope, days), store, key)
  {
    if days != [] {
      hide ObjectOf;
      var n := |days| - 1;
      assert ObjectOf(format, envelope, days[n]).key in KeysOf(format, envelope, days);
      assert forall i :: 0 <= i < n ==> days[..n][i] == days[i];
      OthersStay(store, format, envelope, days[..n], key);
    }
  }

  lemma KeysOfTheFront(format: Format, envelope: Envelope, days: seq<string>, key: string)
    requires AreDays(days) && days != [] && ObjectOf(format, envelope, days[|days| - 1]).key != key
    ensures key in KeysOf(format, envelope, days) ==> key in KeysOf(format, envelope, days[..|days| - 1])
  {
    hide ObjectOf;
    var front := days[..|days| - 1];
    if key in KeysOf(format, envelope, days) {
      var i :| 0 <= i < |days| && ObjectOf(format, envelope, days[i]).key == key;
      assert front[i] == days[i];
    }
  }

  lemma StoredStep(store: Archive, format: Format, envelope: Envelope, days: seq<string>)
    requires AreDays(days) && days != []
    ensures var front, o := days[..|days| - 1], ObjectOf(format, envelope, days[|days| - 1]);
      Stored(store, format, envelope, days) == Stored(store, format, envelope, front)[o.key := o.line]
  {
    hide ObjectOf;
  }

  lemma PutIsSame(s: Archive, t: Archive, o: Object, key: string)
    requires Same(s, t, key) || o.key == key
    ensures Same(s[o.key := o.line], t[o.key := o.line], key)
  {
  }

  lemma NoDays(store: Archive, format: Format, envelope: Envelope)
    ensures Stored(store, format, envelope, []) == store && KeysOf(format, envelope, []) == {}
  {
  }

  lemma {:induction false} WrittenIsSame(
      s: Archive, t: Archive, format: Format, envelope: Envelope, days: seq<string>, key: string)
    requires AreDays(days) && (key in KeysOf(format, envelope, days) || Same(s, t, key))
    ensures Same(Stored(s, format, envelope, days), Stored(t, format, envelope, days), key)
  {
    hide ObjectOf, KeysOf, Stored, Same;
    if days == [] {
      NoDays(s, format, envelope);
      NoDays(t, format, envelope);
    } else {
      var front, o := days[..|days| - 1], ObjectOf(format, envelope, days[|days| - 1]);
      StoredStep(s, format, envelope, days);
      StoredStep(t, format, envelope, days);
      if o.key != key {
        KeysOfTheFront(format, envelope, days, key);
        WrittenIsSame(s, t, format, envelope, front, key);
      }
      PutIsSame(Stored(s, format, envelope, front), Stored(t, format, envelope, front), o, key);
    }
  }

  // Runs of one batch that stop after some of its days.
  function AfterRuns(store: Archive, format: Format, envelope: Envelope, days: seq<string>, stops: seq<nat>): Archive
    requires AreDays(days) && forall i :: 0 <= i < |stops| ==> stops[i] <= |days|
  {
    if stops == [] then store
    else
      var n := |stops| - 1;
      Stored(AfterRuns(store, format, envelope, days, stops[..n]), format, envelope, days[..stops[n]])
  }

  lemma {:induction false} RunsLeaveOthers(
      store: Archive, format: Format, envelope: Envelope, days: seq<string>, stops: seq<nat>, key: string)
    requires AreDays(days) && forall i :: 0 <= i < |stops| ==> stops[i] <= |days|
    requires key !in KeysOf(format, envelope, days)
    ensures Same(AfterRuns(store, format, envelope, days, stops), store, key)
  {
    if stops != [] {
      var n := |stops| - 1;
      hide ObjectOf;
      RunsLeaveOthers(store, format, envelope, days, stops[..n], key);
      var written := days[..stops[n]];
      assert forall i :: 0 <= i < |written| ==> written[i] == days[i];
      OthersStay(AfterRuns(store, format, envelope, days, stops[..n]), format, envelope, written, key);
    }
  }

  // After any number of runs of a batch that failed part-way, one that succeeds leaves the archive as if it had been
  // the only one.
  lemma RetriesLeaveNoTrace(store: Archive, format: Format, envelope: Envelope, days: seq<string>, stops: seq<nat>)
    requires AreDays(days) && forall i :: 0 <= i < |stops| ==> stops[i] <= |days|
    ensures Stored(AfterRuns(store, format, envelope, days, stops), format, envelope, days)
      == Stored(store, format, envelope, days)
  {
    var failed := AfterRuns(store, format, envelope, days, stops);
    var a, b := Stored(failed, format, envelope, days), Stored(store, format, envelope, days);
    forall key ensures Same(a, b, key) {
      if key !in KeysOf(format, envelope, days) {
        RunsLeaveOthers(store, format, envelope, days, stops, key);
      }
      WrittenIsSame(failed, store, format, envelope, days, key);
    }
    SameEverywhere(a, b);
  }

  lemma SameEverywhere(a: Archive, b: Archive)
    requires forall key :: Same(a, b, key)
    ensures a == b
  {
    assert forall key :: key in a ==> Same(a, b, key);
    assert forall key :: key in b ==> Same(a, b, key);
  }

  predicate Holds(store: Archive, o: Object) {
    o.key in store && store[o.key] == o.line
  }

  // One complete run puts every day of the batch where it belongs: no object overwrites another one of the batch.
  lemma {:induction false} EveryDayHasItsObject(
      store: Archive, format: Format, envelope: Envelope, days: seq<string>, i: nat)
    requires AreDays(days) && IsDistinct(days) && i < |days|
    requires forall j :: 0 <= j < |days| ==> days[j][4] == '-' && days[j][7] == '-'
    ensures Holds(Stored(store, format, envelope, days), ObjectOf(format, envelope, days[i]))
  {
    var n := |days| - 1;
    if i < n {
      EveryDayHasItsObject(store, format, envelope, days[..n], i);
      var d, e := days[i], days[n];
      FoldersDiffer(format, d, e,
        format.line(envelope, EventsOf(envelope.logEvents, d)), format.line(envelope, EventsOf(envelope.logEvents, e)));
    }
  }

  lemma DayHasDashes(e: LogEvent)
    ensures DayOf(e)[4] == '-' && DayOf(e)[7] == '-'
  {
    DayText(e.timestamp);
    hide Strings.Value, EventTime.ToIso, EventTime.DateOf;
  }

  lemma DaysHaveDashes(events: seq<LogEvent>)
    ensures AreDays(DaysOf(events))
    ensures forall day :: day in DaysOf(events) ==> day[4] == '-' && day[7] == '-'
  {
    hide *;
    DaysAreExact(events);
    DaysAreDays(events);
    DayTextsHaveDashes(events);
  }

  lemma DayTextsHaveDashes(events: seq<LogEvent>)
    ensures forall day :: Occurs(events, day) ==> |day| == 10 && day[4] == '-' && day[7] == '-'
  {
    hide DayOf;
    forall day | Occurs(events, day) ensures |day| == 10 && day[4] == '-' && day[7] == '-' {
      var i :| 0 <= i < |events| && DayOf(events[i]) == day;
      DayHasDashes(events[i]);
    }
  }

  lemma {:induction false} EventsOfHold(events: seq<LogEvent>, i: nat)
    requires i < |events|
    ensures events[i] in EventsOf(events, DayOf(events[i]))
  {
    hide DayOf;
    if i < |events| - 1 {
      EventsOfHold(events[..|events| - 1], i);
    }
  }

  lemma OccursAt(events: seq<LogEvent>, i: nat)
    requires i < |events|
    ensures Occurs(events, DayOf(events[i]))
  {
  }

  lemma ObjectLine(format: Format, envelope: Envelope, day: string)
    requires |day| == 10
    ensures ObjectOf(format, envelope, day).line == format.line(envelope, EventsOf(envelope.logEvents, day))
  {
  }

  // After a complete run every event of the batch is in the object of its own day.
  lemma EveryEventIsArchived(store: Archive, format: Format, envelope: Envelope, i: nat)
    requires i < |envelope.logEvents|
    ensures AreDays(DaysOf(envelope.logEvents))
    ensures var day := DayOf(envelope.logEvents[i]);
      && Holds(Stored(store, format, envelope, DaysOf(envelope.logEvents)), ObjectOf(format, envelope, day))
      && ObjectOf(format, envelope, day).line == format.line(envelope, EventsOf(envelope.logEvents, day))
      && envelope.logEvents[i] in EventsOf(envelope.logEvents, day)
  {
    hide *;
    var events := envelope.logEvents;
    var days, day := DaysOf(events), DayOf(events[i]);
    OccursAt(events, i);
    ObjectLine(format, envelope, day);
    EventsOfHold(events, i);
    DaysHaveDashes(events);
    assert day in days by { DaysAreExact(events); }
    assert IsDistinct(days) by { DaysAreExact(events); }
    var k :| 0 <= k < |days| && days[k] == day;
    EveryDayHasItsObject(store, format, envelope, days, k);
  }

  // --- archive ---------------------------------------------------------------------------------

  datatype Counts = Counts(records: nat, objects: nat)

  // Where the map of days and events stands after some events: each day once, in order of appearance, with its events.
  predicate IsSplit(byDay: seq<(string, seq<LogEvent>)>, events: seq<LogEvent>) {
    && |byDay| == |DaysOf(events)|
    && forall i :: 0 <= i < |byDay| ==> byDay[i] == (DaysOf(events)[i], EventsOf(events, DaysOf(events)[i]))
  }

  // `byDay.get(day)` in a Map that keeps the order of insertion.
  method Position(byDay: seq<(string, seq<LogEvent>)>, day: string) returns (k: nat)
    ensures k <= |byDay| && (forall j :: 0 <= j < k ==> byDay[j].0 != day) && (k < |byDay| ==> byDay[k].0 == day)
  {
    k := 0;
    while k < |byDay| && byDay[k].0 != day
      invariant 0 <= k <= |byDay| && forall j :: 0 <= j < k ==> byDay[j].0 != day
    {
      k := k + 1;
    }
  }

  lemma SplitOneMore(byDay: seq<(string, seq<LogEvent>)>, events: seq<LogEvent>, e: LogEvent, k: nat)
    requires IsSplit(byDay, events) && k <= |byDay|
    requires (forall j :: 0 <= j < k ==> byDay[j].0 != DayOf(e)) && (k < |byDay| ==> byDay[k].0 == DayOf(e))
    ensures IsSplit(
      if k < |byDay| then byDay[k := (DayOf(e), byDay[k].1 + [e])] else byDay + [(DayOf(e), [e])], events + [e])
  {
    hide DayOf, Occurs;
    var days, all := DaysOf(events), events + [e];
    assert all[..|events|] == events;
    DaysAreExact(events);
    if k < |byDay| {
      assert days[k] == DayOf(e) && DayOf(e) in days;
      assert forall j :: 0 <= j < |days| && j != k ==> days[j] != DayOf(e);
    } else {
      assert forall j :: 0 <= j < |days| ==> days[j] != DayOf(e);
      assert DayOf(e) !in days;
      NothingOnOtherDays(events, DayOf(e));
      assert [] + [e] == [e];
    }
  }

  lemma NothingIsSplit()
    ensures IsSplit([], [])
  {
  }

  function CountUpTo(events: seq<LogEvent>, days: seq<string>): nat {
    |AllOf(events, days)|
  }

  class LogArchiveService {
    const format: Format
    var store: Archive

    constructor (format: Format)
      ensures this.format == format && store == map[]
    {
      this.format, store := format, map[];
    }

    // `archive`. The put number `failsAt` throws, if there are that many.
    method Archive(payload: Payload, failsAt: nat) returns (r: Result<Counts>)
      modifies this`store
      ensures payload.Unreadable? || payload.envelope.messageType != "DATA_MESSAGE" ==>
        r == Ok(Counts(0, 0)) && store == old(store)
      ensures payload.Readable? && payload.envelope.messageType == "DATA_MESSAGE" ==>
        var e := payload.envelope;
        var days := DaysOf(e.logEvents);
        && AreDays(days)
        && (r.Ok? <==> failsAt >= |days|)
        && store == Stored(old(store), format, e, days[..if failsAt < |days| then failsAt else |days|])
        && (r.Ok? ==> r.value == Counts(|e.logEvents|, |days|))
    {
      hide DayOf, DaysOf, EventsOf, KeyOf;
      if payload.Unreadable? {
        return Ok(Counts(0, 0));
      }
      var envelope := payload.envelope;
      if envelope.messageType != "DATA_MESSAGE" {
        return Ok(Counts(0, 0));
      }
      var byDay := Split(envelope.logEvents);
      ghost var days := DaysOf(envelope.logEvents);
      DaysAreDays(envelope.logEvents);
      var records, i := 0, 0;
      assert AllOf(envelope.logEvents, days[..0]) == [];
      while i < |byDay|
        invariant 0 <= i <= |byDay| && i <= failsAt && AreDays(days[..i])
        invariant store == Stored(old(store), format, envelope, days[..i])
        invariant records == CountUpTo(envelope.logEvents, days[..i])
      {
        if i == failsAt {
          return Thrown;
        }
        var (day, logEvents) := byDay[i];
        assert day == days[i] && logEvents == EventsOf(envelope.logEvents, days[i]);
        assert days[..i + 1][..i] == days[..i];
        var line := format.line(envelope, logEvents);
        store := store[KeyOf(format, day, line) := line];
        records := records + |logEvents|;
        i := i + 1;
      }
      assert days[..i] == days;
      EveryEventIsFiledOnce(envelope.logEvents);
      SameLength(AllOf(envelope.logEvents, days), envelope.logEvents);
      return Ok(Counts(records, |byDay|));
    }

    // The first loop.
    method Split(events: seq<LogEvent>) returns (byDay: seq<(string, seq<LogEvent>)>)
      ensures IsSplit(byDay, events)
    {
      hide *;
      NothingIsSplit();
      assert events[..0] == [];
      byDay := [];
      var i := 0;
      while i < |events|
        invariant 0 <= i <= |events| && IsSplit(byDay, events[..i])
      {
        var e := events[i];
        var k := Position(byDay, DayOf(e));
        SplitOneMore(byDay, events[..i], e, k);
        assert events[..i] + [e] == events[..i + 1];
        byDay := if k < |byDay| then byDay[k := (DayOf(e), byDay[k].1 + [e])] else byDay + [(DayOf(e), [e])];
        i := i + 1;
      }
      assert events[..i] == events;
    }
  }
}
