/** Point-in-time fundamentals (data/fundamentals.py, `build_pit_fundamentals`): an incremental fold over
    announced reports and an as-of join onto the open days. */
module Fundamentals {
  import opened Basics
  import opened Sorting

  /** A report with valid dates; missing fields are `None`. */
  datatype Report = Report(
    code: string, endDate: int, annDate: int, finalAnnDate: Option<int>,
    updateFlag: string, ingestTime: Option<int>, values: seq<Option<real>>)
  {
    /** The later of the two announcement dates, ignoring a missing one. */
    function SourceAnnDate(): int {
      if finalAnnDate.Some? && finalAnnDate.value > annDate then finalAnnDate.value else annDate
    }

    predicate HasValue() { exists i :: 0 <= i < |values| && values[i].Some? }
  }

  /** Both announcements of the report lie before `day`. */
  predicate Public(r: Report, day: int) {
    r.annDate < day && (r.finalAnnDate.Some? ==> r.finalAnnDate.value < day)
  }

  lemma PublicAfterSource(r: Report, day: int)
    ensures Public(r, day) <==> r.SourceAnnDate() < day
  {}

  ghost predicate OpenDays(dates: seq<int>) {
    forall i, j :: 0 <= i < j < |dates| ==> dates[i] < dates[j]
  }

  /** The first open day strictly after the announcement. */
  function EffectiveTime(dates: seq<int>, ann: int): (r: Option<int>)
    ensures r.Some? ==> r.value in dates && r.value > ann
  {
    if dates == [] then None
    else if dates[0] > ann then Some(dates[0])
    else EffectiveTime(dates[1..], ann)
  }

  /** It is the earliest such day. */
  lemma {:induction false} EffectiveTimeIsFirst(dates: seq<int>, ann: int, day: int)
    requires OpenDays(dates) && day in dates && day > ann
    ensures EffectiveTime(dates, ann).Some? && EffectiveTime(dates, ann).value <= day
  {
    if dates[0] <= ann {
      EffectiveTimeIsFirst(dates[1..], ann, day);
    } else {
      var i :| 0 <= i < |dates| && dates[i] == day;
      assert i > 0 ==> dates[0] < dates[i];
    }
  }

  // ----- the naive definition, recomputed for each day

  /** Missing ingest times sort first. */
  predicate IngestLe(a: Option<int>, b: Option<int>) {
    a.None? || (b.Some? && a.value <= b.value)
  }

  /** Restatement order of two reports of one period: effective day, then update flag, then ingest time. */
  predicate RestatesOrTies(e1: int, r1: Report, e2: int, r2: Report) {
    if e1 != e2 then e1 < e2
    else if r1.updateFlag != r2.updateFlag then StringLe(r1.updateFlag, r2.updateFlag)
    else IngestLe(r1.ingestTime, r2.ingestTime)
  }

  /** What is known on `day`: the greatest period, in its latest restatement, the later row winning ties. */
  function Known(reports: seq<Report>, dates: seq<int>, day: int): (r: Option<(int, Report)>)
    ensures r.Some? ==> r.value.1 in reports && r.value.0 <= day
    ensures r.Some? ==> EffectiveTime(dates, r.value.1.SourceAnnDate()) == Some(r.value.0)
  {
    if reports == [] then None
    else
      var before := Known(reports[..|reports| - 1], dates, day);
      var last := reports[|reports| - 1];
      var effective := EffectiveTime(dates, last.SourceAnnDate());
      if effective.None? || effective.value > day then before
      else if before.None? then Some((effective.value, last))
      else if last.endDate > before.value.1.endDate then Some((effective.value, last))
      else if last.endDate == before.value.1.endDate
              && RestatesOrTies(before.value.0, before.value.1, effective.value, last) then Some((effective.value, last))
      else before
  }

  /** The last day up to `day` on which some report became effective. */
  function LastEvent(reports: seq<Report>, dates: seq<int>, day: int): Option<int> {
    if reports == [] then None
    else
      var before := LastEvent(reports[..|reports| - 1], dates, day);
      var effective := EffectiveTime(dates, reports[|reports| - 1].SourceAnnDate());
      if effective.Some? && effective.value <= day && (before.None? || effective.value > before.value) then effective else before
  }

  datatype Row = Row(code: string, tradeDate: int, effectiveTime: int, report: Report)

  /** The row a security shows on a day, if any. */
  function NaiveRow(reports: seq<Report>, dates: seq<int>, code: string, day: int): Option<Row> {
    var known := Known(reports, dates, day);
    var event := LastEvent(reports, dates, day);
    if known.Some? && event.Some? && known.value.1.HasValue() then Some(Row(code, day, event.value, known.value.1)) else None
  }

  function NaiveRows(reports: seq<Report>, dates: seq<int>, code: string, days: seq<int>): seq<Row> {
    if days == [] then []
    else
      var rest := NaiveRows(reports, dates, code, days[..|days| - 1]);
      var row := NaiveRow(reports, dates, code, days[|days| - 1]);
      if row.Some? then rest + [row.value] else rest
  }

  // ----- records: reports with their effective day and row number

  datatype Record = Record(effective: int, report: Report, row: nat)

  function Records(reports: seq<Report>, dates: seq<int>): (r: seq<Record>)
    ensures forall x :: x in r ==> x.row < |reports| && x.report == reports[x.row]
    ensures forall x :: x in r ==> EffectiveTime(dates, x.report.SourceAnnDate()) == Some(x.effective)
  {
    if reports == [] then []
    else
      var rest := Records(reports[..|reports| - 1], dates);
      var last := reports[|reports| - 1];
      var effective := EffectiveTime(dates, last.SourceAnnDate());
      if effective.Some? then rest + [Record(effective.value, last, |reports| - 1)] else rest
  }

  /** The sort key of the source, with the row number standing for the stability of its sort. */
  predicate Precedes(a: Record, b: Record) {
    if a.effective != b.effective then a.effective < b.effective
    else if a.report.endDate != b.report.endDate then a.report.endDate < b.report.endDate
    else if a.report.updateFlag != b.report.updateFlag then StringLe(a.report.updateFlag, b.report.updateFlag)
    else if a.report.ingestTime != b.report.ingestTime then IngestLe(a.report.ingestTime, b.report.ingestTime)
    else a.row <= b.row
  }

  lemma PrecedesOrder()
    ensures TotalOrder(Precedes)
  {
    hide StringLe;
    StringLeOrder();
    forall a, b ensures Precedes(a, b) || Precedes(b, a) {}
    forall a, b, c | Precedes(a, b) && Precedes(b, c) ensures Precedes(a, c) {}
  }

  predicate SameSlot(a: Record, b: Record) {
    a.effective == b.effective && a.report.endDate == b.report.endDate
  }

  /** `drop_duplicates(["end_date", "effective_time"], keep="last")`. */
  function KeepLast(s: seq<Record>): (r: seq<Record>)
    ensures forall x :: x in r ==> x in s
  {
    if s == [] then []
    else if exists j :: 0 < j < |s| && SameSlot(s[j], s[0]) then KeepLast(s[1..])
    else [s[0]] + KeepLast(s[1..])
  }

  /** Every record is covered by a kept one of its slot that does not precede it. */
  lemma {:induction false} KeepLastCovers(s: seq<Record>, i: nat)
    requires Sorted(Precedes, s) && i < |s|
    ensures exists y :: y in KeepLast(s) && SameSlot(s[i], y) && Precedes(s[i], y)
    decreases |s|
  {
    hide Precedes;
    if i > 0 {
      KeepLastCovers(s[1..], i - 1);
    } else if j :| 0 < j < |s| && SameSlot(s[j], s[0]) {
      KeepLastCovers(s[1..], j - 1);
      var y :| y in KeepLast(s[1..]) && SameSlot(s[j], y) && Precedes(s[j], y);
      PrecedesOrder();
      assert Precedes(s[0], s[j]);
      assert y in KeepLast(s);
    } else {
      PrecedesOrder();
      assert KeepLast(s)[0] == s[0];
      assert s[0] in KeepLast(s) && Precedes(s[0], s[0]);
    }
  }

  lemma {:induction false} KeepLastSorted(s: seq<Record>)
    requires Sorted(Precedes, s)
    ensures Sorted(Precedes, KeepLast(s))
  {
    hide Precedes;
    if s != [] {
      KeepLastSorted(s[1..]);
      var rest := KeepLast(s[1..]);
      forall j | 0 <= j < |rest| ensures Precedes(s[0], rest[j]) {
        assert rest[j] in s[1..];
      }
    }
  }

  // ----- the independent characterisation

  /** `r` is the record known on `day`: no known record has a later period or restates this one. */
  ghost predicate Shows(records: seq<Record>, day: int, r: Record) {
    && r in records && r.effective <= day
    && (forall q :: q in records && q.effective <= day ==> q.report.endDate <= r.report.endDate)
    && (forall q :: q in records && q.effective <= day && q.report.endDate == r.report.endDate ==> Precedes(q, r))
  }

  lemma ShowsUnique(reports: seq<Report>, dates: seq<int>, day: int, a: Record, b: Record)
    requires Shows(Records(reports, dates), day, a) && Shows(Records(reports, dates), day, b)
    ensures a == b
  {
    hide StringLe, Records;
    assert Precedes(a, b) && Precedes(b, a);
    StringLeTotal(a.report.updateFlag, b.report.updateFlag);
  }

  lemma RestatesIsPrecedes(a: Record, b: Record)
    requires a.report.endDate == b.report.endDate && a.row < b.row
    ensures Precedes(a, b) <==> RestatesOrTies(a.effective, a.report, b.effective, b.report)
  {
    StringLeTotal(a.report.updateFlag, b.report.updateFlag);
  }

  /** The naive recomputation finds the record the characterisation describes. */
  lemma {:induction false} KnownShows(reports: seq<Report>, dates: seq<int>, day: int)
    ensures Known(reports, dates, day).None? ==> forall q :: q in Records(reports, dates) ==> q.effective > day
    ensures Known(reports, dates, day).Some? ==>
      exists r :: Shows(Records(reports, dates), day, r)
        && r.effective == Known(reports, dates, day).value.0 && r.report == Known(reports, dates, day).value.1
  {
    if reports != [] {
      var prefix := reports[..|reports| - 1];
      KnownShows(prefix, dates, day);
      var last := reports[|reports| - 1];
      var effective := EffectiveTime(dates, last.SourceAnnDate());
      if effective.Some? {
        var added := Record(effective.value, last, |reports| - 1);
        KnownShowsStep(prefix, reports, dates, day, added);
      }
    }
  }

  lemma KnownShowsStep(prefix: seq<Report>, reports: seq<Report>, dates: seq<int>, day: int, added: Record)
    requires reports == prefix + [added.report] && added.row == |prefix|
    requires EffectiveTime(dates, added.report.SourceAnnDate()) == Some(added.effective)
    requires Known(prefix, dates, day).None? ==> forall q :: q in Records(prefix, dates) ==> q.effective > day
    requires Known(prefix, dates, day).Some? ==>
      exists r :: Shows(Records(prefix, dates), day, r)
        && r.effective == Known(prefix, dates, day).value.0 && r.report == Known(prefix, dates, day).value.1
    ensures Known(reports, dates, day).None? ==> forall q :: q in Records(reports, dates) ==> q.effective > day
    ensures Known(reports, dates, day).Some? ==>
      exists r :: Shows(Records(reports, dates), day, r)
        && r.effective == Known(reports, dates, day).value.0 && r.report == Known(reports, dates, day).value.1
  {
    assert reports[..|reports| - 1] == prefix;
    var earlier, all := Records(prefix, dates), Records(reports, dates);
    assert all == earlier + [added];
    var before := Known(prefix, dates, day);
    assert forall q :: q in all <==> q in earlier || q == added;
    PrecedesSelf(added);
    if before.Some? {
      var r :| Shows(earlier, day, r) && r.effective == before.value.0 && r.report == before.value.1;
      if r.report.endDate == added.report.endDate {
        RestatesIsPrecedes(r, added);
      }
      hide Known, Records, StringLe, RestatesOrTies, Precedes, EffectiveTime;
      ShowsStep(earlier, all, day, r, added);
    } else if added.effective <= day {
      assert Shows(all, day, added);
    }
  }

  lemma PrecedesSelf(a: Record)
    ensures Precedes(a, a)
  {}

  predicate Displaces(added: Record, r: Record) {
    added.report.endDate > r.report.endDate || (added.report.endDate == r.report.endDate && Precedes(r, added))
  }

  lemma ShowsStep(before: seq<Record>, all: seq<Record>, day: int, r: Record, added: Record)
    requires Shows(before, day, r) && forall q :: q in all <==> q in before || q == added
    ensures added.effective > day ==> Shows(all, day, r)
    ensures added.effective <= day && Displaces(added, r) ==> Shows(all, day, added)
    ensures added.effective <= day && !Displaces(added, r) ==> Shows(all, day, r)
  {
    hide Precedes;
    PrecedesOrder();
    assert Precedes(added, added);
  }

  // ----- the fold over announcement days

  datatype Event = Event(effective: int, period: int, record: Record)

  function MaxOf(s: seq<int>): (m: int)
    requires s != []
    ensures m in s && forall i :: 0 <= i < |s| ==> s[i] <= m
  {
    if |s| == 1 then s[0]
    else
      var rest := MaxOf(s[1..]);
      if s[0] >= rest then s[0] else rest
  }

  /** The `known_periods` dictionary after the records of `done`: the last record of each period. */
  ghost predicate Remembers(known: map<int, Record>, periods: seq<int>, done: seq<Record>) {
    && (forall p :: p in known <==> p in periods)
    && (forall q :: q in done ==> q.report.endDate in known)
    && (forall p :: p in known ==> known[p] in done && known[p].report.endDate == p)
    && (forall q :: q in done ==> Precedes(q, known[q.report.endDate]))
  }

  ghost predicate HasEvent(events: seq<Event>, effective: int) {
    exists i :: 0 <= i < |events| && events[i].effective == effective
  }

  ghost predicate HasRecord(records: seq<Record>, effective: int) {
    exists i :: 0 <= i < |records| && records[i].effective == effective
  }

  /** One event for each effective day among the records of `done`, in order, showing what that day knew. */
  ghost predicate Events(events: seq<Event>, records: seq<Record>, done: seq<Record>) {
    && (forall i, j :: 0 <= i < j < |events| ==> events[i].effective < events[j].effective)
    && (forall i :: 0 <= i < |events| ==> Shows(records, events[i].effective, events[i].record))
    && (forall i :: 0 <= i < |events| ==> events[i].period == events[i].record.report.endDate)
    && (forall i :: 0 <= i < |events| ==> HasRecord(done, events[i].effective))
    && (forall i :: 0 <= i < |done| ==> HasEvent(events, done[i].effective))
  }

  /** The nested loops: each effective day updates the known periods and then records the latest period. */
  method FoldEvents(records: seq<Record>) returns (events: seq<Event>)
    requires Sorted(Precedes, records)
    ensures Events(events, records, records)
  {
    hide Precedes, Shows, HasEvent, HasRecord, Remembers;
    RememberNothing();
    var known: map<int, Record> := map[];
    var periods: seq<int> := [];
    events := [];
    var i := 0;
    while i < |records|
      invariant 0 <= i <= |records|
      invariant 0 < i < |records| ==> records[i - 1].effective < records[i].effective
      invariant Remembers(known, periods, records[..i])
      invariant Events(events, records, records[..i])
      invariant i == 0 ==> events == []
      invariant i > 0 ==> events != [] && events[|events| - 1].effective == records[i - 1].effective
    {
      var start := i;
      var effective := records[i].effective;
      while i < |records| && records[i].effective == effective
        invariant start <= i <= |records|
        invariant forall k :: start <= k < i ==> records[k].effective == effective
        invariant Remembers(known, periods, records[..i])
        decreases |records| - i
      {
        RememberNext(known, periods, records, i);
        var period := records[i].report.endDate;
        if period !in known {
          periods := periods + [period];
        }
        known := known[period := records[i]];
        i := i + 1;
      }
      PeriodsMatch(known, periods, records[..i], start);
      if i < |records| {
        EffectivesGrow(records, start, i);
      }
      var latest := MaxOf(periods);
      LatestShows(known, periods, records, i, effective, latest);
      EventNext(events, records, start, i, Event(effective, latest, known[latest]));
      events := events + [Event(effective, latest, known[latest])];
    }
    assert records[..i] == records;
  }

  lemma EffectivesGrow(records: seq<Record>, i: nat, j: nat)
    requires Sorted(Precedes, records) && i < j < |records|
    ensures records[i].effective <= records[j].effective
  {
    hide StringLe;
    assert Precedes(records[i], records[j]);
  }

  lemma RememberNothing()
    ensures Remembers(map[], [], [])
  {}

  lemma PeriodsMatch(known: map<int, Record>, periods: seq<int>, done: seq<Record>, k: nat)
    requires Remembers(known, periods, done) && k < |done|
    ensures periods != [] && forall p :: p in known <==> p in periods
    ensures forall p :: p in known ==> known[p].report.endDate == p
  {
    assert done[k] in done;
  }

  lemma RememberNext(known: map<int, Record>, periods: seq<int>, records: seq<Record>, i: nat)
    requires Sorted(Precedes, records) && i < |records| && Remembers(known, periods, records[..i])
    ensures var period := records[i].report.endDate;
      Remembers(known[period := records[i]], if period in known then periods else periods + [period], records[..i + 1])
  {
    hide Precedes;
    PrecedesOrder();
    var period := records[i].report.endDate;
    var after := known[period := records[i]];
    assert records[..i + 1] == records[..i] + [records[i]];
    forall q | q in records[..i + 1] ensures q.report.endDate in after && Precedes(q, after[q.report.endDate]) {
      if q in records[..i] {
        var k :| 0 <= k < i && records[k] == q;
        assert Precedes(records[k], records[i]);
      } else {
        assert Precedes(q, q);
      }
    }
    forall p | p in after ensures after[p] in records[..i + 1] && after[p].report.endDate == p {}
  }

  /** At the end of an effective day the greatest known period is what the day shows. */
  lemma EffectivesUpTo(records: seq<Record>, i: nat, j: nat)
    requires Sorted(Precedes, records) && i <= j < |records|
    ensures records[i].effective <= records[j].effective
  {
    if i < j {
      EffectivesGrow(records, i, j);
    }
  }

  lemma LatestShows(known: map<int, Record>, periods: seq<int>, records: seq<Record>, i: nat, effective: int, latest: int)
    requires Sorted(Precedes, records) && 0 < i <= |records| && Remembers(known, periods, records[..i])
    requires records[i - 1].effective == effective && (i < |records| ==> effective < records[i].effective)
    requires latest in known && forall p :: p in known ==> p <= latest
    ensures Shows(records, effective, known[latest])
  {
    hide Precedes;
    var r := known[latest];
    forall q | q in records && q.effective <= effective ensures q in records[..i] {
      var k :| 0 <= k < |records| && records[k] == q;
      if k >= i {
        EffectivesUpTo(records, i, k);
      }
    }
    var k :| 0 <= k < |records[..i]| && records[..i][k] == r;
    EffectivesUpTo(records, k, i - 1);
  }

  lemma EventNext(events: seq<Event>, records: seq<Record>, start: nat, i: nat, e: Event)
    requires start < i <= |records| && Events(events, records, records[..start])
    requires forall k :: start <= k < i ==> records[k].effective == e.effective
    requires Shows(records, e.effective, e.record) && e.period == e.record.report.endDate
    requires events != [] ==> events[|events| - 1].effective < e.effective
    ensures Events(events + [e], records, records[..i])
  {
    hide Shows, HasEvent, HasRecord;
    var after, done := events + [e], records[..i];
    forall k | 0 <= k < |done| ensures HasEvent(after, done[k].effective) {
      if k < start {
        assert records[..start][k] == done[k];
        EventKept(events, e, done[k].effective);
      } else {
        EventAdded(events, e);
      }
    }
    forall k | 0 <= k < |after| ensures HasRecord(done, after[k].effective) {
      if k < |events| {
        RecordKept(records, start, i, after[k].effective);
      } else {
        RecordThere(done, start);
      }
    }
  }

  lemma EventKept(events: seq<Event>, e: Event, effective: int)
    requires HasEvent(events, effective)
    ensures HasEvent(events + [e], effective)
  {
    var k :| 0 <= k < |events| && events[k].effective == effective;
    assert (events + [e])[k].effective == effective;
  }

  lemma EventAdded(events: seq<Event>, e: Event)
    ensures HasEvent(events + [e], e.effective)
  {
    assert (events + [e])[|events|].effective == e.effective;
  }

  lemma RecordKept(records: seq<Record>, start: nat, i: nat, effective: int)
    requires start <= i <= |records| && HasRecord(records[..start], effective)
    ensures HasRecord(records[..i], effective)
  {
    var k :| 0 <= k < start && records[..start][k].effective == effective;
    assert records[..i][k].effective == effective;
  }

  lemma RecordThere(records: seq<Record>, k: nat)
    requires k < |records|
    ensures HasRecord(records, records[k].effective)
  {}

  // ----- the as-of join

  /** The last event at or before `day`. */
  function AsOf(events: seq<Event>, day: int): Option<Event> {
    if events == [] then None
    else if events[|events| - 1].effective <= day then Some(events[|events| - 1])
    else AsOf(events[..|events| - 1], day)
  }

  lemma {:induction false} AsOfIsLast(events: seq<Event>, day: int)
    requires forall i, j :: 0 <= i < j < |events| ==> events[i].effective < events[j].effective
    ensures AsOf(events, day).None? ==> forall i :: 0 <= i < |events| ==> events[i].effective > day
    ensures AsOf(events, day).Some? ==> AsOf(events, day).value in events && AsOf(events, day).value.effective <= day
    ensures AsOf(events, day).Some? ==>
      forall i :: 0 <= i < |events| && events[i].effective <= day ==> events[i].effective <= AsOf(events, day).value.effective
  {
    if events != [] {
      var n := |events| - 1;
      AsOfIsLast(events[..n], day);
      assert forall i :: 0 <= i < n ==> events[..n][i] == events[i];
    }
  }

  /** The joined event shows what is known on the day, also between effective days. */
  lemma JoinShows(events: seq<Event>, records: seq<Record>, day: int)
    requires Events(events, records, records)
    ensures AsOf(events, day).None? ==> forall q :: q in records ==> q.effective > day
    ensures AsOf(events, day).Some? ==> Shows(records, day, AsOf(events, day).value.record)
    ensures AsOf(events, day).Some? ==> AsOf(events, day).value.effective <= day
    ensures AsOf(events, day).Some? ==>
      forall q :: q in records && q.effective <= day ==> q.effective <= AsOf(events, day).value.effective
    ensures AsOf(events, day).Some? ==> HasRecord(records, AsOf(events, day).value.effective)
  {
    hide AsOf, Precedes, Shows, HasRecord;
    AsOfIsLast(events, day);
    forall q | q in records && q.effective <= day
      ensures AsOf(events, day).Some? && q.effective <= AsOf(events, day).value.effective
    {
      var k :| 0 <= k < |records| && records[k] == q;
      assert HasEvent(events, records[k].effective);
    }
    if AsOf(events, day).Some? {
      var e := AsOf(events, day).value;
      var k :| 0 <= k < |events| && events[k] == e;
      assert Shows(records, events[k].effective, events[k].record);
      ShowsLonger(records, e.effective, day, e.record);
    }
  }

  lemma ShowsLonger(records: seq<Record>, early: int, day: int, r: Record)
    requires Shows(records, early, r) && early <= day
    requires forall q :: q in records && q.effective <= day ==> q.effective <= early
    ensures Shows(records, day, r)
  {
    hide Precedes;
  }

  /** Dropping duplicates and sorting do not change what a day shows. */
  lemma ShowsAfterSort(records: seq<Record>, day: int, r: Record)
    ensures Shows(KeepLast(Sort(Precedes, records)), day, r) ==> Shows(records, day, r)
  {
    hide Precedes, KeepLast, Sort;
    var sorted := Sort(Precedes, records);
    var kept := KeepLast(sorted);
    SortMembers(records);
    PrecedesOrder();
    if Shows(kept, day, r) {
      forall q | q in records && q.effective <= day
        ensures q.report.endDate <= r.report.endDate && (q.report.endDate == r.report.endDate ==> Precedes(q, r))
      {
        var i :| 0 <= i < |sorted| && sorted[i] == q;
        KeepLastCovers(sorted, i);
        var y :| y in kept && SameSlot(sorted[i], y) && Precedes(sorted[i], y);
      }
    }
  }

  lemma SortMembers(records: seq<Record>)
    ensures Sorted(Precedes, Sort(Precedes, records))
    ensures forall x :: x in Sort(Precedes, records) <==> x in records
  {
    hide Precedes, Sort;
    PrecedesOrder();
    SortCorrect(Precedes, records);
    forall x ensures x in Sort(Precedes, records) <==> x in records {
      assert x in multiset(Sort(Precedes, records)) <==> x in multiset(records);
    }
  }

  lemma LastEventIsGreatest(reports: seq<Report>, dates: seq<int>, day: int, effective: int)
    requires forall q :: q in Records(reports, dates) && q.effective <= day ==> q.effective <= effective
    requires effective <= day && HasRecord(Records(reports, dates), effective)
    ensures LastEvent(reports, dates, day) == Some(effective)
  {
    hide LastEvent, Records;
    LastEventBound(reports, dates, day);
    var records := Records(reports, dates);
    var k :| 0 <= k < |records| && records[k].effective == effective;
    assert records[k] in records;
  }

  lemma {:induction false} LastEventBound(reports: seq<Report>, dates: seq<int>, day: int)
    ensures LastEvent(reports, dates, day).None? ==> forall q :: q in Records(reports, dates) ==> q.effective > day
    ensures LastEvent(reports, dates, day).Some? ==> LastEvent(reports, dates, day).value <= day
    ensures LastEvent(reports, dates, day).Some? ==>
      forall q :: q in Records(reports, dates) && q.effective <= day ==> q.effective <= LastEvent(reports, dates, day).value
    ensures LastEvent(reports, dates, day).Some? ==>
      exists q :: q in Records(reports, dates) && q.effective == LastEvent(reports, dates, day).value
  {
    if reports != [] {
      var prefix, last := reports[..|reports| - 1], reports[|reports| - 1];
      LastEventBound(prefix, dates, day);
      var effective := EffectiveTime(dates, last.SourceAnnDate());
      if effective.Some? {
        var added := Record(effective.value, last, |reports| - 1);
        var records := Records(reports, dates);
        assert records == Records(prefix, dates) + [added];
        assert forall q :: q in records <==> q in Records(prefix, dates) || q == added;
        if LastEvent(prefix, dates, day).Some? {
          var q :| q in Records(prefix, dates) && q.effective == LastEvent(prefix, dates, day).value;
          assert q in records;
        }
        assert added in records;
      }
    }
  }

  /** Fold and join give, on every day, the row of the naive recomputation. */
  lemma JoinIsNaive(reports: seq<Report>, dates: seq<int>, code: string, events: seq<Event>, day: int)
    requires Events(events, KeepLast(Sort(Precedes, Records(reports, dates))), KeepLast(Sort(Precedes, Records(reports, dates))))
    ensures NaiveRow(reports, dates, code, day) ==
      match AsOf(events, day)
      case None => None
      case Some(e) => if e.record.report.HasValue() then Some(Row(code, day, e.effective, e.record.report)) else None
  {
    hide Precedes, KeepLast, Sort, Events, Records, Known, LastEvent, AsOf, Shows, Report.HasValue;
    var records := Records(reports, dates);
    var kept := KeepLast(Sort(Precedes, records));
    JoinShows(events, kept, day);
    KnownShows(reports, dates, day);
    SameEffectives(records);
    if AsOf(events, day).Some? {
      var e := AsOf(events, day).value;
      ShowsAfterSort(records, day, e.record);
      ShownIsKnown(reports, dates, day, e.record);
      LastEventIsGreatest(reports, dates, day, e.effective);
    } else {
      NothingKnown(reports, dates, day);
    }
  }

  lemma ShownIsKnown(reports: seq<Report>, dates: seq<int>, day: int, r: Record)
    requires Shows(Records(reports, dates), day, r)
    ensures Known(reports, dates, day) == Some((r.effective, r.report))
  {
    hide Precedes, Records, Known;
    KnownShows(reports, dates, day);
    if Known(reports, dates, day).Some? {
      var known := Known(reports, dates, day).value;
      var s :| Shows(Records(reports, dates), day, s) && s.effective == known.0 && s.report == known.1;
      ShowsUnique(reports, dates, day, r, s);
    }
  }

  lemma NothingKnown(reports: seq<Report>, dates: seq<int>, day: int)
    requires forall q :: q in Records(reports, dates) ==> q.effective > day
    ensures Known(reports, dates, day).None?
  {
    hide Precedes, Records, Known;
    KnownShows(reports, dates, day);
  }

  /** Every effective day survives the dropping of duplicates, and none is added. */
  lemma SameEffectives(records: seq<Record>)
    ensures var kept := KeepLast(Sort(Precedes, records));
      && (forall q :: q in kept ==> q in records)
      && (forall q :: q in records ==> HasRecord(kept, q.effective))
  {
    hide Precedes, KeepLast, Sort;
    var sorted := Sort(Precedes, records);
    SortMembers(records);
    forall q | q in records ensures HasRecord(KeepLast(sorted), q.effective) {
      var i :| 0 <= i < |sorted| && sorted[i] == q;
      KeepLastCovers(sorted, i);
      var y :| y in KeepLast(sorted) && SameSlot(sorted[i], y) && Precedes(sorted[i], y);
      var k :| 0 <= k < |KeepLast(sorted)| && KeepLast(sorted)[k] == y;
    }
  }

  /** The expansion of one security. */
  method ExpandSecurity(reports: seq<Report>, dates: seq<int>, code: string) returns (rows: seq<Row>)
    ensures rows == NaiveRows(reports, dates, code, dates)
  {
    hide Precedes, KeepLast, Sort, Records, NaiveRow, AsOf;
    var records := Records(reports, dates);
    SortMembers(records);
    KeepLastSorted(Sort(Precedes, records));
    var kept := KeepLast(Sort(Precedes, records));
    var events := FoldEvents(kept);
    rows := [];
    for k := 0 to |dates|
      invariant rows == NaiveRows(reports, dates, code, dates[..k])
    {
      assert dates[..k + 1][..k] == dates[..k];
      JoinIsNaive(reports, dates, code, events, dates[k]);
      var event := AsOf(events, dates[k]);
      if event.Some? && event.value.record.report.HasValue() {
        rows := rows + [Row(code, dates[k], event.value.effective, event.value.record.report)];
      }
    }
    assert dates[..|dates|] == dates;
  }

  // ----- no look-ahead

  /** The reports announced before `cutoff`, in order. */
  function Before(reports: seq<Report>, cutoff: int): seq<Report> {
    if reports == [] then []
    else
      var rest := Before(reports[..|reports| - 1], cutoff);
      var last := reports[|reports| - 1];
      if Public(last, cutoff) then rest + [last] else rest
  }

  lemma {:induction false} KnownIgnoresLater(reports: seq<Report>, dates: seq<int>, cutoff: int, day: int)
    requires day <= cutoff
    ensures Known(reports, dates, day) == Known(Before(reports, cutoff), dates, day)
    ensures LastEvent(reports, dates, day) == LastEvent(Before(reports, cutoff), dates, day)
  {
    if reports != [] {
      var prefix, last := reports[..|reports| - 1], reports[|reports| - 1];
      KnownIgnoresLater(prefix, dates, cutoff, day);
      if Public(last, cutoff) {
        var kept := Before(reports, cutoff);
        assert kept[..|kept| - 1] == Before(prefix, cutoff) && kept[|kept| - 1] == last;
      }
    }
  }

  /** Two report sets that agree on what was announced before `cutoff` show the same row on every day up to
      `cutoff`: reports announced on or after it, new or changed, cannot be seen. */
  lemma NoLookAhead(a: seq<Report>, b: seq<Report>, dates: seq<int>, code: string, cutoff: int, day: int)
    requires Before(a, cutoff) == Before(b, cutoff) && day <= cutoff
    ensures NaiveRow(a, dates, code, day) == NaiveRow(b, dates, code, day)
  {
    hide Known, LastEvent;
    KnownIgnoresLater(a, dates, cutoff, day);
    KnownIgnoresLater(b, dates, cutoff, day);
  }

  // ----- the whole table

  function OfCode(reports: seq<Report>, code: string): seq<Report> {
    if reports == [] then []
    else
      var rest := OfCode(reports[..|reports| - 1], code);
      var last := reports[|reports| - 1];
      if last.code == code then rest + [last] else rest
  }

  /** The distinct codes of the reports that ever become effective. */
  function DistinctCodes(reports: seq<Report>, dates: seq<int>): seq<string> {
    if reports == [] then []
    else
      var rest := DistinctCodes(reports[..|reports| - 1], dates);
      var last := reports[|reports| - 1];
      if EffectiveTime(dates, last.SourceAnnDate()).Some? && last.code !in rest then rest + [last.code] else rest
  }

  /** Groups come in code order. */
  function Codes(reports: seq<Report>, dates: seq<int>): seq<string> {
    Sort(StringLe, DistinctCodes(reports, dates))
  }

  function RowsOfCodes(reports: seq<Report>, dates: seq<int>, codes: seq<string>): seq<Row> {
    if codes == [] then []
    else
      var code := codes[|codes| - 1];
      RowsOfCodes(reports, dates, codes[..|codes| - 1]) + NaiveRows(OfCode(reports, code), dates, code, dates)
  }

  /** The fold and join of every security, one group after the other. */
  method BuildPitFundamentals(reports: seq<Report>, dates: seq<int>) returns (rows: seq<Row>)
    ensures rows == RowsOfCodes(reports, dates, Codes(reports, dates))
    ensures forall row :: row in rows <==>
      row.tradeDate in dates && NaiveRow(OfCode(reports, row.code), dates, row.code, row.tradeDate) == Some(row)
  {
    hide NaiveRows, NaiveRow, Codes, OfCode;
    var codes := Codes(reports, dates);
    rows := [];
    for k := 0 to |codes|
      invariant rows == RowsOfCodes(reports, dates, codes[..k])
    {
      assert codes[..k + 1][..k] == codes[..k];
      var expanded := ExpandSecurity(OfCode(reports, codes[k]), dates, codes[k]);
      rows := rows + expanded;
    }
    assert codes[..|codes|] == codes;
    forall row ensures row in rows <==>
      row.tradeDate in dates && NaiveRow(OfCode(reports, row.code), dates, row.code, row.tradeDate) == Some(row) {
      TableRow(reports, dates, row);
    }
  }

  lemma {:induction false} RowOfDays(reports: seq<Report>, dates: seq<int>, code: string, days: seq<int>, row: Row)
    ensures row in NaiveRows(reports, dates, code, days)
       <==> row.tradeDate in days && NaiveRow(reports, dates, code, row.tradeDate) == Some(row)
  {
    hide Known, LastEvent, Report.HasValue;
    if days != [] {
      var n := |days| - 1;
      RowOfDays(reports, dates, code, days[..n], row);
      assert days == days[..n] + [days[n]];
      assert row.tradeDate in days <==> row.tradeDate in days[..n] || row.tradeDate == days[n];
    }
  }

  lemma {:induction false} RowOfCodes(reports: seq<Report>, dates: seq<int>, codes: seq<string>, row: Row)
    ensures row in RowsOfCodes(reports, dates, codes)
       <==> row.code in codes && row.tradeDate in dates
            && NaiveRow(OfCode(reports, row.code), dates, row.code, row.tradeDate) == Some(row)
  {
    hide Known, LastEvent, Report.HasValue, NaiveRows, OfCode;
    if codes != [] {
      var n := |codes| - 1;
      RowOfCodes(reports, dates, codes[..n], row);
      RowOfDays(OfCode(reports, codes[n]), dates, codes[n], dates, row);
      assert codes == codes[..n] + [codes[n]];
      assert row.code in codes <==> row.code in codes[..n] || row.code == codes[n];
    }
  }

  /** A row is in the table exactly when its day is open and the naive recomputation shows it. */
  lemma TableRow(reports: seq<Report>, dates: seq<int>, row: Row)
    ensures row in RowsOfCodes(reports, dates, Codes(reports, dates))
       <==> row.tradeDate in dates && NaiveRow(OfCode(reports, row.code), dates, row.code, row.tradeDate) == Some(row)
  {
    hide RowsOfCodes, OfCode, Known, LastEvent, DistinctCodes, Sort, StringLe, Report.HasValue, EffectiveTime;
    RowOfCodes(reports, dates, Codes(reports, dates), row);
    var mine := OfCode(reports, row.code);
    if NaiveRow(mine, dates, row.code, row.tradeDate).Some? {
      OfCodeMembers(reports, row.code);
      var known := Known(mine, dates, row.tradeDate).value;
      CodeListed(reports, dates, known.1);
      StringLeOrder();
      SortCorrect(StringLe, DistinctCodes(reports, dates));
      assert row.code in multiset(DistinctCodes(reports, dates));
      assert row.code in multiset(Codes(reports, dates));
    }
  }

  lemma {:induction false} OfCodeMembers(reports: seq<Report>, code: string)
    ensures forall r :: r in OfCode(reports, code) <==> r in reports && r.code == code
  {
    if reports != [] {
      var n := |reports| - 1;
      OfCodeMembers(reports[..n], code);
      assert reports == reports[..n] + [reports[n]];
    }
  }

  lemma {:induction false} CodeListed(reports: seq<Report>, dates: seq<int>, r: Report)
    requires r in reports && EffectiveTime(dates, r.SourceAnnDate()).Some?
    ensures r.code in DistinctCodes(reports, dates)
  {
    hide EffectiveTime;
    var n := |reports| - 1;
    assert reports == reports[..n] + [reports[n]];
    if r in reports[..n] {
      CodeListed(reports[..n], dates, r);
    }
  }

  lemma {:induction false} BeforeOfCode(reports: seq<Report>, code: string, cutoff: int)
    ensures Before(OfCode(reports, code), cutoff) == OfCode(Before(reports, cutoff), code)
  {
    if reports != [] {
      var prefix, last := reports[..|reports| - 1], reports[|reports| - 1];
      BeforeOfCode(prefix, code, cutoff);
      var mine, early := OfCode(reports, code), Before(reports, cutoff);
      if last.code == code {
        assert mine[..|mine| - 1] == OfCode(prefix, code) && mine[|mine| - 1] == last;
      }
      if Public(last, cutoff) {
        assert early[..|early| - 1] == Before(prefix, cutoff) && early[|early| - 1] == last;
      }
    }
  }

  /** The published table never looks ahead: changing anything announced on or after `cutoff` leaves every
      row of a day up to `cutoff` as it was. */
  lemma TableHasNoLookAhead(a: seq<Report>, b: seq<Report>, dates: seq<int>, cutoff: int, row: Row)
    requires Before(a, cutoff) == Before(b, cutoff) && row.tradeDate <= cutoff
    ensures row in RowsOfCodes(a, dates, Codes(a, dates)) <==> row in RowsOfCodes(b, dates, Codes(b, dates))
  {
    hide RowsOfCodes, Codes, OfCode, Before, NaiveRow;
    TableRow(a, dates, row);
    TableRow(b, dates, row);
    BeforeOfCode(a, row.code, cutoff);
    BeforeOfCode(b, row.code, cutoff);
    NoLookAhead(OfCode(a, row.code), OfCode(b, row.code), dates, row.code, cutoff, row.tradeDate);
  }
}
