/** The point-in-time table described from the announcement dates alone: which row it holds on which day
    (data/fundamentals.py, `build_pit_fundamentals`). */
module PublicFundamentals {
  import opened Basics
  import opened Sorting
  import opened Fundamentals

  /** A report takes effect on the first open day after both of its announcements, and never when no open day
      follows them. */
  lemma EffectiveExactlyWhen(dates: seq<int>, r: Report, day: int)
    requires OpenDays(dates)
    ensures EffectiveTime(dates, r.SourceAnnDate()) == Some(day)
       <==> day in dates && Public(r, day) && forall d :: d in dates && Public(r, d) ==> day <= d
    ensures EffectiveTime(dates, r.SourceAnnDate()).None? <==> forall d :: d in dates ==> !Public(r, d)
  {
    hide EffectiveTime, Report.SourceAnnDate;
    forall d ensures Public(r, d) <==> r.SourceAnnDate() < d {
      PublicAfterSource(r, d);
    }
    forall d | d in dates && Public(r, d) ensures EffectiveTime(dates, r.SourceAnnDate()).Some? && EffectiveTime(dates, r.SourceAnnDate()).value <= d {
      EffectiveTimeIsFirst(dates, r.SourceAnnDate(), d);
    }
  }

  /** On an open day a report is in effect exactly when it is public. */
  lemma InEffect(dates: seq<int>, r: Report, day: int)
    requires OpenDays(dates) && day in dates
    ensures Public(r, day) <==> EffectiveTime(dates, r.SourceAnnDate()).Some? && EffectiveTime(dates, r.SourceAnnDate()).value <= day
  {
    hide EffectiveTime, Report.SourceAnnDate;
    PublicAfterSource(r, day);
    if Public(r, day) {
      EffectiveTimeIsFirst(dates, r.SourceAnnDate(), day);
    }
  }

  /** Some open day sees `a` and not yet `b`. */
  ghost predicate Sooner(dates: seq<int>, a: Report, b: Report) {
    exists d :: d in dates && Public(a, d) && !Public(b, d)
  }

  /** Report `j` of a security is restated by its report `i`, or is the same: `i` became public later, or on the
      same open day with a larger update flag, a later ingest time or a later place in the input. */
  ghost predicate RestatedBy(mine: seq<Report>, dates: seq<int>, j: nat, i: nat)
    requires i < |mine| && j < |mine|
  {
    var earlier, later := mine[j], mine[i];
    if Sooner(dates, earlier, later) then true
    else if Sooner(dates, later, earlier) then false
    else if earlier.updateFlag != later.updateFlag then StringLe(earlier.updateFlag, later.updateFlag)
    else if earlier.ingestTime != later.ingestTime then
      earlier.ingestTime.None? || (later.ingestTime.Some? && earlier.ingestTime.value <= later.ingestTime.value)
    else j <= i
  }

  /** On `day` report `i` is public, no public report has a later period, and it is the latest restatement of its own. */
  ghost predicate Latest(mine: seq<Report>, dates: seq<int>, day: int, i: nat)
    requires i < |mine|
  {
    && Public(mine[i], day)
    && (forall j :: 0 <= j < |mine| && Public(mine[j], day) ==> mine[j].endDate <= mine[i].endDate)
    && (forall j :: 0 <= j < |mine| && Public(mine[j], day) && mine[j].endDate == mine[i].endDate ==> RestatedBy(mine, dates, j, i))
  }

  /** `e` is the last open day up to `day` on which some report became public. */
  ghost predicate LastChange(mine: seq<Report>, dates: seq<int>, day: int, e: int) {
    && e in dates && e <= day
    && (forall j :: 0 <= j < |mine| && Public(mine[j], day) ==> Public(mine[j], e))
    && (exists j :: 0 <= j < |mine| && Public(mine[j], e) && forall d :: d in dates && d < e ==> !Public(mine[j], d))
  }

  // ----- records and reports

  lemma {:induction false} RecordsComplete(reports: seq<Report>, dates: seq<int>, i: nat)
    requires i < |reports| && EffectiveTime(dates, reports[i].SourceAnnDate()).Some?
    ensures Record(EffectiveTime(dates, reports[i].SourceAnnDate()).value, reports[i], i) in Records(reports, dates)
  {
    hide EffectiveTime, Report.SourceAnnDate;
    if i < |reports| - 1 {
      RecordsComplete(reports[..|reports| - 1], dates, i);
    }
  }

  lemma SoonerIsEarlier(dates: seq<int>, a: Record, b: Record)
    requires OpenDays(dates)
    requires EffectiveTime(dates, a.report.SourceAnnDate()) == Some(a.effective)
    requires EffectiveTime(dates, b.report.SourceAnnDate()) == Some(b.effective)
    ensures Sooner(dates, a.report, b.report) <==> a.effective < b.effective
  {
    hide EffectiveTime, Report.SourceAnnDate, Public;
    forall d | d in dates ensures Public(a.report, d) <==> a.effective <= d {
      InEffect(dates, a.report, d);
    }
    forall d | d in dates ensures Public(b.report, d) <==> b.effective <= d {
      InEffect(dates, b.report, d);
    }
    EffectiveExactlyWhen(dates, a.report, a.effective);
  }

  lemma RestatedIsPrecedes(mine: seq<Report>, dates: seq<int>, a: Record, b: Record)
    requires OpenDays(dates) && a in Records(mine, dates) && b in Records(mine, dates) && a.report.endDate == b.report.endDate
    ensures RestatedBy(mine, dates, a.row, b.row) <==> Precedes(a, b)
  {
    hide EffectiveTime, Records, Sooner, StringLe, Report.SourceAnnDate;
    SoonerIsEarlier(dates, a, b);
    SoonerIsEarlier(dates, b, a);
  }

  lemma LatestIsShown(mine: seq<Report>, dates: seq<int>, day: int, r: Record)
    requires OpenDays(dates) && day in dates && r in Records(mine, dates)
    ensures Latest(mine, dates, day, r.row) <==> Shows(Records(mine, dates), day, r)
  {
    hide EffectiveTime, Records, Precedes, RestatedBy, Report.SourceAnnDate, Public;
    var records := Records(mine, dates);
    InEffect(dates, r.report, day);
    if Latest(mine, dates, day, r.row) {
      forall q | q in records && q.effective <= day
        ensures q.report.endDate <= r.report.endDate && (q.report.endDate == r.report.endDate ==> Precedes(q, r))
      {
        InEffect(dates, q.report, day);
        assert Public(mine[q.row], day);
        if q.report.endDate == r.report.endDate {
          RestatedIsPrecedes(mine, dates, q, r);
        }
      }
    }
    if Shows(records, day, r) {
      forall j | 0 <= j < |mine| && Public(mine[j], day)
        ensures mine[j].endDate <= r.report.endDate && (mine[j].endDate == r.report.endDate ==> RestatedBy(mine, dates, j, r.row))
      {
        InEffect(dates, mine[j], day);
        RecordsComplete(mine, dates, j);
        var q := Record(EffectiveTime(dates, mine[j].SourceAnnDate()).value, mine[j], j);
        assert q in records && q.effective <= day;
        if q.report.endDate == r.report.endDate {
          RestatedIsPrecedes(mine, dates, q, r);
        }
      }
    }
  }

  // ----- the rows

  lemma ChangeIsLastEvent(mine: seq<Report>, dates: seq<int>, day: int, e: int)
    requires OpenDays(dates) && day in dates
    ensures LastChange(mine, dates, day, e) <==> LastEvent(mine, dates, day) == Some(e)
  {
    hide EffectiveTime, Records, LastEvent, Report.SourceAnnDate, Public;
    LastEventBound(mine, dates, day);
    if LastChange(mine, dates, day, e) {
      LastChangeIsEvent(mine, dates, day, e);
    }
    if LastEvent(mine, dates, day) == Some(e) {
      EventIsLastChange(mine, dates, day, e);
    }
  }

  lemma LastChangeIsEvent(mine: seq<Report>, dates: seq<int>, day: int, e: int)
    requires OpenDays(dates) && day in dates && LastChange(mine, dates, day, e)
    ensures LastEvent(mine, dates, day) == Some(e)
  {
    hide EffectiveTime, Records, LastEvent, Report.SourceAnnDate, Public;
    var records := Records(mine, dates);
    var j :| 0 <= j < |mine| && Public(mine[j], e) && forall d :: d in dates && d < e ==> !Public(mine[j], d);
    EffectiveExactlyWhen(dates, mine[j], e);
    RecordsComplete(mine, dates, j);
    RecordThereAt(records, Record(e, mine[j], j));
    forall q | q in records && q.effective <= day ensures q.effective <= e {
      InEffect(dates, q.report, day);
      assert Public(mine[q.row], day);
      InEffect(dates, q.report, e);
    }
    LastEventIsGreatest(mine, dates, day, e);
  }

  lemma RecordThereAt(records: seq<Record>, r: Record)
    requires r in records
    ensures HasRecord(records, r.effective)
  {}

  lemma EventIsLastChange(mine: seq<Report>, dates: seq<int>, day: int, e: int)
    requires OpenDays(dates) && day in dates && LastEvent(mine, dates, day) == Some(e)
    ensures LastChange(mine, dates, day, e)
  {
    hide EffectiveTime, Records, LastEvent, Report.SourceAnnDate, Public;
    LastEventBound(mine, dates, day);
    var records := Records(mine, dates);
    var q :| q in records && q.effective == e;
    EffectiveExactlyWhen(dates, q.report, e);
    assert mine[q.row] == q.report;
    forall j | 0 <= j < |mine| && Public(mine[j], day) ensures Public(mine[j], e) {
      InEffect(dates, mine[j], day);
      RecordsComplete(mine, dates, j);
      InEffect(dates, mine[j], e);
    }
  }

  /** The report a row of `day` shows, from the reports of its security alone. */
  ghost predicate ShowsReport(mine: seq<Report>, dates: seq<int>, day: int, r: Report) {
    exists i :: 0 <= i < |mine| && mine[i] == r && Latest(mine, dates, day, i)
  }

  lemma KnownIsLatest(mine: seq<Report>, dates: seq<int>, day: int, r: Report)
    requires OpenDays(dates) && day in dates
    ensures ShowsReport(mine, dates, day, r) <==> Known(mine, dates, day).Some? && Known(mine, dates, day).value.1 == r
  {
    hide EffectiveTime, Records, Known, Shows, Latest, Report.SourceAnnDate, Public;
    KnownShows(mine, dates, day);
    if i :| 0 <= i < |mine| && mine[i] == r && Latest(mine, dates, day, i) {
      LatestIsPublic(mine, dates, day, i);
      InEffect(dates, r, day);
      RecordsComplete(mine, dates, i);
      var q := Record(EffectiveTime(dates, r.SourceAnnDate()).value, r, i);
      LatestIsShown(mine, dates, day, q);
      ShownIsKnown(mine, dates, day, q);
    }
    if Known(mine, dates, day).Some? && Known(mine, dates, day).value.1 == r {
      var q :| Shows(Records(mine, dates), day, q) && q.report == r;
      ShownIsRecord(mine, dates, day, q);
      LatestIsShown(mine, dates, day, q);
    }
  }

  lemma LatestIsPublic(mine: seq<Report>, dates: seq<int>, day: int, i: nat)
    requires i < |mine| && Latest(mine, dates, day, i)
    ensures Public(mine[i], day)
  {}

  lemma ShownIsRecord(mine: seq<Report>, dates: seq<int>, day: int, q: Record)
    requires Shows(Records(mine, dates), day, q)
    ensures q in Records(mine, dates)
  {}

  /** The table holds a row exactly when its day is open, its report is the latest one public on that day among
      the reports of its security and has a value, and its effective day is the last change up to the day. */
  lemma TableRowExactlyWhen(reports: seq<Report>, dates: seq<int>, row: Row)
    requires OpenDays(dates)
    ensures row in RowsOfCodes(reports, dates, Codes(reports, dates))
      <==> row.tradeDate in dates
           && ShowsReport(OfCode(reports, row.code), dates, row.tradeDate, row.report)
           && (exists v :: v in row.report.values && v.Some?)
           && LastChange(OfCode(reports, row.code), dates, row.tradeDate, row.effectiveTime)
  {
    hide RowsOfCodes, Codes, OfCode, Known, LastEvent, EffectiveTime, ShowsReport, LastChange;
    TableRow(reports, dates, row);
    assert row.report.HasValue() <==> exists v :: v in row.report.values && v.Some?;
    if row.tradeDate in dates {
      KnownIsLatest(OfCode(reports, row.code), dates, row.tradeDate, row.report);
      ChangeIsLastEvent(OfCode(reports, row.code), dates, row.tradeDate, row.effectiveTime);
    }
  }

  /** No row shows a report on or before either of its announcement dates. */
  lemma RowsFollowAnnouncements(reports: seq<Report>, dates: seq<int>, row: Row)
    requires OpenDays(dates) && row in RowsOfCodes(reports, dates, Codes(reports, dates))
    ensures row.report in reports && row.report.code == row.code && row.tradeDate in dates
    ensures row.tradeDate > row.report.annDate
    ensures row.report.finalAnnDate.Some? ==> row.tradeDate > row.report.finalAnnDate.value
  {
    hide RowsOfCodes, Codes, OfCode, LastChange, RestatedBy;
    TableRowExactlyWhen(reports, dates, row);
    OfCodeMembers(reports, row.code);
  }
}
