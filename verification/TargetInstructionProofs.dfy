/** What the canonical target instruction is: independent of row order, stable under canonicalising again,
    and as executable as the instruction it came from. */
module TargetInstructionProofs {
  import opened Basics
  import opened Sorting
  import opened TargetInstruction

  // ----- what the row loop computes

  /** A row on its own. */
  function ReadRow(h: Header, row: Row): Result<Item> {
    var instrument :- Instrument(row.instrument);
    ReadItem(h, instrument, row)
  }

  ghost predicate Readable(h: Header, rows: seq<Row>) {
    forall k :: 0 <= k < |rows| ==> ReadRow(h, rows[k]).Ok?
  }

  function Items(h: Header, rows: seq<Row>): (items: seq<Item>)
    requires Readable(h, rows)
    ensures |items| == |rows| && forall k :: 0 <= k < |rows| ==> items[k] == ReadRow(h, rows[k]).value
  {
    seq(|rows|, k requires 0 <= k < |rows| => ReadRow(h, rows[k]).value)
  }

  function Weights(items: seq<Item>): (w: seq<real>)
    ensures |w| == |items| && forall k :: 0 <= k < |items| ==> w[k] == items[k].weight
  {
    seq(|items|, k requires 0 <= k < |items| => items[k].weight)
  }

  function AbsWeights(items: seq<Item>): (w: seq<real>)
    ensures |w| == |items| && forall k :: 0 <= k < |items| ==> w[k] == Abs(items[k].weight)
  {
    seq(|items|, k requires 0 <= k < |items| => Abs(items[k].weight))
  }

  ghost predicate DistinctInstruments(items: seq<Item>) {
    forall j, k :: 0 <= j < k < |items| ==> items[j].instrument != items[k].instrument
  }

  ghost predicate Acceptable(h: Header, rows: seq<Row>) {
    Readable(h, rows) && DistinctInstruments(Items(h, rows))
  }

  /** The rows read, with their gross and net weight. */
  function Totals(items: seq<Item>): Scanned { Scanned(items, Sum(AbsWeights(items)), Sum(Weights(items))) }

  lemma TotalsAppend(items: seq<Item>, item: Item)
    ensures Totals(items + [item]) == Scanned(items + [item], Totals(items).gross + Abs(item.weight), Totals(items).net + item.weight)
  {
    hide Sum;
    assert Weights(items + [item]) == Weights(items) + [item.weight];
    assert AbsWeights(items + [item]) == AbsWeights(items) + [Abs(item.weight)];
    SumAppend(Weights(items), [item.weight]);
    SumAppend(AbsWeights(items), [Abs(item.weight)]);
    SumSingle(item.weight);
    SumSingle(Abs(item.weight));
  }

  lemma SumSingle(x: real)
    ensures Sum([x]) == x
  {}

  /** The loop accepts exactly the rows that are each readable and name no instrument twice, and then it has
      their items and their exact gross and net weight. */
  lemma {:induction false} ScanExactlyWhen(h: Header, rows: seq<Row>)
    ensures Scan(h, rows).Ok? <==> Acceptable(h, rows)
    ensures Acceptable(h, rows) ==> Scan(h, rows).value == Totals(Items(h, rows))
    decreases |rows|
  {
    hide Instrument, ReadItem, Totals, Abs, ReadRow, ScanRow;
    if rows == [] {
      EmptyTotals(h);
    } else {
      var front, row := rows[..|rows| - 1], rows[|rows| - 1];
      ScanExactlyWhen(h, front);
      assert rows == front + [row];
      AcceptableAppend(h, front, row);
    }
  }

  lemma EmptyTotals(h: Header)
    ensures Acceptable(h, []) && Totals(Items(h, [])) == Scanned([], 0.0, 0.0)
  {}

  lemma AcceptableAppend(h: Header, front: seq<Row>, row: Row)
    ensures Acceptable(h, front + [row]) <==> Acceptable(h, front) && ScanRow(h, Totals(Items(h, front)), row).Ok?
    ensures Acceptable(h, front + [row]) ==> Readable(h, front)
    ensures Acceptable(h, front + [row]) ==> ScanRow(h, Totals(Items(h, front)), row) == Ok(Totals(Items(h, front + [row])))
  {
    hide Instrument, ReadItem, Sum, Abs;
    var rows := front + [row];
    assert rows[|front|] == row;
    forall k | 0 <= k < |front| ensures rows[k] == front[k] {}
    if Instrument(row.instrument).Ok? {
      ItemKeepsInstrument(h, Instrument(row.instrument).value, row);
    }
    if Readable(h, rows) {
      assert Items(h, rows) == Items(h, front) + [ReadRow(h, row).value];
      TotalsAppend(Items(h, front), ReadRow(h, row).value);
    }
  }

  // ----- row order

  lemma ReadablePermutation(h: Header, a: seq<Row>, b: seq<Row>)
    requires multiset(a) == multiset(b) && Readable(h, a)
    ensures Readable(h, b)
  {
    hide ReadRow;
    forall k | 0 <= k < |b| ensures ReadRow(h, b[k]).Ok? {
      assert b[k] in multiset(a);
    }
  }

  lemma ItemsRemove(h: Header, rows: seq<Row>, k: nat)
    requires Readable(h, rows) && k < |rows|
    ensures Readable(h, Without(rows, k))
    ensures multiset(Items(h, rows)) == multiset(Items(h, Without(rows, k))) + multiset{ReadRow(h, rows[k]).value}
  {
    hide ReadRow;
    var items := Items(h, rows);
    assert Items(h, Without(rows, k)) == items[..k] + items[k + 1..];
    MultisetRemove(items, k);
  }

  lemma {:induction false} ItemsPermutation(h: Header, a: seq<Row>, b: seq<Row>)
    requires multiset(a) == multiset(b) && Readable(h, a) && Readable(h, b)
    ensures multiset(Items(h, a)) == multiset(Items(h, b))
    decreases |a|
  {
    hide *;
    PermutationSize(a, b);
    if a == [] {
      assert b == a;
    } else {
      var k := PermutationStep(a, b);
      ItemsRemove(h, a, 0);
      ItemsRemove(h, b, k);
      ItemsPermutation(h, Without(a, 0), Without(b, k));
    }
  }

  lemma {:induction false} WeightsPermutation(a: seq<Item>, b: seq<Item>)
    requires multiset(a) == multiset(b)
    ensures multiset(Weights(a)) == multiset(Weights(b)) && multiset(AbsWeights(a)) == multiset(AbsWeights(b))
    decreases |a|
  {
    hide *;
    PermutationSize(a, b);
    if a == [] {
      assert b == a;
    } else {
      var k := PermutationStep(a, b);
      WeightsRemove(a, 0);
      WeightsRemove(b, k);
      WeightsPermutation(Without(a, 0), Without(b, k));
    }
  }

  lemma WeightsRemove(items: seq<Item>, k: nat)
    requires k < |items|
    ensures multiset(Weights(items)) == multiset(Weights(Without(items, k))) + multiset{items[k].weight}
    ensures multiset(AbsWeights(items)) == multiset(AbsWeights(Without(items, k))) + multiset{Abs(items[k].weight)}
  {
    hide Abs;
    var weights, absolute := Weights(items), AbsWeights(items);
    assert Weights(Without(items, k)) == weights[..k] + weights[k + 1..];
    assert AbsWeights(Without(items, k)) == absolute[..k] + absolute[k + 1..];
    MultisetRemove(weights, k);
    MultisetRemove(absolute, k);
  }

  lemma {:induction false} OccursOnce(items: seq<Item>, x: Item)
    requires DistinctInstruments(items)
    ensures multiset(items)[x] <= 1
  {
    if items != [] {
      OccursOnce(items[1..], x);
      assert items == [items[0]] + items[1..];
      forall k | 0 <= k < |items[1..]| ensures items[1..][k] != items[0] {
        assert items[1..][k] == items[k + 1];
      }
      assert items[0] !in multiset(items[1..]);
    }
  }

  lemma OccursTwice(items: seq<Item>, j: nat, k: nat)
    requires j < k < |items| && items[j] == items[k]
    ensures multiset(items)[items[j]] >= 2
  {
    assert items == items[..k] + items[k..];
    assert items[..k][j] == items[j] && items[k..][0] == items[j];
    assert items[j] in multiset(items[..k]) && items[j] in multiset(items[k..]);
  }

  lemma DistinctPermutation(a: seq<Item>, b: seq<Item>)
    requires multiset(a) == multiset(b) && DistinctInstruments(a)
    ensures DistinctInstruments(b)
  {
    forall j, k | 0 <= j < k < |b| ensures b[j].instrument != b[k].instrument {
      assert b[j] in multiset(a) && b[k] in multiset(a);
      OccursOnce(a, b[j]);
      if b[j] == b[k] {
        OccursTwice(b, j, k);
      }
    }
  }

  lemma ItemLeOrder()
    ensures TotalOrder(ItemLe)
  {
    StringLeOrder();
  }

  lemma DistinctHasNoTies(items: seq<Item>)
    requires DistinctInstruments(items)
    ensures NoTies(ItemLe, items)
  {
    StringLeOrder();
    forall j, k | 0 <= j < |items| && 0 <= k < |items| && ItemLe(items[j], items[k]) && ItemLe(items[k], items[j])
      ensures items[j] == items[k]
    {
      assert items[j].instrument == items[k].instrument;
    }
  }

  lemma TotalsPermutation(a: seq<Item>, b: seq<Item>)
    requires multiset(a) == multiset(b)
    ensures Totals(a).gross == Totals(b).gross && Totals(a).net == Totals(b).net
  {
    hide Sum;
    WeightsPermutation(a, b);
    SumPermutation(Weights(a), Weights(b));
    SumPermutation(AbsWeights(a), AbsWeights(b));
  }

  /** Rows in another order: the loop accepts both or neither, and what it yields differs in item order only. */
  lemma ScanPermutation(h: Header, a: seq<Row>, b: seq<Row>)
    requires multiset(a) == multiset(b) && Scan(h, a).Ok?
    ensures Scan(h, b).Ok?
    ensures var s, t := Scan(h, a).value, Scan(h, b).value;
      && s.gross == t.gross && s.net == t.net && (s.items == [] <==> t.items == [])
      && Sort(ItemLe, s.items) == Sort(ItemLe, t.items)
  {
    hide Scan, ReadRow, Totals;
    ScanExactlyWhen(h, a);
    ScanExactlyWhen(h, b);
    ReadablePermutation(h, a, b);
    ItemsPermutation(h, a, b);
    var s, t := Items(h, a), Items(h, b);
    DistinctPermutation(s, t);
    TotalsPermutation(s, t);
    TotalsItems(s);
    TotalsItems(t);
    ItemLeOrder();
    DistinctHasNoTies(s);
    SortPermutation(ItemLe, s, t);
    assert |multiset(s)| == |multiset(t)|;
  }

  lemma TotalsItems(items: seq<Item>)
    ensures Totals(items).items == items
  {}

  lemma FinishForgetsOrder(i: Instruction, rows: seq<Row>, h: Header, s: Scanned, t: Scanned)
    requires s.gross == t.gross && s.net == t.net && (s.items == [] <==> t.items == [])
    requires Sort(ItemLe, s.items) == Sort(ItemLe, t.items)
    ensures Finish(i.(targets := rows), h, t) == Finish(i, h, s)
  {
    hide Sort, ReadSupersedes, FinishTargets, FinishCashOnly;
    var supersedes := ReadSupersedes(i.supersedesArtifactId);
    if supersedes.Ok? {
      FinishTargetsForgetsOrder(i, rows, h, s, t, supersedes.value);
      FinishCashOnlyForgetsOrder(i, rows, h, s, t, supersedes.value);
    }
  }

  lemma FinishTargetsForgetsOrder(i: Instruction, rows: seq<Row>, h: Header, s: Scanned, t: Scanned, supersedes: Option<string>)
    requires s.gross == t.gross && s.net == t.net && (s.items == [] <==> t.items == [])
    requires Sort(ItemLe, s.items) == Sort(ItemLe, t.items)
    ensures FinishTargets(i.(targets := rows), h, t, supersedes) == FinishTargets(i, h, s, supersedes)
  {
    hide Sort, SemanticsOf, OmittedOf, Abs;
  }

  lemma FinishCashOnlyForgetsOrder(i: Instruction, rows: seq<Row>, h: Header, s: Scanned, t: Scanned, supersedes: Option<string>)
    requires s.gross == t.gross && s.net == t.net && (s.items == [] <==> t.items == [])
    requires Sort(ItemLe, s.items) == Sort(ItemLe, t.items)
    ensures FinishCashOnly(i.(targets := rows), h, t, supersedes) == FinishCashOnly(i, h, s, supersedes)
  {
    hide Sort, Abs;
  }

  /** The order of the target rows does not matter: the same rows in any order are accepted or refused alike,
      with the same canonical form. */
  lemma RowOrderIsIrrelevant(i: Instruction, rows: seq<Row>, observedAt: Option<int>)
    requires multiset(rows) == multiset(i.targets)
    ensures var r, p := Canonicalize(i, observedAt), Canonicalize(i.(targets := rows), observedAt);
      (r.Ok? <==> p.Ok?) && (r.Ok? ==> p == r)
  {
    hide Scan, Finish, ReadIdentity, ReadTimes, ReadRisk, TimesRefusal, Sort;
    var j := i.(targets := rows);
    HeaderIgnoresRows(i, rows, observedAt);
    var header := ReadHeader(i, observedAt);
    if header.Ok? {
      if Scan(header.value, i.targets).Ok? {
        ScanPermutation(header.value, i.targets, rows);
        FinishForgetsOrder(i, rows, header.value, Scan(header.value, i.targets).value, Scan(header.value, rows).value);
      } else if Scan(header.value, rows).Ok? {
        ScanPermutation(header.value, rows, i.targets);
      }
    }
  }

  lemma HeaderIgnoresRows(i: Instruction, rows: seq<Row>, observedAt: Option<int>)
    ensures ReadHeader(i.(targets := rows), observedAt) == ReadHeader(i, observedAt)
  {
    hide Trim, Upper, Currency, Sha, Text, KindOf, ReadTimes, TimesRefusal, Numeric;
  }

  // ----- canonicalising again

  /** Reading a field back gives what was read. */
  lemma TextAgain(value: string, field: string, other: string)
    requires Text(value, field).Ok?
    ensures Text(Text(value, field).value, other) == Text(value, field)
    ensures Trim(Text(value, field).value) == Text(value, field).value
  {
    TrimOnce(value);
  }

  lemma UpperAgain(text: string)
    requires Trim(text) == text && Trimmed(text) && text != ""
    ensures Trim(Upper(text)) == Upper(text) != "" && Upper(Trim(Upper(text))) == Upper(text)
  {
    UpperTrimmed(text);
    UpperTwice(text);
  }

  lemma CurrencyAgain(value: string, field: string, other: string)
    requires Currency(value, field).Ok?
    ensures Currency(Currency(value, field).value, other) == Currency(value, field)
  {
    hide Upper, Trim, Trimmed, IsCurrency;
    TrimOnce(value);
    UpperAgain(Trim(value));
  }

  lemma InstrumentAgain(value: string)
    requires Instrument(value).Ok?
    ensures Instrument(Instrument(value).value) == Instrument(value)
  {
    hide Upper, Trim, Trimmed, IsInstrumentId;
    TrimOnce(value);
    UpperAgain(Trim(value));
  }

  lemma ShaAgain(value: string, field: string)
    requires Sha(value, field).Ok?
    ensures Sha(Sha(value, field).value, field) == Sha(value, field)
  {
    hide Trim, IsSha;
    TrimOnce(value);
  }

  lemma TruncateAgain(x: real)
    ensures Truncate(Truncate(x) as real) == Truncate(x)
  {}

  lemma KindAgain(text: string)
    requires KindOf(Trim(text)).Ok?
    ensures KindOf(Trim(KindText(KindOf(Trim(text)).value))) == KindOf(Trim(text))
  {
    TrimOnce(text);
  }

  lemma IdentityAgain(i: Instruction, c: Canonical)
    requires ReadIdentity(i) == Ok((c.header.kind, c.header.baseCurrency, c.header.valuationBasis,
                                    c.header.calendarId, c.header.calendarSha, c.header.policySha))
    ensures ReadIdentity(AsInstruction(c)) == ReadIdentity(i)
  {
    hide Trim, Currency, Text, Sha, KindOf, KindText;
    KindAgain(i.instructionType);
    CurrencyAgain(i.baseCurrency, "baseCurrency", "baseCurrency");
    TextAgain(i.valuationBasis, "valuationBasis", "valuationBasis");
    TextAgain(i.calendarId, "calendar.calendarId", "calendar.calendarId");
    ShaAgain(i.calendarSha, "calendar.versionSha256");
    ShaAgain(i.policySha, "policy.strategyPolicySha256");
  }

  lemma RiskAgain(i: Instruction, c: Canonical)
    requires ReadRisk(i) == Ok((c.header.maxGross, c.header.maxNet, c.header.fxMaxAge))
    ensures ReadRisk(AsInstruction(c)) == ReadRisk(i)
  {
    hide Truncate;
    TruncateAgain(i.fxMaxAgeSeconds.value);
  }

  lemma TimesAgain(i: Instruction, c: Canonical)
    requires ReadTimes(i.timing) == Ok(c.header.times)
    ensures ReadTimes(AsInstruction(c).timing) == ReadTimes(i.timing)
  {}

  lemma HeaderParts(i: Instruction, observedAt: Option<int>)
    requires ReadHeader(i, observedAt).Ok?
    ensures var h := ReadHeader(i, observedAt).value;
      && ReadIdentity(i) == Ok((h.kind, h.baseCurrency, h.valuationBasis, h.calendarId, h.calendarSha, h.policySha))
      && ReadTimes(i.timing) == Ok(h.times)
      && ReadRisk(i) == Ok((h.maxGross, h.maxNet, h.fxMaxAge))
      && TimesRefusal(h.times, None).None?
  {
    hide ReadIdentity, ReadTimes, ReadRisk;
  }

  /** For every observer the canonical header reads like the original one. */
  lemma HeaderAgain(i: Instruction, c: Canonical, observedAt: Option<int>, later: Option<int>)
    requires ReadHeader(i, observedAt) == Ok(c.header)
    ensures ReadHeader(AsInstruction(c), later) == ReadHeader(i, later)
    ensures ReadHeader(i, later).Ok? ==> ReadHeader(i, later).value == c.header
  {
    hide ReadIdentity, ReadTimes, ReadRisk, TimesRefusal, AsInstruction;
    HeaderParts(i, observedAt);
    IdentityAgain(i, c);
    TimesAgain(i, c);
    RiskAgain(i, c);
  }

  lemma FxAgain(h: Header, row: Row, copy: Row)
    requires ReadFx(h, row).Ok?
    requires var fx := ReadFx(h, row).value;
      copy.fxRateToBase == Number(fx.rate) && copy.fxAvailableAt == At(fx.availableAt) && copy.fxQuoteId == Some(fx.quoteId)
    ensures ReadFx(h, copy) == ReadFx(h, row)
  {
    hide Text, Trim;
    TextAgain(if row.fxQuoteId.Some? then row.fxQuoteId.value else "", "fxQuoteId", "fxQuoteId");
  }

  lemma ItemAgain(h: Header, instrument: string, row: Row)
    requires ReadItem(h, instrument, row).Ok?
    ensures ReadItem(h, instrument, AsRow(ReadItem(h, instrument, row).value)) == ReadItem(h, instrument, row)
  {
    hide Currency, ReadFx;
    CurrencyAgain(row.currency, "currency", "currency");
    var item := ReadItem(h, instrument, row).value;
    if item.fx.Some? {
      FxAgain(h, row, AsRow(item));
    }
  }

  lemma RowAgain(h: Header, row: Row)
    requires ReadRow(h, row).Ok?
    ensures ReadRow(h, AsRow(ReadRow(h, row).value)) == ReadRow(h, row)
  {
    hide Instrument, ReadItem, AsRow;
    InstrumentAgain(row.instrument);
    var instrument := Instrument(row.instrument).value;
    ItemAgain(h, instrument, row);
    ItemKeepsInstrument(h, instrument, row);
    AsRowKeepsInstrument(ReadItem(h, instrument, row).value);
  }

  lemma AsRowKeepsInstrument(item: Item)
    ensures AsRow(item).instrument == item.instrument
  {}

  /** Sorted items read back as themselves. */
  lemma ItemsAgain(h: Header, rows: seq<Row>, items: seq<Item>)
    requires Readable(h, rows) && multiset(items) == multiset(Items(h, rows))
    ensures Readable(h, AsRows(items)) && Items(h, AsRows(items)) == items
  {
    hide ReadRow, AsRow;
    forall k | 0 <= k < |items| ensures ReadRow(h, AsRow(items[k])) == Ok(items[k]) {
      assert items[k] in multiset(Items(h, rows));
      var j :| 0 <= j < |rows| && Items(h, rows)[j] == items[k];
      RowAgain(h, rows[j]);
    }
  }

  lemma ScanAgain(h: Header, rows: seq<Row>)
    requires Scan(h, rows).Ok?
    ensures var s := Scan(h, rows).value;
      Scan(h, AsRows(Sort(ItemLe, s.items))) == Ok(Scanned(Sort(ItemLe, s.items), s.gross, s.net))
  {
    hide Scan, ReadRow, Totals, AsRow, Sort;
    ScanExactlyWhen(h, rows);
    var items := Items(h, rows);
    TotalsItems(items);
    var sorted := Sort(ItemLe, items);
    ItemLeOrder();
    SortCorrect(ItemLe, items);
    ItemsAgain(h, rows, sorted);
    DistinctPermutation(items, sorted);
    ScanExactlyWhen(h, AsRows(sorted));
    TotalsPermutation(items, sorted);
    TotalsItems(sorted);
  }

  lemma SortAgain(h: Header, rows: seq<Row>)
    requires Scan(h, rows).Ok?
    ensures var sorted := Sort(ItemLe, Scan(h, rows).value.items);
      Sort(ItemLe, sorted) == sorted && (sorted == [] <==> Scan(h, rows).value.items == [])
  {
    hide Scan, ReadRow, Totals, Sort;
    ScanExactlyWhen(h, rows);
    var items := Items(h, rows);
    TotalsItems(items);
    ItemLeOrder();
    SortCorrect(ItemLe, items);
    DistinctPermutation(items, Sort(ItemLe, items));
    DistinctHasNoTies(Sort(ItemLe, items));
    SortSorted(ItemLe, Sort(ItemLe, items));
  }

  lemma SupersedesAgain(value: string)
    requires ReadSupersedes(value).Ok?
    ensures var s := ReadSupersedes(value).value;
      ReadSupersedes(if s.Some? then s.value else "") == Ok(s)
  {
    hide IsArtifactId;
    TrimOnce(value);
  }

  lemma FinishTargetsAgain(i: Instruction, h: Header, s: Scanned, sorted: seq<Item>, supersedes: Option<string>, c: Canonical)
    requires sorted == Sort(ItemLe, s.items) == Sort(ItemLe, sorted) && (sorted == [] <==> s.items == [])
    requires FinishTargets(i, h, s, supersedes) == Ok(c)
    ensures FinishTargets(AsInstruction(c), h, Scanned(sorted, s.gross, s.net), supersedes) == Ok(c)
  {
    hide Sort, Abs, AsRow, SemanticsOf, SemanticsText, OmittedOf, OmittedText, AsInstruction, Trim;
    SemanticsAgain(c.semantics);
    OmittedAgain(c.omitted);
    WeightFields(c);
    if SemanticsOf(i.targetSemantics).value == FULL_SNAPSHOT {
      assert c.semantics == Some(FULL_SNAPSHOT) && c.omitted == ZERO_TARGET;
    } else {
      assert c.semantics == Some(DELTA) && c.omitted == UNCHANGED;
    }
  }

  lemma WeightFields(c: Canonical)
    ensures var i := AsInstruction(c);
      && i.targetSemantics == SemanticsText(c.semantics) && i.omittedInstrumentPolicy == Some(OmittedText(c.omitted))
      && i.cashWeight == Maybe(c.cashWeight) && i.cashWeightDelta == Maybe(c.cashWeightDelta)
  {
    hide AsRow, SemanticsText, OmittedText, KindText;
  }

  lemma SemanticsAgain(s: Option<Semantics>)
    ensures SemanticsOf(SemanticsText(s)) == s
  {
    assert Trim("FULL_SNAPSHOT") == "FULL_SNAPSHOT" && Trim("DELTA") == "DELTA";
  }

  lemma OmittedAgain(o: OmittedPolicy)
    ensures OmittedOf(Some(OmittedText(o))) == Some(o)
  {
    assert Trim("ZERO_TARGET") == "ZERO_TARGET" && Trim("UNCHANGED") == "UNCHANGED";
  }

  lemma FinishCashOnlyAgain(i: Instruction, h: Header, s: Scanned, sorted: seq<Item>, supersedes: Option<string>, c: Canonical)
    requires sorted == Sort(ItemLe, s.items) == Sort(ItemLe, sorted) && (sorted == [] <==> s.items == [])
    requires FinishCashOnly(i, h, s, supersedes) == Ok(c)
    ensures FinishCashOnly(AsInstruction(c), h, Scanned(sorted, s.gross, s.net), supersedes) == Ok(c)
  {
    hide Sort, Abs, AsRow;
  }

  lemma FinishAgain(i: Instruction, h: Header, s: Scanned, sorted: seq<Item>, c: Canonical)
    requires sorted == Sort(ItemLe, s.items) == Sort(ItemLe, sorted) && (sorted == [] <==> s.items == [])
    requires Finish(i, h, s) == Ok(c)
    ensures Finish(AsInstruction(c), h, Scanned(sorted, s.gross, s.net)) == Ok(c)
  {
    hide Sort, ReadSupersedes, FinishTargets, FinishCashOnly;
    SupersedesAgain(i.supersedesArtifactId);
    var supersedes := ReadSupersedes(i.supersedesArtifactId).value;
    FinishKeeps(i, h, s, supersedes, c);
    match h.kind
    case TARGETS => FinishTargetsAgain(i, h, s, sorted, supersedes, c);
    case CASH_ONLY => FinishCashOnlyAgain(i, h, s, sorted, supersedes, c);
    case NO_SIGNAL =>
    case REVOKE =>
  }

  lemma FinishKeeps(i: Instruction, h: Header, s: Scanned, supersedes: Option<string>, c: Canonical)
    requires ReadSupersedes(i.supersedesArtifactId) == Ok(supersedes) && Finish(i, h, s) == Ok(c)
    ensures c.supersedes == supersedes && c.header == h && c.targets == Sort(ItemLe, s.items)
  {
    hide Sort, FinishTargets, FinishCashOnly, ReadSupersedes;
    TargetsKeep(i, h, s, supersedes);
    CashOnlyKeeps(i, h, s, supersedes);
  }

  lemma TargetsKeep(i: Instruction, h: Header, s: Scanned, supersedes: Option<string>)
    ensures var r := FinishTargets(i, h, s, supersedes);
      r.Ok? ==> r.value.supersedes == supersedes && r.value.header == h && r.value.targets == Sort(ItemLe, s.items)
  {
    hide Sort, SemanticsOf, OmittedOf, Abs;
  }

  lemma CashOnlyKeeps(i: Instruction, h: Header, s: Scanned, supersedes: Option<string>)
    ensures var r := FinishCashOnly(i, h, s, supersedes);
      r.Ok? ==> r.value.supersedes == supersedes && r.value.header == h && r.value.targets == Sort(ItemLe, s.items)
  {
    hide Sort, Abs;
  }

  /** Canonicalising is idempotent: for every observer, the canonical form reads exactly like the instruction
      it came from, and so yields itself again. */
  lemma CanonicalFormIsStable(i: Instruction, observedAt: Option<int>, later: Option<int>)
    requires Canonicalize(i, observedAt).Ok?
    ensures var c := Canonicalize(i, observedAt).value;
      && Canonicalize(AsInstruction(c), later) == Canonicalize(i, later)
      && (Canonicalize(i, later).Ok? ==> Canonicalize(i, later).value == c)
  {
    hide ReadHeader, Scan, Finish, Sort, AsInstruction;
    var c := Canonicalize(i, observedAt).value;
    var h := ReadHeader(i, observedAt).value;
    var s := Scan(h, i.targets).value;
    FinishKeepsHeader(i, h, s, c);
    HeaderAgain(i, c, observedAt, later);
    ScanAgain(h, i.targets);
    SortAgain(h, i.targets);
    FinishAgain(i, h, s, c.targets, c);
    CanonicalRows(c);
  }

  lemma FinishKeepsHeader(i: Instruction, h: Header, s: Scanned, c: Canonical)
    requires Finish(i, h, s) == Ok(c)
    ensures c.header == h && c.targets == Sort(ItemLe, s.items)
  {
    hide ReadSupersedes, Finish;
    FinishNeedsSupersedes(i, h, s);
    FinishKeeps(i, h, s, ReadSupersedes(i.supersedesArtifactId).value, c);
  }

  lemma FinishNeedsSupersedes(i: Instruction, h: Header, s: Scanned)
    requires Finish(i, h, s).Ok?
    ensures ReadSupersedes(i.supersedesArtifactId).Ok?
  {
    hide ReadSupersedes, FinishTargets, FinishCashOnly, Sort;
  }

  lemma CanonicalRows(c: Canonical)
    ensures AsInstruction(c).targets == AsRows(c.targets)
  {}

  /** The executable-at check answers alike on an instruction and on its canonical form. */
  lemma ExecutabilityIsStable(i: Instruction, observedAt: Option<int>, at: int)
    requires Canonicalize(i, observedAt).Ok?
    ensures ExecutableAt(AsInstruction(Canonicalize(i, observedAt).value), at) == ExecutableAt(i, at)
  {
    hide Canonicalize, AsInstruction;
    CanonicalFormIsStable(i, observedAt, Some(at));
  }

  /** When an acceptable instruction may be executed. */
  lemma ExecutableExactlyWhen(i: Instruction, at: int)
    requires Canonicalize(i, None).Ok?
    ensures var c := Canonicalize(i, None).value;
      ExecutableAt(i, at).Ok? <==>
        (c.header.kind == TARGETS || c.header.kind == CASH_ONLY)
        && c.header.times.produced <= at && c.header.times.tradeNotBefore <= at <= c.header.times.validUntil
  {
    hide Scan, Finish, ReadIdentity, ReadTimes, ReadRisk;
    var h := ReadHeader(i, None).value;
    FinishKeepsHeader(i, h, Scan(h, i.targets).value, Canonicalize(i, None).value);
    HeaderParts(i, None);
    ObserverRules(h.times, at);
  }

  lemma ObserverRules(t: Times, at: int)
    requires TimesRefusal(t, None).None?
    ensures TimesRefusal(t, Some(at)).None? <==> t.produced <= at <= t.validUntil
  {}

  // ----- what acceptance guarantees

  predicate Timely(h: Header, availableAt: int) {
    h.times.asOf - h.fxMaxAge * 1000000 <= availableAt <= h.times.asOf
  }

  ghost predicate SoundItem(h: Header, item: Item) {
    && -1.0 <= item.weight <= 1.0
    && (item.fx.None? <==> item.currency == h.baseCurrency)
    && (item.fx.Some? ==> item.fx.value.rate > 0.0 && Timely(h, item.fx.value.availableAt))
  }

  predicate WithinRisk(h: Header, s: Scanned) {
    s.gross <= h.maxGross + TOLERANCE && Abs(s.net) <= h.maxNet + TOLERANCE
  }

  lemma ReadRowIsSound(h: Header, row: Row)
    requires ReadRow(h, row).Ok?
    ensures SoundItem(h, ReadRow(h, row).value)
  {
    hide Instrument, Currency, Text;
  }

  /** An accepted instruction names each instrument once, in order, with foreign positions valued by evidence
      that is neither stale nor later than the as-of time; the exposures it reports are those of its targets,
      and a full snapshot keeps them within the risk limits. */
  lemma AcceptedIsSound(i: Instruction, observedAt: Option<int>)
    requires Canonicalize(i, observedAt).Ok?
    ensures var c := Canonicalize(i, observedAt).value;
      && DistinctInstruments(c.targets) && Sorted(ItemLe, c.targets)
      && (forall k :: 0 <= k < |c.targets| ==> SoundItem(c.header, c.targets[k]))
      && c.exposure == (if c.semantics == Some(DELTA) then DeltaExposure(Totals(c.targets)) else FullExposure(Totals(c.targets)))
      && (c.header.kind == TARGETS && c.semantics == Some(FULL_SNAPSHOT) ==> WithinRisk(c.header, Totals(c.targets)))
  {
    hide ReadHeader, Scan, Finish, Totals, ReadRow, Sort, SoundItem;
    var c := Canonicalize(i, observedAt).value;
    var h := ReadHeader(i, observedAt).value;
    var s := Scan(h, i.targets).value;
    FinishKeepsHeader(i, h, s, c);
    FinishExposure(i, h, s, c);
    ScanExactlyWhen(h, i.targets);
    var items := Items(h, i.targets);
    TotalsItems(items);
    ItemLeOrder();
    SortCorrect(ItemLe, items);
    DistinctPermutation(items, c.targets);
    TotalsPermutation(items, c.targets);
    forall k | 0 <= k < |c.targets| ensures SoundItem(c.header, c.targets[k]) {
      assert c.targets[k] in multiset(items);
      var j :| 0 <= j < |i.targets| && items[j] == c.targets[k];
      ReadRowIsSound(h, i.targets[j]);
    }
  }

  lemma FinishExposure(i: Instruction, h: Header, s: Scanned, c: Canonical)
    requires Finish(i, h, s) == Ok(c)
    ensures c.exposure == if c.semantics == Some(DELTA) then DeltaExposure(s) else FullExposure(s)
    ensures c.header.kind == TARGETS && c.semantics == Some(FULL_SNAPSHOT) ==>
              WithinRisk(h, s)
  {
    hide Sort, SemanticsOf, OmittedOf, Abs, ReadSupersedes;
  }
}
