/** What an evaluation reports, read off the rows it was given. */
module FoldReport {
  import opened Months
  import opened Reals
  import opened Results
  import opened TrainSelection

  predicate IsFor(row: Row, symbol: nat, candidate: nat, month: Month) {
    row.symbol == symbol && row.candidate == candidate && row.start == month
  }

  /** The first row of a candidate in a month, or that there is none. */
  ghost predicate FirstFor(rows: seq<Row>, symbol: nat, candidate: nat, month: Month, r: Option<Row>) {
    match r
    case None => forall i :: 0 <= i < |rows| ==> !IsFor(rows[i], symbol, candidate, month)
    case Some(row) =>
      exists i :: 0 <= i < |rows| && rows[i] == row && IsFor(row, symbol, candidate, month)
                  && forall j :: 0 <= j < i ==> !IsFor(rows[j], symbol, candidate, month)
  }

  /** One row of the candidate for each train month, oldest first. */
  ghost predicate Trained(rows: seq<Row>, symbol: nat, o: Options, test: Month, candidate: nat, train: seq<Row>) {
    |train| == o.trainMonths > 0
    && forall k :: 0 <= k < |train| ==>
         FirstFor(rows, symbol, candidate, FromIndex(test.Index() - |train| + k), Some(train[k]))
  }

  function GrowthTo(train: seq<Row>, n: nat): real
    requires n <= |train|
  {
    if n == 0 then 1.0 else (1.0 + train[n - 1].returnRatio) * GrowthTo(train, n - 1)
  }

  function TradesTo(train: seq<Row>, n: nat): real
    requires n <= |train|
  {
    if n == 0 then 0.0 else TradesTo(train, n - 1) + train[n - 1].tradeCount
  }

  function WeightedTo(train: seq<Row>, n: nat): real
    requires n <= |train|
  {
    if n == 0 then 0.0 else WeightedTo(train, n - 1) + train[n - 1].expectancy * train[n - 1].tradeCount
  }

  /** The evidence of some train rows: what each number is of them. */
  ghost predicate IsEvidence(e: Evidence, train: seq<Row>) {
    && train != [] && e.rows == train
    && 1.0 + e.compounded == GrowthTo(train, |train|)
    && e.positiveMonths == |set i | 0 <= i < |train| && train[i].returnRatio > 0.0|
    && e.positiveRatio * |train| as real == e.positiveMonths as real
    && e.totalTrades == TradesTo(train, |train|)
    && (e.totalTrades > 0.0 ==> e.expectancy * e.totalTrades == WeightedTo(train, |train|))
    && (e.totalTrades <= 0.0 ==> e.expectancy == 0.0)
    && (forall i :: 0 <= i < |train| ==> train[i].drawdown <= e.worstDrawdown)
    && (exists i :: 0 <= i < |train| && train[i].drawdown == e.worstDrawdown)
    && e.score * (1.0 + e.worstDrawdown) == e.compounded * e.positiveRatio + e.expectancy
  }

  /** Gained, in at least half of the months, at a positive expectancy, on enough trades. */
  predicate Gated(e: Evidence, o: Options) {
    && e.compounded > 0.0 && 2 * e.positiveMonths >= o.trainMonths
    && e.expectancy > 0.0 && e.totalTrades >= o.minTrades as real
  }

  ghost predicate Eligible(rows: seq<Row>, symbol: nat, o: Options, test: Month, candidate: nat, e: Evidence) {
    Trained(rows, symbol, o, test, candidate, e.rows) && IsEvidence(e, e.rows) && Gated(e, o)
  }

  predicate Better(score: real, candidate: nat, thanScore: real, thanCandidate: nat) {
    score > thanScore || (score == thanScore && candidate < thanCandidate)
  }

  /** The selections are the best eligible candidates, in order, each with its own row of the test month. */
  ghost predicate SelectsTheBest(fold: Fold, rows: seq<Row>, symbol: nat, o: Options) {
    var n, test := |fold.selections|, fold.testMonth;
    && n <= o.topK
    && (forall i :: 0 <= i < n ==>
          var s := fold.selections[i];
          && s.rank == i + 1 && s.score == s.evidence.score
          && Eligible(rows, symbol, o, test, s.candidate, s.evidence)
          && FirstFor(rows, symbol, s.candidate, test, s.testResult))
    && (forall i, j :: 0 <= i < j < n ==>
          Better(fold.selections[i].score, fold.selections[i].candidate,
                 fold.selections[j].score, fold.selections[j].candidate))
    && (forall candidate, e :: Eligible(rows, symbol, o, test, candidate, e) ==>
          SelectedOrBeaten(fold, candidate, e, o.topK))
  }

  /** A candidate is selected with this evidence, or there are as many selections as may be and each is better. */
  ghost predicate SelectedOrBeaten(fold: Fold, candidate: nat, e: Evidence, topK: int) {
    || (exists i :: 0 <= i < |fold.selections|
                    && fold.selections[i].candidate == candidate && fold.selections[i].evidence == e)
    || (|fold.selections| == topK
        && forall i :: 0 <= i < |fold.selections| ==>
             Better(fold.selections[i].score, fold.selections[i].candidate, e.score, candidate))
  }

  /** What a row of the test month pays; a missing one pays nothing. */
  function Paid(r: Option<Row>): real {
    match r
    case None => 0.0
    case Some(row) => row.returnRatio
  }

  function PaidTo(selections: seq<Selection>, n: nat): real
    requires n <= |selections|
  {
    if n == 0 then 0.0 else PaidTo(selections, n - 1) + Paid(selections[n - 1].testResult)
  }

  /** The returns are those of the test month: the first selection's, and the mean of all. */
  ghost predicate PaysTestReturns(fold: Fold) {
    var n := |fold.selections|;
    && fold.topOne == (if n == 0 then 0.0 else Paid(fold.selections[0].testResult))
    && (if n == 0 then fold.equalWeight == 0.0
        else fold.equalWeight * n as real == PaidTo(fold.selections, n))
  }

  /** Whether the test month had rows at all, whether anything was selected, and how many selections have their row. */
  ghost predicate StatusFits(fold: Fold, rows: seq<Row>, symbol: nat) {
    var n := |fold.selections|;
    var any := exists i :: 0 <= i < |rows| && rows[i].symbol == symbol && rows[i].start == fold.testMonth;
    fold.status ==
    if !any then Unavailable
    else if n == 0 then Cash
    else if forall i :: 0 <= i < n ==> fold.selections[i].testResult.Some? then Selected
    else if forall i :: 0 <= i < n ==> fold.selections[i].testResult.None? then Unavailable
    else PartialUnavailable
  }

  // ---------------------------------------------------------------- rows

  lemma {:induction false} FirstOfMatched(rows: seq<Row>, symbol: nat, candidate: nat, month: Month)
    ensures FirstFor(rows, symbol, candidate, month, FirstMatch(Matched(rows, symbol), candidate, month))
  {
    if rows == [] {
    } else {
      var n := |rows| - 1;
      FirstOfMatched(rows[..n], symbol, candidate, month);
      var before := Matched(rows[..n], symbol);
      FirstMatchMore(before, rows[n], candidate, month);
      assert before + [] == before;
      hide FirstFor, FirstMatch;
      FirstForMore(rows, symbol, candidate, month, FirstMatch(before, candidate, month));
    }
  }

  lemma FirstMatchMore(rows: seq<Row>, row: Row, candidate: nat, month: Month)
    ensures FirstMatch(rows + [row], candidate, month) ==
            if FirstMatch(rows, candidate, month).None? && Same(row, candidate, month) then Some(row)
            else FirstMatch(rows, candidate, month)
  {
    assert (rows + [row])[..|rows|] == rows;
  }

  lemma FirstForMore(rows: seq<Row>, symbol: nat, candidate: nat, month: Month, r: Option<Row>)
    requires rows != [] && FirstFor(rows[..|rows| - 1], symbol, candidate, month, r)
    ensures var last := rows[|rows| - 1];
            FirstFor(rows, symbol, candidate, month,
                     if r.None? && IsFor(last, symbol, candidate, month) then Some(last) else r)
  {
    var n := |rows| - 1;
    assert forall i :: 0 <= i < n ==> rows[..n][i] == rows[i];
    if r.Some? {
      var i :| 0 <= i < n && rows[..n][i] == r.value
               && forall j :: 0 <= j < i ==> !IsFor(rows[..n][j], symbol, candidate, month);
      assert rows[i] == r.value;
    }
  }

  /** A candidate has one first row. */
  lemma FirstForIsOne(rows: seq<Row>, symbol: nat, candidate: nat, month: Month, a: Option<Row>, b: Option<Row>)
    requires FirstFor(rows, symbol, candidate, month, a) && FirstFor(rows, symbol, candidate, month, b)
    ensures a == b
  {
    if a.Some? && b.Some? {
      var i :| 0 <= i < |rows| && rows[i] == a.value
               && forall j :: 0 <= j < i ==> !IsFor(rows[j], symbol, candidate, month);
      var k :| 0 <= k < |rows| && rows[k] == b.value
               && forall j :: 0 <= j < k ==> !IsFor(rows[j], symbol, candidate, month);
      assert i == k;
    }
  }

  lemma CellIsFirst(rows: seq<Row>, symbol: nat, candidate: nat, month: Month)
    ensures FirstFor(rows, symbol, candidate, month,
                     Cell(IndexOf(FirstOfEach(Matched(rows, symbol))), candidate, month))
  {
    hide FirstFor, FirstMatch, Cell, IndexOf;
    CellIsFirstMatch(Matched(rows, symbol), candidate, month);
    FirstOfMatched(rows, symbol, candidate, month);
  }

  /** The result looked up among the test month's rows is the first row of the candidate in that month. */
  lemma ResultIsFirst(rows: seq<Row>, symbol: nat, candidate: nat, month: Month)
    ensures FirstFor(rows, symbol, candidate, month,
                     LastMatch(TestRows(IndexOf(FirstOfEach(Matched(rows, symbol))), month), candidate, month))
  {
    hide FirstFor, FirstMatch, LastMatch, FirstOfEach, RowsIn, TestRows, IndexOf;
    var matched := Matched(rows, symbol);
    TestRowsAreTheMonth(FirstOfEach(matched), month);
    UniqueThenMonths(matched, {month});
    LastOfUniqueIsFirst(RowsIn(matched, {month}), candidate, month);
    FirstMatchSeesOneMonth(matched, {month}, candidate, month);
    FirstOfMatched(rows, symbol, candidate, month);
  }

  lemma {:induction false} UniqueIsEmptyIff(rows: seq<Row>)
    ensures FirstOfEach(rows) == [] <==> rows == []
  {
    if rows != [] {
      UniqueIsEmptyIff(rows[..|rows| - 1]);
    }
  }

  lemma {:induction false} MonthIsEmptyIff(rows: seq<Row>, symbol: nat, month: Month)
    ensures RowsIn(Matched(rows, symbol), {month}) == [] <==>
            forall i :: 0 <= i < |rows| ==> !(rows[i].symbol == symbol && rows[i].start == month)
  {
    if rows == [] {
    } else {
      var n := |rows| - 1;
      MonthIsEmptyIff(rows[..n], symbol, month);
      var before := Matched(rows[..n], symbol);
      assert (before + [rows[n]])[..|before|] == before && before + [] == before;
    }
  }

  lemma TestRowsEmptyIff(rows: seq<Row>, symbol: nat, month: Month)
    ensures TestRows(IndexOf(FirstOfEach(Matched(rows, symbol))), month) == [] <==>
            forall i :: 0 <= i < |rows| ==> !(rows[i].symbol == symbol && rows[i].start == month)
  {
    hide FirstOfEach, RowsIn, TestRows, IndexOf, Matched;
    var matched := Matched(rows, symbol);
    TestRowsAreTheMonth(FirstOfEach(matched), month);
    UniqueThenMonths(matched, {month});
    UniqueIsEmptyIff(RowsIn(matched, {month}));
    MonthIsEmptyIff(rows, symbol, month);
  }

  // ---------------------------------------------------------------- evidence

  lemma {:induction false} FoldsOfRows(train: seq<Row>, n: nat)
    requires n <= |train|
    ensures Growth(Field(train[..n], (r: Row) => r.returnRatio)) == GrowthTo(train, n)
    ensures Sum(Field(train[..n], (r: Row) => r.tradeCount)) == TradesTo(train, n)
    ensures Sum(Field(train[..n], (r: Row) => r.expectancy * r.tradeCount)) == WeightedTo(train, n)
  {
    if n == 0 {
    } else {
      FoldsOfRows(train, n - 1);
      FieldAppend(train, n, (r: Row) => r.returnRatio);
      FieldAppend(train, n, (r: Row) => r.tradeCount);
      FieldAppend(train, n, (r: Row) => r.expectancy * r.tradeCount);
      GrowthAppend(Field(train[..n - 1], (r: Row) => r.returnRatio), train[n - 1].returnRatio);
      SumAppend(Field(train[..n - 1], (r: Row) => r.tradeCount), train[n - 1].tradeCount);
      SumAppend(Field(train[..n - 1], (r: Row) => r.expectancy * r.tradeCount),
                train[n - 1].expectancy * train[n - 1].tradeCount);
      hide Growth, Sum, Field;
    }
  }

  lemma FieldAppend(train: seq<Row>, n: nat, field: Row -> real)
    requires 0 < n <= |train|
    ensures Field(train[..n], field) == Field(train[..n - 1], field) + [field(train[n - 1])]
  {
  }

  lemma GrowthAppend(values: seq<real>, x: real)
    ensures Growth(values + [x]) == Growth(values) * (1.0 + x)
  {
    assert (values + [x])[..|values|] == values;
  }

  lemma {:induction false} PositiveAppend(values: seq<real>, x: real)
    ensures PositiveCount(values + [x]) == PositiveCount(values) + if x > 0.0 then 1 else 0
  {
    if values == [] {
      assert [] + [x] == [x] && [x][1..] == [];
    } else {
      assert (values + [x])[1..] == values[1..] + [x];
      PositiveAppend(values[1..], x);
    }
  }

  function Gainers(values: seq<real>, n: nat): set<int>
    requires n <= |values|
  {
    set i | 0 <= i < n && values[i] > 0.0
  }

  lemma {:induction false} PositiveCountIs(values: seq<real>, n: nat)
    requires n <= |values|
    ensures PositiveCount(values[..n]) == |Gainers(values, n)|
  {
    if n == 0 {
      assert Gainers(values, n) == {};
    } else {
      PositiveCountIs(values, n - 1);
      PositiveAppend(values[..n - 1], values[n - 1]);
      assert values[..n] == values[..n - 1] + [values[n - 1]];
      assert Gainers(values, n) == Gainers(values, n - 1) + if values[n - 1] > 0.0 then {n - 1} else {};
    }
  }

  lemma DivideBack(x: real, d: real)
    requires d != 0.0
    ensures x / d * d == x
  {
  }

  lemma EvidenceIs(train: seq<Row>)
    requires train != [] && AllValid(train)
    ensures IsEvidence(EvidenceOf(train), train)
  {
    hide EvidenceOf, Growth, Sum, MaxOf, PositiveCount, GrowthTo, TradesTo, WeightedTo, AllValid, Score, Share;
    var e := EvidenceOf(train);
    assert train[..|train|] == train;
    FoldsOfRows(train, |train|);
    EvidenceNumbers(train);
    PositivesAre(train);
    WorstIs(train);
    DivideBack(e.compounded * e.positiveRatio + e.expectancy, 1.0 + e.worstDrawdown);
    if e.totalTrades > 0.0 {
      DivideBack(WeightedTo(train, |train|), e.totalTrades);
    }
  }

  lemma EvidenceNumbers(train: seq<Row>)
    requires train != [] && AllValid(train)
    ensures var e := EvidenceOf(train);
            var gains := Field(train, (r: Row) => r.returnRatio);
            var weighted := Sum(Field(train, (r: Row) => r.expectancy * r.tradeCount));
            && e.compounded == Growth(gains) - 1.0
            && e.positiveMonths == PositiveCount(gains)
            && e.positiveRatio * |train| as real == PositiveCount(gains) as real
            && e.totalTrades == Sum(Field(train, (r: Row) => r.tradeCount))
            && e.expectancy == (if e.totalTrades > 0.0 then weighted / e.totalTrades else 0.0)
            && e.worstDrawdown == MaxOf(Field(train, (r: Row) => r.drawdown))
            && e.worstDrawdown >= 0.0
            && e.score == (e.compounded * e.positiveRatio + e.expectancy) / (1.0 + e.worstDrawdown)
  {
    hide Growth, Sum, PositiveCount, MaxOf, Field, Share, Score, AllValid;
    EvidenceParts(train);
    FieldLength(train);
    ScoreIs(EvidenceOf(train));
    ShareIs(PositiveCount(Field(train, (r: Row) => r.returnRatio)), |train|);
  }

  lemma FieldLength(train: seq<Row>)
    ensures |Field(train, (r: Row) => r.returnRatio)| == |train| == |Field(train, (r: Row) => r.drawdown)|
  {
  }

  lemma ScoreIs(e: Evidence)
    ensures e.worstDrawdown >= 0.0 ==>
              Score(e.compounded, e.positiveRatio, e.expectancy, e.worstDrawdown) ==
              (e.compounded * e.positiveRatio + e.expectancy) / (1.0 + e.worstDrawdown)
  {
  }

  lemma ShareIs(part: nat, whole: nat)
    requires whole > 0
    ensures Share(part, whole) * whole as real == part as real
  {
    DivideBack(part as real, whole as real);
  }

  lemma PositivesAre(train: seq<Row>)
    ensures PositiveCount(Field(train, (r: Row) => r.returnRatio)) ==
            |set i | 0 <= i < |train| && train[i].returnRatio > 0.0|
  {
    var gains := Field(train, (r: Row) => r.returnRatio);
    PositiveCountIs(gains, |gains|);
    assert gains[..|gains|] == gains;
    assert Gainers(gains, |gains|) == (set i | 0 <= i < |train| && train[i].returnRatio > 0.0);
  }

  lemma WorstIs(train: seq<Row>)
    requires train != []
    ensures var worst := MaxOf(Field(train, (r: Row) => r.drawdown));
            && (forall i :: 0 <= i < |train| ==> train[i].drawdown <= worst)
            && exists i :: 0 <= i < |train| && train[i].drawdown == worst
  {
    hide MaxOf;
    var falls := Field(train, (r: Row) => r.drawdown);
    assert forall i :: 0 <= i < |train| ==> falls[i] == train[i].drawdown;
    var worst :| 0 <= worst < |falls| && falls[worst] == MaxOf(falls);
    assert train[worst].drawdown == falls[worst];
  }

  lemma CancelDivisor(a: real, b: real, d: real)
    requires d != 0.0 && a * d == b * d
    ensures a == b
  {
    assert (a - b) * d == 0.0;
  }

  /** Train rows have one evidence. */
  lemma EvidenceIsOne(a: Evidence, b: Evidence, train: seq<Row>)
    requires IsEvidence(a, train) && IsEvidence(b, train) && AllValid(train)
    ensures a == b
  {
    hide IsEvidence, AllValid;
    SumsAreOne(a, b, train);
    WorstIsOne(a, b, train);
    RatiosAreOne(a, b, train);
    ScoreIsScaled(a, train);
    ScoreIsScaled(b, train);
    ScoreIsOne(a, b);
  }

  lemma SumsAreOne(a: Evidence, b: Evidence, train: seq<Row>)
    requires IsEvidence(a, train) && IsEvidence(b, train)
    ensures a.rows == b.rows && a.compounded == b.compounded && a.totalTrades == b.totalTrades
    ensures a.positiveMonths == b.positiveMonths
  {
    hide GrowthTo, TradesTo, WeightedTo;
  }

  lemma WorstIsOne(a: Evidence, b: Evidence, train: seq<Row>)
    requires IsEvidence(a, train) && IsEvidence(b, train) && AllValid(train)
    ensures a.worstDrawdown == b.worstDrawdown >= 0.0
  {
    hide GrowthTo, TradesTo, WeightedTo;
    var i :| 0 <= i < |train| && train[i].drawdown == a.worstDrawdown;
    var j :| 0 <= j < |train| && train[j].drawdown == b.worstDrawdown;
  }

  lemma RatiosAreOne(a: Evidence, b: Evidence, train: seq<Row>)
    requires IsEvidence(a, train) && IsEvidence(b, train)
    requires a.positiveMonths == b.positiveMonths && a.totalTrades == b.totalTrades
    ensures a.positiveRatio == b.positiveRatio && a.expectancy == b.expectancy
  {
    hide GrowthTo, TradesTo, WeightedTo;
    CancelDivisor(a.positiveRatio, b.positiveRatio, |train| as real);
    if a.totalTrades > 0.0 {
      CancelDivisor(a.expectancy, b.expectancy, a.totalTrades);
    }
  }

  lemma ScoreIsScaled(e: Evidence, train: seq<Row>)
    requires IsEvidence(e, train)
    ensures e.score * (1.0 + e.worstDrawdown) == e.compounded * e.positiveRatio + e.expectancy
  {
    hide GrowthTo, TradesTo, WeightedTo;
  }

  lemma ScoreIsOne(a: Evidence, b: Evidence)
    requires a.compounded == b.compounded && a.positiveRatio == b.positiveRatio && a.expectancy == b.expectancy
    requires a.worstDrawdown == b.worstDrawdown >= 0.0
    requires a.score * (1.0 + a.worstDrawdown) == a.compounded * a.positiveRatio + a.expectancy
    requires b.score * (1.0 + b.worstDrawdown) == b.compounded * b.positiveRatio + b.expectancy
    ensures a.score == b.score
  {
    CancelDivisor(a.score, b.score, 1.0 + a.worstDrawdown);
  }

  // ---------------------------------------------------------------- who is eligible

  lemma TrainRowsAre(rows: seq<Row>, symbol: nat, o: Options, test: Month, candidate: nat)
    requires o.trainMonths > 0
    ensures var index, train := IndexOf(FirstOfEach(Matched(rows, symbol))), PriorMonths(test, o.trainMonths);
            && (Complete(index, train, candidate) ==>
                  Trained(rows, symbol, o, test, candidate, RowsOf(index, train, candidate)))
            && forall t :: Trained(rows, symbol, o, test, candidate, t) ==>
                 Complete(index, train, candidate) && RowsOf(index, train, candidate) == t
  {
    hide FirstFor, Cell, IndexOf, FirstOfEach, Matched;
    var index, train := IndexOf(FirstOfEach(Matched(rows, symbol))), PriorMonths(test, o.trainMonths);
    forall k | 0 <= k < |train|
      ensures FirstFor(rows, symbol, candidate, train[k], Cell(index, candidate, train[k]))
    {
      CellIsFirst(rows, symbol, candidate, train[k]);
    }
    forall t | Trained(rows, symbol, o, test, candidate, t)
      ensures Complete(index, train, candidate) && RowsOf(index, train, candidate) == t
    {
      forall k | 0 <= k < |train|
        ensures Cell(index, candidate, train[k]) == Some(t[k])
      {
        assert FirstFor(rows, symbol, candidate, FromIndex(test.Index() - |t| + k), Some(t[k]));
        FirstForIsOne(rows, symbol, candidate, train[k], Cell(index, candidate, train[k]), Some(t[k]));
      }
    }
  }

  /** A candidate has an entry exactly when it is eligible, and the entry carries its evidence. */
  lemma EntryIffEligible(rows: seq<Row>, symbol: nat, o: Options, test: Month, candidate: nat)
    requires GoodOptions(o) && AllValid(Matched(rows, symbol))
    ensures var index, train := IndexOf(FirstOfEach(Matched(rows, symbol))), PriorMonths(test, o.trainMonths);
            && train != [] && ValidIndex(index)
            && var entry := EntryOf(index, train, o.minTrades, candidate);
            && (entry.Some? ==> entry.value.score == entry.value.evidence.score
                                && Eligible(rows, symbol, o, test, candidate, entry.value.evidence))
            && forall e :: Eligible(rows, symbol, o, test, candidate, e) ==> entry == Some(Entry(e.score, candidate, e))
  {
    hide Trained, IsEvidence, EvidenceOf, ValidIndex, IndexOf, FirstOfEach, Matched, Complete, AllValid;
    var index, train := IndexOf(FirstOfEach(Matched(rows, symbol))), PriorMonths(test, o.trainMonths);
    IndexIsValid(Matched(rows, symbol));
    PriorMonthsIsNonEmpty(test, o.trainMonths);
    TrainRowsAre(rows, symbol, o, test, candidate);
    if Complete(index, train, candidate) {
      var t := RowsOf(index, train, candidate);
      ValidRowsOf(index, train, candidate);
      EvidenceIs(t);
      EvidenceKeepsRows(EvidenceOf(t), t);
      GateIs(EvidenceOf(t), o);
      forall e | Eligible(rows, symbol, o, test, candidate, e)
        ensures e == EvidenceOf(t)
      {
        EvidenceIsOne(e, EvidenceOf(t), t);
      }
    }
  }

  lemma EvidenceKeepsRows(e: Evidence, train: seq<Row>)
    requires IsEvidence(e, train)
    ensures e.rows == train
  {
  }

  lemma GateIs(e: Evidence, o: Options)
    requires GoodOptions(o)
    ensures PassesGate(e, o.trainMonths, o.minTrades) <==> Gated(e, o)
  {
  }

  // ---------------------------------------------------------------- the report

  lemma {:induction false} SumIsPaid(selections: seq<Selection>, n: nat)
    requires n <= |selections|
    ensures Sum(Gains(selections[..n])) == PaidTo(selections, n)
  {
    if n == 0 {
    } else {
      SumIsPaid(selections, n - 1);
      var last := selections[n - 1];
      assert selections[..n] == selections[..n - 1] + [last];
      GainsAppend(selections[..n - 1], last);
      SumAppend(Gains(selections[..n - 1]), Outcome(last));
      hide Sum, Gains;
    }
  }

  lemma {:induction false} MissingIs(selections: seq<Selection>)
    ensures Missing(selections) == 0 <==> forall i :: 0 <= i < |selections| ==> selections[i].testResult.Some?
    ensures Missing(selections) == |selections| <==>
            forall i :: 0 <= i < |selections| ==> selections[i].testResult.None?
  {
    if selections == [] {
    } else {
      MissingIs(selections[1..]);
      assert forall i :: 0 <= i < |selections[1..]| ==> selections[1..][i] == selections[i + 1];
      assert forall i :: 1 <= i < |selections| ==> selections[i] == selections[1..][i - 1];
    }
  }

  lemma FoldPays(ranking: seq<Entry>, testRows: seq<Row>, test: Month, train: seq<Month>, topK: nat)
    ensures PaysTestReturns(FoldWith(ranking, testRows, test, train, topK))
  {
    hide Selections, Sum;
    var selections := Selections(ranking, testRows, test, topK);
    SumIsPaid(selections, |selections|);
    assert selections[..|selections|] == selections;
    if selections != [] {
      DivideBack(Sum(Gains(selections)), |selections| as real);
    }
    hide PaidTo;
  }

  lemma FoldStatus(rows: seq<Row>, symbol: nat, ranking: seq<Entry>, test: Month, train: seq<Month>, topK: nat)
    ensures var index := IndexOf(FirstOfEach(Matched(rows, symbol)));
            StatusFits(FoldWith(ranking, TestRows(index, test), test, train, topK), rows, symbol)
  {
    hide Selections, TestRows, IndexOf, FirstOfEach, Matched, Missing, Sum, Gains;
    TestRowsEmptyIff(rows, symbol, test);
    MissingIs(Selections(ranking, TestRows(IndexOf(FirstOfEach(Matched(rows, symbol))), test), test, topK));
  }

  lemma FoldSelects(rows: seq<Row>, symbol: nat, o: Options, test: Month)
    requires GoodOptions(o) && AllValid(Matched(rows, symbol))
    requires ValidIndex(IndexOf(FirstOfEach(Matched(rows, symbol))))
    ensures SelectsTheBest(FoldOf(IndexOf(FirstOfEach(Matched(rows, symbol))), test, o), rows, symbol, o)
  {
    hide Eligible, FirstFor, ValidIndex, IndexOf, FirstOfEach, Matched, Ranking, EntryOf, LastMatch, TestRows, AllValid,
      StatusOf, Sum;
    var index, train := IndexOf(FirstOfEach(Matched(rows, symbol))), PriorMonths(test, o.trainMonths);
    PriorMonthsIsNonEmpty(test, o.trainMonths);
    var ranking, fold := Ranking(index, train, o.minTrades), FoldOf(index, test, o);
    RankingIsRight(index, train, o.minTrades);
    forall i | 0 <= i < |fold.selections|
      ensures && fold.selections[i].score == fold.selections[i].evidence.score
              && Eligible(rows, symbol, o, test, fold.selections[i].candidate, fold.selections[i].evidence)
              && FirstFor(rows, symbol, fold.selections[i].candidate, test, fold.selections[i].testResult)
    {
      assert ranking[i] in ranking;
      EntryIffEligible(rows, symbol, o, test, ranking[i].candidate);
      ResultIsFirst(rows, symbol, ranking[i].candidate, test);
    }
    forall candidate, e | Eligible(rows, symbol, o, test, candidate, e)
      ensures SelectedOrBeaten(fold, candidate, e, o.topK)
    {
      EntryIffEligible(rows, symbol, o, test, candidate);
      RankedIsSelectedOrBeaten(ranking, TestRows(index, test), test, train, o.topK, Entry(e.score, candidate, e));
    }
    hide SelectedOrBeaten, FoldOf;
  }

  lemma RankedIsSelectedOrBeaten(
      ranking: seq<Entry>, testRows: seq<Row>, test: Month, train: seq<Month>, topK: nat, x: Entry)
    requires Ranked(ranking) && x in ranking
    ensures SelectedOrBeaten(FoldWith(ranking, testRows, test, train, topK), x.candidate, x.evidence, topK)
            || x.score != x.evidence.score
  {
    hide LastMatch, StatusOf, Sum, Gains;
    var selections := FoldWith(ranking, testRows, test, train, topK).selections;
    var k :| 0 <= k < |ranking| && ranking[k] == x;
    if k < |selections| {
      assert selections[k].candidate == x.candidate && selections[k].evidence == x.evidence;
    }
  }

  /** Every fold of every evaluation: it selects the best of the candidates that are eligible on the train months alone,
      gives each the row of the test month it has, and reports what those rows paid. */
  lemma FoldIsReported(rows: seq<Row>, symbol: nat, o: Options, k: nat)
    requires var r := Evaluated(rows, symbol, o); r.Ok? && k < |r.value|
    ensures var fold := Evaluated(rows, symbol, o).value[k];
            && SelectsTheBest(fold, rows, symbol, o)
            && PaysTestReturns(fold)
            && StatusFits(fold, rows, symbol)
            && fold.trainMonths == PriorMonths(fold.testMonth, o.trainMonths)
  {
    hide SelectsTheBest, PaysTestReturns, StatusFits, AllValid, ValidIndex, FoldWith, Evaluated, IndexOf, FirstOfEach,
      Matched, Ranking, TestRows;
    FoldIsFoldOf(rows, symbol, o, k);
    var fold, index := Evaluated(rows, symbol, o).value[k], IndexOf(FirstOfEach(Matched(rows, symbol)));
    var train := PriorMonths(fold.testMonth, o.trainMonths);
    FoldSelects(rows, symbol, o, fold.testMonth);
    FoldPays(Ranking(index, train, o.minTrades), TestRows(index, fold.testMonth), fold.testMonth, train, o.topK);
    FoldStatus(rows, symbol, Ranking(index, train, o.minTrades), fold.testMonth, train, o.topK);
    FoldTrains(Ranking(index, train, o.minTrades), TestRows(index, fold.testMonth), fold.testMonth, train, o.topK);
  }

  lemma FoldTrains(ranking: seq<Entry>, testRows: seq<Row>, test: Month, train: seq<Month>, topK: nat)
    ensures FoldWith(ranking, testRows, test, train, topK).trainMonths == train
  {
  }

  // ---------------------------------------------------------------- which months are evaluated

  ghost predicate MonthsAscend(months: seq<Month>) {
    forall i, j :: 0 <= i < j < |months| ==> months[i].Index() < months[j].Index()
  }

  ghost predicate FoldsAscend(folds: seq<Fold>) {
    forall i, j :: 0 <= i < j < |folds| ==> folds[i].testMonth.Index() < folds[j].testMonth.Index()
  }

  lemma AscendOneMore(folds: seq<Fold>, fold: Fold)
    requires FoldsAscend(folds)
    requires forall i :: 0 <= i < |folds| ==> folds[i].testMonth.Index() < fold.testMonth.Index()
    ensures FoldsAscend(folds + [fold])
  {
  }

  ghost predicate Evaluates(folds: seq<Fold>, month: Month) {
    exists i :: 0 <= i < |folds| && folds[i].testMonth == month
  }

  lemma FoldsOfMonths(index: Index, months: seq<Month>, o: Options)
    requires GoodOptions(o) && ValidIndex(index) && MonthsAscend(months)
    ensures var folds := FoldsOf(index, months, o);
            && FoldsAscend(folds)
            && (forall i :: 0 <= i < |folds| ==> folds[i].testMonth in months && InWindow(folds[i].testMonth, o))
            && (forall month :: month in months && InWindow(month, o) ==> Evaluates(folds, month))
  {
    FoldsAreOfMonths(index, months, o);
    MonthsHaveFolds(index, months, o);
    hide FoldsOf, FoldsAscend, ValidIndex, InWindow, Evaluates;
  }

  lemma FoldsStep(index: Index, months: seq<Month>, o: Options)
    requires GoodOptions(o) && ValidIndex(index) && months != []
    ensures var n := |months| - 1;
            var before, last := FoldsOf(index, months[..n], o), FoldOf(index, months[n], o);
            && FoldsOf(index, months, o) == (if InWindow(months[n], o) then before + [last] else before)
            && last.testMonth == months[n]
  {
    hide ValidIndex, FoldOf, InWindow;
    FoldIsOf(index, months[|months| - 1], o);
    assert FoldsOf(index, months[..|months| - 1], o) + [] == FoldsOf(index, months[..|months| - 1], o);
  }

  lemma {:induction false} FoldsAreOfMonths(index: Index, months: seq<Month>, o: Options)
    requires GoodOptions(o) && ValidIndex(index) && MonthsAscend(months)
    ensures var folds := FoldsOf(index, months, o);
            && FoldsAscend(folds)
            && (forall i :: 0 <= i < |folds| ==> folds[i].testMonth in months && InWindow(folds[i].testMonth, o))
  {
    hide ValidIndex, FoldOf, InWindow;
    if months == [] {
    } else {
      var n := |months| - 1;
      FoldsAreOfMonths(index, months[..n], o);
      FoldsStep(index, months, o);
      var before, last := FoldsOf(index, months[..n], o), FoldOf(index, months[n], o);
      hide FoldsOf;
      forall i | 0 <= i < |before|
        ensures before[i].testMonth in months && before[i].testMonth.Index() < months[n].Index()
      {
        var k :| 0 <= k < n && months[..n][k] == before[i].testMonth;
      }
      AscendOneMore(before, last);
      hide FoldsAscend;
    }
  }

  lemma {:induction false} MonthsHaveFolds(index: Index, months: seq<Month>, o: Options)
    requires GoodOptions(o) && ValidIndex(index)
    ensures forall month :: month in months && InWindow(month, o) ==> Evaluates(FoldsOf(index, months, o), month)
  {
    hide ValidIndex, FoldOf, InWindow, Evaluates;
    if months == [] {
    } else {
      var n := |months| - 1;
      MonthsHaveFolds(index, months[..n], o);
      FoldsStep(index, months, o);
      OneMoreMonth(FoldsOf(index, months[..n], o), FoldOf(index, months[n], o));
      hide FoldsOf;
      forall month | month in months && InWindow(month, o)
        ensures Evaluates(FoldsOf(index, months, o), month)
      {
        assert month == months[n] || month in months[..n];
      }
    }
  }

  lemma OneMoreMonth(folds: seq<Fold>, fold: Fold)
    ensures forall month :: Evaluates(folds + [fold], month) <==> Evaluates(folds, month) || month == fold.testMonth
  {
    var more := folds + [fold];
    assert more[|folds|] == fold;
    forall month
      ensures Evaluates(more, month) <==> Evaluates(folds, month) || month == fold.testMonth
    {
      if i :| 0 <= i < |folds| && folds[i].testMonth == month {
        assert more[i].testMonth == month;
      }
    }
  }

  lemma FoldIsOf(index: Index, month: Month, o: Options)
    requires GoodOptions(o) && ValidIndex(index)
    ensures FoldOf(index, month, o).testMonth == month
  {
    hide ValidIndex, Ranking;
  }

  lemma {:induction false} FiledMonths(rows: seq<Row>, month: Month)
    ensures month in IndexOf(rows).byMonth <==> TestRows(IndexOf(rows), month) != []
  {
    if rows == [] {
    } else {
      FiledMonths(rows[..|rows| - 1], month);
    }
  }

  lemma MonthsOfRows(rows: seq<Row>, symbol: nat, month: Month)
    requires AllValid(rows) && month.Valid()
    ensures var months := MonthsOf(IndexOf(FirstOfEach(Matched(rows, symbol))));
            && MonthsAscend(months)
            && (month in months <==> exists i :: 0 <= i < |rows| && rows[i].symbol == symbol && rows[i].start == month)
  {
    hide FirstOfEach, Matched, IndexOf, TestRows;
    var index := IndexOf(FirstOfEach(Matched(rows, symbol)));
    var indices := Ascending(set m | m in index.byMonth && m.Index() >= 0 :: m.Index());
    FiledMonths(FirstOfEach(Matched(rows, symbol)), month);
    TestRowsEmptyIff(rows, symbol, month);
    if i :| 0 <= i < |rows| && rows[i].symbol == symbol && rows[i].start == month {
      assert ValidRow(rows[i]);
      assert month.Index() in indices;
      var k :| 0 <= k < |indices| && indices[k] == month.Index();
      IndexDetermines(month, FromIndex(indices[k]));
      assert MonthsOf(index)[k] == month;
    }
    if month in MonthsOf(index) {
      var k :| 0 <= k < |indices| && FromIndex(indices[k]) == month;
      assert indices[k] in indices;
      var m :| m in index.byMonth && m.Index() >= 0 && m.Index() == indices[k];
      FiledMonths(FirstOfEach(Matched(rows, symbol)), m);
      TestRowsEmptyIff(rows, symbol, m);
      var i :| 0 <= i < |rows| && rows[i].symbol == symbol && rows[i].start == m;
      assert ValidRow(rows[i]);
      IndexDetermines(m, month);
    }
  }

  /** There is one fold for each month of the window, in order: every month from start up to end when both are given,
      otherwise every month that has a row. */
  lemma FoldsCoverTheMonths(rows: seq<Row>, symbol: nat, o: Options, month: Month)
    requires IsKey(o.start) && IsKey(o.end) && Evaluated(rows, symbol, o).Ok? && month.Valid()
    ensures var folds := Evaluated(rows, symbol, o).value;
            && FoldsAscend(folds)
            && (Evaluates(folds, month) <==>
                && (o.start.Some? ==> month.Index() >= o.start.value.Index())
                && (o.end.Some? ==> month.Index() < o.end.value.Index())
                && ((o.start.Some? && o.end.Some?)
                    || exists i :: 0 <= i < |rows| && rows[i].symbol == symbol && rows[i].start == month))
  {
    hide AllValid, ValidIndex, FoldsOf, IndexOf, FirstOfEach, Matched, CandidateMonths, Consistent, MonthsAscend,
      InWindow;
    MatchedIsValid(rows, symbol);
    IndexIsValid(Matched(rows, symbol));
    var index := IndexOf(FirstOfEach(Matched(rows, symbol)));
    var months := CandidateMonths(index, o).value;
    WindowMonths(rows, symbol, o, month);
    FoldsOfMonths(index, months, o);
    hide Evaluated;
    assert Evaluates(FoldsOf(index, months, o), month) <==> month in months && InWindow(month, o);
  }

  lemma WindowMonths(rows: seq<Row>, symbol: nat, o: Options, month: Month)
    requires IsKey(o.start) && IsKey(o.end) && AllValid(rows) && month.Valid()
    requires CandidateMonths(IndexOf(FirstOfEach(Matched(rows, symbol))), o).Ok?
    ensures var months := CandidateMonths(IndexOf(FirstOfEach(Matched(rows, symbol))), o).value;
            && MonthsAscend(months)
            && ((month in months && InWindow(month, o)) <==>
                && (o.start.Some? ==> month.Index() >= o.start.value.Index())
                && (o.end.Some? ==> month.Index() < o.end.value.Index())
                && ((o.start.Some? && o.end.Some?)
                    || exists i :: 0 <= i < |rows| && rows[i].symbol == symbol && rows[i].start == month))
  {
    hide AllValid, IndexOf, FirstOfEach, Matched, MonthsOf, MonthsAscend, Stepped;
    MonthsOfRows(rows, symbol, month);
    if o.start.Some? && o.end.Some? && o.start.value.Index() < o.end.value.Index() {
      SteppedMonths(o.start.value, o.end.value.Index() - o.start.value.Index(), month);
    }
  }

  lemma SteppedAt(start: Month, count: nat, i: nat)
    requires i < count
    ensures Stepped(start, count)[i] == FromIndex(start.Index() + i)
  {
  }

  lemma SteppedMonths(start: Month, count: nat, month: Month)
    requires start.Valid() && month.Valid()
    ensures MonthsAscend(Stepped(start, count))
    ensures month in Stepped(start, count) <==> start.Index() <= month.Index() < start.Index() + count
  {
    var months := Stepped(start, count);
    forall i | 0 <= i < count
      ensures months[i].Valid() && months[i].Index() == start.Index() + i
    {
      SteppedAt(start, count, i);
    }
    if start.Index() <= month.Index() < start.Index() + count {
      var i := month.Index() - start.Index();
      IndexDetermines(month, months[i]);
    }
  }

  // ---------------------------------------------------------------- what is refused

  /** A row of one calendar month of the years 1 to 9999, with a return above -1, whole trades and a drawdown. */
  predicate RowFits(row: Row) {
    && 1 <= row.start.number <= 12 && 1 <= row.start.year <= 9999
    && (if row.start.number < 12 then row.end == Month(row.start.year, row.start.number + 1)
        else row.end == Month(row.start.year + 1, 1))
    && row.end.year <= 9999
    && -1.0 < row.returnRatio && 0.0 <= row.drawdown
    && 0.0 <= row.tradeCount && row.tradeCount.Floor as real == row.tradeCount
  }

  predicate OptionsFit(o: Options) {
    o.trainMonths >= 1 && o.topK >= 1 && o.minTrades >= 0
  }

  /** Two rows of the symbol for one candidate and month say different things. */
  ghost predicate Contradictory(rows: seq<Row>, symbol: nat) {
    exists i, j ::
      && 0 <= i < |rows| && 0 <= j < |rows| && rows[i].symbol == symbol && rows[j].symbol == symbol
      && rows[i].candidate == rows[j].candidate && rows[i].start == rows[j].start
      && rows[i].signature != rows[j].signature
  }

  lemma {:induction false} MatchedHolds(rows: seq<Row>, symbol: nat, row: Row)
    ensures row in Matched(rows, symbol) <==> row in rows && row.symbol == symbol
  {
    if rows == [] {
    } else {
      var n := |rows| - 1;
      MatchedHolds(rows[..n], symbol, row);
      assert rows == rows[..n] + [rows[n]];
    }
  }

  lemma ConsistentIff(rows: seq<Row>, symbol: nat)
    ensures Consistent(Matched(rows, symbol)) <==> !Contradictory(rows, symbol)
  {
    hide Matched;
    var matched := Matched(rows, symbol);
    if Contradictory(rows, symbol) {
      var i, j :| && 0 <= i < |rows| && 0 <= j < |rows| && rows[i].symbol == symbol && rows[j].symbol == symbol
                  && rows[i].candidate == rows[j].candidate && rows[i].start == rows[j].start
                  && rows[i].signature != rows[j].signature;
      MatchedHolds(rows, symbol, rows[i]);
      MatchedHolds(rows, symbol, rows[j]);
      var x :| 0 <= x < |matched| && matched[x] == rows[i];
      var y :| 0 <= y < |matched| && matched[y] == rows[j];
      if x < y {
        assert Same(matched[y], matched[x].candidate, matched[x].start);
      } else {
        assert Same(matched[x], matched[y].candidate, matched[y].start);
      }
      assert !Consistent(matched);
    }
    if !Consistent(matched) {
      var x, y :| 0 <= x < y < |matched| && Same(matched[y], matched[x].candidate, matched[x].start)
                  && matched[x].signature != matched[y].signature;
      MatchedHolds(rows, symbol, matched[x]);
      MatchedHolds(rows, symbol, matched[y]);
      var i :| 0 <= i < |rows| && rows[i] == matched[x];
      var j :| 0 <= j < |rows| && rows[j] == matched[y];
      assert Contradictory(rows, symbol);
    }
  }

  /** Options are looked at first, then every row, then contradictions among the symbol's rows, then the window: empty,
      or starting outside the calendar. Everything else is evaluated. */
  lemma RefusedIff(rows: seq<Row>, symbol: nat, o: Options)
    ensures var r, fits := Evaluated(rows, symbol, o), forall i :: 0 <= i < |rows| ==> RowFits(rows[i]);
            && (r == Err(BadOptions) <==> !OptionsFit(o))
            && (r == Err(InvalidRow) <==> OptionsFit(o) && !fits)
            && (r == Err(ConflictingDuplicate) <==> OptionsFit(o) && fits && Contradictory(rows, symbol))
            && (r == Err(BadCalendar(StartNotBeforeEnd)) <==>
                && OptionsFit(o) && fits && !Contradictory(rows, symbol)
                && o.start.Some? && o.end.Some? && o.start.value.Index() >= o.end.value.Index())
            && (r == Err(BadCalendar(NotADate)) <==>
                && OptionsFit(o) && fits && !Contradictory(rows, symbol)
                && o.start.Some? && o.end.Some? && o.start.value.Index() < o.end.value.Index()
                && !IsDate(o.start.value))
            && (r.Ok? <==>
                && OptionsFit(o) && fits && !Contradictory(rows, symbol)
                && (o.start.Some? && o.end.Some? ==>
                      o.start.value.Index() < o.end.value.Index() && IsDate(o.start.value)))
  {
    hide Contradictory, Consistent, Matched, FoldsOf, IndexOf, FirstOfEach, ValidIndex, MonthsOf;
    ConsistentIff(rows, symbol);
    forall i | 0 <= i < |rows|
      ensures ValidRow(rows[i]) <==> RowFits(rows[i])
    {
    }
    hide ValidRow, RowFits;
  }
}
