/** Walk-forward selection: candidates are ranked on the months before a test month and on nothing else. */
module TrainSelection {
  import opened Months
  import opened Reals
  import opened Results

  /** One result row. Candidates and symbols are numbered in the order of their names; `signature` stands for the
      whole row in canonical form. */
  datatype Row = Row(
    symbol: nat, candidate: nat, start: Month, end: Month,
    returnRatio: real, tradeCount: real, expectancy: real, drawdown: real, signature: nat)

  datatype Error = BadOptions | InvalidRow | ConflictingDuplicate | ConflictingBoundary | BadCalendar(CalendarError)

  /** Numbers in range and test bounds of exactly one calendar month. */
  predicate ValidRow(row: Row) {
    && IsDate(row.start) && row.end == NextMonth(row.start) && IsDate(row.end)
    && row.returnRatio > -1.0
    && row.tradeCount >= 0.0 && row.tradeCount == row.tradeCount.Floor as real
    && row.drawdown >= 0.0
  }

  predicate AllValid(rows: seq<Row>) {
    forall i :: 0 <= i < |rows| ==> ValidRow(rows[i])
  }

  predicate Same(row: Row, candidate: nat, month: Month) {
    row.candidate == candidate && row.start == month
  }

  // ---------------------------------------------------------------- one row per candidate and month

  /** The first row of a candidate in a month. */
  function FirstMatch(rows: seq<Row>, candidate: nat, month: Month): (r: Option<Row>)
    ensures r.Some? ==> r.value in rows && Same(r.value, candidate, month)
    ensures r.None? ==> forall i :: 0 <= i < |rows| ==> !Same(rows[i], candidate, month)
  {
    if rows == [] then None
    else
      var n := |rows| - 1;
      var before := FirstMatch(rows[..n], candidate, month);
      if before.Some? then before else if Same(rows[n], candidate, month) then Some(rows[n]) else None
  }

  /** The rows without the later ones of the same candidate and month. */
  function FirstOfEach(rows: seq<Row>): seq<Row> {
    if rows == [] then []
    else
      var n := |rows| - 1;
      var before := FirstOfEach(rows[..n]);
      if FirstMatch(rows[..n], rows[n].candidate, rows[n].start).Some? then before else before + [rows[n]]
  }

  /** Rows of the same candidate and month say the same. */
  ghost predicate Consistent(rows: seq<Row>) {
    forall i, j :: 0 <= i < j < |rows| && Same(rows[j], rows[i].candidate, rows[i].start) ==>
      rows[i].signature == rows[j].signature
  }

  method Deduplicate(rows: seq<Row>) returns (result: Result<seq<Row>, Error>)
    ensures result == if Consistent(rows) then Ok(FirstOfEach(rows)) else Err(ConflictingDuplicate)
  {
    hide FirstOfEach, FirstMatch, Consistent, Known, Held;
    var unique: seq<Row> := [];
    var signatures: map<(nat, Month), nat> := map[];
    NothingKnown(rows);
    for i := 0 to |rows|
      invariant unique == FirstOfEach(rows[..i])
      invariant Known(signatures, rows, i) && Held(signatures, rows, i)
    {
      var row := rows[i];
      assert rows[..i + 1][..i] == rows[..i] && rows[..i + 1][i] == row;
      FirstOfEachStep(rows[..i + 1]);
      KeyIsKnownIff(signatures, rows, i);
      if Key(row) in signatures {
        if signatures[Key(row)] != row.signature {
          SignatureConflict(signatures, rows, i);
          return Err(ConflictingDuplicate);
        }
        SameSignature(signatures, rows, i);
      } else {
        NewSignature(signatures, rows, i);
        unique := unique + [row];
        signatures := signatures[Key(row) := row.signature];
      }
    }
    assert rows[..|rows|] == rows;
    KnownIsConsistent(signatures, rows);
    result := Ok(unique);
  }

  function Key(row: Row): (nat, Month) {
    (row.candidate, row.start)
  }

  /** Every row before n has its signature kept under its key ... */
  ghost predicate Known(signatures: map<(nat, Month), nat>, rows: seq<Row>, n: nat) {
    forall i :: 0 <= i < n && i < |rows| ==> Key(rows[i]) in signatures && signatures[Key(rows[i])] == rows[i].signature
  }

  /** ... and every key comes from such a row. */
  ghost predicate Held(signatures: map<(nat, Month), nat>, rows: seq<Row>, n: nat) {
    forall key :: key in signatures ==> exists i :: 0 <= i < n && i < |rows| && Key(rows[i]) == key
  }

  lemma NothingKnown(rows: seq<Row>)
    ensures FirstOfEach(rows[..0]) == [] && Known(map[], rows, 0) && Held(map[], rows, 0)
  {
  }

  lemma FirstOfEachStep(rows: seq<Row>)
    requires rows != []
    ensures var n := |rows| - 1;
            FirstOfEach(rows)
            == FirstOfEach(rows[..n])
               + (if FirstMatch(rows[..n], rows[n].candidate, rows[n].start).Some? then [] else [rows[n]])
  {
  }

  lemma KeyIsKnownIff(signatures: map<(nat, Month), nat>, rows: seq<Row>, n: nat)
    requires n < |rows| && Known(signatures, rows, n) && Held(signatures, rows, n)
    ensures Key(rows[n]) in signatures <==> FirstMatch(rows[..n], rows[n].candidate, rows[n].start).Some?
  {
    hide FirstMatch;
    FirstMatchIff(rows[..n], rows[n].candidate, rows[n].start);
    if i :| 0 <= i < n && Same(rows[..n][i], rows[n].candidate, rows[n].start) {
      assert Key(rows[i]) in signatures;
    }
    if Key(rows[n]) in signatures {
      var i :| 0 <= i < n && Key(rows[i]) == Key(rows[n]);
      assert Same(rows[..n][i], rows[n].candidate, rows[n].start);
    }
  }

  lemma FirstMatchIff(rows: seq<Row>, candidate: nat, month: Month)
    ensures FirstMatch(rows, candidate, month).Some? <==> exists i :: 0 <= i < |rows| && Same(rows[i], candidate, month)
  {
  }

  lemma SignatureConflict(signatures: map<(nat, Month), nat>, rows: seq<Row>, n: nat)
    requires n < |rows| && Known(signatures, rows, n) && Held(signatures, rows, n)
    requires Key(rows[n]) in signatures && signatures[Key(rows[n])] != rows[n].signature
    ensures !Consistent(rows)
  {
    var i :| 0 <= i < n && Key(rows[i]) == Key(rows[n]);
    assert Same(rows[n], rows[i].candidate, rows[i].start);
  }

  lemma SameSignature(signatures: map<(nat, Month), nat>, rows: seq<Row>, n: nat)
    requires n < |rows| && Known(signatures, rows, n) && Held(signatures, rows, n)
    requires Key(rows[n]) in signatures && signatures[Key(rows[n])] == rows[n].signature
    ensures Known(signatures, rows, n + 1) && Held(signatures, rows, n + 1)
  {
  }

  lemma NewSignature(signatures: map<(nat, Month), nat>, rows: seq<Row>, n: nat)
    requires n < |rows| && Known(signatures, rows, n) && Held(signatures, rows, n)
    requires Key(rows[n]) !in signatures
    ensures var more := signatures[Key(rows[n]) := rows[n].signature];
            Known(more, rows, n + 1) && Held(more, rows, n + 1)
  {
  }

  lemma KnownIsConsistent(signatures: map<(nat, Month), nat>, rows: seq<Row>)
    requires Known(signatures, rows, |rows|)
    ensures Consistent(rows)
  {
    forall i, j | 0 <= i < j < |rows| && Same(rows[j], rows[i].candidate, rows[i].start)
      ensures rows[i].signature == rows[j].signature
    {
      assert Key(rows[i]) == Key(rows[j]);
    }
  }

  // ---------------------------------------------------------------- the index

  datatype Index = Index(byMonth: map<Month, seq<Row>>, byCandidate: map<nat, map<Month, Row>>)

  function TestRows(index: Index, month: Month): seq<Row> {
    if month in index.byMonth then index.byMonth[month] else []
  }

  function CandidateRows(index: Index, candidate: nat): map<Month, Row> {
    if candidate in index.byCandidate then index.byCandidate[candidate] else map[]
  }

  function Cell(index: Index, candidate: nat, month: Month): Option<Row> {
    var rows := CandidateRows(index, candidate);
    if month in rows then Some(rows[month]) else None
  }

  function Filed(index: Index, row: Row): Index {
    Index(index.byMonth[row.start := TestRows(index, row.start) + [row]],
          index.byCandidate[row.candidate := CandidateRows(index, row.candidate)[row.start := row]])
  }

  function IndexOf(rows: seq<Row>): Index {
    if rows == [] then Index(map[], map[]) else Filed(IndexOf(rows[..|rows| - 1]), rows[|rows| - 1])
  }

  /** Rows of one month have one pair of bounds. */
  ghost predicate BoundariesAgree(rows: seq<Row>) {
    forall i, j :: 0 <= i < j < |rows| && rows[i].start == rows[j].start ==> rows[i].end == rows[j].end
  }

  method IndexRows(rows: seq<Row>) returns (result: Result<Index, Error>)
    ensures result == if BoundariesAgree(rows) then Ok(IndexOf(rows)) else Err(ConflictingBoundary)
  {
    hide Filed;
    var index := Index(map[], map[]);
    var boundaries: map<Month, (Month, Month)> := map[];
    for i := 0 to |rows|
      invariant index == IndexOf(rows[..i])
      invariant forall j :: 0 <= j < i ==>
                  rows[j].start in boundaries && boundaries[rows[j].start] == (rows[j].start, rows[j].end)
      invariant forall month :: month in boundaries ==>
                  exists j :: 0 <= j < i && rows[j].start == month && boundaries[month] == (month, rows[j].end)
    {
      var row := rows[i];
      var boundary := (row.start, row.end);
      if row.start in boundaries && boundaries[row.start] != boundary {
        return Err(ConflictingBoundary);
      }
      boundaries := boundaries[row.start := boundary];
      assert rows[..i + 1][..i] == rows[..i];
      index := Filed(index, row);
    }
    assert rows[..|rows|] == rows;
    result := Ok(index);
  }

  /** Validated rows never disagree on a month's bounds. */
  lemma ValidBoundariesAgree(rows: seq<Row>)
    requires AllValid(rows)
    ensures BoundariesAgree(rows)
  {
  }

  function LastMatch(rows: seq<Row>, candidate: nat, month: Month): Option<Row> {
    if rows == [] then None
    else if Same(rows[|rows| - 1], candidate, month) then Some(rows[|rows| - 1])
    else LastMatch(rows[..|rows| - 1], candidate, month)
  }

  lemma {:induction false} CellIsLastMatch(rows: seq<Row>, candidate: nat, month: Month)
    ensures Cell(IndexOf(rows), candidate, month) == LastMatch(rows, candidate, month)
  {
    if rows == [] {
    } else {
      CellIsLastMatch(rows[..|rows| - 1], candidate, month);
    }
  }

  lemma {:induction false} LastOfUniqueIsFirst(rows: seq<Row>, candidate: nat, month: Month)
    ensures LastMatch(FirstOfEach(rows), candidate, month) == FirstMatch(rows, candidate, month)
  {
    if rows == [] {
    } else {
      var n := |rows| - 1;
      LastOfUniqueIsFirst(rows[..n], candidate, month);
      LastMatchAppend(FirstOfEach(rows[..n]), rows[n], candidate, month);
      FirstOfEachStep(rows);
      hide FirstOfEach, LastMatch;
    }
  }

  lemma LastMatchAppend(rows: seq<Row>, row: Row, candidate: nat, month: Month)
    ensures LastMatch(rows + [row], candidate, month)
         == if Same(row, candidate, month) then Some(row) else LastMatch(rows, candidate, month)
  {
    assert (rows + [row])[..|rows|] == rows;
  }

  /** Through deduplication and indexing, a cell holds the first row of its candidate and month. */
  lemma CellIsFirstMatch(rows: seq<Row>, candidate: nat, month: Month)
    ensures Cell(IndexOf(FirstOfEach(rows)), candidate, month) == FirstMatch(rows, candidate, month)
  {
    CellIsLastMatch(FirstOfEach(rows), candidate, month);
    LastOfUniqueIsFirst(rows, candidate, month);
  }

  /** The rows of some months, in order. */
  function RowsIn(rows: seq<Row>, months: set<Month>): seq<Row> {
    if rows == [] then []
    else
      var n := |rows| - 1;
      RowsIn(rows[..n], months) + (if rows[n].start in months then [rows[n]] else [])
  }

  lemma {:induction false} FirstMatchSeesOneMonth(rows: seq<Row>, months: set<Month>, candidate: nat, month: Month)
    requires month in months
    ensures FirstMatch(RowsIn(rows, months), candidate, month) == FirstMatch(rows, candidate, month)
  {
    if rows == [] {
    } else {
      var n := |rows| - 1;
      FirstMatchSeesOneMonth(rows[..n], months, candidate, month);
      var before := RowsIn(rows[..n], months);
      assert (before + [rows[n]])[..|before|] == before && before + [] == before;
    }
  }

  /** Keeping the first of each and keeping some months commute. */
  lemma {:induction false} UniqueThenMonths(rows: seq<Row>, months: set<Month>)
    ensures RowsIn(FirstOfEach(rows), months) == FirstOfEach(RowsIn(rows, months))
  {
    if rows == [] {
    } else {
      var n := |rows| - 1;
      UniqueThenMonths(rows[..n], months);
      var unique, kept := FirstOfEach(rows[..n]), RowsIn(rows[..n], months);
      assert (unique + [rows[n]])[..|unique|] == unique && (kept + [rows[n]])[..|kept|] == kept && kept + [] == kept;
      if rows[n].start in months {
        FirstMatchSeesOneMonth(rows[..n], months, rows[n].candidate, rows[n].start);
      }
    }
  }

  lemma {:induction false} TestRowsAreTheMonth(rows: seq<Row>, month: Month)
    ensures TestRows(IndexOf(rows), month) == RowsIn(rows, {month})
  {
    if rows == [] {
    } else {
      TestRowsAreTheMonth(rows[..|rows| - 1], month);
    }
  }

  // ---------------------------------------------------------------- train evidence

  datatype Evidence = Evidence(
    rows: seq<Row>, compounded: real, positiveMonths: nat, positiveRatio: real, expectancy: real, totalTrades: real,
    worstDrawdown: real, score: real)

  function Growth(values: seq<real>): real {
    if values == [] then 1.0 else Growth(values[..|values| - 1]) * (1.0 + values[|values| - 1])
  }

  method Compound(values: seq<real>) returns (result: real)
    ensures result == Growth(values) - 1.0
  {
    var growth := 1.0;
    for i := 0 to |values|
      invariant growth == Growth(values[..i])
    {
      assert values[..i + 1][..i] == values[..i];
      growth := growth * (1.0 + values[i]);
    }
    assert values[..|values|] == values;
    result := growth - 1.0;
  }

  function Field(rows: seq<Row>, field: Row -> real): seq<real> {
    seq(|rows|, i requires 0 <= i < |rows| => field(rows[i]))
  }

  function PositiveCount(values: seq<real>): (k: nat)
    ensures k <= |values|
  {
    if values == [] then 0 else (if values[0] > 0.0 then 1 else 0) + PositiveCount(values[1..])
  }

  function EvidenceOf(rows: seq<Row>): (e: Evidence)
    requires rows != [] && AllValid(rows)
    ensures e.rows == rows
  {
    var gains := Field(rows, (r: Row) => r.returnRatio);
    var totalTrades := Sum(Field(rows, (r: Row) => r.tradeCount));
    var weighted := Sum(Field(rows, (r: Row) => r.expectancy * r.tradeCount));
    var expectancy := if totalTrades > 0.0 then weighted / totalTrades else 0.0;
    var compounded := Growth(gains) - 1.0;
    var positiveRatio := Share(PositiveCount(gains), |gains|);
    var worst := MaxOf(Field(rows, (r: Row) => r.drawdown));
    assert worst >= 0.0;
    Evidence(rows, compounded, PositiveCount(gains), positiveRatio, expectancy, totalTrades, worst,
             Score(compounded, positiveRatio, expectancy, worst))
  }

  function Score(compounded: real, positiveRatio: real, expectancy: real, worstDrawdown: real): real
    requires worstDrawdown >= 0.0
  {
    (compounded * positiveRatio + expectancy) / (1.0 + worstDrawdown)
  }

  function Share(part: nat, whole: nat): real
    requires whole > 0
  {
    part as real / whole as real
  }

  /** Every monthly return above -1 keeps growth positive. */
  lemma {:induction false} GrowthPositive(values: seq<real>)
    requires forall i :: 0 <= i < |values| ==> values[i] > -1.0
    ensures Growth(values) > 0.0
  {
    if values == [] {
    } else {
      GrowthPositive(values[..|values| - 1]);
      ProductOrder(0.0, 1.0 + values[|values| - 1], Growth(values[..|values| - 1]));
    }
  }

  predicate PassesGate(e: Evidence, trainMonths: nat, minTrades: nat) {
    && e.compounded > 0.0
    && e.positiveMonths >= (trainMonths + 1) / 2
    && e.expectancy > 0.0
    && e.totalTrades >= minTrades as real
  }

  /** Whatever passes the gate has traded and has a positive score. */
  lemma GatedScoreIsPositive(rows: seq<Row>, minTrades: nat)
    requires rows != [] && AllValid(rows) && PassesGate(EvidenceOf(rows), |rows|, minTrades)
    ensures EvidenceOf(rows).score > 0.0 && EvidenceOf(rows).totalTrades > 0.0
  {
    EvidenceParts(rows);
    hide EvidenceOf, Score, Share;
    var e := EvidenceOf(rows);
    ShareIsPositive(e.positiveMonths, |rows|);
    ScoreIsPositive(e.compounded, e.positiveRatio, e.expectancy, e.worstDrawdown);
  }

  lemma EvidenceParts(rows: seq<Row>)
    requires rows != [] && AllValid(rows)
    ensures var e := EvidenceOf(rows);
            && e.worstDrawdown >= 0.0
            && e.positiveRatio == Share(e.positiveMonths, |rows|)
            && (e.expectancy != 0.0 ==> e.totalTrades > 0.0)
            && e.score == Score(e.compounded, e.positiveRatio, e.expectancy, e.worstDrawdown)
  {
    hide Growth, Sum, PositiveCount, Score, Share;
  }

  lemma ShareIsPositive(part: nat, whole: nat)
    requires part > 0 && whole > 0
    ensures Share(part, whole) > 0.0
  {
    QuotientCompare(part as real, whole as real, 0.0);
  }

  lemma ScoreIsPositive(compounded: real, ratio: real, expectancy: real, worst: real)
    requires compounded > 0.0 && ratio > 0.0 && expectancy > 0.0 && worst >= 0.0
    ensures Score(compounded, ratio, expectancy, worst) > 0.0
  {
    QuotientCompare(compounded * ratio + expectancy, 1.0 + worst, 0.0);
  }

  // ---------------------------------------------------------------- ranking

  datatype Entry = Entry(score: real, candidate: nat, evidence: Evidence)

  /** Higher scores first; equal scores in the order of names. */
  predicate Before(a: Entry, b: Entry) {
    a.score > b.score || (a.score == b.score && a.candidate < b.candidate)
  }

  ghost predicate Ranked(entries: seq<Entry>) {
    forall i, j :: 0 <= i < j < |entries| ==> Before(entries[i], entries[j])
  }

  function Insert(e: Entry, sorted: seq<Entry>): seq<Entry> {
    if sorted == [] || Before(e, sorted[0]) then [e] + sorted else [sorted[0]] + Insert(e, sorted[1..])
  }

  function Sorted(entries: seq<Entry>): seq<Entry> {
    if entries == [] then [] else Insert(entries[0], Sorted(entries[1..]))
  }

  lemma {:induction false} InsertKeepsElements(e: Entry, sorted: seq<Entry>, x: Entry)
    ensures x in Insert(e, sorted) <==> x == e || x in sorted
  {
    if sorted == [] || Before(e, sorted[0]) {
    } else {
      InsertKeepsElements(e, sorted[1..], x);
      assert x in sorted <==> x == sorted[0] || x in sorted[1..];
    }
  }

  lemma {:induction false} InsertKeepsRanked(e: Entry, sorted: seq<Entry>)
    requires Ranked(sorted) && forall i :: 0 <= i < |sorted| ==> sorted[i].candidate != e.candidate
    ensures Ranked(Insert(e, sorted))
  {
    if sorted == [] || Before(e, sorted[0]) {
    } else {
      var rest := Insert(e, sorted[1..]);
      InsertKeepsRanked(e, sorted[1..]);
      forall j | 0 <= j < |rest| ensures Before(sorted[0], rest[j]) {
        InsertKeepsElements(e, sorted[1..], rest[j]);
      }
    }
  }

  ghost predicate DistinctCandidates(entries: seq<Entry>) {
    forall i, j :: 0 <= i < j < |entries| ==> entries[i].candidate != entries[j].candidate
  }

  lemma {:induction false} SortedKeepsElements(entries: seq<Entry>, x: Entry)
    ensures x in Sorted(entries) <==> x in entries
  {
    if entries == [] {
    } else {
      SortedKeepsElements(entries[1..], x);
      InsertKeepsElements(entries[0], Sorted(entries[1..]), x);
    }
  }

  lemma {:induction false} SortedIsRanked(entries: seq<Entry>)
    requires DistinctCandidates(entries)
    ensures Ranked(Sorted(entries))
  {
    if entries == [] {
    } else {
      var rest := Sorted(entries[1..]);
      SortedIsRanked(entries[1..]);
      forall i | 0 <= i < |rest| ensures rest[i].candidate != entries[0].candidate {
        SortedKeepsElements(entries[1..], rest[i]);
      }
      InsertKeepsRanked(entries[0], rest);
    }
  }

  /** A ranking is determined by what it ranks. */
  lemma {:induction false} RankingIsUnique(a: seq<Entry>, b: seq<Entry>)
    requires Ranked(a) && Ranked(b) && forall x :: x in a <==> x in b
    ensures a == b
  {
    assert a != [] ==> a[0] in b;
    assert b != [] ==> b[0] in a;
    if a == [] {
    } else {
      assert a[0] == b[0];
      forall x ensures x in a[1..] <==> x in b[1..] {
        assert x in a <==> x == a[0] || x in a[1..];
        assert x in b <==> x == b[0] || x in b[1..];
      }
      RankingIsUnique(a[1..], b[1..]);
      assert a == [a[0]] + a[1..] && b == [b[0]] + b[1..];
    }
  }

  // ---------------------------------------------------------------- one fold

  datatype Options = Options(trainMonths: int, topK: int, minTrades: int, start: Option<Month>, end: Option<Month>)

  predicate GoodOptions(o: Options) {
    o.trainMonths > 0 && o.topK > 0 && o.minTrades >= 0
  }

  datatype Status = Unavailable | Cash | Selected | PartialUnavailable

  datatype Selection = Selection(rank: nat, candidate: nat, score: real, evidence: Evidence, testResult: Option<Row>)

  datatype Fold = Fold(
    testMonth: Month, trainMonths: seq<Month>, status: Status, selections: seq<Selection>, topOne: real,
    equalWeight: real)

  /** What of a selection was decided before the test month. */
  datatype Choice = Choice(rank: nat, candidate: nat, score: real, evidence: Evidence)

  function Choices(selections: seq<Selection>): seq<Choice> {
    seq(|selections|, i requires 0 <= i < |selections| =>
      Choice(selections[i].rank, selections[i].candidate, selections[i].score, selections[i].evidence))
  }

  predicate Complete(index: Index, train: seq<Month>, candidate: nat) {
    forall i :: 0 <= i < |train| ==> Cell(index, candidate, train[i]).Some?
  }

  function RowsOf(index: Index, train: seq<Month>, candidate: nat): seq<Row>
    requires Complete(index, train, candidate)
  {
    seq(|train|, i requires 0 <= i < |train| => Cell(index, candidate, train[i]).value)
  }

  ghost predicate ValidIndex(index: Index) {
    && (forall candidate, month :: Cell(index, candidate, month).Some? ==>
          ValidRow(Cell(index, candidate, month).value))
    && (forall month, i :: 0 <= i < |TestRows(index, month)| ==> ValidRow(TestRows(index, month)[i]))
  }

  /** A candidate's entry in the ranking, if it has every train month and passes the gate. */
  function EntryOf(index: Index, train: seq<Month>, minTrades: nat, candidate: nat): (e: Option<Entry>)
    requires train != [] && ValidIndex(index)
    ensures e.Some? ==> e.value.candidate == candidate
  {
    if !Complete(index, train, candidate) then None
    else
      var rows := RowsOf(index, train, candidate);
      ValidRowsOf(index, train, candidate);
      var evidence := EvidenceOf(rows);
      if PassesGate(evidence, |train|, minTrades) then Some(Entry(evidence.score, candidate, evidence)) else None
  }

  lemma ValidRowsOf(index: Index, train: seq<Month>, candidate: nat)
    requires ValidIndex(index) && Complete(index, train, candidate)
    ensures AllValid(RowsOf(index, train, candidate))
  {
  }

  function Least(s: set<nat>): (x: nat)
    requires s != {}
    ensures x in s && forall y :: y in s ==> x <= y
  {
    LeastExists(s);
    var x :| x in s && forall y :: y in s ==> x <= y;
    x
  }

  lemma LeastExists(s: set<nat>)
    requires s != {}
    ensures exists x :: x in s && forall y :: y in s ==> x <= y
  {
    var x :| x in s;
    LeastBelow(s, x);
  }

  lemma {:induction false} LeastBelow(s: set<nat>, x: nat)
    requires x in s
    ensures exists z :: z in s && forall y :: y in s ==> z <= y
  {
    if y :| y in s && y < x {
      LeastBelow(s, y);
    }
  }

  /** A set of names in order. */
  function Ascending(s: set<nat>): (names: seq<nat>)
    ensures forall x :: x in names <==> x in s
    ensures forall i, j :: 0 <= i < j < |names| ==> names[i] < names[j]
  {
    if s == {} then []
    else
      var x := Least(s);
      var rest := Ascending(s - {x});
      assert forall y :: y in rest ==> x < y;
      [x] + rest
  }

  /** The entries of some candidates. */
  function EntriesOf(index: Index, train: seq<Month>, minTrades: nat, candidates: seq<nat>): (entries: seq<Entry>)
    requires train != [] && ValidIndex(index)
    ensures forall x :: x in entries <==>
            exists i :: 0 <= i < |candidates| && EntryOf(index, train, minTrades, candidates[i]) == Some(x)
  {
    if candidates == [] then []
    else
      var n := |candidates| - 1;
      var before := EntriesOf(index, train, minTrades, candidates[..n]);
      var last := EntryOf(index, train, minTrades, candidates[n]);
      assert forall i :: 0 <= i < n ==> candidates[i] == candidates[..n][i];
      before + (if last.Some? then [last.value] else [])
  }

  lemma {:induction false} EntriesAreDistinct(index: Index, train: seq<Month>, minTrades: nat, candidates: seq<nat>)
    requires train != [] && ValidIndex(index)
    requires forall i, j :: 0 <= i < j < |candidates| ==> candidates[i] < candidates[j]
    ensures DistinctCandidates(EntriesOf(index, train, minTrades, candidates))
  {
    hide EntryOf;
    if candidates == [] {
    } else {
      var n := |candidates| - 1;
      EntriesAreDistinct(index, train, minTrades, candidates[..n]);
      var before := EntriesOf(index, train, minTrades, candidates[..n]);
      forall k | 0 <= k < |before| ensures before[k].candidate < candidates[n] {
        assert before[k] in before;
      }
    }
  }

  /** All eligible candidates, best first. */
  function Ranking(index: Index, train: seq<Month>, minTrades: nat): seq<Entry>
    requires train != [] && ValidIndex(index)
  {
    Sorted(EntriesOf(index, train, minTrades, Ascending(index.byCandidate.Keys)))
  }

  /** The ranking holds exactly the eligible candidates, in rank order. */
  lemma RankingIsRight(index: Index, train: seq<Month>, minTrades: nat)
    requires train != [] && ValidIndex(index)
    ensures Ranked(Ranking(index, train, minTrades))
    ensures forall x :: x in Ranking(index, train, minTrades) <==>
                        EntryOf(index, train, minTrades, x.candidate) == Some(x)
  {
    hide Ranked, Sorted, EntryOf;
    var candidates := Ascending(index.byCandidate.Keys);
    var entries := EntriesOf(index, train, minTrades, candidates);
    EntriesAreDistinct(index, train, minTrades, candidates);
    SortedIsRanked(entries);
    forall x
      ensures x in Sorted(entries) <==> EntryOf(index, train, minTrades, x.candidate) == Some(x)
    {
      SortedKeepsElements(entries, x);
      if EntryOf(index, train, minTrades, x.candidate) == Some(x) {
        EligibleIsIndexed(index, train, minTrades, x.candidate);
        var i :| 0 <= i < |candidates| && candidates[i] == x.candidate;
      }
    }
  }

  lemma EligibleIsIndexed(index: Index, train: seq<Month>, minTrades: nat, candidate: nat)
    requires train != [] && ValidIndex(index) && EntryOf(index, train, minTrades, candidate).Some?
    ensures candidate in index.byCandidate
  {
    assert Cell(index, candidate, train[0]).Some?;
  }

  function Selections(ranking: seq<Entry>, testRows: seq<Row>, testMonth: Month, topK: nat): seq<Selection> {
    var count := if topK < |ranking| then topK else |ranking|;
    seq(count, i requires 0 <= i < count =>
      Selection(i + 1, ranking[i].candidate, ranking[i].score, ranking[i].evidence,
                LastMatch(testRows, ranking[i].candidate, testMonth)))
  }

  function Outcome(s: Selection): real {
    if s.testResult.Some? then s.testResult.value.returnRatio else 0.0
  }

  function Missing(selections: seq<Selection>): (k: nat)
    ensures k <= |selections|
  {
    if selections == [] then 0 else (if selections[0].testResult.None? then 1 else 0) + Missing(selections[1..])
  }

  function StatusOf(testRows: seq<Row>, selections: seq<Selection>): Status {
    if testRows == [] then Unavailable
    else if selections == [] then Cash
    else if Missing(selections) == 0 then Selected
    else if Missing(selections) == |selections| then Unavailable
    else PartialUnavailable
  }

  function Gains(selections: seq<Selection>): seq<real> {
    seq(|selections|, i requires 0 <= i < |selections| => Outcome(selections[i]))
  }

  function FoldWith(ranking: seq<Entry>, testRows: seq<Row>, testMonth: Month, train: seq<Month>, topK: nat): Fold {
    var selections := Selections(ranking, testRows, testMonth, topK);
    var gains := Gains(selections);
    Fold(testMonth, train, StatusOf(testRows, selections), selections,
         if gains == [] then 0.0 else gains[0],
         if gains == [] then 0.0 else Sum(gains) / |gains| as real)
  }

  function FoldOf(index: Index, testMonth: Month, o: Options): Fold
    requires GoodOptions(o) && ValidIndex(index)
  {
    var train := PriorMonths(testMonth, o.trainMonths);
    FoldWith(Ranking(index, train, o.minTrades), TestRows(index, testMonth), testMonth, train, o.topK)
  }

  method EligibleEntries(train: seq<Month>, index: Index, minTrades: nat) returns (eligible: seq<Entry>)
    requires train != [] && ValidIndex(index)
    ensures eligible == EntriesOf(index, train, minTrades, Ascending(index.byCandidate.Keys))
  {
    hide ValidIndex, EvidenceOf, PassesGate, Complete;
    eligible := [];
    var candidates := Ascending(index.byCandidate.Keys);
    for i := 0 to |candidates|
      invariant eligible == EntriesOf(index, train, minTrades, candidates[..i])
    {
      EntriesStep(index, train, minTrades, candidates, i);
      var candidate := candidates[i];
      if !Complete(index, train, candidate) {
        continue;
      }
      var rows := RowsOf(index, train, candidate);
      ValidRowsOf(index, train, candidate);
      var evidence := EvidenceOf(rows);
      if !PassesGate(evidence, |train|, minTrades) {
        continue;
      }
      eligible := eligible + [Entry(evidence.score, candidate, evidence)];
    }
    assert candidates[..|candidates|] == candidates;
  }

  lemma EntriesStep(index: Index, train: seq<Month>, minTrades: nat, candidates: seq<nat>, i: nat)
    requires train != [] && ValidIndex(index) && i < |candidates|
    ensures var entry := EntryOf(index, train, minTrades, candidates[i]);
            EntriesOf(index, train, minTrades, candidates[..i + 1])
            == EntriesOf(index, train, minTrades, candidates[..i]) + (if entry.Some? then [entry.value] else [])
  {
    hide EntryOf;
    assert candidates[..i + 1][..i] == candidates[..i];
  }

  method EvaluateFold(testMonth: Month, train: seq<Month>, testRows: seq<Row>, index: Index, topK: nat, minTrades: nat)
    returns (fold: Fold)
    requires train != [] && ValidIndex(index)
    ensures fold == FoldWith(Ranking(index, train, minTrades), testRows, testMonth, train, topK)
  {
    var eligible := EligibleEntries(train, index, minTrades);
    hide ValidIndex, EntriesOf, Sorted, Ascending, LastMatch, StatusOf, Sum, Outcome, Selections, Gains;
    eligible := Sorted(eligible);
    var count := if topK < |eligible| then topK else |eligible|;
    var selections: seq<Selection> := [];
    var gains: seq<real> := [];
    NothingSelected(eligible, testRows, testMonth);
    for rank := 0 to count
      invariant selections == Selections(eligible, testRows, testMonth, rank)
      invariant gains == Gains(selections)
    {
      var entry := eligible[rank];
      var result := LastMatch(testRows, entry.candidate, testMonth);
      var selection := Selection(rank + 1, entry.candidate, entry.score, entry.evidence, result);
      OneMoreSelected(eligible, testRows, testMonth, rank);
      GainsAppend(selections, selection);
      selections, gains := selections + [selection], gains + [Outcome(selection)];
    }
    SelectedAll(eligible, testRows, testMonth, topK);
    fold := Fold(testMonth, train, StatusOf(testRows, selections), selections,
                 if gains == [] then 0.0 else gains[0],
                 if gains == [] then 0.0 else Sum(gains) / |gains| as real);
  }

  lemma NothingSelected(ranking: seq<Entry>, testRows: seq<Row>, testMonth: Month)
    ensures Selections(ranking, testRows, testMonth, 0) == [] && Gains([]) == []
  {
  }

  lemma OneMoreSelected(ranking: seq<Entry>, testRows: seq<Row>, testMonth: Month, rank: nat)
    requires rank < |ranking|
    ensures var e := ranking[rank];
            Selections(ranking, testRows, testMonth, rank + 1)
            == Selections(ranking, testRows, testMonth, rank)
               + [Selection(rank + 1, e.candidate, e.score, e.evidence, LastMatch(testRows, e.candidate, testMonth))]
  {
  }

  lemma GainsAppend(selections: seq<Selection>, selection: Selection)
    ensures Gains(selections + [selection]) == Gains(selections) + [Outcome(selection)]
  {
  }

  lemma SelectedAll(ranking: seq<Entry>, testRows: seq<Row>, testMonth: Month, topK: nat)
    ensures Selections(ranking, testRows, testMonth, topK)
         == Selections(ranking, testRows, testMonth, if topK < |ranking| then topK else |ranking|)
  {
  }

  // ---------------------------------------------------------------- the evaluation

  function Matched(rows: seq<Row>, symbol: nat): seq<Row> {
    if rows == [] then []
    else
      var n := |rows| - 1;
      Matched(rows[..n], symbol) + (if rows[n].symbol == symbol then [rows[n]] else [])
  }

  lemma {:induction false} MatchedIsValid(rows: seq<Row>, symbol: nat)
    requires AllValid(rows)
    ensures AllValid(Matched(rows, symbol))
  {
    hide ValidRow;
    if rows == [] {
    } else {
      MatchedIsValid(rows[..|rows| - 1], symbol);
    }
  }

  lemma {:induction false} FirstOfEachIsValid(rows: seq<Row>)
    requires AllValid(rows)
    ensures AllValid(FirstOfEach(rows))
  {
    hide ValidRow;
    if rows == [] {
    } else {
      FirstOfEachIsValid(rows[..|rows| - 1]);
    }
  }

  lemma IndexIsValid(rows: seq<Row>)
    requires AllValid(rows)
    ensures ValidIndex(IndexOf(FirstOfEach(rows)))
  {
    hide ValidRow;
    FirstOfEachIsValid(rows);
    var index, unique := IndexOf(FirstOfEach(rows)), FirstOfEach(rows);
    forall candidate, month | Cell(index, candidate, month).Some?
      ensures ValidRow(Cell(index, candidate, month).value)
    {
      CellIsFirstMatch(rows, candidate, month);
    }
    forall month, i | 0 <= i < |TestRows(index, month)|
      ensures ValidRow(TestRows(index, month)[i])
    {
      TestRowsAreTheMonth(unique, month);
      RowsInIsValid(unique, {month});
    }
  }

  lemma {:induction false} RowsInIsValid(rows: seq<Row>, months: set<Month>)
    requires AllValid(rows)
    ensures AllValid(RowsIn(rows, months))
  {
    hide ValidRow;
    if rows == [] {
    } else {
      RowsInIsValid(rows[..|rows| - 1], months);
    }
  }

  /** The keys as month texts parse: any month of a year in 0000..9999. */
  predicate IsKey(m: Option<Month>) {
    m.Some? ==> m.value.Valid() && 0 <= m.value.year <= LAST_YEAR
  }

  /** The months of an index in calendar order. */
  function MonthsOf(index: Index): seq<Month> {
    var indices := Ascending(set m | m in index.byMonth && m.Index() >= 0 :: m.Index());
    seq(|indices|, i requires 0 <= i < |indices| => FromIndex(indices[i]))
  }

  predicate InWindow(m: Month, o: Options) {
    && (o.start.Some? ==> m.Index() >= o.start.value.Index())
    && (o.end.Some? ==> m.Index() < o.end.value.Index())
  }

  function CandidateMonths(index: Index, o: Options): Result<seq<Month>, CalendarError> {
    if o.start.Some? && o.end.Some? then Calendar(o.start.value, o.end.value) else Ok(MonthsOf(index))
  }

  function FoldsOf(index: Index, months: seq<Month>, o: Options): (folds: seq<Fold>)
    requires GoodOptions(o) && ValidIndex(index)
    ensures forall i :: 0 <= i < |folds| ==>
              folds[i].testMonth in months && folds[i] == FoldOf(index, folds[i].testMonth, o)
  {
    if months == [] then []
    else
      var n := |months| - 1;
      FoldsOf(index, months[..n], o) + (if InWindow(months[n], o) then [FoldOf(index, months[n], o)] else [])
  }

  /** The folds of a run, or why there are none. */
  ghost function Evaluated(rows: seq<Row>, symbol: nat, o: Options): Result<seq<Fold>, Error> {
    if !GoodOptions(o) then Err(BadOptions)
    else if !AllValid(rows) then Err(InvalidRow)
    else
      var matched := Matched(rows, symbol);
      if !Consistent(matched) then Err(ConflictingDuplicate)
      else
        var index := IndexOf(FirstOfEach(matched));
        MatchedIsValid(rows, symbol);
        IndexIsValid(matched);
        match CandidateMonths(index, o)
        case Err(e) => Err(BadCalendar(e))
        case Ok(months) => Ok(FoldsOf(index, months, o))
  }

  method EvaluateRows(rows: seq<Row>, symbol: nat, o: Options) returns (result: Result<seq<Fold>, Error>)
    requires IsKey(o.start) && IsKey(o.end)
    ensures result == Evaluated(rows, symbol, o)
  {
    hide AllValid, Consistent, FirstOfEach, IndexOf, ValidIndex, FoldOf, InWindow, Calendar, BoundariesAgree;
    if !GoodOptions(o) {
      return Err(BadOptions);
    }
    if !AllValid(rows) {
      return Err(InvalidRow);
    }
    var matched := Matched(rows, symbol);
    var unique := Deduplicate(matched);
    if unique.Err? {
      return Err(unique.error);
    }
    MatchedIsValid(rows, symbol);
    FirstOfEachIsValid(matched);
    ValidBoundariesAgree(unique.value);
    IndexIsValid(matched);
    var indexed := IndexRows(unique.value);
    var index := indexed.value;
    var months := MonthsOf(index);
    if o.start.Some? && o.end.Some? {
      var calendar := CalendarMonths(o.start.value, o.end.value);
      if calendar.Err? {
        return Err(BadCalendar(calendar.error));
      }
      months := calendar.value;
    }
    var folds := AllFolds(index, months, o);
    result := Ok(folds);
  }

  method AllFolds(index: Index, months: seq<Month>, o: Options) returns (folds: seq<Fold>)
    requires GoodOptions(o) && ValidIndex(index)
    ensures folds == FoldsOf(index, months, o)
  {
    hide ValidIndex, FoldWith, Ranking;
    folds := [];
    for i := 0 to |months|
      invariant folds == FoldsOf(index, months[..i], o)
    {
      assert months[..i + 1][..i] == months[..i];
      if !InWindow(months[i], o) {
        continue;
      }
      var train := PriorMonths(months[i], o.trainMonths);
      var fold := EvaluateFold(months[i], train, TestRows(index, months[i]), index, o.topK, o.minTrades);
      folds := folds + [fold];
    }
    assert months[..|months|] == months;
  }

  // ---------------------------------------------------------------- what a fold can see

  /** Two indexes with the same cells in the train months rank the same candidates the same way. */
  lemma SameTrainCellsSameRanking(a: Index, b: Index, train: seq<Month>, minTrades: nat)
    requires train != [] && ValidIndex(a) && ValidIndex(b)
    requires forall candidate, i :: 0 <= i < |train| ==> Cell(a, candidate, train[i]) == Cell(b, candidate, train[i])
    ensures Ranking(a, train, minTrades) == Ranking(b, train, minTrades)
  {
    hide Ranking, Ranked, EvidenceOf, PassesGate, Cell;
    forall candidate
      ensures EntryOf(a, train, minTrades, candidate) == EntryOf(b, train, minTrades, candidate)
    {
      if Complete(a, train, candidate) {
        assert RowsOf(a, train, candidate) == RowsOf(b, train, candidate);
      }
    }
    hide EntryOf;
    RankingIsRight(a, train, minTrades);
    RankingIsRight(b, train, minTrades);
    RankingIsUnique(Ranking(a, train, minTrades), Ranking(b, train, minTrades));
  }

  function TrainSet(testMonth: Month, trainMonths: nat): set<Month> {
    set m | m in PriorMonths(testMonth, trainMonths)
  }

  /** Training looks strictly backwards: every train month lies before the test month. */
  lemma TrainingPrecedesTest(testMonth: Month, trainMonths: nat)
    requires testMonth.Valid()
    ensures |PriorMonths(testMonth, trainMonths)| == trainMonths
    ensures forall m :: m in TrainSet(testMonth, trainMonths) ==> m.Valid() && m.Index() < testMonth.Index()
  {
    PriorMonthsTile(testMonth, trainMonths);
  }

  lemma SameTrainRowsSameRanking(rowsA: seq<Row>, rowsB: seq<Row>, testMonth: Month, trainMonths: nat, minTrades: nat)
    requires AllValid(rowsA) && AllValid(rowsB) && trainMonths > 0
    requires RowsIn(rowsA, TrainSet(testMonth, trainMonths)) == RowsIn(rowsB, TrainSet(testMonth, trainMonths))
    ensures var a, b := IndexOf(FirstOfEach(rowsA)), IndexOf(FirstOfEach(rowsB));
            var train := PriorMonths(testMonth, trainMonths);
            && ValidIndex(a) && ValidIndex(b)
            && Ranking(a, train, minTrades) == Ranking(b, train, minTrades)
  {
    hide AllValid, ValidIndex, Ranking, FirstOfEach, IndexOf, Cell, PriorMonths, FirstMatch;
    var a, b := IndexOf(FirstOfEach(rowsA)), IndexOf(FirstOfEach(rowsB));
    var train, months := PriorMonths(testMonth, trainMonths), TrainSet(testMonth, trainMonths);
    IndexIsValid(rowsA);
    IndexIsValid(rowsB);
    forall candidate, i | 0 <= i < |train|
      ensures Cell(a, candidate, train[i]) == Cell(b, candidate, train[i])
    {
      CellIsFirstMatch(rowsA, candidate, train[i]);
      CellIsFirstMatch(rowsB, candidate, train[i]);
      FirstMatchSeesOneMonth(rowsA, months, candidate, train[i]);
      FirstMatchSeesOneMonth(rowsB, months, candidate, train[i]);
    }
    PriorMonthsIsNonEmpty(testMonth, trainMonths);
    SameTrainCellsSameRanking(a, b, train, minTrades);
  }

  lemma PriorMonthsIsNonEmpty(m: Month, count: nat)
    requires count > 0
    ensures PriorMonths(m, count) != []
  {
  }

  /** The options that shape a fold; the window bounds only choose which folds there are. */
  predicate SameRules(a: Options, b: Options) {
    a.trainMonths == b.trainMonths && a.topK == b.topK && a.minTrades == b.minTrades
  }

  lemma FoldIsFoldOf(rows: seq<Row>, symbol: nat, o: Options, i: nat)
    requires var r := Evaluated(rows, symbol, o); r.Ok? && i < |r.value|
    ensures var index := IndexOf(FirstOfEach(Matched(rows, symbol)));
            var fold := Evaluated(rows, symbol, o).value[i];
            && GoodOptions(o) && AllValid(Matched(rows, symbol)) && ValidIndex(index)
            && fold == FoldOf(index, fold.testMonth, o)
  {
    hide AllValid, ValidIndex, FoldOf, Consistent;
    MatchedIsValid(rows, symbol);
    IndexIsValid(Matched(rows, symbol));
  }

  /** Two runs whose rows of the symbol agree on a fold's train months choose the same candidates for it, with the
      same ranks, scores and evidence, whatever their other rows and windows. */
  lemma SelectionSeesOnlyTrainMonths(
    rowsA: seq<Row>, rowsB: seq<Row>, symbol: nat, optionsA: Options, optionsB: Options, i: nat, j: nat)
    requires var r := Evaluated(rowsA, symbol, optionsA); r.Ok? && i < |r.value|
    requires var r := Evaluated(rowsB, symbol, optionsB); r.Ok? && j < |r.value|
    requires SameRules(optionsA, optionsB)
    requires var month := Evaluated(rowsA, symbol, optionsA).value[i].testMonth;
             && Evaluated(rowsB, symbol, optionsB).value[j].testMonth == month
             && optionsA.trainMonths >= 0
             && var train := TrainSet(month, optionsA.trainMonths);
                RowsIn(Matched(rowsA, symbol), train) == RowsIn(Matched(rowsB, symbol), train)
    ensures var a, b := Evaluated(rowsA, symbol, optionsA).value[i], Evaluated(rowsB, symbol, optionsB).value[j];
            a.trainMonths == b.trainMonths && Choices(a.selections) == Choices(b.selections)
  {
    hide Evaluated, AllValid, ValidIndex, Ranking, FirstOfEach, IndexOf, PriorMonths, RowsIn, Matched, LastMatch,
      TrainSet;
    FoldIsFoldOf(rowsA, symbol, optionsA, i);
    FoldIsFoldOf(rowsB, symbol, optionsB, j);
    var month := Evaluated(rowsA, symbol, optionsA).value[i].testMonth;
    SameTrainRowsSameRanking(
      Matched(rowsA, symbol), Matched(rowsB, symbol), month, optionsA.trainMonths, optionsA.minTrades);
  }

  /** If their rows of the test month agree too, the whole fold is the same: later rows change nothing. */
  lemma FoldSeesOnlyItsMonths(
    rowsA: seq<Row>, rowsB: seq<Row>, symbol: nat, optionsA: Options, optionsB: Options, i: nat, j: nat)
    requires var r := Evaluated(rowsA, symbol, optionsA); r.Ok? && i < |r.value|
    requires var r := Evaluated(rowsB, symbol, optionsB); r.Ok? && j < |r.value|
    requires SameRules(optionsA, optionsB)
    requires var month := Evaluated(rowsA, symbol, optionsA).value[i].testMonth;
             && Evaluated(rowsB, symbol, optionsB).value[j].testMonth == month
             && optionsA.trainMonths >= 0
             && (var train := TrainSet(month, optionsA.trainMonths);
                 RowsIn(Matched(rowsA, symbol), train) == RowsIn(Matched(rowsB, symbol), train))
             && RowsIn(Matched(rowsA, symbol), {month}) == RowsIn(Matched(rowsB, symbol), {month})
    ensures Evaluated(rowsA, symbol, optionsA).value[i] == Evaluated(rowsB, symbol, optionsB).value[j]
  {
    hide Evaluated, AllValid, ValidIndex, Ranking, FirstOfEach, IndexOf, PriorMonths, RowsIn, Matched, FoldWith,
      TrainSet;
    FoldIsFoldOf(rowsA, symbol, optionsA, i);
    FoldIsFoldOf(rowsB, symbol, optionsB, j);
    var month := Evaluated(rowsA, symbol, optionsA).value[i].testMonth;
    var a, b := Matched(rowsA, symbol), Matched(rowsB, symbol);
    SameTrainRowsSameRanking(a, b, month, optionsA.trainMonths, optionsA.minTrades);
    TestRowsAreTheMonth(FirstOfEach(a), month);
    TestRowsAreTheMonth(FirstOfEach(b), month);
    UniqueThenMonths(a, {month});
    UniqueThenMonths(b, {month});
  }
}
