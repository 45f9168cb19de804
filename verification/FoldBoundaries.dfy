/** The folds of a run's rows: each fold has one pair of bounds, each pair of bounds one fold, and no fold is
    skipped. */
module FoldBoundaries {
  import opened Results

  /** A row's fold number and its two timestamps, as text and as read: None for text that is no zoned timestamp. */
  datatype Row = Row(fold: int, start: string, end: string, startAt: Option<int>, endAt: Option<int>)

  type Bounds = (string, string)

  datatype Problem = BadFold | BadTimestamps | ConflictingBounds | ConflictingFold | Gap

  function BoundsOf(row: Row): Bounds {
    (row.start, row.end)
  }

  predicate Readable(row: Row) {
    row.fold >= 1 && row.startAt.Some? && row.endAt.Some? && row.startAt.value < row.endAt.value
  }

  ghost predicate AllReadable(rows: seq<Row>) {
    forall i :: 0 <= i < |rows| ==> Readable(rows[i])
  }

  /** Two rows share a fold exactly when they share their bounds. */
  ghost predicate OneToOne(rows: seq<Row>) {
    forall i, j :: 0 <= i < j < |rows| ==> (rows[i].fold == rows[j].fold <==> BoundsOf(rows[i]) == BoundsOf(rows[j]))
  }

  ghost predicate NoGap(rows: seq<Row>) {
    forall i, j, n :: 0 <= i < |rows| && 0 <= j < |rows| && rows[i].fold < n < rows[j].fold ==> n in Folds(rows)
  }

  function Folds(rows: seq<Row>): set<int> {
    set i | 0 <= i < |rows| :: rows[i].fold
  }

  /** Every row's fold and bounds are recorded, both ways, and nothing else is. */
  ghost predicate Records(byFold: map<int, Bounds>, byBounds: map<Bounds, int>, rows: seq<Row>, n: nat)
    requires n <= |rows|
  {
    && (forall i :: 0 <= i < n ==> rows[i].fold in byFold && byFold[rows[i].fold] == BoundsOf(rows[i]))
    && (forall i :: 0 <= i < n ==> BoundsOf(rows[i]) in byBounds && byBounds[BoundsOf(rows[i])] == rows[i].fold)
    && (forall f :: f in byFold ==> exists i :: 0 <= i < n && rows[i].fold == f)
    && (forall b :: b in byBounds ==> exists i :: 0 <= i < n && BoundsOf(rows[i]) == b)
  }

  /** It accepts exactly the rows that number their folds one to one and without a gap, and returns that numbering. */
  method Validated(rows: seq<Row>) returns (result: Result<map<int, Bounds>, Problem>)
    ensures result.Ok? <==> AllReadable(rows) && OneToOne(rows) && NoGap(rows)
    ensures result.Ok? ==>
              result.value.Keys == Folds(rows)
              && forall i :: 0 <= i < |rows| ==> result.value[rows[i].fold] == BoundsOf(rows[i])
  {
    hide Records, OneToOne, NoGap, Folds;
    var byFold: map<int, Bounds> := map[];
    var byBounds: map<Bounds, int> := map[];
    NothingRecorded(rows);
    for i := 0 to |rows|
      invariant Records(byFold, byBounds, rows, i)
      invariant forall j :: 0 <= j < i ==> Readable(rows[j])
    {
      var row := rows[i];
      if row.fold < 1 {
        return Err(BadFold);
      }
      if !Readable(row) {
        return Err(BadTimestamps);
      }
      var bounds := BoundsOf(row);
      if row.fold in byFold && byFold[row.fold] != bounds {
        Conflict(byFold, byBounds, rows, i);
        return Err(ConflictingBounds);
      }
      if bounds in byBounds && byBounds[bounds] != row.fold {
        Conflict(byFold, byBounds, rows, i);
        return Err(ConflictingFold);
      }
      RecordsStep(byFold, byBounds, rows, i);
      byFold, byBounds := byFold[row.fold := bounds], byBounds[bounds := row.fold];
    }
    AllRecorded(byFold, byBounds, rows);
    var numbers := byFold.Keys;
    if numbers != {} && numbers != Range(Bottom(numbers), Top(numbers)) {
      GapShows(rows);
      return Err(Gap);
    }
    NoGapShows(rows);
    result := Ok(byFold);
  }

  lemma NothingRecorded(rows: seq<Row>)
    ensures Records(map[], map[], rows, 0)
  {
  }

  lemma RecordsStep(byFold: map<int, Bounds>, byBounds: map<Bounds, int>, rows: seq<Row>, n: nat)
    requires n < |rows| && Records(byFold, byBounds, rows, n)
    requires rows[n].fold in byFold ==> byFold[rows[n].fold] == BoundsOf(rows[n])
    requires BoundsOf(rows[n]) in byBounds ==> byBounds[BoundsOf(rows[n])] == rows[n].fold
    ensures Records(byFold[rows[n].fold := BoundsOf(rows[n])], byBounds[BoundsOf(rows[n]) := rows[n].fold], rows, n + 1)
  {
  }

  lemma Conflict(byFold: map<int, Bounds>, byBounds: map<Bounds, int>, rows: seq<Row>, n: nat)
    requires n < |rows| && Records(byFold, byBounds, rows, n)
    requires (rows[n].fold in byFold && byFold[rows[n].fold] != BoundsOf(rows[n]))
          || (BoundsOf(rows[n]) in byBounds && byBounds[BoundsOf(rows[n])] != rows[n].fold)
    ensures !OneToOne(rows)
  {
    if rows[n].fold in byFold && byFold[rows[n].fold] != BoundsOf(rows[n]) {
      var i :| 0 <= i < n && rows[i].fold == rows[n].fold;
      assert BoundsOf(rows[i]) != BoundsOf(rows[n]);
    } else {
      var i :| 0 <= i < n && BoundsOf(rows[i]) == BoundsOf(rows[n]);
      assert rows[i].fold != rows[n].fold;
    }
  }

  lemma AllRecorded(byFold: map<int, Bounds>, byBounds: map<Bounds, int>, rows: seq<Row>)
    requires Records(byFold, byBounds, rows, |rows|)
    ensures OneToOne(rows) && byFold.Keys == Folds(rows)
    ensures forall i :: 0 <= i < |rows| ==> rows[i].fold in byFold && byFold[rows[i].fold] == BoundsOf(rows[i])
  {
    RecordsAreOneToOne(byFold, byBounds, rows);
    assert forall f :: f in byFold <==> f in Folds(rows);
  }

  /** Every number from lo to hi. */
  function Range(lo: int, hi: int): (s: set<int>)
    ensures forall n :: n in s <==> lo <= n <= hi
    decreases hi - lo
  {
    if hi < lo then {} else {hi} + Range(lo, hi - 1)
  }

  lemma RecordsAreOneToOne(byFold: map<int, Bounds>, byBounds: map<Bounds, int>, rows: seq<Row>)
    requires Records(byFold, byBounds, rows, |rows|)
    ensures OneToOne(rows)
  {
  }

  lemma GapShows(rows: seq<Row>)
    requires Folds(rows) != {} && Folds(rows) != Range(Bottom(Folds(rows)), Top(Folds(rows)))
    ensures !NoGap(rows)
  {
    var first, last := Bottom(Folds(rows)), Top(Folds(rows));
    var n :| n in Range(first, last) && n !in Folds(rows);
    var i :| 0 <= i < |rows| && rows[i].fold == first;
    var j :| 0 <= j < |rows| && rows[j].fold == last;
    assert rows[i].fold < n < rows[j].fold;
  }

  lemma NoGapShows(rows: seq<Row>)
    requires Folds(rows) != {} ==> Folds(rows) == Range(Bottom(Folds(rows)), Top(Folds(rows)))
    ensures NoGap(rows)
  {
    forall i, j, n | 0 <= i < |rows| && 0 <= j < |rows| && rows[i].fold < n < rows[j].fold
      ensures n in Folds(rows)
    {
      assert rows[i].fold in Folds(rows) && rows[j].fold in Folds(rows);
    }
  }

  function Bottom(s: set<int>): (x: int)
    requires s != {}
    ensures x in s && forall y :: y in s ==> x <= y
  {
    Extremes(s);
    var x :| x in s && forall y :: y in s ==> x <= y;
    x
  }

  function Top(s: set<int>): (x: int)
    requires s != {}
    ensures x in s && forall y :: y in s ==> y <= x
  {
    Extremes(s);
    var x :| x in s && forall y :: y in s ==> y <= x;
    x
  }

  lemma {:induction false} Extremes(s: set<int>)
    requires s != {}
    ensures exists x :: x in s && forall y :: y in s ==> x <= y
    ensures exists x :: x in s && forall y :: y in s ==> y <= x
  {
    if forall z :: z !in s {
      assert false;
    }
    var z :| z in s;
    var rest := s - {z};
    if rest == {} {
      assert s == {z};
    } else {
      Extremes(rest);
      var low :| low in rest && forall y :: y in rest ==> low <= y;
      var high :| high in rest && forall y :: y in rest ==> y <= high;
      var least, most := if z < low then z else low, if z > high then z else high;
      assert least in s && most in s;
      forall y | y in s ensures least <= y <= most {
        assert y == z || y in rest;
      }
    }
  }
}
