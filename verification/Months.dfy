/** Month lists built three ways: by division, by counting offsets down, and by stepping with a carry. */
module Months {
  import opened Results

  datatype Month = Month(year: int, number: int) {
    predicate Valid() {
      1 <= number <= 12
    }

    /** Months since the start of year 0. */
    function Index(): int {
      year * 12 + number - 1
    }
  }

  /** The years a calendar date can have. */
  const FIRST_YEAR := 1
  const LAST_YEAR := 9999

  predicate IsDate(m: Month) {
    m.Valid() && FIRST_YEAR <= m.year <= LAST_YEAR
  }

  function FromIndex(index: int): (m: Month)
    ensures m.Valid() && m.Index() == index
  {
    Month(index / 12, index % 12 + 1)
  }

  /** A month is determined by its index. */
  lemma IndexDetermines(a: Month, b: Month)
    requires a.Valid() && b.Valid()
    ensures a == b <==> a.Index() == b.Index()
  {
  }

  function Minus(m: Month, count: int): Month {
    FromIndex(m.Index() - count)
  }

  /** The first of the next month. */
  function NextMonth(m: Month): Month {
    if m.number == 12 then Month(m.year + 1, 1) else Month(m.year, m.number + 1)
  }

  /** The count months before a month, oldest first. */
  function PriorMonths(m: Month, count: nat): seq<Month> {
    seq(count, i => FromIndex(m.Index() - count + i))
  }

  /** The same list, counting the offset down. */
  method PreviousMonths(m: Month, count: nat) returns (values: seq<Month>)
    ensures values == PriorMonths(m, count)
  {
    var cursor := m.Index();
    values := [];
    for offset := count downto 0
      invariant values == PriorMonths(m, count)[..count - offset]
    {
      values := values + [FromIndex(cursor - (offset + 1))];
    }
  }

  datatype CalendarError = StartNotBeforeEnd | NotADate

  /** The months from start up to but not including end, stepping from one to the next. */
  method CalendarMonths(start: Month, end: Month) returns (result: Result<seq<Month>, CalendarError>)
    requires start.Valid() && end.Valid() && end.year <= LAST_YEAR
    ensures result == Calendar(start, end)
  {
    if start.Index() >= end.Index() {
      return Err(StartNotBeforeEnd);
    }
    var months: seq<Month> := [];
    var current := start;
    while current.Index() < end.Index()
      invariant current.Valid() && current.Index() <= end.Index()
      invariant months == Stepped(start, |months|)
      invariant current.Index() == start.Index() + |months|
      invariant months != [] ==> IsDate(start)
      decreases end.Index() - current.Index()
    {
      IndexDetermines(current, FromIndex(start.Index() + |months|));
      months := months + [current];
      if !IsDate(current) {
        return Err(NotADate);
      }
      current := NextMonth(current);
    }
    result := Ok(months);
  }

  function Stepped(start: Month, count: nat): seq<Month> {
    seq(count, i => FromIndex(start.Index() + i))
  }

  function Calendar(start: Month, end: Month): Result<seq<Month>, CalendarError> {
    if start.Index() >= end.Index() then Err(StartNotBeforeEnd)
    else if !IsDate(start) then Err(NotADate)
    else Ok(Stepped(start, end.Index() - start.Index()))
  }

  /** The stepping list of the count months before a date is the divided one, exactly when there is a month to list
      and the first of them is a date. */
  lemma CalendarIsPriorIff(m: Month, count: nat)
    requires IsDate(m)
    ensures Calendar(Minus(m, count), m) == Ok(PriorMonths(m, count)) <==>
            count >= 1 && Minus(m, count).year >= FIRST_YEAR
  {
    var start := Minus(m, count);
    assert start.year <= m.year;
    assert Stepped(start, count) == PriorMonths(m, count);
  }

  /** The list ascends month by month, without a gap, and ends just before m. */
  lemma PriorMonthsTile(m: Month, count: nat)
    requires m.Valid()
    ensures var months := PriorMonths(m, count);
            && |months| == count
            && (forall i :: 0 <= i < count ==> months[i].Valid() && months[i].Index() < m.Index())
            && (forall i :: 0 <= i < count - 1 ==> NextMonth(months[i]) == months[i + 1])
            && (count > 0 ==> NextMonth(months[count - 1]) == m)
            && (forall month: Month :: month.Valid() ==>
                  (month in months <==> m.Index() - count <= month.Index() < m.Index()))
  {
    var months := PriorMonths(m, count);
    forall i | 0 <= i < count
      ensures months[i].Valid() && months[i].Index() == m.Index() - count + i
    {
      PriorMonthAt(m, count, i);
    }
    forall i | 0 <= i < count - 1
      ensures NextMonth(months[i]) == months[i + 1]
    {
      NextIsPlusOne(months[i]);
      IndexDetermines(NextMonth(months[i]), months[i + 1]);
    }
    if count > 0 {
      NextIsPlusOne(months[count - 1]);
      IndexDetermines(NextMonth(months[count - 1]), m);
    }
    forall month: Month | month.Valid() && m.Index() - count <= month.Index() < m.Index()
      ensures month in months
    {
      var i := month.Index() - m.Index() + count;
      IndexDetermines(month, months[i]);
    }
  }

  lemma PriorMonthAt(m: Month, count: nat, i: nat)
    requires i < count
    ensures PriorMonths(m, count)[i] == FromIndex(m.Index() - count + i)
  {
  }

  /** Stepping with a carry is adding one to the index. */
  lemma NextIsPlusOne(m: Month)
    requires m.Valid()
    ensures NextMonth(m).Valid() && NextMonth(m).Index() == m.Index() + 1
  {
  }
}
