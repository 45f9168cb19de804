/** One shard of the feature cache: a JSONL file of one row a minute, indexed by byte offsets and read by arithmetic. */
module FeatureShard {
  import opened Lines
  import opened Results

  /** Instants in microseconds. */
  type Time = int

  const MINUTE: Time := 60_000_000

  datatype Feature = Feature(value: string, source: string, observedAt: Time, availableAt: Time)

  datatype Row = Row(
    measuredAt: Time, symbol: string, timeframe: string, features: map<string, Feature>, unavailable: set<string>)

  datatype Plan = Plan(startAt: Time, endAt: Time, rowCount: nat, outputHash: int, sources: set<string>)

  /** What the index build demands of row `index`. */
  predicate RowAccepted(plan: Plan, index: nat, row: Row) {
    && row.measuredAt == plan.startAt + (index + 1) * MINUTE
    && row.symbol == "BTCUSDT" && row.timeframe == "1m"
    && (forall name :: name in row.features ==>
          row.features[name].source in plan.sources
          && row.features[name].observedAt <= row.measuredAt
          && row.features[name].availableAt <= row.measuredAt)
    && row.unavailable <= plan.sources
  }

  /** The newline-terminated lines of b from an offset on, without their newlines. */
  function TerminatedLines(b: Bytes, from: nat): seq<Bytes>
    requires from <= |b|
    decreases |b| - from
  {
    var newline := FindNewline(b, from);
    if newline.None? then [] else [b[from..newline.value]] + TerminatedLines(b, newline.value + 1)
  }

  function Joined(lines: seq<Bytes>): Bytes {
    if lines == [] then [] else lines[0] + [NEWLINE] + Joined(lines[1..])
  }

  lemma NextLine(b: Bytes, from: nat)
    requires from <= |b|
    ensures var newline := FindNewline(b, from);
            TerminatedLines(b, from) ==
            if newline.None? then [] else [b[from..newline.value]] + TerminatedLines(b, newline.value + 1)
  {
  }

  /** They are the file split on newlines: put together again they give the file up to an unterminated tail, and no
      line or tail holds a newline. */
  lemma {:induction false} LinesSplitTheFile(b: Bytes, from: nat) returns (tail: Bytes)
    requires from <= |b|
    ensures b[from..] == Joined(TerminatedLines(b, from)) + tail
    ensures NEWLINE !in tail && forall line :: line in TerminatedLines(b, from) ==> NEWLINE !in line
    decreases |b| - from
  {
    hide TerminatedLines, Joined, FindNewline;
    NextLine(b, from);
    var newline := FindNewline(b, from);
    if newline.None? {
      tail := b[from..];
      NothingJoined();
    } else {
      var n := newline.value;
      tail := LinesSplitTheFile(b, n + 1);
      var line, lines := b[from..n], TerminatedLines(b, n + 1);
      SplitStep(line, lines);
      calc {
        b[from..];
        line + [NEWLINE] + b[n + 1..];
        line + [NEWLINE] + (Joined(lines) + tail);
        line + [NEWLINE] + Joined(lines) + tail;
      }
    }
  }

  lemma NothingJoined()
    ensures Joined([]) == []
  {
  }

  lemma SplitStep(line: Bytes, lines: seq<Bytes>)
    ensures Joined([line] + lines) == line + [NEWLINE] + Joined(lines)
  {
    assert ([line] + lines)[1..] == lines;
  }

  /** Offsets that delimit the first lines of b, back to back. */
  ghost predicate Tiles(b: Bytes, offsets: seq<(nat, nat)>) {
    && |offsets| <= |TerminatedLines(b, 0)|
    && (forall i :: 0 <= i < |offsets| ==>
          offsets[i].0 <= offsets[i].1 < |b| && b[offsets[i].0..offsets[i].1] == TerminatedLines(b, 0)[i])
    && (forall i :: 0 <= i < |offsets| ==> offsets[i].0 == if i == 0 then 0 else offsets[i - 1].1 + 1)
  }

  datatype RowResult = Found(row: Option<Row>) | Closed | Unsafe

  class IndexedJsonlShard {
    const plan: Plan
    const data: Bytes
    const parse: Bytes -> Option<Row>
    const hash: Bytes -> int
    var offsets: seq<(nat, nat)>
    var indexedByteCount: nat
    var fullFileVerified: bool
    var open: bool

    /** Every indexed line is where its offsets say, and holds the row of its minute. */
    ghost predicate Valid()
      reads this
    {
      && Tiles(data, offsets)
      && |offsets| <= plan.rowCount
      && (forall i :: 0 <= i < |offsets| ==> LineAccepted(i))
    }

    ghost predicate LineAccepted(i: nat) {
      i < |TerminatedLines(data, 0)| &&
      parse(TerminatedLines(data, 0)[i]).Some? && RowAccepted(plan, i, parse(TerminatedLines(data, 0)[i]).value)
    }

    constructor (plan: Plan, data: Bytes, parse: Bytes -> Option<Row>, hash: Bytes -> int)
      ensures this.plan == plan && this.data == data && this.parse == parse && this.hash == hash
      ensures Valid() && offsets == [] && open
    {
      this.plan, this.data, this.parse, this.hash := plan, data, parse, hash;
      offsets, indexedByteCount, fullFileVerified, open := [], 0, false, true;
    }

    /** How many rows are indexed: all of them, or those that end by the required end. */
    function TargetCount(requiredEnd: Time, verifyFullFile: bool): int {
      if verifyFullFile then plan.rowCount
      else ((if requiredEnd < plan.endAt then requiredEnd else plan.endAt) - plan.startAt) / MINUTE
    }

    /** When the build succeeds. */
    ghost predicate Indexable(target: int) {
      && 1 <= target <= plan.rowCount
      && (forall i :: 0 <= i < target ==> LineAccepted(i))
      && (target == plan.rowCount && target <= |TerminatedLines(data, 0)| ==>
            TerminatedLength(data, target) == |data| && hash(data) == plan.outputHash)
    }

    /** Finds, parses, checks and indexes the line that starts at the cursor. */
    method IndexLine(index: nat, cursor: nat) returns (newline: Option<nat>)
      requires Valid() && |offsets| == index < plan.rowCount && LinesAfter(data, index, cursor)
      requires cursor == if index == 0 then 0 else offsets[index - 1].1 + 1
      modifies this`offsets
      ensures newline.None? ==> offsets == old(offsets) && !LineAccepted(index)
      ensures newline.Some? ==> Valid() && offsets == old(offsets) + [(cursor, newline.value)]
      ensures newline.Some? ==> LinesAfter(data, index + 1, newline.value + 1) && LineAccepted(index)
    {
      hide TerminatedLines, LinesAfter;
      LinesAfterNext(data, index, cursor);
      newline := FindNewline(data, cursor);
      if newline.None? {
        return;
      }
      var row := parse(data[cursor..newline.value]);
      if row.None? || !RowAccepted(plan, index, row.value) {
        return None;
      }
      ghost var before := offsets;
      offsets := offsets + [(cursor, newline.value)];
      assert forall i :: 0 <= i < index ==> offsets[i] == before[i] && LineAccepted(i);
      assert LineAccepted(index);
    }

    /** Indexes the first `target` lines, newline by newline. */
    method IndexLines(target: nat) returns (cursor: Option<nat>)
      requires offsets == [] && target <= plan.rowCount
      modifies this`offsets
      ensures cursor.None? ==> exists i :: 0 <= i < target && !LineAccepted(i)
      ensures cursor.Some? ==> Valid() && |offsets| == target && LinesAfter(data, target, cursor.value)
      ensures cursor.Some? ==> forall i :: 0 <= i < target ==> LineAccepted(i)
      ensures cursor.Some? ==> cursor.value == if target == 0 then 0 else offsets[target - 1].1 + 1
    {
      assert Valid();
      hide TerminatedLines, LinesAfter, LineAccepted, Tiles;
      LinesAfterNone(data);
      var at: nat := 0;
      for index := 0 to target
        invariant Valid() && |offsets| == index && LinesAfter(data, index, at)
        invariant forall i :: 0 <= i < index ==> LineAccepted(i)
        invariant at == if index == 0 then 0 else offsets[index - 1].1 + 1
      {
        var newline := IndexLine(index, at);
        if newline.None? {
          return None;
        }
        at := newline.value + 1;
      }
      cursor := Some(at);
    }

    /** It succeeds exactly on indexable files, and then the offsets tile their first rows. */
    method BuildIndex(requiredEnd: Time, verifyFullFile: bool) returns (ok: bool)
      requires offsets == []
      modifies this
      ensures ok <==> Indexable(TargetCount(requiredEnd, verifyFullFile))
      ensures ok ==> Valid() && |offsets| == TargetCount(requiredEnd, verifyFullFile)
      ensures ok ==> indexedByteCount == offsets[|offsets| - 1].1 + 1
      ensures ok ==> (fullFileVerified <==> |offsets| == plan.rowCount)
      ensures open == old(open)
    {
      var target := TargetCount(requiredEnd, verifyFullFile);
      fullFileVerified := false;
      if target < 1 || target > plan.rowCount {
        return false;
      }
      var cursor := IndexLines(target);
      if cursor.None? {
        return false;
      }
      indexedByteCount := cursor.value;
      LengthAfter(data, target, cursor.value);
      if target == plan.rowCount {
        assert data[..|data|] == data;
        if cursor.value != |data| || hash(data[..cursor.value]) != plan.outputHash {
          return false;
        }
        fullFileVerified := true;
      }
      ok := true;
    }

    /** The row of the minute that contains `asOf`, found by index arithmetic. */
    function RowAt(asOf: Time): RowResult
      requires Valid()
      reads this
    {
      var index := (asOf - plan.startAt) / MINUTE - 1;
      if index < 0 || index >= plan.rowCount then Found(None)
      else if !open then Closed
      else if index >= |offsets| then Found(None)
      else
        assert LineAccepted(index);
        var row := parse(data[offsets[index].0..offsets[index].1]).value;
        if row.measuredAt > asOf then Unsafe else Found(Some(row))
    }

    /** The indexed rows in file order. */
    ghost function Rows(): (rows: seq<Row>)
      requires Valid()
      reads this
      ensures |rows| == |offsets|
      ensures forall i :: 0 <= i < |rows| ==> LineAccepted(i) && rows[i] == parse(TerminatedLines(data, 0)[i]).value
    {
      var count := |offsets|;
      seq(count, i requires 0 <= i < count && count <= |TerminatedLines(data, 0)| && LineAccepted(i) =>
            parse(TerminatedLines(data, 0)[i]).value)
    }

    method Close()
      modifies this
      ensures !open && offsets == old(offsets)
    {
      open := false;
    }
  }

  /** The length of the first `count` lines with their newlines. */
  function TerminatedLength(b: Bytes, count: nat): nat
    requires count <= |TerminatedLines(b, 0)|
  {
    |Joined(TerminatedLines(b, 0)[..count])|
  }

  /** Lines from `index` on are the lines of the file from `cursor` on, and `cursor` is where the first `index` end. */
  ghost predicate LinesAfter(b: Bytes, index: nat, cursor: nat) {
    && cursor <= |b| && index <= |TerminatedLines(b, 0)|
    && TerminatedLines(b, 0)[index..] == TerminatedLines(b, cursor)
    && |Joined(TerminatedLines(b, 0)[..index])| == cursor
  }

  lemma LinesAfterNone(b: Bytes)
    ensures LinesAfter(b, 0, 0)
  {
    assert TerminatedLines(b, 0)[..0] == [];
  }

  lemma LinesAfterNext(b: Bytes, index: nat, cursor: nat)
    requires LinesAfter(b, index, cursor)
    ensures var newline := FindNewline(b, cursor);
            if newline.None? then index == |TerminatedLines(b, 0)|
            else index < |TerminatedLines(b, 0)|
                 && TerminatedLines(b, 0)[index] == b[cursor..newline.value]
                 && LinesAfter(b, index + 1, newline.value + 1)
  {
    var lines, newline := TerminatedLines(b, 0), FindNewline(b, cursor);
    if newline.Some? {
      assert lines[index..] == [b[cursor..newline.value]] + TerminatedLines(b, newline.value + 1);
      assert lines[index] == lines[index..][0] == b[cursor..newline.value];
      assert lines[index + 1..] == lines[index..][1..];
      assert lines[..index + 1] == lines[..index] + [lines[index]];
      JoinedAppend(lines[..index], lines[index]);
    }
  }

  lemma {:induction false} JoinedAppend(lines: seq<Bytes>, line: Bytes)
    ensures Joined(lines + [line]) == Joined(lines) + line + [NEWLINE]
  {
    if lines == [] {
      assert lines + [line] == [line];
      assert Joined([line]) == line + [NEWLINE] + Joined([]);
    } else {
      assert (lines + [line])[1..] == lines[1..] + [line];
      JoinedAppend(lines[1..], line);
    }
  }

  lemma LengthAfter(b: Bytes, index: nat, cursor: nat)
    requires LinesAfter(b, index, cursor)
    ensures index <= |TerminatedLines(b, 0)| && cursor <= |b|
    ensures TerminatedLength(b, index) == cursor
  {
  }

  // ---------------------------------------------------------------- lookup by arithmetic is lookup by scan

  /** The first row whose minute [measuredAt, measuredAt + 1min) contains the instant. */
  function Scan(rows: seq<Row>, asOf: Time): Option<Row> {
    if rows == [] then None
    else if rows[0].measuredAt <= asOf < rows[0].measuredAt + MINUTE then Some(rows[0])
    else Scan(rows[1..], asOf)
  }

  lemma {:induction false} ScanFinds(rows: seq<Row>, asOf: Time, i: nat)
    requires i < |rows| && rows[i].measuredAt <= asOf < rows[i].measuredAt + MINUTE
    requires forall j :: 0 <= j < |rows| && j != i ==> !(rows[j].measuredAt <= asOf < rows[j].measuredAt + MINUTE)
    ensures Scan(rows, asOf) == Some(rows[i])
  {
    if i <= 0 {
    } else {
      assert rows[1..][i - 1] == rows[i];
      assert forall j :: 0 <= j < |rows| - 1 ==> rows[1..][j] == rows[j + 1];
      ScanFinds(rows[1..], asOf, i - 1);
    }
  }

  lemma {:induction false} ScanMisses(rows: seq<Row>, asOf: Time)
    requires forall j :: 0 <= j < |rows| ==> !(rows[j].measuredAt <= asOf < rows[j].measuredAt + MINUTE)
    ensures Scan(rows, asOf) == None
  {
    if rows == [] {
    } else {
      assert forall j :: 0 <= j < |rows| - 1 ==> rows[1..][j] == rows[j + 1];
      ScanMisses(rows[1..], asOf);
    }
  }

  /** An instant lies in minute k after the start exactly when flooring says so. */
  lemma MinuteOf(delta: Time, k: int)
    ensures k * MINUTE <= delta < (k + 1) * MINUTE <==> delta / MINUTE == k
  {
  }

  /** On an open shard, the arithmetic lookup is the linear scan over the indexed rows, never unsafe. */
  lemma RowAtIsScan(shard: IndexedJsonlShard, asOf: Time)
    requires shard.Valid() && shard.open
    ensures shard.RowAt(asOf) == Found(Scan(shard.Rows(), asOf))
  {
    var rows, delta := shard.Rows(), asOf - shard.plan.startAt;
    var index := delta / MINUTE - 1;
    forall j | 0 <= j < |rows| && j != index
      ensures !(rows[j].measuredAt <= asOf < rows[j].measuredAt + MINUTE)
    {
      assert shard.LineAccepted(j);
      MinuteOf(delta, j + 1);
    }
    if 0 <= index < |rows| {
      assert shard.LineAccepted(index);
      MinuteOf(delta, index + 1);
      ScanFinds(rows, asOf, index);
    } else {
      ScanMisses(rows, asOf);
    }
  }

  /** Point in time: no feature of a returned row was observed or became available after the requested instant. */
  lemma RowAtIsPointInTime(shard: IndexedJsonlShard, asOf: Time, name: string)
    requires shard.Valid() && shard.open && shard.RowAt(asOf).Found? && shard.RowAt(asOf).row.Some?
    requires name in shard.RowAt(asOf).row.value.features
    ensures var feature := shard.RowAt(asOf).row.value.features[name];
            feature.observedAt <= asOf && feature.availableAt <= asOf && feature.source in shard.plan.sources
  {
    var index := (asOf - shard.plan.startAt) / MINUTE - 1;
    assert shard.LineAccepted(index);
  }

  // ---------------------------------------------------------------- how far the index reaches

  /** The last whole minute the index must reach: that of the required end, or of the shard's end if it comes first. */
  function Reach(plan: Plan, requiredEnd: Time): Time {
    if requiredEnd < plan.endAt then requiredEnd else plan.endAt
  }

  /** A built index holds the row of every minute that ends by the required end and by the end of the shard; unless the
      whole file was asked for, it holds no later one; and every instant from the first of its minutes up to that end
      finds the row of its minute. */
  lemma IndexReachesTheEnd(shard: IndexedJsonlShard, requiredEnd: Time, verifyFullFile: bool, asOf: Time)
    requires shard.Valid() && shard.open && shard.plan.rowCount == (shard.plan.endAt - shard.plan.startAt) / MINUTE
    requires |shard.offsets| == shard.TargetCount(requiredEnd, verifyFullFile) <= shard.plan.rowCount
    ensures shard.plan.startAt + MINUTE <= asOf <= Reach(shard.plan, requiredEnd) ==>
              var found := shard.RowAt(asOf);
              found.Found? && found.row.Some?
              && found.row.value.measuredAt <= asOf < found.row.value.measuredAt + MINUTE
    ensures !verifyFullFile ==>
              forall i :: 0 <= i < |shard.Rows()| ==> shard.Rows()[i].measuredAt <= Reach(shard.plan, requiredEnd)
  {
    var start, reach := shard.plan.startAt, Reach(shard.plan, requiredEnd);
    WholeMinutes(reach - start);
    WholeMinutes(shard.plan.endAt - start);
    if start + MINUTE <= asOf <= reach {
      var index := (asOf - start) / MINUTE - 1;
      WholeMinutes(asOf - start);
      MinutesGrow(asOf - start, reach - start);
      MinutesGrow(asOf - start, shard.plan.endAt - start);
      assert 0 <= index < |shard.offsets|;
      assert shard.LineAccepted(index);
    }
    if !verifyFullFile {
      forall i | 0 <= i < |shard.Rows()|
        ensures shard.Rows()[i].measuredAt <= reach
      {
        assert shard.LineAccepted(i);
        assert (i + 1) * MINUTE <= |shard.offsets| * MINUTE;
      }
    }
  }

  lemma WholeMinutes(delta: int)
    ensures delta / MINUTE * MINUTE <= delta < delta / MINUTE * MINUTE + MINUTE
  {
  }

  lemma MinutesGrow(a: int, b: int)
    ensures a <= b ==> a / MINUTE <= b / MINUTE
  {
  }

  // ---------------------------------------------------------------- what is indexed

  /** Line i of the file is the row of minute i + 1 of the shard: of its instrument, only of its sources, and with
      nothing observed or available later than the minute. */
  ghost predicate LineFits(shard: IndexedJsonlShard, i: nat) {
    var lines, plan := TerminatedLines(shard.data, 0), shard.plan;
    && i < |lines| && shard.parse(lines[i]).Some?
    && var row := shard.parse(lines[i]).value;
       && row.measuredAt == plan.startAt + 60_000_000 * (i + 1)
       && row.symbol == "BTCUSDT" && row.timeframe == "1m"
       && (forall source :: source in row.unavailable ==> source in plan.sources)
       && (forall name :: name in row.features ==>
             var feature := row.features[name];
             feature.source in plan.sources
             && feature.observedAt <= row.measuredAt && feature.availableAt <= row.measuredAt)
  }

  /** What the build accepts: a target within the plan, lines that fit, and for the whole file no byte more and the
      recorded hash. */
  lemma IndexableIff(shard: IndexedJsonlShard, target: int)
    ensures shard.Indexable(target) <==>
            && 1 <= target <= shard.plan.rowCount
            && (forall i :: 0 <= i < target ==> LineFits(shard, i))
            && (target == shard.plan.rowCount ==>
                  && target <= |TerminatedLines(shard.data, 0)|
                  && |Joined(TerminatedLines(shard.data, 0)[..target])| == |shard.data|
                  && shard.hash(shard.data) == shard.plan.outputHash)
  {
    hide TerminatedLines, Joined;
    forall i: nat
      ensures shard.LineAccepted(i) <==> LineFits(shard, i)
    {
    }
    if 1 <= target && forall i :: 0 <= i < target ==> LineFits(shard, i) {
      assert LineFits(shard, target - 1);
    }
    hide LineFits;
  }
}
