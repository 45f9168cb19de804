/** The composite provider: merges the shards' rows of an instant, behind a least-recently-used cache. */
module FeatureProvider {
  import opened FeatureShard
  import opened Results

  // ---------------------------------------------------------------- merging shards

  /** What one shard contributes to an instant. */
  datatype Part = Part(features: map<string, Feature>, unavailable: set<string>)

  datatype Merged = Merged(values: map<string, Feature>, unavailable: set<string>)

  ghost predicate Agree(parts: seq<Part>) {
    forall i, j, name ::
      0 <= i < |parts| && 0 <= j < |parts| && name in parts[i].features && name in parts[j].features ==>
        parts[i].features[name] == parts[j].features[name]
  }

  /** The names, values and unavailable sources of a merge, whatever the order of the parts. */
  ghost predicate IsMergeOf(parts: seq<Part>, merged: Merged) {
    && (forall name :: name in merged.values <==> exists i :: 0 <= i < |parts| && name in parts[i].features)
    && (forall i, name :: 0 <= i < |parts| && name in parts[i].features ==>
          name in merged.values && merged.values[name] == parts[i].features[name])
    && (forall source :: source in merged.unavailable <==>
        exists i :: 0 <= i < |parts| && source in parts[i].unavailable)
  }

  /** Adds one part's features in any order; None is the conflict ValueError. */
  method AddPart(merged: Merged, part: Part) returns (result: Option<Merged>)
    ensures result.Some? <==> forall name :: name in merged.values && name in part.features ==>
                                merged.values[name] == part.features[name]
    ensures result.Some? ==>
              result.value == Merged(merged.values + part.features, merged.unavailable + part.unavailable)
  {
    var values, todo := merged.values, part.features.Keys;
    while todo != {}
      invariant todo <= part.features.Keys
      invariant values.Keys == merged.values.Keys + (part.features.Keys - todo)
      invariant forall name :: name in part.features && name !in todo ==> values[name] == part.features[name]
      invariant forall name :: name in merged.values ==> name in values && values[name] == merged.values[name]
      decreases todo
    {
      var name :| name in todo;
      if name in values && values[name] != part.features[name] {
        return None;
      }
      values := values[name := part.features[name]];
      todo := todo - {name};
    }
    assert values == merged.values + part.features;
    result := Some(Merged(values, merged.unavailable + part.unavailable));
  }

  lemma MergeOne(parts: seq<Part>, merged: Merged, part: Part)
    requires IsMergeOf(parts, merged) && Agree(parts)
    ensures Agree(parts + [part]) <==>
            forall name :: name in merged.values && name in part.features ==> merged.values[name] == part.features[name]
    ensures Agree(parts + [part]) ==>
              IsMergeOf(parts + [part], Merged(merged.values + part.features, merged.unavailable + part.unavailable))
  {
    AgreeMore(parts, part);
    hide Agree;
    if Agree(parts + [part]) {
      forall name | name in merged.values && name in part.features
        ensures merged.values[name] == part.features[name]
      {
        var i :| 0 <= i < |parts| && name in parts[i].features;
      }
      MergeExtends(parts, merged, part);
    }
    hide IsMergeOf;
  }

  lemma AgreeMore(parts: seq<Part>, part: Part)
    requires Agree(parts)
    ensures Agree(parts + [part]) <==>
            forall i, name :: 0 <= i < |parts| && name in parts[i].features && name in part.features ==>
              parts[i].features[name] == part.features[name]
  {
    var more := parts + [part];
    assert more[|parts|] == part;
    assert forall i :: 0 <= i < |parts| ==> more[i] == parts[i];
  }

  lemma MergeExtends(parts: seq<Part>, merged: Merged, part: Part)
    requires IsMergeOf(parts, merged)
    requires forall name :: name in merged.values && name in part.features ==>
               merged.values[name] == part.features[name]
    ensures IsMergeOf(parts + [part], Merged(merged.values + part.features, merged.unavailable + part.unavailable))
  {
    var more := parts + [part];
    assert more[|parts|] == part;
    assert forall i :: 0 <= i < |parts| ==> more[i] == parts[i];
    forall name
      ensures name in (merged.values + part.features) <==> exists i :: 0 <= i < |more| && name in more[i].features
    {
      if name in merged.values {
        var i :| 0 <= i < |parts| && name in parts[i].features;
        assert name in more[i].features;
      }
    }
    forall source
      ensures source in merged.unavailable + part.unavailable <==>
              exists i :: 0 <= i < |more| && source in more[i].unavailable
    {
      if source in merged.unavailable {
        var i :| 0 <= i < |parts| && source in parts[i].unavailable;
        assert source in more[i].unavailable;
      }
    }
  }

  /** The merge loop over the shards: it succeeds exactly when no two parts disagree on a name. */
  method MergeParts(parts: seq<Part>) returns (result: Option<Merged>)
    ensures result.Some? <==> Agree(parts)
    ensures result.Some? ==> IsMergeOf(parts, result.value)
  {
    hide Agree, IsMergeOf;
    var merged := Merged(map[], {});
    NothingMerged();
    assert parts[..0] == [];
    for k := 0 to |parts|
      invariant Agree(parts[..k]) && IsMergeOf(parts[..k], merged)
    {
      MergeOne(parts[..k], merged, parts[k]);
      assert parts[..k + 1] == parts[..k] + [parts[k]];
      var next := AddPart(merged, parts[k]);
      if next.None? {
        AgreePrefix(parts, k + 1);
        return None;
      }
      merged := next.value;
    }
    assert parts[..|parts|] == parts;
    result := Some(merged);
  }

  lemma NothingMerged()
    ensures Agree([]) && IsMergeOf([], Merged(map[], {}))
  {
  }

  lemma AgreePrefix(parts: seq<Part>, k: nat)
    requires k <= |parts|
    ensures Agree(parts) ==> Agree(parts[..k])
  {
  }

  /** A merge is determined by the parts it is a merge of, and their order does not matter. */
  lemma MergeIgnoresOrder(parts: seq<Part>, others: seq<Part>, a: Merged, b: Merged)
    requires multiset(parts) == multiset(others)
    requires IsMergeOf(parts, a) && IsMergeOf(others, b)
    ensures a == b
  {
    assert forall p :: p in parts <==> p in multiset(parts);
    assert forall p :: p in others <==> p in multiset(others);
    hide IsMergeOf;
    MergeGrows(parts, others, a, b);
    MergeGrows(others, parts, b, a);
    assert a.values == b.values && a.unavailable == b.unavailable;
  }

  /** A merge of more parts holds what a merge of fewer holds. */
  lemma MergeGrows(parts: seq<Part>, more: seq<Part>, a: Merged, b: Merged)
    requires forall p :: p in parts ==> p in more
    requires IsMergeOf(parts, a) && IsMergeOf(more, b)
    ensures forall name :: name in a.values ==> name in b.values && b.values[name] == a.values[name]
    ensures forall source :: source in a.unavailable ==> source in b.unavailable
  {
    forall name | name in a.values
      ensures name in b.values && b.values[name] == a.values[name]
    {
      var i :| 0 <= i < |parts| && name in parts[i].features;
      assert parts[i] in more;
      var j :| 0 <= j < |more| && more[j] == parts[i];
    }
    forall source | source in a.unavailable
      ensures source in b.unavailable
    {
      var i :| 0 <= i < |parts| && source in parts[i].unavailable;
      assert parts[i] in more;
      var j :| 0 <= j < |more| && more[j] == parts[i];
    }
  }

  lemma AgreementIgnoresOrder(parts: seq<Part>, others: seq<Part>)
    requires multiset(parts) == multiset(others) && Agree(parts)
    ensures Agree(others)
  {
    forall i, j, name | 0 <= i < |others| && 0 <= j < |others|
                        && name in others[i].features && name in others[j].features
      ensures others[i].features[name] == others[j].features[name]
    {
      assert others[i] in multiset(others) && others[j] in multiset(others);
      assert others[i] in parts && others[j] in parts;
      var p :| 0 <= p < |parts| && parts[p] == others[i];
      var q :| 0 <= q < |parts| && parts[q] == others[j];
    }
  }

  // ---------------------------------------------------------------- most recently used

  /** An OrderedDict's keys after move_to_end(key), or after inserting it. */
  function Touch<K(==)>(order: seq<K>, key: K): seq<K> {
    Without(order, key) + [key]
  }

  function Without<K(==)>(order: seq<K>, key: K): seq<K> {
    if order == [] then []
    else if order[0] == key then Without(order[1..], key)
    else [order[0]] + Without(order[1..], key)
  }

  /** The distinct keys used, least recently used first. */
  function ByLastUse<K(==)>(used: seq<K>): seq<K> {
    if used == [] then [] else Touch(ByLastUse(used[..|used| - 1]), used[|used| - 1])
  }

  function Last<K>(s: seq<K>, n: nat): seq<K> {
    if |s| <= n then s else s[|s| - n..]
  }

  ghost predicate NoDuplicates<K>(s: seq<K>) {
    forall i, j :: 0 <= i < j < |s| ==> s[i] != s[j]
  }

  lemma {:induction false} WithoutFacts<K(!new)>(order: seq<K>, key: K)
    ensures key !in Without(order, key)
    ensures forall k :: k in Without(order, key) <==> k in order && k != key
    ensures NoDuplicates(order) ==> NoDuplicates(Without(order, key))
    ensures key !in order ==> Without(order, key) == order
    ensures NoDuplicates(order) && key in order ==> |Without(order, key)| == |order| - 1
  {
    if order == [] {
    } else {
      WithoutFacts(order[1..], key);
      assert order == [order[0]] + order[1..];
      if NoDuplicates(order) {
        assert order[0] !in order[1..];
      }
    }
  }

  lemma {:induction false} WithoutConcat<K(!new)>(a: seq<K>, b: seq<K>, key: K)
    ensures Without(a + b, key) == Without(a, key) + Without(b, key)
  {
    if a == [] {
      assert a + b == b;
    } else {
      assert (a + b)[1..] == a[1..] + b;
      WithoutConcat(a[1..], b, key);
    }
  }

  lemma {:induction false} ByLastUseFacts<K(!new)>(used: seq<K>)
    ensures NoDuplicates(ByLastUse(used))
    ensures forall k :: k in ByLastUse(used) <==> k in used
  {
    if used == [] {
    } else {
      var n := |used| - 1;
      ByLastUseFacts(used[..n]);
      WithoutFacts(ByLastUse(used[..n]), used[n]);
      assert used == used[..n] + [used[n]];
    }
  }

  /** Keeping the last `capacity` keys commutes with using one more key and evicting the first if there are too many. */
  lemma TouchKeepsLast<K(!new)>(order: seq<K>, capacity: nat, key: K)
    requires NoDuplicates(order) && capacity > 0
    ensures Last(Touch(order, key), capacity) == Last(Touch(Last(order, capacity), key), capacity)
    ensures |Touch(Last(order, capacity), key)| <= capacity + 1
  {
    var cut := if |order| <= capacity then 0 else |order| - capacity;
    var older, recent := order[..cut], order[cut..];
    assert order == older + recent && recent == Last(order, capacity);
    assert NoDuplicates(recent) && (cut > 0 ==> |recent| == capacity) && (cut == 0 ==> older == []);
    assert |recent| <= capacity;
    hide Without, Last, NoDuplicates;
    WithoutConcat(older, recent, key);
    RecentSize(recent, key);
    var front, back := Without(older, key), Touch(recent, key);
    assert Touch(order, key) == front + back;
    if cut > 0 {
      LastOfConcat(front, back, capacity);
    } else {
      WithoutFacts(older, key);
      assert front == [];
      assert front + back == back;
    }
  }

  lemma RecentSize<K(!new)>(recent: seq<K>, key: K)
    requires NoDuplicates(recent)
    ensures |recent| <= |Touch(recent, key)| <= |recent| + 1
  {
    WithoutFacts(recent, key);
  }

  lemma LastOfConcat<K(!new)>(a: seq<K>, b: seq<K>, n: nat)
    requires n <= |b|
    ensures Last(a + b, n) == Last(b, n)
  {
    assert |a + b| > n ==> (a + b)[|a + b| - n..] == b[|b| - n..];
    assert |a + b| <= n ==> a + b == b;
  }

  /** The last position at which a key was used. */
  function LastUse<K(==)>(used: seq<K>, key: K): nat
    requires key in used
  {
    if used[|used| - 1] == key then |used| - 1 else LastUse(used[..|used| - 1], key)
  }

  /** The order is by last use, so what the cache keeps was used later than anything it dropped. */
  lemma {:induction false} OrderedByLastUse<K(!new)>(used: seq<K>, i: nat, j: nat)
    requires i < j < |ByLastUse(used)|
    ensures ByLastUse(used)[i] in used && ByLastUse(used)[j] in used
    ensures LastUse(used, ByLastUse(used)[i]) < LastUse(used, ByLastUse(used)[j])
  {
    var n := |used| - 1;
    var before, key := ByLastUse(used[..n]), used[n];
    ByLastUseFacts(used[..n]);
    WithoutFacts(before, key);
    var rest := Without(before, key);
    WasUsed(used, i);
    WasUsed(used, j);
    LastUseBound(used, ByLastUse(used)[i]);
    if j < |rest| {
      var x, y := WithoutOrder(before, key, i, j);
      OrderedByLastUse(used[..n], x, y);
    } else {
      assert rest[i] != key;
      LastUseBound(used[..n], rest[i]);
    }
  }

  lemma WasUsed<K(!new)>(used: seq<K>, i: nat)
    requires i < |ByLastUse(used)|
    ensures ByLastUse(used)[i] in used
  {
    ByLastUseFacts(used);
    var k := ByLastUse(used)[i];
    assert k in ByLastUse(used);
  }

  lemma {:induction false} LastUseBound<K(!new)>(used: seq<K>, key: K)
    requires key in used
    ensures LastUse(used, key) < |used| && used[LastUse(used, key)] == key
    ensures forall i :: LastUse(used, key) < i < |used| ==> used[i] != key
  {
    var n := |used| - 1;
    if used[n] == key {
    } else {
      assert used == used[..n] + [used[n]];
      LastUseBound(used[..n], key);
    }
  }

  lemma {:induction false} WithoutOrder<K(!new)>(order: seq<K>, key: K, i: nat, j: nat) returns (x: nat, y: nat)
    requires i < j < |Without(order, key)|
    ensures x < y < |order| && order[x] == Without(order, key)[i] && order[y] == Without(order, key)[j]
  {
    if order[0] == key {
      x, y := WithoutOrder(order[1..], key, i, j);
      x, y := x + 1, y + 1;
    } else if i > 0 {
      x, y := WithoutOrder(order[1..], key, i - 1, j - 1);
      x, y := x + 1, y + 1;
    } else {
      x := 0;
      y := WithoutMember(order[1..], key, j - 1);
      y := y + 1;
    }
  }

  lemma {:induction false} WithoutMember<K(!new)>(order: seq<K>, key: K, j: nat) returns (y: nat)
    requires j < |Without(order, key)|
    ensures y < |order| && order[y] == Without(order, key)[j]
  {
    if order[0] == key {
      y := WithoutMember(order[1..], key, j);
      y := y + 1;
    } else if j > 0 {
      y := WithoutMember(order[1..], key, j - 1);
      y := y + 1;
    } else {
      y := 0;
    }
  }

  // ---------------------------------------------------------------- the provider

  datatype Request = Request(symbol: string, timeframe: string, asOf: Time)

  datatype FeatureSet = FeatureSet(
    symbol: string, timeframe: string, measuredAt: Time, values: map<string, Feature>, unavailable: set<string>)

  datatype Answer = Features(features: FeatureSet) | Raises

  /** What a shard contributes: its row's features, or all its sources as unavailable. */
  function PartOf(sources: set<string>, row: Option<Row>): Part {
    if row.None? then Part(map[], sources) else Part(row.value.features, row.value.unavailable)
  }

  ghost predicate Ready(shards: seq<IndexedJsonlShard>)
    reads shards
  {
    forall i :: 0 <= i < |shards| ==> shards[i].Valid() && shards[i].open
  }

  /** The parts of an instant, by linear scan of every shard: no index, no cache. */
  ghost function Parts(shards: seq<IndexedJsonlShard>, asOf: Time): (parts: seq<Part>)
    requires Ready(shards)
    reads shards
    ensures |parts| == |shards|
    ensures forall i :: 0 <= i < |parts| ==> parts[i] == PartOf(shards[i].plan.sources, Scan(shards[i].Rows(), asOf))
  {
    hide Scan, PartOf;
    if shards == [] then []
    else [PartOf(shards[0].plan.sources, Scan(shards[0].Rows(), asOf))] + Parts(shards[1..], asOf)
  }

  ghost function AllUnavailable(parts: seq<Part>): set<string> {
    set i, source | 0 <= i < |parts| && source in parts[i].unavailable :: source
  }

  function Sources(values: map<string, Feature>): set<string> {
    set name | name in values :: values[name].source
  }

  /** The feature set a request must get: the merge of the parts, less the sources that did provide a value. */
  ghost predicate IsAnswer(request: Request, parts: seq<Part>, s: FeatureSet) {
    && s.symbol == request.symbol && s.timeframe == request.timeframe && s.measuredAt == request.asOf
    && IsMergeOf(parts, Merged(s.values, AllUnavailable(parts)))
    && s.unavailable == AllUnavailable(parts) - Sources(s.values)
  }

  lemma MergeUnavailable(parts: seq<Part>, merged: Merged)
    requires IsMergeOf(parts, merged)
    ensures merged.unavailable == AllUnavailable(parts)
  {
  }

  lemma AnswersAgree(request: Request, parts: seq<Part>, s: FeatureSet)
    requires IsAnswer(request, parts, s)
    ensures Agree(parts)
  {
    forall i, j, name | 0 <= i < |parts| && 0 <= j < |parts| && name in parts[i].features && name in parts[j].features
      ensures parts[i].features[name] == parts[j].features[name]
    {
      assert parts[i].features[name] == s.values[name] == parts[j].features[name];
    }
  }

  /** The answer to a request is unique, so a cached one and a recomputed one are equal. */
  lemma AnswerIsUnique(request: Request, parts: seq<Part>, s: FeatureSet, t: FeatureSet)
    requires IsAnswer(request, parts, s) && IsAnswer(request, parts, t)
    ensures s == t
  {
    hide IsMergeOf;
    MergeIgnoresOrder(parts, parts, Merged(s.values, AllUnavailable(parts)), Merged(t.values, AllUnavailable(parts)));
  }

  /** Whatever shards it was merged from, an answer holds nothing that was not yet observed or available. */
  lemma AnswerIsPointInTime(shards: seq<IndexedJsonlShard>, request: Request, s: FeatureSet, name: string)
    requires Ready(shards) && IsAnswer(request, Parts(shards, request.asOf), s) && name in s.values
    ensures s.values[name].observedAt <= request.asOf && s.values[name].availableAt <= request.asOf
  {
    var parts := Parts(shards, request.asOf);
    var i :| 0 <= i < |parts| && name in parts[i].features;
    RowAtIsScan(shards[i], request.asOf);
    RowAtIsPointInTime(shards[i], request.asOf, name);
  }

  /** The row of a shard whose minute holds the instant, or that there is none. */
  ghost predicate MinuteRow(shard: IndexedJsonlShard, asOf: Time, r: Option<Row>)
    requires shard.Valid()
    reads shard
  {
    match r
    case None => forall i :: 0 <= i < |shard.Rows()| ==> !InMinute(shard.Rows()[i], asOf)
    case Some(row) => row in shard.Rows() && InMinute(row, asOf)
  }

  predicate InMinute(row: Row, asOf: Time) {
    row.measuredAt <= asOf < row.measuredAt + 60_000_000
  }

  lemma {:induction false} ScanIsMinuteRow(rows: seq<Row>, asOf: Time)
    ensures match Scan(rows, asOf)
            case None => forall i :: 0 <= i < |rows| ==> !InMinute(rows[i], asOf)
            case Some(row) => row in rows && InMinute(row, asOf)
  {
    if rows != [] {
      ScanIsMinuteRow(rows[1..], asOf);
      assert forall i :: 1 <= i < |rows| ==> rows[i] == rows[1..][i - 1];
    }
  }

  /** A shard has at most one row in a minute. */
  lemma OneRowAMinute(shard: IndexedJsonlShard, asOf: Time, a: Row, b: Row)
    requires shard.Valid() && a in shard.Rows() && b in shard.Rows() && InMinute(a, asOf) && InMinute(b, asOf)
    ensures a == b
  {
    hide IndexedJsonlShard.Valid, IndexedJsonlShard.Rows, InMinute;
    var rows := shard.Rows();
    var i :| 0 <= i < |rows| && rows[i] == a;
    var j :| 0 <= j < |rows| && rows[j] == b;
    MinuteOfRow(shard, asOf, i);
    MinuteOfRow(shard, asOf, j);
  }

  lemma MinuteRowIsScan(shard: IndexedJsonlShard, asOf: Time, r: Option<Row>)
    requires shard.Valid() && MinuteRow(shard, asOf, r)
    ensures r == Scan(shard.Rows(), asOf)
  {
    hide Scan, IndexedJsonlShard.Valid, IndexedJsonlShard.Rows;
    var found := Scan(shard.Rows(), asOf);
    ScanIsMinuteRow(shard.Rows(), asOf);
    if r.Some? && found.Some? {
      OneRowAMinute(shard, asOf, r.value, found.value);
    }
  }

  lemma MinuteOfRow(shard: IndexedJsonlShard, asOf: Time, i: nat)
    requires shard.Valid() && i < |shard.Rows()| && InMinute(shard.Rows()[i], asOf)
    ensures (asOf - shard.plan.startAt) / MINUTE == i + 1
  {
    assert shard.LineAccepted(i);
    MinuteOf(asOf - shard.plan.startAt, i + 1);
  }

  /** What one shard knows of an instant: the features of its row ... */
  ghost predicate Gives(shard: IndexedJsonlShard, asOf: Time, name: string, feature: Feature)
    requires shard.Valid()
    reads shard
  {
    exists row :: MinuteRow(shard, asOf, Some(row)) && name in row.features && row.features[name] == feature
  }

  /** ... and the sources its row names as unavailable, or all its own without a row. */
  ghost predicate Lacks(shard: IndexedJsonlShard, asOf: Time, source: string)
    requires shard.Valid()
    reads shard
  {
    || (MinuteRow(shard, asOf, None) && source in shard.plan.sources)
    || exists row :: MinuteRow(shard, asOf, Some(row)) && source in row.unavailable
  }

  /** A part says what the shard's row of that minute says. */
  ghost predicate PartFits(shard: IndexedJsonlShard, asOf: Time, part: Part)
    requires shard.Valid()
    reads shard
  {
    && (forall name, feature :: Gives(shard, asOf, name, feature) <==>
          name in part.features && part.features[name] == feature)
    && (forall source :: Lacks(shard, asOf, source) <==> source in part.unavailable)
  }

  lemma PartIsOfRows(shard: IndexedJsonlShard, asOf: Time)
    requires shard.Valid()
    ensures PartFits(shard, asOf, PartOf(shard.plan.sources, Scan(shard.Rows(), asOf)))
  {
    hide Scan, IndexedJsonlShard.Valid;
    var r := Scan(shard.Rows(), asOf);
    ScanIsMinuteRow(shard.Rows(), asOf);
    assert MinuteRow(shard, asOf, r);
    forall q: Option<Row> | MinuteRow(shard, asOf, q)
      ensures q == r
    {
      MinuteRowIsScan(shard, asOf, q);
    }
    hide MinuteRow;
  }

  /** An answer, in terms of the shards' rows of that minute: it holds exactly the features some row gives, with the
      values every row that gives them agrees on; unavailable is what some shard lacks and no value comes from. */
  lemma AnswerIsOfRows(shards: seq<IndexedJsonlShard>, request: Request, s: FeatureSet)
    requires Ready(shards) && IsAnswer(request, Parts(shards, request.asOf), s)
    ensures s.symbol == request.symbol && s.timeframe == request.timeframe && s.measuredAt == request.asOf
    ensures forall i, name, feature :: 0 <= i < |shards| && Gives(shards[i], request.asOf, name, feature) ==>
              name in s.values && s.values[name] == feature
    ensures forall name :: name in s.values ==>
              exists i :: 0 <= i < |shards| && Gives(shards[i], request.asOf, name, s.values[name])
    ensures forall source :: source in s.unavailable <==>
              && (exists i :: 0 <= i < |shards| && Lacks(shards[i], request.asOf, source))
              && forall name :: name in s.values ==> s.values[name].source != source
  {
    hide Gives, Lacks, PartOf, PartFits, Scan, IndexedJsonlShard.Valid, IsMergeOf, AllUnavailable;
    var parts := Parts(shards, request.asOf);
    forall i | 0 <= i < |shards|
      ensures PartFits(shards[i], request.asOf, parts[i])
    {
      PartIsOfRows(shards[i], request.asOf);
    }
    ValuesOfRows(shards, request.asOf, parts, Merged(s.values, AllUnavailable(parts)));
    UnavailableOfRows(shards, request.asOf, parts);
    hide Parts, Ready;
  }

  lemma ValuesOfRows(shards: seq<IndexedJsonlShard>, asOf: Time, parts: seq<Part>, merged: Merged)
    requires Ready(shards) && |parts| == |shards| && IsMergeOf(parts, merged)
    requires forall i :: 0 <= i < |shards| ==> PartFits(shards[i], asOf, parts[i])
    ensures forall i, name, feature :: 0 <= i < |shards| && Gives(shards[i], asOf, name, feature) ==>
              name in merged.values && merged.values[name] == feature
    ensures forall name :: name in merged.values ==>
              exists i :: 0 <= i < |shards| && Gives(shards[i], asOf, name, merged.values[name])
  {
    hide Gives, Lacks, IsMergeOf, IndexedJsonlShard.Valid;
    ValuesAreOfParts(parts, merged);
    forall name | name in merged.values
      ensures exists i :: 0 <= i < |shards| && Gives(shards[i], asOf, name, merged.values[name])
    {
      var i :| 0 <= i < |parts| && name in parts[i].features && parts[i].features[name] == merged.values[name];
      assert PartFits(shards[i], asOf, parts[i]);
      assert Gives(shards[i], asOf, name, merged.values[name]);
    }
  }

  lemma UnavailableOfRows(shards: seq<IndexedJsonlShard>, asOf: Time, parts: seq<Part>)
    requires Ready(shards) && |parts| == |shards|
    requires forall i :: 0 <= i < |shards| ==> PartFits(shards[i], asOf, parts[i])
    ensures forall source :: source in AllUnavailable(parts) <==>
              exists i :: 0 <= i < |shards| && Lacks(shards[i], asOf, source)
  {
    hide Gives, Lacks, IndexedJsonlShard.Valid, AllUnavailable;
    forall source
      ensures source in AllUnavailable(parts) <==> exists i :: 0 <= i < |shards| && Lacks(shards[i], asOf, source)
    {
      UnavailableIsOfParts(parts, source);
      if i :| 0 <= i < |shards| && Lacks(shards[i], asOf, source) {
        assert PartFits(shards[i], asOf, parts[i]);
      }
      if i :| 0 <= i < |parts| && source in parts[i].unavailable {
        assert PartFits(shards[i], asOf, parts[i]);
      }
    }
  }

  lemma ValuesAreOfParts(parts: seq<Part>, merged: Merged)
    requires IsMergeOf(parts, merged)
    ensures forall name :: name in merged.values ==>
              exists i :: 0 <= i < |parts| && name in parts[i].features
                          && parts[i].features[name] == merged.values[name]
    ensures forall i, name :: 0 <= i < |parts| && name in parts[i].features ==>
              name in merged.values && merged.values[name] == parts[i].features[name]
  {
  }

  lemma UnavailableIsOfParts(parts: seq<Part>, source: string)
    ensures source in AllUnavailable(parts) <==> exists i :: 0 <= i < |parts| && source in parts[i].unavailable
  {
  }

  /** The keys an OrderedDict keeps in order are its keys. */
  ghost predicate SameKeys(order: seq<Request>, cache: map<Request, FeatureSet>) {
    forall r :: r in cache <==> r in order
  }

  lemma KeysSame(order: seq<Request>, cache: map<Request, FeatureSet>, r: Request)
    requires SameKeys(order, cache)
    ensures r in cache <==> r in order
  {
  }

  class IndexedCompositeFeatureProvider {
    const shards: seq<IndexedJsonlShard>
    const requiredStart: Time
    const requiredEnd: Time
    const capacity: nat
    var closed: bool
    /** The OrderedDict: its keys in order, and its items. */
    var order: seq<Request>
    var cache: map<Request, FeatureSet>
    /** Every request answered so far. */
    ghost var used: seq<Request>

    predicate InBounds(request: Request) {
      requiredStart <= request.asOf <= requiredEnd
    }

    /** The cache holds right answers only, for exactly the most recently used requests, up to capacity. */
    ghost predicate Valid()
      reads this, shards
    {
      && capacity > 0
      && (!closed ==>
            && Ready(shards)
            && order == Last(ByLastUse(used), capacity)
            && SameKeys(order, cache)
            && (forall r :: r in cache ==> InBounds(r) && IsAnswer(r, Parts(shards, r.asOf), cache[r])))
      && (closed ==> order == [] && cache == map[] && forall i :: 0 <= i < |shards| ==> !shards[i].open)
    }

    constructor (shards: seq<IndexedJsonlShard>, requiredStart: Time, requiredEnd: Time)
      requires Ready(shards)
      ensures Valid() && !closed && used == []
      ensures this.shards == shards && this.requiredStart == requiredStart && this.requiredEnd == requiredEnd
      ensures 10_080 <= capacity <= 131_072
      ensures var minutes := (requiredEnd - requiredStart) / 60_000_000 + 1;
              capacity == if minutes <= 10_080 then 10_080 else if minutes <= 131_072 then minutes else 131_072
    {
      this.shards, this.requiredStart, this.requiredEnd := shards, requiredStart, requiredEnd;
      var interval := (requiredEnd - requiredStart) / MINUTE + 1;
      var bounded := if interval < 131_072 then interval else 131_072;
      capacity := if bounded < 7 * 24 * 60 then 7 * 24 * 60 else bounded;
      closed, order, cache, used := false, [], map[], [];
    }

    /** The shard loop: reads each shard's row by index, and merges. */
    method Merge(asOf: Time) returns (result: Option<Merged>)
      requires Ready(shards)
      ensures result.Some? <==> Agree(Parts(shards, asOf))
      ensures result.Some? ==> IsMergeOf(Parts(shards, asOf), result.value)
    {
      hide Agree, IsMergeOf, Parts, IndexedJsonlShard.RowAt, IndexedJsonlShard.Valid;
      var parts := [];
      ghost var expected := Parts(shards, asOf);
      for i := 0 to |shards|
        invariant parts == expected[..i]
      {
        PartRead(shards, asOf, i);
        parts := parts + [PartOf(shards[i].plan.sources, shards[i].RowAt(asOf).row)];
      }
      assert expected[..|shards|] == expected;
      result := MergeParts(parts);
    }

    /** A cache hit: move_to_end. */
    method Refresh(request: Request)
      requires Valid() && !closed && request in cache
      modifies this`order, this`used
      ensures Valid() && used == old(used) + [request]
    {
      hide IsAnswer, Touch, Last, ByLastUse, Parts, Ready;
      UseAgain(used, capacity, request);
      order := Touch(order, request);
      used := used + [request];
    }

    /** popitem(last=False). */
    method EvictOldest()
      requires order != [] && SameKeys(order, cache) && forall i, j :: 0 <= i < j < |order| ==> order[i] != order[j]
      modifies this`order, this`cache
      ensures order == old(order)[1..] && cache == old(cache) - {old(order)[0]} && SameKeys(order, cache)
    {
      EvictedKeys(order, cache);
      cache := cache - {order[0]};
      order := order[1..];
    }

    /** A cache miss: insert at the end, then evict the first entry if there are too many. */
    method Remember(request: Request, features: FeatureSet)
      requires Valid() && !closed && request !in cache && InBounds(request)
      requires IsAnswer(request, Parts(shards, request.asOf), features)
      modifies this`order, this`used, this`cache
      ensures Valid() && used == old(used) + [request]
    {
      hide IsAnswer, Last, ByLastUse, Parts, Ready, SameKeys;
      assert request !in order by { KeysSame(order, cache, request); }
      UseNew(used, capacity, request);
      InsertedKeys(order, cache, request, features);
      cache := cache[request := features];
      order := order + [request];
      if |order| > capacity {
        EvictOldest();
      }
      used := used + [request];
    }

    /** Answers from the cache when it can. The answer is the uncached merge either way; it raises exactly when closed,
        out of bounds, or when shards disagree, and then nothing changes. */
    method LoadFeatures(request: Request) returns (answer: Answer)
      requires Valid()
      modifies this`order, this`used, this`cache
      ensures Valid()
      ensures answer.Features? <==>
              !closed && requiredStart <= request.asOf <= requiredEnd && Agree(Parts(shards, request.asOf))
      ensures answer.Features? ==> IsAnswer(request, Parts(shards, request.asOf), answer.features)
      ensures answer.Features? ==> used == old(used) + [request]
      ensures answer.Raises? ==> used == old(used) && order == old(order) && cache == old(cache)
    {
      hide Agree, IsMergeOf, Last, ByLastUse, Parts;
      if closed || !InBounds(request) {
        return Raises;
      }
      ghost var parts := Parts(shards, request.asOf);
      if request in cache {
        AnswersAgree(request, parts, cache[request]);
        answer := Features(cache[request]);
        Refresh(request);
        return;
      }
      var merged := Merge(request.asOf);
      if merged.None? {
        return Raises;
      }
      MergeUnavailable(parts, merged.value);
      var features := FeatureSet(request.symbol, request.timeframe, request.asOf, merged.value.values,
                                 merged.value.unavailable - Sources(merged.value.values));
      Remember(request, features);
      answer := Features(features);
    }

    /** Empties the cache and closes every shard; closing again changes nothing. */
    method Close()
      requires Valid()
      modifies this`closed, this`order, this`cache, shards
      ensures Valid() && closed && order == [] && cache == map[]
      ensures forall i :: 0 <= i < |shards| ==> !shards[i].open && shards[i].offsets == old(shards[i].offsets)
      ensures old(closed) ==> forall i :: 0 <= i < |shards| ==> unchanged(shards[i])
    {
      if closed {
        return;
      }
      closed, order, cache := true, [], map[];
      for k := 0 to |shards|
        invariant forall i :: 0 <= i < k ==> !shards[i].open
        invariant forall i :: 0 <= i < |shards| ==> shards[i].offsets == old(shards[i].offsets)
        invariant closed && order == [] && cache == map[]
      {
        shards[k].Close();
      }
    }
  }

  lemma InsertedKeys(order: seq<Request>, cache: map<Request, FeatureSet>, request: Request, features: FeatureSet)
    requires SameKeys(order, cache)
    ensures SameKeys(order + [request], cache[request := features])
  {
  }

  lemma EvictedKeys(order: seq<Request>, cache: map<Request, FeatureSet>)
    requires order != [] && SameKeys(order, cache)
    requires forall i, j :: 0 <= i < j < |order| ==> order[i] != order[j]
    ensures SameKeys(order[1..], cache - {order[0]})
  {
    assert order == [order[0]] + order[1..];
    assert order[0] !in order[1..];
  }

  lemma PartRead(shards: seq<IndexedJsonlShard>, asOf: Time, i: nat)
    requires Ready(shards) && i < |shards|
    ensures shards[i].RowAt(asOf).Found?
    ensures Parts(shards, asOf)[i] == PartOf(shards[i].plan.sources, shards[i].RowAt(asOf).row)
  {
    hide IndexedJsonlShard.RowAt, Scan;
    RowAtIsScan(shards[i], asOf);
  }

  /** Using a kept request again only moves it to the end. */
  lemma UseAgain(used: seq<Request>, capacity: nat, request: Request)
    requires capacity > 0 && request in Last(ByLastUse(used), capacity)
    ensures Last(ByLastUse(used + [request]), capacity) == Touch(Last(ByLastUse(used), capacity), request)
    ensures forall r :: r in Touch(Last(ByLastUse(used), capacity), request) <==> r in Last(ByLastUse(used), capacity)
  {
    var order := ByLastUse(used);
    var kept := Last(order, capacity);
    assert (used + [request])[..|used|] == used;
    ByLastUseFacts(used);
    TouchKeepsLast(order, capacity, request);
    assert NoDuplicates(kept);
    WithoutFacts(kept, request);
    assert |Touch(kept, request)| == |kept|;
  }

  /** Using a request that is not kept appends it, and drops the first when there are too many. */
  lemma UseNew(used: seq<Request>, capacity: nat, request: Request)
    requires capacity > 0 && request !in Last(ByLastUse(used), capacity)
    ensures var order := Last(ByLastUse(used), capacity) + [request];
            && |order| <= capacity + 1
            && (forall i, j :: 0 <= i < j < |order| ==> order[i] != order[j])
            && Last(ByLastUse(used + [request]), capacity) == if |order| > capacity then order[1..] else order
  {
    var order := ByLastUse(used);
    var kept := Last(order, capacity);
    assert (used + [request])[..|used|] == used;
    ByLastUseFacts(used);
    TouchKeepsLast(order, capacity, request);
    assert NoDuplicates(kept);
    WithoutFacts(kept, request);
    assert Touch(kept, request) == kept + [request];
  }
}
