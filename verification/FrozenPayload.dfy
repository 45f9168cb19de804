/** Freeze payloads: what may be frozen, and the search for Test material inside them. */
module FrozenPayload {
  import opened Results

  /** A mapping key; only text keys may be frozen. */
  datatype Key = Name(text: string) | Number(value: nat)

  /** Python values as far as a freeze distinguishes them; NonFinite is an infinite or undefined number. */
  datatype Value =
    | Null
    | Truth(truth: bool)
    | Whole(whole: int)
    | Fraction(fraction: real)
    | NonFinite
    | Text(text: string)
    | Unsupported(typeName: string)
    | List(items: seq<Value>)
    | Mapping(fields: map<Key, Value>)

  datatype PayloadError = NotFreezable | NotAMapping | TestMaterial

  /** Every mapping in the value has text keys, every number is finite, every type is supported. */
  predicate Freezable(v: Value) {
    match v
    case NonFinite => false
    case Unsupported(_) => false
    case List(items) => forall i :: 0 <= i < |items| ==> Freezable(items[i])
    case Mapping(fields) => forall k :: k in fields ==> k.Name? && Freezable(fields[k])
    case _ => true
  }

  function Digits(n: nat): string {
    if n < 10 then [('0' as int + n) as char] else Digits(n / 10) + [('0' as int + n % 10) as char]
  }

  function KeyText(k: Key): string {
    match k
    case Name(text) => text
    case Number(value) => Digits(value)
  }

  // ---------------------------------------------------------------- forbidden names

  predicate IsSpace(c: char) {
    c == ' ' || c == '\t' || c == '\n' || c == '\r'
  }

  function StripLeft(s: string): string {
    if s != [] && IsSpace(s[0]) then StripLeft(s[1..]) else s
  }

  function StripRight(s: string): string {
    if s != [] && IsSpace(s[|s| - 1]) then StripRight(s[..|s| - 1]) else s
  }

  /** Lower case, with a dash read as an underscore. */
  function Plain(c: char): char {
    if 'A' <= c <= 'Z' then (c as int - 'A' as int + 'a' as int) as char else if c == '-' then '_' else c
  }

  function Normalized(key: string): string {
    var stripped := StripRight(StripLeft(key));
    seq(|stripped|, i requires 0 <= i < |stripped| => Plain(stripped[i]))
  }

  /** Blanks are stripped from both ends, and nothing else goes. */
  lemma NormalizedIs(key: string) returns (i: nat, j: nat)
    ensures i <= j <= |key|
    ensures (forall k :: 0 <= k < i ==> IsSpace(key[k])) && forall k :: j <= k < |key| ==> IsSpace(key[k])
    ensures i < j ==> !IsSpace(key[i]) && !IsSpace(key[j - 1])
    ensures |Normalized(key)| == j - i && forall k :: 0 <= k < j - i ==> Normalized(key)[k] == Plain(key[i + k])
  {
    i := StrippedLeft(key);
    var kept := StrippedRight(key[i..]);
    j := i + kept;
    assert StripRight(StripLeft(key)) == key[i..][..kept] == key[i..j];
    assert forall k :: j <= k < |key| ==> key[k] == key[i..][k - i];
  }

  lemma {:induction false} StrippedLeft(s: string) returns (i: nat)
    ensures i <= |s| && StripLeft(s) == s[i..]
    ensures (forall k :: 0 <= k < i ==> IsSpace(s[k])) && (i < |s| ==> !IsSpace(s[i]))
  {
    i := 0;
    if s != [] && IsSpace(s[0]) {
      i := StrippedLeft(s[1..]);
      assert s[1..][i..] == s[i + 1..];
      assert forall k :: 1 <= k < i + 1 ==> s[k] == s[1..][k - 1];
      i := i + 1;
    }
  }

  lemma {:induction false} StrippedRight(s: string) returns (j: nat)
    ensures j <= |s| && StripRight(s) == s[..j]
    ensures (forall k :: j <= k < |s| ==> IsSpace(s[k])) && (j > 0 ==> !IsSpace(s[j - 1]))
  {
    j := |s|;
    if s != [] && IsSpace(s[|s| - 1]) {
      j := StrippedRight(s[..|s| - 1]);
      assert s[..|s| - 1][..j] == s[..j];
    }
  }

  /** Forbidden are "test", "comparisons" and whatever starts with "test_". */
  lemma ForbiddenIff(key: string)
    ensures Forbidden(key) <==>
            var n := Normalized(key); n == "test" || n == "comparisons" || (|n| >= 5 && n[..5] == "test_")
  {
    assert "test_results"[..5] == "test_data"[..5] == "test_hash"[..5] == "test_";
    assert "test_provenance"[..5] == "test_comparisons"[..5] == "test_";
    hide Normalized;
  }

  const FORBIDDEN: set<string> :=
    {"test", "test_results", "test_data", "test_hash", "test_provenance", "test_comparisons", "comparisons"}

  predicate Forbidden(key: string) {
    var normalized := Normalized(key);
    normalized in FORBIDDEN || (|normalized| >= 5 && normalized[..5] == "test_")
  }

  /** The two places that may name the Test interval, and the interval they must then hold. */
  const PERMITTED: set<seq<string>> :=
    {["model", "profile", "fold", "test"], ["mapping", "research_profile", "fold", "test"]}

  const TEST_INTERVAL :=
    Mapping(map[Name("start_at") := Text("2026-04-04T00:00:00Z"), Name("end_at") := Text("2026-07-01T00:00:00Z")])

  /** The recursive search: no forbidden key outside the permitted places. */
  predicate Clean(v: Value, path: seq<string>) {
    match v
    case Mapping(fields) =>
      forall k :: k in fields ==>
        var here := path + [KeyText(k)];
        if Forbidden(KeyText(k)) then here in PERMITTED && fields[k] == TEST_INTERVAL else Clean(fields[k], here)
    case List(items) =>
      forall i :: 0 <= i < |items| ==> Clean(items[i], path + [Digits(i)])
    case _ => true
  }

  /** Following the path from v arrives at end. */
  ghost predicate Leads(v: Value, path: seq<string>, end: Value)
    decreases |path|
  {
    if path == [] then v == end
    else
      || (v.Mapping? && exists k :: k in v.fields && KeyText(k) == path[0] && Leads(v.fields[k], path[1..], end))
      || (v.List? && exists i :: 0 <= i < |v.items| && Digits(i) == path[0] && Leads(v.items[i], path[1..], end))
  }

  /** A forbidden key of the mapping at the end of the path is in a permitted place and holds the interval. */
  predicate Excused(start: seq<string>, path: seq<string>, end: Value, k: Key) {
    end.Mapping? && k in end.fields && Forbidden(KeyText(k)) ==>
      start + path + [KeyText(k)] in PERMITTED && end.fields[k] == TEST_INTERVAL
  }

  lemma IntervalIsClean()
    ensures forall k :: k in TEST_INTERVAL.fields ==> !Forbidden(KeyText(k)) && TEST_INTERVAL.fields[k].Text?
  {
    var a, b := "start_at", "end_at";
    assert Normalized(a)[0] == 's' && Normalized(b)[0] == 'e';
    assert forall f :: f in FORBIDDEN ==> f[0] == 't' || f[0] == 'c';
    assert "test_"[0] == 't';
  }

  /** Nothing inside the interval needs an excuse. */
  lemma InsideTheInterval(start: seq<string>, path: seq<string>, end: Value, k: Key)
    requires Leads(TEST_INTERVAL, path, end)
    ensures Excused(start, path, end, k)
  {
    IntervalIsClean();
    hide Forbidden;
  }

  lemma RootIsExcused(v: Value, start: seq<string>, k: Key)
    requires Clean(v, start)
    ensures Excused(start, [], v, k)
  {
    hide Forbidden;
    assert start + [] == start;
  }

  lemma SamePlace(start: seq<string>, step: string, path: seq<string>, end: Value, k: Key)
    ensures Excused(start, [step] + path, end, k) == Excused(start + [step], path, end, k)
  {
    hide Forbidden;
    assert start + ([step] + path) + [KeyText(k)] == start + [step] + path + [KeyText(k)];
  }

  /** What the search accepts holds no forbidden key anywhere, however deep, but for the two excuses ... */
  lemma {:induction false} CleanExcusesAll(v: Value, start: seq<string>, path: seq<string>, end: Value, k: Key)
    requires Clean(v, start) && Leads(v, path, end)
    ensures Excused(start, path, end, k)
    decreases |path|
  {
    hide Forbidden, Excused;
    if path == [] {
      RootIsExcused(v, start, k);
    } else {
      var step, rest := path[0], path[1..];
      assert path == [step] + rest;
      SamePlace(start, step, rest, end, k);
      if v.Mapping? {
        var j :| j in v.fields && KeyText(j) == step && Leads(v.fields[j], rest, end);
        if Forbidden(step) {
          InsideTheInterval(start + [step], rest, end, k);
        } else {
          CleanExcusesAll(v.fields[j], start + [step], rest, end, k);
        }
      } else {
        var i :| 0 <= i < |v.items| && Digits(i) == step && Leads(v.items[i], rest, end);
        CleanExcusesAll(v.items[i], start + [step], rest, end, k);
      }
    }
  }

  ghost predicate AllExcused(v: Value, start: seq<string>) {
    forall path, end, k :: Leads(v, path, end) ==> Excused(start, path, end, k)
  }

  /** ... and it accepts everything of which that is true. */
  lemma {:induction false} AllExcusedIsClean(v: Value, start: seq<string>)
    requires AllExcused(v, start)
    ensures Clean(v, start)
    decreases v
  {
    hide Forbidden;
    match v
    case Mapping(fields) =>
      forall k | k in fields
        ensures var here := start + [KeyText(k)];
                if Forbidden(KeyText(k)) then here in PERMITTED && fields[k] == TEST_INTERVAL
                else Clean(fields[k], here)
      {
        assert Leads(v, [], v) && start + [] == start;
        assert Excused(start, [], v, k);
        if !Forbidden(KeyText(k)) {
          BelowIsExcused(v, start, KeyText(k), fields[k]);
          AllExcusedIsClean(fields[k], start + [KeyText(k)]);
        }
      }
    case List(items) =>
      forall i | 0 <= i < |items|
        ensures Clean(items[i], start + [Digits(i)])
      {
        BelowIsExcused(v, start, Digits(i), items[i]);
        AllExcusedIsClean(items[i], start + [Digits(i)]);
      }
    case _ =>
  }

  lemma BelowIsExcused(v: Value, start: seq<string>, step: string, below: Value)
    requires AllExcused(v, start)
    requires || (v.Mapping? && exists k :: k in v.fields && KeyText(k) == step && v.fields[k] == below)
             || (v.List? && exists i :: 0 <= i < |v.items| && Digits(i) == step && v.items[i] == below)
    ensures AllExcused(below, start + [step])
  {
    hide Excused;
    forall path, end, k | Leads(below, path, end)
      ensures Excused(start + [step], path, end, k)
    {
      var longer := [step] + path;
      assert longer[0] == step && longer[1..] == path;
      assert Leads(v, longer, end);
      assert Excused(start, longer, end, k);
      SamePlace(start, step, path, end, k);
    }
  }

  // ---------------------------------------------------------------- freezing

  datatype Frozen = Frozen(payload: Value, digest: string)

  /** A payload with its digest: it must be a freezable mapping without Test material. */
  function Freeze(payload: Value, hash: Value -> string): (r: Result<Frozen, PayloadError>)
    ensures r.Ok? <==> Freezable(payload) && payload.Mapping? && Clean(payload, [])
    ensures r.Ok? ==> r.value.payload == payload && r.value.digest == hash(payload)
  {
    if !Freezable(payload) then Err(NotFreezable)
    else if !payload.Mapping? then Err(NotAMapping)
    else if !Clean(payload, []) then Err(TestMaterial)
    else Ok(Frozen(payload, hash(payload)))
  }

  /** A payload can be frozen exactly when it is a freezable mapping whose every forbidden key, at any depth, is one of
      the two permitted mentions of the Test interval. */
  lemma FreezeAcceptsIff(payload: Value, hash: Value -> string)
    ensures Freeze(payload, hash).Ok? <==> Freezable(payload) && payload.Mapping? && AllExcused(payload, [])
  {
    if Clean(payload, []) {
      forall path, end, k | Leads(payload, path, end)
        ensures Excused([], path, end, k)
      {
        CleanExcusesAll(payload, [], path, end, k);
      }
    }
    if AllExcused(payload, []) {
      AllExcusedIsClean(payload, []);
    }
  }
}
