/** The append-only rows ledger: loading it recovers a torn last line. */
module ResumeLedger {
  import opened Lines
  import opened Results

  datatype Key = Key(runIdentity: string, symbol: string, candidateId: string, fold: int)

  datatype Row = Row(key: Key, payload: string)

  /** What json.loads and the checks after it make of one line. */
  datatype Parsed = Malformed | Unsupported | RowOf(row: Row)

  /** JSON text is left uninterpreted. */
  datatype Codec = Codec(encode: Row -> Bytes, parse: Bytes -> Parsed)

  predicate IsSpace(b: Byte) {
    9 <= b <= 13 || b == 32
  }

  predicate IsBlank(line: Bytes) {
    forall i :: 0 <= i < |line| ==> IsSpace(line[i])
  }

  /** A row as written: its JSON and a newline. */
  function LineOf(c: Codec, row: Row): Bytes {
    c.encode(row) + [NEWLINE]
  }

  /** What is assumed of JSON: one line per object, and neither part of an object nor an object with more text after
      it is an object. */
  ghost predicate Lawful(c: Codec) {
    && (forall r :: c.encode(r) != [] && !IsSpace(c.encode(r)[0]) && NEWLINE !in c.encode(r))
    && (forall r :: c.parse(c.encode(r)) == RowOf(r) && c.parse(LineOf(c, r)) == RowOf(r))
    && (forall r, k :: 0 < k < |c.encode(r)| ==> c.parse(c.encode(r)[..k]) == Malformed)
    && (forall r, s, k :: 0 < k <= |c.encode(s)| ==> c.parse(c.encode(r) + c.encode(s)[..k]) == Malformed)
    && (forall r, s :: c.parse(c.encode(r) + LineOf(c, s)) == Malformed)
  }

  function KeysOf(rows: seq<Row>): set<Key> {
    set i | 0 <= i < |rows| :: rows[i].key
  }

  /** Adds a row unless an equal one is there; a different row under the same key is a conflict. */
  function AddRow(rows: seq<Row>, row: Row): Option<seq<Row>> {
    if row.key !in KeysOf(rows) then Some(rows + [row])
    else if row in rows then Some(rows)
    else None
  }

  datatype Loaded = Loaded(rows: seq<Row>, torn: Bytes)

  /** Loading: the rows, merged, and the torn last line if there is one; None is the ValueError. */
  function Load(c: Codec, b: Bytes, rows: seq<Row>): (r: Option<Loaded>)
    ensures r.Some? ==> |r.value.torn| <= |b| && r.value.torn == b[|b| - |r.value.torn|..]
    decreases |b|, 1
  {
    if b == [] then Some(Loaded(rows, [])) else
    var line := FirstLine(b);
    assert line + b[|line|..] == b;
    if IsBlank(line) then Load(c, b[|line|..], rows) else
    LoadLine(c, c.parse(line), line, b[|line|..], rows)
  }

  /** What one nonblank line contributes before loading the rest. */
  function LoadLine(c: Codec, parsed: Parsed, line: Bytes, rest: Bytes, rows: seq<Row>): (r: Option<Loaded>)
    requires line != [] && (line[|line| - 1] == NEWLINE || rest == [])
    ensures r.Some? ==> |r.value.torn| <= |line + rest|
                        && r.value.torn == (line + rest)[|line + rest| - |r.value.torn|..]
    decreases |line + rest|, 0
  {
    match parsed
    case Malformed =>
      assert rest == [] ==> line + rest == line;
      if line[|line| - 1] == NEWLINE then None else Some(Loaded(rows, line))
    case Unsupported => None
    case RowOf(row) =>
      var added := AddRow(rows, row);
      if added.None? then None else
      var r := Load(c, rest, added.value);
      assert r.Some? ==> (line + rest)[|line|..] == rest;
      r
  }

  /** One turn of the loading loop, in terms of the file offset. */
  lemma LoadStep(c: Codec, b: Bytes, offset: nat, rows: seq<Row>, line: Bytes)
    requires offset < |b| && line == FirstLine(b[offset..])
    ensures 0 < |line| <= |b| - offset
    ensures IsBlank(line) ==> Load(c, b[offset..], rows) == Load(c, b[offset + |line|..], rows)
    ensures !IsBlank(line) ==>
              Load(c, b[offset..], rows) == LoadLine(c, c.parse(line), line, b[offset + |line|..], rows)
  {
    hide IsBlank, LoadLine;
    var rest := b[offset..];
    assert rest[|line|..] == b[offset + |line|..];
  }

  lemma LoadLineCases(c: Codec, line: Bytes, rest: Bytes, rows: seq<Row>)
    requires line != [] && (line[|line| - 1] == NEWLINE || rest == [])
    ensures LoadLine(c, Malformed, line, rest, rows) ==
            if line[|line| - 1] == NEWLINE then None else Some(Loaded(rows, line))
    ensures LoadLine(c, Unsupported, line, rest, rows) == None
  {
  }

  lemma LoadLineRow(c: Codec, row: Row, line: Bytes, rest: Bytes, rows: seq<Row>)
    requires line != [] && (line[|line| - 1] == NEWLINE || rest == [])
    ensures AddRow(rows, row).None? ==> LoadLine(c, RowOf(row), line, rest, rows) == None
    ensures AddRow(rows, row).Some? ==>
              LoadLine(c, RowOf(row), line, rest, rows) == Load(c, rest, AddRow(rows, row).value)
  {
  }

  lemma LoadNothing(c: Codec, rows: seq<Row>)
    ensures Load(c, [], rows) == Some(Loaded(rows, []))
  {
  }

  /** The file without its torn tail. */
  function Kept(b: Bytes, torn: Bytes): Bytes
    requires |torn| <= |b|
  {
    b[..|b| - |torn|]
  }

  class LedgerFile {
    var bytes: Bytes
    /** Torn lines set aside, by digest. */
    var quarantine: map<int, Bytes>
    const digest: Bytes -> int

    constructor (bytes: Bytes, digest: Bytes -> int)
      ensures this.bytes == bytes && this.digest == digest && quarantine == map[]
    {
      this.bytes, this.digest, this.quarantine := bytes, digest, map[];
    }

    /** Every quarantined piece is filed under its own digest. */
    ghost predicate Labelled()
      reads this
    {
      forall d :: d in quarantine ==> digest(quarantine[d]) == d
    }

    /** Sets a torn last line aside and cuts the file where it starts. */
    method CutOff(torn: Bytes, offset: nat)
      requires offset <= |bytes| && bytes[offset..] == torn
      modifies this
      ensures bytes + torn == old(bytes)
      ensures quarantine.Keys == old(quarantine).Keys + {digest(torn)}
      ensures forall d :: d in old(quarantine) ==> quarantine[d] == old(quarantine)[d]
      ensures digest(torn) !in old(quarantine) ==> quarantine[digest(torn)] == torn
    {
      if digest(torn) !in quarantine {
        quarantine := quarantine[digest(torn) := torn];
      }
      bytes := bytes[..offset];
    }

    /** Loads the rows; a torn last line is cut off and quarantined, unless there is an entry under its digest. No entry
        changes and no other is added. A ValueError changes nothing. */
    method LoadRows(c: Codec) returns (result: Option<seq<Row>>)
      modifies this
      ensures match Load(c, old(bytes), [])
              case None => result == None && bytes == old(bytes) && quarantine == old(quarantine)
              case Some(loaded) =>
                && result == Some(loaded.rows)
                && bytes + loaded.torn == old(bytes) && bytes == Kept(old(bytes), loaded.torn)
                && quarantine.Keys == old(quarantine).Keys + (if loaded.torn == [] then {} else {digest(loaded.torn)})
                && (forall d :: d in old(quarantine) ==> quarantine[d] == old(quarantine)[d])
                && (loaded.torn != [] && digest(loaded.torn) !in old(quarantine) ==>
                      quarantine[digest(loaded.torn)] == loaded.torn)
      ensures old(Labelled()) ==> Labelled()
    {
      var loaded := ReadRows(c, bytes);
      if loaded.None? {
        return None;
      }
      var torn := loaded.value.torn;
      if torn != [] {
        CutOff(torn, |bytes| - |torn|);
      }
      result := Some(loaded.value.rows);
    }
  }

  /** The reading loop: line by line, keeping the rows in order and indexed by key. */
  method ReadRows(c: Codec, content: Bytes) returns (loaded: Option<Loaded>)
    ensures loaded == Load(c, content, [])
  {
    hide Load, LoadLine, Kept, FirstLine, KeysOf, AddRow, IsBlank, Indexes;
    var rows: seq<Row> := [];
    assert Indexes(map[], rows) by { NothingIndexed(); }
    var seen: map<Key, Row> := map[];
    var offset := 0;
    assert content[0..] == content;
    while offset < |content|
      invariant 0 <= offset <= |content|
      invariant Load(c, content, []) == Load(c, content[offset..], rows)
      invariant Indexes(seen, rows)
    {
      var line := FirstLine(content[offset..]);
      LoadStep(c, content, offset, rows, line);
      offset := offset + |line|;
      if IsBlank(line) {
        continue;
      }
      LoadLineCases(c, line, content[offset..], rows);
      match c.parse(line) {
        case Malformed =>
          return if line[|line| - 1] == NEWLINE then None else Some(Loaded(rows, line));
        case Unsupported =>
          return None;
        case RowOf(row) =>
          IndexFinds(seen, rows, row);
          LoadLineRow(c, row, line, content[offset..], rows);
          if row.key !in seen {
            seen := seen[row.key := row];
            rows := rows + [row];
          } else if seen[row.key] != row {
            return None;
          }
      }
    }
    LoadNothing(c, rows);
    assert content[offset..] == [];
    loaded := Some(Loaded(rows, []));
  }

  /** The dict `seen` indexes the list `rows` by key. */
  ghost predicate Indexes(seen: map<Key, Row>, rows: seq<Row>) {
    && seen.Keys == KeysOf(rows)
    && (forall i :: 0 <= i < |rows| ==> rows[i].key in seen && seen[rows[i].key] == rows[i])
  }

  lemma NothingIndexed()
    ensures Indexes(map[], [])
  {
  }

  lemma IndexFinds(seen: map<Key, Row>, rows: seq<Row>, row: Row)
    requires Indexes(seen, rows)
    ensures row.key in seen <==> row.key in KeysOf(rows)
    ensures row.key !in seen ==> AddRow(rows, row) == Some(rows + [row]) && Indexes(seen[row.key := row], rows + [row])
    ensures row.key in seen ==> AddRow(rows, row) == if seen[row.key] == row then Some(rows) else None
  {
    if row.key in seen {
      var i :| 0 <= i < |rows| && rows[i].key == row.key;
    } else {
      var rows' := rows + [row];
      assert rows'[|rows|] == row;
      assert KeysOf(rows') == KeysOf(rows) + {row.key} by {
        assert forall i :: 0 <= i < |rows| ==> rows'[i] == rows[i];
        forall k | k in KeysOf(rows)
          ensures k in KeysOf(rows')
        {
          var i :| 0 <= i < |rows| && rows[i].key == k;
          assert rows'[i].key == k;
        }
      }
    }
  }

  // ---------------------------------------------------------------- what loading promises

  /** The file after these rows were appended. */
  function Complete(c: Codec, rows: seq<Row>): Bytes {
    if rows == [] then [] else LineOf(c, rows[0]) + Complete(c, rows[1..])
  }

  function Merge(acc: seq<Row>, rows: seq<Row>): Option<seq<Row>>
    decreases |rows|
  {
    if rows == [] then Some(acc)
    else if AddRow(acc, rows[0]).None? then None
    else Merge(AddRow(acc, rows[0]).value, rows[1..])
  }

  ghost predicate Consistent(rows: seq<Row>) {
    forall i, j :: 0 <= i < |rows| && 0 <= j < |rows| && rows[i].key == rows[j].key ==> rows[i] == rows[j]
  }

  ghost predicate DistinctKeys(rows: seq<Row>) {
    forall i, j :: 0 <= i < j < |rows| ==> rows[i].key != rows[j].key
  }

  lemma LoadOneRow(c: Codec, row: Row, rest: Bytes, acc: seq<Row>)
    requires Lawful(c)
    ensures Load(c, LineOf(c, row) + rest, acc) ==
            if AddRow(acc, row).None? then None else Load(c, rest, AddRow(acc, row).value)
  {
    hide AddRow;
    var b, line := LineOf(c, row) + rest, LineOf(c, row);
    FirstLineOf(c.encode(row), rest);
    assert line[0] == c.encode(row)[0];
    assert !IsBlank(line);
    assert b[|line|..] == rest;
  }

  lemma {:induction false} LoadComplete(c: Codec, rows: seq<Row>, tail: Bytes, acc: seq<Row>)
    requires Lawful(c)
    ensures Load(c, Complete(c, rows) + tail, acc) ==
            if Merge(acc, rows).None? then None else Load(c, tail, Merge(acc, rows).value)
    decreases |rows|
  {
    hide Load, AddRow, Lawful, LineOf;
    if rows == [] {
      assert Complete(c, rows) + tail == tail;
    } else {
      var rest := Complete(c, rows[1..]) + tail;
      assert Complete(c, rows) + tail == LineOf(c, rows[0]) + rest;
      LoadOneRow(c, rows[0], rest, acc);
      if AddRow(acc, rows[0]).Some? {
        LoadComplete(c, rows[1..], tail, AddRow(acc, rows[0]).value);
      }
    }
  }

  /** A proper prefix of one more row's JSON is read as a torn line, whatever was read before it. */
  lemma LoadTorn(c: Codec, row: Row, k: nat, acc: seq<Row>)
    requires Lawful(c) && k < |c.encode(row)|
    ensures Load(c, c.encode(row)[..k], acc) == Some(Loaded(acc, c.encode(row)[..k]))
  {
    var torn := c.encode(row)[..k];
    if k > 0 {
      assert forall i :: 0 <= i < k ==> torn[i] == c.encode(row)[i];
      FirstLineUnterminated(torn);
      assert torn[|torn|..] == [];
    }
  }

  lemma AddRowKeeps(rows: seq<Row>, row: Row)
    requires DistinctKeys(rows)
    ensures AddRow(rows, row).Some? <==> forall i :: 0 <= i < |rows| && rows[i].key == row.key ==> rows[i] == row
    ensures AddRow(rows, row).Some? ==>
              DistinctKeys(AddRow(rows, row).value) && rows <= AddRow(rows, row).value
              && row in AddRow(rows, row).value && KeysOf(AddRow(rows, row).value) == KeysOf(rows) + {row.key}
              && forall r :: r in AddRow(rows, row).value ==> r in rows || r == row
  {
    if row.key in KeysOf(rows) {
      var i :| 0 <= i < |rows| && rows[i].key == row.key;
      assert row in rows ==> rows[i] == row;
    } else {
      IndexAppend(rows, row);
    }
  }

  lemma IndexAppend(rows: seq<Row>, row: Row)
    ensures KeysOf(rows + [row]) == KeysOf(rows) + {row.key}
  {
    var rows' := rows + [row];
    assert rows'[|rows|] == row;
    forall k | k in KeysOf(rows)
      ensures k in KeysOf(rows')
    {
      var i :| 0 <= i < |rows| && rows[i].key == k;
      assert rows'[i].key == k;
    }
  }

  /** Merging succeeds exactly when equal keys carry equal rows; it keeps every row once, in order of first
      appearance. */
  lemma {:induction false} MergeCharacterized(acc: seq<Row>, rows: seq<Row>)
    requires DistinctKeys(acc)
    ensures Merge(acc, rows).Some? <==> Consistent(acc + rows)
    ensures Merge(acc, rows).Some? ==>
              DistinctKeys(Merge(acc, rows).value) && acc <= Merge(acc, rows).value
              && KeysOf(Merge(acc, rows).value) == KeysOf(acc) + KeysOf(rows)
              && forall r :: r in Merge(acc, rows).value <==> r in acc || r in rows
    decreases |rows|
  {
    hide AddRow;
    if rows == [] {
      assert acc + rows == acc;
    } else {
      AddRowKeeps(acc, rows[0]);
      ConsistentSplit(acc, rows);
      if AddRow(acc, rows[0]).Some? {
        var acc' := AddRow(acc, rows[0]).value;
        MergeCharacterized(acc', rows[1..]);
        ConsistentMoves(acc, acc', rows);
        KeysSplit(rows);
      }
    }
  }

  lemma KeysSplit(rows: seq<Row>)
    requires rows != []
    ensures KeysOf(rows) == {rows[0].key} + KeysOf(rows[1..])
  {
    forall k | k in KeysOf(rows[1..])
      ensures k in KeysOf(rows)
    {
      var i :| 0 <= i < |rows| - 1 && rows[1..][i].key == k;
      assert rows[i + 1].key == k;
    }
    forall k | k in KeysOf(rows)
      ensures k == rows[0].key || k in KeysOf(rows[1..])
    {
      var i :| 0 <= i < |rows| && rows[i].key == k;
      assert i > 0 ==> rows[1..][i - 1].key == k;
    }
  }

  lemma ConsistentSplit(acc: seq<Row>, rows: seq<Row>)
    requires rows != []
    ensures Consistent(acc + rows) ==> forall i :: 0 <= i < |acc| && acc[i].key == rows[0].key ==> acc[i] == rows[0]
  {
    assert (acc + rows)[|acc|] == rows[0];
    assert forall i :: 0 <= i < |acc| ==> (acc + rows)[i] == acc[i];
  }

  lemma ConsistentMoves(acc: seq<Row>, acc': seq<Row>, rows: seq<Row>)
    requires rows != [] && acc <= acc' && rows[0] in acc'
    requires forall r :: r in acc' ==> r in acc || r == rows[0]
    ensures Consistent(acc + rows) <==> Consistent(acc' + rows[1..])
  {
    var a, b := acc + rows, acc' + rows[1..];
    assert forall r :: r in a <==> r in acc || r in rows;
    assert forall r :: r in b <==> r in acc' || r in rows[1..];
    assert rows == [rows[0]] + rows[1..];
    assert forall r :: r in a <==> r in b;
    ConsistentBySet(a);
    ConsistentBySet(b);
  }

  lemma ConsistentBySet(rows: seq<Row>)
    ensures Consistent(rows) <==> forall r, s :: r in rows && s in rows && r.key == s.key ==> r == s
  {
  }

  /** Complete rows followed by a torn piece of one more: loading gives exactly the complete rows, cuts the file back
      to them, and loading again gives the same and cuts nothing. Conflicting rows are rejected. */
  lemma TornTailIsRecovered(c: Codec, rows: seq<Row>, torn: Row, k: nat)
    requires Lawful(c) && k < |c.encode(torn)|
    ensures var b := Complete(c, rows) + c.encode(torn)[..k];
            && (Load(c, b, []).Some? <==> Consistent(rows))
            && (Consistent(rows) ==>
                  Merge([], rows).Some?
                  && Load(c, b, []) == Some(Loaded(Merge([], rows).value, c.encode(torn)[..k]))
                  && Kept(b, c.encode(torn)[..k]) == Complete(c, rows)
                  && Load(c, Complete(c, rows), []) == Some(Loaded(Merge([], rows).value, [])))
  {
    var piece := c.encode(torn)[..k];
    LoadComplete(c, rows, piece, []);
    LoadComplete(c, rows, [], []);
    MergeCharacterized([], rows);
    assert [] + rows == rows;
    if Consistent(rows) {
      LoadTorn(c, torn, k, Merge([], rows).value);
      assert Complete(c, rows) + [] == Complete(c, rows);
      LoadNothing(c, Merge([], rows).value);
    }
  }

  lemma FirstLineKept(line: Bytes, rest: Bytes)
    requires line != [] && line[|line| - 1] == NEWLINE && NEWLINE !in line[..|line| - 1]
    ensures FirstLine(line + rest) == line
  {
    FirstLineOf(line[..|line| - 1], rest);
    assert line[..|line| - 1] + [NEWLINE] == line;
  }

  lemma LoadTerminated(c: Codec, line: Bytes, rest: Bytes, acc: seq<Row>)
    requires line != [] && line[|line| - 1] == NEWLINE && NEWLINE !in line[..|line| - 1]
    ensures Load(c, line + rest, acc) ==
            if IsBlank(line) then Load(c, rest, acc) else LoadLine(c, c.parse(line), line, rest, acc)
  {
    hide IsBlank, LoadLine, FirstLine;
    FirstLineKept(line, rest);
    assert (line + rest)[|line|..] == rest;
  }

  lemma LoadUnterminated(c: Codec, b: Bytes, acc: seq<Row>)
    requires b != [] && FirstLine(b) == b && b[|b| - 1] != NEWLINE && Load(c, b, acc).Some?
    ensures var loaded := Load(c, b, acc).value;
            loaded.torn == [] || (loaded.torn == b && loaded.rows == acc)
  {
    hide FirstLine, AddRow;
    assert b[|b|..] == [];
  }

  /** The rows after one line. */
  function RowsAfter(c: Codec, line: Bytes, acc: seq<Row>): Option<seq<Row>> {
    if IsBlank(line) then Some(acc)
    else if c.parse(line).RowOf? then AddRow(acc, c.parse(line).row)
    else None
  }

  lemma LoadAfterLine(c: Codec, line: Bytes, rest: Bytes, acc: seq<Row>)
    requires line != [] && line[|line| - 1] == NEWLINE && NEWLINE !in line[..|line| - 1]
    ensures Load(c, line + rest, acc) ==
            if RowsAfter(c, line, acc).None? then None else Load(c, rest, RowsAfter(c, line, acc).value)
  {
    hide IsBlank, FirstLine, Load, AddRow;
    LoadTerminated(c, line, rest, acc);
  }

  /** For every file that loads at all, a second load returns the same rows and finds nothing torn. */
  lemma {:induction false} LoadIsStable(c: Codec, b: Bytes, acc: seq<Row>)
    requires Load(c, b, acc).Some?
    ensures Load(c, Kept(b, Load(c, b, acc).value.torn), acc) == Some(Loaded(Load(c, b, acc).value.rows, []))
    decreases |b|
  {
    hide RowsAfter, Load, FirstLine;
    if b == [] {
      LoadNothing(c, acc);
      return;
    }
    var loaded := Load(c, b, acc).value;
    var line := FirstLine(b);
    var rest := b[|line|..];
    assert b == line + rest;
    if line[|line| - 1] == NEWLINE {
      LoadAfterLine(c, line, rest, acc);
      LoadIsStable(c, rest, RowsAfter(c, line, acc).value);
      var kept := Kept(rest, loaded.torn);
      assert Kept(b, loaded.torn) == line + kept;
      LoadAfterLine(c, line, kept, acc);
    } else {
      LoadUnterminated(c, b, acc);
      LoadNothing(c, acc);
      assert Kept(b, loaded.torn) == if loaded.torn == [] then b else [];
    }
  }
}
