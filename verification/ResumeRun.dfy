/** The resumable walk-forward loop over the rows ledger, interrupted anywhere and run again. */
module ResumeRun {
  import opened Lines
  import opened ResumeLedger
  import opened Results

  datatype Status = Finished | Killed | Raised

  datatype Ended = Ended(bytes: Bytes, status: Status)

  /** The work of a run: for each fold in turn, each candidate in turn. */
  function Jobs(runIdentity: string, symbol: string, candidates: seq<string>, fold: int, folds: nat): seq<Key>
    decreases folds
  {
    if folds == 0 then []
    else seq(|candidates|, i requires 0 <= i < |candidates| => Key(runIdentity, symbol, candidates[i], fold))
         + Jobs(runIdentity, symbol, candidates, fold + 1, folds - 1)
  }

  ghost predicate DistinctJobs(jobs: seq<Key>) {
    forall i, j :: 0 <= i < j < |jobs| ==> jobs[i] != jobs[j]
  }

  /** With unique candidate ids, every (candidate, fold) is one job. */
  lemma {:induction false} JobsAreDistinct(
      runIdentity: string, symbol: string, candidates: seq<string>, fold: int, folds: nat)
    requires forall i, j :: 0 <= i < j < |candidates| ==> candidates[i] != candidates[j]
    ensures DistinctJobs(Jobs(runIdentity, symbol, candidates, fold, folds))
    ensures forall key: Key :: key in Jobs(runIdentity, symbol, candidates, fold, folds) <==>
              key.runIdentity == runIdentity && key.symbol == symbol && key.candidateId in candidates
              && fold <= key.fold < fold + folds
    decreases folds
  {
    if folds <= 0 {
    } else {
      var first := seq(|candidates|, i requires 0 <= i < |candidates| => Key(runIdentity, symbol, candidates[i], fold));
      JobsAreDistinct(runIdentity, symbol, candidates, fold + 1, folds - 1);
      forall key: Key | key.runIdentity == runIdentity && key.symbol == symbol && key.candidateId in candidates
                        && key.fold == fold
        ensures key in first
      {
        var i :| 0 <= i < |candidates| && candidates[i] == key.candidateId;
        assert first[i] == key;
      }
    }
  }

  /** They are worked off fold by fold, and within a fold candidate by candidate, each in the order given. */
  lemma {:induction false} JobsInOrder(
      runIdentity: string, symbol: string, candidates: seq<string>, fold: int, folds: nat, f: nat, i: nat)
    requires f < folds && i < |candidates|
    ensures var jobs := Jobs(runIdentity, symbol, candidates, fold, folds);
            && |jobs| == folds * |candidates| && f * |candidates| + i < |jobs|
            && jobs[f * |candidates| + i] == Key(runIdentity, symbol, candidates[i], fold + f)
    decreases folds
  {
    var n := |candidates|;
    JobCount(runIdentity, symbol, candidates, fold, folds);
    if f > 0 {
      JobsInOrder(runIdentity, symbol, candidates, fold + 1, folds - 1, f - 1, i);
      assert f * n + i == n + ((f - 1) * n + i);
    }
    RowOfJobs(n, f, folds, i);
  }

  lemma {:induction false} JobCount(
      runIdentity: string, symbol: string, candidates: seq<string>, fold: int, folds: nat)
    ensures |Jobs(runIdentity, symbol, candidates, fold, folds)| == folds * |candidates|
    decreases folds
  {
    if folds > 0 {
      JobCount(runIdentity, symbol, candidates, fold + 1, folds - 1);
      assert folds * |candidates| == |candidates| + (folds - 1) * |candidates|;
    }
  }

  lemma RowOfJobs(n: nat, f: nat, folds: nat, i: nat)
    requires f < folds && i < n
    ensures 0 <= f * n + i < folds * n
  {
    var later := folds - f - 1;
    AddedRows(f, later, n);
    assert folds == f + 1 + later;
  }

  lemma AddedRows(f: nat, later: nat, n: nat)
    ensures (f + 1 + later) * n == f * n + n + later * n && later * n >= 0 && f * n >= 0
  {
  }

  /** One session: skip the jobs already recorded, append a row for each other one. A budget is the number of bytes the
      session gets to append before it is killed. The ledger is reloaded, torn tail cut, before every decision. */
  function Session(c: Codec, backtest: Key -> Row, jobs: seq<Key>, b: Bytes, budget: Option<nat>): Ended
    decreases |jobs|
  {
    var loaded := Load(c, b, []);
    if loaded.None? then Ended(b, Raised) else
    var kept := Kept(b, loaded.value.torn);
    if jobs == [] then Ended(kept, Finished)
    else if jobs[0] in KeysOf(loaded.value.rows) then Session(c, backtest, jobs[1..], kept, budget)
    else
      var line := LineOf(c, backtest(jobs[0]));
      if budget.Some? && budget.value < |line| then Ended(kept + line[..budget.value], Killed)
      else Session(c, backtest, jobs[1..], kept + line, if budget.Some? then Some(budget.value - |line|) else None)
  }

  /** Nothing that was quarantined is lost or changed. */
  ghost predicate Quarantines(before: map<int, Bytes>, after: map<int, Bytes>) {
    forall d :: d in before ==> d in after && after[d] == before[d]
  }

  /** ... and the torn tail a load found is there under its digest, if that was not taken. */
  ghost predicate TornIsKept(
      loaded: Option<Loaded>, before: map<int, Bytes>, after: map<int, Bytes>, digest: Bytes -> int)
  {
    && Quarantines(before, after)
    && (loaded.Some? && loaded.value.torn != [] ==>
          && digest(loaded.value.torn) in after
          && (digest(loaded.value.torn) !in before ==> after[digest(loaded.value.torn)] == loaded.value.torn))
  }

  lemma TornStaysKept(
      loaded: Option<Loaded>, before: map<int, Bytes>, now: map<int, Bytes>, after: map<int, Bytes>,
      digest: Bytes -> int)
    requires TornIsKept(loaded, before, now, digest) && Quarantines(now, after)
    ensures TornIsKept(loaded, before, after, digest)
  {
    forall d | d in before
      ensures d in after && after[d] == before[d]
    {
      assert d in now;
    }
    if loaded.Some? && loaded.value.torn != [] {
      var name := digest(loaded.value.torn);
      assert name in now && name in after && after[name] == now[name];
    }
  }

  /** Loading, in these terms. */
  method LoadAndKeep(file: LedgerFile, c: Codec) returns (result: Option<seq<Row>>)
    modifies file
    ensures match Load(c, old(file.bytes), [])
            case None => result == None && file.bytes == old(file.bytes)
            case Some(loaded) => result == Some(loaded.rows) && file.bytes == Kept(old(file.bytes), loaded.torn)
    ensures Quarantines(old(file.quarantine), file.quarantine)
    ensures TornIsKept(Load(c, old(file.bytes), []), old(file.quarantine), file.quarantine, file.digest)
    ensures old(file.Labelled()) ==> file.Labelled()
  {
    hide Load, Kept;
    result := file.LoadRows(c);
  }

  /** write_jsonl_row: reload under the lock, then append. An equal row is left alone, a conflicting one raises, a new
      one is written, of which `budget` bytes land. */
  method WriteRow(file: LedgerFile, c: Codec, row: Row, budget: Option<nat>) returns (status: Status)
    modifies file
    ensures match Load(c, old(file.bytes), [])
            case None => status == Raised && file.bytes == old(file.bytes)
            case Some(loaded) =>
              var kept, line := Kept(old(file.bytes), loaded.torn), LineOf(c, row);
              if row.key in KeysOf(loaded.rows)
              then file.bytes == kept && status == if row in loaded.rows then Finished else Raised
              else if budget.Some? && budget.value < |line|
              then file.bytes == kept + line[..budget.value] && status == Killed
              else file.bytes == kept + line && status == Finished
    ensures Quarantines(old(file.quarantine), file.quarantine)
    ensures old(file.Labelled()) ==> file.Labelled()
  {
    hide Load, Kept;
    var rows := file.LoadRows(c);
    if rows.None? || AddRow(rows.value, row).None? {
      return Raised;
    }
    if row.key in KeysOf(rows.value) {
      return Finished;
    }
    var line := LineOf(c, row);
    if budget.Some? && budget.value < |line| {
      file.bytes := file.bytes + line[..budget.value];
      status := Killed;
    } else {
      file.bytes := file.bytes + line;
      status := Finished;
    }
  }

  /** The loop as it runs: `done` is refreshed from the ledger after each append. */
  method RunIncremental(file: LedgerFile, c: Codec, backtest: Key -> Row, jobs: seq<Key>, budget: Option<nat>)
    returns (status: Status)
    requires forall key :: backtest(key).key == key
    modifies file
    ensures Ended(file.bytes, status) == Session(c, backtest, jobs, old(file.bytes), budget)
    ensures TornIsKept(Load(c, old(file.bytes), []), old(file.quarantine), file.quarantine, file.digest)
    ensures old(file.Labelled()) ==> file.Labelled()
  {
    hide Load, Kept, KeysOf, LineOf, Quarantines, TornIsKept, LedgerFile.Labelled;
    ghost var whole := Session(c, backtest, jobs, file.bytes, budget);
    ghost var start := file.bytes;
    var left: Option<nat> := budget;
    var rows := LoadAndKeep(file, c);
    if rows.None? {
      return Raised;
    }
    ReloadIsStable(c, start);
    SessionFromKept(c, backtest, jobs, start, budget);
    var done := KeysOf(rows.value);
    for k := 0 to |jobs|
      invariant rows.Some? && Load(c, file.bytes, []) == Some(Loaded(rows.value, []))
      invariant done == KeysOf(rows.value)
      invariant TornIsKept(Load(c, start, []), old(file.quarantine), file.quarantine, file.digest)
      invariant old(file.Labelled()) ==> file.Labelled()
      invariant whole == Session(c, backtest, jobs[k..], file.bytes, left)
    {
      assert jobs[k..][0] == jobs[k] && jobs[k..][1..] == jobs[k + 1..];
      KeptWhole(file.bytes);
      if jobs[k] in done {
        continue;
      }
      var row := backtest(jobs[k]);
      ghost var cut := file.quarantine;
      status := WriteRow(file, c, row, left);
      TornStaysKept(Load(c, start, []), old(file.quarantine), cut, file.quarantine, file.digest);
      assert AddRow(rows.value, row) == Some(rows.value + [row]);
      if status == Killed {
        return;
      }
      left := if left.Some? then Some(left.value - |LineOf(c, row)|) else None;
      ghost var after, written := file.bytes, file.quarantine;
      rows := LoadAndKeep(file, c);
      TornStaysKept(Load(c, start, []), old(file.quarantine), written, file.quarantine, file.digest);
      if rows.None? {
        SessionRaises(c, backtest, jobs[k + 1..], after, left);
        return Raised;
      }
      ReloadIsStable(c, after);
      SessionFromKept(c, backtest, jobs[k + 1..], after, left);
      done := KeysOf(rows.value);
    }
    KeptWhole(file.bytes);
    status := Finished;
  }

  lemma KeptWhole(b: Bytes)
    ensures Kept(b, []) == b
  {
  }

  lemma ReloadIsStable(c: Codec, b: Bytes)
    ensures var loaded := Load(c, b, []);
            loaded.Some? ==> Load(c, Kept(b, loaded.value.torn), []) == Some(Loaded(loaded.value.rows, []))
  {
    if Load(c, b, []).Some? {
      LoadIsStable(c, b, []);
    }
  }

  lemma SessionRaises(c: Codec, backtest: Key -> Row, jobs: seq<Key>, b: Bytes, budget: Option<nat>)
    requires Load(c, b, []).None?
    ensures Session(c, backtest, jobs, b, budget) == Ended(b, Raised)
  {
  }

  /** A session does not care whether the torn tail was cut just before it started. */
  lemma SessionFromKept(c: Codec, backtest: Key -> Row, jobs: seq<Key>, b: Bytes, budget: Option<nat>)
    requires Load(c, b, []).Some?
    ensures Session(c, backtest, jobs, b, budget) ==
            Session(c, backtest, jobs, Kept(b, Load(c, b, []).value.torn), budget)
  {
    hide Load, Kept, LineOf, KeysOf;
    ReloadIsStable(c, b);
    KeptWhole(Kept(b, Load(c, b, []).value.torn));
  }

  // ---------------------------------------------------------------- resuming

  ghost predicate Keyed(backtest: Key -> Row) {
    forall key :: backtest(key).key == key
  }

  /** The rows still to be computed, in job order. */
  function Missing(done: set<Key>, jobs: seq<Key>, backtest: Key -> Row): seq<Row> {
    if jobs == [] then []
    else if jobs[0] in done then Missing(done, jobs[1..], backtest)
    else [backtest(jobs[0])] + Missing(done, jobs[1..], backtest)
  }

  /** Bytes the loader sets aside wholly: nothing, a proper prefix of some row's JSON, or a row without its newline and
      a piece of the next one after it. */
  ghost predicate Torn(c: Codec, piece: Bytes) {
    || (exists row, k :: 0 <= k < |c.encode(row)| && piece == c.encode(row)[..k])
    || (exists row, next, k :: 0 < k <= |c.encode(next)| && piece == c.encode(row) + c.encode(next)[..k])
  }

  /** A bare row with a piece of the next one after it is read as one torn line: both are set aside. */
  lemma LoadGlued(c: Codec, row: Row, next: Row, k: nat, acc: seq<Row>)
    requires Lawful(c) && 0 < k <= |c.encode(next)|
    ensures var piece := c.encode(row) + c.encode(next)[..k];
            Load(c, piece, acc) == Some(Loaded(acc, piece))
  {
    var piece := c.encode(row) + c.encode(next)[..k];
    assert forall i :: 0 <= i < |piece| ==>
        piece[i] == if i < |c.encode(row)| then c.encode(row)[i] else c.encode(next)[i - |c.encode(row)|];
    FirstLineUnterminated(piece);
    assert piece[|piece|..] == [];
    assert !IsBlank(piece);
  }

  lemma LoadSetAside(c: Codec, piece: Bytes, acc: seq<Row>)
    requires Lawful(c) && Torn(c, piece)
    ensures Load(c, piece, acc) == Some(Loaded(acc, piece))
  {
    hide Lawful, Load;
    if row, k :| 0 <= k < |c.encode(row)| && piece == c.encode(row)[..k] {
      LoadTorn(c, row, k, acc);
    } else {
      var row, next, k :| 0 < k <= |c.encode(next)| && piece == c.encode(row) + c.encode(next)[..k];
      LoadGlued(c, row, next, k, acc);
    }
  }

  lemma {:induction false} MissingAvoids(done: set<Key>, jobs: seq<Key>, backtest: Key -> Row, key: Key)
    requires key !in jobs
    ensures Missing(done + {key}, jobs, backtest) == Missing(done, jobs, backtest)
  {
    if jobs == [] {
    } else {
      MissingAvoids(done, jobs[1..], backtest, key);
    }
  }

  /** Recording the next missing row leaves the others missing. */
  lemma MissingShrinks(done: set<Key>, jobs: seq<Key>, backtest: Key -> Row)
    requires jobs != [] && jobs[0] !in done && DistinctJobs(jobs)
    ensures Missing(done, jobs, backtest) == [backtest(jobs[0])] + Missing(done + {jobs[0]}, jobs[1..], backtest)
  {
    assert jobs[0] !in jobs[1..];
    MissingAvoids(done, jobs[1..], backtest, jobs[0]);
  }

  lemma LoadsCompletely(c: Codec, rows: seq<Row>, piece: Bytes)
    requires Lawful(c) && Consistent(rows) && Torn(c, piece)
    ensures var loaded := Load(c, Complete(c, rows) + piece, []);
            loaded.Some? && KeysOf(loaded.value.rows) == KeysOf(rows) && loaded.value.torn == piece
            && Kept(Complete(c, rows) + piece, loaded.value.torn) == Complete(c, rows)
  {
    hide Lawful, Load, Torn;
    LoadComplete(c, rows, piece, []);
    MergeCharacterized([], rows);
    assert [] + rows == rows;
    assert KeysOf([]) == {} by { NoKeys(); }
    LoadSetAside(c, piece, Merge([], rows).value);
  }

  lemma NothingIsTorn(c: Codec)
    requires Lawful(c)
    ensures Torn(c, [])
  {
    var row := Row(Key("", "", "", 0), "");
    assert c.encode(row) != [] && c.encode(row)[..0] == [];
  }

  lemma {:induction false} CompleteAppend(c: Codec, rows: seq<Row>, row: Row)
    ensures Complete(c, rows + [row]) == Complete(c, rows) + LineOf(c, row)
  {
    if rows == [] {
      assert rows + [row] == [row];
      assert Complete(c, [row]) == LineOf(c, row) + Complete(c, []);
    } else {
      assert (rows + [row])[1..] == rows[1..] + [row];
      CompleteAppend(c, rows[1..], row);
    }
  }

  lemma ConsistentAppend(rows: seq<Row>, row: Row)
    requires Consistent(rows) && row.key !in KeysOf(rows)
    ensures Consistent(rows + [row])
  {
    assert forall i :: 0 <= i < |rows| ==> rows[i].key in KeysOf(rows);
  }

  /** How far a session got: it finished, or it was killed `landed` bytes into writing missing row `at`. */
  ghost predicate GotTo(
      c: Codec, ended: Ended, rows: seq<Row>, missing: seq<Row>, at: nat, landed: nat)
  {
    match ended.status
    case Finished => ended.bytes == Complete(c, rows + missing)
    case Killed =>
      at < |missing| && landed < |LineOf(c, missing[at])|
      && ended.bytes == Complete(c, rows + missing[..at]) + LineOf(c, missing[at])[..landed]
    case Raised => false
  }

  /** A session started on complete rows and a torn piece appends the missing rows in order, up to its budget. */
  lemma {:induction false} SessionGetsTo(
      c: Codec, backtest: Key -> Row, jobs: seq<Key>, rows: seq<Row>, piece: Bytes, budget: Option<nat>)
    returns (at: nat, landed: nat)
    requires Lawful(c) && Keyed(backtest) && DistinctJobs(jobs) && Consistent(rows) && Torn(c, piece)
    ensures GotTo(c, Session(c, backtest, jobs, Complete(c, rows) + piece, budget), rows,
                  Missing(KeysOf(rows), jobs, backtest), at, landed)
    ensures budget.None? ==> Session(c, backtest, jobs, Complete(c, rows) + piece, budget).status == Finished
    decreases |jobs|
  {
    hide Lawful, Load, Kept, Complete, Consistent, Torn, KeysOf, LineOf, AddRow;
    LoadsCompletely(c, rows, piece);
    NothingIsTorn(c);
    at, landed := 0, 0;
    var missing := Missing(KeysOf(rows), jobs, backtest);
    if jobs == [] {
      assert rows + [] == rows;
    } else if jobs[0] in KeysOf(rows) {
      at, landed := SessionGetsTo(c, backtest, jobs[1..], rows, [], budget);
      assert Complete(c, rows) + [] == Complete(c, rows);
    } else {
      var row := backtest(jobs[0]);
      var line := LineOf(c, row);
      MissingShrinks(KeysOf(rows), jobs, backtest);
      if budget.Some? && budget.value < |line| {
        landed := budget.value;
        assert rows + missing[..0] == rows;
      } else {
        var rows' := rows + [row];
        IndexAppend(rows, row);
        ConsistentAppend(rows, row);
        CompleteAppend(c, rows, row);
        assert Complete(c, rows') + [] == Complete(c, rows) + line;
        var rest := Missing(KeysOf(rows'), jobs[1..], backtest);
        at, landed := SessionGetsTo(c, backtest, jobs[1..], rows', [],
                                    if budget.Some? then Some(budget.value - |line|) else None);
        assert rows' + rest == rows + missing;
        at := at + 1;
        assert at <= |missing| ==> rows' + rest[..at - 1] == rows + missing[..at];
      }
    }
  }

  /** Once the first `at` missing rows are recorded, the rest are what is missing. */
  lemma {:induction false} MissingAfter(jobs: seq<Key>, backtest: Key -> Row, rows: seq<Row>, at: nat)
    requires Keyed(backtest) && DistinctJobs(jobs) && Consistent(rows)
    requires at <= |Missing(KeysOf(rows), jobs, backtest)|
    ensures var missing := Missing(KeysOf(rows), jobs, backtest);
            && Missing(KeysOf(rows + missing[..at]), jobs, backtest) == missing[at..]
            && Consistent(rows + missing[..at])
            && (at < |missing| ==> missing[at].key !in KeysOf(rows + missing[..at]))
    decreases |jobs|
  {
    hide Consistent, KeysOf;
    var missing := Missing(KeysOf(rows), jobs, backtest);
    if at == 0 {
      assert rows + missing[..0] == rows;
      if missing != [] {
        FirstMissing(KeysOf(rows), jobs, backtest);
      }
    } else if jobs[0] in KeysOf(rows) {
      MissingAfter(jobs[1..], backtest, rows, at);
      KeysGrow(rows, missing[..at], jobs[0]);
    } else {
      var row := backtest(jobs[0]);
      var rows' := rows + [row];
      IndexAppend(rows, row);
      ConsistentAppend(rows, row);
      MissingShrinks(KeysOf(rows), jobs, backtest);
      var rest := Missing(KeysOf(rows'), jobs[1..], backtest);
      MissingAfter(jobs[1..], backtest, rows', at - 1);
      assert rows' + rest[..at - 1] == rows + missing[..at];
      KeysGrow(rows', rest[..at - 1], jobs[0]);
    }
  }

  lemma {:induction false} FirstMissing(done: set<Key>, jobs: seq<Key>, backtest: Key -> Row)
    requires Keyed(backtest) && Missing(done, jobs, backtest) != []
    ensures Missing(done, jobs, backtest)[0].key !in done
  {
    if jobs[0] in done {
      FirstMissing(done, jobs[1..], backtest);
    }
  }

  lemma KeysGrow(rows: seq<Row>, more: seq<Row>, key: Key)
    requires key in KeysOf(rows)
    ensures key in KeysOf(rows + more)
  {
    var i :| 0 <= i < |rows| && rows[i].key == key;
    assert (rows + more)[i].key == key;
  }

  /** The file ends in a whole row that lacks its newline: the loader takes the row, and cuts nothing. */
  predicate EndsBare(c: Codec, b: Bytes) {
    b != [] && b[|b| - 1] != NEWLINE && Load(c, b, []).Some? && Load(c, b, []).value.torn == []
  }

  /** Successive sessions, each killed within its budget or done. */
  function Sessions(c: Codec, backtest: Key -> Row, jobs: seq<Key>, b: Bytes, budgets: seq<nat>): Bytes
    decreases |budgets|
  {
    if budgets == [] then b
    else Sessions(c, backtest, jobs, Session(c, backtest, jobs, b, Some(budgets[0])).bytes, budgets[1..])
  }

  /** A session starts on a bare row with work missing, and gets to append a whole further line. */
  predicate Glues(c: Codec, backtest: Key -> Row, jobs: seq<Key>, b: Bytes, budget: Option<nat>) {
    EndsBare(c, b)
    && var missing := Missing(KeysOf(Load(c, b, []).value.rows), jobs, backtest);
       missing != [] && (budget.Some? ==> budget.value >= |LineOf(c, missing[0])|)
  }

  /** No session does, the last and unlimited one included. */
  predicate NeverGlues(c: Codec, backtest: Key -> Row, jobs: seq<Key>, b: Bytes, budgets: seq<nat>)
    decreases |budgets|
  {
    if budgets == [] then !Glues(c, backtest, jobs, b, None)
    else
      && !Glues(c, backtest, jobs, b, Some(budgets[0]))
      && NeverGlues(c, backtest, jobs, Session(c, backtest, jobs, b, Some(budgets[0])).bytes, budgets[1..])
  }

  lemma LoadBare(c: Codec, row: Row, acc: seq<Row>)
    requires Lawful(c)
    ensures Load(c, c.encode(row), acc) ==
            if AddRow(acc, row).None? then None else Some(Loaded(AddRow(acc, row).value, []))
  {
    hide AddRow;
    var b := c.encode(row);
    FirstLineUnterminated(b);
    assert b[|b|..] == [];
    assert !IsBlank(b);
    if AddRow(acc, row).Some? {
      LoadNothing(c, AddRow(acc, row).value);
    }
  }

  lemma BareLoads(c: Codec, rows: seq<Row>, row: Row)
    requires Lawful(c) && Consistent(rows) && row.key !in KeysOf(rows)
    ensures EndsBare(c, Complete(c, rows) + c.encode(row))
    ensures KeysOf(Load(c, Complete(c, rows) + c.encode(row), []).value.rows) == KeysOf(rows) + {row.key}
  {
    hide Load, KeysOf;
    var b := Complete(c, rows) + c.encode(row);
    assert b[|b| - 1] == c.encode(row)[|c.encode(row)| - 1];
    LoadComplete(c, rows, c.encode(row), []);
    MergeCharacterized([], rows);
    assert [] + rows == rows;
    assert KeysOf([]) == {} by { NoKeys(); }
    var merged := Merge([], rows).value;
    LoadBare(c, row, merged);
    IndexAppend(merged, row);
  }

  lemma NoKeys()
    ensures KeysOf([]) == {}
  {
  }

  /** A kill short of a whole row leaves a torn piece; only a kill right before the newline leaves a bare row. */
  lemma PieceIsTorn(c: Codec, row: Row, landed: nat)
    requires Lawful(c) && landed < |LineOf(c, row)|
    ensures landed != |c.encode(row)| ==> Torn(c, LineOf(c, row)[..landed])
    ensures landed == |c.encode(row)| ==> LineOf(c, row)[..landed] == c.encode(row)
  {
    if landed != |c.encode(row)| {
      assert LineOf(c, row)[..landed] == c.encode(row)[..landed];
    }
  }

  /** Complete rows with a piece the loader sets aside do not end bare. */
  lemma TornIsNotBare(c: Codec, rows: seq<Row>, piece: Bytes)
    requires Lawful(c) && Consistent(rows) && Torn(c, piece)
    ensures !EndsBare(c, Complete(c, rows) + piece)
  {
    hide Load, KeysOf, Torn, Consistent;
    LoadsCompletely(c, rows, piece);
    if piece == [] {
      assert Complete(c, rows) + piece == Complete(c, rows);
      CompleteEndsWithNewline(c, rows);
    }
  }

  lemma {:induction false} CompleteEndsWithNewline(c: Codec, rows: seq<Row>)
    ensures rows != [] ==> Complete(c, rows) != [] && Complete(c, rows)[|Complete(c, rows)| - 1] == NEWLINE
    ensures rows == [] ==> Complete(c, rows) == []
  {
    if rows == [] {
    } else {
      CompleteEndsWithNewline(c, rows[1..]);
    }
  }

  /** A session that starts on a bare row: done if nothing is missing; dead if it lands a whole line; otherwise what it
      lands is appended to the bare row. */
  lemma {:induction false} SessionFromBare(
      c: Codec, backtest: Key -> Row, jobs: seq<Key>, rows: seq<Row>, bare: Row, budget: Option<nat>)
    requires Lawful(c) && Keyed(backtest) && Consistent(rows) && bare.key !in KeysOf(rows)
    ensures var b := Complete(c, rows) + c.encode(bare);
            var missing := Missing(KeysOf(rows) + {bare.key}, jobs, backtest);
            var ended := Session(c, backtest, jobs, b, budget);
            if missing == [] then ended == Ended(b, Finished)
            else
              var line := LineOf(c, missing[0]);
              if budget.Some? && budget.value < |line| then ended == Ended(b + line[..budget.value], Killed)
              else ended == Ended(b + line, Raised) && Load(c, b + line, []).None?
    decreases |jobs|
  {
    hide Lawful, Load, Consistent, KeysOf, LineOf, EndsBare, Complete;
    var b := Complete(c, rows) + c.encode(bare);
    BareLoads(c, rows, bare);
    BareKept(c, b);
    if jobs == [] {
    } else {
      if jobs[0] in KeysOf(rows) + {bare.key} {
        SessionFromBare(c, backtest, jobs[1..], rows, bare, budget);
      } else {
        var line := LineOf(c, backtest(jobs[0]));
        GluedRaises(c, rows, bare, backtest(jobs[0]));
        if budget.None? {
          SessionRaises(c, backtest, jobs[1..], b + line, None);
        } else if budget.value >= |line| {
          SessionRaises(c, backtest, jobs[1..], b + line, Some(budget.value - |line|));
        }
      }
    }
  }

  /** The ledger after a run, and the same without its last newline. */
  function Whole(c: Codec, backtest: Key -> Row, jobs: seq<Key>, rows: seq<Row>): Bytes {
    Complete(c, rows + Missing(KeysOf(rows), jobs, backtest))
  }

  /** How everything ends: an unlimited session after any number of killed ones. */
  function Finale(c: Codec, backtest: Key -> Row, jobs: seq<Key>, b: Bytes, budgets: seq<nat>): Ended {
    Session(c, backtest, jobs, Sessions(c, backtest, jobs, b, budgets), None)
  }

  /** What follows the complete rows of a ledger: a piece the loader sets aside, or a whole row without its newline. */
  datatype Tail = Piece(bytes: Bytes) | Bare(row: Row)

  /** A ledger of complete rows and a tail. The bare row may be any run's. */
  ghost predicate Starts(c: Codec, b: Bytes, rows: seq<Row>, tail: Tail) {
    && Consistent(rows)
    && match tail
       case Piece(bytes) => Torn(c, bytes) && b == Complete(c, rows) + bytes
       case Bare(row) => row.key !in KeysOf(rows) && b == Complete(c, rows) + c.encode(row)
  }

  /** A bare row stays at the end as long as nothing is to be written after it. */
  predicate LeftAlone(rows: seq<Row>, tail: Tail, jobs: seq<Key>, backtest: Key -> Row) {
    tail.Bare? && Missing(KeysOf(rows) + {tail.row.key}, jobs, backtest) == []
  }

  /** The final session finishes exactly when no session glued a line to a bare row. If there was nothing to write
      after a bare row the ledger is unchanged; otherwise it is the one an uninterrupted run makes of the complete
      rows, without the newline of its last row if that was never written. */
  ghost predicate EndsAsOneRun(
      c: Codec, backtest: Key -> Row, jobs: seq<Key>, b: Bytes, budgets: seq<nat>, rows: seq<Row>, tail: Tail)
  {
    var last, whole := Finale(c, backtest, jobs, b, budgets), Whole(c, backtest, jobs, rows);
    && (last.status == Finished <==> NeverGlues(c, backtest, jobs, b, budgets))
    && (last.status == Finished ==>
          if LeftAlone(rows, tail, jobs, backtest) then last.bytes == b
          else if EndsBare(c, Sessions(c, backtest, jobs, b, budgets)) then last.bytes + [NEWLINE] == whole
          else last.bytes == whole)
  }

  /** A ledger that does not load stays as it is. */
  lemma {:induction false} DeadStaysDead(c: Codec, backtest: Key -> Row, jobs: seq<Key>, b: Bytes, budgets: seq<nat>)
    requires Load(c, b, []).None?
    ensures Finale(c, backtest, jobs, b, budgets) == Ended(b, Raised)
    decreases |budgets|
  {
    hide Load, Session;
    if budgets == [] {
      SessionRaises(c, backtest, jobs, b, None);
    } else {
      SessionRaises(c, backtest, jobs, b, Some(budgets[0]));
      DeadStaysDead(c, backtest, jobs, b, budgets[1..]);
    }
  }

  /** Interrupted anywhere any number of times, on a ledger with any tail: the next undisturbed session finishes if
      and only if no session that started on a bare row with work missing got to append a whole further line. The
      ledger then holds the complete rows untouched and every missing row once, in job order. */
  lemma ResumeEqualsOneRunIff(
      c: Codec, backtest: Key -> Row, jobs: seq<Key>, b: Bytes, rows: seq<Row>, tail: Tail, budgets: seq<nat>)
    requires Lawful(c) && Keyed(backtest) && DistinctJobs(jobs) && Starts(c, b, rows, tail)
    ensures EndsAsOneRun(c, backtest, jobs, b, budgets, rows, tail)
  {
    hide Lawful, Load, Complete, Consistent, Torn, Finale, NeverGlues, EndsBare, Sessions;
    match tail {
      case Piece(bytes) => PieceEndsAsOneRun(c, backtest, jobs, rows, bytes, budgets);
      case Bare(row) =>
        if LeftAlone(rows, tail, jobs, backtest) {
          BareStays(c, backtest, jobs, rows, row, budgets);
        } else {
          BareEndsAsOneRun(c, backtest, jobs, rows, row, budgets);
        }
    }
  }

  lemma {:induction false} PieceEndsAsOneRun(
      c: Codec, backtest: Key -> Row, jobs: seq<Key>, rows: seq<Row>, piece: Bytes, budgets: seq<nat>)
    requires Lawful(c) && Keyed(backtest) && DistinctJobs(jobs) && Consistent(rows) && Torn(c, piece)
    ensures EndsAsOneRun(c, backtest, jobs, Complete(c, rows) + piece, budgets, rows, Piece(piece))
    decreases |budgets|
  {
    hide Lawful, Load, Complete, Consistent, Torn, KeysOf, LineOf, Session, EndsBare, Missing;
    var b := Complete(c, rows) + piece;
    TornIsNotBare(c, rows, piece);
    if budgets == [] {
      var _, _ := SessionGetsTo(c, backtest, jobs, rows, piece, None);
    } else {
      var missing := Missing(KeysOf(rows), jobs, backtest);
      var ended := Session(c, backtest, jobs, b, Some(budgets[0]));
      var at, landed := SessionGetsTo(c, backtest, jobs, rows, piece, Some(budgets[0]));
      if ended.status == Killed {
        var row, rows' := missing[at], rows + missing[..at];
        MissingAfter(jobs, backtest, rows, at);
        PieceIsTorn(c, row, landed);
        assert rows' + missing[at..] == rows + missing;
        if landed == |c.encode(row)| {
          OwnBareEndsAsOneRun(c, backtest, jobs, rows', row, budgets[1..]);
        } else {
          PieceEndsAsOneRun(c, backtest, jobs, rows', LineOf(c, row)[..landed], budgets[1..]);
        }
      } else {
        MissingAfter(jobs, backtest, rows, |missing|);
        NothingIsTorn(c);
        var all := rows + missing;
        assert missing[..|missing|] == missing && all + [] == all && Complete(c, all) + [] == Complete(c, all);
        PieceEndsAsOneRun(c, backtest, jobs, all, [], budgets[1..]);
      }
    }
  }

  /** From a bare row of any run. */
  lemma {:induction false} BareEndsAsOneRun(
      c: Codec, backtest: Key -> Row, jobs: seq<Key>, rows: seq<Row>, bare: Row, budgets: seq<nat>)
    requires Lawful(c) && Keyed(backtest) && DistinctJobs(jobs) && Consistent(rows) && bare.key !in KeysOf(rows)
    requires Missing(KeysOf(rows) + {bare.key}, jobs, backtest) != []
    ensures EndsAsOneRun(c, backtest, jobs, Complete(c, rows) + c.encode(bare), budgets, rows, Bare(bare))
    decreases |budgets|, 0
  {
    hide Lawful, Load, Complete, Consistent, Torn, KeysOf, LineOf, Session, EndsBare, Missing;
    var b := Complete(c, rows) + c.encode(bare);
    BareLoads(c, rows, bare);
    var next := Missing(KeysOf(rows) + {bare.key}, jobs, backtest)[0];
    SessionFromBare(c, backtest, jobs, rows, bare, if budgets == [] then None else Some(budgets[0]));
    if budgets == [] {
    } else if budgets[0] == 0 {
      assert LineOf(c, next)[..0] == [] && b + [] == b by { hide *; }
      BareEndsAsOneRun(c, backtest, jobs, rows, bare, budgets[1..]);
    } else if budgets[0] < |LineOf(c, next)| {
      var landed := LineOf(c, next)[..budgets[0]];
      BarePieceIsTorn(c, bare, next, budgets[0]);
      assert b + landed == Complete(c, rows) + (c.encode(bare) + landed);
      PieceEndsAsOneRun(c, backtest, jobs, rows, c.encode(bare) + landed, budgets[1..]);
    } else {
      DeadStaysDead(c, backtest, jobs, b + LineOf(c, next), budgets[1..]);
    }
  }

  /** With nothing to write after a bare row, no session touches the ledger. */
  lemma {:induction false} BareStays(
      c: Codec, backtest: Key -> Row, jobs: seq<Key>, rows: seq<Row>, bare: Row, budgets: seq<nat>)
    requires Lawful(c) && Keyed(backtest) && Consistent(rows) && bare.key !in KeysOf(rows)
    requires Missing(KeysOf(rows) + {bare.key}, jobs, backtest) == []
    ensures var b := Complete(c, rows) + c.encode(bare);
            && Sessions(c, backtest, jobs, b, budgets) == b && NeverGlues(c, backtest, jobs, b, budgets)
            && Finale(c, backtest, jobs, b, budgets) == Ended(b, Finished)
    decreases |budgets|
  {
    hide Lawful, Load, Complete, Consistent, KeysOf, LineOf, Session, EndsBare, Missing;
    BareLoads(c, rows, bare);
    SessionFromBare(c, backtest, jobs, rows, bare, if budgets == [] then None else Some(budgets[0]));
    if budgets == [] {
    } else {
      BareStays(c, backtest, jobs, rows, bare, budgets[1..]);
    }
  }

  /** A run's own bare row, the first of its missing ones, is a finished row but for the newline. */
  lemma OwnBareEndsAsOneRun(
      c: Codec, backtest: Key -> Row, jobs: seq<Key>, rows: seq<Row>, bare: Row, budgets: seq<nat>)
    requires Lawful(c) && Keyed(backtest) && DistinctJobs(jobs) && Consistent(rows)
    requires Missing(KeysOf(rows), jobs, backtest) != [] && Missing(KeysOf(rows), jobs, backtest)[0] == bare
    ensures var b := Complete(c, rows) + c.encode(bare);
            var last, whole := Finale(c, backtest, jobs, b, budgets), Whole(c, backtest, jobs, rows);
            && (last.status == Finished <==> NeverGlues(c, backtest, jobs, b, budgets))
            && (last.status == Finished ==>
                  if EndsBare(c, Sessions(c, backtest, jobs, b, budgets)) then last.bytes + [NEWLINE] == whole
                  else last.bytes == whole)
    decreases |budgets|, 1
  {
    hide Lawful, Load, Complete, Consistent, KeysOf, Session, EndsBare, Missing, Sessions, NeverGlues, Finale;
    var missing := Missing(KeysOf(rows), jobs, backtest);
    MissingAfter(jobs, backtest, rows, 0);
    MissingAfter(jobs, backtest, rows, 1);
    assert rows + missing[..0] == rows && missing[..1] == [bare];
    IndexAppend(rows, bare);
    if missing[1..] == [] {
      assert missing == [bare];
      CompleteAppend(c, rows, bare);
      BareLine(c, rows, bare);
      BareLoads(c, rows, bare);
      BareStays(c, backtest, jobs, rows, bare, budgets);
    } else {
      BareEndsAsOneRun(c, backtest, jobs, rows, bare, budgets);
    }
  }

  lemma BareLine(c: Codec, rows: seq<Row>, bare: Row)
    ensures Complete(c, rows) + c.encode(bare) + [NEWLINE] == Complete(c, rows) + LineOf(c, bare)
  {
  }

  lemma BarePieceIsTorn(c: Codec, bare: Row, next: Row, landed: nat)
    requires 0 < landed < |LineOf(c, next)|
    ensures Torn(c, c.encode(bare) + LineOf(c, next)[..landed])
  {
    assert LineOf(c, next)[..landed] == c.encode(next)[..landed];
  }

  lemma BareKept(c: Codec, b: Bytes)
    requires EndsBare(c, b)
    ensures Load(c, b, []).Some? && Kept(b, Load(c, b, []).value.torn) == b
  {
  }

  lemma GluedRaises(c: Codec, rows: seq<Row>, bare: Row, next: Row)
    requires Lawful(c)
    ensures Load(c, Complete(c, rows) + c.encode(bare) + LineOf(c, next), []).None?
  {
    hide Load, Merge, Complete, Lawful, LineOf;
    var line := GluedIsMalformed(c, bare, next);
    assert Complete(c, rows) + c.encode(bare) + LineOf(c, next) == Complete(c, rows) + (line + [NEWLINE]);
    LoadComplete(c, rows, line + [NEWLINE], []);
    if Merge([], rows).Some? {
      WholeBadLineRaises(c, line, Merge([], rows).value);
    }
  }

  lemma GluedIsMalformed(c: Codec, bare: Row, next: Row) returns (line: Bytes)
    requires Lawful(c)
    ensures c.encode(bare) + LineOf(c, next) == line + [NEWLINE]
    ensures line != [] && !IsSpace(line[0]) && NEWLINE !in line && c.parse(line + [NEWLINE]) == Malformed
  {
    line := c.encode(bare) + c.encode(next);
    assert line[0] == c.encode(bare)[0];
    assert c.encode(bare) + LineOf(c, next) == line + [NEWLINE];
  }

  /** A malformed line that ends in a newline is not a torn tail. */
  lemma WholeBadLineRaises(c: Codec, line: Bytes, acc: seq<Row>)
    requires line != [] && !IsSpace(line[0]) && NEWLINE !in line && c.parse(line + [NEWLINE]) == Malformed
    ensures Load(c, line + [NEWLINE], acc).None?
  {
    FirstLineOf(line, []);
    assert line + [NEWLINE] + [] == line + [NEWLINE];
    assert !IsBlank(line + [NEWLINE]) by {
      assert (line + [NEWLINE])[0] == line[0];
    }
  }

  // ---------------------------------------------------------------- ledgers shared by several runs

  /** One session of some run. */
  datatype Run = Run(backtest: Key -> Row, jobs: seq<Key>, budget: Option<nat>)

  ghost predicate Proper(run: Run) {
    Keyed(run.backtest) && DistinctJobs(run.jobs)
  }

  /** The ledger that sessions of any runs, each killed or not, leave. */
  function Ledger(c: Codec, b: Bytes, history: seq<Run>): Bytes
    decreases |history|
  {
    if history == [] then b
    else Ledger(c, Session(c, history[0].backtest, history[0].jobs, b, history[0].budget).bytes, history[1..])
  }

  /** What a session leaves loads no more, or is complete rows and a tail again. */
  lemma SessionStarts(c: Codec, run: Run, b: Bytes, rows: seq<Row>, tail: Tail)
    returns (rows': seq<Row>, tail': Tail)
    requires Lawful(c) && Proper(run) && Starts(c, b, rows, tail)
    ensures var left := Session(c, run.backtest, run.jobs, b, run.budget).bytes;
            Load(c, left, []).Some? ==> Starts(c, left, rows', tail')
  {
    hide Lawful, Load, Complete, Consistent, Torn, KeysOf, LineOf, Session, Missing;
    match tail {
      case Piece(piece) => rows', tail' := FromPiece(c, run, rows, piece);
      case Bare(bare) =>
        SessionFromBare(c, run.backtest, run.jobs, rows, bare, run.budget);
        rows', tail' := rows, tail;
        var missing := Missing(KeysOf(rows) + {bare.key}, run.jobs, run.backtest);
        if missing != [] && run.budget.Some? && run.budget.value < |LineOf(c, missing[0])| {
          tail' := GrownTail(c, rows, bare, missing[0], run.budget.value);
        }
    }
  }

  lemma FromPiece(c: Codec, run: Run, rows: seq<Row>, piece: Bytes) returns (rows': seq<Row>, tail': Tail)
    requires Lawful(c) && Proper(run) && Consistent(rows) && Torn(c, piece)
    ensures Starts(c, Session(c, run.backtest, run.jobs, Complete(c, rows) + piece, run.budget).bytes, rows', tail')
  {
    hide Lawful, Load, Complete, Consistent, Torn, KeysOf, LineOf, Session, Missing;
    var at, landed := SessionGetsTo(c, run.backtest, run.jobs, rows, piece, run.budget);
    var ended := Session(c, run.backtest, run.jobs, Complete(c, rows) + piece, run.budget);
    var missing := Missing(KeysOf(rows), run.jobs, run.backtest);
    if ended.status == Killed {
      MissingAfter(run.jobs, run.backtest, rows, at);
      PieceIsTorn(c, missing[at], landed);
      rows' := rows + missing[..at];
      tail' := if landed == |c.encode(missing[at])| then Bare(missing[at]) else Piece(LineOf(c, missing[at])[..landed]);
    } else {
      MissingAfter(run.jobs, run.backtest, rows, |missing|);
      NothingIsTorn(c);
      assert missing[..|missing|] == missing && Complete(c, rows + missing) + [] == Complete(c, rows + missing);
      rows', tail' := rows + missing, Piece([]);
    }
  }

  /** What lands after a bare row turns both into one torn piece. */
  lemma GrownTail(c: Codec, rows: seq<Row>, bare: Row, next: Row, landed: nat) returns (tail: Tail)
    requires Consistent(rows) && bare.key !in KeysOf(rows) && landed < |LineOf(c, next)|
    ensures Starts(c, Complete(c, rows) + c.encode(bare) + LineOf(c, next)[..landed], rows, tail)
  {
    hide Complete, Consistent, Torn, KeysOf, LineOf;
    var b, more := Complete(c, rows) + c.encode(bare), LineOf(c, next)[..landed];
    if landed == 0 {
      assert b + more == b;
      tail := Bare(bare);
    } else {
      BarePieceIsTorn(c, bare, next, landed);
      assert b + more == Complete(c, rows) + (c.encode(bare) + more);
      tail := Piece(c.encode(bare) + more);
    }
  }

  /** Every ledger that runs can leave, and that still loads, is complete rows and a tail. */
  lemma {:induction false} EveryLedgerStarts(c: Codec, b: Bytes, rows: seq<Row>, tail: Tail, history: seq<Run>)
    returns (rows': seq<Row>, tail': Tail)
    requires Lawful(c) && Starts(c, b, rows, tail) && forall i :: 0 <= i < |history| ==> Proper(history[i])
    ensures Load(c, Ledger(c, b, history), []).Some? ==> Starts(c, Ledger(c, b, history), rows', tail')
    decreases |history|
  {
    hide Lawful, Load, Session, Starts, Proper;
    rows', tail' := rows, tail;
    if history != [] {
      var left := Session(c, history[0].backtest, history[0].jobs, b, history[0].budget).bytes;
      rows', tail' := SessionStarts(c, history[0], b, rows, tail);
      if Load(c, left, []).Some? {
        rows', tail' := EveryLedgerStarts(c, left, rows', tail', history[1..]);
      } else {
        DeadLedger(c, left, history[1..]);
      }
    }
  }

  lemma {:induction false} DeadLedger(c: Codec, b: Bytes, history: seq<Run>)
    requires Load(c, b, []).None?
    ensures Ledger(c, b, history) == b
    decreases |history|
  {
    hide Load, Session;
    if history == [] {
    } else {
      SessionRaises(c, history[0].backtest, history[0].jobs, b, history[0].budget);
      DeadLedger(c, b, history[1..]);
    }
  }

  /** Whatever runs wrote a ledger, and wherever they were killed: a run that is then interrupted any number of times
      finishes if and only if the ledger loads and no session of the run glues a line to a bare row. */
  lemma ResumeAfterAnyRunsIff(c: Codec, history: seq<Run>, backtest: Key -> Row, jobs: seq<Key>, budgets: seq<nat>)
    returns (rows: seq<Row>, tail: Tail)
    requires Lawful(c) && (forall i :: 0 <= i < |history| ==> Proper(history[i]))
    requires Keyed(backtest) && DistinctJobs(jobs)
    ensures var b := Ledger(c, [], history);
            && (Finale(c, backtest, jobs, b, budgets).status == Finished <==>
                Load(c, b, []).Some? && NeverGlues(c, backtest, jobs, b, budgets))
            && (Load(c, b, []).Some? ==>
                  Starts(c, b, rows, tail) && EndsAsOneRun(c, backtest, jobs, b, budgets, rows, tail))
  {
    var b := Ledger(c, [], history);
    NothingIsTorn(c);
    assert Complete(c, []) + [] == [];
    assert Starts(c, [], [], Piece([]));
    hide Lawful, Load, Starts, Finale, NeverGlues, Ledger, EndsBare, Sessions;
    rows, tail := EveryLedgerStarts(c, [], [], Piece([]), history);
    if Load(c, b, []).Some? {
      ResumeEqualsOneRunIff(c, backtest, jobs, b, rows, tail, budgets);
    } else {
      DeadStaysDead(c, backtest, jobs, b, budgets);
    }
  }

  /** Loading the ledger gives the row. */
  predicate Holds(c: Codec, b: Bytes, row: Row) {
    Load(c, b, []).Some? && row in Load(c, b, []).value.rows
  }

  /** A ledger holds its complete rows and its bare row. */
  lemma StartHolds(c: Codec, b: Bytes, rows: seq<Row>, tail: Tail, row: Row)
    requires Lawful(c) && Starts(c, b, rows, tail)
    ensures Holds(c, b, row) <==> row in rows || (tail.Bare? && row == tail.row)
  {
    hide Lawful, Load, Complete, Torn, KeysOf, AddRow, Consistent;
    var merged := Merged(rows);
    hide Merge;
    match tail {
      case Piece(piece) =>
        LoadComplete(c, rows, piece, []);
        LoadSetAside(c, piece, merged);
      case Bare(bare) =>
        LoadComplete(c, rows, c.encode(bare), []);
        LoadBare(c, bare, merged);
        NewRowIsAdded(merged, bare);
    }
  }

  /** What consistent rows merge to: the same rows and keys. */
  lemma Merged(rows: seq<Row>) returns (merged: seq<Row>)
    requires Consistent(rows)
    ensures Merge([], rows) == Some(merged) && KeysOf(merged) == KeysOf(rows)
    ensures forall r :: r in merged <==> r in rows
  {
    hide KeysOf, Consistent;
    MergeCharacterized([], rows);
    assert [] + rows == rows;
    NoKeys();
    merged := Merge([], rows).value;
  }

  lemma NewRowIsAdded(rows: seq<Row>, row: Row)
    requires row.key !in KeysOf(rows)
    ensures AddRow(rows, row) == Some(rows + [row])
  {
  }

  /** Complete rows, with or without their last newline, hold the same rows. */
  lemma WholeHolds(c: Codec, all: seq<Row>, b: Bytes, row: Row)
    requires Lawful(c) && Consistent(all) && (b == Complete(c, all) || b + [NEWLINE] == Complete(c, all))
    ensures Holds(c, b, row) <==> row in all
  {
    hide Lawful, Load, Complete, Consistent, Torn, KeysOf, Holds;
    if b == Complete(c, all) {
      NothingIsTorn(c);
      assert Complete(c, all) + [] == b;
      StartHolds(c, b, all, Piece([]), row);
    } else {
      CompleteEndsWithNewline(c, all);
      var before, last := all[..|all| - 1], all[|all| - 1];
      assert before + [last] == all;
      CompleteAppend(c, before, last);
      LessNewline(b, Complete(c, before), c.encode(last));
      LastRowHolds(c, before, last, row);
    }
  }

  lemma LastRowHolds(c: Codec, rows: seq<Row>, last: Row, row: Row)
    requires Lawful(c) && Consistent(rows + [last])
    ensures Holds(c, Complete(c, rows) + c.encode(last), row) <==> row in rows + [last]
  {
    hide Lawful, Load, Complete, KeysOf, AddRow;
    AgreesWithLast(rows, last);
    MergeCharacterized([], rows);
    assert [] + rows == rows;
    hide Consistent;
    var merged := Merge([], rows).value;
    LoadComplete(c, rows, c.encode(last), []);
    LoadBare(c, last, merged);
    AddRowKeeps(merged, last);
    assert forall i :: 0 <= i < |merged| ==> merged[i] in rows;
    hide Merge, DistinctKeys;
    assert AddRow(merged, last).Some?;
  }

  lemma AgreesWithLast(rows: seq<Row>, last: Row)
    requires Consistent(rows + [last])
    ensures Consistent(rows) && forall r :: r in rows && r.key == last.key ==> r == last
  {
    assert (rows + [last])[|rows|] == last;
    assert forall i :: 0 <= i < |rows| ==> (rows + [last])[i] == rows[i];
  }

  lemma LessNewline(b: Bytes, rows: Bytes, last: Bytes)
    requires b + [NEWLINE] == rows + (last + [NEWLINE])
    ensures b == rows + last
  {
    assert (b + [NEWLINE])[..|b|] == b;
    assert (rows + (last + [NEWLINE]))[..|b|] == rows + last;
  }

  lemma {:induction false} MissingHas(done: set<Key>, jobs: seq<Key>, backtest: Key -> Row, row: Row)
    requires Keyed(backtest)
    ensures row in Missing(done, jobs, backtest) <==>
            row.key in jobs && row.key !in done && row == backtest(row.key)
  {
    if jobs == [] {
    } else {
      MissingHas(done, jobs[1..], backtest, row);
    }
  }

  /** A run that finishes keeps every complete row. It keeps a bare row at the end, its own or another run's, if and
      only if it had nothing to write after it or computes the very same row itself. */
  lemma BareRowKeptIff(
      c: Codec, backtest: Key -> Row, jobs: seq<Key>, b: Bytes, rows: seq<Row>, tail: Tail, budgets: seq<nat>)
    requires Lawful(c) && Keyed(backtest) && DistinctJobs(jobs) && Starts(c, b, rows, tail)
    requires Finale(c, backtest, jobs, b, budgets).status == Finished
    ensures forall row :: row in rows ==> Holds(c, Finale(c, backtest, jobs, b, budgets).bytes, row)
    ensures tail.Bare? ==>
              (Holds(c, Finale(c, backtest, jobs, b, budgets).bytes, tail.row) <==>
               LeftAlone(rows, tail, jobs, backtest)
               || (tail.row.key in jobs && tail.row == backtest(tail.row.key)))
  {
    hide Lawful, Load, Complete, Consistent, Torn, KeysOf, Missing, Finale, NeverGlues, EndsBare, Sessions, Holds;
    ResumeEqualsOneRunIff(c, backtest, jobs, b, rows, tail, budgets);
    var last := Finale(c, backtest, jobs, b, budgets);
    var missing := Missing(KeysOf(rows), jobs, backtest);
    var all := rows + missing;
    MissingAfter(jobs, backtest, rows, |missing|);
    assert missing[..|missing|] == missing;
    forall row
      ensures row in rows ==> Holds(c, last.bytes, row)
      ensures tail.Bare? && row == tail.row ==>
                (Holds(c, last.bytes, row) <==>
                 LeftAlone(rows, tail, jobs, backtest) || (row.key in jobs && row == backtest(row.key)))
    {
      if LeftAlone(rows, tail, jobs, backtest) {
        StartHolds(c, b, rows, tail, row);
      } else {
        WholeHolds(c, all, last.bytes, row);
        MissingHas(KeysOf(rows), jobs, backtest, row);
        KeyOfRow(rows, row);
      }
    }
  }

  lemma KeyOfRow(rows: seq<Row>, row: Row)
    ensures row in rows ==> row.key in KeysOf(rows)
  {
  }

  /** So a bare row of another run is lost to a run killed one byte into its first row and then left alone, which
      finishes; left alone from the start it raises. */
  lemma OtherRunsRowIsLost(c: Codec, backtest: Key -> Row, jobs: seq<Key>, b: Bytes, rows: seq<Row>, bare: Row)
    requires Lawful(c) && Keyed(backtest) && DistinctJobs(jobs) && Starts(c, b, rows, Bare(bare))
    requires bare.key !in jobs && !LeftAlone(rows, Bare(bare), jobs, backtest)
    ensures Holds(c, b, bare) && Finale(c, backtest, jobs, b, []).status == Raised
    ensures var last := Finale(c, backtest, jobs, b, [1]);
            last.status == Finished && last.bytes == Whole(c, backtest, jobs, rows) && !Holds(c, last.bytes, bare)
  {
    hide Lawful, Load, Complete, Consistent, Torn, KeysOf, LineOf, Missing, Session, EndsBare, Holds;
    StartHolds(c, b, rows, Bare(bare), bare);
    SessionFromBare(c, backtest, jobs, rows, bare, None);
    SessionFromBare(c, backtest, jobs, rows, bare, Some(1));
    var next := Missing(KeysOf(rows) + {bare.key}, jobs, backtest)[0];
    LineIsLong(c, next);
    var landed := LineOf(c, next)[..1];
    BarePieceIsTorn(c, bare, next, 1);
    assert b + landed == Complete(c, rows) + (c.encode(bare) + landed);
    PieceEndsAsOneRun(c, backtest, jobs, rows, c.encode(bare) + landed, []);
    TornIsNotBare(c, rows, c.encode(bare) + landed);
    assert [1][1..] == [];
    assert Sessions(c, backtest, jobs, b, [1]) == b + landed;
    BareRowKeptIff(c, backtest, jobs, b, rows, Bare(bare), [1]);
  }

  lemma LineIsLong(c: Codec, row: Row)
    requires Lawful(c)
    ensures |LineOf(c, row)| > 1
  {
  }

  /** One kill, `landed` bytes into missing row `at`: the next session finishes if and only if the kill did not fall
      exactly between that row and its newline, or that row was the last one. */
  lemma OneKillFinishesIff(c: Codec, backtest: Key -> Row, jobs: seq<Key>, rows: seq<Row>, at: nat, landed: nat)
    requires Lawful(c) && Keyed(backtest) && DistinctJobs(jobs) && Consistent(rows)
    requires at < |Missing(KeysOf(rows), jobs, backtest)|
    requires landed < |LineOf(c, Missing(KeysOf(rows), jobs, backtest)[at])|
    ensures var missing := Missing(KeysOf(rows), jobs, backtest);
            var left := Complete(c, rows + missing[..at]) + LineOf(c, missing[at])[..landed];
            Session(c, backtest, jobs, left, None).status == Finished <==>
            landed != |c.encode(missing[at])| || at == |missing| - 1
  {
    hide Lawful, Load, Complete, Consistent, Torn, KeysOf, LineOf, Session, Missing;
    var missing := Missing(KeysOf(rows), jobs, backtest);
    var rows', row := rows + missing[..at], missing[at];
    MissingAfter(jobs, backtest, rows, at);
    PieceIsTorn(c, row, landed);
    if landed != |c.encode(row)| {
      var _, _ := SessionGetsTo(c, backtest, jobs, rows', LineOf(c, row)[..landed], None);
    } else {
      SessionFromBare(c, backtest, jobs, rows', row, None);
      MissingAfter(jobs, backtest, rows, at + 1);
      assert rows + missing[..at + 1] == rows' + [row];
      IndexAppend(rows', row);
    }
  }

  /** The finished ledger records each job exactly once, and nothing else was added. */
  lemma {:induction false} EachJobOnce(backtest: Key -> Row, jobs: seq<Key>, rows: seq<Row>)
    requires Keyed(backtest) && DistinctJobs(jobs) && DistinctKeys(rows)
    ensures var all := rows + Missing(KeysOf(rows), jobs, backtest);
            && DistinctKeys(all)
            && KeysOf(all) == KeysOf(rows) + (set key | key in jobs)
            && forall i :: |rows| <= i < |all| ==> all[i].key in jobs && all[i] == backtest(all[i].key)
    decreases |jobs|
  {
    hide KeysOf;
    var missing := Missing(KeysOf(rows), jobs, backtest);
    if jobs == [] {
      assert rows + missing == rows;
    } else if jobs[0] in KeysOf(rows) {
      EachJobOnce(backtest, jobs[1..], rows);
    } else {
      var row := backtest(jobs[0]);
      IndexAppend(rows, row);
      DistinctAppend(rows, row);
      MissingShrinks(KeysOf(rows), jobs, backtest);
      EachJobOnce(backtest, jobs[1..], rows + [row]);
      assert (rows + [row]) + Missing(KeysOf(rows + [row]), jobs[1..], backtest) == rows + missing;
    }
  }

  lemma DistinctAppend(rows: seq<Row>, row: Row)
    requires DistinctKeys(rows) && row.key !in KeysOf(rows)
    ensures DistinctKeys(rows + [row])
  {
    assert forall i :: 0 <= i < |rows| ==> rows[i].key in KeysOf(rows);
  }
}
