/** The multi-file publisher: stage temporaries, move originals to backups, publish, and on any failure roll back.
    Every file operation may fail at the will of an oracle; a failed operation has no effect, except that a failed
    write may leave a prefix of its content. */
module AtomicPublish {
  import opened Lines

  type Path = nat
  type Files = map<Path, Bytes>

  ghost predicate SameAt(a: Files, b: Files, p: Path) {
    (p in a <==> p in b) && (p in a ==> a[p] == b[p])
  }

  /** a and b agree everywhere except possibly on `paths`. */
  ghost predicate SameOutside(a: Files, b: Files, paths: set<Path>) {
    forall p :: p !in paths ==> SameAt(a, b, p)
  }

  /** Every original file is intact, under its own name. */
  ghost predicate Intact(s: Files, original: Files) {
    forall p :: p in original ==> p in s && s[p] == original[p]
  }

  /** Every original destination's bytes are under its own name or under its recorded backup. */
  ghost predicate Recoverable(s: Files, original: Files, finals: seq<Path>, backups: map<Path, Path>) {
    forall f :: f in finals && f in original ==>
      || (f in s && s[f] == original[f])
      || (f in backups && backups[f] in s && s[backups[f]] == original[f])
  }

  /** What happened to a disk so far: how many operations failed, which names mkstemp gave out, which removals failed
      and onto which paths a rename was refused. */
  datatype Record = Record(failures: nat, drawn: seq<Path>, unremoved: seq<Path>, unmoved: seq<Path>)

  ghost predicate Grows(a: Record, b: Record) {
    a.failures <= b.failures && a.drawn <= b.drawn && a.unremoved <= b.unremoved
    && a.unmoved <= b.unmoved
  }

  function Counted(r: Record, ok: bool): Record {
    if ok then r else r.(failures := r.failures + 1)
  }

  /** The names given out between two records. */
  function Drawn(a: Record, b: Record): seq<Path> {
    if |a.drawn| <= |b.drawn| then b.drawn[|a.drawn|..] else []
  }

  /** The paths whose removal failed between two records. */
  function Unremoved(a: Record, b: Record): seq<Path> {
    if |a.unremoved| <= |b.unremoved| then b.unremoved[|a.unremoved|..] else []
  }

  /** The paths onto which a rename was refused between two records. */
  function Unmoved(a: Record, b: Record): seq<Path> {
    if |a.unmoved| <= |b.unmoved| then b.unmoved[|a.unmoved|..] else []
  }

  /** Between two records the file system refused to remove p, or to rename anything onto it. */
  predicate Denied(a: Record, b: Record, p: Path) {
    p in Unremoved(a, b) || p in Unmoved(a, b)
  }

  /** Leftovers are generated names whose removal failed. */
  ghost predicate Leftover(leaked: set<Path>, a: Record, b: Record) {
    forall p :: p in leaked ==> p in Unremoved(a, b) && p in Drawn(a, b)
  }

  /** What the validation of the generated names asks for. */
  predicate NamesApart(names: seq<Path>, finals: seq<Path>) {
    Distinct(names) && forall p :: p in names ==> p !in finals
  }

  class Disk {
    var files: Files
    var clock: nat
    /** Every state the disk has been in, oldest first. */
    ghost var trail: seq<Files>
    ghost var record: Record
    /** The oracle: which operations fail, which name mkstemp tries, how much of a failed write lands. */
    const faulty: nat -> bool
    const names: nat -> Path
    const landed: nat -> nat

    constructor (files: Files, faulty: nat -> bool, names: nat -> Path, landed: nat -> nat)
      ensures this.files == files && trail == [files] && record == Record(0, [], [], [])
      ensures this.faulty == faulty && this.names == names && this.landed == landed
    {
      this.files, clock, trail, record := files, 0, [files], Record(0, [], [], []);
      this.faulty, this.names, this.landed := faulty, names, landed;
    }

    /** A probe, a directory flush or a directory creation: it may fail, and changes no file. */
    method Attempt() returns (ok: bool)
      modifies this
      ensures files == old(files) && trail == old(trail) + [files]
      ensures ok <==> !faulty(old(clock))
      ensures record == Counted(old(record), ok)
    {
      ok := !faulty(clock);
      clock, record := clock + 1, Counted(record, ok);
      trail := trail + [files];
    }

    /** Renames source to target, replacing any file there. */
    method Replace(source: Path, target: Path) returns (ok: bool)
      modifies this
      ensures trail == old(trail) + [files]
      ensures ok ==> source in old(files) && files == (old(files) - {source})[target := old(files)[source]]
      ensures !ok ==> files == old(files)
      ensures ok <==> !faulty(old(clock)) && source in old(files)
      ensures record == if faulty(old(clock)) then Counted(old(record), ok).(unmoved := old(record).unmoved + [target])
                        else Counted(old(record), ok)
    {
      ghost var refused := if faulty(clock) then [target] else [];
      ok := !faulty(clock) && source in files;
      if ok {
        files := (files - {source})[target := files[source]];
      }
      clock, record := clock + 1, Counted(record, ok).(unmoved := record.unmoved + refused);
      trail := trail + [files];
    }

    /** Removes a path; a missing file is no error. */
    method Unlink(p: Path) returns (ok: bool)
      modifies this
      ensures trail == old(trail) + [files]
      ensures files == if ok then old(files) - {p} else old(files)
      ensures ok <==> !faulty(old(clock))
      ensures record == if ok then old(record) else Counted(old(record), ok).(unremoved := old(record).unremoved + [p])
    {
      ok := !faulty(clock);
      if ok {
        files := files - {p};
      } else {
        record := Counted(record, ok).(unremoved := record.unremoved + [p]);
      }
      clock := clock + 1;
      trail := trail + [files];
    }

    /** mkstemp: an exclusive create, so the path held nothing before. */
    method Create() returns (ok: bool, p: Path)
      modifies this
      ensures trail == old(trail) + [files]
      ensures ok ==> p !in old(files) && files == old(files)[p := []]
      ensures !ok ==> files == old(files)
      ensures p == names(old(clock)) && (ok <==> !faulty(old(clock)) && p !in old(files))
      ensures record == if ok then old(record).(drawn := old(record).drawn + [p]) else Counted(old(record), ok)
    {
      p := names(clock);
      ok := !faulty(clock) && p !in files;
      if ok {
        files := files[p := []];
      }
      clock, record := clock + 1, if ok then record.(drawn := record.drawn + [p]) else Counted(record, ok);
      trail := trail + [files];
    }

    method Write(p: Path, content: Bytes) returns (ok: bool)
      modifies this
      ensures trail == old(trail) + [files]
      ensures p in files && files == old(files)[p := files[p]]
      ensures ok ==> files[p] == content
      ensures ok <==> !faulty(old(clock))
      ensures record == Counted(old(record), ok)
    {
      ok := !faulty(clock);
      var part := landed(clock);
      files := files[p := if ok || part >= |content| then content else content[..part]];
      clock, record := clock + 1, Counted(record, ok);
      trail := trail + [files];
    }
  }

  datatype Item = Item(path: Path, content: Bytes)

  function Finals(items: seq<Item>): seq<Path> {
    seq(|items|, i requires 0 <= i < |items| => items[i].path)
  }

  predicate Distinct(s: seq<Path>) {
    forall i, j :: 0 <= i < j < |s| ==> s[i] != s[j]
  }

  predicate Injective(m: map<Path, Path>) {
    forall f, g :: f in m && g in m && f != g ==> m[f] != m[g]
  }

  /** Destinations, temporaries and backups are pairwise different paths. */
  predicate ValidGenerated(finals: seq<Path>, temporaries: map<Path, Path>, backups: map<Path, Path>) {
    && Distinct(finals) && Injective(temporaries) && Injective(backups)
    && (forall f :: f in temporaries ==> temporaries[f] !in finals)
    && (forall f :: f in backups ==> backups[f] !in finals)
    && (forall f, g :: f in temporaries && g in backups ==> temporaries[f] != backups[g])
  }

  /** The item's content sits under its temporary name. */
  ghost predicate Holds(files: Files, temporaries: map<Path, Path>, item: Item) {
    && item.path in temporaries && temporaries[item.path] in files
    && files[temporaries[item.path]] == item.content
  }

  /** Staged content sits under fresh names and nothing else has changed. */
  ghost predicate Staged(files: Files, original: Files, items: seq<Item>, count: nat, temporaries: map<Path, Path>)
    requires count <= |items|
  {
    && SameOutside(files, original, temporaries.Values)
    && temporaries.Values !! original.Keys
    && (forall f :: f in temporaries ==> temporaries[f] in files)
    && (forall f :: f in temporaries <==> f in Finals(items[..count]))
    && (forall i :: 0 <= i < count ==> Holds(files, temporaries, items[i]))
  }

  ghost predicate IntactSince(trail: seq<Files>, from: nat, original: Files) {
    forall i :: from <= i < |trail| ==> Intact(trail[i], original)
  }

  /** Writes one temporary; on failure the half-made file is unlinked, best effort. */
  method WriteTemp(disk: Disk, content: Bytes) returns (ok: bool, temporary: Path, ghost leaked: set<Path>)
    modifies disk
    ensures |old(disk.trail)| <= |disk.trail|
    ensures disk.trail[..|old(disk.trail)|] == old(disk.trail)
    ensures IntactSince(disk.trail, |old(disk.trail)|, old(disk.files))
    ensures ok ==> temporary !in old(disk.files) && disk.files == old(disk.files)[temporary := content] && leaked == {}
    ensures !ok ==> leaked !! old(disk.files).Keys && SameOutside(disk.files, old(disk.files), leaked)
    ensures Grows(old(disk.record), disk.record) && (ok <==> disk.record.failures == old(disk.record).failures)
    ensures ok ==> disk.record.drawn == old(disk.record).drawn + [temporary]
    ensures leaked <= {temporary} && Leftover(leaked, old(disk.record), disk.record)
  {
    hide Leftover;
    NeverLeftover();
    leaked := {};
    temporary := 0;
    ok := disk.Attempt();
    if !ok {
      return;
    }
    ok, temporary := disk.Create();
    if !ok {
      return;
    }
    ok := disk.Write(temporary, content);
    if !ok {
      var removed := disk.Unlink(temporary);
      leaked := if removed then {} else {temporary};
      TempLeftover(old(disk.record), disk.record, temporary);
    }
  }

  lemma NeverLeftover()
    ensures forall a, b :: Leftover({}, a, b)
  {
  }

  lemma TempLeftover(a: Record, b: Record, temporary: Path)
    ensures b.drawn == a.drawn + [temporary] && b.unremoved == a.unremoved + [temporary] ==> Leftover({temporary}, a, b)
  {
  }

  lemma NewValue(m: map<Path, Path>, k: Path, v: Path)
    requires k !in m
    ensures m[k := v].Values == m.Values + {v}
  {
    var m' := m[k := v];
    assert m'[k] == v;
    forall x | x in m.Values
      ensures x in m'.Values
    {
      var j :| j in m && m[j] == x;
      assert m'[j] == x;
    }
  }

  /** The names in the map were given out between two records; if those are distinct, the map is injective. */
  ghost predicate Given(names: map<Path, Path>, a: Record, b: Record) {
    && (forall f :: f in names ==> names[f] in Drawn(a, b))
    && (Distinct(Drawn(a, b)) ==> Injective(names))
  }

  lemma GrowsOnward(a: Record, b: Record, c: Record)
    requires Grows(a, b) && Grows(b, c)
    ensures Grows(a, c)
    ensures |Unremoved(a, c)| == |Unremoved(a, b)| + |Unremoved(b, c)|
    ensures forall p :: p in Unremoved(a, c) <==> p in Unremoved(a, b) || p in Unremoved(b, c)
    ensures forall p :: p in Drawn(a, b) ==> p in Drawn(a, c)
  {
    DrawnSplit(a, b, c);
    assert Unremoved(a, c) == Unremoved(a, b) + Unremoved(b, c);
  }

  lemma NothingDenied(r: Record)
    ensures forall p :: !Denied(r, r, p)
  {
  }

  ghost predicate DeniesAsBefore(a: Record, b: Record) {
    b.unremoved == a.unremoved && b.unmoved == a.unmoved
  }

  ghost predicate DeniesAlso(a: Record, b: Record, p: Path) {
    || (b.unremoved == a.unremoved + [p] && b.unmoved == a.unmoved)
    || (b.unremoved == a.unremoved && b.unmoved == a.unmoved + [p])
  }

  lemma DeniedOnce(a: Record, b: Record, p: Path)
    ensures DeniesAsBefore(a, b) ==> forall q :: !Denied(a, b, q)
    ensures DeniesAlso(a, b, p) ==> forall q :: Denied(a, b, q) <==> q == p
  {
  }

  lemma DeniedOnward(a: Record, b: Record, c: Record)
    requires Grows(a, b) && Grows(b, c)
    ensures forall p :: Denied(a, c, p) <==> Denied(a, b, p) || Denied(b, c, p)
  {
    assert Unremoved(a, c) == Unremoved(a, b) + Unremoved(b, c);
    assert Unmoved(a, c) == Unmoved(a, b) + Unmoved(b, c);
  }

  lemma FailuresGrow(a: Record, b: Record, c: Record)
    requires Grows(a, b) && Grows(b, c)
    ensures a.failures <= b.failures <= c.failures
  {
  }

  lemma NothingGiven(r: Record)
    ensures Grows(r, r) && Given(map[], r, r) && Leftover({}, r, r)
  {
  }

  lemma StillGiven(names: map<Path, Path>, leaked: set<Path>, a: Record, b: Record, c: Record)
    requires Grows(a, b) && Grows(b, c) && Given(names, a, b) && Leftover(leaked, b, c)
    ensures Grows(a, c) && Given(names, a, c) && Leftover(leaked, a, c)
  {
    DrawnSplit(a, b, c);
    assert Unremoved(a, c) == Unremoved(a, b) + Unremoved(b, c);
    var n := |Drawn(a, b)|;
    assert forall i :: 0 <= i < n ==> Drawn(a, c)[i] == Drawn(a, b)[i];
  }

  lemma DrawnSplit(a: Record, b: Record, c: Record)
    requires Grows(a, b) && Grows(b, c)
    ensures Drawn(a, c) == Drawn(a, b) + Drawn(b, c)
  {
  }

  lemma OneMoreGiven(names: map<Path, Path>, f: Path, name: Path, a: Record, b: Record, c: Record)
    requires Grows(a, b) && Grows(b, c) && Given(names, a, b) && c.drawn == b.drawn + [name]
    ensures Given(names[f := name], a, c)
  {
    DrawnSplit(a, b, c);
    var before, after := Drawn(a, b), Drawn(a, c);
    assert after == before + [name];
    assert forall i :: 0 <= i < |before| ==> after[i] == before[i];
    if Distinct(after) {
      assert after[|before|] == name;
      assert name !in before;
    }
  }

  lemma SiblingDrawn(a: Record, b: Record)
    requires a.failures <= b.failures && a.drawn <= b.drawn && a.unremoved <= b.unremoved && a.unmoved <= b.unmoved
    ensures Grows(a, b) && Leftover({}, a, b)
  {
  }

  lemma LeftBehind(p: Path, a: Record, b: Record, c: Record)
    requires Grows(a, b) && c.drawn == b.drawn + [p] && c.unremoved == b.unremoved + [p]
    ensures Leftover({p}, a, c)
  {
    assert Drawn(a, c) == Drawn(a, b) + [p];
    assert Unremoved(a, c) == Unremoved(a, b) + [p];
  }

  method Stage(disk: Disk, items: seq<Item>)
    returns (ok: bool, temporaries: map<Path, Path>, ghost leaked: set<Path>)
    requires Distinct(Finals(items))
    modifies disk
    ensures |old(disk.trail)| <= |disk.trail|
    ensures disk.trail[..|old(disk.trail)|] == old(disk.trail)
    ensures IntactSince(disk.trail, |old(disk.trail)|, old(disk.files))
    ensures ok ==> leaked == {} && Staged(disk.files, old(disk.files), items, |items|, temporaries)
    ensures !ok ==> (leaked + temporaries.Values) !! old(disk.files).Keys
    ensures !ok ==> SameOutside(disk.files, old(disk.files), leaked + temporaries.Values)
    ensures Grows(old(disk.record), disk.record) && (ok <==> disk.record.failures == old(disk.record).failures)
    ensures Given(temporaries, old(disk.record), disk.record) && Leftover(leaked, old(disk.record), disk.record)
  {
    hide Given, Leftover, Grows;
    temporaries, leaked, ok := map[], {}, true;
    NothingGiven(disk.record);
    for k := 0 to |items|
      invariant ok && leaked == {}
      invariant Grows(old(disk.record), disk.record) && disk.record.failures == old(disk.record).failures
      invariant Given(temporaries, old(disk.record), disk.record) && Leftover(leaked, old(disk.record), disk.record)
      invariant |old(disk.trail)| <= |disk.trail|
      invariant disk.trail[..|old(disk.trail)|] == old(disk.trail)
      invariant IntactSince(disk.trail, |old(disk.trail)|, old(disk.files))
      invariant Staged(disk.files, old(disk.files), items, k, temporaries)
    {
      var temporary;
      ghost var before, earlier := disk.files, disk.record;
      ok, temporary, leaked := WriteTemp(disk, items[k].content);
      StillGiven(temporaries, leaked, old(disk.record), earlier, disk.record);
      if !ok {
        return;
      }
      ghost var finals := Finals(items);
      assert finals[k] == items[k].path;
      assert items[k].path !in temporaries by {
        assert forall i :: 0 <= i < k ==> finals[i] == items[i].path;
      }
      NewValue(temporaries, items[k].path, temporary);
      OneMoreGiven(temporaries, items[k].path, temporary, old(disk.record), earlier, disk.record);
      temporaries := temporaries[items[k].path := temporary];
      assert Finals(items[..k + 1]) == Finals(items[..k]) + [items[k].path];
    }
  }

  /** Reserves a backup name for every destination that exists: create a fresh sibling, then unlink it. */
  method PlanBackups(disk: Disk, finals: seq<Path>)
    returns (ok: bool, planned: map<Path, Path>, ghost leaked: set<Path>)
    modifies disk
    ensures |old(disk.trail)| <= |disk.trail|
    ensures disk.trail[..|old(disk.trail)|] == old(disk.trail)
    ensures IntactSince(disk.trail, |old(disk.trail)|, old(disk.files))
    ensures leaked !! old(disk.files).Keys
    ensures ok ==> leaked == {} && disk.files == old(disk.files)
    ensures !ok ==> SameOutside(disk.files, old(disk.files), leaked)
    ensures forall f :: f in planned ==> f in finals && planned[f] !in old(disk.files)
    ensures ok ==> forall f :: f in planned <==> f in finals && f in old(disk.files)
    ensures Grows(old(disk.record), disk.record) && (ok <==> disk.record.failures == old(disk.record).failures)
    ensures Given(planned, old(disk.record), disk.record) && Leftover(leaked, old(disk.record), disk.record)
  {
    hide Given, Leftover, Grows;
    planned, leaked, ok := map[], {}, true;
    NothingGiven(disk.record);
    for k := 0 to |finals|
      invariant ok && leaked == {} && disk.files == old(disk.files)
      invariant Grows(old(disk.record), disk.record) && disk.record.failures == old(disk.record).failures
      invariant Given(planned, old(disk.record), disk.record) && Leftover(leaked, old(disk.record), disk.record)
      invariant |old(disk.trail)| <= |disk.trail|
      invariant disk.trail[..|old(disk.trail)|] == old(disk.trail)
      invariant IntactSince(disk.trail, |old(disk.trail)|, old(disk.files))
      invariant forall f :: f in planned ==> planned[f] !in old(disk.files)
      invariant forall f :: f in planned <==> f in finals[..k] && f in old(disk.files)
    {
      if finals[k] in disk.files {
        ghost var earlier := disk.record;
        var sibling;
        ok, sibling := disk.Create();
        if !ok {
          SiblingDrawn(earlier, disk.record);
          StillGiven(planned, {}, old(disk.record), earlier, disk.record);
          return;
        }
        ok := disk.Unlink(sibling);
        SiblingDrawn(earlier, disk.record);
        StillGiven(planned, {}, old(disk.record), earlier, disk.record);
        if !ok {
          leaked := {sibling};
          LeftBehind(sibling, old(disk.record), earlier, disk.record);
          return;
        }
        OneMoreGiven(planned, finals[k], sibling, old(disk.record), earlier, disk.record);
        planned := planned[finals[k] := sibling];
      }
    }
  }

  /** The names in use after validation: destinations, temporaries and backups never collide. */
  ghost predicate Named(
      original: Files, finals: seq<Path>,
      temporaries: map<Path, Path>, backups: map<Path, Path>, absent: set<Path>, published: set<Path>)
  {
    && ValidGenerated(finals, temporaries, backups)
    && temporaries.Values !! original.Keys && backups.Values !! original.Keys
    && backups.Keys <= original.Keys && absent !! original.Keys
    && published <= backups.Keys + absent
    && (forall f :: f in backups || f in absent ==> f in finals)
  }

  /** Paths that play no part are untouched, and each backup holds its original. */
  ghost predicate Preserved(
      files: Files, original: Files, finals: seq<Path>, temporaries: map<Path, Path>, backups: map<Path, Path>)
  {
    && (forall p :: p !in finals && p !in temporaries.Values && p !in backups.Values ==> SameAt(files, original, p))
    && (forall f :: f in backups && f in original ==> backups[f] in files && files[backups[f]] == original[f])
  }

  /** A published destination has its new content, a moved one is empty, any other is untouched. */
  ghost predicate Placed(
      files: Files, original: Files, items: seq<Item>,
      temporaries: map<Path, Path>, backups: map<Path, Path>, published: set<Path>)
  {
    forall i :: 0 <= i < |items| ==> ItemPlaced(files, original, items[i], temporaries, backups, published)
  }

  ghost predicate ItemPlaced(
      files: Files, original: Files, item: Item,
      temporaries: map<Path, Path>, backups: map<Path, Path>, published: set<Path>)
  {
    if item.path in published then item.path in files && files[item.path] == item.content
    else Holds(files, temporaries, item)
         && if item.path in backups then item.path !in files else SameAt(files, original, item.path)
  }

  /** The disk between validation and the end: every path is accounted for. */
  ghost predicate Accounted(
      files: Files, original: Files, items: seq<Item>,
      temporaries: map<Path, Path>, backups: map<Path, Path>, absent: set<Path>, published: set<Path>)
  {
    && Named(original, Finals(items), temporaries, backups, absent, published)
    && Preserved(files, original, Finals(items), temporaries, backups)
    && Placed(files, original, items, temporaries, backups, published)
  }

  lemma AccountedIsRecoverable(
      files: Files, original: Files, items: seq<Item>,
      temporaries: map<Path, Path>, backups: map<Path, Path>, planned: map<Path, Path>,
      absent: set<Path>, published: set<Path>)
    requires Accounted(files, original, items, temporaries, backups, absent, published)
    requires forall f :: f in backups ==> f in planned && planned[f] == backups[f]
    ensures Recoverable(files, original, Finals(items), planned)
  {
    forall f | f in Finals(items) && f in original && f !in backups
      ensures f in files && files[f] == original[f]
    {
      var i :| 0 <= i < |items| && Finals(items)[i] == f;
      assert ItemPlaced(files, original, items[i], temporaries, backups, published);
    }
  }

  /** Moving one original to its backup keeps every path accounted for. */
  lemma OneMoved(
      before: Files, original: Files, items: seq<Item>,
      temporaries: map<Path, Path>, backups: map<Path, Path>, absent: set<Path>, k: nat, backup: Path)
    requires Accounted(before, original, items, temporaries, backups, absent, {}) && k < |items|
    requires items[k].path !in backups && items[k].path !in absent && items[k].path in before
    requires backup !in before && backup !in original && backup !in Finals(items)
    requires backup !in temporaries.Values && backup !in backups.Values
    ensures items[k].path in original
    ensures Accounted((before - {items[k].path})[backup := before[items[k].path]], original, items,
                      temporaries, backups[items[k].path := backup], absent, {})
  {
    var final, finals := items[k].path, Finals(items);
    var after, backups' := (before - {final})[backup := before[final]], backups[final := backup];
    assert finals[k] == final;
    assert ItemPlaced(before, original, items[k], temporaries, backups, {});
    NewValue(backups, final, backup);
    assert Named(original, finals, temporaries, backups', absent, {}) by {
      assert forall f :: f in temporaries ==> temporaries[f] in temporaries.Values;
      assert forall f :: f in backups ==> backups[f] in backups.Values;
    }
    assert Preserved(after, original, finals, temporaries, backups');
    forall i | 0 <= i < |items|
      ensures ItemPlaced(after, original, items[i], temporaries, backups', {})
    {
      assert finals[i] == items[i].path;
      assert ItemPlaced(before, original, items[i], temporaries, backups, {});
      assert temporaries[items[i].path] in temporaries.Values;
    }
  }

  lemma OneAbsent(
      files: Files, original: Files, items: seq<Item>,
      temporaries: map<Path, Path>, backups: map<Path, Path>, absent: set<Path>, k: nat)
    requires Accounted(files, original, items, temporaries, backups, absent, {}) && k < |items|
    requires items[k].path !in backups && items[k].path !in files
    ensures Accounted(files, original, items, temporaries, backups, absent + {items[k].path}, {})
  {
    assert Finals(items)[k] == items[k].path;
    assert ItemPlaced(files, original, items[k], temporaries, backups, {});
  }

  /** Publishing one more destination keeps every path accounted for. */
  lemma OnePublished(
      before: Files, original: Files, items: seq<Item>,
      temporaries: map<Path, Path>, backups: map<Path, Path>, absent: set<Path>, published: set<Path>, k: nat)
    requires Accounted(before, original, items, temporaries, backups, absent, published) && k < |items|
    requires items[k].path !in published && (items[k].path in backups || items[k].path in absent)
    ensures Holds(before, temporaries, items[k])
    ensures Accounted((before - {temporaries[items[k].path]})[items[k].path := before[temporaries[items[k].path]]],
                      original, items, temporaries - {items[k].path}, backups, absent, published + {items[k].path})
  {
    var final, finals := items[k].path, Finals(items);
    assert finals[k] == final;
    assert ItemPlaced(before, original, items[k], temporaries, backups, published);
    var temporary := temporaries[final];
    var after, rest := (before - {temporary})[final := before[temporary]], temporaries - {final};
    WithoutKey(temporaries, final);
    assert forall f :: f in backups ==> backups[f] in backups.Values;
    assert Named(original, finals, rest, backups, absent, published + {final});
    assert Preserved(after, original, finals, rest, backups);
    forall i | 0 <= i < |items|
      ensures ItemPlaced(after, original, items[i], rest, backups, published + {final})
    {
      assert finals[i] == items[i].path;
      assert ItemPlaced(before, original, items[i], temporaries, backups, published);
      assert items[i].path == final ==> i == k;
    }
  }

  lemma WithoutKey(m: map<Path, Path>, k: Path)
    requires k in m
    ensures m.Values <= (m - {k}).Values + {m[k]}
    ensures (m - {k}).Values <= m.Values
  {
    var rest := m - {k};
    forall x | x in m.Values
      ensures x in rest.Values || x == m[k]
    {
      var f :| f in m && m[f] == x;
      assert f == k || (f in rest && rest[f] == x);
    }
    forall x | x in rest.Values
      ensures x in m.Values
    {
      var f :| f in rest && rest[f] == x;
      assert m[f] == x;
    }
  }

  ghost predicate RecoverableSince(
      trail: seq<Files>, from: nat, original: Files, finals: seq<Path>, planned: map<Path, Path>)
  {
    forall i :: from <= i < |trail| ==> Recoverable(trail[i], original, finals, planned)
  }

  /** `later` is `earlier` with zero or more states added, from each of which the originals can be recovered. */
  ghost predicate ExtendsRecoverably(
      earlier: seq<Files>, later: seq<Files>, original: Files, finals: seq<Path>, planned: map<Path, Path>)
  {
    earlier <= later && RecoverableSince(later, |earlier|, original, finals, planned)
  }

  lemma ExtendsOnward(
      a: seq<Files>, b: seq<Files>, c: seq<Files>, original: Files, finals: seq<Path>, planned: map<Path, Path>)
    requires ExtendsRecoverably(a, b, original, finals, planned)
    requires ExtendsRecoverably(b, c, original, finals, planned)
    ensures ExtendsRecoverably(a, c, original, finals, planned)
  {
    forall i | |a| <= i < |c|
      ensures Recoverable(c[i], original, finals, planned)
    {
      if i < |b| {
        assert c[i] == b[i];
      }
    }
  }

  /** The backup loop after k destinations: each of them is backed up or absent, and what is planned for the others is
      still to be done. */
  ghost predicate HalfMoved(
      files: Files, finals: seq<Path>, k: nat, planned: map<Path, Path>, backups: map<Path, Path>, absent: set<Path>)
    requires k <= |finals|
  {
    && (forall f :: f in backups ==> f in planned && planned[f] == backups[f])
    && (forall f :: f in planned && f !in backups ==> planned[f] !in files)
    && (forall f :: f in finals[k..] ==> (f in planned <==> f in files))
    && (forall f :: f in backups || f in absent <==> f in finals[..k])
  }

  lemma NoneMoved(files: Files, finals: seq<Path>, planned: map<Path, Path>)
    requires planned.Values !! files.Keys && forall f :: f in planned <==> f in finals && f in files
    ensures HalfMoved(files, finals, 0, planned, map[], {})
  {
    assert forall f :: f in planned ==> planned[f] in planned.Values;
    assert finals[0..] == finals;
  }

  lemma NextToMove(
      files: Files, finals: seq<Path>, k: nat, planned: map<Path, Path>, backups: map<Path, Path>, absent: set<Path>)
    requires Distinct(finals) && k < |finals| && HalfMoved(files, finals, k, planned, backups, absent)
    ensures finals[k] !in backups && finals[k] !in absent && (finals[k] in planned <==> finals[k] in files)
    ensures forall f :: f in backups ==> f in planned && planned[f] == backups[f]
    ensures forall f :: f in planned && f !in backups ==> planned[f] !in files
  {
    NotYetPassed(finals, k);
  }

  lemma OneMoreMoved(
      before: Files, after: Files, finals: seq<Path>, k: nat, planned: map<Path, Path>, backups: map<Path, Path>,
      absent: set<Path>, backups': map<Path, Path>, absent': set<Path>)
    requires Distinct(finals) && Injective(planned) && (forall f :: f in planned ==> planned[f] !in finals)
    requires k < |finals| && HalfMoved(before, finals, k, planned, backups, absent)
    requires finals[k] in planned && finals[k] in backups' ==>
               finals[k] in before
               && after == (before - {finals[k]})[planned[finals[k]] := before[finals[k]]]
    requires finals[k] !in backups' ==> after == before
    requires backups' == backups || (finals[k] in planned && backups' == backups[finals[k] := planned[finals[k]]])
    requires absent' == absent || absent' == absent + {finals[k]}
    requires finals[k] in backups' || finals[k] in absent'
    ensures HalfMoved(after, finals, k + 1, planned, backups', absent')
  {
    NotYetPassed(finals, k);
    assert forall f :: f in finals[k + 1..] ==> f in finals[k..] && f != finals[k] && f in finals;
  }

  lemma AllMoved(
      files: Files, finals: seq<Path>, planned: map<Path, Path>, backups: map<Path, Path>, absent: set<Path>)
    requires HalfMoved(files, finals, |finals|, planned, backups, absent)
    ensures forall f :: f in backups ==> f in planned && planned[f] == backups[f]
    ensures forall f :: f in finals ==> f in backups || f in absent
  {
    assert finals[..|finals|] == finals;
  }

  /** One step of the backup loop: snapshot check, then move the destination aside or note that it is absent. */
  method MoveOne(
      disk: Disk, items: seq<Item>, k: nat, temporaries: map<Path, Path>, planned: map<Path, Path>,
      backups: map<Path, Path>, absent: set<Path>, ghost original: Files)
    returns (ok: bool, backups': map<Path, Path>, absent': set<Path>)
    requires k < |items| && HalfMoved(disk.files, Finals(items), k, planned, backups, absent)
    requires Accounted(disk.files, original, items, temporaries, backups, absent, {})
    requires ValidGenerated(Finals(items), temporaries, planned) && planned.Values !! original.Keys
    modifies disk
    ensures ExtendsRecoverably(old(disk.trail), disk.trail, original, Finals(items), planned)
    ensures Accounted(disk.files, original, items, temporaries, backups', absent', {})
    ensures ok ==> HalfMoved(disk.files, Finals(items), k + 1, planned, backups', absent')
    ensures forall f :: f in backups' ==> f in planned && planned[f] == backups'[f]
    ensures Grows(old(disk.record), disk.record)
    ensures disk.record.failures == old(disk.record).failures + (if ok then 0 else 1)
  {
    hide Accounted, Recoverable, HalfMoved;
    backups', absent' := backups, absent;
    var final := items[k].path;
    ghost var before, finals := disk.files, Finals(items);
    NextToMove(before, finals, k, planned, backups, absent);
    AccountedIsRecoverable(disk.files, original, items, temporaries, backups, planned, absent, {});
    ok := disk.Attempt();
    if !ok {
      return;
    }
    if final in disk.files {
      assert planned[final] !in backups.Values && planned[final] !in temporaries.Values;
      ok := disk.Replace(final, planned[final]);
      if !ok {
        return;
      }
      OneMoved(before, original, items, temporaries, backups, absent, k, planned[final]);
      backups' := backups[final := planned[final]];
      AccountedIsRecoverable(disk.files, original, items, temporaries, backups', planned, absent, {});
      ok := disk.Attempt();
    } else {
      OneAbsent(disk.files, original, items, temporaries, backups, absent, k);
      absent' := absent + {final};
    }
    OneMoreMoved(before, disk.files, finals, k, planned, backups, absent, backups', absent');
  }

  /** Moves each existing destination to its planned backup and notes the absent ones. */
  method MoveToBackups(
      disk: Disk, items: seq<Item>, temporaries: map<Path, Path>, planned: map<Path, Path>, ghost original: Files)
    returns (ok: bool, backups: map<Path, Path>, absent: set<Path>)
    requires Accounted(disk.files, original, items, temporaries, map[], {}, {})
    requires ValidGenerated(Finals(items), temporaries, planned)
    requires planned.Values !! disk.files.Keys && planned.Values !! original.Keys
    requires forall f :: f in planned <==> f in Finals(items) && f in disk.files
    modifies disk
    ensures ExtendsRecoverably(old(disk.trail), disk.trail, original, Finals(items), planned)
    ensures forall f :: f in backups ==> f in planned && planned[f] == backups[f]
    ensures Accounted(disk.files, original, items, temporaries, backups, absent, {})
    ensures ok ==> forall f :: f in Finals(items) ==> f in backups || f in absent
    ensures Grows(old(disk.record), disk.record)
    ensures disk.record.failures == old(disk.record).failures + (if ok then 0 else 1)
  {
    hide Accounted, Recoverable, ExtendsRecoverably, Grows, HalfMoved;
    NothingGiven(disk.record);
    backups, absent, ok := map[], {}, true;
    var finals := Finals(items);
    ExtendsNowhere(disk.trail, original, finals, planned);
    NoneMoved(disk.files, finals, planned);
    hide ValidGenerated;
    for k := 0 to |finals|
      invariant ok
      invariant Grows(old(disk.record), disk.record) && disk.record.failures == old(disk.record).failures
      invariant ExtendsRecoverably(old(disk.trail), disk.trail, original, finals, planned)
      invariant HalfMoved(disk.files, finals, k, planned, backups, absent)
      invariant Accounted(disk.files, original, items, temporaries, backups, absent, {})
    {
      ghost var trail, earlier := disk.trail, disk.record;
      ok, backups, absent := MoveOne(disk, items, k, temporaries, planned, backups, absent, original);
      GrowsOnward(old(disk.record), earlier, disk.record);
      ExtendsOnward(old(disk.trail), trail, disk.trail, original, finals, planned);
      if !ok {
        return;
      }
    }
    AllMoved(disk.files, finals, planned, backups, absent);
  }

  lemma ExtendsNowhere(trail: seq<Files>, original: Files, finals: seq<Path>, planned: map<Path, Path>)
    ensures ExtendsRecoverably(trail, trail, original, finals, planned)
  {
  }

  /** One step of the publishing loop: snapshot check, then rename a temporary over its destination. */
  method PublishOne(
      disk: Disk, items: seq<Item>, k: nat, temporaries: map<Path, Path>, backups: map<Path, Path>, absent: set<Path>,
      published: set<Path>, ghost planned: map<Path, Path>, ghost original: Files)
    returns (ok: bool, temporaries': map<Path, Path>, published': set<Path>)
    requires k < |items| && items[k].path !in published && (items[k].path in backups || items[k].path in absent)
    requires Accounted(disk.files, original, items, temporaries, backups, absent, published)
    requires forall f :: f in backups ==> f in planned && planned[f] == backups[f]
    modifies disk
    ensures ExtendsRecoverably(old(disk.trail), disk.trail, original, Finals(items), planned)
    ensures Accounted(disk.files, original, items, temporaries', backups, absent, published')
    ensures if ok || published' != published
            then temporaries' == temporaries - {items[k].path} && published' == published + {items[k].path}
            else temporaries' == temporaries
    ensures Grows(old(disk.record), disk.record)
    ensures disk.record.failures == old(disk.record).failures + (if ok then 0 else 1)
  {
    hide Accounted, Recoverable;
    temporaries', published' := temporaries, published;
    var final := items[k].path;
    AccountedIsRecoverable(disk.files, original, items, temporaries, backups, planned, absent, published);
    ok := disk.Attempt();
    if !ok {
      return;
    }
    OnePublished(disk.files, original, items, temporaries, backups, absent, published, k);
    ok := disk.Replace(temporaries[final], final);
    if !ok {
      return;
    }
    temporaries', published' := temporaries - {final}, published + {final};
    AccountedIsRecoverable(disk.files, original, items, temporaries', backups, planned, absent, published');
    ok := disk.Attempt();
  }

  /** Renames each temporary over its destination. */
  method Publish(
      disk: Disk, items: seq<Item>, staged: map<Path, Path>, backups: map<Path, Path>, absent: set<Path>,
      ghost planned: map<Path, Path>, ghost original: Files)
    returns (ok: bool, temporaries: map<Path, Path>, published: set<Path>)
    requires Distinct(Finals(items))
    requires Accounted(disk.files, original, items, staged, backups, absent, {})
    requires forall f :: f in Finals(items) ==> f in backups || f in absent
    requires forall f :: f in backups ==> f in planned && planned[f] == backups[f]
    modifies disk
    ensures ExtendsRecoverably(old(disk.trail), disk.trail, original, Finals(items), planned)
    ensures Accounted(disk.files, original, items, temporaries, backups, absent, published)
    ensures ok ==> forall f :: f in Finals(items) ==> f in published
    ensures temporaries.Keys <= staged.Keys - published && temporaries.Values <= staged.Values
    ensures Grows(old(disk.record), disk.record)
    ensures disk.record.failures == old(disk.record).failures + (if ok then 0 else 1)
  {
    hide Accounted, Recoverable, ExtendsRecoverably, Grows, Distinct;
    NothingGiven(disk.record);
    temporaries, published, ok := staged, {}, true;
    var finals := Finals(items);
    ExtendsNowhere(disk.trail, original, finals, planned);
    for k := 0 to |finals|
      invariant ok
      invariant Grows(old(disk.record), disk.record) && disk.record.failures == old(disk.record).failures
      invariant ExtendsRecoverably(old(disk.trail), disk.trail, original, finals, planned)
      invariant forall f :: f in published <==> f in finals[..k]
      invariant temporaries.Keys <= staged.Keys - published && temporaries.Values <= staged.Values
      invariant Accounted(disk.files, original, items, temporaries, backups, absent, published)
    {
      NotYetPassed(finals, k);
      ghost var trail, earlier, before := disk.trail, disk.record, temporaries;
      ok, temporaries, published :=
        PublishOne(disk, items, k, temporaries, backups, absent, published, planned, original);
      GrowsOnward(old(disk.record), earlier, disk.record);
      ExtendsOnward(old(disk.trail), trail, disk.trail, original, finals, planned);
      FewerValues(before, finals[k]);
      if !ok {
        return;
      }
    }
  }

  lemma NotYetPassed(finals: seq<Path>, k: nat)
    requires Distinct(finals) && k < |finals|
    ensures finals[k] in finals && finals[k] in finals[k..] && finals[k] !in finals[..k]
    ensures finals[..k + 1] == finals[..k] + [finals[k]]
  {
  }

  lemma FewerValues(m: map<Path, Path>, k: Path)
    ensures (m - {k}).Values <= m.Values
  {
    if k in m {
      WithoutKey(m, k);
    } else {
      assert m - {k} == m;
    }
  }

  /** The names rollback works with never collide. */
  ghost predicate UndoNamed(original: Files, finals: seq<Path>, temporaries: set<Path>, backups: map<Path, Path>) {
    && Distinct(finals) && Injective(backups)
    && backups.Values !! original.Keys && backups.Values !! temporaries
    && (forall f :: f in backups ==> f in finals && f in original && backups[f] !in finals)
    && (forall f :: f in temporaries ==> f !in finals)
  }

  /** The destinations before `done` are restored, unless stuck; a stuck original is still under its backup. */
  ghost predicate UndoDone(
      files: Files, original: Files, finals: seq<Path>, done: nat, backups: map<Path, Path>, stuck: set<Path>)
    requires done <= |finals|
  {
    && (forall f :: f in stuck ==> f in finals[..done] && (f in original ==> f in backups))
    && (forall f :: f in finals[..done] && f !in stuck ==> f !in backups && SameAt(files, original, f))
  }

  ghost predicate Pending(
      files: Files, original: Files, f: Path, backups: map<Path, Path>, absent: set<Path>, published: set<Path>)
  {
    if f in backups then true
    else if f in absent then f !in original && (f in published || f !in files)
    else f !in published && SameAt(files, original, f)
  }

  /** The disk during rollback, `done` destinations in. */
  ghost predicate RollingBack(
      files: Files, original: Files, finals: seq<Path>, done: nat, temporaries: set<Path>,
      backups: map<Path, Path>, absent: set<Path>, published: set<Path>, stuck: set<Path>)
    requires done <= |finals|
  {
    && UndoNamed(original, finals, temporaries, backups)
    && (forall f :: f in backups ==> backups[f] in files && files[backups[f]] == original[f])
    && (forall p :: p !in finals && p !in temporaries && p !in backups.Values ==> SameAt(files, original, p))
    && UndoDone(files, original, finals, done, backups, stuck)
    && (forall f :: f in finals[done..] ==> Pending(files, original, f, backups, absent, published))
  }

  lemma RollbackIsRecoverable(
      files: Files, original: Files, finals: seq<Path>, done: nat, temporaries: set<Path>,
      backups: map<Path, Path>, planned: map<Path, Path>, absent: set<Path>, published: set<Path>, stuck: set<Path>)
    requires done <= |finals|
    requires RollingBack(files, original, finals, done, temporaries, backups, absent, published, stuck)
    requires forall f :: f in backups ==> f in planned && planned[f] == backups[f]
    ensures Recoverable(files, original, finals, planned)
  {
    forall f | f in finals && f in original && f !in backups
      ensures f in files && files[f] == original[f]
    {
      assert finals == finals[..done] + finals[done..];
    }
  }

  lemma RollbackStarts(
      files: Files, original: Files, items: seq<Item>,
      temporaries: map<Path, Path>, backups: map<Path, Path>, absent: set<Path>, published: set<Path>)
    requires Accounted(files, original, items, temporaries, backups, absent, published)
    ensures RollingBack(files, original, Finals(items), 0, temporaries.Values, backups, absent, published, {})
    ensures temporaries.Values !! original.Keys
  {
    var finals := Finals(items);
    assert finals[0..] == finals;
    forall f | f in finals
      ensures Pending(files, original, f, backups, absent, published)
    {
      var i :| 0 <= i < |items| && finals[i] == f;
      assert ItemPlaced(files, original, items[i], temporaries, backups, published);
    }
  }

  /** Undoes one destination: unlink what was published, put the backup back, or make sure it is absent again. */
  method RollBackOne(
      disk: Disk, final: Path, published: set<Path>, backups: map<Path, Path>, absent: set<Path>, ghost original: Files)
    returns (restored: bool, clean: bool, rest: map<Path, Path>)
    requires Injective(backups)
    requires final in backups ==> final in original && backups[final] in disk.files
                                  && disk.files[backups[final]] == original[final]
    requires final in backups ==> backups[final] != final
    modifies disk
    ensures old(disk.trail) <= disk.trail
    ensures forall i :: |old(disk.trail)| <= i < |disk.trail| ==>
              disk.trail[i] == old(disk.files) || disk.trail[i] == disk.files
              || (disk.trail[i] == old(disk.files) - {final}
                  && (final in published || final in backups || final in absent))
    ensures clean ==> restored
    ensures Grows(old(disk.record), disk.record) && (clean <==> disk.record.failures == old(disk.record).failures)
    ensures if restored then DeniesAsBefore(old(disk.record), disk.record)
            else DeniesAlso(old(disk.record), disk.record, final)
    ensures restored && final in backups ==>
              disk.files == (old(disk.files) - {backups[final]})[final := original[final]] && rest == backups - {final}
    ensures restored && final !in backups ==>
              rest == backups
              && disk.files ==
                 if final in published || final in absent then old(disk.files) - {final} else old(disk.files)
    ensures !restored ==> rest == backups && (disk.files == old(disk.files) || disk.files == old(disk.files) - {final})
    ensures !restored ==> final in published || final in backups || final in absent
  {
    hide Injective;
    rest, restored, clean := backups, false, false;
    if final in published {
      var ok := disk.Unlink(final);
      if !ok {
        return;
      }
    }
    if final in backups {
      var ok := disk.Replace(backups[final], final);
      if !ok {
        return;
      }
      rest, restored := backups - {final}, true;
      clean := disk.Attempt();
    } else if final in absent {
      var ok := disk.Unlink(final);
      if !ok {
        return;
      }
      restored := true;
      clean := disk.Attempt();
    } else {
      restored, clean := true, true;
    }
  }

  /** Putting back the backup of destination k moves rollback on. */
  lemma OneRestored(
      before: Files, original: Files, finals: seq<Path>, k: nat, temporaries: set<Path>,
      backups: map<Path, Path>, absent: set<Path>, published: set<Path>, stuck: set<Path>)
    requires k < |finals| && finals[k] in backups && finals[k] in original
    requires RollingBack(before, original, finals, k, temporaries, backups, absent, published, stuck)
    ensures RollingBack((before - {backups[finals[k]]})[finals[k] := original[finals[k]]], original, finals, k + 1,
                        temporaries, backups - {finals[k]}, absent, published, stuck)
  {
    NamedWithout(original, finals, temporaries, backups, finals[k]);
    RestoredDone(before, original, finals, k, temporaries, backups, stuck);
    RestoredPending(before, original, finals, k, k + 1, temporaries, backups, absent, published);
    hide UndoDone, Pending;
    RestoredOthers(before, original, finals, finals[k], temporaries, backups);
    hide UndoNamed, SameAt;
  }

  lemma RestoredOthers(
      before: Files, original: Files, finals: seq<Path>, final: Path, temporaries: set<Path>, backups: map<Path, Path>)
    requires final in finals && final in backups && final in original
    requires UndoNamed(original, finals, temporaries, backups)
    requires forall f :: f in backups ==> backups[f] in before && before[backups[f]] == original[f]
    requires forall p :: p !in finals && p !in temporaries && p !in backups.Values ==> SameAt(before, original, p)
    ensures var after, rest := (before - {backups[final]})[final := original[final]], backups - {final};
            && (forall f :: f in rest ==> rest[f] in after && after[rest[f]] == original[f])
            && (forall p :: p !in finals && p !in temporaries && p !in rest.Values ==> SameAt(after, original, p))
  {
    WithoutKey(backups, final);
    assert forall f :: f in backups ==> backups[f] in backups.Values;
  }

  lemma NamedWithout(
      original: Files, finals: seq<Path>, temporaries: set<Path>, backups: map<Path, Path>, final: Path)
    requires UndoNamed(original, finals, temporaries, backups) && final in backups
    ensures UndoNamed(original, finals, temporaries, backups - {final})
  {
    WithoutKey(backups, final);
  }

  lemma RestoredPending(
      before: Files, original: Files, finals: seq<Path>, k: nat, next: nat, temporaries: set<Path>,
      backups: map<Path, Path>, absent: set<Path>, published: set<Path>)
    requires next == k + 1 <= |finals| && finals[k] in backups && finals[k] in original
    requires UndoNamed(original, finals, temporaries, backups)
    requires forall f :: f in finals[k..] ==> Pending(before, original, f, backups, absent, published)
    ensures var after := (before - {backups[finals[k]]})[finals[k] := original[finals[k]]];
            forall f :: f in finals[next..] ==>
              Pending(after, original, f, backups - {finals[k]}, absent, published)
  {
    var final := finals[k];
    var after := (before - {backups[final]})[final := original[final]];
    forall f | f in finals[next..]
      ensures Pending(after, original, f, backups - {final}, absent, published)
    {
      assert f in finals[k..] && f in finals && f != final;
      assert Pending(before, original, f, backups, absent, published);
    }
  }

  lemma RestoredDone(
      before: Files, original: Files, finals: seq<Path>, k: nat, temporaries: set<Path>, backups: map<Path, Path>,
      stuck: set<Path>)
    requires k < |finals| && finals[k] in backups && finals[k] in original
    requires UndoNamed(original, finals, temporaries, backups) && UndoDone(before, original, finals, k, backups, stuck)
    ensures UndoDone((before - {backups[finals[k]]})[finals[k] := original[finals[k]]], original, finals, k + 1,
                     backups - {finals[k]}, stuck)
  {
    var final := finals[k];
    assert finals[..k + 1] == finals[..k] + [final];
    assert forall f :: f in finals[..k] ==> f in finals && f != final;
  }

  /** So does unlinking it or leaving it alone when it has no backup, and so does giving up on it. */
  lemma OneUnlinked(
      before: Files, after: Files, original: Files, finals: seq<Path>, k: nat, temporaries: set<Path>,
      backups: map<Path, Path>, absent: set<Path>, published: set<Path>, stuck: set<Path>, restored: bool)
    requires k < |finals|
    requires RollingBack(before, original, finals, k, temporaries, backups, absent, published, stuck)
    requires after == before || after == before - {finals[k]}
    requires restored ==>
               finals[k] !in backups
               && after == if finals[k] in published || finals[k] in absent then before - {finals[k]} else before
    requires !restored ==> finals[k] in published || finals[k] in backups || finals[k] in absent
    ensures RollingBack(after, original, finals, k + 1, temporaries, backups, absent, published,
                        if restored then stuck else stuck + {finals[k]})
  {
    var final := finals[k];
    var stuck' := if restored then stuck else stuck + {final};
    assert final in finals[k..] && final in finals;
    assert Pending(before, original, final, backups, absent, published);
    UnlinkedDone(before, after, original, finals, k, backups, absent, published, stuck, restored);
    forall f | f in finals[k + 1..]
      ensures Pending(after, original, f, backups, absent, published)
    {
      assert f in finals[k..] && f != final;
      assert Pending(before, original, f, backups, absent, published);
    }
    hide UndoDone, Pending;
    assert RollingBack(after, original, finals, k + 1, temporaries, backups, absent, published, stuck');
  }

  lemma UnlinkedDone(
      before: Files, after: Files, original: Files, finals: seq<Path>, k: nat,
      backups: map<Path, Path>, absent: set<Path>, published: set<Path>, stuck: set<Path>, restored: bool)
    requires k < |finals| && Distinct(finals)
    requires UndoDone(before, original, finals, k, backups, stuck)
    requires Pending(before, original, finals[k], backups, absent, published)
    requires after == before || after == before - {finals[k]}
    requires restored ==>
               finals[k] !in backups
               && after == if finals[k] in published || finals[k] in absent then before - {finals[k]} else before
    requires !restored ==> finals[k] in published || finals[k] in backups || finals[k] in absent
    ensures UndoDone(after, original, finals, k + 1, backups, if restored then stuck else stuck + {finals[k]})
  {
    var final := finals[k];
    assert finals[..k + 1] == finals[..k] + [final];
    assert forall f :: f in finals[..k] ==> f != final;
  }

  /** What undoing destination k may rely on. */
  lemma RollbackFacts(
      files: Files, original: Files, finals: seq<Path>, k: nat, temporaries: set<Path>,
      backups: map<Path, Path>, absent: set<Path>, published: set<Path>, stuck: set<Path>)
    requires k < |finals|
    requires RollingBack(files, original, finals, k, temporaries, backups, absent, published, stuck)
    ensures Injective(backups)
    ensures finals[k] in backups ==> finals[k] in original && backups[finals[k]] in files
                                     && files[backups[finals[k]]] == original[finals[k]]
    ensures finals[k] in backups ==> backups[finals[k]] != finals[k]
  {
    assert finals[k] in finals[k..] && finals[k] in finals;
    assert Pending(files, original, finals[k], backups, absent, published);
  }

  /** Even between the unlink and the restore, the original is under its backup. */
  lemma UnlinkedIsRecoverable(
      files: Files, original: Files, finals: seq<Path>, k: nat, temporaries: set<Path>,
      backups: map<Path, Path>, planned: map<Path, Path>, absent: set<Path>, published: set<Path>, stuck: set<Path>)
    requires k < |finals|
    requires RollingBack(files, original, finals, k, temporaries, backups, absent, published, stuck)
    requires forall f :: f in backups ==> f in planned && planned[f] == backups[f]
    requires finals[k] in published || finals[k] in backups || finals[k] in absent
    ensures Recoverable(files - {finals[k]}, original, finals, planned)
  {
    assert finals[k] in finals[k..];
    RollbackIsRecoverable(files, original, finals, k, temporaries, backups, planned, absent, published, stuck);
    assert finals == finals[..k] + finals[k..];
  }

  method Rollback(
      disk: Disk, finals: seq<Path>, published: set<Path>, recorded: map<Path, Path>, absent: set<Path>,
      ghost temporaries: set<Path>, ghost planned: map<Path, Path>, ghost original: Files)
    returns (clean: bool, backups: map<Path, Path>, ghost stuck: set<Path>)
    requires RollingBack(disk.files, original, finals, 0, temporaries, recorded, absent, published, {})
    requires forall f :: f in recorded ==> f in planned && planned[f] == recorded[f]
    modifies disk
    ensures ExtendsRecoverably(old(disk.trail), disk.trail, original, finals, planned)
    ensures RollingBack(disk.files, original, finals, |finals|, temporaries, backups, absent, published, stuck)
    ensures forall f :: f in backups ==> f in planned && planned[f] == backups[f]
    ensures clean ==> stuck == {}
    ensures forall p :: p in stuck <==> Denied(old(disk.record), disk.record, p)
    ensures Grows(old(disk.record), disk.record) && (clean <==> disk.record.failures == old(disk.record).failures)
  {
    hide Recoverable, ExtendsRecoverably, RollingBack, Injective, Denied, Grows;
    NothingGiven(disk.record);
    NothingDenied(disk.record);
    backups, clean, stuck := recorded, true, {};
    ExtendsNowhere(disk.trail, original, finals, planned);
    for k := 0 to |finals|
      invariant ExtendsRecoverably(old(disk.trail), disk.trail, original, finals, planned)
      invariant forall f :: f in backups ==> f in planned && planned[f] == backups[f]
      invariant RollingBack(disk.files, original, finals, k, temporaries, backups, absent, published, stuck)
      invariant clean ==> stuck == {}
      invariant forall p :: p in stuck <==> Denied(old(disk.record), disk.record, p)
      invariant Grows(old(disk.record), disk.record) && (clean <==> disk.record.failures == old(disk.record).failures)
    {
      RollbackFacts(disk.files, original, finals, k, temporaries, backups, absent, published, stuck);
      ghost var before, trail, earlier := disk.files, disk.trail, disk.record;
      var restored, fine, rest := RollBackOne(disk, finals[k], published, backups, absent, original);
      if restored && finals[k] in backups {
        OneRestored(before, original, finals, k, temporaries, backups, absent, published, stuck);
      } else {
        OneUnlinked(before, disk.files, original, finals, k, temporaries, backups, absent, published, stuck, restored);
      }
      RollbackStepRecoverable(trail, disk.trail, before, disk.files, original, finals, k, temporaries, backups, rest,
                              planned, absent, published, stuck, restored);
      ExtendsOnward(old(disk.trail), trail, disk.trail, original, finals, planned);
      GrowsOnward(old(disk.record), earlier, disk.record);
      FailuresGrow(old(disk.record), earlier, disk.record);
      DeniedOnward(old(disk.record), earlier, disk.record);
      DeniedOnce(earlier, disk.record, finals[k]);
      stuck := if restored then stuck else stuck + {finals[k]};
      backups, clean := rest, clean && fine;
    }
  }

  lemma RollbackStepRecoverable(
      earlier: seq<Files>, later: seq<Files>, before: Files, after: Files, original: Files, finals: seq<Path>, k: nat,
      temporaries: set<Path>, backups: map<Path, Path>, rest: map<Path, Path>, planned: map<Path, Path>,
      absent: set<Path>, published: set<Path>, stuck: set<Path>, restored: bool)
    requires k < |finals| && earlier <= later
    requires RollingBack(before, original, finals, k, temporaries, backups, absent, published, stuck)
    requires RollingBack(after, original, finals, k + 1, temporaries, rest, absent, published,
                         if restored then stuck else stuck + {finals[k]})
    requires forall f :: f in backups ==> f in planned && planned[f] == backups[f]
    requires forall f :: f in rest ==> f in backups && rest[f] == backups[f]
    requires forall i :: |earlier| <= i < |later| ==>
               later[i] == before || later[i] == after
               || (later[i] == before - {finals[k]}
                   && (finals[k] in published || finals[k] in backups || finals[k] in absent))
    ensures ExtendsRecoverably(earlier, later, original, finals, planned)
  {
    hide Recoverable, RollingBack;
    RollbackIsRecoverable(before, original, finals, k, temporaries, backups, planned, absent, published, stuck);
    RollbackIsRecoverable(after, original, finals, k + 1, temporaries, rest, planned, absent, published,
                          if restored then stuck else stuck + {finals[k]});
    if finals[k] in published || finals[k] in backups || finals[k] in absent {
      UnlinkedIsRecoverable(before, original, finals, k, temporaries, backups, planned, absent, published, stuck);
    }
  }

  /** The paths left behind between two records are those whose removal failed, and nothing else failed. */
  ghost predicate OnlyLeft(left: set<Path>, a: Record, b: Record) {
    && Grows(a, b) && b.failures == a.failures + |left|
    && (forall p :: p in left ==> p in Unremoved(a, b))
    && (forall p :: p in left <==> Denied(a, b, p))
  }

  lemma NothingLeft(r: Record)
    ensures OnlyLeft({}, r, r)
  {
  }

  lemma OneMoreLeft(left: set<Path>, a: Record, b: Record, p: Path)
    requires OnlyLeft(left, a, b) && p !in left
    ensures OnlyLeft(left + {p}, a, Counted(b, false).(unremoved := b.unremoved + [p]))
  {
    var c := Counted(b, false).(unremoved := b.unremoved + [p]);
    assert Unremoved(a, c) == Unremoved(a, b) + [p];
    assert Unmoved(a, c) == Unmoved(a, b);
  }

  lemma WhatIsLeft(left: set<Path>, a: Record, b: Record)
    requires OnlyLeft(left, a, b)
    ensures Grows(a, b) && b.failures == a.failures + |left|
    ensures forall p :: p in left ==> p in Unremoved(a, b)
    ensures forall p :: p in left <==> Denied(a, b, p)
  {
  }

  lemma NothingChanged(files: Files, paths: set<Path>)
    ensures SameOutside(files, files, paths) && forall p :: SameAt(files, files, p)
  {
  }

  /** Removing one of the paths, or not, changes nothing but that path. */
  lemma StillOutside(before: Files, after: Files, original: Files, paths: set<Path>, p: Path)
    requires SameOutside(before, original, paths) && p in paths && (after == before || after == before - {p})
    ensures SameOutside(after, original, paths)
    ensures forall q :: q != p && SameAt(before, original, q) ==> SameAt(after, original, q)
    ensures forall q :: q != p ==> (q in after <==> q in before)
  {
  }

  /** Unlinks each path, in any order; the ones whose unlink failed are left behind. */
  method CleanUp(disk: Disk, paths: set<Path>) returns (left: set<Path>)
    modifies disk
    ensures old(disk.trail) <= disk.trail && left <= paths
    ensures forall i :: |old(disk.trail)| <= i < |disk.trail| ==> SameOutside(disk.trail[i], old(disk.files), paths)
    ensures SameOutside(disk.files, old(disk.files), paths)
    ensures forall p :: p in paths ==> if p in left then SameAt(disk.files, old(disk.files), p) else p !in disk.files
    ensures Grows(old(disk.record), disk.record) && disk.record.failures == old(disk.record).failures + |left|
    ensures forall p :: p in left ==> p in Unremoved(old(disk.record), disk.record)
    ensures forall p :: p in left <==> Denied(old(disk.record), disk.record, p)
  {
    hide OnlyLeft, Counted, SameOutside, SameAt;
    NothingLeft(disk.record);
    NothingChanged(disk.files, paths);
    left := {};
    var todo := paths;
    while todo != {}
      invariant OnlyLeft(left, old(disk.record), disk.record)
      invariant todo + left <= paths && todo !! left
      invariant old(disk.trail) <= disk.trail
      invariant forall i :: |old(disk.trail)| <= i < |disk.trail| ==> SameOutside(disk.trail[i], old(disk.files), paths)
      invariant SameOutside(disk.files, old(disk.files), paths)
      invariant forall p :: p in paths && p !in todo ==>
                  if p in left then SameAt(disk.files, old(disk.files), p) else p !in disk.files
      invariant forall p :: p in todo ==> SameAt(disk.files, old(disk.files), p)
      decreases todo
    {
      var p :| p in todo;
      ghost var earlier, before := disk.record, disk.files;
      var ok := disk.Unlink(p);
      OneMoreLeft(left, old(disk.record), earlier, p);
      StillOutside(before, disk.files, old(disk.files), paths, p);
      left := if ok then left else left + {p};
      todo := todo - {p};
    }
    WhatIsLeft(left, old(disk.record), disk.record);
    hide Grows, Unremoved, Denied;
  }

  /** How a call ends. Only Published({}) returns; every other outcome reaches the caller as an exception. */
  datatype Outcome =
    | Rejected
    | Published(left: set<Path>)
    | RolledBack(clean: bool, backups: map<Path, Path>)

  ghost predicate AllNew(files: Files, items: seq<Item>) {
    forall i :: 0 <= i < |items| ==> items[i].path in files && files[items[i].path] == items[i].content
  }

  /** What a successful call may leave behind: backups that could not be removed, each holding its original. */
  ghost predicate KeptBackups(files: Files, original: Files, planned: map<Path, Path>, left: set<Path>) {
    && left <= planned.Values && left !! original.Keys
    && forall f :: f in planned && planned[f] in left ==>
         f in original && planned[f] in files && files[planned[f]] == original[f]
  }

  /** After a failed call only stuck destinations, kept backups and unremovable leftovers differ from the start. */
  ghost predicate Restored(
      files: Files, original: Files, items: seq<Item>, backups: map<Path, Path>, stuck: set<Path>, leaked: set<Path>)
  {
    && (forall p :: p !in stuck && p !in backups.Values && p !in leaked ==> SameAt(files, original, p))
    && leaked !! original.Keys
    && (forall f :: f in stuck ==> f in Finals(items) && (f in original ==> f in backups))
    && (forall f :: f in backups ==> f in stuck && f in original
                                     && backups[f] in files && files[backups[f]] == original[f])
  }

  lemma StagedIsAccounted(files: Files, original: Files, items: seq<Item>, temporaries: map<Path, Path>)
    requires Staged(files, original, items, |items|, temporaries)
    requires ValidGenerated(Finals(items), temporaries, map[])
    ensures Accounted(files, original, items, temporaries, map[], {}, {})
  {
    var none: map<Path, Path> := map[];
    assert forall f :: f in temporaries ==> temporaries[f] in temporaries.Values;
    forall i | 0 <= i < |items|
      ensures ItemPlaced(files, original, items[i], temporaries, none, {})
    {
      assert Holds(files, temporaries, items[i]);
      assert Finals(items)[i] == items[i].path;
      assert items[i].path !in temporaries.Values;
    }
    assert Preserved(files, original, Finals(items), temporaries, none);
  }

  lemma IntactIsRecoverable(
      earlier: seq<Files>, later: seq<Files>, original: Files, finals: seq<Path>, planned: map<Path, Path>)
    requires earlier <= later && IntactSince(later, |earlier|, original)
    ensures ExtendsRecoverably(earlier, later, original, finals, planned)
  {
    forall i | |earlier| <= i < |later|
      ensures Recoverable(later[i], original, finals, planned)
    {
      assert Intact(later[i], original);
    }
  }

  /** Clearing paths that are neither destinations nor backups leaves everything recoverable. */
  lemma CleanUpIsRecoverable(
      earlier: seq<Files>, later: seq<Files>, before: Files, original: Files, finals: seq<Path>,
      planned: map<Path, Path>, paths: set<Path>)
    requires earlier <= later && Recoverable(before, original, finals, planned)
    requires forall i :: |earlier| <= i < |later| ==> SameOutside(later[i], before, paths)
    requires forall f :: f in finals && f in original ==> f !in paths
    requires forall f :: f in planned ==> planned[f] !in paths
    ensures ExtendsRecoverably(earlier, later, original, finals, planned)
  {
    forall i | |earlier| <= i < |later|
      ensures Recoverable(later[i], original, finals, planned)
    {
      forall f | f in finals && f in original
        ensures (f in later[i] && later[i][f] == original[f])
                || (f in planned && planned[f] in later[i] && later[i][planned[f]] == original[f])
      {
        assert SameAt(later[i], before, f);
        if f in planned {
          assert SameAt(later[i], before, planned[f]);
        }
      }
    }
  }

  /** Everything up to and including validation: stage, plan, check the names, flush the directories. */
  method Prepare(disk: Disk, items: seq<Item>)
    returns (ok: bool, temporaries: map<Path, Path>, planned: map<Path, Path>, ghost leaked: set<Path>)
    requires Distinct(Finals(items))
    modifies disk
    ensures old(disk.trail) <= disk.trail
    ensures IntactSince(disk.trail, |old(disk.trail)|, old(disk.files))
    ensures !ok ==> (leaked + temporaries.Values) !! old(disk.files).Keys
    ensures !ok ==> SameOutside(disk.files, old(disk.files), leaked + temporaries.Values)
    ensures ok ==> leaked == {} && Accounted(disk.files, old(disk.files), items, temporaries, map[], {}, {})
    ensures ok ==> ValidGenerated(Finals(items), temporaries, planned)
    ensures ok ==> forall f :: f in temporaries ==> f in Finals(items)
    ensures ok ==> planned.Values !! disk.files.Keys && planned.Values !! old(disk.files).Keys
    ensures ok ==> forall f :: f in planned <==> f in Finals(items) && f in disk.files
    ensures Grows(old(disk.record), disk.record) && (ok ==> disk.record.failures == old(disk.record).failures)
    ensures !ok ==> disk.record.failures > old(disk.record).failures
                    || !NamesApart(Drawn(old(disk.record), disk.record), Finals(items))
    ensures Given(temporaries, old(disk.record), disk.record) && Leftover(leaked, old(disk.record), disk.record)
  {
    hide Given, Leftover, Grows, NamesApart;
    planned := map[];
    NothingGiven(disk.record);
    ok, temporaries, leaked := Stage(disk, items);
    FailuresGrow(old(disk.record), old(disk.record), disk.record);
    if !ok {
      return;
    }
    ghost var staged, stagedTrail, stagedRecord := disk.files, disk.trail, disk.record;
    assert forall p :: p in old(disk.files) ==> SameAt(staged, old(disk.files), p);
    ok, planned, leaked := PlanBackups(disk, Finals(items));
    LaterIntact(old(disk.trail), stagedTrail, disk.trail, old(disk.files), staged);
    StillGiven(temporaries, leaked, old(disk.record), stagedRecord, disk.record);
    FailuresGrow(old(disk.record), stagedRecord, disk.record);
    if !ok {
      return;
    }
    NamesApartAreValid(Finals(items), temporaries, planned, old(disk.record), stagedRecord, disk.record);
    ok := ValidGenerated(Finals(items), temporaries, planned);
    if !ok {
      return;
    }
    StagedIsAccounted(disk.files, old(disk.files), items, temporaries);
    assert items[..|items|] == items;
    ghost var planRecord := disk.record;
    ok := disk.Attempt();
    SameNames(planRecord, disk.record);
    StillGiven(temporaries, {}, old(disk.record), planRecord, disk.record);
  }

  lemma SameNames(a: Record, b: Record)
    requires b == a || b == Counted(a, false)
    ensures Grows(a, b) && Leftover({}, a, b)
  {
  }

  /** Names that are distinct and no destination pass the validation of generated names. */
  lemma NamesApartAreValid(
      finals: seq<Path>, temporaries: map<Path, Path>, planned: map<Path, Path>, a: Record, b: Record, c: Record)
    requires Grows(a, b) && Grows(b, c) && Given(temporaries, a, b) && Given(planned, b, c) && Distinct(finals)
    ensures NamesApart(Drawn(a, c), finals) ==> ValidGenerated(finals, temporaries, planned)
  {
    DrawnSplit(a, b, c);
    var first, second, all := Drawn(a, b), Drawn(b, c), Drawn(a, c);
    assert forall i :: 0 <= i < |first| ==> all[i] == first[i];
    assert forall i :: 0 <= i < |second| ==> all[|first| + i] == second[i];
    if NamesApart(all, finals) {
      assert Distinct(first) && Distinct(second);
      forall f, g | f in temporaries && g in planned
        ensures temporaries[f] != planned[g]
      {
        var i :| 0 <= i < |first| && first[i] == temporaries[f];
        var j :| 0 <= j < |second| && second[j] == planned[g];
        assert all[i] != all[|first| + j];
      }
    }
  }

  lemma LaterIntact(a: seq<Files>, b: seq<Files>, c: seq<Files>, original: Files, staged: Files)
    requires a <= b <= c && IntactSince(b, |a|, original) && IntactSince(c, |b|, staged)
    requires Intact(staged, original)
    ensures IntactSince(c, |a|, original)
  {
    forall i | |a| <= i < |c|
      ensures Intact(c[i], original)
    {
      if i < |b| {
        assert c[i] == b[i];
      } else {
        assert Intact(c[i], staged);
      }
    }
  }

  lemma RollbackEnds(
      rolledBack: Files, after: Files, original: Files, items: seq<Item>, temporaries: set<Path>,
      backups: map<Path, Path>, absent: set<Path>, published: set<Path>, stuck: set<Path>, left: set<Path>)
    requires RollingBack(rolledBack, original, Finals(items), |Finals(items)|, temporaries, backups, absent, published,
                         stuck)
    requires temporaries !! original.Keys && left <= temporaries && SameOutside(after, rolledBack, temporaries)
    requires forall p :: p in temporaries ==> if p in left then SameAt(after, rolledBack, p) else p !in after
    ensures Restored(after, original, items, backups, stuck, left)
    ensures forall f :: f in Finals(items) ==> f !in temporaries && f !in backups.Values
    ensures stuck == {} ==> backups == map[]
  {
    var finals := Finals(items);
    assert finals[..|finals|] == finals;
    forall p | p !in stuck && p !in backups.Values && p !in left
      ensures SameAt(after, original, p)
    {
      if p !in temporaries {
        assert SameAt(after, rolledBack, p);
      }
    }
    forall f | f in backups
      ensures f in stuck && backups[f] in after && after[backups[f]] == original[f]
    {
      assert backups[f] in backups.Values && SameAt(after, rolledBack, backups[f]);
    }
    if stuck == {} {
      assert backups.Keys == {};
    }
  }

  /** Undo a publication that failed part way, then clear the remaining temporaries. */
  method Abandon(
      disk: Disk, items: seq<Item>, temporaries: map<Path, Path>, recorded: map<Path, Path>, absent: set<Path>,
      published: set<Path>, ghost planned: map<Path, Path>, ghost original: Files)
    returns (clean: bool, backups: map<Path, Path>, ghost stuck: set<Path>, ghost leaked: set<Path>)
    requires Accounted(disk.files, original, items, temporaries, recorded, absent, published)
    requires forall f :: f in recorded ==> f in planned && planned[f] == recorded[f]
    requires forall f :: f in planned ==> planned[f] !in temporaries.Values
    modifies disk
    ensures ExtendsRecoverably(old(disk.trail), disk.trail, original, Finals(items), planned)
    ensures Restored(disk.files, original, items, backups, stuck, leaked)
    ensures clean ==> stuck == {} && backups == map[]
    ensures Grows(old(disk.record), disk.record)
    ensures clean || disk.record.failures > old(disk.record).failures
    ensures clean <==> disk.record.failures == old(disk.record).failures + |leaked|
    ensures forall f :: f in Finals(items) ==> (f in stuck <==> Denied(old(disk.record), disk.record, f))
    ensures leaked <= temporaries.Values && forall f :: f in Finals(items) ==> f !in leaked && f !in backups.Values
    ensures forall p :: p in leaked ==> p in Unremoved(old(disk.record), disk.record)
  {
    hide Accounted, Recoverable, ExtendsRecoverably, Restored, Grows, Denied;
    var finals := Finals(items);
    RollbackStarts(disk.files, original, items, temporaries, recorded, absent, published);
    clean, backups, stuck := Rollback(disk, finals, published, recorded, absent, temporaries.Values, planned, original);
    hide RollingBack;
    RollbackIsRecoverable(disk.files, original, finals, |finals|, temporaries.Values, backups, planned, absent,
                          published, stuck);
    ghost var rolledBack, trail, earlier := disk.files, disk.trail, disk.record;
    leaked := CleanUp(disk, temporaries.Values);
    GrowsOnward(old(disk.record), earlier, disk.record);
    DeniedOnward(old(disk.record), earlier, disk.record);
    FailuresGrow(old(disk.record), earlier, disk.record);
    RollbackEnds(rolledBack, disk.files, original, items, temporaries.Values, backups, absent, published, stuck,
                 leaked);
    CleanUpIsRecoverable(trail, disk.trail, rolledBack, original, finals, planned, temporaries.Values);
    ExtendsOnward(old(disk.trail), trail, disk.trail, original, finals, planned);
  }

  lemma AbandonedEarly(
      start: seq<Files>, prepared: seq<Files>, later: seq<Files>, before: Files, after: Files, original: Files,
      items: seq<Item>, planned: map<Path, Path>, temporaries: set<Path>, left: set<Path>, leaked: set<Path>)
    requires start <= prepared <= later && IntactSince(prepared, |start|, original)
    requires (leaked + temporaries) !! original.Keys && SameOutside(before, original, leaked + temporaries)
    requires forall i :: |prepared| <= i < |later| ==> SameOutside(later[i], before, temporaries)
    requires SameOutside(after, before, temporaries) && left <= temporaries
    requires forall p :: p in temporaries ==> if p in left then SameAt(after, before, p) else p !in after
    ensures ExtendsRecoverably(start, later, original, Finals(items), planned)
    ensures Restored(after, original, items, map[], {}, leaked + left)
  {
    forall i | |start| <= i < |later|
      ensures Intact(later[i], original)
    {
      if i < |prepared| {
        assert later[i] == prepared[i];
      } else {
        forall p | p in original
          ensures p in later[i] && later[i][p] == original[p]
        {
          assert SameAt(later[i], before, p) && SameAt(before, original, p);
        }
      }
    }
    IntactIsRecoverable(start, later, original, Finals(items), planned);
    forall p | p !in leaked + left
      ensures SameAt(after, original, p)
    {
      if p !in temporaries {
        assert SameAt(after, before, p) && SameAt(before, original, p);
      }
    }
  }

  lemma PublishedIsNew(
      files: Files, original: Files, items: seq<Item>,
      temporaries: map<Path, Path>, backups: map<Path, Path>, absent: set<Path>, published: set<Path>)
    requires Accounted(files, original, items, temporaries, backups, absent, published)
    requires (forall f :: f in Finals(items) ==> f in published) && temporaries == map[]
    ensures AllNew(files, items)
    ensures backups.Values !! original.Keys
    ensures forall f :: f in backups ==> f in original && backups[f] in files && files[backups[f]] == original[f]
    ensures forall f :: f in Finals(items) ==> f !in backups.Values
    ensures forall p :: p !in Finals(items) && p !in backups.Values ==> SameAt(files, original, p)
  {
    forall i | 0 <= i < |items|
      ensures items[i].path in files && files[items[i].path] == items[i].content
    {
      assert Finals(items)[i] == items[i].path;
      assert ItemPlaced(files, original, items[i], temporaries, backups, published);
    }
  }

  /** Clearing the backups does not disturb what was published. */
  lemma StillNew(
      earlier: seq<Files>, later: seq<Files>, before: Files, after: Files, items: seq<Item>, paths: set<Path>)
    requires earlier <= later && AllNew(before, items)
    requires forall f :: f in Finals(items) ==> f !in paths
    requires forall i :: |earlier| <= i < |later| ==> SameOutside(later[i], before, paths)
    requires SameOutside(after, before, paths)
    ensures AllNew(after, items)
    ensures forall i :: |earlier| <= i < |later| ==> AllNew(later[i], items)
  {
    assert forall k :: 0 <= k < |items| ==> Finals(items)[k] == items[k].path;
    assert forall k :: 0 <= k < |items| ==> items[k].path !in paths;
  }

  lemma LeftoversAreBackups(
      before: Files, after: Files, original: Files, backups: map<Path, Path>, planned: map<Path, Path>, left: set<Path>)
    requires forall f :: f in backups ==> f in planned && planned[f] == backups[f]
    requires forall f :: f in backups ==> f in original && backups[f] in before && before[backups[f]] == original[f]
    requires Injective(planned) && backups.Values !! original.Keys && left <= backups.Values
    requires forall p :: p in left ==> SameAt(after, before, p)
    ensures KeptBackups(after, original, planned, left)
  {
    forall p | p in left
      ensures p in planned.Values
    {
      var f :| f in backups && backups[f] == p;
      assert planned[f] == p;
    }
    forall f | f in planned && planned[f] in left
      ensures f in original && planned[f] in after && after[planned[f]] == original[f]
    {
      var g :| g in backups && backups[g] == planned[f];
      assert f == g;
    }
  }

  /** After the last publication: the backups go, and what was published stays. */
  method ClearBackups(
      disk: Disk, items: seq<Item>, temporaries: map<Path, Path>, backups: map<Path, Path>, absent: set<Path>,
      published: set<Path>, ghost planned: map<Path, Path>, ghost original: Files)
    returns (left: set<Path>)
    requires Accounted(disk.files, original, items, temporaries, backups, absent, published) && temporaries == map[]
    requires forall f :: f in Finals(items) ==> f in published
    requires forall f :: f in backups ==> f in planned && planned[f] == backups[f]
    requires Injective(planned)
    modifies disk
    ensures AllNew(disk.files, items)
    ensures forall p :: p !in Finals(items) && p !in left ==> SameAt(disk.files, original, p)
    ensures KeptBackups(disk.files, original, planned, left)
    ensures old(disk.trail) <= disk.trail
    ensures forall i :: |old(disk.trail)| <= i < |disk.trail| ==> AllNew(disk.trail[i], items)
    ensures Grows(old(disk.record), disk.record) && (left == {} <==> disk.record.failures == old(disk.record).failures)
    ensures forall p :: p in left ==> p in Unremoved(old(disk.record), disk.record)
  {
    hide Accounted, Grows, Unremoved, Denied;
    ghost var all, done := disk.files, disk.trail;
    PublishedIsNew(all, original, items, temporaries, backups, absent, published);
    left := CleanUp(disk, backups.Values);
    StillNew(done, disk.trail, all, disk.files, items, backups.Values);
    LeftoversAreBackups(all, disk.files, original, backups, planned, left);
  }

  /** Both forward stages. */
  method BackUpAndPublish(
      disk: Disk, items: seq<Item>, staged: map<Path, Path>, planned: map<Path, Path>, ghost original: Files)
    returns (ok: bool, temporaries: map<Path, Path>, backups: map<Path, Path>, absent: set<Path>, published: set<Path>)
    requires Accounted(disk.files, original, items, staged, map[], {}, {})
    requires ValidGenerated(Finals(items), staged, planned)
    requires planned.Values !! disk.files.Keys && planned.Values !! original.Keys
    requires forall f :: f in planned <==> f in Finals(items) && f in disk.files
    modifies disk
    ensures ExtendsRecoverably(old(disk.trail), disk.trail, original, Finals(items), planned)
    ensures Accounted(disk.files, original, items, temporaries, backups, absent, published)
    ensures forall f :: f in backups ==> f in planned && planned[f] == backups[f]
    ensures ok ==> forall f :: f in Finals(items) ==> f in published
    ensures temporaries.Keys <= staged.Keys - published && temporaries.Values <= staged.Values
    ensures Grows(old(disk.record), disk.record)
    ensures disk.record.failures == old(disk.record).failures + (if ok then 0 else 1)
    ensures old(disk.trail) <= disk.trail && disk.record.failures >= old(disk.record).failures
  {
    hide Accounted, Recoverable, Grows;
    temporaries, published := staged, {};
    ok, backups, absent := MoveToBackups(disk, items, staged, planned, original);
    ghost var moved, earlier := disk.trail, disk.record;
    NothingGiven(old(disk.record));
    FailuresGrow(old(disk.record), old(disk.record), disk.record);
    if ok {
      ok, temporaries, published := Publish(disk, items, staged, backups, absent, planned, original);
      ExtendsOnward(old(disk.trail), moved, disk.trail, original, Finals(items), planned);
      GrowsOnward(old(disk.record), earlier, disk.record);
      FailuresGrow(old(disk.record), earlier, disk.record);
    }
  }

  /** Publication stops at its first failure. What is given up after that is exactly what the file system refused to
      remove or to rename onto while rolling back, one destination at a time; and rollback is clean exactly when
      nothing failed but removals of temporaries. */
  ghost predicate GivenUpIff(
      items: seq<Item>, stuck: set<Path>, leaked: set<Path>, clean: bool, start: Record, broke: Record, end: Record)
  {
    && broke.failures == start.failures + 1
    && (forall f :: f in Finals(items) ==> (f in stuck <==> Denied(broke, end, f)))
    && (clean <==> end.failures == broke.failures + |leaked|)
  }

  /** From validated names to the end: back up, publish, and roll back or clear the backups. */
  method Commit(disk: Disk, items: seq<Item>, staged: map<Path, Path>, planned: map<Path, Path>, ghost original: Files)
    returns (outcome: Outcome, ghost stuck: set<Path>, ghost leaked: set<Path>, ghost mark: nat, ghost broke: Record)
    requires Accounted(disk.files, original, items, staged, map[], {}, {})
    requires ValidGenerated(Finals(items), staged, planned)
    requires forall f :: f in staged ==> f in Finals(items)
    requires planned.Values !! disk.files.Keys && planned.Values !! original.Keys
    requires forall f :: f in planned <==> f in Finals(items) && f in disk.files
    modifies disk
    ensures !outcome.Rejected?
    ensures outcome.Published? ==> AllNew(disk.files, items)
    ensures outcome.Published? ==>
              forall p :: p !in Finals(items) && p !in outcome.left ==> SameAt(disk.files, original, p)
    ensures outcome.Published? ==> KeptBackups(disk.files, original, planned, outcome.left)
    ensures outcome.RolledBack? ==> Restored(disk.files, original, items, outcome.backups, stuck, leaked)
    ensures outcome.RolledBack? && outcome.clean ==> stuck == {} && outcome.backups == map[]
    ensures old(disk.trail) <= disk.trail && |old(disk.trail)| <= mark <= |disk.trail|
    ensures !outcome.Published? ==> mark == |disk.trail|
    ensures ExtendsRecoverably(old(disk.trail), disk.trail[..mark], original, Finals(items), planned)
    ensures forall i :: mark <= i < |disk.trail| ==> AllNew(disk.trail[i], items)
    ensures Grows(old(disk.record), disk.record)
    ensures disk.record.failures == old(disk.record).failures ==> outcome == Published({})
    ensures Grows(old(disk.record), broke) && Grows(broke, disk.record)
    ensures outcome.RolledBack? ==>
              GivenUpIff(items, stuck, leaked, outcome.clean, old(disk.record), broke, disk.record)
    ensures outcome.RolledBack? && !outcome.clean ==> disk.record.failures >= old(disk.record).failures + 2
    ensures outcome.Published? ==> forall p :: p in outcome.left ==> p in Unremoved(old(disk.record), disk.record)
    ensures forall p :: p in leaked ==> p in Unremoved(old(disk.record), disk.record)
    ensures leaked <= staged.Values && forall f :: f in Finals(items) ==> f !in leaked
    ensures outcome.RolledBack? ==> forall f :: f in Finals(items) ==> f !in outcome.backups.Values
  {
    hide Accounted, Recoverable, Restored, ExtendsRecoverably, Grows, Unremoved, Denied, AllNew, KeptBackups;
    var finals := Finals(items);
    ghost var start := disk.trail;
    stuck, leaked := {}, {};
    var ok, temporaries, backups, absent, published := BackUpAndPublish(disk, items, staged, planned, original);
    mark := |disk.trail|;
    ghost var done, doneRecord := disk.trail, disk.record;
    broke := doneRecord;
    assert done[..mark] == done;
    if !ok {
      var clean, kept;
      clean, kept, stuck, leaked := Abandon(disk, items, temporaries, backups, absent, published, planned, original);
      ExtendsOnward(start, done, disk.trail, original, finals, planned);
      GrowsOnward(old(disk.record), doneRecord, disk.record);
      FailuresGrow(old(disk.record), doneRecord, disk.record);
      outcome, mark := RolledBack(clean, kept), |disk.trail|;
      assert disk.trail[..mark] == disk.trail;
      return;
    }
    assert temporaries.Keys == {};
    var left := ClearBackups(disk, items, temporaries, backups, absent, published, planned, original);
    GrowsOnward(old(disk.record), doneRecord, disk.record);
    FailuresGrow(old(disk.record), doneRecord, disk.record);
    assert disk.trail[..mark] == done;
    outcome := Published(left);
  }

  /** The publisher. `planned` records the backup names, `mark` how long the trail was when publication succeeded. Of a
      good call: if nothing fails and the generated names are apart it publishes and leaves nothing behind; what it
      leaves otherwise are generated names whose removal failed; if no rollback operation fails and no destination's
      name was generated every destination is as before; and one failure alone is always undone. */
  method WriteBytesAtomic(disk: Disk, items: seq<Item>)
    returns (outcome: Outcome, ghost planned: map<Path, Path>, ghost stuck: set<Path>, ghost leaked: set<Path>,
             ghost mark: nat, ghost broke: Record)
    modifies disk
    ensures |items| < 2 || !Distinct(Finals(items)) ==> outcome.Rejected?
    ensures outcome.Rejected? ==> disk.files == old(disk.files)
    ensures outcome.Published? ==> AllNew(disk.files, items)
    ensures outcome.Published? ==>
              forall p :: p !in Finals(items) && p !in outcome.left ==> SameAt(disk.files, old(disk.files), p)
    ensures outcome.Published? ==> KeptBackups(disk.files, old(disk.files), planned, outcome.left)
    ensures outcome.RolledBack? ==> Restored(disk.files, old(disk.files), items, outcome.backups, stuck, leaked)
    ensures outcome.RolledBack? && outcome.clean ==> stuck == {} && outcome.backups == map[]
    ensures old(disk.trail) <= disk.trail && |old(disk.trail)| <= mark <= |disk.trail|
    ensures !outcome.Published? ==> mark == |disk.trail|
    ensures ExtendsRecoverably(old(disk.trail), disk.trail[..mark], old(disk.files), Finals(items), planned)
    ensures forall i :: mark <= i < |disk.trail| ==> AllNew(disk.trail[i], items)
    ensures Grows(old(disk.record), disk.record)
    ensures (&& |items| >= 2 && Distinct(Finals(items)) && disk.record.failures == old(disk.record).failures
             && NamesApart(Drawn(old(disk.record), disk.record), Finals(items))) ==> outcome == Published({})
    ensures Leftover(leaked, old(disk.record), disk.record)
    ensures outcome.Published? ==> forall p :: p in outcome.left ==> p in Unremoved(old(disk.record), disk.record)
    ensures outcome.RolledBack? && outcome.clean && Unremoved(old(disk.record), disk.record) == [] ==>
              disk.files == old(disk.files)
    ensures (&& outcome.RolledBack? && outcome.clean
             && forall p :: p in Drawn(old(disk.record), disk.record) ==> p !in Finals(items)) ==>
              forall f :: f in Finals(items) ==> SameAt(disk.files, old(disk.files), f)
    ensures outcome.RolledBack? && !outcome.clean ==> disk.record.failures >= old(disk.record).failures + 2
    ensures Grows(old(disk.record), broke) && Grows(broke, disk.record)
    ensures outcome.RolledBack? ==>
              EachGivenBack(disk.files, old(disk.files), items, stuck, leaked, outcome.clean,
                            old(disk.record), broke, disk.record)
  {
    hide Accounted, Recoverable, Restored, ExtendsRecoverably, Grows, Given, Leftover, NamesApart, Unremoved, Drawn,
      EachGivenBack, GivenUpIff;
    ghost var original, start := disk.files, disk.trail;
    var finals := Finals(items);
    outcome, planned, stuck, leaked, mark := Rejected, map[], {}, {}, |disk.trail|;
    broke := disk.record;
    assert disk.trail[..mark] == start;
    ExtendsNowhere(start, original, finals, planned);
    NothingGiven(disk.record);
    if |items| < 2 || !Distinct(finals) {
      return;
    }
    var ok := disk.Attempt();
    SameNames(old(disk.record), disk.record);
    assert disk.trail[|start|] == original;
    IntactIsRecoverable(start, disk.trail, original, finals, planned);
    mark := |disk.trail|;
    assert disk.trail[..mark] == disk.trail;
    if !ok {
      return;
    }
    ghost var checked := disk.trail;
    var temporaries, reserved;
    ok, temporaries, reserved, leaked := Prepare(disk, items);
    planned := reserved;
    ghost var prepared, preparedRecord := disk.trail, disk.record;
    LaterIntact(start, checked, prepared, original, original);
    IntactIsRecoverable(start, prepared, original, finals, planned);
    if !ok {
      // Nothing has been backed up or published, so the rollback loop finds nothing to undo.
      ghost var before := disk.files;
      var left := CleanUp(disk, temporaries.Values);
      AbandonedEarly(start, prepared, disk.trail, before, disk.files, original, items, planned, temporaries.Values,
                     left, leaked);
      MoreLeft(leaked, left, temporaries, finals, old(disk.record), preparedRecord, disk.record);
      leaked := leaked + left;
      CleanRollback(disk.files, original, items, leaked, old(disk.record), disk.record);
      outcome, mark, broke := RolledBack(true, map[]), |disk.trail|, disk.record;
      NothingGiven(disk.record);
      EarlyGivesBack(disk.files, original, items, leaked, old(disk.record), disk.record);
      assert disk.trail[..mark] == disk.trail;
      return;
    }
    outcome, stuck, leaked, mark, broke := Commit(disk, items, temporaries, reserved, original);
    ExtendsOnward(start, prepared, disk.trail[..mark], original, finals, planned);
    MoreLeft({}, leaked, temporaries, finals, old(disk.record), preparedRecord, disk.record);
    assert {} + leaked == leaked;
    GrowsOnward(old(disk.record), preparedRecord, broke);
    if outcome.RolledBack? {
      LateGivesBack(disk.files, original, items, outcome.backups, stuck, leaked, outcome.clean, preparedRecord,
                    old(disk.record), broke, disk.record);
    }
    if outcome.RolledBack? && outcome.clean {
      CleanRollback(disk.files, original, items, leaked, old(disk.record), disk.record);
    }
  }

  /** After a failed call every destination is as before whose own removal and restoration were not refused; whatever
      was given up was given up because of that. `broke` is the moment publication failed, or the end if nothing had
      been published yet. */
  ghost predicate EachGivenBack(
      files: Files, original: Files, items: seq<Item>, stuck: set<Path>, leaked: set<Path>, clean: bool,
      start: Record, broke: Record, end: Record)
  {
    && ((stuck == {} && clean) || GivenUpIff(items, stuck, leaked, clean, start, broke, end))
    && ((forall p :: p in Drawn(start, end) ==> p !in Finals(items)) ==>
          forall f :: f in Finals(items) && !Denied(broke, end, f) ==> SameAt(files, original, f))
  }

  lemma EarlyGivesBack(
      files: Files, original: Files, items: seq<Item>, leaked: set<Path>, start: Record, end: Record)
    requires Restored(files, original, items, map[], {}, leaked) && Leftover(leaked, start, end)
    ensures EachGivenBack(files, original, items, {}, leaked, true, start, end, end)
  {
    CleanRollback(files, original, items, leaked, start, end);
    hide Restored, Leftover, Drawn, Denied, SameAt;
  }

  lemma LateGivesBack(
      files: Files, original: Files, items: seq<Item>, backups: map<Path, Path>, stuck: set<Path>, leaked: set<Path>,
      clean: bool, prepared: Record, start: Record, broke: Record, end: Record)
    requires Restored(files, original, items, backups, stuck, leaked) && prepared.failures == start.failures
    requires GivenUpIff(items, stuck, leaked, clean, prepared, broke, end)
    requires forall f :: f in Finals(items) ==> f !in leaked && f !in backups.Values
    ensures EachGivenBack(files, original, items, stuck, leaked, clean, start, broke, end)
  {
    hide Drawn, Denied, SameAt;
  }

  /** Leftovers of two stages in a row. */
  lemma MoreLeft(
      leaked: set<Path>, left: set<Path>, temporaries: map<Path, Path>, finals: seq<Path>, a: Record, b: Record,
      c: Record)
    requires Grows(a, b) && Grows(b, c) && Given(temporaries, a, b) && Leftover(leaked, a, b)
    requires left <= temporaries.Values && forall p :: p in left ==> p in Unremoved(b, c)
    ensures Grows(a, c) && Leftover(leaked + left, a, c) && a.failures <= b.failures <= c.failures
    ensures NamesApart(Drawn(a, c), finals) ==> NamesApart(Drawn(a, b), finals)
    ensures forall p :: p in Unremoved(b, c) ==> p in Unremoved(a, c)
  {
    GrowsOnward(a, b, c);
    DrawnSplit(a, b, c);
    assert forall i :: 0 <= i < |Drawn(a, b)| ==> Drawn(a, c)[i] == Drawn(a, b)[i];
    forall p | p in left
      ensures p in Drawn(a, c)
    {
      var f :| f in temporaries && temporaries[f] == p;
    }
  }

  /** A rollback in which nothing failed puts every destination back, and with no failed removal the whole disk. */
  lemma CleanRollback(files: Files, original: Files, items: seq<Item>, leaked: set<Path>, a: Record, b: Record)
    requires Restored(files, original, items, map[], {}, leaked) && Leftover(leaked, a, b)
    ensures Unremoved(a, b) == [] ==> files == original
    ensures (forall p :: p in leaked ==> p !in Finals(items)) ==>
              forall f :: f in Finals(items) ==> SameAt(files, original, f)
    ensures (forall p :: p in Drawn(a, b) ==> p !in Finals(items)) ==>
              forall f :: f in Finals(items) ==> SameAt(files, original, f)
  {
    hide Drawn, Unremoved;
    var none: map<Path, Path> := map[];
    assert forall p :: p !in none.Values;
    if Unremoved(a, b) == [] {
      assert leaked == {};
      NothingOnCleanFailure(files, original, items);
    }
  }

  /** All or nothing: a failed call in which no rollback and no removal failed leaves the disk exactly as it was. */
  lemma NothingOnCleanFailure(files: Files, original: Files, items: seq<Item>)
    requires Restored(files, original, items, map[], {}, {})
    ensures files == original
  {
    forall p
      ensures SameAt(files, original, p)
    {
      var none: map<Path, Path> := map[];
      assert p !in none.Values;
    }
  }

  /** ... and a successful call that could remove its backups changes the destinations and nothing else. */
  lemma AllOnSuccess(files: Files, original: Files, items: seq<Item>, planned: map<Path, Path>, p: Path)
    requires AllNew(files, items) && KeptBackups(files, original, planned, {})
    requires forall q :: q !in Finals(items) && q !in {} ==> SameAt(files, original, q)
    ensures p in Finals(items) ==> exists i :: 0 <= i < |items| && items[i].path == p
                                               && p in files && files[p] == items[i].content
    ensures p !in Finals(items) ==> SameAt(files, original, p)
  {
    if p in Finals(items) {
      var i :| 0 <= i < |items| && Finals(items)[i] == p;
      assert items[i].path == p;
    }
  }
}
