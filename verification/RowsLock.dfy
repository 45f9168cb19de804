/** The rows-file lock: an exclusively created file naming its owner, with recovery of stale owners, run by any
    number of processes. Each step below is one system call, or one decision on what earlier calls returned. */
module RowsLock {
  import opened Results

  type Pid = nat

  /** What the lock file holds: nothing readable yet, or its owner. */
  datatype Content = Malformed | Owner(pid: Pid, token: nat)

  datatype LockFile = LockFile(inode: nat, content: Content, modifiedAt: nat)

  /** Where a process is. */
  datatype Pc =
    | Outside
    | Trying
    | Creating(inode: nat, since: nat)
    | Inside(inode: nat, token: nat)
    | Exiting(inode: nat, token: nat)
    | Verifying(inode: nat, token: nat, seen: nat)
    | Leaving(inode: nat, token: nat)
    | Statted(inode: nat, modifiedAt: nat)
    | Observed(inode: nat, modifiedAt: nat, raw: Content)
    | Judged(inode: nat, raw: Content)
    | Rechecking(inode: nat, raw: Content)
    | Confirmed(inode: nat, raw: Content)
  {
    /** The process has the lock, or is about to learn that it does, or is about to unlink it. */
    predicate Owns() {
      Creating? || Inside? || Leaving?
    }

    /** The process has left and has yet to see whether the lock file is still its own. */
    predicate Exits() {
      Exiting? || Verifying?
    }

    predicate Recovers() {
      Statted? || Observed? || Judged? || Rechecking? || Confirmed?
    }
  }

  /** `procs` holds the live processes; `used` every pid that ever lived. */
  datatype State = State(
    now: nat, lock: Option<LockFile>, nextInode: nat, nextToken: nat, procs: map<Pid, Pc>, used: set<Pid>)

  datatype Step =
    | Spawn(p: Pid)
    | Tick(seconds: nat)
    | Begin(p: Pid)
    | Create(p: Pid)
    | WriteOwner(p: Pid)
    | WriteFails(p: Pid)
    | SyncFails(p: Pid)
    | Stat(p: Pid)
    | ReadRaw(p: Pid)
    | Judge(p: Pid)
    | Restat(p: Pid)
    | Reread(p: Pid)
    | RecoverUnlink(p: Pid)
    | RecoveryFails(p: Pid)
    | Exit(p: Pid)
    | StatOwn(p: Pid)
    | ReadOwn(p: Pid)
    | OwnUnlink(p: Pid)
    | ReleaseFails(p: Pid)
    | GiveUp(p: Pid)
    | Crash(p: Pid)

  /** When a step may happen. A live creator finishes writing within `stale` seconds; pids are not reused. */
  ghost predicate Enabled(s: State, step: Step, stale: nat) {
    match step
    case Spawn(p) => p !in s.used
    case Tick(n) => forall p :: p in s.procs && s.procs[p].Creating? ==> s.now + n < s.procs[p].since + stale
    case Begin(p) => p in s.procs && s.procs[p].Outside?
    case Create(p) => p in s.procs && s.procs[p].Trying? && s.lock.None?
    case WriteOwner(p) => p in s.procs && s.procs[p].Creating?
    case WriteFails(p) => p in s.procs && s.procs[p].Creating?
    case SyncFails(p) => p in s.procs && s.procs[p].Creating?
    case Stat(p) => p in s.procs && s.procs[p].Trying? && s.lock.Some?
    case ReadRaw(p) => p in s.procs && s.procs[p].Statted?
    case Judge(p) => p in s.procs && s.procs[p].Observed?
    case Restat(p) => p in s.procs && s.procs[p].Judged?
    case Reread(p) => p in s.procs && s.procs[p].Rechecking?
    case RecoverUnlink(p) => p in s.procs && s.procs[p].Confirmed?
    case RecoveryFails(p) => p in s.procs && s.procs[p].Recovers()
    case Exit(p) => p in s.procs && s.procs[p].Inside?
    case StatOwn(p) => p in s.procs && s.procs[p].Exiting?
    case ReadOwn(p) => p in s.procs && s.procs[p].Verifying?
    case OwnUnlink(p) => p in s.procs && s.procs[p].Leaving?
    case ReleaseFails(p) => p in s.procs && (s.procs[p].Exiting? || s.procs[p].Verifying? || s.procs[p].Leaving?)
    case GiveUp(p) => p in s.procs && s.procs[p].Trying?
    case Crash(p) => p in s.procs
  }

  function Move(s: State, p: Pid, pc: Pc): State {
    s.(procs := s.procs[p := pc])
  }

  /** A recovering process may remove a lock whose metadata is malformed and old, or whose owner is dead. */
  predicate LooksStale(s: State, modifiedAt: nat, raw: Content, stale: nat) {
    if raw.Malformed? then s.now >= modifiedAt + stale else raw.pid !in s.procs
  }

  /** The lock file with the metadata of p, which writes to its own inode whether or not the path still names it. */
  function Written(s: State, p: Pid): State
    requires p in s.procs && s.procs[p].Creating?
  {
    var inode := s.procs[p].inode;
    s.(lock := if s.lock.Some? && s.lock.value.inode == inode
               then Some(LockFile(inode, Owner(p, s.nextToken), s.now)) else s.lock,
       nextToken := s.nextToken + 1)
  }

  function Apply(s: State, step: Step, stale: nat): State
    requires Enabled(s, step, stale)
  {
    match step
    case Spawn(p) => s.(procs := s.procs[p := Outside], used := s.used + {p})
    case Tick(n) => s.(now := s.now + n)
    case Begin(p) => Move(s, p, Trying)
    case Create(p) =>
      Move(s, p, Creating(s.nextInode, s.now)).(lock := Some(LockFile(s.nextInode, Malformed, s.now)),
                                                nextInode := s.nextInode + 1)
    case WriteOwner(p) => Written(s, p).(procs := s.procs[p := Inside(s.procs[p].inode, s.nextToken)])
    case WriteFails(p) => Move(s, p, Outside)
    case SyncFails(p) => Written(s, p).(procs := s.procs[p := Outside])
    case Stat(p) => Move(s, p, Statted(s.lock.value.inode, s.lock.value.modifiedAt))
    case ReadRaw(p) =>
      if s.lock.None? then Move(s, p, Trying)
      else Move(s, p, Observed(s.procs[p].inode, s.procs[p].modifiedAt, s.lock.value.content))
    case Judge(p) =>
      var pc := s.procs[p];
      Move(s, p, if LooksStale(s, pc.modifiedAt, pc.raw, stale) then Judged(pc.inode, pc.raw) else Trying)
    case Restat(p) =>
      var pc := s.procs[p];
      Move(s, p, if s.lock.Some? && s.lock.value.inode == pc.inode then Rechecking(pc.inode, pc.raw) else Trying)
    case Reread(p) =>
      var pc := s.procs[p];
      Move(s, p, if s.lock.Some? && s.lock.value.content == pc.raw then Confirmed(pc.inode, pc.raw) else Trying)
    case RecoverUnlink(p) => Move(s, p, Trying).(lock := None)
    case RecoveryFails(p) => Move(s, p, Trying)
    case Exit(p) => Move(s, p, Exiting(s.procs[p].inode, s.procs[p].token))
    case StatOwn(p) =>
      var pc := s.procs[p];
      Move(s, p, if s.lock.Some? then Verifying(pc.inode, pc.token, s.lock.value.inode) else Outside)
    case ReadOwn(p) =>
      // Unreadable metadata is looked at again; anything but the process's own file is left alone.
      var pc := s.procs[p];
      Move(s, p, if s.lock.None? then Outside
                 else if s.lock.value.content.Malformed? then Exiting(pc.inode, pc.token)
                 else if pc.seen == pc.inode && s.lock.value.content == Owner(p, pc.token)
                 then Leaving(pc.inode, pc.token)
                 else Outside)
    case OwnUnlink(p) => Move(s, p, Outside).(lock := None)
    case ReleaseFails(p) => Move(s, p, Outside)
    case GiveUp(p) => Move(s, p, Outside)
    case Crash(p) => s.(procs := s.procs - {p})
  }

  /** The lock file is that of a live process that has it, is taking it, or has not released it yet. */
  ghost predicate LiveOwnersLock(s: State, p: Pid) {
    && p in s.procs && (s.procs[p].Owns() || s.procs[p].Exits())
    && s.lock.Some? && s.lock.value.inode == s.procs[p].inode
  }

  /** A recovery unlink that takes no lock from a process that owns it. Every other step is harmless. */
  ghost predicate Harmless(s: State, step: Step) {
    step.RecoverUnlink? ==> forall p :: LiveOwnersLock(s, p) ==> !s.procs[p].Owns()
  }

  /** The recovery unlink still finds the inode that was re-checked, or nothing, as if re-check and unlink were one. */
  predicate HitsItsTarget(s: State, step: Step) {
    match step
    case RecoverUnlink(p) =>
      p in s.procs && s.procs[p].Confirmed? && s.lock.Some? ==> s.lock.value.inode == s.procs[p].inode
    case _ => true
  }

  /** Nobody holds the lock yet; a file left behind by earlier runs may be there. */
  ghost predicate Init(s: State, stale: nat) {
    && stale > 0
    && s.procs.Keys <= s.used
    && (forall p :: p in s.procs ==> s.procs[p].Outside?)
    && (s.lock.Some? ==> s.lock.value.inode < s.nextInode
                         && (s.lock.value.content.Owner? ==> s.lock.value.content.pid in s.used))
  }

  /** A sequence of enabled steps from s. */
  ghost predicate Possible(s: State, steps: seq<Step>, stale: nat)
    decreases |steps|
  {
    steps != [] ==> Enabled(s, steps[0], stale) && Possible(Apply(s, steps[0], stale), steps[1..], stale)
  }

  /** ... in which no recovery unlink removes a live owner's lock. */
  ghost predicate AllHarmless(s: State, steps: seq<Step>, stale: nat)
    requires Possible(s, steps, stale)
    decreases |steps|
  {
    steps != [] ==> Harmless(s, steps[0]) && AllHarmless(Apply(s, steps[0], stale), steps[1..], stale)
  }

  ghost function After(s: State, steps: seq<Step>, stale: nat): State
    requires Possible(s, steps, stale)
    decreases |steps|
  {
    if steps == [] then s else After(Apply(s, steps[0], stale), steps[1..], stale)
  }

  // ---------------------------------------------------------------- the invariant

  /** The lock file a live owner relies on. */
  ghost predicate OwnerBacked(s: State, p: Pid, stale: nat)
    requires p in s.procs
  {
    match s.procs[p]
    case Creating(i, t) => s.lock == Some(LockFile(i, Malformed, t)) && t <= s.now < t + stale
    case Inside(i, k) => s.lock.Some? && s.lock.value.inode == i && s.lock.value.content == Owner(p, k)
    case Leaving(i, k) => s.lock.Some? && s.lock.value.inode == i && s.lock.value.content == Owner(p, k)
    case Exiting(i, k) => s.lock.Some? ==> (s.lock.value.inode == i <==> s.lock.value.content == Owner(p, k))
    case Verifying(i, k, _) => s.lock.Some? ==> (s.lock.value.inode == i <==> s.lock.value.content == Owner(p, k))
    case _ => true
  }

  /** What a recovering process knows stays true of its target. */
  ghost predicate RecoveryBacked(s: State, p: Pid)
    requires p in s.procs
  {
    match s.procs[p]
    case Statted(i, m) => i < s.nextInode && NoYoungerCreator(s, i, m)
    case Observed(i, m, raw) => i < s.nextInode && NoYoungerCreator(s, i, m) && (raw.Owner? ==> raw.pid in s.used)
    case Judged(i, raw) => i < s.nextInode && Doomed(s, i, raw)
    case Rechecking(i, raw) => i < s.nextInode && Doomed(s, i, raw)
    case Confirmed(i, raw) =>
      && i < s.nextInode
      && (forall q :: q in s.procs && s.procs[q].Owns() ==> s.procs[q].inode != i)
      && (forall q :: LiveOwnersLock(s, q) ==> s.procs[q].inode != i)
    case _ => true
  }

  ghost predicate NoYoungerCreator(s: State, inode: nat, modifiedAt: nat) {
    forall q :: q in s.procs && s.procs[q].Creating? && s.procs[q].inode == inode ==> s.procs[q].since == modifiedAt
  }

  ghost predicate Doomed(s: State, inode: nat, raw: Content) {
    if raw.Malformed? then forall q :: q in s.procs && s.procs[q].Creating? ==> s.procs[q].inode != inode
    else raw.pid in s.used && raw.pid !in s.procs
  }

  ghost predicate Inv(s: State, stale: nat) {
    && stale > 0
    && s.procs.Keys <= s.used
    && (s.lock.Some? ==> s.lock.value.inode < s.nextInode
                         && (s.lock.value.content.Owner? ==> s.lock.value.content.pid in s.used))
    && (forall p :: p in s.procs && (s.procs[p].Owns() || s.procs[p].Exits()) ==> s.procs[p].inode < s.nextInode)
    && (forall p, q :: p in s.procs && q in s.procs && s.procs[p].Owns() && s.procs[q].Owns() ==> p == q)
    && (forall p :: p in s.procs ==> OwnerBacked(s, p, stale))
    && (forall p :: p in s.procs ==> RecoveryBacked(s, p))
  }

  /** Before a harmless recovery unlink nobody owns anything. */
  lemma HarmlessMeansUnowned(s: State, step: Step, stale: nat)
    requires Inv(s, stale) && Enabled(s, step, stale) && Harmless(s, step)
    ensures step.RecoverUnlink? ==> forall p :: p in s.procs ==> !s.procs[p].Owns()
  {
    forall p | p in s.procs && s.procs[p].Owns()
      ensures LiveOwnersLock(s, p)
    {
      assert OwnerBacked(s, p, stale);
    }
  }

  /** The steps that change the lock file. */
  predicate Touches(step: Step) {
    step.Create? || step.WriteOwner? || step.SyncFails? || step.RecoverUnlink? || step.OwnUnlink?
  }

  lemma TouchKeepsOwnerBacked(s: State, step: Step, stale: nat, p: Pid)
    requires Inv(s, stale) && Enabled(s, step, stale) && Harmless(s, step) && p in Apply(s, step, stale).procs
    requires Touches(step)
    ensures OwnerBacked(Apply(s, step, stale), p, stale)
  {
    HarmlessMeansUnowned(s, step, stale);
    assert p in s.procs ==> OwnerBacked(s, p, stale);
    hide RecoveryBacked, Harmless;
  }

  /** A process that did nothing is still backed. */
  lemma StandingStillIsBacked(s: State, s': State, stale: nat, p: Pid)
    requires p in s.procs && p in s'.procs && s'.procs[p] == s.procs[p] && s'.lock == s.lock && OwnerBacked(s, p, stale)
    requires s.now <= s'.now && (s.procs[p].Creating? ==> s'.now < s.procs[p].since + stale)
    ensures OwnerBacked(s', p, stale)
  {
  }

  lemma OtherStepKeepsOwnerBacked(s: State, step: Step, stale: nat, p: Pid)
    requires Inv(s, stale) && Enabled(s, step, stale) && p in Apply(s, step, stale).procs && !Touches(step)
    ensures OwnerBacked(Apply(s, step, stale), p, stale)
  {
    var s' := Apply(s, step, stale);
    assert p in s.procs ==> OwnerBacked(s, p, stale);
    if p in s.procs && s'.procs[p] == s.procs[p] {
      StandingStillIsBacked(s, s', stale, p);
      hide OwnerBacked;
    }
    hide RecoveryBacked;
  }

  lemma StepKeepsOwnerBacked(s: State, step: Step, stale: nat, p: Pid)
    requires Inv(s, stale) && Enabled(s, step, stale) && Harmless(s, step) && p in Apply(s, step, stale).procs
    ensures OwnerBacked(Apply(s, step, stale), p, stale)
  {
    hide Inv, OwnerBacked, Harmless, Apply, Enabled;
    if Touches(step) {
      TouchKeepsOwnerBacked(s, step, stale, p);
    } else {
      OtherStepKeepsOwnerBacked(s, step, stale, p);
    }
  }

  /** The steps in which a process learns something about the lock file. */
  predicate Learns(step: Step, p: Pid) {
    step == Stat(p) || step == ReadRaw(p) || step == Judge(p) || step == Restat(p) || step == Reread(p)
  }

  lemma LookingIsBacked(s: State, step: Step, stale: nat, p: Pid)
    requires Inv(s, stale) && Enabled(s, step, stale) && (step == Stat(p) || step == ReadRaw(p))
    ensures RecoveryBacked(Apply(s, step, stale), p)
  {
    assert RecoveryBacked(s, p);
  }

  lemma JudgingIsBacked(s: State, step: Step, stale: nat, p: Pid)
    requires Inv(s, stale) && Enabled(s, step, stale) && (step == Judge(p) || step == Restat(p))
    ensures RecoveryBacked(Apply(s, step, stale), p)
  {
    assert RecoveryBacked(s, p);
  }

  lemma RereadingIsBacked(s: State, step: Step, stale: nat, p: Pid)
    requires Inv(s, stale) && Enabled(s, step, stale) && step == Reread(p)
    ensures RecoveryBacked(Apply(s, step, stale), p)
  {
    assert RecoveryBacked(s, p);
  }

  lemma LearningIsBacked(s: State, step: Step, stale: nat, p: Pid)
    requires Inv(s, stale) && Enabled(s, step, stale) && Learns(step, p)
    ensures RecoveryBacked(Apply(s, step, stale), p)
  {
    hide Inv, Enabled, Apply, RecoveryBacked;
    if step == Stat(p) || step == ReadRaw(p) {
      LookingIsBacked(s, step, stale, p);
    } else if step == Reread(p) {
      RereadingIsBacked(s, step, stale, p);
    } else {
      JudgingIsBacked(s, step, stale, p);
    }
  }

  /** A process and its inode are the earlier ones, or new. */
  ghost predicate FromBefore(s: State, s': State, q: Pid)
    requires q in s'.procs
  {
    var pc := s'.procs[q];
    && (q !in s.procs ==> q !in s.used)
    && (pc.Owns() ==>
          || pc.inode >= s.nextInode
          || (q in s.procs && (s.procs[q].Owns() || LiveOwnersLock(s, q)) && s.procs[q].inode == pc.inode))
    && (pc.Exits() ==> q in s.procs && (s.procs[q].Owns() || s.procs[q].Exits()) && s.procs[q].inode == pc.inode)
    && (pc.Creating? ==> pc.inode >= s.nextInode || (q in s.procs && s.procs[q] == pc))
  }

  ghost predicate NothingOldReturns(s: State, s': State) {
    && s.nextInode <= s'.nextInode && s.used <= s'.used
    && (forall q :: q in s'.procs ==> FromBefore(s, s', q))
    && (s'.lock.Some? ==>
          s'.lock.value.inode >= s.nextInode || (s.lock.Some? && s.lock.value.inode == s'.lock.value.inode))
  }

  lemma StepBringsNobodyBack(s: State, step: Step, stale: nat, q: Pid)
    requires Inv(s, stale) && Enabled(s, step, stale) && q in Apply(s, step, stale).procs
    ensures FromBefore(s, Apply(s, step, stale), q)
  {
    hide RecoveryBacked;
    if q in s.procs {
      assert OwnerBacked(s, q, stale);
    }
  }

  lemma StepBringsNothingBack(s: State, step: Step, stale: nat)
    requires Inv(s, stale) && Enabled(s, step, stale)
    ensures NothingOldReturns(s, Apply(s, step, stale))
  {
    hide OwnerBacked, RecoveryBacked, FromBefore;
    forall q | q in Apply(s, step, stale).procs
      ensures FromBefore(s, Apply(s, step, stale), q)
    {
      StepBringsNobodyBack(s, step, stale, q);
    }
  }

  lemma RecoveryStaysBacked(s: State, s': State, p: Pid)
    requires NothingOldReturns(s, s') && p in s.procs && p in s'.procs && s'.procs[p] == s.procs[p]
             && RecoveryBacked(s, p)
    ensures RecoveryBacked(s', p)
  {
  }

  lemma StepKeepsRecoveryBacked(s: State, step: Step, stale: nat, p: Pid)
    requires Inv(s, stale) && Enabled(s, step, stale) && p in Apply(s, step, stale).procs
    ensures RecoveryBacked(Apply(s, step, stale), p)
  {
    var s' := Apply(s, step, stale);
    if Learns(step, p) {
      LearningIsBacked(s, step, stale, p);
    } else if p in s.procs && s'.procs[p] == s.procs[p] {
      StepBringsNothingBack(s, step, stale);
      RecoveryStaysBacked(s, s', p);
      hide RecoveryBacked;
    }
    hide OwnerBacked, NothingOldReturns;
  }

  lemma StepKeepsNumbers(s: State, step: Step, stale: nat)
    requires Inv(s, stale) && Enabled(s, step, stale)
    ensures var s' := Apply(s, step, stale);
            && s'.procs.Keys <= s'.used
            && (s'.lock.Some? ==> s'.lock.value.inode < s'.nextInode
                                  && (s'.lock.value.content.Owner? ==> s'.lock.value.content.pid in s'.used))
  {
    hide OwnerBacked, RecoveryBacked;
  }

  lemma StepKeepsInode(s: State, step: Step, stale: nat, p: Pid)
    requires Inv(s, stale) && Enabled(s, step, stale) && p in Apply(s, step, stale).procs
    ensures var s' := Apply(s, step, stale);
            s'.procs[p].Owns() || s'.procs[p].Exits() ==> s'.procs[p].inode < s'.nextInode
  {
    hide OwnerBacked, RecoveryBacked;
  }

  /** Two owners would each back the same lock file. */
  lemma BackedOwnersAreOne(s: State, stale: nat, p: Pid, q: Pid)
    requires p in s.procs && q in s.procs && s.procs[p].Owns() && s.procs[q].Owns()
    requires OwnerBacked(s, p, stale) && OwnerBacked(s, q, stale)
    ensures p == q || (s.procs[p].Creating? && s.procs[q].Creating? && s.procs[p].inode == s.procs[q].inode)
  {
  }

  /** Who is creating after a step was creating before, or has just found no lock file. */
  lemma CreatorFromBefore(s: State, step: Step, stale: nat, p: Pid)
    requires Enabled(s, step, stale) && p in Apply(s, step, stale).procs && Apply(s, step, stale).procs[p].Creating?
    ensures (p in s.procs && s.procs[p].Creating?) || (step == Create(p) && s.lock.None?)
  {
  }

  lemma OneCreator(s: State, step: Step, stale: nat, p: Pid, q: Pid)
    requires Inv(s, stale) && Enabled(s, step, stale)
    requires var s' := Apply(s, step, stale);
             p in s'.procs && q in s'.procs && s'.procs[p].Creating? && s'.procs[q].Creating?
    ensures p == q
  {
    CreatorFromBefore(s, step, stale, p);
    CreatorFromBefore(s, step, stale, q);
    assert p in s.procs ==> OwnerBacked(s, p, stale);
    assert q in s.procs ==> OwnerBacked(s, q, stale);
    hide RecoveryBacked, Apply, Enabled;
  }

  /** Every step keeps the invariant, as long as it harms no live owner. */
  lemma StepKeepsInv(s: State, step: Step, stale: nat)
    requires Inv(s, stale) && Enabled(s, step, stale) && Harmless(s, step)
    ensures Inv(Apply(s, step, stale), stale)
  {
    StepKeepsNumbers(s, step, stale);
    var s' := Apply(s, step, stale);
    forall p | p in s'.procs
      ensures OwnerBacked(s', p, stale) && RecoveryBacked(s', p)
      ensures s'.procs[p].Owns() || s'.procs[p].Exits() ==> s'.procs[p].inode < s'.nextInode
    {
      StepKeepsOwnerBacked(s, step, stale, p);
      StepKeepsRecoveryBacked(s, step, stale, p);
      StepKeepsInode(s, step, stale, p);
    }
    forall p, q | p in s'.procs && q in s'.procs && s'.procs[p].Owns() && s'.procs[q].Owns()
      ensures p == q
    {
      BackedOwnersAreOne(s', stale, p, q);
      if s'.procs[p].Creating? && s'.procs[q].Creating? {
        OneCreator(s, step, stale, p, q);
      }
    }
    hide Apply, OwnerBacked, RecoveryBacked, Enabled;
  }

  lemma {:induction false} RunKeepsInv(s: State, steps: seq<Step>, stale: nat)
    requires Inv(s, stale) && Possible(s, steps, stale) && AllHarmless(s, steps, stale)
    ensures Inv(After(s, steps, stale), stale)
    decreases |steps|
  {
    if steps == [] {
    } else {
      hide Inv, Apply;
      StepKeepsInv(s, steps[0], stale);
      RunKeepsInv(Apply(s, steps[0], stale), steps[1..], stale);
    }
  }

  lemma InitHasInv(s: State, stale: nat)
    requires Init(s, stale)
    ensures Inv(s, stale)
  {
  }

  // ---------------------------------------------------------------- re-check and unlink as one step

  /** No two live processes are inside the lock. */
  ghost predicate Exclusive(s: State) {
    forall p, q :: p in s.procs && s.procs[p].Inside? && q in s.procs && s.procs[q].Inside? ==> p == q
  }

  /** A run in which every recovery unlink still finds what was re-checked. */
  ghost predicate AllHit(s: State, steps: seq<Step>, stale: nat)
    requires Possible(s, steps, stale)
    decreases |steps|
  {
    steps != [] ==> HitsItsTarget(s, steps[0]) && AllHit(Apply(s, steps[0], stale), steps[1..], stale)
  }

  /** A recovery that still finds what it re-checked takes no live process's lock. */
  lemma HittingIsHarmless(s: State, stale: nat, step: Step)
    requires Inv(s, stale) && Enabled(s, step, stale) && HitsItsTarget(s, step)
    ensures Harmless(s, step)
    ensures step.RecoverUnlink? ==> forall p :: !LiveOwnersLock(s, p)
  {
    if step.RecoverUnlink? {
      assert RecoveryBacked(s, step.p);
    }
  }

  lemma {:induction false} AllHitIsAllHarmless(s: State, steps: seq<Step>, stale: nat)
    requires Inv(s, stale) && Possible(s, steps, stale) && AllHit(s, steps, stale)
    ensures AllHarmless(s, steps, stale)
    decreases |steps|
  {
    if steps == [] {
    } else {
      hide Inv, Apply, Enabled, Harmless, HitsItsTarget;
      HittingIsHarmless(s, stale, steps[0]);
      StepKeepsInv(s, steps[0], stale);
      AllHitIsAllHarmless(Apply(s, steps[0], stale), steps[1..], stale);
    }
  }

  /** With re-check and unlink as one step: over every interleaving no two live processes are inside the lock. */
  lemma MutualExclusion(s: State, steps: seq<Step>, stale: nat)
    requires Init(s, stale) && Possible(s, steps, stale) && AllHit(s, steps, stale)
    ensures Exclusive(After(s, steps, stale))
  {
    InitHasInv(s, stale);
    AllHitIsAllHarmless(s, steps, stale);
    HarmlessRunsExclude(s, steps, stale);
  }

  /** A run in which each recovery unlink comes right after the two calls of its own re-check. */
  ghost predicate Unsplit(steps: seq<Step>) {
    forall i :: 0 <= i < |steps| && steps[i].RecoverUnlink? ==> RightAfterRecheck(steps, i)
  }

  ghost predicate RightAfterRecheck(steps: seq<Step>, i: nat)
    requires i < |steps| && steps[i].RecoverUnlink?
  {
    i >= 2 && steps[i - 2] == Restat(steps[i].p) && steps[i - 1] == Reread(steps[i].p)
  }

  /** Then every recovery unlink still finds what was re-checked. */
  lemma UnsplitHits(s: State, steps: seq<Step>, stale: nat)
    requires Possible(s, steps, stale) && Unsplit(steps)
    ensures AllHit(s, steps, stale)
  {
    UnsplitHitsFrom(s, steps, stale);
  }

  /** The same from the middle of a re-check. */
  lemma {:induction false} UnsplitHitsFrom(s: State, steps: seq<Step>, stale: nat)
    requires Possible(s, steps, stale)
    requires forall i :: 2 <= i < |steps| && steps[i].RecoverUnlink? ==> RightAfterRecheck(steps, i)
    requires steps != [] && steps[0].RecoverUnlink? ==> HitsItsTarget(s, steps[0])
    requires |steps| > 1 && steps[1].RecoverUnlink? ==>
               steps[0] == Reread(steps[1].p)
               && (s.lock.Some? ==> s.lock.value.inode == s.procs[steps[1].p].inode)
    ensures AllHit(s, steps, stale)
    decreases |steps|
  {
    if steps == [] {
    } else {
      var rest, next := steps[1..], Apply(s, steps[0], stale);
      forall i | 2 <= i < |rest| && rest[i].RecoverUnlink?
        ensures RightAfterRecheck(rest, i)
      {
        assert RightAfterRecheck(steps, i + 1);
      }
      if |steps| > 2 && steps[2].RecoverUnlink? {
        assert RightAfterRecheck(steps, 2);
      }
      assert rest != [] ==> Enabled(next, rest[0], stale);
      UnsplitHitsFrom(next, rest, stale);
    }
  }

  /** So no two live processes are inside the lock in any run whose recoveries are not split. */
  lemma UnsplitRunsExclude(s: State, steps: seq<Step>, stale: nat)
    requires Init(s, stale) && Possible(s, steps, stale) && Unsplit(steps)
    ensures Exclusive(After(s, steps, stale))
  {
    UnsplitHits(s, steps, stale);
    MutualExclusion(s, steps, stale);
  }

  /** What is behind it: no recovery may take the lock from its owner. */
  lemma HarmlessRunsExclude(s: State, steps: seq<Step>, stale: nat)
    requires Inv(s, stale) && Possible(s, steps, stale) && AllHarmless(s, steps, stale)
    ensures Inv(After(s, steps, stale), stale) && Exclusive(After(s, steps, stale))
  {
    RunKeepsInv(s, steps, stale);
    hide AllHarmless, Possible, After, OwnerBacked, RecoveryBacked;
  }

  /** Likewise, no step but its owner's release removes a live process's lock. */
  lemma LiveOwnersLockSurvives(s: State, steps: seq<Step>, stale: nat, step: Step, p: Pid)
    requires Init(s, stale) && Possible(s, steps, stale) && AllHit(s, steps, stale)
    requires Enabled(After(s, steps, stale), step, stale) && HitsItsTarget(After(s, steps, stale), step)
    requires LiveOwnersLock(After(s, steps, stale), p) && step != OwnUnlink(p)
    ensures var s' := Apply(After(s, steps, stale), step, stale);
            s'.lock.Some? && s'.lock.value.inode == After(s, steps, stale).procs[p].inode
  {
    InitHasInv(s, stale);
    AllHitIsAllHarmless(s, steps, stale);
    RunKeepsInv(s, steps, stale);
    hide Init, Possible, AllHit, AllHarmless, After;
    StepKeepsLiveLock(After(s, steps, stale), stale, step, p);
  }

  lemma OnlyItsOwnerReleases(s: State, stale: nat, p: Pid)
    requires Inv(s, stale) && LiveOwnersLock(s, p)
    ensures forall q :: q in s.procs && s.procs[q].Leaving? ==> q == p
  {
    assert OwnerBacked(s, p, stale);
    assert forall q :: q in s.procs ==> OwnerBacked(s, q, stale);
    hide RecoveryBacked;
  }

  lemma StepKeepsLiveLock(s: State, stale: nat, step: Step, p: Pid)
    requires Inv(s, stale) && Enabled(s, step, stale) && HitsItsTarget(s, step)
    requires LiveOwnersLock(s, p) && step != OwnUnlink(p)
    ensures var s' := Apply(s, step, stale); s'.lock.Some? && s'.lock.value.inode == s.procs[p].inode
  {
    HittingIsHarmless(s, stale, step);
    OnlyItsOwnerReleases(s, stale, p);
    assert OwnerBacked(s, p, stale);
    hide RecoveryBacked;
  }

  // ---------------------------------------------------------------- re-check and unlink as the two calls they are

  /** A recovery unlink takes its owner's lock exactly when, after the re-check, the file was replaced by one a live
      process owns. */
  lemma RecoveryHarmsIff(s: State, stale: nat, r: Pid)
    requires Inv(s, stale) && Enabled(s, RecoverUnlink(r), stale)
    ensures !Harmless(s, RecoverUnlink(r)) <==>
            s.lock.Some? && s.lock.value.inode != s.procs[r].inode
            && exists p :: p in s.procs && s.procs[p].Owns()
  {
    assert RecoveryBacked(s, r);
    forall p | p in s.procs && s.procs[p].Owns()
      ensures LiveOwnersLock(s, p)
    {
      assert OwnerBacked(s, p, stale);
    }
  }

  ghost predicate NoRecovery(steps: seq<Step>) {
    forall i :: 0 <= i < |steps| ==> !steps[i].RecoverUnlink?
  }

  /** As long as no further recovery unlinks anything, no two processes will be inside. */
  ghost predicate StaysExclusive(s: State, stale: nat) {
    forall more: seq<Step> :: Possible(s, more, stale) && NoRecovery(more) ==> Exclusive(After(s, more, stale))
  }

  /** One recovery unlink is safe for all that may follow it exactly when it takes no owner's lock. */
  lemma RecoveryIsSafeIff(s: State, stale: nat, r: Pid)
    requires Inv(s, stale) && Enabled(s, RecoverUnlink(r), stale)
    ensures StaysExclusive(Apply(s, RecoverUnlink(r), stale), stale) <==> Harmless(s, RecoverUnlink(r))
  {
    if Harmless(s, RecoverUnlink(r)) {
      StepKeepsInv(s, RecoverUnlink(r), stale);
      SoundStaysExclusive(Apply(s, RecoverUnlink(r), stale), stale);
    } else {
      var more := HarmAdmitsTwo(s, stale, r);
    }
    hide Inv, Apply, Exclusive, Possible, After, Harmless;
  }

  lemma SoundStaysExclusive(s: State, stale: nat)
    requires Inv(s, stale)
    ensures StaysExclusive(s, stale)
  {
    hide Inv, Exclusive;
    forall more: seq<Step> | Possible(s, more, stale) && NoRecovery(more)
      ensures Exclusive(After(s, more, stale))
    {
      NoRecoveryIsHarmless(s, more, stale);
      HarmlessRunsExclude(s, more, stale);
    }
  }

  lemma {:induction false} NoRecoveryIsHarmless(s: State, steps: seq<Step>, stale: nat)
    requires Possible(s, steps, stale) && NoRecovery(steps)
    ensures AllHarmless(s, steps, stale)
    decreases |steps|
  {
    if steps == [] {
    } else {
      hide Apply, Enabled;
      NoRecoveryIsHarmless(Apply(s, steps[0], stale), steps[1..], stale);
    }
  }

  /** At every point of a run, what follows without further recovery unlinks is exclusive. */
  ghost predicate ExclusiveThroughout(s: State, steps: seq<Step>, stale: nat)
    requires Possible(s, steps, stale)
    decreases |steps|
  {
    && StaysExclusive(s, stale)
    && (steps != [] ==> ExclusiveThroughout(Apply(s, steps[0], stale), steps[1..], stale))
  }

  /** Over whole runs: no recovery takes an owner's lock if and only if at no point of the run the other steps alone can
      put two processes inside. */
  lemma {:induction false} HarmlessIffExclusiveThroughout(s: State, steps: seq<Step>, stale: nat)
    requires Inv(s, stale) && Possible(s, steps, stale)
    ensures AllHarmless(s, steps, stale) <==> ExclusiveThroughout(s, steps, stale)
    decreases |steps|
  {
    hide Inv, Apply, Enabled, Harmless, StaysExclusive;
    SoundStaysExclusive(s, stale);
    if steps == [] {
    } else if Harmless(s, steps[0]) {
      StepKeepsInv(s, steps[0], stale);
      HarmlessIffExclusiveThroughout(Apply(s, steps[0], stale), steps[1..], stale);
    } else {
      OnlyRecoveryHarms(s, steps[0]);
      RecoveryIsSafeIff(s, stale, steps[0].p);
    }
  }

  lemma OnlyRecoveryHarms(s: State, step: Step)
    requires !Harmless(s, step)
    ensures step.RecoverUnlink? && step == RecoverUnlink(step.p)
  {
  }

  /** Extending a run by one enabled step. */
  lemma {:induction false} Then(s: State, steps: seq<Step>, step: Step, stale: nat)
    requires Possible(s, steps, stale) && Enabled(After(s, steps, stale), step, stale)
    ensures Possible(s, steps + [step], stale)
    ensures After(s, steps + [step], stale) == Apply(After(s, steps, stale), step, stale)
    decreases |steps|
  {
    hide Apply, Enabled;
    if steps == [] {
      assert [step][1..] == [];
    } else {
      Then(Apply(s, steps[0], stale), steps[1..], step, stale);
      assert (steps + [step])[1..] == steps[1..] + [step];
    }
  }

  lemma Do(s: State, steps: seq<Step>, now: State, step: Step, stale: nat) returns (steps': seq<Step>, now': State)
    requires Possible(s, steps, stale) && After(s, steps, stale) == now && Enabled(now, step, stale)
    ensures Possible(s, steps', stale) && After(s, steps', stale) == now' == Apply(now, step, stale)
    ensures steps' == steps + [step]
  {
    Then(s, steps, step, stale);
    steps', now' := steps + [step], Apply(now, step, stale);
  }

  lemma NoSteps(s: State, stale: nat)
    ensures Possible(s, [], stale) && After(s, [], stale) == s
  {
  }

  /** After a recovery took an owner's lock two processes can get inside: the one that unlinked, and the owner. */
  lemma HarmAdmitsTwo(s: State, stale: nat, r: Pid) returns (more: seq<Step>)
    requires Inv(s, stale) && Enabled(s, RecoverUnlink(r), stale) && !Harmless(s, RecoverUnlink(r))
    ensures var after := Apply(s, RecoverUnlink(r), stale);
            Possible(after, more, stale) && NoRecovery(more) && !Exclusive(After(after, more, stale))
  {
    var p :| LiveOwnersLock(s, p) && s.procs[p].Owns();
    assert OwnerBacked(s, p, stale) && p != r;
    hide Possible, After, Inv, Harmless;
    var after := Apply(s, RecoverUnlink(r), stale);
    var now := after;
    NoSteps(after, stale);
    more, now := Do(after, [], now, Create(r), stale);
    more, now := Do(after, more, now, WriteOwner(r), stale);
    more, now := OwnerGetsInside(after, more, now, p, r, stale);
  }

  /** However far the robbed owner was, it gets inside as well. */
  lemma OwnerGetsInside(s: State, before: seq<Step>, start: State, p: Pid, r: Pid, stale: nat)
    returns (steps: seq<Step>, now: State)
    requires Possible(s, before, stale) && After(s, before, stale) == start && NoRecovery(before)
    requires p in start.procs && r in start.procs && p != r && start.procs[p].Owns() && start.procs[r].Inside?
    ensures Possible(s, steps, stale) && After(s, steps, stale) == now && NoRecovery(steps) && !Exclusive(now)
  {
    hide Possible, After;
    steps, now := before, start;
    if now.procs[p].Creating? {
      steps, now := Do(s, steps, now, WriteOwner(p), stale);
    } else if now.procs[p].Leaving? {
      // The release was already verified, so it removes the new owner's lock.
      steps, now := Do(s, steps, now, OwnUnlink(p), stale);
      steps, now := Do(s, steps, now, Begin(p), stale);
      steps, now := Do(s, steps, now, Create(p), stale);
      steps, now := Do(s, steps, now, WriteOwner(p), stale);
    }
    assert now.procs[p].Inside? && now.procs[r].Inside?;
  }

  // ---------------------------------------------------------------- who wants the lock gets on

  /** A process inside that leaves, undisturbed, takes its lock file away and nothing else. */
  lemma ReleaseFrees(s: State, stale: nat, p: Pid)
    requires Inv(s, stale) && p in s.procs && s.procs[p].Inside?
    ensures var steps := [Exit(p), StatOwn(p), ReadOwn(p), OwnUnlink(p)];
            Possible(s, steps, stale) && After(s, steps, stale) == s.(lock := None, procs := s.procs[p := Outside])
  {
    assert OwnerBacked(s, p, stale);
    hide Possible, After, Inv;
    NoSteps(s, stale);
    var steps, now := Do(s, [], s, Exit(p), stale);
    steps, now := Do(s, steps, now, StatOwn(p), stale);
    steps, now := Do(s, steps, now, ReadOwn(p), stale);
    steps, now := Do(s, steps, now, OwnUnlink(p), stale);
    assert steps == [Exit(p), StatOwn(p), ReadOwn(p), OwnUnlink(p)] && now.procs == s.procs[p := Outside];
  }

  /** Disturbed or not: while the lock file is its own, each call of a leaving process takes it one call further, and
      the last one removes the file. */
  lemma ReleaseGoesOn(s: State, stale: nat, p: Pid)
    requires Inv(s, stale) && LiveOwnersLock(s, p)
    ensures match s.procs[p]
            case Inside(i, k) => Enabled(s, Exit(p), stale) && Apply(s, Exit(p), stale) == Move(s, p, Exiting(i, k))
            case Exiting(i, k) =>
              Enabled(s, StatOwn(p), stale) && Apply(s, StatOwn(p), stale) == Move(s, p, Verifying(i, k, i))
            case Verifying(i, k, seen) =>
              Enabled(s, ReadOwn(p), stale)
              && (seen == i ==> Apply(s, ReadOwn(p), stale) == Move(s, p, Leaving(i, k)))
            case Leaving(_, _) =>
              Enabled(s, OwnUnlink(p), stale) && Apply(s, OwnUnlink(p), stale).lock.None?
            case _ => true
  {
    assert OwnerBacked(s, p, stale);
    hide Inv;
  }

  /** A process whose lock file was replaced by another owner's leaves that one alone. */
  lemma ForeignLockIsLeft(s: State, stale: nat, p: Pid)
    requires p in s.procs && s.procs[p].Verifying? && s.lock.Some? && s.lock.value.content.Owner?
    requires s.lock.value.content.pid != p || s.lock.value.content.token != s.procs[p].token
    ensures Enabled(s, ReadOwn(p), stale) && Apply(s, ReadOwn(p), stale) == Move(s, p, Outside)
  {
  }

  /** A process that tries while there is no lock file gets inside, with its own name in the file. */
  lemma FreeLockIsTaken(s: State, stale: nat, p: Pid)
    requires p in s.procs && s.procs[p].Trying? && s.lock.None?
    ensures var steps := [Create(p), WriteOwner(p)];
            && Possible(s, steps, stale)
            && var after := After(s, steps, stale);
            && after.procs == s.procs[p := Inside(s.nextInode, s.nextToken)]
            && after.lock == Some(LockFile(s.nextInode, Owner(p, s.nextToken), s.now))
  {
    hide Possible, After;
    NoSteps(s, stale);
    var steps, now := Do(s, [], s, Create(p), stale);
    steps, now := Do(s, steps, now, WriteOwner(p), stale);
    assert steps == [Create(p), WriteOwner(p)] && now.procs == s.procs[p := Inside(s.nextInode, s.nextToken)];
  }

  /** One that finds the lock of a dead process, or metadata that is malformed and old, removes it, and can then take
      the lock. */
  lemma StaleLockIsRecovered(s: State, stale: nat, p: Pid)
    requires p in s.procs && s.procs[p].Trying? && s.lock.Some?
    requires if s.lock.value.content.Owner? then s.lock.value.content.pid !in s.procs
             else s.now >= s.lock.value.modifiedAt + stale
    ensures var steps := [Stat(p), ReadRaw(p), Judge(p), Restat(p), Reread(p), RecoverUnlink(p)];
            Possible(s, steps, stale) && After(s, steps, stale) == s.(lock := None)
  {
    hide Possible, After;
    NoSteps(s, stale);
    var steps, now := Do(s, [], s, Stat(p), stale);
    steps, now := Do(s, steps, now, ReadRaw(p), stale);
    steps, now := Do(s, steps, now, Judge(p), stale);
    steps, now := Do(s, steps, now, Restat(p), stale);
    steps, now := Do(s, steps, now, Reread(p), stale);
    steps, now := Do(s, steps, now, RecoverUnlink(p), stale);
    assert steps == [Stat(p), ReadRaw(p), Judge(p), Restat(p), Reread(p), RecoverUnlink(p)] && now.procs == s.procs;
  }

  /** One that finds the lock of a live process, or metadata that is not yet old, changes nothing and tries again. */
  lemma FreshLockIsAwaited(s: State, stale: nat, p: Pid)
    requires p in s.procs && s.procs[p].Trying?
    requires s.lock.Some?
    requires if s.lock.value.content.Owner? then s.lock.value.content.pid in s.procs
             else s.now < s.lock.value.modifiedAt + stale
    ensures var steps := [Stat(p), ReadRaw(p), Judge(p)];
            Possible(s, steps, stale) && After(s, steps, stale) == s
  {
    hide Possible, After;
    NoSteps(s, stale);
    var steps, now := Do(s, [], s, Stat(p), stale);
    steps, now := Do(s, steps, now, ReadRaw(p), stale);
    steps, now := Do(s, steps, now, Judge(p), stale);
    assert steps == [Stat(p), ReadRaw(p), Judge(p)] && now.procs == s.procs;
  }

  /** The re-check goes through exactly when the file is still the one that was judged, inode and content. */
  lemma RecheckPassesIff(s: State, stale: nat, p: Pid)
    requires p in s.procs && s.procs[p].Judged?
    ensures var steps := [Restat(p), Reread(p)];
            (Possible(s, steps, stale) && p in After(s, steps, stale).procs
             && After(s, steps, stale).procs[p].Confirmed?) <==>
            s.lock.Some? && s.lock.value.inode == s.procs[p].inode && s.lock.value.content == s.procs[p].raw
  {
    var steps, next := [Restat(p), Reread(p)], Apply(s, Restat(p), stale);
    assert steps[1..] == [Reread(p)] && [Reread(p)][1..] == [];
    if Enabled(next, Reread(p), stale) {
      NoSteps(Apply(next, Reread(p), stale), stale);
      assert Possible(next, [Reread(p)], stale) && After(next, [Reread(p)], stale) == Apply(next, Reread(p), stale);
    }
  }

  // ---------------------------------------------------------------- no start is safe

  /** Two processes that both find a stale lock can both confirm it. */
  lemma OneConfirms(s: State, steps: seq<Step>, now: State, p: Pid, stale: nat)
    returns (steps': seq<Step>, now': State)
    requires Possible(s, steps, stale) && After(s, steps, stale) == now
    requires p in now.procs && now.procs[p].Outside?
    requires now.lock.Some? && LooksStale(now, now.lock.value.modifiedAt, now.lock.value.content, stale)
    ensures Possible(s, steps', stale) && After(s, steps', stale) == now'
    ensures now' == Move(now, p, Confirmed(now.lock.value.inode, now.lock.value.content))
  {
    hide Possible, After;
    steps', now' := Do(s, steps, now, Begin(p), stale);
    steps', now' := Do(s, steps', now', Stat(p), stale);
    steps', now' := Do(s, steps', now', ReadRaw(p), stale);
    steps', now' := Do(s, steps', now', Judge(p), stale);
    steps', now' := Do(s, steps', now', Restat(p), stale);
    steps', now' := Do(s, steps', now', Reread(p), stale);
  }

  /** A pid nobody had. */
  lemma {:induction false} SomeNewPid(used: set<Pid>) returns (p: Pid)
    ensures p !in used && forall q :: q in used ==> q < p
    decreases |used|
  {
    if used == {} {
      p := 0;
    } else {
      var q :| q in used;
      p := SomeNewPid(used - {q});
      assert forall x :: x in used ==> x == q || x in used - {q};
      if p <= q {
        p := q + 1;
      }
    }
  }

  /** From every start a run leads to a lock that is safe to take for stale. */
  lemma SomeLockGoesStale(s: State, stale: nat) returns (steps: seq<Step>, now: State)
    requires Init(s, stale)
    ensures Possible(s, steps, stale) && After(s, steps, stale) == now
    ensures now.lock.Some? && LooksStale(now, now.lock.value.modifiedAt, now.lock.value.content, stale)
    ensures now.lock.value.content.Owner? ==> now.lock.value.content.pid in now.used
    ensures now.procs.Keys <= now.used
  {
    hide Possible, After;
    NoSteps(s, stale);
    steps, now := [], s;
    if s.lock.None? {
      var p := SomeNewPid(s.used);
      steps, now := Do(s, steps, now, Spawn(p), stale);
      steps, now := Do(s, steps, now, Begin(p), stale);
      steps, now := Do(s, steps, now, Create(p), stale);
      steps, now := Do(s, steps, now, WriteOwner(p), stale);
      steps, now := Do(s, steps, now, Crash(p), stale);
    } else if s.lock.value.content.Malformed? {
      steps, now := Do(s, steps, now, Tick(s.lock.value.modifiedAt + stale), stale);
    } else if s.lock.value.content.pid in s.procs {
      steps, now := Do(s, steps, now, Crash(s.lock.value.content.pid), stale);
    }
  }

  /** As the two calls they are, re-check and unlink are safe from no start: two processes confirm the same stale lock,
      the first recovers, takes the lock and is inside, and the second unlinks the first one's lock and takes it too. */
  lemma NoStartIsSafe(s: State, stale: nat) returns (steps: seq<Step>)
    requires Init(s, stale)
    ensures Possible(s, steps, stale) && !Exclusive(After(s, steps, stale)) && !AllHarmless(s, steps, stale)
  {
    var now;
    steps, now := SomeLockGoesStale(s, stale);
    var a := SomeNewPid(now.used);
    var b := SomeNewPid(now.used + {a});
    steps, now := TwoGetInside(s, steps, now, a, b, stale);
    InitHasInv(s, stale);
    if AllHarmless(s, steps, stale) {
      HarmlessRunsExclude(s, steps, stale);
    }
  }

  lemma TwoGetInside(s: State, before: seq<Step>, start: State, a: Pid, b: Pid, stale: nat)
    returns (steps: seq<Step>, now: State)
    requires Possible(s, before, stale) && After(s, before, stale) == start
    requires start.lock.Some? && LooksStale(start, start.lock.value.modifiedAt, start.lock.value.content, stale)
    requires start.lock.value.content.Owner? ==> start.lock.value.content.pid in start.used
    requires start.procs.Keys <= start.used && a !in start.used && b !in start.used && a != b
    ensures Possible(s, steps, stale) && After(s, steps, stale) == now && !Exclusive(now)
  {
    hide Possible, After;
    steps, now := Do(s, before, start, Spawn(a), stale);
    steps, now := Do(s, steps, now, Spawn(b), stale);
    steps, now := OneConfirms(s, steps, now, a, stale);
    steps, now := OneConfirms(s, steps, now, b, stale);
    steps, now := Do(s, steps, now, RecoverUnlink(a), stale);
    steps, now := Do(s, steps, now, Create(a), stale);
    steps, now := Do(s, steps, now, WriteOwner(a), stale);
    steps, now := Do(s, steps, now, RecoverUnlink(b), stale);
    steps, now := Do(s, steps, now, Create(b), stale);
    steps, now := Do(s, steps, now, WriteOwner(b), stale);
    assert now.procs[a].Inside? && now.procs[b].Inside?;
  }
}
