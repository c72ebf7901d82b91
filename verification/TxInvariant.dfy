/** What every step of the transaction protocol keeps, and what follows for whole runs. */
module TxInvariant {
  import opened Common
  import opened TxProtocol

  /** The files that the committed transactions account for. */
  ghost function Base(w: World): Files {
    Replay(w.init, w.log)
  }

  ghost predicate OnePending(recs: map<TxId, Rec>) {
    forall i, j | Pending(recs, i) && Pending(recs, j) :: i == j
  }

  ghost predicate IdsIssued(w: World) {
    w.recs.Keys <= w.issued && w.mem.Keys <= w.issued && w.wrote <= w.issued
  }

  ghost predicate WritersMarked(wrote: set<TxId>, recs: map<TxId, Rec>) {
    forall id | id in wrote && id in recs :: recs[id].phase !in {Preparing, Validated, Aborted}
  }

  /** Materials are saved no earlier than VALIDATED. */
  ghost predicate NoEarlyBefore(recs: map<TxId, Rec>) {
    forall id | id in recs && recs[id].phase == Preparing :: recs[id].before.None?
  }

  /** Only the lock holder has passed its check, is between check and unlock, or restores files. */
  ghost predicate LockOk(lock: Lock, mem: map<TxId, Mem>, recs: map<TxId, Rec>) {
    && (lock.ByTx? ==> lock.id in mem)
    && (forall id | id in mem && mem[id].checked :: lock == ByTx(id) && !OthersPending(recs, id))
    && (forall id | id in mem && id in recs && recs[id].phase in {Applying, Observing, RollingBack} ::
          mem[id].checked)
  }

  /** Everything `recover` needs is durable, and no file holds anything but before or intended content. */
  ghost predicate Recoverable(f: Files, base: Files, r: Rec) {
    && r.before.Some?
    && r.before.value.Keys == r.targets == r.intended.Keys
    && (forall t | t in r.targets :: Look(f, t) == r.before.value[t] || Look(f, t) == r.intended[t])
    && Overlay(f, r.before.value) == base
  }

  ghost predicate FilesOk(f: Files, base: Files, recs: map<TxId, Rec>) {
    && (forall id | Pending(recs, id) :: Recoverable(f, base, recs[id]))
    && ((forall id :: !Pending(recs, id)) ==> f == base)
  }

  /** A running `recover` has already put back every file it no longer lists. */
  ghost predicate RestoreOk(f: Files, lock: Lock, recs: map<TxId, Rec>) {
    lock.ByRecover? && lock.id in recs && recs[lock.id].before.Some? ==>
      ToRestore(f, recs[lock.id].before.value) <= lock.todo
  }

  ghost predicate MemOk(m: Mem) {
    && WellFormed(m.plan)
    && m.seen.Keys <= m.plan.sources
    && m.staged.Keys <= m.plan.targets
    && (forall t | t in m.staged :: StagedOk(m.plan, m.seen, t, m.staged[t]))
  }

  ghost predicate StagedOk(p: Plan, seen: Image, t: string, s: Staged) {
    && p.deps(t) <= seen.Keys
    && s.data == p.make(t, Narrow(seen, p.deps(t)))
    && (t in seen ==> s.basis == seen[t])
  }

  /** After the check under the lock the candidates rest on the committed files. */
  ghost predicate RestsOn(m: Mem, base: Files) {
    && m.staged.Keys == m.plan.targets
    && m.seen.Keys == m.plan.sources
    && (forall t | t in m.seen :: m.seen[t] == Look(base, t))
    && (forall t | t in m.staged :: m.staged[t].basis == Look(base, t))
  }

  ghost predicate Progress(f: Files, base: Files, m: Mem, r: Rec) {
    && (r.phase in {Preparing, Validated, Applying, Observing} ==> RestsOn(m, base))
    && (r.phase == Validated && r.before.Some? ==>
          r.targets == m.plan.targets && r.before.value == View(base, m.plan.targets))
    && (r.phase in {Applying, Observing} ==>
          && r.targets == m.plan.targets
          && r.before == Some(View(base, m.plan.targets))
          && r.intended == Intended(m)
          && m.applied <= m.staged.Keys
          && forall t | t in m.staged ::
               Look(f, t) == if t in m.applied then Outcome(m.staged[t]) else Look(base, t))
    && (r.phase == Observing ==> m.applied == m.staged.Keys)
  }

  ghost predicate ProcessesOk(f: Files, base: Files, mem: map<TxId, Mem>, recs: map<TxId, Rec>) {
    && (forall id | id in mem :: MemOk(mem[id]))
    && (forall id | id in mem && id in recs && mem[id].checked :: Progress(f, base, mem[id], recs[id]))
    && (forall id | id in mem && id in recs && recs[id].phase in {Preparing, Validated} :: mem[id].applied == {})
  }

  ghost predicate Inv(w: World) {
    && OnePending(w.recs) && IdsIssued(w) && WritersMarked(w.wrote, w.recs) && NoEarlyBefore(w.recs)
    && LockOk(w.lock, w.mem, w.recs)
    && FilesOk(w.files, Base(w), w.recs) && RestoreOk(w.files, w.lock, w.recs)
    && ProcessesOk(w.files, Base(w), w.mem, w.recs)
  }

  lemma NarrowGrows(img: Image, names: set<string>, t: string, c: Option<Bytes>)
    requires names <= img.Keys && t !in img
    ensures Narrow(img[t := c], names) == Narrow(img, names)
  {
  }

  /** Files that already equal the before-image are the committed files. */
  lemma RestoredIsBase(w: World, id: TxId)
    requires Inv(w) && Pending(w.recs, id) && ToRestore(w.files, w.recs[id].before.value) == {}
    ensures w.files == Base(w)
  {
    var before := w.recs[id].before.value;
    forall t ensures Look(w.files, t) == Look(Overlay(w.files, before), t) {
      assert t in before ==> t !in ToRestore(w.files, before);
    }
    SameFiles(w.files, Overlay(w.files, before));
  }

  /** Writing before or intended content at a target of the pending transaction keeps it recoverable. */
  lemma PutKeepsRecoverable(f: Files, base: Files, r: Rec, t: string, c: Option<Bytes>)
    requires Recoverable(f, base, r) && t in r.targets
    requires c == r.before.value[t] || c == r.intended[t]
    ensures Recoverable(Put(f, t, c), base, r)
  {
    SameFiles(Overlay(Put(f, t, c), r.before.value), base);
  }

  lemma ApplyProgress(f: Files, base: Files, m: Mem, r: Rec, t: string)
    requires Progress(f, base, m, r) && r.phase == Applying && t in m.staged && t !in m.applied
    ensures Progress(ApplyOneFile(f, t, m.staged[t]), base, m.(applied := m.applied + {t}), r)
  {
  }

  /** When the pending transaction ends, nothing is pending. */
  lemma NoneLeftPending(w: World, id: TxId, p: Phase)
    requires Inv(w) && Pending(w.recs, id) && !NeedsRecovery(p)
    ensures forall i :: !Pending(SetPhase(w, id, p).recs, i)
  {
    forall i ensures !Pending(SetPhase(w, id, p).recs, i) {
      assert i != id ==> !Pending(w.recs, i);
    }
  }

  lemma ApplyKeepsFiles(w: World, id: TxId, t: string, w': World)
    requires Inv(w) && OnApplyOne(w, id, t) == Some(w')
    ensures FilesOk(w'.files, Base(w), w'.recs) && RestoreOk(w'.files, w'.lock, w'.recs)
  {
    var m, r := w.mem[id], w.recs[id];
    assert Pending(w.recs, id);
    var s := m.staged[t];
    assert Recoverable(w.files, Base(w), r) && Progress(w.files, Base(w), m, r);
    if !Untouched(s) {
      PutKeepsRecoverable(w.files, Base(w), r, t, s.data);
    }
  }

  lemma ApplyKeepsProcesses(w: World, id: TxId, t: string, w': World)
    requires Inv(w) && OnApplyOne(w, id, t) == Some(w')
    ensures ProcessesOk(w'.files, Base(w), w'.mem, w'.recs)
  {
    ApplyProgress(w.files, Base(w), w.mem[id], w.recs[id], t);
  }

  /** The lock holder left the states that need recovery. */
  lemma PhaseChange(w: World, w': World, id: TxId)
    requires Inv(w) && id in w.mem && id in w.recs && w.mem[id].checked && w'.mem == w.mem && w'.lock == w.lock
    requires w'.recs.Keys == w.recs.Keys && forall i | i in w.recs && i != id :: w'.recs[i] == w.recs[i]
    requires w'.recs[id].phase in {Committed, RolledBack}
    ensures ProcessesOk(w'.files, Base(w'), w'.mem, w'.recs)
  {
  }

  /** A transaction that observed all its writes has had the effect its log entry claims. */
  lemma CommitEffect(w: World, id: TxId)
    requires Inv(w) && Cleared(w, id, Observing)
    ensures w.files == Effect(CommitmentOf(w.mem[id]), Base(w))
  {
    var m := w.mem[id];
    var c := CommitmentOf(m);
    forall t | t in m.staged ensures m.staged[t].data == Candidate(m.plan, Base(w), t) {
      assert StagedOk(m.plan, m.seen, t, m.staged[t]);
      assert Narrow(m.seen, m.plan.deps(t)) == View(Base(w), m.plan.deps(t));
    }
    assert Pending(w.recs, id);
    forall t ensures Look(w.files, t) == Look(Effect(c, Base(w)), t) {
      if t !in m.staged {
        assert Look(w.files, t) == Look(Overlay(w.files, w.recs[id].before.value), t);
      }
    }
    SameFiles(w.files, Effect(c, Base(w)));
  }

  lemma BeginKeepsProcesses(w: World, id: TxId, plan: Plan, w': World)
    requires Inv(w) && OnBegin(w, id, plan) == Some(w')
    ensures ProcessesOk(w'.files, Base(w'), w'.mem, w'.recs) && LockOk(w'.lock, w'.mem, w'.recs)
  {
    assert Base(w') == Base(w);
    forall i | Pending(w'.recs, i) ensures Pending(w.recs, i) {
    }
  }

  lemma StepBegin(w: World, id: TxId, plan: Plan, w': World)
    requires Inv(w) && OnBegin(w, id, plan) == Some(w')
    ensures Inv(w')
  {
    assert Base(w') == Base(w);
    assert forall i :: Pending(w'.recs, i) <==> Pending(w.recs, i);
    BeginKeepsProcesses(w, id, plan, w');
  }

  lemma StepRead(w: World, id: TxId, t: string, w': World)
    requires Inv(w) && OnRead(w, id, t) == Some(w')
    ensures Inv(w')
  {
    assert Base(w') == Base(w);
    var m, m' := w.mem[id], w'.mem[id];
    forall u | u in m'.staged ensures StagedOk(m'.plan, m'.seen, u, m'.staged[u]) {
      assert StagedOk(m.plan, m.seen, u, m.staged[u]);
      NarrowGrows(m.seen, m.plan.deps(u), t, Look(w.files, t));
    }
  }

  lemma StepStage(w: World, id: TxId, t: string, w': World)
    requires Inv(w) && OnStage(w, id, t) == Some(w')
    ensures Inv(w')
  {
    assert Base(w') == Base(w);
    var m, m' := w.mem[id], w'.mem[id];
    forall u | u in m'.staged ensures StagedOk(m'.plan, m'.seen, u, m'.staged[u]) {
      assert u != t ==> StagedOk(m.plan, m.seen, u, m.staged[u]);
    }
  }

  lemma StepTakeLock(w: World, id: TxId, w': World)
    requires Inv(w) && OnTakeLock(w, id) == Some(w')
    ensures Inv(w')
  {
  }

  lemma StepUnlock(w: World, id: TxId, w': World)
    requires Inv(w) && OnUnlock(w, id) == Some(w')
    ensures Inv(w')
  {
    assert Base(w') == Base(w);
  }

  lemma StepRecoverLeave(w: World, w': World)
    requires Inv(w) && OnRecoverLeave(w) == Some(w')
    ensures Inv(w')
  {
  }

  lemma StepCheck(w: World, id: TxId, w': World)
    requires Inv(w) && OnCheck(w, id) == Some(w')
    ensures Inv(w')
  {
    assert Base(w') == Base(w);
    assert forall i | i != id :: !Pending(w.recs, i);
    assert w.files == Base(w);
    assert RestsOn(w'.mem[id], Base(w)) by {
      forall t | t in w.mem[id].seen ensures w.mem[id].seen[t] == Look(Base(w), t) {
        if t in w.mem[id].staged {
          assert StagedOk(w.mem[id].plan, w.mem[id].seen, t, w.mem[id].staged[t]);
        }
      }
    }
    assert Progress(w.files, Base(w), w'.mem[id], w.recs[id]);
  }

  lemma StepValidate(w: World, id: TxId, w': World)
    requires Inv(w) && OnValidate(w, id) == Some(w')
    ensures Inv(w')
  {
    assert Base(w') == Base(w);
    assert forall i :: Pending(w'.recs, i) <==> Pending(w.recs, i);
  }

  lemma StepSaveBefore(w: World, id: TxId, w': World)
    requires Inv(w) && OnSaveBefore(w, id) == Some(w')
    ensures Inv(w')
  {
    assert Base(w') == Base(w);
    assert forall i :: Pending(w'.recs, i) <==> Pending(w.recs, i);
    assert forall i | i != id :: !Pending(w.recs, i);
    assert w.files == Base(w);
  }

  lemma StepSaveIntended(w: World, id: TxId, w': World)
    requires Inv(w) && OnSaveIntended(w, id) == Some(w')
    ensures Inv(w')
  {
    assert Base(w') == Base(w);
    assert forall i :: Pending(w'.recs, i) <==> Pending(w.recs, i);
  }

  lemma OwnViewChangesNothing(f: Files, names: set<string>)
    ensures Overlay(f, View(f, names)) == f
  {
  }

  /** The record at the moment of APPLYING can be recovered from. */
  lemma StartIsRecoverable(w: World, id: TxId)
    requires Inv(w) && OnBeginApply(w, id).Some? && w.files == Base(w)
    ensures Recoverable(w.files, Base(w), w.recs[id].(phase := Applying))
  {
    var m, r := w.mem[id], w.recs[id];
    assert Progress(w.files, Base(w), m, r);
    OwnViewChangesNothing(w.files, m.plan.targets);
  }

  lemma StepBeginApply(w: World, id: TxId, w': World)
    requires Inv(w) && OnBeginApply(w, id) == Some(w')
    ensures Inv(w')
  {
    assert Base(w') == Base(w);
    forall i | i != id ensures !Pending(w.recs, i) && !Pending(w'.recs, i) {
    }
    StartIsRecoverable(w, id);
  }

  lemma StepApplyOne(w: World, id: TxId, t: string, w': World)
    requires Inv(w) && OnApplyOne(w, id, t) == Some(w')
    ensures Inv(w')
  {
    assert Base(w') == Base(w);
    ApplyKeepsFiles(w, id, t, w');
    ApplyKeepsProcesses(w, id, t, w');
  }

  lemma StepBeginObserve(w: World, id: TxId, w': World)
    requires Inv(w) && OnBeginObserve(w, id) == Some(w')
    ensures Inv(w')
  {
    assert Base(w') == Base(w);
    assert forall i :: Pending(w'.recs, i) <==> Pending(w.recs, i);
  }

  lemma StepCommit(w: World, id: TxId, w': World)
    requires Inv(w) && OnCommit(w, id) == Some(w')
    ensures Inv(w')
  {
    CommitEffect(w, id);
    assert w'.log[..|w'.log| - 1] == w.log;
    assert w'.files == Base(w');
    NoneLeftPending(w, id, Committed);
    PhaseChange(w, w', id);
  }

  lemma StepBeginRollback(w: World, id: TxId, w': World)
    requires Inv(w) && OnBeginRollback(w, id) == Some(w')
    ensures Inv(w')
  {
    assert Base(w') == Base(w);
    assert forall i :: Pending(w'.recs, i) <==> Pending(w.recs, i);
  }

  lemma StepUndoOne(w: World, id: TxId, t: string, w': World)
    requires Inv(w) && OnUndoOne(w, id, t) == Some(w')
    ensures Inv(w')
  {
    assert Base(w') == Base(w);
    assert Pending(w.recs, id);
    PutKeepsRecoverable(w.files, Base(w), w.recs[id], t, w.recs[id].before.value[t]);
  }

  lemma StepCleanRollback(w: World, id: TxId, w': World)
    requires Inv(w) && OnEndRollback(w, id, true) == Some(w')
    ensures Inv(w')
  {
    assert Base(w') == Base(w);
    NoneLeftPending(w, id, RolledBack);
    RestoredIsBase(w, id);
    PhaseChange(w, w', id);
  }

  lemma StepFailedRollback(w: World, id: TxId, w': World)
    requires Inv(w) && OnEndRollback(w, id, false) == Some(w')
    ensures Inv(w')
  {
    assert Base(w') == Base(w);
    assert forall i :: Pending(w'.recs, i) <==> Pending(w.recs, i);
  }

  lemma StepEndRollback(w: World, id: TxId, clean: bool, w': World)
    requires Inv(w) && OnEndRollback(w, id, clean) == Some(w')
    ensures Inv(w')
  {
    if clean {
      StepCleanRollback(w, id, w');
    } else {
      StepFailedRollback(w, id, w');
    }
  }

  lemma StepAbortSelf(w: World, id: TxId, w': World)
    requires Inv(w) && OnAbortSelf(w, id) == Some(w')
    ensures Inv(w')
  {
    assert Base(w') == Base(w);
    assert forall i :: Pending(w'.recs, i) <==> Pending(w.recs, i);
  }

  lemma StepAbortDead(w: World, id: TxId, w': World)
    requires Inv(w) && OnAbortDead(w, id) == Some(w')
    ensures Inv(w')
  {
    assert Base(w') == Base(w);
    assert forall i :: Pending(w'.recs, i) <==> Pending(w.recs, i);
  }

  lemma StepDropMaterials(w: World, id: TxId, w': World)
    requires Inv(w) && OnDropMaterials(w, id) == Some(w')
    ensures Inv(w')
  {
    assert Base(w') == Base(w);
    assert forall i :: Pending(w'.recs, i) <==> Pending(w.recs, i);
  }

  lemma StepCollectOne(w: World, id: TxId, keep: nat, w': World)
    requires Inv(w) && OnCollectOne(w, id, keep) == Some(w')
    ensures Inv(w')
  {
    assert Base(w') == Base(w);
    assert forall i :: Pending(w'.recs, i) <==> Pending(w.recs, i);
  }

  lemma StepRecoverStart(w: World, id: TxId, force: bool, w': World)
    requires Inv(w) && OnRecoverStart(w, id, force) == Some(w')
    ensures Inv(w')
  {
  }

  lemma StepRestoreOne(w: World, t: string, w': World)
    requires Inv(w) && OnRestoreOne(w, t) == Some(w')
    ensures Inv(w')
  {
    assert Base(w') == Base(w);
    PutKeepsRecoverable(w.files, Base(w), w.recs[w.lock.id], t, w.recs[w.lock.id].before.value[t]);
  }

  lemma StepRecoverEnd(w: World, clean: bool, w': World)
    requires Inv(w) && OnRecoverEnd(w, clean) == Some(w')
    ensures Inv(w')
  {
    assert Base(w') == Base(w);
    if clean {
      NoneLeftPending(w, w.lock.id, RolledBack);
      RestoredIsBase(w, w.lock.id);
    } else {
      assert forall i :: Pending(w'.recs, i) <==> Pending(w.recs, i);
    }
  }

  lemma StepCrash(w: World, id: TxId, w': World)
    requires Inv(w) && OnCrash(w, id) == Some(w')
    ensures Inv(w')
  {
    assert Base(w') == Base(w);
  }

  predicate IsEarly(e: Event) {
    || e.Begin? || e.Read? || e.Stage? || e.TakeLock? || e.Unlock? || e.RecoverLeave?
    || e.Check? || e.Validate? || e.SaveBefore?
  }

  predicate IsWriting(e: Event) {
    || e.SaveIntended? || e.BeginApply? || e.ApplyOne? || e.BeginObserve? || e.Commit?
    || e.BeginRollback? || e.UndoOne? || e.EndRollback?
  }

  lemma StepEarly(w: World, e: Event, w': World)
    requires Inv(w) && Next(w, e) == Some(w') && IsEarly(e)
    ensures Inv(w')
  {
    match e
    case Begin(id, plan) => StepBegin(w, id, plan, w');
    case Read(id, t) => StepRead(w, id, t, w');
    case Stage(id, t) => StepStage(w, id, t, w');
    case TakeLock(id) => StepTakeLock(w, id, w');
    case Unlock(id) => StepUnlock(w, id, w');
    case RecoverLeave => StepRecoverLeave(w, w');
    case Check(id) => StepCheck(w, id, w');
    case Validate(id) => StepValidate(w, id, w');
    case SaveBefore(id) => StepSaveBefore(w, id, w');
  }

  lemma StepWriting(w: World, e: Event, w': World)
    requires Inv(w) && Next(w, e) == Some(w') && IsWriting(e)
    ensures Inv(w')
  {
    match e
    case SaveIntended(id) => StepSaveIntended(w, id, w');
    case BeginApply(id) => StepBeginApply(w, id, w');
    case ApplyOne(id, t) => StepApplyOne(w, id, t, w');
    case BeginObserve(id) => StepBeginObserve(w, id, w');
    case Commit(id) => StepCommit(w, id, w');
    case BeginRollback(id) => StepBeginRollback(w, id, w');
    case UndoOne(id, t) => StepUndoOne(w, id, t, w');
    case EndRollback(id, clean) => StepEndRollback(w, id, clean, w');
  }

  lemma StepLate(w: World, e: Event, w': World)
    requires Inv(w) && Next(w, e) == Some(w') && !IsEarly(e) && !IsWriting(e)
    ensures Inv(w')
  {
    match e
    case AbortSelf(id) => StepAbortSelf(w, id, w');
    case AbortDead(id) => StepAbortDead(w, id, w');
    case DropMaterials(id) => StepDropMaterials(w, id, w');
    case CollectOne(id, keep) => StepCollectOne(w, id, keep, w');
    case RecoverStart(id, force) => StepRecoverStart(w, id, force, w');
    case RestoreOne(t) => StepRestoreOne(w, t, w');
    case RecoverEnd(clean) => StepRecoverEnd(w, clean, w');
    case Crash(id) => StepCrash(w, id, w');
  }

  /** Every event keeps the invariant. */
  lemma Step(w: World, e: Event, w': World)
    requires Inv(w) && Next(w, e) == Some(w')
    ensures Inv(w')
  {
    if IsEarly(e) {
      StepEarly(w, e, w');
    } else if IsWriting(e) {
      StepWriting(w, e, w');
    } else {
      StepLate(w, e, w');
    }
  }
}
