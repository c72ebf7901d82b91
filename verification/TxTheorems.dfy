/** What the transaction protocol promises over every run, with any crashes in it. */
module TxTheorems {
  import opened Common
  import opened TxProtocol
  import opened TxInvariant
  import opened TxGates
  import opened TxEngine

  lemma InitStays(w: World, e: Event, w': World)
    requires Next(w, e) == Some(w')
    ensures w'.init == w.init
  {
  }

  lemma {:induction false} RunKeepsInv(w: World, es: seq<Event>, w': World)
    requires Inv(w) && Exec(w, es) == Some(w')
    ensures Inv(w') && w'.init == w.init
    decreases |es|
  {
    if es != [] {
      var v := Next(w, es[0]).value;
      Step(w, es[0], v);
      InitStays(w, es[0], v);
      RunKeepsInv(v, es[1..], w');
    }
  }

  lemma ReachableInv(w: World)
    requires Reachable(w)
    ensures Inv(w)
  {
    var w0, es :| Initial(w0) && Exec(w0, es) == Some(w);
    assert Replay(w0.init, w0.log) == w0.init;
    assert Inv(w0);
    RunKeepsInv(w0, es, w);
  }

  lemma ReachStep(w: World, e: Event, w': World)
    requires Reachable(w) && Next(w, e) == Some(w')
    ensures Reachable(w')
  {
    var w0, es :| Initial(w0) && Exec(w0, es) == Some(w);
    ExecSnoc(w0, es, e);
  }

  // ---- crash recovery ----

  /** At every crash point the stuck transaction can be recovered without force, to the committed files. */
  lemma CrashIsRecoverable(w: World, id: TxId)
    requires Reachable(w) && Pending(w.recs, id)
    ensures w.recs[id].before.Some? && w.recs[id].before.value.Keys == w.recs[id].targets
    ensures Conflicts(w.files, w.recs[id]) == {}
    ensures Overlay(w.files, w.recs[id].before.value) == Replay(w.init, w.log)
    ensures w.lock == Free ==> OnRecoverStart(w, id, false).Some?
  {
    ReachableInv(w);
  }

  /** Restoring is idempotent: a second `recover` would find nothing left to put back. */
  lemma RestoreTwice(f: Files, before: Image)
    ensures ToRestore(Overlay(f, before), before) == {}
    ensures Overlay(Overlay(f, before), before) == Overlay(f, before)
  {
  }

  // ---- serializability ----

  lemma {:induction false} ReplayIsSerial(init: Files, log: seq<Commitment>)
    requires forall c | c in log :: c.skipped == {}
    ensures Replay(init, log) == SerialReplay(init, log)
  {
    if log != [] {
      var last, rest := log[|log| - 1], log[..|log| - 1];
      ReplayIsSerial(init, rest);
      assert last.plan.targets - last.skipped == last.plan.targets;
    }
  }

  /**
    Whenever no transaction is stuck, whatever interleaving, dirty reads, rollbacks, crashes and
    recoveries came before, the files are those of the committed plans run one at a time in commit order.
   */
  lemma Serializable(w: World)
    requires Reachable(w) && forall id :: !Pending(w.recs, id)
    ensures w.files == Replay(w.init, w.log)
    ensures (forall c | c in w.log :: c.skipped == {}) ==> w.files == SerialReplay(w.init, w.log)
  {
    ReachableInv(w);
    if forall c | c in w.log :: c.skipped == {} {
      ReplayIsSerial(w.init, w.log);
    }
  }

  lemma EffectIsSerialIff(c: Commitment, base: Files)
    requires forall t | t in c.skipped ::
               t in c.plan.targets && Candidate(c.plan, base, t).None? && Look(base, t).Some?
    ensures Effect(c, base) == Serial(c.plan, base) <==> c.skipped == {}
  {
    if t :| t in c.skipped {
      assert Look(Serial(c.plan, base), t) == None;
      assert Look(Effect(c, base), t) == Look(base, t);
    } else {
      assert c.plan.targets - c.skipped == c.plan.targets;
    }
  }

  lemma CandidateIsStaged(w: World, id: TxId, t: string)
    requires Inv(w) && Cleared(w, id, Observing) && t in w.mem[id].staged
    ensures Candidate(w.mem[id].plan, Base(w), t) == w.mem[id].staged[t].data
    ensures Look(Base(w), t) == w.mem[id].staged[t].basis && t in w.mem[id].plan.targets
  {
    var m := w.mem[id];
    assert Progress(w.files, Base(w), m, w.recs[id]);
    assert StagedOk(m.plan, m.seen, t, m.staged[t]);
    assert Narrow(m.seen, m.plan.deps(t)) == View(Base(w), m.plan.deps(t));
  }

  /** A commit has its serial effect exactly when no deletion was staged while its file was missing. */
  lemma CommitIsSerialIff(w: World, id: TxId, w': World)
    requires Reachable(w) && OnCommit(w, id) == Some(w')
    ensures w'.files == Serial(w.mem[id].plan, Replay(w.init, w.log))
            <==> forall t | t in w.mem[id].staged :: !Skipped(w.mem[id].staged[t])
  {
    ReachableInv(w);
    var c := CommitmentOf(w.mem[id]);
    forall t | t in c.skipped
      ensures t in c.plan.targets && Candidate(c.plan, Base(w), t).None? && Look(Base(w), t).Some?
    {
      CandidateIsStaged(w, id, t);
    }
    CommitEffect(w, id);
    EffectIsSerialIff(c, Base(w));
    assert c.skipped == {} <==> forall t | t in w.mem[id].staged :: t !in c.skipped;
  }

  // ---- who may write ----

  /** The transaction whose event may write production files. */
  function WriterOf(w: World, e: Event): TxId {
    match e
    case ApplyOne(id, _) => id
    case UndoOne(id, _) => id
    case _ => if w.lock.Free? then 0 else w.lock.id
  }

  lemma WriterIsPending(w: World, e: Event, w': World)
    requires Next(w, e) == Some(w') && w'.files != w.files
    ensures Pending(w.recs, WriterOf(w, e)) && Pending(w'.recs, WriterOf(w, e)) && WriterOf(w, e) in w'.wrote
  {
    if !e.ApplyOne? && !e.UndoOne? && !e.RestoreOne? {
      OnlyWritersWrite(w, e, w');
    }
  }

  lemma OnlyWritersWrite(w: World, e: Event, w': World)
    requires Next(w, e) == Some(w') && !e.ApplyOne? && !e.UndoOne? && !e.RestoreOne?
    ensures w'.files == w.files
  {
  }

  /** Any change of a production file is made by the one transaction that then needs recovery. */
  lemma OnlyThePendingWrites(w: World, e: Event, w': World)
    requires Reachable(w) && Next(w, e) == Some(w') && w'.files != w.files
    ensures var id := WriterOf(w, e);
            Pending(w.recs, id) && Pending(w'.recs, id) && id in w'.wrote && forall j :: Pending(w.recs, j) ==> j == id
  {
    ReachableInv(w);
    WriterIsPending(w, e, w');
  }

  lemma AtMostOneStuck(w: World, i: TxId, j: TxId)
    requires Reachable(w) && Pending(w.recs, i) && Pending(w.recs, j)
    ensures i == j
  {
    ReachableInv(w);
  }

  /** ABORTED means that nothing happened. */
  lemma AbortedNeverWrote(w: World, id: TxId)
    requires Reachable(w) && id in w.recs && w.recs[id].phase == Aborted
    ensures id !in w.wrote
  {
    ReachableInv(w);
  }

  /** Events that leave every existing record alone. */
  predicate SparesRecords(e: Event) {
    e.Begin? || e.Read? || e.Stage? || e.TakeLock? || e.Check? || e.ApplyOne? || e.UndoOne? || e.Unlock?
    || e.RecoverStart? || e.RestoreOne? || e.RecoverLeave? || e.Crash?
  }

  lemma RecordIsSpared(w: World, e: Event, w': World, id: TxId)
    requires w.recs.Keys <= w.issued && Next(w, e) == Some(w') && id in w.recs && SparesRecords(e)
    ensures id in w'.recs && w'.recs[id] == w.recs[id]
  {
  }

  lemma PhaseMoves(w: World, e: Event, w': World, id: TxId)
    requires Next(w, e) == Some(w') && id in w.recs && !SparesRecords(e)
    ensures id in w'.recs ==>
              var p, p' := w.recs[id].phase, w'.recs[id].phase;
              p' == p || Allowed(p, p') || (NeedsRecovery(p) && p' in {RolledBack, RollbackFailed})
    ensures id !in w'.recs ==> Collectable(w.recs[id].phase)
  {
  }

  /** A record changes its phase only by the table, or from a stuck state through `recover`; final states stay. */
  lemma PhasesFollowTheTable(w: World, e: Event, w': World, id: TxId)
    requires Reachable(w) && Next(w, e) == Some(w') && id in w.recs
    ensures id in w'.recs ==>
              var p, p' := w.recs[id].phase, w'.recs[id].phase;
              p' == p || Allowed(p, p') || (NeedsRecovery(p) && p' in {RolledBack, RollbackFailed})
    ensures id !in w'.recs ==> Collectable(w.recs[id].phase)
    ensures Collectable(w.recs[id].phase) && id in w'.recs ==> w'.recs[id].phase == w.recs[id].phase
  {
    ReachableIds(w);
    if SparesRecords(e) {
      RecordIsSpared(w, e, w', id);
    } else {
      PhaseMoves(w, e, w', id);
    }
  }

  lemma ReachableIds(w: World)
    requires Reachable(w)
    ensures w.recs.Keys <= w.issued
  {
    ReachableInv(w);
  }

  // ---- the imperative engine is bound by all of this ----

  /** Whatever an engine did so far is a run of the protocol. */
  lemma EngineIsReachable(e: Engine)
    requires e.Valid() && Initial(e.start)
    ensures Reachable(e.W())
  {
  }

  /**
    After any crash an unforced `recover` of the stuck transaction sees no drift. With readable copies it goes through,
    and if moreover every target can be put back and the services come back it restores the committed files.
   */
  method RecoverStuck(e: Engine, id: TxId, a: Repair, keep: nat) returns (r: RecoverResult)
    requires e.Valid() && Initial(e.start) && Pending(e.recs, id) && e.lock == Free
    modifies e
    ensures e.Valid() && Reachable(e.W())
    ensures r.MaterialsBroken? || r.Recovered?
    ensures (forall t :: a.copies(t)) ==> r.Recovered?
    ensures (forall t :: a.copies(t) && a.writes(t)) && a.settles ==> r == Recovered(true)
    ensures r == Recovered(true) ==> e.files == Replay(e.start.init, e.log) && forall j :: !Pending(e.recs, j)
    ensures r == Recovered(false) ==> Pending(e.recs, id)
  {
    EngineIsReachable(e);
    CrashIsRecoverable(e.W(), id);
    ReachableInv(e.W());
    DriftIsConflicts(e.files, e.recs[id]);
    r := e.Recover(id, false, a, keep);
    EngineIsReachable(e);
    ReachableInv(e.W());
    if r == Recovered(true) {
      assert forall j :: Pending(e.recs, j) ==> j == id || Pending(old(e.recs), j);
    }
  }

  // ---- when a commit succeeds, and what may be forgotten ----

  /**
    With the lock free, `commit` ends COMMITTED exactly under these conditions. Gates that were bad before stop it in
    normal mode only.
   */
  lemma CommitsIff(e: Engine, id: TxId, p: Probe)
    requires id in e.mem
    ensures var m := e.mem[id];
            e.Admits(id, p) && e.Supported(id, p) && e.Verdict(id, p) == Committed <==>
              && (forall j | j in e.recs && j != id ::
                    e.recs[j].phase !in {Applying, Observing, RollingBack, RollbackFailed})
              && (m.staged.Keys != {} || p.actions != [])
              && (forall a, b | a in p.actions && b in p.actions && NamesUnit(a) && NamesUnit(b) && a.unit == b.unit ::
                    a.Stop? <==> b.Stop?)
              && (forall u | u in p.guards :: p.state(u) == Some(p.guards[u]))
              && (p.normal ==> forall g | g in p.base :: p.base[g])
              && (forall t | t in m.staged :: Look(e.files, t) == m.staged[t].basis)
              && (forall t | t in m.seen && t !in m.staged :: Look(e.files, t) == m.seen[t])
              && m.staged.Keys == m.plan.targets && m.seen.Keys == m.plan.sources
              && (forall t | t in m.staged && m.staged[t].data.Some? :: p.valid(t))
              && (forall t | t in m.plan.targets :: p.keeps(t)) && p.indexed && p.noted
              && (forall t | t in m.staged && m.staged[t].data.Some? :: p.writes(t))
              && (forall t | t in m.staged && m.staged[t].data.None? && m.staged[t].existed ::
                    t in e.files && p.writes(t))
              && (forall a | a in p.actions :: p.acts(a))
              && (forall u | u in p.services :: EndsWell(p, u) || WasBadAlready(p, u))
              && (forall g | g in p.after && !p.after[g] :: g in p.base && !p.base[g])
  {
    ConsistentMeaning(p.actions);
    PendingMeaning(e.recs, id);
    if Consistent(p.actions) {
      NoRegressionMeaning(p);
    }
  }

  ghost function Finished(recs: map<TxId, Rec>): set<TxId> {
    set j | j in recs && recs[j].phase in {Committed, RolledBack, Aborted}
  }

  lemma NewerIsAbove(recs: map<TxId, Rec>, j: TxId)
    ensures Newer(recs, j) == |Above(Finished(recs), j)|
  {
    assert Above(Finished(recs), j) == set k | k in recs && k > j && Collectable(recs[k].phase);
  }

  lemma KeptIsHeld(recs: map<TxId, Rec>, keep: nat)
    ensures Finished(recs) * Kept(recs, keep).Keys == Held(Finished(recs), keep)
  {
    forall j | j in Finished(recs) ensures j in Kept(recs, keep) <==> j in Held(Finished(recs), keep) {
      NewerIsAbove(recs, j);
    }
  }

  /** `_gc` forgets only finished transactions, older than each of the `keep` finished ones it leaves. */
  lemma GcForgets(recs: map<TxId, Rec>, keep: nat)
    ensures forall j | j in Kept(recs, keep) :: j in recs && Kept(recs, keep)[j] == recs[j]
    ensures forall j | j in recs && j !in Finished(recs) :: j in Kept(recs, keep)
    ensures |Finished(recs) * Kept(recs, keep).Keys| == if |Finished(recs)| < keep then |Finished(recs)| else keep
    ensures forall j, k | j in recs && j !in Kept(recs, keep) && k in Finished(recs) && k in Kept(recs, keep) :: j < k
  {
    var done := Finished(recs);
    KeptIsHeld(recs, keep);
    HeldCount(done, keep);
    forall j, k | j in recs && j !in Kept(recs, keep) && k in done && k in Kept(recs, keep) ensures j < k {
      assert j in done && j !in done * Kept(recs, keep).Keys && k in done * Kept(recs, keep).Keys;
      HeldIsNewer(done, keep, j, k);
    }
  }

  /** The phases a process may move its own record through, in the order of the source's table. */
  lemma AllowedMoves(a: Phase, b: Phase)
    ensures Allowed(a, b) <==>
              (a, b) in {(Preparing, Validated), (Preparing, Aborted), (Validated, Applying), (Validated, Aborted),
                         (Applying, Observing), (Applying, RollingBack), (Observing, Committed),
                         (Observing, RollingBack), (RollingBack, RolledBack), (RollingBack, RollbackFailed)}
  {
  }

  // ---- `pdg tx abort` takes no lock ----

  /** The abort of another process, decided on a record read earlier: saves ABORTED and drops the materials. */
  ghost function StaleAbort(w: World, id: TxId): World
    requires id in w.recs
  {
    w.(recs := w.recs[id := w.recs[id].(phase := Aborted, before := None)])
  }

  /** The committed files are in place exactly when nothing is left to restore. */
  lemma NothingToRestoreIff(w: World, id: TxId)
    requires Reachable(w) && Pending(w.recs, id)
    ensures w.recs[id].before.Some?
    ensures w.files == Replay(w.init, w.log) <==> ToRestore(w.files, w.recs[id].before.value) == {}
  {
    ReachableInv(w);
    var before := w.recs[id].before.value;
    if ToRestore(w.files, before) == {} {
      RestoredIsBase(w, id);
    } else {
      var t :| t in ToRestore(w.files, before);
      assert Look(Overlay(w.files, before), t) != Look(w.files, t);
    }
  }

  /**
    Landing on a stuck transaction whose owner is gone, it leaves the committed files in place exactly when
    every target still equals its saved copy; otherwise nothing is left that could restore them.
   */
  lemma StaleAbortHarmlessIff(w: World, id: TxId)
    requires Reachable(w) && Pending(w.recs, id) && id !in w.mem
    ensures var w' := StaleAbort(w, id);
            (forall j :: !Pending(w'.recs, j)) && w.recs[id].before.Some?
            && (w'.files == Replay(w'.init, w'.log) <==> ToRestore(w.files, w.recs[id].before.value) == {})
  {
    ReachableInv(w);
    NothingToRestoreIff(w, id);
    var w' := StaleAbort(w, id);
    forall j ensures !Pending(w'.recs, j) {
      assert j != id ==> !Pending(w.recs, j);
    }
  }

  /** While the owner is gone and the record still says PREPARING or VALIDATED, an abort is one more protocol step. */
  lemma GuardedAbortIsSafe(w: World, id: TxId)
    requires Reachable(w) && id in w.recs && id !in w.mem && w.recs[id].phase in {Preparing, Validated}
    ensures Reachable(StaleAbort(w, id))
  {
    var v := SetPhase(w, id, Aborted);
    ReachStep(w, AbortDead(id), v);
    var r := v.recs[id].(before := None);
    assert v.recs[id := r] == StaleAbort(w, id).recs;
    ReachStep(v, DropMaterials(id), StaleAbort(w, id));
  }
}
