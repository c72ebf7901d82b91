/**
  The transaction core as imperative code: `Tx` and `recover` write files and records step by step.
  Ghost field `events` records every durable write, so each method is proved to be a run of the
  protocol, whatever the environment answers (`Probe`, `Repair`), and a crash can fall between any two writes.
 */
module TxEngine {
  import opened Common
  import opened TxProtocol
  import opened TxGates

  /** How `commit` ends: refused before any production write, or a phase of the record. */
  datatype CommitResult = Refused | Ended(phase: Phase)

  /** What the environment will answer while one transaction is recovered. */
  datatype Repair = Repair(
    copies: string -> bool,     // the saved copy of this target is readable and undamaged
    writes: string -> bool,     // this target can be put back
    settles: bool,              // services, sysctl and nft come back as they were
    drops: bool)                // materials that are no longer needed can be deleted

  datatype RecoverResult =
    | NotFound | NothingToDo | MaterialsBroken | Busy
    | Drifted(conflicts: set<string>)
    | Recovered(clean: bool)

  lemma ExecSnoc(w: World, es: seq<Event>, e: Event)
    ensures Exec(w, es + [e]) == match Exec(w, es) case None => None case Some(v) => Next(v, e)
    decreases |es|
  {
    if es == [] {
      assert Exec(w, [e]) == match Next(w, e) case None => None case Some(v) => Exec(v, []);
    } else if Next(w, es[0]).Some? {
      assert (es + [e])[1..] == es[1..] + [e];
      ExecSnoc(Next(w, es[0]).value, es[1..], e);
    }
  }

  /** The target can be written as staged; a deletion of a file that was absent asks for nothing. */
  predicate CanApply(f: Files, t: string, s: Staged, p: Probe) {
    (s.data.None? && !s.existed) || (p.writes(t) && (s.data.Some? || t in f))
  }

  /** `f` is `f0` with what `img` says at the names in `done` that `ok` answers for. */
  ghost predicate Patched(f0: Files, f: Files, img: Image, done: set<string>, ok: string -> bool) {
    forall t :: Look(f, t) == if t in done && t in img && ok(t) then img[t] else Look(f0, t)
  }

  lemma PatchOne(f0: Files, f: Files, img: Image, done: set<string>, ok: string -> bool, t: string)
    requires Patched(f0, f, img, done, ok) && t in img
    ensures Patched(f0, if ok(t) then Put(f, t, img[t]) else f, img, done + {t}, ok)
  {
  }

  /** The staged targets in `done` are written as staged, every one of them can be, and nothing else has changed. */
  ghost predicate AppliedSoFar(f0: Files, f: Files, staged: map<string, Staged>, done: set<string>, p: Probe) {
    && (forall t | t !in done :: Look(f, t) == Look(f0, t))
    && (forall t | t in done :: t in staged && CanApply(f0, t, staged[t], p)
                                && Look(f, t) == Look(ApplyOneFile(f0, t, staged[t]), t))
  }

  lemma ApplyMore(f0: Files, f: Files, staged: map<string, Staged>, done: set<string>, p: Probe, t: string)
    requires AppliedSoFar(f0, f, staged, done, p) && t in staged && t !in done
    ensures CanApply(f, t, staged[t], p) <==> CanApply(f0, t, staged[t], p)
    ensures CanApply(f0, t, staged[t], p) ==>
              AppliedSoFar(f0, ApplyOneFile(f, t, staged[t]), staged, done + {t}, p)
  {
    assert Look(f, t) == Look(f0, t);
  }

  /** Every target holds what the transaction meant to leave there, and no other file has changed. */
  ghost predicate Landed(f0: Files, f: Files, staged: map<string, Staged>) {
    forall t :: Look(f, t) == if t in staged then Outcome(staged[t]) else Look(f0, t)
  }

  /** Only targets that could not be put back may differ from before. */
  ghost predicate BackUpTo(f0: Files, f: Files, targets: set<string>, p: Probe) {
    forall t | t !in targets || p.undoes(t) :: Look(f, t) == Look(f0, t)
  }

  lemma PlanIsEnough(f: Files, before: Image, a: Repair)
    ensures (forall t | t in ToRestore(f, before) :: a.writes(t)) <==>
              forall t | t in before && Look(f, t) != before[t] :: a.writes(t)
  {
  }

  /** Restoring only what differs has restored everything that can be. */
  lemma WholePatched(f0: Files, f: Files, before: Image, a: Repair)
    requires Patched(f0, f, before, ToRestore(f0, before), a.writes)
    ensures Patched(f0, f, before, before.Keys, a.writes)
    ensures (forall t | t in ToRestore(f0, before) :: a.writes(t)) ==> f == Overlay(f0, before)
  {
    if forall t | t in ToRestore(f0, before) :: a.writes(t) {
      forall t ensures Look(f, t) == Look(Overlay(f0, before), t) {
        assert t in before && t !in ToRestore(f0, before) ==> Look(f0, t) == before[t];
      }
      SameFiles(f, Overlay(f0, before));
    }
  }

  /** Files that hold neither what they held before the transaction nor what it meant to write. */
  ghost function Drift(f: Files, r: Rec): set<string>
    requires r.before.Some?
  {
    set t | t in r.before.value && Look(f, t) != r.before.value[t]
            && !(t in r.intended && Look(f, t) == r.intended[t]) && (t in f || t in r.intended)
  }

  lemma DriftIsConflicts(f: Files, r: Rec)
    requires r.before.Some?
    ensures Drift(f, r) == Conflicts(f, r)
  {
  }

  /** The copy that is needed for this target is missing or damaged. */
  ghost predicate BrokenAt(f: Files, r: Rec, force: bool, a: Repair, t: string)
    requires r.before.Some?
  {
    t in r.before.value && Look(f, t) != r.before.value[t] && r.before.value[t].Some? && !a.copies(t)
    && (force || t !in Drift(f, r))
  }

  ghost predicate Broken(f: Files, r: Rec, force: bool, a: Repair)
    requires r.before.Some?
  {
    exists t :: BrokenAt(f, r, force, a, t)
  }

  lemma ConsistentMeaning(actions: seq<Action>)
    ensures Consistent(actions) <==>
              forall a, b | a in actions && b in actions && NamesUnit(a) && NamesUnit(b) && a.unit == b.unit ::
                a.Stop? <==> b.Stop?
  {
    if Consistent(actions) {
      forall a, b | a in actions && b in actions && NamesUnit(a) && NamesUnit(b) && a.unit == b.unit
        ensures a.Stop? <==> b.Stop?
      {
        var i :| 0 <= i < |actions| && actions[i] == a;
        var j :| 0 <= j < |actions| && actions[j] == b;
        assert WantOf(actions[i]) == WantOf(actions[j]);
      }
    }
  }

  lemma PendingMeaning(recs: map<TxId, Rec>, id: TxId)
    ensures OthersPending(recs, id) <==>
              !forall j | j in recs && j != id :: recs[j].phase !in {Applying, Observing, RollingBack, RollbackFailed}
  {
    if !OthersPending(recs, id) {
      forall j | j in recs && j != id ensures recs[j].phase !in {Applying, Observing, RollingBack, RollbackFailed} {
        assert !Pending(recs, j);
      }
    }
  }

  lemma AllPutBack(f0: Files, f: Files, before: Image, ok: string -> bool)
    requires Patched(f0, f, before, before.Keys, ok) && forall t | t in before :: ok(t)
    ensures ToRestore(f, before) == {}
  {
  }

  class Engine {
    var files: Files
    var recs: map<TxId, Rec>
    var mem: map<TxId, Mem>
    var lock: Lock

    ghost var start: World
    ghost var issued: set<TxId>
    ghost var log: seq<Commitment>
    ghost var wrote: set<TxId>
    ghost var events: seq<Event>

    ghost function W(): World reads this {
      World(start.init, files, recs, mem, lock, issued, log, wrote)
    }

    /** The current world is what the recorded writes make of the starting world. */
    ghost predicate Valid() reads this {
      Exec(start, events) == Some(W())
    }

    ghost predicate Did(w: World, e: Event) reads this {
      Valid() && Next(w, e) == Some(W())
    }

    /** A new transaction: a PREPARING record and a live process. */
    method New(id: TxId, plan: Plan)
      requires Valid() && id !in issued && WellFormed(plan)
      modifies this`recs, this`mem, this`issued, this`events
      ensures Did(old(W()), Begin(id, plan))
    {
      ghost var w := W();
      recs := recs[id := Rec(Preparing, {}, None, map[])];
      mem := mem[id := Mem(plan, map[], map[], false, {})];
      issued := issued + {id};
      Note(w, Begin(id, plan));
    }

    /** `read_for_update` and `watch`: remember what was seen, under no lock. */
    method ReadForUpdate(id: TxId, t: string) returns (content: Option<Bytes>)
      requires Valid() && OnRead(W(), id, t).Some?
      modifies this`mem, this`events
      ensures Did(old(W()), Read(id, t)) && content == Look(files, t) && mem[id].seen[t] == content
    {
      ghost var w := W();
      content := Look(files, t);
      mem := mem[id := mem[id].(seen := mem[id].seen[t := content])];
      Note(w, Read(id, t));
    }

    /** `stage`: the precondition is the remembered read, or else the file as it is now. */
    method StageTarget(id: TxId, t: string)
      requires Valid() && OnStage(W(), id, t).Some?
      modifies this`mem, this`events
      ensures Did(old(W()), Stage(id, t))
      ensures mem[id].staged[t].basis == (if t in mem[id].seen then mem[id].seen[t] else Look(files, t))
      ensures mem[id].staged[t].existed <==> t in files
    {
      ghost var w := W();
      var m := mem[id];
      var basis := if t in m.seen then m.seen[t] else Look(files, t);
      var s := Staged(m.plan.make(t, Narrow(m.seen, m.plan.deps(t))), basis, t in files);
      mem := mem[id := m.(staged := m.staged[t := s])];
      Note(w, Stage(id, t));
    }

    /** `_set_state`: refuses jumps outside the table, otherwise saves the record. */
    method SetState(id: TxId, new_: Phase, ghost e: Event) returns (ok: bool)
      requires Valid() && id in recs
      requires Allowed(recs[id].phase, new_) ==>
                 Next(W(), e) == Some(SetPhase(W(), id, new_))
      modifies this`recs, this`events
      ensures Valid()
      ensures ok == Allowed(old(recs)[id].phase, new_)
      ensures ok ==> W() == SetPhase(old(W()), id, new_) && events == old(events) + [e]
      ensures !ok ==> W() == old(W()) && events == old(events)
    {
      ok := Allowed(recs[id].phase, new_);
      if ok {
        ExecSnoc(start, events, e);
        recs := recs[id := recs[id].(phase := new_)];
        events := events + [e];
      }
    }

    /** `_apply_one`: replace the file, remove it, or leave an absent deletion alone. */
    method ApplyTarget(id: TxId, t: string)
      requires Valid() && OnApplyOne(W(), id, t).Some?
      modifies this`files, this`mem, this`wrote, this`events
      ensures events == old(events) + [ApplyOne(id, t)]
      ensures Did(old(W()), ApplyOne(id, t))
    {
      ExecSnoc(start, events, ApplyOne(id, t));
      var m := mem[id];
      var s := m.staged[t];
      match s.data {
        case None =>
          if s.existed {
            wrote := wrote + {id};
            SameFiles(map u | u in files && u != t :: files[u], Put(files, t, None));
            files := map u | u in files && u != t :: files[u];
          }
        case Some(bytes) =>
          wrote := wrote + {id};
          SameFiles(files[t := bytes], Put(files, t, Some(bytes)));
          files := files[t := bytes];
      }
      mem := mem[id := m.(applied := m.applied + {t})];
      events := events + [ApplyOne(id, t)];
    }

    /** A durable write of records alone: the common tail of the methods below. */
    ghost method Note(w: World, e: Event)
      requires Exec(start, events) == Some(w) && Next(w, e) == Some(W())
      modifies this`events
      ensures events == old(events) + [e] && Valid()
    {
      ExecSnoc(start, events, e);
      events := events + [e];
    }

    /** The copies of `_save_before`. */
    method CopyTargets(id: TxId, p: Probe) returns (before: Image, ok: bool)
      requires id in mem
      ensures ok <==> forall t | t in mem[id].plan.targets :: p.keeps(t)
      ensures ok ==> before == View(files, mem[id].plan.targets)
    {
      before, ok := map[], true;
      var todo := mem[id].plan.targets;
      while todo != {}
        invariant todo <= mem[id].plan.targets
        invariant before == View(files, mem[id].plan.targets - todo)
        invariant forall t | t in mem[id].plan.targets && t !in todo :: p.keeps(t)
      {
        var t :| t in todo;
        if !p.keeps(t) { return before, false; }
        before := before[t := Look(files, t)];
        todo := todo - {t};
      }
    }

    /** `_save_before`: the before-image first, then what the transaction means to write. */
    method SaveMaterials(id: TxId, p: Probe) returns (ok: bool)
      requires Valid() && Cleared(W(), id, Validated)
      modifies this`recs, this`events
      ensures Valid() && Cleared(W(), id, Validated)
      ensures recs.Keys == old(recs).Keys && forall j | j in recs && j != id :: recs[j] == old(recs)[j]
      ensures old(events) <= events
      ensures ok <==> (forall t | t in mem[id].plan.targets :: p.keeps(t)) && p.indexed && p.noted
      ensures ok ==> recs[id] == Rec(Validated, mem[id].plan.targets, Some(View(files, mem[id].plan.targets)),
                                     Intended(mem[id]))
    {
      var before, copied := CopyTargets(id, p);
      if !copied || !p.indexed { return false; }
      ghost var w := W();
      recs := recs[id := recs[id].(targets := mem[id].plan.targets, before := Some(before))];
      Note(w, SaveBefore(id));
      if !p.noted { return false; }
      ghost var v := W();
      recs := recs[id := recs[id].(intended := Intended(mem[id]))];
      Note(v, SaveIntended(id));
      return true;
    }

    /** One round of the write loop below: the file to delete may be gone, and the write may fail. */
    method ApplyNext(id: TxId, t: string, p: Probe) returns (ok: bool)
      requires Valid() && Cleared(W(), id, Applying) && t in mem[id].staged && t !in mem[id].applied
      modifies this`files, this`mem, this`wrote, this`events
      ensures Valid() && Cleared(W(), id, Applying) && mem.Keys == old(mem).Keys
      ensures mem[id] == old(mem)[id].(applied := old(mem)[id].applied + if ok then {t} else {})
      ensures ok <==> CanApply(old(files), t, mem[id].staged[t], p)
      ensures files == if ok then ApplyOneFile(old(files), t, mem[id].staged[t]) else old(files)
    {
      var s := mem[id].staged[t];
      if s.data.Some? || s.existed {
        if s.data.None? && t !in files { return false; }
        if !p.writes(t) { return false; }
      }
      ApplyTarget(id, t);
      ok := true;
    }

    /** The write loop of `_commit_locked` 6): stops at the first target that cannot be written. */
    method ApplyAll(id: TxId, p: Probe) returns (ok: bool)
      requires Valid() && Cleared(W(), id, Applying) && mem[id].applied == {}
      modifies this`files, this`mem, this`wrote, this`events
      ensures Valid() && Cleared(W(), id, Applying)
      ensures mem.Keys == old(mem).Keys && mem[id] == old(mem)[id].(applied := mem[id].applied)
      ensures AppliedSoFar(old(files), files, mem[id].staged, mem[id].applied, p)
      ensures ok <==> forall t | t in mem[id].staged :: CanApply(old(files), t, mem[id].staged[t], p)
      ensures ok ==> mem[id].applied == mem[id].staged.Keys
    {
      var todo := mem[id].staged.Keys;
      while todo != {}
        invariant Valid() && Cleared(W(), id, Applying)
        invariant mem.Keys == old(mem).Keys && mem[id] == old(mem)[id].(applied := mem[id].applied)
        invariant todo <= mem[id].staged.Keys && mem[id].applied == mem[id].staged.Keys - todo
        invariant AppliedSoFar(old(files), files, mem[id].staged, mem[id].applied, p)
      {
        var t :| t in todo;
        ApplyMore(old(files), files, mem[id].staged, mem[id].applied, p, t);
        var written := ApplyNext(id, t, p);
        if !written { return false; }
        todo := todo - {t};
      }
      return true;
    }

    method UndoTarget(id: TxId, t: string)
      requires Valid() && Cleared(W(), id, RollingBack) && recs[id].before.Some? && t in recs[id].before.value
      modifies this`files, this`wrote, this`events
      ensures Valid() && files == Put(old(files), t, recs[id].before.value[t])
    {
      ghost var w := W();
      files := Put(files, t, recs[id].before.value[t]);
      wrote := wrote + {id};
      Note(w, UndoOne(id, t));
    }

    /** The restore loop of `_rollback`: a target that cannot be written is skipped and reported. */
    method UndoAll(id: TxId, p: Probe) returns (failed: bool)
      requires Valid() && Cleared(W(), id, RollingBack) && recs[id].before.Some?
      modifies this`files, this`wrote, this`events
      ensures Valid()
      ensures failed <==> exists t :: t in recs[id].before.value && !p.undoes(t)
      ensures Patched(old(files), files, recs[id].before.value, recs[id].before.value.Keys, p.undoes)
    {
      var before := recs[id].before.value;
      failed := false;
      var todo := before.Keys;
      while todo != {}
        invariant Valid()
        invariant todo <= before.Keys
        invariant failed <==> exists t :: t in before && t !in todo && !p.undoes(t)
        invariant Patched(old(files), files, before, before.Keys - todo, p.undoes)
      {
        var t :| t in todo;
        PatchOne(old(files), files, before, before.Keys - todo, p.undoes, t);
        assert before.Keys - (todo - {t}) == before.Keys - todo + {t};
        if p.undoes(t) {
          UndoTarget(id, t);
        } else {
          failed := true;
        }
        todo := todo - {t};
      }
      assert before.Keys - todo == before.Keys;
    }

    /** Into ROLLING_BACK, then the restore loop. */
    method PutEverythingBack(id: TxId, p: Probe) returns (failed: bool)
      requires Valid() && (Cleared(W(), id, Applying) || Cleared(W(), id, Observing))
      requires recs[id].before.Some?
      modifies this`files, this`wrote, this`recs, this`events
      ensures Valid() && Cleared(W(), id, RollingBack)
      ensures recs == old(recs)[id := old(recs)[id].(phase := RollingBack)]
      ensures failed <==> exists t :: t in recs[id].before.value && !p.undoes(t)
      ensures Patched(old(files), files, recs[id].before.value, recs[id].before.value.Keys, p.undoes)
    {
      var _ := SetState(id, RollingBack, BeginRollback(id));
      failed := UndoAll(id, p);
    }

    method CloseRollback(id: TxId, clean: bool) returns (result: Phase)
      requires Valid() && Cleared(W(), id, RollingBack) && recs[id].before.Some?
      requires clean ==> ToRestore(files, recs[id].before.value) == {}
      modifies this`recs, this`events
      ensures Valid() && Holds(W(), id, result) && recs == old(recs)[id := old(recs)[id].(phase := result)]
      ensures result == if clean then RolledBack else RollbackFailed
    {
      result := if clean then RolledBack else RollbackFailed;
      var _ := SetState(id, result, EndRollback(id, clean));
    }

    /** `_rollback`: put every before-image back, then verify file by file. */
    method Rollback(id: TxId, p: Probe) returns (result: Phase)
      requires Valid() && (Cleared(W(), id, Applying) || Cleared(W(), id, Observing))
      requires recs[id].before.Some?
      modifies this`files, this`wrote, this`recs, this`events
      ensures Valid() && Holds(W(), id, result)
      ensures recs == old(recs)[id := old(recs)[id].(phase := result)]
      ensures result == if p.settles && forall t | t in recs[id].before.value :: p.undoes(t)
                        then RolledBack else RollbackFailed
      ensures Patched(old(files), files, recs[id].before.value, recs[id].before.value.Keys, p.undoes)
    {
      var before := recs[id].before.value;
      var failed := PutEverythingBack(id, p);
      if !failed {
        AllPutBack(old(files), files, before, p.undoes);
      }
      if !p.settles { failed := true; }           // the runtime state did not come back
      result := CloseRollback(id, !failed && ToRestore(files, before) == {});
    }

    /** `pending_recovery`: scans every record. */
    method PendingRecovery(exclude: TxId) returns (pending: bool)
      ensures pending <==> OthersPending(recs, exclude)
    {
      var todo := recs.Keys;
      while todo != {}
        invariant todo <= recs.Keys
        invariant forall j | j in recs && j !in todo && j != exclude :: !Pending(recs, j)
      {
        var j :| j in todo;
        if j != exclude && NeedsRecovery(recs[j].phase) {
          assert Pending(recs, j);
          return true;
        }
        todo := todo - {j};
      }
      return false;
    }

    /** Steps 3) and 3b): every staged target and every watched file is compared again. */
    method PreconditionsHold(id: TxId) returns (ok: bool)
      requires id in mem
      ensures ok <==> Unchanged(files, mem[id])
    {
      var m := mem[id];
      var todo := m.staged.Keys;
      while todo != {}
        invariant todo <= m.staged.Keys
        invariant forall t | t in m.staged && t !in todo :: Look(files, t) == m.staged[t].basis
      {
        var t :| t in todo;
        if Look(files, t) != m.staged[t].basis { return false; }
        todo := todo - {t};
      }
      var watches := m.seen.Keys - m.staged.Keys;
      while watches != {}
        invariant watches <= m.seen.Keys - m.staged.Keys
        invariant forall t | t in m.seen && t !in m.staged && t !in watches :: Look(files, t) == m.seen[t]
      {
        var t :| t in watches;
        if Look(files, t) != m.seen[t] { return false; }
        watches := watches - {t};
      }
      return true;
    }

    /** No reason of steps 0) to 3b) to refuse. */
    ghost predicate Admits(id: TxId, p: Probe) reads this
      requires id in mem
    {
      && !OthersPending(recs, id) && !(mem[id].staged == map[] && p.actions == [])
      && Consistent(p.actions) && GuardsHold(p) && (p.normal ==> forall g | g in p.base :: p.base[g])
      && Unchanged(files, mem[id])
      && mem[id].staged.Keys == mem[id].plan.targets && mem[id].seen.Keys == mem[id].plan.sources
    }

    /** The validators and the copies of steps 4) and 5) raise no objection either. */
    ghost predicate Supported(id: TxId, p: Probe) reads this
      requires id in mem
    {
      && (forall t | t in mem[id].staged && mem[id].staged[t].data.Some? :: p.valid(t))
      && (forall t | t in mem[id].plan.targets :: p.keeps(t)) && p.indexed && p.noted
    }

    /**
      Steps 0) to 3b) of `_commit_locked`. A transaction is let on exactly if nothing is stuck, there is something
      to do, no two actions contradict each other, guarded services are as they were, in normal mode every gate
      is good, everything that was read is unchanged, and the plan is carried out in full.
     */
    method Clear(id: TxId, p: Probe) returns (ok: bool)
      requires Valid() && Holds(W(), id, Preparing) && !mem[id].checked
      modifies this`mem, this`events
      ensures Valid()
      ensures mem == if ok then old(mem)[id := old(mem)[id].(checked := true)] else old(mem)
      ensures ok <==> old(Admits(id, p))
      ensures ok <==>
                && (forall j | j in recs && j != id ::
                      recs[j].phase !in {Applying, Observing, RollingBack, RollbackFailed})
                && (mem[id].staged.Keys != {} || p.actions != [])
                && (forall a, b | a in p.actions && b in p.actions && NamesUnit(a) && NamesUnit(b)
                                  && a.unit == b.unit ::
                      a.Stop? <==> b.Stop?)
                && (forall u | u in p.guards :: p.state(u) == Some(p.guards[u]))
                && (p.normal ==> forall g | g in p.base :: p.base[g])
                && (forall t | t in mem[id].staged :: Look(files, t) == mem[id].staged[t].basis)
                && (forall t | t in mem[id].seen && t !in mem[id].staged :: Look(files, t) == mem[id].seen[t])
                && mem[id].staged.Keys == mem[id].plan.targets && mem[id].seen.Keys == mem[id].plan.sources
    {
      ConsistentMeaning(p.actions);
      PendingMeaning(recs, id);
      var pending := PendingRecovery(id);
      if pending { return false; }
      if mem[id].staged == map[] && p.actions == [] { return false; }
      var bad := ActionConflicts(p.actions);
      if bad { return false; }
      var guarded := CheckGuards(p);
      if !guarded { return false; }
      if p.normal && exists g | g in p.base :: !p.base[g] { return false; }
      var same := PreconditionsHold(id);
      if !same || mem[id].staged.Keys != mem[id].plan.targets || mem[id].seen.Keys != mem[id].plan.sources {
        return false;
      }
      ghost var w := W();
      mem := mem[id := mem[id].(checked := true)];
      Note(w, Check(id));
      ok := true;
    }

    /** Step 4): every candidate passes its validators; a deletion has none. */
    method ValidateAll(id: TxId, p: Probe) returns (ok: bool)
      requires id in mem
      ensures ok <==> forall t | t in mem[id].staged && mem[id].staged[t].data.Some? :: p.valid(t)
    {
      var todo := mem[id].staged.Keys;
      while todo != {}
        invariant todo <= mem[id].staged.Keys
        invariant forall t | t in mem[id].staged && t !in todo && mem[id].staged[t].data.Some? :: p.valid(t)
      {
        var t :| t in todo;
        if mem[id].staged[t].data.Some? && !p.valid(t) { return false; }
        todo := todo - {t};
      }
      ok := true;
    }

    /** Steps 4) and 5): validators, then the materials. */
    method Prepare(id: TxId, p: Probe) returns (ok: bool)
      requires Valid() && Cleared(W(), id, Preparing)
      modifies this`recs, this`events
      ensures Valid()
      ensures recs.Keys == old(recs).Keys && forall j | j in recs && j != id :: recs[j] == old(recs)[j]
      ensures ok <==> Supported(id, p)
      ensures recs[id].phase in {Preparing, Validated}
      ensures ok ==> Cleared(W(), id, Validated)
                     && recs[id] == Rec(Validated, mem[id].plan.targets, Some(View(files, mem[id].plan.targets)),
                                        Intended(mem[id]))
    {
      var accepted := ValidateAll(id, p);
      if !accepted { return false; }
      var _ := SetState(id, Validated, Validate(id));
      ok := SaveMaterials(id, p);
    }

    /** Steps 0) to 5) of `_commit_locked`: every reason to refuse comes before any production write. */
    method Admit(id: TxId, p: Probe) returns (ok: bool)
      requires Valid() && Holds(W(), id, Preparing) && mem[id].applied == {} && !mem[id].checked
      modifies this`mem, this`recs, this`events
      ensures Valid()
      ensures ok <==> old(Admits(id, p) && Supported(id, p))
      ensures recs.Keys == old(recs).Keys && forall j | j in recs && j != id :: recs[j] == old(recs)[j]
      ensures id in mem && mem[id].(checked := false) == old(mem)[id]
      ensures !ok ==> recs[id].phase in {Preparing, Validated}
      ensures ok ==> Cleared(W(), id, Validated) && Admissible(id, p)
    {
      ok := Clear(id, p);
      if ok {
        ok := Prepare(id, p);
      }
    }

    /** What holds between admission and the first production write. */
    ghost predicate Admissible(id: TxId, p: Probe) reads this
      requires id in mem && id in recs
    {
      && Consistent(p.actions) && GuardsHold(p)
      && (p.normal ==> forall g | g in p.base :: p.base[g])
      && Unchanged(files, mem[id])
      && mem[id].staged.Keys == mem[id].plan.targets
      && recs[id].before == Some(View(files, mem[id].plan.targets))
      && recs[id].intended == Intended(mem[id])
    }

    /** Into APPLYING, then the write loop. */
    method WriteTargets(id: TxId, p: Probe) returns (ok: bool)
      requires Valid() && Cleared(W(), id, Validated) && mem[id].applied == {}
      requires recs[id].before.Some? && recs[id].intended == Intended(mem[id])
      modifies this`files, this`mem, this`wrote, this`recs, this`events
      ensures Valid() && Cleared(W(), id, Applying) && recs == old(recs)[id := old(recs)[id].(phase := Applying)]
      ensures mem[id] == old(mem)[id].(applied := mem[id].applied)
      ensures AppliedSoFar(old(files), files, mem[id].staged, mem[id].applied, p)
      ensures ok <==> forall t | t in mem[id].staged :: CanApply(old(files), t, mem[id].staged[t], p)
      ensures ok ==> mem[id].applied == mem[id].staged.Keys
    {
      var _ := SetState(id, Applying, BeginApply(id));
      ok := ApplyAll(id, p);
    }

    /** Every write and every service action succeeds. */
    ghost predicate Carries(id: TxId, p: Probe) reads this
      requires id in mem
    {
      && (forall t | t in mem[id].staged :: CanApply(files, t, mem[id].staged[t], p))
      && (forall a | a in p.actions :: p.acts(a))
    }

    /** Writes, service actions and observation; stops at the first failure. */
    method GoForward(id: TxId, p: Probe) returns (fine: bool)
      requires Valid() && Cleared(W(), id, Validated) && Admissible(id, p) && mem[id].applied == {} && Answers(p)
      modifies this`files, this`mem, this`wrote, this`recs, this`events
      ensures Valid()
      ensures Cleared(W(), id, Observing) || (!fine && Cleared(W(), id, Applying))
      ensures recs == old(recs)[id := old(recs)[id].(phase := recs[id].phase)]
      ensures mem[id].(applied := {}) == old(mem)[id]
      ensures fine <==> old(Carries(id, p)) && NoRegression(p)
      ensures OnlyStaged(old(files), files, mem[id].staged)
      ensures fine ==> Landed(old(files), files, mem[id].staged)
    {
      fine := WriteTargets(id, p);
      OnlyStagedSoFar(old(files), files, mem[id].staged, mem[id].applied, p);
      if fine { fine := DoActions(p); }
      if fine {
        AppliedHasLanded(old(files), files, mem[id], p);
        var _ := SetState(id, Observing, BeginObserve(id));
        fine := Observe(p);
      }
    }

    /** The verdict of step 6) follows from what the environment answers. */
    ghost function Verdict(id: TxId, p: Probe): Phase reads this
      requires id in mem
    {
      if Carries(id, p) && NoRegression(p) then Committed
      else if p.settles && forall t | t in mem[id].plan.targets :: p.undoes(t) then RolledBack
      else RollbackFailed
    }

    method RecordCommit(id: TxId)
      requires Valid() && Cleared(W(), id, Observing)
      modifies this`recs, this`log, this`events
      ensures Valid() && recs == old(recs)[id := old(recs)[id].(phase := Committed)]
      ensures log == old(log) + [CommitmentOf(mem[id])]
    {
      ghost var v := W();
      recs := recs[id := recs[id].(phase := Committed)];
      log := log + [CommitmentOf(mem[id])];
      Note(v, Event.Commit(id));
    }

    /** A rollback to `f0`, the files before the first write. */
    method Retreat(id: TxId, p: Probe, ghost f0: Files) returns (result: Phase)
      requires Valid() && (Cleared(W(), id, Applying) || Cleared(W(), id, Observing))
      requires recs[id].before == Some(View(f0, mem[id].staged.Keys)) && OnlyStaged(f0, files, mem[id].staged)
      modifies this`files, this`wrote, this`recs, this`events
      ensures Valid() && Holds(W(), id, result)
      ensures recs == old(recs)[id := old(recs)[id].(phase := result)]
      ensures result == if p.settles && forall t | t in mem[id].staged.Keys :: p.undoes(t)
                        then RolledBack else RollbackFailed
      ensures BackUpTo(f0, files, mem[id].staged.Keys, p) && (result == RolledBack ==> files == f0)
    {
      ghost var f1 := files;
      result := Rollback(id, p);
      PutBackIsBack(f0, f1, files, mem[id].staged, p);
    }

    /** Step 6): write, act, observe; then commit or roll back. */
    method Execute(id: TxId, p: Probe) returns (result: Phase)
      requires Valid() && Cleared(W(), id, Validated) && Admissible(id, p) && mem[id].applied == {} && Answers(p)
      modifies this`files, this`mem, this`wrote, this`recs, this`log, this`events
      ensures Valid() && Holds(W(), id, result)
      ensures recs == old(recs)[id := old(recs)[id].(phase := result)]
      ensures result == old(Verdict(id, p))
      ensures log == old(log) + if result == Committed then [CommitmentOf(old(mem)[id])] else []
      ensures result == Committed ==> Landed(old(files), files, old(mem)[id].staged)
      ensures result == RolledBack ==> files == old(files)
      ensures result == RollbackFailed ==> BackUpTo(old(files), files, old(mem)[id].plan.targets, p)
    {
      var fine := GoForward(id, p);
      if fine {
        RecordCommit(id);
        result := Committed;
      } else {
        result := Retreat(id, p, old(files));
      }
    }

    /** What a commit that was not refused leaves behind, by its verdict. */
    ghost predicate Left(f0: Files, m: Mem, log0: seq<Commitment>, phase: Phase, p: Probe) reads this {
      && phase in {Committed, RolledBack, RollbackFailed}
      && log == log0 + (if phase == Committed then [CommitmentOf(m)] else [])
      && (phase == Committed ==> Landed(f0, files, m.staged))
      && (phase == RolledBack ==> files == f0)
      && (phase == RollbackFailed ==> BackUpTo(f0, files, m.plan.targets, p))
    }

    /** The locked part of `commit`; `p` is what the environment answers. */
    method CommitLocked(id: TxId, p: Probe) returns (out: CommitResult)
      requires Valid() && Holds(W(), id, Preparing) && Answers(p)
      requires mem[id].applied == {} && !mem[id].checked
      modifies this`files, this`mem, this`wrote, this`recs, this`log, this`events
      ensures Valid() && id in mem && recs.Keys == old(recs).Keys && lock == ByTx(id)
      ensures forall j | j in recs && j != id :: recs[j] == old(recs)[j]
      ensures out == if old(Admits(id, p) && Supported(id, p)) then Ended(old(Verdict(id, p))) else Refused
      ensures out.Refused? ==> files == old(files) && log == old(log) && recs[id].phase in {Preparing, Validated}
      ensures out.Ended? ==> recs[id].phase == out.phase && Left(old(files), old(mem)[id], old(log), out.phase, p)
      ensures out.Ended? ==> recs[id].before == Some(View(old(files), old(mem)[id].plan.targets))
    {
      var ok := Admit(id, p);
      if !ok { return Refused; }
      var r := Execute(id, p);
      return Ended(r);
    }

    /** `_Lock.__enter__`: never waits. */
    method TryLock(id: TxId) returns (ok: bool)
      requires Valid() && id in mem
      modifies this`lock, this`events
      ensures Valid() && (ok <==> old(lock) == Free)
      ensures lock == if ok then ByTx(id) else old(lock)
    {
      ok := lock == Free;
      if ok {
        ghost var w := W();
        lock := ByTx(id);
        Note(w, TakeLock(id));
      }
    }

    method Release(id: TxId)
      requires Valid() && lock == ByTx(id) && id in mem
      requires id in recs ==> recs[id].phase !in {Applying, Observing, RollingBack}
      modifies this`lock, this`mem, this`events
      ensures Valid() && lock == Free && mem == old(mem)[id := old(mem)[id].(checked := false)]
    {
      ghost var w := W();
      mem := mem[id := mem[id].(checked := false)];
      lock := Free;
      Note(w, Unlock(id));
    }

    /** `_abort` and `abort_unstarted`: only for a transaction that has not touched production. */
    method AbortUnstarted(id: TxId, drops: bool) returns (done: bool)
      requires Valid() && id in mem && id in recs && lock != ByTx(id)
      modifies this`recs, this`events
      ensures Valid() && (done <==> old(recs)[id].phase == Preparing || old(recs)[id].phase == Validated)
      ensures done ==> recs == old(recs)[id := old(recs)[id].(
                                           phase := Aborted, before := if drops then None else old(recs)[id].before)]
      ensures !done ==> recs == old(recs)
    {
      done := recs[id].phase in {Preparing, Validated};
      if done {
        ghost var w := W();
        recs := recs[id := recs[id].(phase := Aborted)];
        Note(w, AbortSelf(id));
        DropBefore(id, drops);
      }
    }

    /**
      `commit`: take the lock, run, release it; a refused transaction ends ABORTED outside the lock. How it ends
      follows from the state it finds and what the environment answers.
     */
    method Commit(id: TxId, p: Probe, keep: nat) returns (out: CommitResult)
      requires Valid() && id in mem && id in recs && recs[id].phase == Preparing && Answers(p)
      requires mem[id].applied == {} && !mem[id].checked && lock != ByTx(id)
      modifies this`files, this`mem, this`wrote, this`recs, this`log, this`lock, this`events
      ensures Valid() && lock == old(lock)
      ensures out == if old(lock) == Free && old(Admits(id, p) && Supported(id, p))
                     then Ended(old(Verdict(id, p))) else Refused
      ensures forall j | j in recs && j != id :: j in old(recs) && recs[j] == old(recs)[j]
      ensures out.Refused? ==> files == old(files) && log == old(log) && id in recs && recs[id].phase == Aborted
      ensures out.Refused? && p.drops ==> recs[id].before == None
      ensures out.Ended? ==> Left(old(files), old(mem)[id], old(log), out.phase, p)
      ensures out.Ended? && id in recs ==> recs[id].phase == out.phase
      ensures out == Ended(RollbackFailed) ==>
                id in recs && recs[id].before == Some(View(old(files), old(mem)[id].plan.targets))
    {
      out := Refused;
      var locked := TryLock(id);
      if locked {
        out := CommitAndRelease(id, p, keep);
      }
      if out.Refused? {
        var _ := AbortUnstarted(id, p.drops);
      }
    }

    /** What happens under the lock, and its release. */
    method CommitAndRelease(id: TxId, p: Probe, keep: nat) returns (out: CommitResult)
      requires Valid() && Holds(W(), id, Preparing) && Answers(p)
      requires mem[id].applied == {} && !mem[id].checked
      modifies this`files, this`mem, this`wrote, this`recs, this`log, this`lock, this`events
      ensures Valid() && lock == Free && id in mem
      ensures out == if old(Admits(id, p) && Supported(id, p)) then Ended(old(Verdict(id, p))) else Refused
      ensures forall j | j in recs && j != id :: j in old(recs) && recs[j] == old(recs)[j]
      ensures out.Refused? ==>
                files == old(files) && log == old(log) && id in recs && recs[id].phase in {Preparing, Validated}
      ensures out.Ended? ==> Left(old(files), old(mem)[id], old(log), out.phase, p)
      ensures out.Ended? && id in recs ==> recs[id].phase == out.phase
      ensures out == Ended(RollbackFailed) ==>
                id in recs && recs[id].before == Some(View(old(files), old(mem)[id].plan.targets))
    {
      out := CommitLocked(id, p);
      FinishLocked(id, out, p.drops, keep);
    }

    /** The end of the locked part: drop what is no longer needed, collect, release the lock. */
    method FinishLocked(id: TxId, out: CommitResult, drops: bool, keep: nat)
      requires Valid() && lock == ByTx(id) && id in mem && id in recs
      requires if out.Refused? then recs[id].phase in {Preparing, Validated}
               else out.phase in {Committed, RolledBack, RollbackFailed} && recs[id].phase == out.phase
      modifies this`recs, this`lock, this`mem, this`events
      ensures Valid() && lock == Free && mem == old(mem)[id := old(mem)[id].(checked := false)]
      ensures out.Refused? || out == Ended(RollbackFailed) ==> recs == old(recs)
      ensures forall j | j in recs && j != id :: j in old(recs) && recs[j] == old(recs)[j]
      ensures id in recs ==> recs[id].phase == old(recs)[id].phase
    {
      if out.Ended? && Collectable(out.phase) {
        DropBefore(id, drops);
        Gc(keep);
      }
      Release(id);
    }

    /** `_cleanup_materials`: only after a state that no longer needs them; a failure changes no result. */
    method DropBefore(id: TxId, drops: bool)
      requires Valid() && id in recs && Collectable(recs[id].phase)
      modifies this`recs, this`events
      ensures Valid()
      ensures recs == old(recs)[id := old(recs)[id].(before := if drops then None else old(recs)[id].before)]
    {
      if drops {
        ghost var w := W();
        recs := recs[id := recs[id].(before := None)];
        Note(w, DropMaterials(id));
      } else {
        assert recs == recs[id := recs[id].(before := recs[id].before)];
      }
    }

    /** The preflight of `recover`: look at every target before touching any. */
    method Preflight(id: TxId, force: bool, a: Repair) returns (plan: set<string>, conflicts: set<string>, broken: bool)
      requires id in recs && recs[id].before.Some?
      ensures plan == ToRestore(files, recs[id].before.value)
      ensures conflicts == Conflicts(files, recs[id])
      ensures broken <==> Broken(files, recs[id], force, a)
    {
      var r := recs[id];
      var before := r.before.value;
      plan, conflicts, broken := {}, {}, false;
      var todo := before.Keys;
      while todo != {}
        invariant todo <= before.Keys
        invariant plan == set t | t in ToRestore(files, before) && t !in todo
        invariant conflicts == set t | t in Conflicts(files, r) && t !in todo
        invariant broken <==> exists t :: t !in todo && BrokenAt(files, r, force, a, t)
      {
        var t :| t in todo;
        todo := todo - {t};
        if Look(files, t) != before[t] {
          plan := plan + {t};
          var drifted := Look(files, t) != (if t in r.intended then r.intended[t] else None);
          if drifted {
            conflicts := conflicts + {t};
          }
          if (force || !drifted) && before[t].Some? && !a.copies(t) {
            assert BrokenAt(files, r, force, a, t);
            broken := true;
          }
        }
      }
    }

    method PutBack(id: TxId, t: string)
      requires Valid() && lock.ByRecover? && lock.id == id && t in lock.todo
      requires Pending(recs, id) && recs[id].before.Some? && t in recs[id].before.value
      modifies this`files, this`lock, this`wrote, this`events
      ensures Valid() && lock == ByRecover(id, old(lock).todo - {t})
      ensures files == Put(old(files), t, recs[id].before.value[t])
    {
      ghost var w := W();
      files := Put(files, t, recs[id].before.value[t]);
      lock := ByRecover(id, lock.todo - {t});
      wrote := wrote + {id};
      Note(w, RestoreOne(t));
    }

    /** The restore phase of `recover`: only planned targets are written. */
    method RestoreAll(id: TxId, plan: set<string>, a: Repair) returns (failed: bool)
      requires Valid() && lock == ByRecover(id, plan) && Pending(recs, id) && recs[id].before.Some?
      requires plan <= recs[id].before.value.Keys
      modifies this`files, this`lock, this`wrote, this`events
      ensures Valid() && lock.ByRecover? && lock.id == id
      ensures failed <==> exists t :: t in plan && !a.writes(t)
      ensures Patched(old(files), files, recs[id].before.value, plan, a.writes)
      ensures !failed ==> lock.todo == {}
    {
      failed := false;
      var todo := plan;
      while todo != {}
        invariant Valid() && lock.ByRecover? && lock.id == id && todo <= plan && todo <= lock.todo
        invariant failed <==> exists t :: t in plan && t !in todo && !a.writes(t)
        invariant Patched(old(files), files, recs[id].before.value, plan - todo, a.writes)
        invariant !failed ==> lock.todo == todo
      {
        var t :| t in todo;
        PatchOne(old(files), files, recs[id].before.value, plan - todo, a.writes, t);
        assert plan - (todo - {t}) == plan - todo + {t};
        if a.writes(t) {
          PutBack(id, t);
        } else {
          failed := true;
        }
        todo := todo - {t};
      }
      assert plan - todo == plan;
    }

    /**
      `recover`: preflight everything, then restore. Without force a target that holds neither what it held before
      nor what the transaction meant to write stops it before anything is touched.
     */
    method Recover(id: TxId, force: bool, a: Repair, keep: nat) returns (r: RecoverResult)
      requires Valid()
      modifies this`files, this`recs, this`lock, this`wrote, this`events
      ensures Valid() && log == old(log)
      ensures !r.Recovered? ==> W() == old(W()) && events == old(events)
      ensures r == old(Recovery(id, force, a))
      ensures r.Recovered? ==>
                Patched(old(files), files, old(recs)[id].before.value, old(recs)[id].before.value.Keys, a.writes)
      ensures r == Recovered(true) ==> files == Overlay(old(files), old(recs)[id].before.value)
      ensures r == Recovered(true) && id in recs ==> recs[id].phase == RolledBack
      ensures forall j | j in recs && j != id :: j in old(recs) && recs[j] == old(recs)[j]
      ensures r == Recovered(false) ==> id in recs && recs[id] == old(recs)[id].(phase := RollbackFailed)
    {
      if id !in recs { return NotFound; }
      if !NeedsRecovery(recs[id].phase) { return NothingToDo; }
      if recs[id].before.None? { return MaterialsBroken; }
      if lock != Free { return Busy; }
      DriftIsConflicts(files, recs[id]);
      PlanIsEnough(files, recs[id].before.value, a);
      var plan, conflicts, broken := Preflight(id, force, a);
      if broken { return MaterialsBroken; }
      if conflicts != {} && !force { return Drifted(conflicts); }
      TakeRecoveryLock(id, force, plan);
      var clean := RestoreAndClose(id, plan, a, keep);
      WholePatched(old(files), files, old(recs)[id].before.value, a);
      return Recovered(clean);
    }

    /** How `recover` ends follows from what it finds and what the environment answers. */
    ghost function Recovery(id: TxId, force: bool, a: Repair): RecoverResult reads this {
      if id !in recs then NotFound
      else if recs[id].phase !in {Applying, Observing, RollingBack, RollbackFailed} then NothingToDo
      else if recs[id].before.None? then MaterialsBroken
      else if lock != Free then Busy
      else if Broken(files, recs[id], force, a) then MaterialsBroken
      else if !force && Drift(files, recs[id]) != {} then Drifted(Drift(files, recs[id]))
      else Recovered(a.settles && forall t | t in recs[id].before.value && Look(files, t) != recs[id].before.value[t] ::
                                    a.writes(t))
    }

    method TakeRecoveryLock(id: TxId, force: bool, plan: set<string>)
      requires Valid() && lock == Free && Pending(recs, id) && recs[id].before.Some?
      requires plan == ToRestore(files, recs[id].before.value) && (force || Conflicts(files, recs[id]) == {})
      modifies this`lock, this`events
      ensures Valid() && lock == ByRecover(id, plan)
    {
      ghost var w := W();
      lock := ByRecover(id, plan);
      Note(w, RecoverStart(id, force));
    }

    method RestoreAndClose(id: TxId, plan: set<string>, a: Repair, keep: nat) returns (clean: bool)
      requires Valid() && lock == ByRecover(id, plan) && Pending(recs, id) && recs[id].before.Some?
      requires plan == ToRestore(files, recs[id].before.value)
      modifies this`files, this`recs, this`lock, this`wrote, this`events
      ensures Valid() && lock == Free
      ensures clean <==> a.settles && forall t | t in plan :: a.writes(t)
      ensures Patched(old(files), files, old(recs)[id].before.value, plan, a.writes)
      ensures clean && id in recs ==> recs[id].phase == RolledBack
      ensures forall j | j in recs && j != id :: j in old(recs) && recs[j] == old(recs)[j]
      ensures !clean ==> id in recs && recs[id] == old(recs)[id].(phase := RollbackFailed)
    {
      var failed := RestoreAll(id, plan, a);
      if !a.settles { failed := true; }             // the runtime state did not come back
      clean := !failed;
      CloseRecovery(id, clean);
      if clean { DropBefore(id, a.drops); }
      Gc(keep);
      LeaveRecovery();
    }

    /** The verdict of `recover` is saved before any material is removed. */
    method CloseRecovery(id: TxId, clean: bool)
      requires Valid() && lock.ByRecover? && lock.id == id && Pending(recs, id) && (clean ==> lock.todo == {})
      modifies this`recs, this`events
      ensures Valid()
      ensures recs == old(recs)[id := old(recs)[id].(phase := if clean then RolledBack else RollbackFailed)]
    {
      ghost var w := W();
      recs := recs[id := recs[id].(phase := if clean then RolledBack else RollbackFailed)];
      Note(w, RecoverEnd(clean));
    }

    method LeaveRecovery()
      requires Valid() && lock.ByRecover?
      modifies this`lock, this`events
      ensures Valid() && lock == Free
    {
      ghost var w := W();
      lock := Free;
      Note(w, RecoverLeave);
    }

    method Collect(d: TxId, keep: nat)
      requires Valid() && d in recs && Collectable(recs[d].phase) && Newer(recs, d) >= keep
      modifies this`recs, this`events
      ensures Valid() && old(events) <= events && recs == Remove(old(recs), d)
    {
      ghost var w := W();
      recs := Remove(recs, d);
      Note(w, CollectOne(d, keep));
    }

    /** `_gc`: from the newest record down, keep the first `keep` collectable ones. */
    method Gc(keep: nat)
      requires Valid()
      modifies this`recs, this`events
      ensures Valid() && old(events) <= events
      ensures recs == Kept(old(recs), keep)
    {
      ghost var all := recs;
      var todo := recs.Keys;
      var kept := 0;
      KeptFrom(all, todo, keep);
      while todo != {}
        invariant Valid() && old(events) <= events
        invariant todo <= all.Keys && Downward(all, todo)
        invariant kept == |Passed(all, todo)|
        invariant recs == KeptOr(all, todo, keep)
      {
        var d := Newest(todo);
        PassOne(all, todo, d, keep);
        if Collectable(recs[d].phase) {
          kept := kept + 1;
          if kept > keep {
            EnoughNewer(all, todo, d, keep);
            Collect(d, keep);
          }
        }
        todo := todo - {d};
      }
    }
  }

  /** What the write loop leaves at targets whose content was still the one staged against. */
  lemma AppliedHasLanded(f0: Files, f: Files, m: Mem, p: Probe)
    requires Unchanged(f0, m) && AppliedSoFar(f0, f, m.staged, m.staged.Keys, p)
    ensures Landed(f0, f, m.staged)
  {
  }

  ghost predicate OnlyStaged(f0: Files, f: Files, staged: map<string, Staged>) {
    forall t | t !in staged :: Look(f, t) == Look(f0, t)
  }

  lemma OnlyStagedSoFar(f0: Files, f: Files, staged: map<string, Staged>, done: set<string>, p: Probe)
    requires AppliedSoFar(f0, f, staged, done, p)
    ensures OnlyStaged(f0, f, staged)
  {
  }

  /** Files put back to what they held before, and untouched elsewhere. */
  lemma PutBackIsBack(f0: Files, f1: Files, f2: Files, staged: map<string, Staged>, p: Probe)
    requires OnlyStaged(f0, f1, staged)
    requires Patched(f1, f2, View(f0, staged.Keys), View(f0, staged.Keys).Keys, p.undoes)
    ensures BackUpTo(f0, f2, staged.Keys, p)
    ensures (forall t | t in staged :: p.undoes(t)) ==> f2 == f0
  {
    if forall t | t in staged :: p.undoes(t) {
      SameFiles(f2, f0);
    }
  }

  /** The directories are passed from the newest down. */
  ghost predicate Downward(all: map<TxId, Rec>, todo: set<TxId>) {
    forall x, p | x in todo && p in all && p !in todo :: x < p
  }

  /** Collectable records that `_gc` has already passed on its way down. */
  ghost function Passed(all: map<TxId, Rec>, todo: set<TxId>): set<TxId> {
    set j | j in all && j !in todo && Collectable(all[j].phase)
  }

  /** The records left when everything outside `todo` has been passed. */
  ghost function KeptOr(all: map<TxId, Rec>, todo: set<TxId>, keep: nat): map<TxId, Rec> {
    map j | j in all && (j in todo || !Collectable(all[j].phase) || Newer(all, j) < keep) :: all[j]
  }

  lemma KeptFrom(all: map<TxId, Rec>, todo: set<TxId>, keep: nat)
    requires todo == all.Keys
    ensures KeptOr(all, todo, keep) == all && Passed(all, todo) == {}
  {
  }

  lemma PassOne(all: map<TxId, Rec>, todo: set<TxId>, d: TxId, keep: nat)
    requires d in todo && todo <= all.Keys && forall x | x in todo :: x <= d
    requires Downward(all, todo)
    ensures Newer(all, d) == |Passed(all, todo)|
    ensures Collectable(all[d].phase) ==> |Passed(all, todo - {d})| == |Passed(all, todo)| + 1
    ensures !Collectable(all[d].phase) ==> Passed(all, todo - {d}) == Passed(all, todo)
    ensures KeptOr(all, todo - {d}, keep) ==
            if Collectable(all[d].phase) && Newer(all, d) >= keep then Remove(KeptOr(all, todo, keep), d)
            else KeptOr(all, todo, keep)
  {
    assert Passed(all, todo) == set j | j in all && j > d && Collectable(all[j].phase);
    if Collectable(all[d].phase) {
      assert Passed(all, todo - {d}) == Passed(all, todo) + {d};
    }
  }

  /** Among the records passed so far, `keep` newer ones are still there. */
  lemma EnoughNewer(all: map<TxId, Rec>, todo: set<TxId>, d: TxId, keep: nat)
    requires d in todo && todo <= all.Keys && Downward(all, todo)
    requires |Passed(all, todo)| >= keep
    ensures Newer(KeptOr(all, todo, keep), d) >= keep
  {
    var c := Passed(all, todo);
    var held := Held(c, keep);
    HeldCount(c, keep);
    forall j | j in held ensures j in KeptOr(all, todo, keep) {
      assert Above(c, j) == set k | k in all && k > j && Collectable(all[k].phase);
    }
    var recs := KeptOr(all, todo, keep);
    var newer := set j | j in recs && j > d && Collectable(recs[j].phase);
    SubsetSize(held, newer);
    assert Newer(recs, d) == |newer|;
  }

  ghost function Above(c: set<TxId>, j: TxId): set<TxId> {
    set k | k in c && k > j
  }

  /** The elements with fewer than `keep` above them. */
  ghost function Held(c: set<TxId>, keep: nat): set<TxId> {
    set j | j in c && |Above(c, j)| < keep
  }

  lemma TopAlone(c: set<TxId>, top: TxId, keep: nat)
    requires top in c && (forall x | x in c :: x <= top) && keep > 0
    ensures Held(c, keep) == Held(c - {top}, keep - 1) + {top} && top !in Held(c - {top}, keep - 1)
  {
    assert Above(c, top) == {};
    forall j | j in c - {top} ensures Above(c, j) == Above(c - {top}, j) + {top} {
    }
  }

  /** Of any finite set, as many as `keep` elements have fewer than `keep` above them. */
  lemma {:induction false} HeldCount(c: set<TxId>, keep: nat)
    ensures |Held(c, keep)| == if |c| < keep then |c| else keep
    decreases |c|
  {
    if c == {} || keep == 0 {
      HeldNone(c, keep);
    } else {
      var top := Newest(c);
      HeldCount(c - {top}, keep - 1);
      TopCounts(c, top, keep);
    }
  }

  lemma HeldNone(c: set<TxId>, keep: nat)
    requires c == {} || keep == 0
    ensures |Held(c, keep)| == 0
  {
    assert Held(c, keep) == {};
  }

  lemma TopCounts(c: set<TxId>, top: TxId, keep: nat)
    requires top in c && (forall x | x in c :: x <= top) && keep > 0
    ensures |Held(c, keep)| == |Held(c - {top}, keep - 1)| + 1 && |c| == |c - {top}| + 1
  {
    TopAlone(c, top, keep);
    OneMore(c - {top}, top, c);
    OneMore(Held(c - {top}, keep - 1), top, Held(c, keep));
  }

  lemma OneMore(a: set<TxId>, x: TxId, b: set<TxId>)
    requires x !in a && b == a + {x}
    ensures |b| == |a| + 1
  {
  }

  /** They are the newest ones. */
  lemma HeldIsNewer(c: set<TxId>, keep: nat, j: TxId, k: TxId)
    requires j in c - Held(c, keep) && k in Held(c, keep)
    ensures j < k
  {
    if j > k {
      SubsetSize(Above(c, j), Above(c, k));
    }
  }
}
