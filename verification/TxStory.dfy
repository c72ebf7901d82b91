/** Two concrete runs that show where the promises of TxTheorems end. */
module TxStory {
  import opened Common
  import opened TxProtocol
  import opened TxTheorems

  const FILE := "model"
  const CONTENT: Bytes := [1]

  /** Deletes the file without reading it. */
  ghost function BlindDelete(): Plan {
    Plan({}, {FILE}, t => {}, (t, seen) => None)
  }

  /** Deletes the file after reading it. */
  ghost function ReadThenDelete(): Plan {
    Plan({FILE}, {FILE}, t => {FILE}, (t, seen) => None)
  }

  ghost function Fresh(): World {
    World(map[FILE := CONTENT], map[FILE := CONTENT], map[], map[], Free, {}, [], {})
  }

  ghost function Reader(staged: map<string, Staged>, checked: bool, applied: set<string>): Mem {
    Mem(ReadThenDelete(), map[FILE := Some(CONTENT)], staged, checked, applied)
  }

  ghost function Deleter(checked: bool, applied: set<string>): Mem {
    Mem(BlindDelete(), map[], map[FILE := Staged(None, Some(CONTENT), true)], checked, applied)
  }

  /** `w` with `id` holding the lock, checked, and its record at `r`. */
  ghost function Stand(w: World, id: TxId, r: Rec): World
    requires id in w.mem
  {
    w.(lock := ByTx(id), mem := w.mem[id := w.mem[id].(checked := true)], recs := w.recs[id := r])
  }

  ghost predicate Ready(w: World, id: TxId) {
    && w.lock == Free && id in w.mem && id in w.recs && w.recs[id].phase == Preparing
    && w.mem[id].staged.Keys == w.mem[id].plan.targets && w.mem[id].seen.Keys == w.mem[id].plan.sources
    && Unchanged(w.files, w.mem[id]) && !OthersPending(w.recs, id)
  }

  lemma ToChecked(w: World, id: TxId)
    requires Reachable(w) && Ready(w, id)
    ensures Reachable(Stand(w, id, w.recs[id]))
  {
    var w1 := w.(lock := ByTx(id));
    ReachStep(w, TakeLock(id), w1);
    assert Stand(w, id, w.recs[id]).recs == w1.recs;
    ReachStep(w1, Check(id), Stand(w, id, w.recs[id]));
  }

  lemma ToValidated(w: World, id: TxId, r: Rec)
    requires id in w.mem && Reachable(Stand(w, id, r)) && r.phase == Preparing
    ensures Reachable(Stand(w, id, r.(phase := Validated)))
  {
    var v := Stand(w, id, r.(phase := Validated));
    assert SetPhase(Stand(w, id, r), id, Validated).recs == v.recs;
    ReachStep(Stand(w, id, r), Validate(id), v);
  }

  lemma BeforeIsNext(w: World, id: TxId, r: Rec)
    requires id in w.mem && r.phase == Validated
    ensures var targets := w.mem[id].plan.targets;
            Next(Stand(w, id, r), SaveBefore(id))
            == Some(Stand(w, id, r.(targets := targets, before := Some(View(w.files, targets)))))
  {
    var targets := w.mem[id].plan.targets;
    var r' := r.(targets := targets, before := Some(View(w.files, targets)));
    assert w.recs[id := r][id := r'] == w.recs[id := r'];
  }

  lemma IntendedIsNext(w: World, id: TxId, r: Rec)
    requires id in w.mem && r.phase == Validated
    ensures Next(Stand(w, id, r), SaveIntended(id)) == Some(Stand(w, id, r.(intended := Intended(w.mem[id]))))
  {
    var r' := r.(intended := Intended(w.mem[id]));
    assert w.recs[id := r][id := r'] == w.recs[id := r'];
    assert Intended(w.mem[id].(checked := true)) == Intended(w.mem[id]);
  }

  lemma StartIsNext(w: World, id: TxId, r: Rec)
    requires id in w.mem && r.phase == Validated && r.before.Some? && r.intended == Intended(w.mem[id])
    ensures Next(Stand(w, id, r), BeginApply(id)) == Some(Stand(w, id, r.(phase := Applying)))
  {
    var r' := r.(phase := Applying);
    assert w.recs[id := r][id := r'] == w.recs[id := r'];
    assert Intended(w.mem[id].(checked := true)) == Intended(w.mem[id]);
  }

  ghost function StartedRec(w: World, id: TxId): Rec
    requires id in w.mem
  {
    var m := w.mem[id];
    Rec(Applying, m.plan.targets, Some(View(w.files, m.plan.targets)), Intended(m))
  }

  lemma ToMaterials(w: World, id: TxId, r: Rec)
    requires id in w.mem && Reachable(Stand(w, id, r)) && r.phase == Validated
    ensures Reachable(Stand(w, id, StartedRec(w, id).(phase := Validated)))
  {
    var targets := w.mem[id].plan.targets;
    var r1 := r.(targets := targets, before := Some(View(w.files, targets)));
    BeforeIsNext(w, id, r);
    ReachStep(Stand(w, id, r), SaveBefore(id), Stand(w, id, r1));
    IntendedIsNext(w, id, r1);
    ReachStep(Stand(w, id, r1), SaveIntended(id), Stand(w, id, r1.(intended := Intended(w.mem[id]))));
  }

  /** A ready transaction gets from its lock to just before its first write. */
  lemma ToApplying(w: World, id: TxId)
    requires Reachable(w) && Ready(w, id)
    ensures Reachable(Stand(w, id, StartedRec(w, id)))
  {
    ToChecked(w, id);
    var r := w.recs[id];
    ToValidated(w, id, r);
    ToMaterials(w, id, r.(phase := Validated));
    var s := StartedRec(w, id).(phase := Validated);
    StartIsNext(w, id, s);
    ReachStep(Stand(w, id, s), BeginApply(id), Stand(w, id, StartedRec(w, id)));
  }

  /** A transaction of one target has made its write. */
  ghost function Wrote(w: World, id: TxId, t: string): World
    requires id in w.mem && t in w.mem[id].staged
  {
    var m := w.mem[id];
    w.(lock := ByTx(id), files := ApplyOneFile(w.files, t, m.staged[t]),
       mem := w.mem[id := m.(checked := true, applied := {t})],
       recs := w.recs[id := StartedRec(w, id)],
       wrote := if Untouched(m.staged[t]) then w.wrote else w.wrote + {id})
  }

  lemma ToWrote(w: World, id: TxId, t: string)
    requires Reachable(w) && Ready(w, id) && w.mem[id].staged.Keys == {t} && w.mem[id].applied == {}
    requires w.mem[id].staged[t].existed ==> t in w.files
    ensures Reachable(Wrote(w, id, t))
  {
    ToApplying(w, id);
    var m := w.mem[id];
    var v := Stand(w, id, StartedRec(w, id));
    assert v.mem[id].applied + {t} == {t};
    assert v.mem[id := v.mem[id].(applied := {t})]
           == w.mem[id := m.(checked := true, applied := {t})];
    ReachStep(v, ApplyOne(id, t), Wrote(w, id, t));
  }

  /** The open transaction `id` of one target puts its before-image back and leaves. */
  ghost function RolledBackFrom(v: World, id: TxId, t: string, c: Option<Bytes>): World
    requires id in v.mem && id in v.recs
  {
    v.(lock := Free, files := Put(v.files, t, c), mem := v.mem[id := v.mem[id].(checked := false)],
       recs := v.recs[id := v.recs[id].(phase := RolledBack)], wrote := v.wrote + {id})
  }

  ghost function Undone(v: World, id: TxId, t: string, c: Option<Bytes>): World
    requires id in v.recs
  {
    SetPhase(v, id, RollingBack).(files := Put(v.files, t, c), wrote := v.wrote + {id})
  }

  lemma ToUndone(v: World, id: TxId, t: string, c: Option<Bytes>)
    requires Reachable(v) && Cleared(v, id, Applying) && v.recs[id].before == Some(map[t := c])
    ensures Reachable(Undone(v, id, t, c)) && ToRestore(Undone(v, id, t, c).files, map[t := c]) == {}
  {
    var w := SetPhase(v, id, RollingBack);
    ReachStep(v, BeginRollback(id), w);
    ReachStep(w, UndoOne(id, t), Undone(v, id, t, c));
    assert Look(Undone(v, id, t, c).files, t) == c;
  }

  lemma ToClosed(w: World, id: TxId)
    requires Reachable(w) && Cleared(w, id, RollingBack) && w.recs[id].before.Some?
    requires ToRestore(w.files, w.recs[id].before.value) == {}
    ensures Reachable(SetPhase(w, id, RolledBack))
  {
    ReachStep(w, EndRollback(id, true), SetPhase(w, id, RolledBack));
  }

  lemma ToRolledBack(v: World, id: TxId, t: string, c: Option<Bytes>)
    requires Reachable(v) && Cleared(v, id, Applying) && v.recs[id].before == Some(map[t := c])
    ensures Reachable(RolledBackFrom(v, id, t, c))
  {
    ToUndone(v, id, t, c);
    var w := Undone(v, id, t, c);
    var w' := SetPhase(w, id, RolledBack);
    ToClosed(w, id);
    assert w'.recs == RolledBackFrom(v, id, t, c).recs;
    Leave(w', id, RolledBackFrom(v, id, t, c));
  }

  lemma Leave(w: World, id: TxId, w': World)
    requires Reachable(w) && Holds(w, id, RolledBack)
    requires w' == w.(lock := Free, mem := w.mem[id := w.mem[id].(checked := false)])
    ensures Reachable(w')
  {
    ReachStep(w, Unlock(id), w');
  }

  lemma ToObserved(v: World, id: TxId)
    requires Reachable(v) && Cleared(v, id, Applying) && v.mem[id].applied == v.mem[id].staged.Keys
    ensures Reachable(SetPhase(v, id, Observing))
  {
    ReachStep(v, BeginObserve(id), SetPhase(v, id, Observing));
  }

  lemma ToCommitted(w: World, id: TxId, t: string) returns (w': World)
    requires id in w.mem && w.mem[id].staged.Keys == {t} && Reachable(Wrote(w, id, t))
    ensures Reachable(w') && w'.files == Wrote(w, id, t).files && w'.init == w.init
    ensures w'.log == w.log + [CommitmentOf(w.mem[id])]
    ensures w'.recs == w.recs[id := StartedRec(w, id).(phase := Committed)]
  {
    var v := Wrote(w, id, t);
    var w1 := SetPhase(v, id, Observing);
    ToObserved(v, id);
    w' := SetPhase(w1, id, Committed).(log := w1.log + [CommitmentOf(w1.mem[id])]);
    ReachStep(w1, Event.Commit(id), w');
    assert CommitmentOf(w1.mem[id]) == CommitmentOf(w.mem[id]);
  }

  // The story: 0 reads the file, 1 deletes it, 0 stages its deletion, 1 rolls back, 0 commits.

  ghost function Both(): World {
    Fresh().(recs := map[0 := Rec(Preparing, {}, None, map[]), 1 := Rec(Preparing, {}, None, map[])],
             mem := map[0 := Reader(map[], false, {}), 1 := Deleter(false, {})],
             issued := {0, 1})
  }

  ghost function FirstOnly(): World {
    Fresh().(recs := map[0 := Rec(Preparing, {}, None, map[])],
             mem := map[0 := Reader(map[], false, {})], issued := {0})
  }

  lemma FirstStarted()
    ensures Reachable(FirstOnly())
  {
    var w0 := Fresh();
    assert Exec(w0, []) == Some(w0);
    assert Reachable(w0);
    var w1 := OnBegin(w0, 0, ReadThenDelete()).value;
    ReachStep(w0, Begin(0, ReadThenDelete()), w1);
    var w2 := OnRead(w1, 0, FILE).value;
    ReachStep(w1, Read(0, FILE), w2);
    assert w2 == FirstOnly();
  }

  ghost function SecondBegun(): World {
    FirstOnly().(recs := map[0 := Rec(Preparing, {}, None, map[]), 1 := Rec(Preparing, {}, None, map[])],
                 mem := map[0 := Reader(map[], false, {}), 1 := Mem(BlindDelete(), map[], map[], false, {})],
                 issued := {0, 1})
  }

  lemma SecondStarted()
    ensures Reachable(SecondBegun())
  {
    FirstStarted();
    var w := OnBegin(FirstOnly(), 1, BlindDelete()).value;
    ReachStep(FirstOnly(), Begin(1, BlindDelete()), w);
    assert w == SecondBegun();
  }

  lemma BothStarted()
    ensures Reachable(Both())
  {
    SecondStarted();
    var w := OnStage(SecondBegun(), 1, FILE).value;
    ReachStep(SecondBegun(), Stage(1, FILE), w);
    assert w == Both();
  }

  /** Transaction 1 has just removed the file and is still open. */
  lemma FileIsRemoved()
    ensures Reachable(Wrote(Both(), 1, FILE)) && Wrote(Both(), 1, FILE).files == map[]
  {
    BothStarted();
    assert !OthersPending(Both().recs, 1);
    ToWrote(Both(), 1, FILE);
    SameFiles(Put(Fresh().files, FILE, None), map[]);
  }

  const LATE: Staged := Staged(None, Some(CONTENT), false)

  ghost function Late(): World {
    var v := Wrote(Both(), 1, FILE);
    v.(mem := v.mem[0 := Reader(map[FILE := LATE], false, {})])
  }

  /** Transaction 0 stages its deletion while the file is gone. */
  lemma DeletionIsStaged()
    ensures Reachable(Late())
  {
    FileIsRemoved();
    var v := Wrote(Both(), 1, FILE);
    assert v.mem[0] == Reader(map[], false, {});
    var m := v.mem[0];
    assert m.staged[FILE := LATE] == map[FILE := LATE];
    assert OnStage(v, 0, FILE) == Some(SetMem(v, 0, m.(staged := m.staged[FILE := LATE])));
    ReachStep(v, Stage(0, FILE), Late());
  }

  ghost function Back(): World {
    RolledBackFrom(Late(), 1, FILE, Some(CONTENT))
  }

  lemma FileIsBack()
    ensures Reachable(Back()) && Back().files == map[FILE := CONTENT]
  {
    DeletionIsStaged();
    assert View(Both().files, {FILE}) == map[FILE := Some(CONTENT)];
    ToRolledBack(Late(), 1, FILE, Some(CONTENT));
    SameFiles(Back().files, map[FILE := CONTENT]);
  }

  lemma LateIsReady()
    ensures Back().mem[0] == Reader(map[FILE := LATE], false, {})
    ensures Back().files == map[FILE := CONTENT] ==> Ready(Back(), 0)
    ensures Back().init == Fresh().init && Back().log == []
    ensures var recs := Back().recs[0 := StartedRec(Back(), 0).(phase := Committed)];
            forall id :: !Pending(recs, id)
  {
    assert !OthersPending(Back().recs, 0);
  }

  lemma PlanDeletes(w: World)
    requires w.init == map[FILE := CONTENT] && |w.log| == 1 && w.log[0].plan == ReadThenDelete()
    ensures SerialReplay(w.init, w.log) == map[]
  {
  }

  /**
    The promise of one-at-a-time commits is not unconditional: here the only committed plan deletes the
    file, every precondition held, nothing is stuck, and the file is still there.
   */
  lemma ADeletionCanBeLost() returns (w: World)
    ensures Reachable(w) && (forall id :: !Pending(w.recs, id)) && |w.log| == 1
    ensures w.files == map[FILE := CONTENT] && SerialReplay(w.init, w.log) == map[]
  {
    FileIsBack();
    var b := Back();
    LateIsReady();
    ToWrote(b, 0, FILE);
    w := ToCommitted(b, 0, FILE);
    assert w.log == [CommitmentOf(b.mem[0])] && CommitmentOf(b.mem[0]).plan == ReadThenDelete();
    PlanDeletes(w);
  }

  /** Without that guard the promise breaks: an ABORTED transaction whose deletion stays, unrecoverable. */
  lemma StaleAbortCanStrand() returns (w: World, id: TxId)
    ensures Reachable(w) && Pending(w.recs, id)
    ensures var w' := StaleAbort(w, id);
            w'.recs[id].phase == Aborted && id in w'.wrote && w'.files != Replay(w'.init, w'.log)
            && forall j :: !Pending(w'.recs, j)
  {
    FileIsRemoved();
    w, id := Wrote(Both(), 1, FILE), 1;
    assert Replay(w.init, w.log) == map[FILE := CONTENT];
    assert FILE in Replay(w.init, w.log) && FILE !in w.files;
  }
}
