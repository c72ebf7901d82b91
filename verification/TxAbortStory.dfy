/** Runs that an abort without the right care breaks, and the theorem that says which aborts are careful. */
module TxAbortStory {
  import opened Common
  import opened TxProtocol
  import opened TxTheorems
  import opened TxStory
  import opened TxAbort

  // ---- a transaction that has written, in every phase from then on ----

  lemma WriterCleared()
    ensures var v := Wrote(Both(), 1, FILE);
            Reachable(v) && Cleared(v, 1, Applying) && 1 in v.wrote && v.mem[1].applied == v.mem[1].staged.Keys
            && v.recs[1].before == Some(map[FILE := Some(CONTENT)])
  {
    FileIsRemoved();
    assert View(Both().files, {FILE}) == map[FILE := Some(CONTENT)];
  }

  /** What one step of the protocol leads to. */
  ghost predicate WritesIn(w: World, p: Phase) {
    Reachable(w) && 1 in w.mem && 1 in w.recs && w.recs[1].phase == p && 1 in w.wrote
  }

  lemma WriterUndone(clean: bool) returns (w: World)
    ensures WritesIn(w, if clean then RolledBack else RollbackFailed)
  {
    WriterCleared();
    var v := Wrote(Both(), 1, FILE);
    ToUndone(v, 1, FILE, Some(CONTENT));
    w := CloseUndone(Undone(v, 1, FILE, Some(CONTENT)), clean);
  }

  lemma CloseUndone(u: World, clean: bool) returns (w: World)
    requires Reachable(u) && Cleared(u, 1, RollingBack) && u.recs[1].before.Some? && 1 in u.wrote
    requires ToRestore(u.files, u.recs[1].before.value) == {}
    ensures WritesIn(w, if clean then RolledBack else RollbackFailed)
  {
    w := SetPhase(u, 1, if clean then RolledBack else RollbackFailed);
    ReachStep(u, EndRollback(1, clean), w);
  }

  lemma Rolling(v: World) returns (w: World)
    requires Reachable(v) && Cleared(v, 1, Applying) && 1 in v.wrote
    ensures WritesIn(w, RollingBack)
  {
    w := SetPhase(v, 1, RollingBack);
    ReachStep(v, BeginRollback(1), w);
  }

  lemma Committing(u: World) returns (w: World)
    requires Reachable(u) && Cleared(u, 1, Observing) && 1 in u.wrote
    ensures WritesIn(w, Committed)
  {
    w := OnCommit(u, 1).value;
    ReachStep(u, Event.Commit(1), w);
  }

  lemma Observed() returns (w: World)
    ensures WritesIn(w, Observing) && Cleared(w, 1, Observing)
  {
    WriterCleared();
    ToObserved(Wrote(Both(), 1, FILE), 1);
    w := SetPhase(Wrote(Both(), 1, FILE), 1, Observing);
  }

  lemma WriterIn(p: Phase) returns (w: World)
    requires p !in {Preparing, Validated, Aborted}
    ensures WritesIn(w, p)
  {
    match p
    case Applying =>
      WriterCleared();
      w := Wrote(Both(), 1, FILE);
    case Observing => w := Observed();
    case RollingBack =>
      WriterCleared();
      w := Rolling(Wrote(Both(), 1, FILE));
    case Committed =>
      w := Observed();
      w := Committing(w);
    case RolledBack => w := WriterUndone(true);
    case RollbackFailed => w := WriterUndone(false);
  }

  /** With or without its process. */
  lemma WriterLeft(p: Phase, alive: bool) returns (w: World)
    requires p !in {Preparing, Validated, Aborted}
    ensures Reachable(w) && (1 in w.mem <==> alive) && 1 in w.recs && w.recs[1].phase == p && 1 in w.wrote
  {
    w := WriterIn(p);
    if !alive {
      var v := w;
      w := OnCrash(v, 1).value;
      ReachStep(v, Crash(1), w);
    }
  }

  /** An abort that lands on it leaves a record that says ABORTED over changed files. */
  lemma MarkedWriter(rule: Rule, p: Phase, alive: bool) returns (s: Scene)
    requires rule(alive, p) && p !in {Preparing, Validated, Aborted}
    ensures Playable(rule, s) && !Sound(s.w)
  {
    var w := WriterLeft(p, alive);
    var s0 := WorldIsPlayable(rule, w);
    s := OnMark(s0, rule, 1).value;
    OneMoreMove(rule, s0, Mark(1), s);
  }

  // ---- a transaction that has not written, but goes on ----

  /** What an owner's save leaves after an abort saved over its record: the same as without the abort. */
  lemma SaveOverMark(s: Scene, m: Scene, id: TxId, e: Event, w': World)
    requires InStep(s) && id in s.own && id in s.w.recs && Open(s.w.recs[id].phase)
    requires m == s.(w := SetPhase(s.w, id, Aborted), marked := s.marked + {id})
    requires OwnerOf(e) == Some(id) && Saves(e) && Next(s.w, e) == Some(w')
    ensures id in w'.recs
    ensures OwnStep(m, e, id) == Some(m.(w := w', own := s.own[id := w'.recs[id]]))
  {
    assert Seen(m, id).recs == s.w.recs;
    assert Seen(m, id) == s.w;
    OwnStepTouches(s.w, e, id, w');
    assert m.w.recs[id := w'.recs[id]] == w'.recs;
  }

  /** The owner saves over an abort as if it had not happened; the removal is still to come. */
  lemma MarkThenSave(rule: Rule, s: Scene, id: TxId, e: Event, w': World) returns (s': Scene)
    requires Playable(rule, s) && InStep(s) && id in s.own && id in s.w.recs && Open(s.w.recs[id].phase)
    requires rule(true, s.w.recs[id].phase)
    requires OwnerOf(e) == Some(id) && Saves(e) && Next(s.w, e) == Some(w')
    ensures Playable(rule, s') && InStep(s') && s'.w == w' && id in s'.marked
  {
    var m := OnMark(s, rule, id).value;
    OneMoreMove(rule, s, Mark(id), m);
    SaveOverMark(s, m, id, e, w');
    s' := OwnStep(m, e, id).value;
    OneMoreMove(rule, m, Protocol(e), s');
    ReachStep(s.w, e, w');
    OwnStepTouches(s.w, e, id, w');
  }

  lemma Advance(rule: Rule, s: Scene, e: Event, w': World) returns (s': Scene)
    requires Playable(rule, s) && InStep(s) && Next(s.w, e) == Some(w')
    ensures Playable(rule, s') && InStep(s') && s'.w == w' && s'.marked == s.marked
  {
    ProtocolFollows(rule, s, e);
    s' := OneMove(rule, s, Protocol(e)).value;
    OneMoreMove(rule, s, Protocol(e), s');
  }

  ghost function Materials(): World {
    Stand(Both(), 1, StartedRec(Both(), 1).(phase := Validated))
  }

  ghost function AtApplying(): World {
    Stand(Both(), 1, StartedRec(Both(), 1))
  }

  lemma BothReady()
    ensures Reachable(Both()) && Ready(Both(), 1)
  {
    BothStarted();
    assert !OthersPending(Both().recs, 1);
  }

  /** VALIDATED with its materials, and one step later APPLYING with nothing written. */
  lemma OnTheBrink()
    ensures Reachable(Materials()) && Reachable(AtApplying()) && Next(Materials(), BeginApply(1)) == Some(AtApplying())
  {
    BothReady();
    ToChecked(Both(), 1);
    var r := Both().recs[1];
    ToValidated(Both(), 1, r);
    ToMaterials(Both(), 1, r.(phase := Validated));
    StartIsNext(Both(), 1, StartedRec(Both(), 1).(phase := Validated));
    ReachStep(Materials(), BeginApply(1), AtApplying());
  }

  /** The removal of an abort that lands while the owner applies. */
  lemma LateRemoval(rule: Rule, s: Scene) returns (s': Scene)
    requires Playable(rule, s) && s.w == AtApplying() && 1 in s.marked
    ensures Playable(rule, s') && !Sound(s'.w)
  {
    s' := OnDrop(s, 1).value;
    OneMoreMove(rule, s, Drop(1), s');
    assert Pending(s'.w.recs, 1);
  }

  lemma ValidatedIsHit(rule: Rule) returns (s: Scene)
    requires rule(true, Validated)
    ensures Playable(rule, s) && !Sound(s.w)
  {
    OnTheBrink();
    var s0 := WorldIsPlayable(rule, Materials());
    var s1 := MarkThenSave(rule, s0, 1, BeginApply(1), AtApplying());
    s := LateRemoval(rule, s1);
  }

  lemma ValidateIsNext()
    ensures var r := Both().recs[1];
            Reachable(Stand(Both(), 1, r)) && r.phase == Preparing
            && Next(Stand(Both(), 1, r), Validate(1)) == Some(Stand(Both(), 1, r.(phase := Validated)))
  {
    BothReady();
    ToChecked(Both(), 1);
    var r := Both().recs[1];
    assert SetPhase(Stand(Both(), 1, r), 1, Validated).recs == Stand(Both(), 1, r.(phase := Validated)).recs;
  }

  lemma PreparingIsHit(rule: Rule) returns (s: Scene)
    requires rule(true, Preparing)
    ensures Playable(rule, s) && !Sound(s.w)
  {
    ValidateIsNext();
    var b, r := Both(), Both().recs[1].(phase := Validated);
    var s0 := WorldIsPlayable(rule, Stand(b, 1, b.recs[1]));
    var s1 := MarkThenSave(rule, s0, 1, Validate(1), Stand(b, 1, r));
    var targets := b.mem[1].plan.targets;
    var r1 := r.(targets := targets, before := Some(View(b.files, targets)));
    BeforeIsNext(b, 1, r);
    var s2 := Advance(rule, s1, SaveBefore(1), Stand(b, 1, r1));
    IntendedIsNext(b, 1, r1);
    var s3 := Advance(rule, s2, SaveIntended(1), Materials());
    OnTheBrink();
    var s4 := Advance(rule, s3, BeginApply(1), AtApplying());
    s := LateRemoval(rule, s4);
  }

  // ---- the theorem ----

  /** Every abort that is not careful has a run that breaks the promises. */
  lemma CarelessBreaks(rule: Rule, alive: bool, p: Phase) returns (s: Scene)
    requires rule(alive, p) && p != Aborted && (alive || p !in {Preparing, Validated})
    ensures Playable(rule, s) && !Sound(s.w)
  {
    if p == Preparing {
      s := PreparingIsHit(rule);
    } else if p == Validated {
      s := ValidatedIsHit(rule);
    } else {
      s := MarkedWriter(rule, p, alive);
    }
  }

  /**
    Over all runs with lock-free aborts, crashes stay recoverable and an ABORTED transaction never wrote, exactly
    when aborts land only on a transaction whose owner is gone and whose record is PREPARING or VALIDATED (or
    on a record that is ABORTED already).
   */
  lemma SoundIffCareful(rule: Rule)
    ensures (forall s | Playable(rule, s) :: Sound(s.w)) <==> Careful(rule)
  {
    if Careful(rule) {
      forall s | Playable(rule, s) ensures Sound(s.w) {
        CarefulRunsAreProtocolRuns(rule, s);
      }
    } else {
      var alive, p :| rule(alive, p) && !(p == Aborted || (!alive && p in {Preparing, Validated}));
      var s := CarelessBreaks(rule, alive, p);
      assert !Sound(s.w);
    }
  }

  // ---- the two ways in which a live owner is hit ----

  lemma FileIsGone(w: World)
    requires w.files == map[] && w.init == map[FILE := CONTENT] && w.log == []
    ensures w.files != Replay(w.init, w.log)
  {
    assert FILE in Replay(w.init, w.log);
  }

  lemma ApplyingWrites()
    ensures Next(AtApplying(), ApplyOne(1, FILE)) == Some(Wrote(Both(), 1, FILE))
    ensures Wrote(Both(), 1, FILE).files == map[]
  {
    var v, m := AtApplying(), Both().mem[1];
    assert v.mem[1].applied + {FILE} == {FILE};
    assert v.mem[1 := v.mem[1].(applied := {FILE})] == Both().mem[1 := m.(checked := true, applied := {FILE})];
    SameFiles(Put(Both().files, FILE, None), map[]);
  }

  lemma OwnerWrites(rule: Rule, s: Scene) returns (s': Scene)
    requires Playable(rule, s) && 1 in s.own && 1 in s.w.recs && Seen(s, 1) == AtApplying()
    ensures Playable(rule, s') && s'.w == Wrote(Both(), 1, FILE).(recs := s.w.recs)
  {
    ApplyingWrites();
    var e := ApplyOne(1, FILE);
    s' := OwnStep(s, e, 1).value;
    assert s.w.recs[1 := s.w.recs[1]] == s.w.recs;
    OneMoreMove(rule, s, Protocol(e), s');
  }

  /** The owner's write and then its crash, whatever the record on disk says by then. */
  lemma WriteAndDie(rule: Rule, s: Scene) returns (s': Scene)
    requires Playable(rule, s) && 1 in s.own && 1 in s.w.recs && Seen(s, 1) == AtApplying()
    ensures Playable(rule, s') && s'.w.recs == s.w.recs && s'.w.files == map[] && 1 in s'.w.wrote
    ensures 1 !in s'.w.mem && s'.w.lock == Free && s'.w.init == s.w.init && s'.w.log == s.w.log
  {
    var v := OwnerWrites(rule, s);
    ApplyingWrites();
    s' := OwnerDies(rule, v);
  }

  lemma OwnerDies(rule: Rule, s: Scene) returns (s': Scene)
    requires Playable(rule, s) && 1 in s.w.mem && s.w.lock == ByTx(1)
    ensures Playable(rule, s') && s'.w == s.w.(mem := Remove(s.w.mem, 1), lock := Free)
  {
    s' := OtherStep(s, Crash(1)).value;
    OneMoreMove(rule, s, Protocol(Crash(1)), s');
  }

  /** An abort both of whose steps land at once. */
  lemma AbortLands(rule: Rule, s: Scene, id: TxId) returns (s': Scene)
    requires Playable(rule, s) && id in s.w.recs && rule(id in s.w.mem, s.w.recs[id].phase)
    ensures Playable(rule, s') && s'.w == StaleAbort(s.w, id) && s'.own == s.own
  {
    var m := OnMark(s, rule, id).value;
    OneMoreMove(rule, s, Mark(id), m);
    s' := OnDrop(m, id).value;
    OneMoreMove(rule, m, Drop(id), s');
    assert s'.w.recs == StaleAbort(s.w, id).recs;
  }

  /**
    APPLYING is saved, nothing is written and every file is as committed when the abort lands; the owner goes on,
    writes and dies. The record says ABORTED, the file is gone and no copy is left.
   */
  lemma AbortOfALiveWriter(rule: Rule) returns (s0: Scene, s: Scene)
    requires rule(true, Applying)
    ensures Playable(rule, s0) && 1 in s0.w.mem && 1 !in s0.w.wrote && s0.w.files == Replay(s0.w.init, s0.w.log)
    ensures Playable(rule, s) && 1 in s.w.recs && s.w.recs[1].phase == Aborted && s.w.recs[1].before.None?
    ensures 1 in s.w.wrote && s.w.files != Replay(s.w.init, s.w.log) && forall j :: !Pending(s.w.recs, j)
  {
    OnTheBrink();
    s0 := WorldIsPlayable(rule, AtApplying());
    var s1 := AbortLands(rule, s0, 1);
    assert Seen(s1, 1).recs == AtApplying().recs;
    s := WriteAndDie(rule, s1);
    FileIsGone(s.w);
  }

  /**
    The abort finds VALIDATED just before APPLYING is saved: the owner saves APPLYING over ABORTED, writes and
    dies. The transaction is stuck, and no `recover`, forced or not, can start.
   */
  lemma AbortBeforeApplying(rule: Rule) returns (s: Scene)
    requires rule(true, Validated)
    ensures Playable(rule, s) && Pending(s.w.recs, 1) && s.w.lock == Free && 1 !in s.w.mem
    ensures s.w.files != Replay(s.w.init, s.w.log)
    ensures forall force :: OnRecoverStart(s.w, 1, force).None?
  {
    OnTheBrink();
    var s0 := WorldIsPlayable(rule, Materials());
    var s1 := AbortLands(rule, s0, 1);
    assert Seen(s1, 1).recs == Materials().recs;
    assert Seen(s1, 1) == Materials();
    var s2 := OwnStep(s1, BeginApply(1), 1).value;
    OneMoreMove(rule, s1, Protocol(BeginApply(1)), s2);
    assert Seen(s2, 1).recs == AtApplying().recs;
    s := WriteAndDie(rule, s2);
    FileIsGone(s.w);
  }
}
