/**
  `pdg tx abort` beside the transactions it may hit. It takes no lock: it reads a record that is still PREPARING
  or VALIDATED, and some time later saves ABORTED over it and removes the materials, while the owner of the
  transaction goes on with what it has in memory.
 */
module TxAbort {
  import opened Common
  import opened TxProtocol
  import opened TxTheorems

  /**
    `own` is what each live process has in memory of its own record, and saves whole whenever it saves.
    `marked` are the transactions over which an abort saved ABORTED, its removal of materials still to come.
   */
  datatype Scene = Scene(w: World, own: map<TxId, Rec>, marked: set<TxId>)

  datatype Move =
    | Protocol(e: Event)
    | Resave(id: TxId)          // the owner saves its record again after a write
    | Mark(id: TxId)            // an abort saves ABORTED
    | Drop(id: TxId)            // the same abort removes the materials

  /** When the save of an abort may land: is the owner alive, and what does the record say at that moment? */
  type Rule = (bool, Phase) -> bool

  /** The transaction whose own process takes this step. */
  function OwnerOf(e: Event): Option<TxId> {
    match e
    case Read(id, _) => Some(id)
    case Stage(id, _) => Some(id)
    case TakeLock(id) => Some(id)
    case Check(id) => Some(id)
    case Validate(id) => Some(id)
    case SaveBefore(id) => Some(id)
    case SaveIntended(id) => Some(id)
    case BeginApply(id) => Some(id)
    case ApplyOne(id, _) => Some(id)
    case BeginObserve(id) => Some(id)
    case Commit(id) => Some(id)
    case BeginRollback(id) => Some(id)
    case UndoOne(id, _) => Some(id)
    case EndRollback(id, _) => Some(id)
    case Unlock(id) => Some(id)
    case AbortSelf(id) => Some(id)
    case _ => None
  }

  /** Steps that save the record. */
  predicate Saves(e: Event) {
    e.Validate? || e.SaveIntended? || e.BeginApply? || e.BeginObserve? || e.Commit? || e.BeginRollback?
    || e.EndRollback? || e.AbortSelf?
  }

  /** The world as the owner believes it to be: its own record from memory, everything else from disk. */
  function Seen(s: Scene, id: TxId): World
    requires id in s.own
  {
    s.w.(recs := s.w.recs[id := s.own[id]])
  }

  /** The record on disk after an owner's step that leaves `mine` in memory. */
  function Stored(disk: Rec, mine: Rec, e: Event): Rec {
    if e.SaveBefore? then Rec(disk.phase, mine.targets, mine.before, disk.intended)
    else if Saves(e) then Rec(mine.phase, mine.targets, disk.before, mine.intended)
    else disk
  }

  /** A copy for a file that existed can only be put back while it is there. */
  predicate CopyThere(s: Scene, e: Event)
    requires e.UndoOne? ==> e.id in s.own && e.id in s.w.recs
  {
    e.UndoOne? && s.own[e.id].before.Some? && e.target in s.own[e.id].before.value ==>
      s.own[e.id].before.value[e.target].None? || s.w.recs[e.id].before.Some?
  }

  /** Memory appears with a transaction and goes with its process. */
  function OwnAfter(own: map<TxId, Rec>, e: Event, after: World): map<TxId, Rec> {
    if e.Begin? && e.id in after.recs then own[e.id := after.recs[e.id]]
    else if e.Crash? then Remove(own, e.id)
    else own
  }

  ghost function OtherStep(s: Scene, e: Event): Option<Scene> {
    var after := Next(s.w, e);
    if after.None? then None else Some(s.(w := after.value, own := OwnAfter(s.own, e, after.value)))
  }

  ghost function OwnStep(s: Scene, e: Event, id: TxId): Option<Scene>
    requires OwnerOf(e) == Some(id)
  {
    if id !in s.own then None
    else if id !in s.w.recs then OtherStep(s, e)
    else if !CopyThere(s, e) then None else
    var after := Next(Seen(s, id), e);
    if after.None? || id !in after.value.recs then None else
    var mine := after.value.recs[id];
    Some(s.(w := after.value.(recs := s.w.recs[id := Stored(s.w.recs[id], mine, e)]), own := s.own[id := mine]))
  }

  ghost function OnResave(s: Scene, id: TxId): Option<Scene> {
    if id !in s.own || id !in s.w.recs || !Cleared(Seen(s, id), id, Applying) then None else
    var mine := s.own[id];
    Some(s.(w := s.w.(recs := s.w.recs[id := mine.(before := s.w.recs[id].before)])))
  }

  /** Every record was PREPARING once, so an abort that read it then may always still be on its way. */
  ghost function OnMark(s: Scene, rule: Rule, id: TxId): Option<Scene> {
    if id !in s.w.recs || !rule(id in s.w.mem, s.w.recs[id].phase) then None else
    Some(s.(w := SetPhase(s.w, id, Aborted), marked := s.marked + {id}))
  }

  ghost function OnDrop(s: Scene, id: TxId): Option<Scene> {
    if id !in s.marked then None
    else if id !in s.w.recs then Some(s.(marked := s.marked - {id}))
    else Some(s.(w := s.w.(recs := s.w.recs[id := s.w.recs[id].(before := None)]), marked := s.marked - {id}))
  }

  ghost function OneMove(rule: Rule, s: Scene, m: Move): Option<Scene> {
    match m
    case Protocol(e) => if OwnerOf(e).Some? then OwnStep(s, e, OwnerOf(e).value) else OtherStep(s, e)
    case Resave(id) => OnResave(s, id)
    case Mark(id) => OnMark(s, rule, id)
    case Drop(id) => OnDrop(s, id)
  }

  ghost function Play(rule: Rule, s: Scene, ms: seq<Move>): Option<Scene> {
    if ms == [] then Some(s) else
    var before := Play(rule, s, ms[..|ms| - 1]);
    if before.None? then None else OneMove(rule, before.value, ms[|ms| - 1])
  }

  ghost predicate Opening(s: Scene) {
    Initial(s.w) && s.own == map[] && s.marked == {}
  }

  ghost predicate Playable(rule: Rule, s: Scene) {
    exists s0, ms :: Opening(s0) && Play(rule, s0, ms) == Some(s)
  }

  lemma OneMoreMove(rule: Rule, s: Scene, m: Move, s': Scene)
    requires Playable(rule, s) && OneMove(rule, s, m) == Some(s')
    ensures Playable(rule, s')
  {
    var s0, ms :| Opening(s0) && Play(rule, s0, ms) == Some(s);
    assert (ms + [m])[..|ms + [m]| - 1] == ms;
    assert Play(rule, s0, ms + [m]) == Some(s');
  }

  // ---- what is at stake ----

  /** What `TxTheorems.CrashIsRecoverable` and `TxTheorems.AbortedNeverWrote` promise of one world. */
  ghost predicate Sound(w: World) {
    && (forall id | Pending(w.recs, id) :: CanRecover(w, id))
    && (forall id | id in w.recs && w.recs[id].phase == Aborted :: id !in w.wrote)
  }

  ghost predicate CanRecover(w: World, id: TxId)
    requires id in w.recs
  {
    && w.recs[id].before.Some? && w.recs[id].before.value.Keys == w.recs[id].targets
    && Conflicts(w.files, w.recs[id]) == {}
    && Overlay(w.files, w.recs[id].before.value) == Replay(w.init, w.log)
  }

  /** The owner is gone and nothing was written, or the record is ABORTED already. */
  ghost predicate Careful(rule: Rule) {
    forall alive, p | rule(alive, p) :: p == Aborted || (!alive && p in {Preparing, Validated})
  }

  lemma ReachableIsSound(w: World)
    requires Reachable(w)
    ensures Sound(w)
  {
    forall id | Pending(w.recs, id) ensures CanRecover(w, id) {
      CrashIsRecoverable(w, id);
    }
    forall id | id in w.recs && w.recs[id].phase == Aborted ensures id !in w.wrote {
      AbortedNeverWrote(w, id);
    }
  }

  // ---- careful aborts are protocol steps ----

  predicate Open(p: Phase) {
    p in {Preparing, Validated, Applying, Observing, RollingBack}
  }

  /** Memory and disk agree on every transaction that either of them holds to be open. */
  ghost predicate Agree(own: map<TxId, Rec>, recs: map<TxId, Rec>) {
    forall id | id in own && id in recs && (Open(own[id].phase) || Open(recs[id].phase)) :: own[id] == recs[id]
  }

  ghost predicate MarksHold(s: Scene) {
    forall id | id in s.marked :: id in s.w.issued && (id in s.w.recs ==> s.w.recs[id].phase == Aborted)
  }

  ghost predicate InStep(s: Scene) {
    Reachable(s.w) && s.own.Keys == s.w.mem.Keys && Agree(s.own, s.w.recs)
  }

  /** An owner's step touches no other record, and a saving step leaves the before-image alone. */
  lemma OwnStepTouches(w: World, e: Event, id: TxId, w': World)
    requires OwnerOf(e) == Some(id) && Next(w, e) == Some(w') && id in w.recs
    ensures id in w'.recs && w'.recs == w.recs[id := w'.recs[id]] && w'.mem.Keys == w.mem.Keys
    ensures Stored(w.recs[id], w'.recs[id], e) == w'.recs[id]
    ensures w'.issued == w.issued
  {
  }

  /** While memory and disk agree, the owner's step is the protocol's. */
  lemma AgreedStep(s: Scene, e: Event, id: TxId)
    requires OwnerOf(e) == Some(id) && id in s.own && id in s.w.recs && s.own[id] == s.w.recs[id]
    ensures OwnStep(s, e, id).Some? <==> Next(s.w, e).Some?
    ensures Next(s.w, e).Some? ==>
              var w' := Next(s.w, e).value;
              id in w'.recs && OwnStep(s, e, id).value == s.(w := w', own := s.own[id := w'.recs[id]])
  {
    assert Seen(s, id).recs == s.w.recs;
    assert Seen(s, id) == s.w;
    if Next(s.w, e).Some? {
      var w' := Next(s.w, e).value;
      OwnStepTouches(s.w, e, id, w');
      assert s.w.recs[id := w'.recs[id]] == w'.recs;
      CopyIsThere(s, e, id);
    }
  }

  lemma CopyIsThere(s: Scene, e: Event, id: TxId)
    requires OwnerOf(e) == Some(id) && id in s.own && id in s.w.recs && s.own[id] == s.w.recs[id] && Next(s.w, e).Some?
    ensures CopyThere(s, e)
  {
  }

  /** A closed transaction's process can only still take and leave the lock. */
  lemma ClosedStep(w: World, e: Event, id: TxId)
    requires OwnerOf(e) == Some(id) && id in w.recs && !Open(w.recs[id].phase) && Next(w, e).Some?
    ensures e.TakeLock? || e.Unlock?
  {
  }

  lemma LockStep(w: World, v: World, e: Event, id: TxId)
    requires (e.TakeLock? || e.Unlock?) && e.id == id && id in w.recs && id in v.recs
    requires !Open(w.recs[id].phase) && !Open(v.recs[id].phase) && v == w.(recs := v.recs)
    ensures Next(w, e).Some? <==> Next(v, e).Some?
    ensures Next(w, e).Some? ==>
              Next(v, e).value == Next(w, e).value.(recs := v.recs) && Next(w, e).value.recs == w.recs
  {
  }

  /** Once neither memory nor disk holds it open, the owner's step still is the protocol's. */
  lemma IdleStep(s: Scene, e: Event, id: TxId)
    requires OwnerOf(e) == Some(id) && id in s.own && id in s.w.recs
    requires !Open(s.own[id].phase) && !Open(s.w.recs[id].phase)
    ensures OwnStep(s, e, id).Some? <==> Next(s.w, e).Some?
    ensures Next(s.w, e).Some? ==> OwnStep(s, e, id).value == s.(w := Next(s.w, e).value)
  {
    var v := Seen(s, id);
    if Next(s.w, e).Some? {
      ClosedStep(s.w, e, id);
      LockStep(s.w, v, e, id);
    }
    if Next(v, e).Some? {
      ClosedStep(v, e, id);
      LockStep(s.w, v, e, id);
    }
    if e.TakeLock? || e.Unlock? {
      LockStep(s.w, v, e, id);
      assert s.own[id := s.own[id]] == s.own && s.w.recs[id := s.w.recs[id]] == s.w.recs;
    }
  }

  lemma AgreedFollows(s: Scene, e: Event, id: TxId)
    requires InStep(s) && OwnerOf(e) == Some(id) && id in s.own && id in s.w.recs && s.own[id] == s.w.recs[id]
    requires Next(s.w, e).Some?
    ensures OwnStep(s, e, id).Some? && OwnStep(s, e, id).value.w == Next(s.w, e).value
    ensures OwnStep(s, e, id).value.marked == s.marked && InStep(OwnStep(s, e, id).value)
  {
    ReachStep(s.w, e, Next(s.w, e).value);
    AgreedStep(s, e, id);
    OwnStepTouches(s.w, e, id, Next(s.w, e).value);
  }

  lemma IdleFollows(s: Scene, e: Event, id: TxId)
    requires InStep(s) && OwnerOf(e) == Some(id) && id in s.own && id in s.w.recs && s.own[id] != s.w.recs[id]
    requires Next(s.w, e).Some?
    ensures OwnStep(s, e, id).Some? && OwnStep(s, e, id).value.w == Next(s.w, e).value
    ensures OwnStep(s, e, id).value.marked == s.marked && InStep(OwnStep(s, e, id).value)
  {
    ReachStep(s.w, e, Next(s.w, e).value);
    IdleStep(s, e, id);
    ClosedStep(s.w, e, id);
    LockStep(s.w, s.w, e, id);
    OwnStepTouches(s.w, e, id, Next(s.w, e).value);
  }

  lemma GoneFollows(s: Scene, e: Event, id: TxId)
    requires InStep(s) && OwnerOf(e) == Some(id) && id in s.own && id !in s.w.recs && Next(s.w, e).Some?
    ensures OwnStep(s, e, id).Some? && OwnStep(s, e, id).value.w == Next(s.w, e).value
    ensures OwnStep(s, e, id).value.marked == s.marked && InStep(OwnStep(s, e, id).value)
  {
    ReachStep(s.w, e, Next(s.w, e).value);
    GoneStep(s.w, e, id);
  }

  /** Any owner's step, in step with the protocol. */
  lemma OwnerFollows(s: Scene, e: Event, id: TxId)
    requires InStep(s) && OwnerOf(e) == Some(id) && id in s.own
    ensures OwnStep(s, e, id).Some? <==> Next(s.w, e).Some?
    ensures Next(s.w, e).Some? ==>
              OwnStep(s, e, id).value.w == Next(s.w, e).value && OwnStep(s, e, id).value.marked == s.marked
              && InStep(OwnStep(s, e, id).value)
  {
    if id !in s.w.recs {
      if Next(s.w, e).Some? { GoneFollows(s, e, id); }
    } else if s.own[id] == s.w.recs[id] {
      AgreedStep(s, e, id);
      if Next(s.w, e).Some? { AgreedFollows(s, e, id); }
    } else {
      IdleStep(s, e, id);
      if Next(s.w, e).Some? { IdleFollows(s, e, id); }
    }
  }

  /** With its record gone, too. */
  lemma GoneStep(w: World, e: Event, id: TxId)
    requires OwnerOf(e) == Some(id) && id !in w.recs && Next(w, e).Some?
    ensures Next(w, e).value.recs == w.recs && Next(w, e).value.mem.Keys == w.mem.Keys
  {
  }

  lemma OwnerIsAlive(w: World, e: Event, id: TxId)
    requires OwnerOf(e) == Some(id) && Next(w, e).Some?
    ensures id in w.mem
  {
  }

  /** A recovery only ever closes a transaction that no process still works on. */
  lemma RecoveryFindsItIdle(w: World, clean: bool)
    requires Reachable(w) && OnRecoverEnd(w, clean).Some?
    ensures w.lock.id in w.mem ==> w.recs[w.lock.id].phase == RollbackFailed
  {
    ReachableInv(w);
  }

  lemma RecoveryKeepsAgree(s: Scene, clean: bool, w': World)
    requires InStep(s) && OnRecoverEnd(s.w, clean) == Some(w')
    ensures Agree(s.own, w'.recs)
  {
    RecoveryFindsItIdle(s.w, clean);
  }

  /** Steps of no owner keep memory and disk in step. */
  lemma OthersFollow(s: Scene, e: Event, w': World)
    requires InStep(s) && OwnerOf(e).None? && Next(s.w, e) == Some(w')
    ensures OtherStep(s, e) == Some(s.(w := w', own := OwnAfter(s.own, e, w')))
    ensures InStep(OtherStep(s, e).value)
  {
    ReachStep(s.w, e, w');
    if e.RecoverEnd? {
      RecoveryKeepsAgree(s, e.clean, w');
    }
  }

  /** A collected record does not come back. */
  lemma NoRevival(w: World, e: Event, w': World, id: TxId)
    requires Next(w, e) == Some(w') && id in w.issued && id !in w.recs
    ensures id !in w'.recs && id in w'.issued
  {
  }

  lemma IssuedStays(w: World, e: Event, w': World, id: TxId)
    requires Next(w, e) == Some(w') && id in w.issued
    ensures id in w'.issued
  {
  }

  lemma MarksFollow(s: Scene, e: Event, w': World, s': Scene)
    requires Reachable(s.w) && MarksHold(s) && Next(s.w, e) == Some(w') && s'.w == w' && s'.marked == s.marked
    ensures MarksHold(s')
  {
    forall id | id in s'.marked ensures id in w'.issued && (id in w'.recs ==> w'.recs[id].phase == Aborted) {
      IssuedStays(s.w, e, w', id);
      if id in s.w.recs {
        PhasesFollowTheTable(s.w, e, w', id);
      } else {
        NoRevival(s.w, e, w', id);
      }
    }
  }

  /** Every step of the protocol can be played, and memory and disk stay in step. */
  lemma ProtocolFollows(rule: Rule, s: Scene, e: Event)
    requires InStep(s)
    ensures OneMove(rule, s, Protocol(e)).Some? <==> Next(s.w, e).Some?
    ensures Next(s.w, e).Some? ==>
              var s' := OneMove(rule, s, Protocol(e)).value;
              s'.w == Next(s.w, e).value && s'.marked == s.marked && InStep(s') && (MarksHold(s) ==> MarksHold(s'))
  {
    if OwnerOf(e).Some? {
      if Next(s.w, e).Some? { OwnerIsAlive(s.w, e, OwnerOf(e).value); }
      if OwnerOf(e).value in s.own { OwnerFollows(s, e, OwnerOf(e).value); }
    } else if Next(s.w, e).Some? {
      OthersFollow(s, e, Next(s.w, e).value);
    }
    if Next(s.w, e).Some? && MarksHold(s) {
      MarksFollow(s, e, Next(s.w, e).value, OneMove(rule, s, Protocol(e)).value);
    }
  }

  lemma CarefulMark(rule: Rule, s: Scene, id: TxId)
    requires Careful(rule) && InStep(s) && MarksHold(s) && OnMark(s, rule, id).Some?
    ensures InStep(OnMark(s, rule, id).value) && MarksHold(OnMark(s, rule, id).value)
  {
    ReachableIds(s.w);
    if s.w.recs[id].phase == Aborted {
      assert SetPhase(s.w, id, Aborted).recs == s.w.recs;
      assert SetPhase(s.w, id, Aborted) == s.w;
    } else {
      ReachStep(s.w, AbortDead(id), SetPhase(s.w, id, Aborted));
    }
  }

  lemma CarefulDrop(s: Scene, id: TxId)
    requires InStep(s) && MarksHold(s) && OnDrop(s, id).Some?
    ensures InStep(OnDrop(s, id).value) && MarksHold(OnDrop(s, id).value)
  {
    if id in s.w.recs {
      ReachStep(s.w, DropMaterials(id), OnDrop(s, id).value.w);
    }
  }

  lemma CarefulResave(s: Scene, id: TxId)
    requires InStep(s) && OnResave(s, id).Some?
    ensures OnResave(s, id) == Some(s)
  {
    assert s.own[id] == s.w.recs[id];
    assert s.w.recs[id := s.w.recs[id]] == s.w.recs;
  }

  /** With careful aborts every move keeps memory, disk and protocol in step. */
  lemma CarefulMove(rule: Rule, s: Scene, m: Move)
    requires Careful(rule) && InStep(s) && MarksHold(s) && OneMove(rule, s, m).Some?
    ensures InStep(OneMove(rule, s, m).value) && MarksHold(OneMove(rule, s, m).value)
  {
    match m
    case Protocol(e) => ProtocolFollows(rule, s, e);
    case Resave(id) => CarefulResave(s, id);
    case Mark(id) => CarefulMark(rule, s, id);
    case Drop(id) => CarefulDrop(s, id);
  }

  lemma OpeningInStep(s: Scene)
    requires Opening(s)
    ensures InStep(s) && MarksHold(s)
  {
    assert Exec(s.w, []) == Some(s.w);
  }

  lemma {:induction false} CarefulPlay(rule: Rule, s0: Scene, ms: seq<Move>)
    requires Careful(rule) && Opening(s0) && Play(rule, s0, ms).Some?
    ensures InStep(Play(rule, s0, ms).value) && MarksHold(Play(rule, s0, ms).value)
  {
    if ms == [] {
      OpeningInStep(s0);
    } else {
      CarefulPlay(rule, s0, ms[..|ms| - 1]);
      CarefulMove(rule, Play(rule, s0, ms[..|ms| - 1]).value, ms[|ms| - 1]);
    }
  }

  /** Runs with careful aborts are runs of the protocol, so all of TxTheorems holds of them. */
  lemma CarefulRunsAreProtocolRuns(rule: Rule, s: Scene)
    requires Careful(rule) && Playable(rule, s)
    ensures Reachable(s.w) && Sound(s.w)
  {
    var s0, ms :| Opening(s0) && Play(rule, s0, ms) == Some(s);
    CarefulPlay(rule, s0, ms);
    ReachableIsSound(s.w);
  }

  // ---- every run of the protocol can be played ----

  lemma {:induction false} ExecFollows(rule: Rule, s: Scene, es: seq<Event>, w: World) returns (s': Scene)
    requires Playable(rule, s) && InStep(s) && Exec(s.w, es) == Some(w)
    ensures Playable(rule, s') && InStep(s') && s'.w == w && s'.marked == s.marked
    decreases |es|
  {
    if es == [] {
      s' := s;
    } else {
      ProtocolFollows(rule, s, es[0]);
      var next := OneMove(rule, s, Protocol(es[0])).value;
      OneMoreMove(rule, s, Protocol(es[0]), next);
      s' := ExecFollows(rule, next, es[1..], w);
    }
  }

  /** Any reachable world can be reached with nobody aborting anything. */
  lemma WorldIsPlayable(rule: Rule, w: World) returns (s: Scene)
    requires Reachable(w)
    ensures Playable(rule, s) && InStep(s) && s.w == w && s.marked == {}
  {
    var w0, es :| Initial(w0) && Exec(w0, es) == Some(w);
    var s0 := Scene(w0, map[], {});
    assert Play(rule, s0, []) == Some(s0);
    assert Playable(rule, s0);
    OpeningInStep(s0);
    s := ExecFollows(rule, s0, es, w);
  }
}
