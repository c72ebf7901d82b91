/**
  The configuration transaction engine (deploy/bot/pdgtx.py) as a protocol: production files,
  durable transaction records, one global lock, and any number of live transaction processes.
  Every durable write of the engine is one event, so a crash between two events is a crash
  between two writes.
 */
module TxProtocol {
  import opened Common

  type Bytes = seq<bv8>
  type TxId = nat
  /** Production files: an absent file is an absent key. */
  type Files = map<string, Bytes>
  /** What some files held; `None` says the file was absent. A SHA-256 is represented by what it digests. */
  type Image = map<string, Option<Bytes>>

  datatype Phase =
    | Preparing | Validated | Applying | Observing | Committed
    | RollingBack | RolledBack | RollbackFailed | Aborted

  /** The table `_ALLOWED` of in-process phase changes. */
  predicate Allowed(a: Phase, b: Phase) {
    match a
    case Preparing => b in {Validated, Aborted}
    case Validated => b in {Applying, Aborted}
    case Applying => b in {Observing, RollingBack}
    case Observing => b in {Committed, RollingBack}
    case RollingBack => b in {RolledBack, RollbackFailed}
    case _ => false
  }

  predicate NeedsRecovery(p: Phase) {
    p in {Applying, Observing, RollingBack, RollbackFailed}
  }

  predicate Collectable(p: Phase) {
    p in {Committed, RolledBack, Aborted}
  }

  function After(f: Files, img: Image, t: string): Option<Bytes> {
    if t in img then img[t] else Look(f, t)
  }

  /** `f` with every file named by `img` replaced (or removed) as `img` says. */
  function Overlay(f: Files, img: Image): (r: Files)
    ensures forall t :: Look(r, t) == After(f, img, t)
  {
    map t | t in f.Keys + img.Keys && After(f, img, t).Some? :: After(f, img, t).value
  }

  function View(f: Files, names: set<string>): Image {
    map t | t in names :: Look(f, t)
  }

  function Put(f: Files, t: string, c: Option<Bytes>): Files {
    Overlay(f, map[t := c])
  }

  /** Two file systems that agree on every name are the same. */
  lemma SameFiles(f: Files, g: Files)
    requires forall t :: Look(f, t) == Look(g, t)
    ensures f == g
  {
    forall t ensures t in f <==> t in g {
      assert Look(f, t) == Look(g, t);
    }
    forall t | t in f ensures f[t] == g[t] {
      assert Look(f, t) == Look(g, t);
    }
  }

  // ---- transactions ----

  /** What a caller intends: the candidate of target `t` is `make(t, contents of deps(t))`. */
  datatype Plan = Plan(sources: set<string>, targets: set<string>,
                       deps: string -> set<string>, make: (string, Image) -> Option<Bytes>)

  ghost predicate WellFormed(p: Plan) {
    forall t | t in p.targets :: p.deps(t) <= p.sources
  }

  function Narrow(img: Image, names: set<string>): Image {
    map t | t in names && t in img :: img[t]
  }

  /** The candidate that plan `p` makes for `t` from file system `f`. */
  function Candidate(p: Plan, f: Files, t: string): Option<Bytes> {
    p.make(t, View(f, p.deps(t)))
  }

  /** The plan run alone, from start to commit, on `f`. */
  function Serial(p: Plan, f: Files): Files {
    Overlay(f, map t | t in p.targets :: Candidate(p, f, t))
  }

  /** A staged target: `existed` is observed when staging, `basis` may stem from an earlier read. */
  datatype Staged = Staged(data: Option<Bytes>, basis: Option<Bytes>, existed: bool)

  /** A deletion that `_apply_one` silently leaves out although the file is there. */
  predicate Skipped(s: Staged) {
    s.data.None? && !s.existed && s.basis.Some?
  }

  /** `_apply_one` does nothing for a deletion of a file that was absent when staged. */
  predicate Untouched(s: Staged) {
    s.data.None? && !s.existed
  }

  function ApplyOneFile(f: Files, t: string, s: Staged): Files {
    if Untouched(s) then f else Put(f, t, s.data)
  }

  /** What `_apply_one` leaves at the target. */
  function Outcome(s: Staged): Option<Bytes> {
    if Skipped(s) then s.basis else s.data
  }

  /** One entry of the commit history: the plan and the deletions that were left out. */
  datatype Commitment = Commitment(plan: Plan, skipped: set<string>)

  function Effect(c: Commitment, f: Files): Files {
    Overlay(f, map t | t in c.plan.targets - c.skipped :: Candidate(c.plan, f, t))
  }

  ghost function Replay(init: Files, log: seq<Commitment>): Files {
    if log == [] then init else Effect(log[|log| - 1], Replay(init, log[..|log| - 1]))
  }

  /** The committed plans run one at a time, in commit order. */
  ghost function SerialReplay(init: Files, log: seq<Commitment>): Files {
    if log == [] then init else Serial(log[|log| - 1].plan, SerialReplay(init, log[..|log| - 1]))
  }

  // ---- the world ----

  /** The durable record (meta.json plus the before/ directory) of a transaction. */
  datatype Rec = Rec(phase: Phase, targets: set<string>, before: Option<Image>, intended: Image)

  /** The memory of a live transaction process. */
  datatype Mem = Mem(plan: Plan, seen: Image, staged: map<string, Staged>, checked: bool, applied: set<string>)

  datatype Lock = Free | ByTx(id: TxId) | ByRecover(id: TxId, todo: set<string>)

  datatype World = World(
    init: Files,              // the files before the first transaction
    files: Files,             // production files
    recs: map<TxId, Rec>,     // durable records
    mem: map<TxId, Mem>,      // live processes
    lock: Lock,
    issued: set<TxId>,        // transaction ids handed out so far
    log: seq<Commitment>,     // committed transactions, in commit order
    wrote: set<TxId>)         // transactions that ever wrote a production file

  ghost predicate Initial(w: World) {
    w.files == w.init && w.recs == map[] && w.mem == map[] && w.lock == Free
    && w.issued == {} && w.log == [] && w.wrote == {}
  }

  datatype Event =
    | Begin(id: TxId, plan: Plan)
    | Read(id: TxId, target: string)
    | Stage(id: TxId, target: string)
    | TakeLock(id: TxId)
    | Check(id: TxId)
    | Validate(id: TxId)
    | SaveBefore(id: TxId)
    | SaveIntended(id: TxId)
    | BeginApply(id: TxId)
    | ApplyOne(id: TxId, target: string)
    | BeginObserve(id: TxId)
    | Commit(id: TxId)
    | BeginRollback(id: TxId)
    | UndoOne(id: TxId, target: string)
    | EndRollback(id: TxId, clean: bool)
    | Unlock(id: TxId)
    | AbortSelf(id: TxId)
    | AbortDead(id: TxId)
    | DropMaterials(id: TxId)
    | CollectOne(id: TxId, keep: nat)
    | RecoverStart(id: TxId, force: bool)
    | RestoreOne(target: string)
    | RecoverEnd(clean: bool)
    | Crash(id: TxId)
    | RecoverLeave

  /** The live process of `id` holds the lock and its record is in `phase`. */
  predicate Holds(w: World, id: TxId, phase: Phase) {
    w.lock == ByTx(id) && id in w.mem && id in w.recs && w.recs[id].phase == phase
  }

  /** Holds, and the preconditions were checked under this hold. */
  predicate Cleared(w: World, id: TxId, phase: Phase) {
    Holds(w, id, phase) && w.mem[id].checked
  }

  /** The record of `id` stands in a state that only `recover` may leave. */
  predicate Pending(recs: map<TxId, Rec>, id: TxId) {
    id in recs && NeedsRecovery(recs[id].phase)
  }

  /** `pending_recovery(exclude=id)` is not empty. */
  ghost predicate OthersPending(recs: map<TxId, Rec>, id: TxId) {
    exists j :: Pending(recs, j) && j != id
  }

  /** `_commit_locked` 3) and 3b): targets and watched files still hold what the candidates were made from. */
  ghost predicate Unchanged(f: Files, m: Mem) {
    && (forall t | t in m.staged :: Look(f, t) == m.staged[t].basis)
    && (forall t | t in m.seen && t !in m.staged :: Look(f, t) == m.seen[t])
  }

  function SetPhase(w: World, id: TxId, p: Phase): World
    requires id in w.recs
  {
    w.(recs := w.recs[id := w.recs[id].(phase := p)])
  }

  function SetMem(w: World, id: TxId, m: Mem): World {
    w.(mem := w.mem[id := m])
  }

  function Remove<K, V>(m: map<K, V>, k: K): map<K, V> {
    map j | j in m && j != k :: m[j]
  }

  function Intended(m: Mem): Image {
    map t | t in m.staged :: m.staged[t].data
  }

  /** The log entry of a transaction that commits now. */
  function CommitmentOf(m: Mem): Commitment {
    Commitment(m.plan, set t | t in m.staged && Skipped(m.staged[t]))
  }

  /** How many collectable records are newer than `id`. */
  function Newer(recs: map<TxId, Rec>, id: TxId): nat {
    |set j | j in recs && j > id && Collectable(recs[j].phase)|
  }

  /** What `_gc` keeps: every record that is not collectable, and the newest `keep` that are. */
  function Kept(recs: map<TxId, Rec>, keep: nat): map<TxId, Rec> {
    map id | id in recs && (!Collectable(recs[id].phase) || Newer(recs, id) < keep) :: recs[id]
  }

  /** The files that `recover` has to put back. */
  function ToRestore(f: Files, before: Image): set<string> {
    set t | t in before && Look(f, t) != before[t]
  }

  /** Files that hold neither the before-image nor what the transaction meant to write. */
  function Conflicts(f: Files, r: Rec): set<string> {
    if r.before.None? then {} else
    set t | t in ToRestore(f, r.before.value) && Look(f, t) != (if t in r.intended then r.intended[t] else None)
  }

  // ---- one function per event: the world after it, or `None` when it cannot happen ----

  ghost function OnBegin(w: World, id: TxId, plan: Plan): Option<World> {
    if id in w.issued || !WellFormed(plan) then None else
    Some(w.(recs := w.recs[id := Rec(Preparing, {}, None, map[])],
            mem := w.mem[id := Mem(plan, map[], map[], false, {})],
            issued := w.issued + {id}))
  }

  ghost function OnRead(w: World, id: TxId, t: string): Option<World> {
    if id !in w.mem || id !in w.recs || w.recs[id].phase != Preparing || w.mem[id].checked
      || t !in w.mem[id].plan.sources || t in w.mem[id].seen || t in w.mem[id].staged then None else
    var m := w.mem[id];
    Some(SetMem(w, id, m.(seen := m.seen[t := Look(w.files, t)])))
  }

  ghost function OnStage(w: World, id: TxId, t: string): Option<World> {
    if id !in w.mem || id !in w.recs || w.recs[id].phase != Preparing || w.mem[id].checked
      || t !in w.mem[id].plan.targets || t in w.mem[id].staged
      || !(w.mem[id].plan.deps(t) <= w.mem[id].seen.Keys) then None else
    var m := w.mem[id];
    var basis := if t in m.seen then m.seen[t] else Look(w.files, t);
    var s := Staged(m.plan.make(t, Narrow(m.seen, m.plan.deps(t))), basis, t in w.files);
    Some(SetMem(w, id, m.(staged := m.staged[t := s])))
  }

  ghost function OnTakeLock(w: World, id: TxId): Option<World> {
    if id !in w.mem || w.lock != Free then None else Some(w.(lock := ByTx(id)))
  }

  ghost function OnCheck(w: World, id: TxId): Option<World> {
    if !Holds(w, id, Preparing) || OthersPending(w.recs, id) || !Unchanged(w.files, w.mem[id])
      || w.mem[id].staged.Keys != w.mem[id].plan.targets
      || w.mem[id].seen.Keys != w.mem[id].plan.sources then None else
    Some(SetMem(w, id, w.mem[id].(checked := true)))
  }

  ghost function OnValidate(w: World, id: TxId): Option<World> {
    if !Cleared(w, id, Preparing) then None else Some(SetPhase(w, id, Validated))
  }

  ghost function OnSaveBefore(w: World, id: TxId): Option<World> {
    if !Cleared(w, id, Validated) then None else
    var targets := w.mem[id].plan.targets;
    Some(w.(recs := w.recs[id := w.recs[id].(targets := targets, before := Some(View(w.files, targets)))]))
  }

  ghost function OnSaveIntended(w: World, id: TxId): Option<World> {
    if !Cleared(w, id, Validated) then None else
    Some(w.(recs := w.recs[id := w.recs[id].(intended := Intended(w.mem[id]))]))
  }

  ghost function OnBeginApply(w: World, id: TxId): Option<World> {
    if !Cleared(w, id, Validated) || w.recs[id].before.None?
      || w.recs[id].intended != Intended(w.mem[id]) then None else
    Some(SetPhase(w, id, Applying))
  }

  ghost function OnApplyOne(w: World, id: TxId, t: string): Option<World> {
    if !Cleared(w, id, Applying) || t !in w.mem[id].staged || t in w.mem[id].applied
      || (w.mem[id].staged[t].data.None? && w.mem[id].staged[t].existed && t !in w.files) then None else
    var m := w.mem[id];
    var s := m.staged[t];
    Some(w.(mem := w.mem[id := m.(applied := m.applied + {t})],
            files := ApplyOneFile(w.files, t, s),
            wrote := if Untouched(s) then w.wrote else w.wrote + {id}))
  }

  ghost function OnBeginObserve(w: World, id: TxId): Option<World> {
    if !Cleared(w, id, Applying) || w.mem[id].applied != w.mem[id].staged.Keys then None else
    Some(SetPhase(w, id, Observing))
  }

  ghost function OnCommit(w: World, id: TxId): Option<World> {
    if !Cleared(w, id, Observing) then None else
    Some(SetPhase(w, id, Committed).(log := w.log + [CommitmentOf(w.mem[id])]))
  }

  ghost function OnBeginRollback(w: World, id: TxId): Option<World> {
    if !(Cleared(w, id, Applying) || Cleared(w, id, Observing)) then None else
    Some(SetPhase(w, id, RollingBack))
  }

  ghost function OnUndoOne(w: World, id: TxId, t: string): Option<World> {
    if !Cleared(w, id, RollingBack) || w.recs[id].before.None? || t !in w.recs[id].before.value then None else
    Some(w.(files := Put(w.files, t, w.recs[id].before.value[t]), wrote := w.wrote + {id}))
  }

  ghost function OnEndRollback(w: World, id: TxId, clean: bool): Option<World> {
    if !Cleared(w, id, RollingBack) || w.recs[id].before.None?
      || (clean && ToRestore(w.files, w.recs[id].before.value) != {}) then None else
    Some(SetPhase(w, id, if clean then RolledBack else RollbackFailed))
  }

  ghost function OnUnlock(w: World, id: TxId): Option<World> {
    if w.lock != ByTx(id) || id !in w.mem
      || (id in w.recs && w.recs[id].phase in {Applying, Observing, RollingBack}) then None else
    Some(SetMem(w, id, w.mem[id].(checked := false)).(lock := Free))
  }

  ghost function OnAbortSelf(w: World, id: TxId): Option<World> {
    if id !in w.mem || w.lock == ByTx(id) || id !in w.recs
      || w.recs[id].phase !in {Preparing, Validated} then None else
    Some(SetPhase(w, id, Aborted))
  }

  ghost function OnAbortDead(w: World, id: TxId): Option<World> {
    if id in w.mem || id !in w.recs || w.recs[id].phase !in {Preparing, Validated} then None else
    Some(SetPhase(w, id, Aborted))
  }

  ghost function OnDropMaterials(w: World, id: TxId): Option<World> {
    if id !in w.recs || !Collectable(w.recs[id].phase) then None else
    Some(w.(recs := w.recs[id := w.recs[id].(before := None)]))
  }

  ghost function OnCollectOne(w: World, id: TxId, keep: nat): Option<World> {
    if id !in w.recs || !Collectable(w.recs[id].phase) || Newer(w.recs, id) < keep then None else
    Some(w.(recs := Remove(w.recs, id)))
  }

  ghost function OnRecoverStart(w: World, id: TxId, force: bool): Option<World> {
    if w.lock != Free || id !in w.recs || !NeedsRecovery(w.recs[id].phase) || w.recs[id].before.None?
      || (!force && Conflicts(w.files, w.recs[id]) != {}) then None else
    Some(w.(lock := ByRecover(id, ToRestore(w.files, w.recs[id].before.value))))
  }

  ghost function OnRestoreOne(w: World, t: string): Option<World> {
    if !w.lock.ByRecover? || t !in w.lock.todo || !Pending(w.recs, w.lock.id)
      || w.recs[w.lock.id].before.None? || t !in w.recs[w.lock.id].before.value then None else
    Some(w.(files := Put(w.files, t, w.recs[w.lock.id].before.value[t]),
            lock := ByRecover(w.lock.id, w.lock.todo - {t}), wrote := w.wrote + {w.lock.id}))
  }

  ghost function OnRecoverEnd(w: World, clean: bool): Option<World> {
    if !w.lock.ByRecover? || !Pending(w.recs, w.lock.id) || (clean && w.lock.todo != {}) then None else
    Some(SetPhase(w, w.lock.id, if clean then RolledBack else RollbackFailed))
  }

  ghost function OnCrash(w: World, id: TxId): Option<World> {
    if id !in w.mem then None else
    Some(w.(mem := Remove(w.mem, id), lock := if w.lock == ByTx(id) then Free else w.lock))
  }

  ghost function OnRecoverLeave(w: World): Option<World> {
    if !w.lock.ByRecover? then None else Some(w.(lock := Free))
  }

  /** The world after event `e`, or `None` when `e` cannot happen in `w`. */
  ghost function Next(w: World, e: Event): Option<World> {
    match e
    case Begin(id, plan) => OnBegin(w, id, plan)
    case Read(id, t) => OnRead(w, id, t)
    case Stage(id, t) => OnStage(w, id, t)
    case TakeLock(id) => OnTakeLock(w, id)
    case Check(id) => OnCheck(w, id)
    case Validate(id) => OnValidate(w, id)
    case SaveBefore(id) => OnSaveBefore(w, id)
    case SaveIntended(id) => OnSaveIntended(w, id)
    case BeginApply(id) => OnBeginApply(w, id)
    case ApplyOne(id, t) => OnApplyOne(w, id, t)
    case BeginObserve(id) => OnBeginObserve(w, id)
    case Commit(id) => OnCommit(w, id)
    case BeginRollback(id) => OnBeginRollback(w, id)
    case UndoOne(id, t) => OnUndoOne(w, id, t)
    case EndRollback(id, clean) => OnEndRollback(w, id, clean)
    case Unlock(id) => OnUnlock(w, id)
    case AbortSelf(id) => OnAbortSelf(w, id)
    case AbortDead(id) => OnAbortDead(w, id)
    case DropMaterials(id) => OnDropMaterials(w, id)
    case CollectOne(id, keep) => OnCollectOne(w, id, keep)
    case RecoverStart(id, force) => OnRecoverStart(w, id, force)
    case RestoreOne(t) => OnRestoreOne(w, t)
    case RecoverEnd(clean) => OnRecoverEnd(w, clean)
    case Crash(id) => OnCrash(w, id)
    case RecoverLeave => OnRecoverLeave(w)
  }

  /** A finite run: every event in turn must be able to happen. */
  ghost function Exec(w: World, es: seq<Event>): Option<World>
    decreases |es|
  {
    if es == [] then Some(w) else
    match Next(w, es[0])
    case None => None
    case Some(w') => Exec(w', es[1..])
  }

  ghost predicate Reachable(w: World) {
    exists w0, es :: Initial(w0) && Exec(w0, es) == Some(w)
  }
}
