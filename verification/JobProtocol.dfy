/**
  The maintenance job gate (deploy/web/pdg-web-job.py) as a protocol: durable job records shared by
  Web processes, detached runners, reboots and an unreliable `systemctl`. Time is in microseconds.
 */
module JobProtocol {
  import opened Common

  const SECOND: int := 1_000_000
  const MINUTE: int := 60 * SECOND
  const MAX_RECORDS: nat := 50

  type JobId = nat

  datatype Kind = Rollback | SoftwareUpdate | ConfigImport
  datatype Status = Queued | Running | Succeeded | Failed | Interrupted
  datatype Verdict = RunnerInterrupted | LauncherFailed | BootChanged | OperationFailed | Completed | TimedOut
  datatype UnitState = UnitActive | UnitActivating | UnitDeactivating | UnitInactive | UnitFailed | UnitUnknown
  datatype LoadState = Loaded | NotFound | LoadUnknown

  datatype Job = Job(kind: Kind, status: Status, created: int, boot: nat,
                     snapshotId: Option<string>, importId: Option<string>,
                     started: Option<int>, finished: Option<int>, verdict: Option<Verdict>)

  predicate Active(s: Status) {
    s == Queued || s == Running
  }

  /** `_utc_now` drops the fraction of a second. */
  function Stamp(now: int): int {
    now - now % SECOND
  }

  /** `_validate_record`: what may be read or written at all. */
  predicate Valid(j: Job) {
    && (j.started.Some? ==> j.created <= j.started.value)
    && (j.finished.Some? ==> j.created <= j.finished.value)
    && (j.started.Some? && j.finished.Some? ==> j.started.value <= j.finished.value)
    && (j.kind.Rollback? <==> j.snapshotId.Some?)
    && (j.kind.ConfigImport? <==> j.importId.Some?)
    && (j.status == Queued ==> j.started.None? && j.finished.None? && j.verdict.None?)
    && (j.status == Running ==> j.started.Some? && j.finished.None? && j.verdict.None?)
    && (!Active(j.status) ==> j.finished.Some? && j.verdict.Some?)
    && (j.status == Succeeded ==> j.verdict == Some(Completed))
    && (j.status == Failed ==> j.verdict in {Some(LauncherFailed), Some(OperationFailed), Some(TimedOut)})
    && (j.status == Interrupted ==> j.verdict in {Some(RunnerInterrupted), Some(BootChanged)})
    && (j.status == Succeeded || j.verdict in {Some(OperationFailed), Some(TimedOut)} ==> j.started.Some?)
    && (j.verdict in {Some(LauncherFailed), Some(BootChanged)} ==> j.started.None?)
  }

  /**
    What the gate depends on: `honest` says that `systemctl` reports inactive or failed only of runners
    without work left, `launch` bounds the delay between a claim and its command.
   */
  datatype Limits = Limits(honest: bool, launch: int, run: map<Kind, int>, unknown: map<Kind, int>)

  ghost predicate Complete(l: Limits) {
    && l.launch >= 0
    && (forall k: Kind :: k in l.run && k in l.unknown && l.run[k] >= 0)
  }

  /** The limits written in the source. */
  function SourceLimits(launch: int): Limits {
    Limits(true, launch,
           map[Rollback := 15 * MINUTE, ConfigImport := 20 * MINUTE, SoftwareUpdate := 45 * MINUTE],
           map[Rollback := 25 * MINUTE, ConfigImport := 25 * MINUTE, SoftwareUpdate := 50 * MINUTE])
  }

  // ---- reconciliation ----

  function Age(j: Job, now: int): int {
    var since := if j.status == Running && j.started.Some? then j.started.value else j.created;
    if now >= since then now - since else 0
  }

  /** `_reconcile`: does this record count as interrupted, given the answer of `systemctl`? */
  predicate Lost(l: Limits, j: Job, now: int, boot: nat, unit: UnitState)
    requires j.kind in l.unknown
  {
    Active(j.status) &&
    (j.boot != boot ||
     ((j.status == Running || Age(j, now) >= MINUTE) &&
      (unit in {UnitInactive, UnitFailed} ||
       (unit == UnitUnknown &&
        Age(j, now) >= if j.status == Queued then 5 * MINUTE else l.unknown[j.kind]))))
  }

  function Reconciled(l: Limits, j: Job, now: int, boot: nat, unit: UnitState): Job
    requires j.kind in l.unknown
  {
    if Lost(l, j, now, boot, unit) then
      j.(status := Interrupted, finished := Some(Stamp(now)), verdict := Some(RunnerInterrupted))
    else j
  }

  // ---- the world ----

  /** A live runner process: has claimed its job, runs its command, or has a result to report. */
  datatype Runner = Claimed(at: int) | Commanding(at: int, since: int) | Reporting(status: Status, verdict: Verdict)

  datatype World = World(
    now: int, boot: nat,
    jobs: map<JobId, Job>,
    runners: map<JobId, Runner>,
    guarded: bool,              // a synchronous maintenance action holds the lock
    issued: set<JobId>,
    begun: seq<JobId>)          // commands started so far, in order

  predicate Working(runners: map<JobId, Runner>, id: JobId) {
    id in runners && !runners[id].Reporting?
  }

  ghost predicate Initial(w: World) {
    w.now >= 0 && w.jobs == map[] && w.runners == map[] && !w.guarded && w.issued == {} && w.begun == []
  }

  datatype Event =
    | Tick(d: int)
    | Reboot
    | Reconcile(id: JobId, unit: UnitState)
    | Submit(id: JobId, kind: Kind, snapshotId: Option<string>, importId: Option<string>)
    | LaunchFailed(id: JobId)
    | Claim(id: JobId)
    | BeginCommand(id: JobId)
    | EndCommand(id: JobId, status: Status, verdict: Verdict)
    | Report(id: JobId)
    | Die(id: JobId)
    | Prune(id: JobId)
    | EnterGuard
    | LeaveGuard

  ghost predicate Idle(jobs: map<JobId, Job>) {
    forall id | id in jobs :: !Active(jobs[id].status)
  }

  /** Time passes no further than a runner's launch delay or its command's timeout allows. */
  ghost predicate InTime(l: Limits, w: World, now: int) {
    forall id | Working(w.runners, id) && id in w.jobs ::
      match w.runners[id]
      case Claimed(at) => now <= at + l.launch
      case Commanding(at, since) => w.jobs[id].kind in l.run && now <= since + l.run[w.jobs[id].kind]
      case Reporting(_, _) => true
  }

  function Forget<V>(m: map<JobId, V>, id: JobId): map<JobId, V> {
    map j | j in m && j != id :: m[j]
  }

  ghost function OnTick(l: Limits, w: World, d: int): Option<World> {
    if d < 0 || !InTime(l, w, w.now + d) then None else Some(w.(now := w.now + d))
  }

  /** Every process is gone and the boot id is a new one. */
  ghost function OnReboot(w: World): Option<World> {
    Some(w.(boot := w.boot + 1, runners := map[], guarded := false))
  }

  predicate Believable(l: Limits, runners: map<JobId, Runner>, id: JobId, unit: UnitState) {
    l.honest && unit in {UnitInactive, UnitFailed} ==> !Working(runners, id)
  }

  ghost function OnReconcile(l: Limits, w: World, id: JobId, unit: UnitState): Option<World> {
    if w.guarded || id !in w.jobs || w.jobs[id].kind !in l.unknown
      || !Believable(l, w.runners, id, unit) then None else
    Some(w.(jobs := w.jobs[id := Reconciled(l, w.jobs[id], w.now, w.boot, unit)]))
  }

  ghost function OnSubmit(w: World, id: JobId, kind: Kind, snapshotId: Option<string>, importId: Option<string>)
    : Option<World>
  {
    if w.guarded || id in w.issued || !Idle(w.jobs)
      || (kind.Rollback? <==> snapshotId.None?) || (kind.ConfigImport? <==> importId.None?) then None else
    Some(w.(jobs := w.jobs[id := Job(kind, Queued, Stamp(w.now), w.boot, snapshotId, importId, None, None, None)],
            issued := w.issued + {id}))
  }

  ghost function OnLaunchFailed(w: World, id: JobId): Option<World> {
    if w.guarded || id !in w.jobs || w.jobs[id].status != Queued then None else
    Some(w.(jobs := w.jobs[id := w.jobs[id].(status := Failed, finished := Some(Stamp(w.now)),
                                             verdict := Some(LauncherFailed))]))
  }

  /** What the first critical section of `run` writes. */
  function ClaimedJob(j: Job, now: int, boot: nat): Job {
    if j.boot != boot then j.(status := Interrupted, finished := Some(Stamp(now)), verdict := Some(BootChanged))
    else j.(status := Running, started := Some(Stamp(now)))
  }

  ghost function OnClaim(w: World, id: JobId): Option<World> {
    if w.guarded || id !in w.jobs || w.jobs[id].status != Queued then None else
    Some(w.(jobs := w.jobs[id := ClaimedJob(w.jobs[id], w.now, w.boot)],
            runners := if w.jobs[id].boot != w.boot then w.runners else w.runners[id := Claimed(w.now)]))
  }

  ghost function OnBeginCommand(w: World, id: JobId): Option<World> {
    if id !in w.runners || !w.runners[id].Claimed? then None else
    Some(w.(runners := w.runners[id := Commanding(w.runners[id].at, w.now)], begun := w.begun + [id]))
  }

  ghost function OnEndCommand(w: World, id: JobId, status: Status, verdict: Verdict): Option<World> {
    if !Working(w.runners, id)
      || (status, verdict) !in {(Succeeded, Completed), (Failed, OperationFailed), (Failed, TimedOut)}
      || (w.runners[id].Claimed? && verdict != OperationFailed) then None else
    Some(w.(runners := w.runners[id := Reporting(status, verdict)]))
  }

  /** The last critical section of `run`: an active record gets the result, any other is left alone. */
  function Reported(j: Job, now: int, status: Status, verdict: Verdict): Job {
    if Active(j.status) then j.(status := status, finished := Some(Stamp(now)), verdict := Some(verdict)) else j
  }

  ghost function OnReport(w: World, id: JobId): Option<World> {
    if w.guarded || id !in w.runners || !w.runners[id].Reporting? then None else
    var r := w.runners[id];
    Some(w.(runners := Forget(w.runners, id),
            jobs := if id in w.jobs then w.jobs[id := Reported(w.jobs[id], w.now, r.status, r.verdict)] else w.jobs))
  }

  ghost function OnDie(w: World, id: JobId): Option<World> {
    if id !in w.runners then None else Some(w.(runners := Forget(w.runners, id)))
  }

  ghost function OnPrune(w: World, id: JobId): Option<World> {
    if w.guarded || id !in w.jobs || Active(w.jobs[id].status) then None else
    Some(w.(jobs := Forget(w.jobs, id)))
  }

  ghost function OnEnterGuard(w: World): Option<World> {
    if w.guarded || !Idle(w.jobs) then None else Some(w.(guarded := true))
  }

  ghost function OnLeaveGuard(w: World): Option<World> {
    if !w.guarded then None else Some(w.(guarded := false))
  }

  ghost function Next(l: Limits, w: World, e: Event): Option<World> {
    match e
    case Tick(d) => OnTick(l, w, d)
    case Reboot => OnReboot(w)
    case Reconcile(id, unit) => OnReconcile(l, w, id, unit)
    case Submit(id, kind, snapshotId, importId) => OnSubmit(w, id, kind, snapshotId, importId)
    case LaunchFailed(id) => OnLaunchFailed(w, id)
    case Claim(id) => OnClaim(w, id)
    case BeginCommand(id) => OnBeginCommand(w, id)
    case EndCommand(id, status, verdict) => OnEndCommand(w, id, status, verdict)
    case Report(id) => OnReport(w, id)
    case Die(id) => OnDie(w, id)
    case Prune(id) => OnPrune(w, id)
    case EnterGuard => OnEnterGuard(w)
    case LeaveGuard => OnLeaveGuard(w)
  }

  ghost function Exec(l: Limits, w: World, es: seq<Event>): Option<World>
    decreases |es|
  {
    if es == [] then Some(w) else
    match Next(l, w, es[0])
    case None => None
    case Some(w') => Exec(l, w', es[1..])
  }

  ghost predicate Reachable(l: Limits, w: World) {
    exists w0, es :: Initial(w0) && Exec(l, w0, es) == Some(w)
  }
}
