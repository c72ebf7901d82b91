/** Mutual exclusion of maintenance jobs, and exactly which time limits it needs. */
module JobTheorems {
  import opened Common
  import opened JobProtocol

  ghost predicate OneActive(jobs: map<JobId, Job>) {
    forall i, j | i in jobs && j in jobs && Active(jobs[i].status) && Active(jobs[j].status) :: i == j
  }

  ghost predicate JobsOk(jobs: map<JobId, Job>, now: int, boot: nat) {
    forall id | id in jobs :: JobOk(jobs[id], now, boot)
  }

  ghost predicate JobOk(j: Job, now: int, boot: nat) {
    && Valid(j) && j.boot <= boot
    && j.created <= Stamp(now) && (j.started.Some? ==> j.started.value <= Stamp(now))
  }

  /** A runner with work left stands behind the one running record, and is within its time. */
  ghost predicate WorkOk(l: Limits, jobs: map<JobId, Job>, r: Runner, id: JobId, now: int, boot: nat) {
    && id in jobs && jobs[id].status == Running && jobs[id].boot == boot
    && match r
       case Claimed(at) => jobs[id].started == Some(Stamp(at)) && at <= now <= at + l.launch
       case Commanding(at, since) =>
         && jobs[id].started == Some(Stamp(at)) && at <= since <= at + l.launch
         && jobs[id].kind in l.run && since <= now <= since + l.run[jobs[id].kind]
       case Reporting(_, _) => true
  }

  ghost predicate RunnersOk(l: Limits, w: World) {
    forall id | Working(w.runners, id) :: WorkOk(l, w.jobs, w.runners[id], id, w.now, w.boot)
  }

  /** A command that began belongs to a claimed job, and no command began twice. */
  ghost predicate BegunOk(w: World) {
    && (forall i, j | 0 <= i < j < |w.begun| :: w.begun[i] != w.begun[j])
    && (forall id | id in w.begun ::
          && id in w.issued
          && (id in w.jobs ==> w.jobs[id].status != Queued)
          && (id in w.runners ==> !w.runners[id].Claimed?))
    && (forall id | id in w.jobs && w.jobs[id].status == Queued :: id !in w.runners)
  }

  ghost predicate ReportsOk(runners: map<JobId, Runner>) {
    forall id | id in runners && runners[id].Reporting? ::
      (runners[id].status, runners[id].verdict) in
        {(Succeeded, Completed), (Failed, OperationFailed), (Failed, TimedOut)}
  }

  /** What holds of the records whatever the time limits are. */
  ghost predicate RecordInv(w: World) {
    && w.now >= 0
    && w.jobs.Keys <= w.issued && w.runners.Keys <= w.issued
    && OneActive(w.jobs) && (w.guarded ==> Idle(w.jobs))
    && JobsOk(w.jobs, w.now, w.boot) && BegunOk(w) && ReportsOk(w.runners)
  }

  ghost predicate Inv(l: Limits, w: World) {
    RecordInv(w) && RunnersOk(l, w)
  }

  /** The run limits, the launch delay and the lost second together stay within the "unknown" limits. */
  ghost predicate Safe(l: Limits) {
    && Complete(l) && l.honest
    && forall k: Kind :: k in l.run && k in l.unknown && l.launch + l.run[k] + SECOND <= l.unknown[k]
  }

  lemma StampMonotone(a: int, b: int)
    requires a <= b
    ensures Stamp(a) <= Stamp(b) <= b < Stamp(b) + SECOND
  {
  }

  /** With safe limits no record whose runner has work left is ever declared lost. */
  lemma WorkingIsNeverLost(l: Limits, w: World, id: JobId, unit: UnitState)
    requires Safe(l) && Inv(l, w) && Working(w.runners, id)
    requires unit !in {UnitInactive, UnitFailed}
    ensures !Lost(l, w.jobs[id], w.now, w.boot, unit)
  {
  }

  // ---- the records, for any limits ----

  lemma RecordsClock(l: Limits, w: World, e: Event, w': World)
    requires RecordInv(w) && Next(l, w, e) == Some(w')
    requires e.Tick? || e.Reboot? || e.EnterGuard? || e.LeaveGuard?
    ensures RecordInv(w')
  {
  }

  /** Rewriting one active record, without making a second one active. */
  lemma RecordsRewrite(w: World, id: JobId, j: Job, runners: map<JobId, Runner>)
    requires RecordInv(w) && id in w.jobs && !w.guarded && JobOk(j, w.now, w.boot) && j.status != Queued
    requires Active(j.status) ==> Active(w.jobs[id].status)
    requires runners.Keys <= w.issued && ReportsOk(runners)
    requires forall i | i in runners && i != id :: i in w.runners && runners[i] == w.runners[i]
    requires id in w.begun && id in runners ==> !runners[id].Claimed?
    ensures RecordInv(w.(jobs := w.jobs[id := j], runners := runners))
  {
  }

  lemma RecordsReconcile(l: Limits, w: World, e: Event, w': World)
    requires RecordInv(w) && Next(l, w, e) == Some(w') && e.Reconcile?
    ensures RecordInv(w')
  {
    StampMonotone(w.now, w.now);
    assert JobOk(w.jobs[e.id], w.now, w.boot);
    if w'.jobs[e.id] == w.jobs[e.id] {
      assert w'.jobs == w.jobs;
    } else {
      RecordsRewrite(w, e.id, w'.jobs[e.id], w.runners);
    }
  }

  lemma RecordsClaim(l: Limits, w: World, e: Event, w': World)
    requires RecordInv(w) && Next(l, w, e) == Some(w')
    requires e.LaunchFailed? || e.Claim?
    ensures RecordInv(w')
  {
    StampMonotone(w.now, w.now);
    assert JobOk(w.jobs[e.id], w.now, w.boot);
    RecordsRewrite(w, e.id, w'.jobs[e.id], w'.runners);
  }

  lemma RecordsSubmit(l: Limits, w: World, e: Event, w': World)
    requires RecordInv(w) && Next(l, w, e) == Some(w')
    requires e.Submit? || e.Prune?
    ensures RecordInv(w')
  {
    StampMonotone(w.now, w.now);
  }

  lemma RecordsReport(l: Limits, w: World, e: Event, w': World)
    requires RecordInv(w) && Next(l, w, e) == Some(w')
    requires e.Report?
    ensures RecordInv(w')
  {
    StampMonotone(w.now, w.now);
    if e.id in w.jobs {
      assert JobOk(w.jobs[e.id], w.now, w.boot);
    }
  }

  lemma RecordsRunner(l: Limits, w: World, e: Event, w': World)
    requires RecordInv(w) && Next(l, w, e) == Some(w')
    requires e.BeginCommand? || e.EndCommand? || e.Die?
    ensures RecordInv(w')
  {
  }

  lemma StepRecords(l: Limits, w: World, e: Event, w': World)
    requires RecordInv(w) && Next(l, w, e) == Some(w')
    ensures RecordInv(w')
  {
    match e
    case Tick(_) => RecordsClock(l, w, e, w');
    case Reboot => RecordsClock(l, w, e, w');
    case EnterGuard => RecordsClock(l, w, e, w');
    case LeaveGuard => RecordsClock(l, w, e, w');
    case Reconcile(_, _) => RecordsReconcile(l, w, e, w');
    case LaunchFailed(_) => RecordsClaim(l, w, e, w');
    case Claim(_) => RecordsClaim(l, w, e, w');
    case Submit(_, _, _, _) => RecordsSubmit(l, w, e, w');
    case Prune(_) => RecordsSubmit(l, w, e, w');
    case Report(_) => RecordsReport(l, w, e, w');
    case BeginCommand(_) => RecordsRunner(l, w, e, w');
    case EndCommand(_, _, _) => RecordsRunner(l, w, e, w');
    case Die(_) => RecordsRunner(l, w, e, w');
  }

  lemma {:induction false} RunKeepsRecords(l: Limits, w: World, es: seq<Event>, w': World)
    requires RecordInv(w) && Exec(l, w, es) == Some(w')
    ensures RecordInv(w')
    decreases |es|
  {
    if es != [] {
      StepRecords(l, w, es[0], Next(l, w, es[0]).value);
      RunKeepsRecords(l, Next(l, w, es[0]).value, es[1..], w');
    }
  }

  lemma ReachableRecords(l: Limits, w: World)
    requires Reachable(l, w)
    ensures RecordInv(w)
  {
    var w0, es :| Initial(w0) && Exec(l, w0, es) == Some(w);
    assert RecordInv(w0);
    RunKeepsRecords(l, w0, es, w);
  }

  // ---- the runners, with safe limits ----

  lemma RunnersClock(l: Limits, w: World, e: Event, w': World)
    requires Inv(l, w) && Next(l, w, e) == Some(w')
    requires e.Tick? || e.Reboot? || e.EnterGuard? || e.LeaveGuard? || e.Prune? || e.Submit?
    ensures RunnersOk(l, w')
  {
  }

  lemma RunnersReconcile(l: Limits, w: World, e: Event, w': World)
    requires Safe(l) && Inv(l, w) && Next(l, w, e) == Some(w') && e.Reconcile?
    ensures RunnersOk(l, w')
  {
  }

  lemma RunnersClaim(l: Limits, w: World, e: Event, w': World)
    requires Safe(l) && Inv(l, w) && Next(l, w, e) == Some(w')
    requires e.LaunchFailed? || e.Claim? || e.Report?
    ensures RunnersOk(l, w')
  {
    forall j | Working(w'.runners, j) && j != e.id ensures WorkOk(l, w'.jobs, w'.runners[j], j, w'.now, w'.boot) {
      assert WorkOk(l, w.jobs, w.runners[j], j, w.now, w.boot);
    }
  }

  lemma RunnersWork(l: Limits, w: World, e: Event, w': World)
    requires Safe(l) && Inv(l, w) && Next(l, w, e) == Some(w')
    requires e.BeginCommand? || e.EndCommand? || e.Die?
    ensures RunnersOk(l, w')
  {
  }

  lemma Step(l: Limits, w: World, e: Event, w': World)
    requires Safe(l) && Inv(l, w) && Next(l, w, e) == Some(w')
    ensures Inv(l, w')
  {
    StepRecords(l, w, e, w');
    match e
    case Tick(_) => RunnersClock(l, w, e, w');
    case Reboot => RunnersClock(l, w, e, w');
    case EnterGuard => RunnersClock(l, w, e, w');
    case LeaveGuard => RunnersClock(l, w, e, w');
    case Prune(_) => RunnersClock(l, w, e, w');
    case Submit(_, _, _, _) => RunnersClock(l, w, e, w');
    case Reconcile(_, _) => RunnersReconcile(l, w, e, w');
    case LaunchFailed(_) => RunnersClaim(l, w, e, w');
    case Claim(_) => RunnersClaim(l, w, e, w');
    case Report(_) => RunnersClaim(l, w, e, w');
    case BeginCommand(_) => RunnersWork(l, w, e, w');
    case EndCommand(_, _, _) => RunnersWork(l, w, e, w');
    case Die(_) => RunnersWork(l, w, e, w');
  }

  lemma {:induction false} RunKeepsInv(l: Limits, w: World, es: seq<Event>, w': World)
    requires Safe(l) && Inv(l, w) && Exec(l, w, es) == Some(w')
    ensures Inv(l, w')
    decreases |es|
  {
    if es != [] {
      Step(l, w, es[0], Next(l, w, es[0]).value);
      RunKeepsInv(l, Next(l, w, es[0]).value, es[1..], w');
    }
  }

  lemma ReachableInv(l: Limits, w: World)
    requires Safe(l) && Reachable(l, w)
    ensures Inv(l, w)
  {
    var w0, es :| Initial(w0) && Exec(l, w0, es) == Some(w);
    RunKeepsInv(l, w0, es, w);
  }

  // ---- what the gate promises ----

  ghost predicate RunsCommand(w: World, id: JobId) {
    id in w.runners && w.runners[id].Commanding?
  }

  /** No two commands, and no command together with a guarded maintenance action. */
  ghost predicate Exclusive(w: World) {
    && (forall i, j | RunsCommand(w, i) && RunsCommand(w, j) :: i == j)
    && (w.guarded ==> forall i :: !RunsCommand(w, i))
  }

  lemma MutualExclusion(l: Limits, w: World)
    requires Safe(l) && Reachable(l, w)
    ensures Exclusive(w)
  {
    ReachableInv(l, w);
    forall i | RunsCommand(w, i) ensures i in w.jobs && Active(w.jobs[i].status) {
      assert Working(w.runners, i);
      assert WorkOk(l, w.jobs, w.runners[i], i, w.now, w.boot);
    }
  }

  /** It ended, and not before it began. */
  predicate Ended(j: Job) {
    && j.finished.Some? && j.created <= j.finished.value
    && (j.started.Some? ==> j.started.value <= j.finished.value)
  }

  /** Whatever the limits are, the record set stays sound: one active record, valid records, one start per job. */
  lemma RecordsStaySound(l: Limits, w: World)
    requires Reachable(l, w)
    ensures OneActive(w.jobs)
    ensures forall id | id in w.jobs :: Valid(w.jobs[id])
    ensures forall id | id in w.jobs ::
              match w.jobs[id].status
              case Queued => w.jobs[id].started.None? && w.jobs[id].finished.None? && w.jobs[id].verdict.None?
              case Running => w.jobs[id].started.Some? && w.jobs[id].finished.None? && w.jobs[id].verdict.None?
              case Succeeded => Ended(w.jobs[id]) && w.jobs[id].verdict == Some(Completed) && w.jobs[id].started.Some?
              case Failed =>
                && Ended(w.jobs[id])
                && ((w.jobs[id].verdict == Some(LauncherFailed) && w.jobs[id].started.None?)
                    || (w.jobs[id].verdict in {Some(OperationFailed), Some(TimedOut)} && w.jobs[id].started.Some?))
              case Interrupted =>
                && Ended(w.jobs[id])
                && (w.jobs[id].verdict == Some(RunnerInterrupted)
                    || (w.jobs[id].verdict == Some(BootChanged) && w.jobs[id].started.None?))
    ensures forall id | id in w.jobs && w.jobs[id].started.Some? :: w.jobs[id].created <= w.jobs[id].started.value
    ensures forall id | id in w.jobs ::
              && (w.jobs[id].kind.Rollback? <==> w.jobs[id].snapshotId.Some?)
              && (w.jobs[id].kind.ConfigImport? <==> w.jobs[id].importId.Some?)
    ensures forall i, j | 0 <= i < j < |w.begun| :: w.begun[i] != w.begun[j]
    ensures w.guarded ==> Idle(w.jobs)
  {
    ReachableRecords(l, w);
  }

  /** A terminal record is never written again; it can only be pruned. */
  lemma TerminalStays(l: Limits, w: World, e: Event, w': World, id: JobId)
    requires Reachable(l, w) && Next(l, w, e) == Some(w')
    requires id in w.jobs && !Active(w.jobs[id].status) && id in w'.jobs
    ensures w'.jobs[id] == w.jobs[id]
  {
    ReachableRecords(l, w);
  }

  // ---- what reconciliation decides ----

  predicate IsInterrupted(before: Job, after: Job, now: int) {
    after == before.(status := Interrupted, finished := Some(Stamp(now)), verdict := Some(RunnerInterrupted))
  }

  /** A finished record, and any record whose unit is seen alive in this boot, stays as it is. */
  lemma LiveStays(l: Limits, j: Job, now: int, boot: nat, unit: UnitState)
    requires j.kind in l.unknown
    requires j.status in {Succeeded, Failed, Interrupted}
             || (j.boot == boot && unit in {UnitActive, UnitActivating, UnitDeactivating})
    ensures Reconciled(l, j, now, boot, unit) == j
  {
  }

  /** Queued or running, a record of another boot is interrupted at once. */
  lemma OtherBootIsInterrupted(l: Limits, j: Job, now: int, boot: nat, unit: UnitState)
    requires j.kind in l.unknown && j.status in {Queued, Running} && j.boot != boot
    ensures IsInterrupted(j, Reconciled(l, j, now, boot, unit), now)
  {
  }

  /**
    A queued record of this boot is left alone for a minute, whatever `systemctl` says. From then on it is interrupted
    if the unit is inactive or failed, and from five minutes on also if nothing is known of the unit.
   */
  lemma QueuedIsInterruptedIff(l: Limits, j: Job, now: int, unit: UnitState)
    requires j.kind in l.unknown && j.status == Queued
    ensures var interrupted := (now >= j.created + 60_000_000 && unit in {UnitInactive, UnitFailed})
                               || (now >= j.created + 300_000_000 && unit == UnitUnknown);
            if interrupted then IsInterrupted(j, Reconciled(l, j, now, j.boot, unit), now)
            else Reconciled(l, j, now, j.boot, unit) == j
  {
  }

  /**
    A running record of this boot is interrupted if its unit is inactive or failed, at any age, and if nothing is known
    of the unit once it has run as long as its kind may go without an answer.
   */
  lemma RunningIsInterruptedIff(l: Limits, j: Job, now: int, unit: UnitState)
    requires j.kind in l.unknown && l.unknown[j.kind] > 0 && j.status == Running && j.started.Some?
    ensures var interrupted := unit in {UnitInactive, UnitFailed}
                               || (now >= j.started.value + l.unknown[j.kind] && unit == UnitUnknown);
            if interrupted then IsInterrupted(j, Reconciled(l, j, now, j.boot, unit), now)
            else Reconciled(l, j, now, j.boot, unit) == j
  {
  }

  /** In the source a software update may be unknown for 50 minutes, any other job for 25. */
  lemma SourceWaits(launch: int, j: Job, now: int)
    requires j.status == Running && j.started.Some?
    ensures j.kind in SourceLimits(launch).unknown
    ensures Reconciled(SourceLimits(launch), j, now, j.boot, UnitUnknown) == j <==>
              now < j.started.value + if j.kind.SoftwareUpdate? then 3_000_000_000 else 1_500_000_000
  {
  }

  // ---- a job that was just accepted gets its chance ----

  /** A step of another boot, or one by which the job itself leaves the queue. */
  predicate Touches(e: Event, id: JobId) {
    e.Reboot? || (e.Claim? && e.id == id) || (e.LaunchFailed? && e.id == id)
  }

  lemma FreshStep(l: Limits, w: World, e: Event, w': World, id: JobId)
    requires RecordInv(w) && Next(l, w, e) == Some(w') && !Touches(e, id)
    requires id in w.jobs && w.jobs[id].status == Queued && w.jobs[id].boot == w.boot
    requires w'.now < w.jobs[id].created + MINUTE
    ensures id in w'.jobs && w'.jobs[id] == w.jobs[id] && w'.boot == w.boot && w.now <= w'.now
  {
    if e.Reconcile? && e.id == id {
      QueuedIsInterruptedIff(l, w.jobs[id], w.now, e.unit);
    }
  }

  lemma {:induction false} TimePasses(l: Limits, w: World, es: seq<Event>, w': World)
    requires Exec(l, w, es) == Some(w')
    ensures w.now <= w'.now
    decreases |es|
  {
    if es != [] {
      TimePasses(l, Next(l, w, es[0]).value, es[1..], w');
    }
  }

  /**
    Over every run within one boot, a queued job that nobody claims or reports as not launched is still queued after
    less than a minute and can be claimed, whatever `systemctl` answered in between.
   */
  lemma {:induction false} FreshJobCanBeClaimed(l: Limits, w: World, es: seq<Event>, w': World, id: JobId)
    requires RecordInv(w) && Exec(l, w, es) == Some(w')
    requires forall e | e in es :: !Touches(e, id)
    requires id in w.jobs && w.jobs[id].status == Queued && w.jobs[id].boot == w.boot
    requires w'.now < w.jobs[id].created + 60_000_000
    ensures id in w'.jobs && w'.jobs[id] == w.jobs[id] && w'.boot == w.boot
    ensures !w'.guarded && Next(l, w', Claim(id)).Some?
    ensures Next(l, w', Claim(id)).value.jobs[id].status == Running
    decreases |es|
  {
    if es != [] {
      var v := Next(l, w, es[0]).value;
      TimePasses(l, v, es[1..], w');
      StepRecords(l, w, es[0], v);
      FreshStep(l, w, es[0], v, id);
      FreshJobCanBeClaimed(l, v, es[1..], w', id);
    }
  }

  // ---- limits that are too short let two commands overlap ----

  lemma ReachStep(l: Limits, w: World, e: Event, w': World)
    requires Reachable(l, w) && Next(l, w, e) == Some(w')
    ensures Reachable(l, w')
  {
    var w0, es :| Initial(w0) && Exec(l, w0, es) == Some(w);
    ExecSnoc(l, w0, es, e);
  }

  lemma ExecSnoc(l: Limits, w: World, es: seq<Event>, e: Event)
    ensures Exec(l, w, es + [e]) == match Exec(l, w, es) case None => None case Some(v) => Next(l, v, e)
    decreases |es|
  {
    if es == [] {
      assert Exec(l, w, [e]) == match Next(l, w, e) case None => None case Some(v) => Exec(l, v, []);
    } else if Next(l, w, es[0]).Some? {
      assert (es + [e])[1..] == es[1..] + [e];
      ExecSnoc(l, Next(l, w, es[0]).value, es[1..], e);
    }
  }

  ghost function Snapshot(k: Kind): Option<string> {
    if k.Rollback? then Some("20240101-000000") else None
  }

  ghost function Import(k: Kind): Option<string> {
    if k.ConfigImport? then Some("imp-0") else None
  }

  ghost function RunningJob(k: Kind, at: int): Job {
    Job(k, Running, Stamp(at), 0, Snapshot(k), Import(k), Some(Stamp(at)), None, None)
  }

  ghost function LostJob(k: Kind, at: int, now: int): Job {
    RunningJob(k, at).(status := Interrupted, finished := Some(Stamp(now)), verdict := Some(RunnerInterrupted))
  }

  /** From an idle world a job of any kind can be submitted, claimed and started. */
  lemma StartJob(l: Limits, w: World, id: JobId, k: Kind) returns (w': World)
    requires Complete(l) && Reachable(l, w) && !w.guarded && Idle(w.jobs)
    requires id !in w.issued && id !in w.runners && w.boot == 0
    ensures Reachable(l, w') && w' == w.(jobs := w.jobs[id := RunningJob(k, w.now)], issued := w.issued + {id},
                                         runners := w.runners[id := Claimed(w.now)])
  {
    var e := Submit(id, k, Snapshot(k), Import(k));
    var w1 := Next(l, w, e).value;
    ReachStep(l, w, e, w1);
    w' := Next(l, w1, Claim(id)).value;
    ReachStep(l, w1, Claim(id), w');
    assert w'.jobs == w.jobs[id := RunningJob(k, w.now)];
  }

  lemma BeginIt(l: Limits, w: World, id: JobId) returns (w': World)
    requires Reachable(l, w) && id in w.runners && w.runners[id].Claimed?
    ensures Reachable(l, w') && w' == w.(runners := w.runners[id := Commanding(w.runners[id].at, w.now)],
                                         begun := w.begun + [id])
  {
    w' := Next(l, w, BeginCommand(id)).value;
    ReachStep(l, w, BeginCommand(id), w');
  }

  lemma Wait(l: Limits, w: World, d: int) returns (w': World)
    requires Reachable(l, w) && d >= 0 && InTime(l, w, w.now + d)
    ensures Reachable(l, w') && w' == w.(now := w.now + d)
  {
    w' := w.(now := w.now + d);
    ReachStep(l, w, Tick(d), w');
  }

  /** One job that starts as late and runs as long as allowed, just past a second boundary. */
  lemma SlowJob(l: Limits, k: Kind) returns (w: World)
    requires Complete(l)
    ensures Reachable(l, w) && !w.guarded && w.boot == 0 && w.now == SECOND - 1 + l.launch + l.run[k]
    ensures w.jobs == map[0 := RunningJob(k, SECOND - 1)] && w.issued == {0}
    ensures w.runners == map[0 := Commanding(SECOND - 1, SECOND - 1 + l.launch)]
  {
    var w0 := World(SECOND - 1, 0, map[], map[], false, {}, []);
    assert Exec(l, w0, []) == Some(w0);
    w := StartJob(l, w0, 0, k);
    w := Wait(l, w, l.launch);
    w := BeginIt(l, w, 0);
    w := Wait(l, w, l.run[k]);
  }

  /**
    If `systemctl` may lie, or any kind may run longer than its "unknown" limit covers, two commands
    can run at once.
   */
  lemma ShortLimitsOverlap(l: Limits, k: Kind) returns (w: World)
    requires Complete(l) && (!l.honest || l.launch + l.run[k] + SECOND > l.unknown[k])
    ensures Reachable(l, w) && RunsCommand(w, 0) && RunsCommand(w, 1)
  {
    var s := SlowJob(l, k);
    var unit := if l.honest then UnitUnknown else UnitInactive;
    assert Stamp(SECOND - 1) == 0;
    assert Lost(l, s.jobs[0], s.now, 0, unit);
    var v := s.(jobs := map[0 := LostJob(k, SECOND - 1, s.now)]);
    assert s.jobs[0 := LostJob(k, SECOND - 1, s.now)] == v.jobs;
    ReachStep(l, s, Reconcile(0, unit), v);
    w := StartJob(l, v, 1, k);
    w := BeginIt(l, w, 1);
  }

  /** Mutual exclusion over every run holds exactly for an honest `systemctl` and safe limits. */
  lemma ExclusiveIffSafe(l: Limits)
    requires Complete(l)
    ensures (forall w | Reachable(l, w) :: Exclusive(w)) <==> Safe(l)
  {
    if Safe(l) {
      forall w | Reachable(l, w) ensures Exclusive(w) {
        MutualExclusion(l, w);
      }
    } else {
      var k: Kind :| !l.honest || l.launch + l.run[k] + SECOND > l.unknown[k];
      var w := ShortLimitsOverlap(l, k);
      assert !Exclusive(w);
    }
  }

  /** The limits in the source are safe exactly when a claimed command starts within 299 seconds. */
  lemma SourceLimitsSafeIff(launch: int)
    requires launch >= 0
    ensures Safe(SourceLimits(launch)) <==> launch <= 5 * MINUTE - SECOND
  {
    var l := SourceLimits(launch);
    forall k: Kind ensures k in l.run && k in l.unknown && l.run[k] >= 0 {
      match k
      case Rollback =>
      case ConfigImport =>
      case SoftwareUpdate =>
    }
    assert l.launch + l.run[ConfigImport] + SECOND <= l.unknown[ConfigImport] <==> launch <= 5 * MINUTE - SECOND;
  }
}
