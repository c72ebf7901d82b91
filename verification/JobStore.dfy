/** `JobStore` as imperative code: records are rewritten in place, one locked section per method. */
module JobStore {
  import opened Common
  import opened JobProtocol
  import opened JobTheorems

  /** Every name in `done` is newer than every name in `todo`. */
  ghost predicate NewestFirst(done: set<JobId>, todo: set<JobId>) {
    forall d, t | d in done && t in todo :: t < d
  }

  lemma TakeNewest(done: set<JobId>, todo: set<JobId>, id: JobId)
    requires NewestFirst(done, todo) && id in todo && forall t | t in todo :: t <= id
    ensures NewestFirst(done + {id}, todo - {id}) && NewestFirst(done, {id})
  {
  }

  /** The whole store after one reconciliation of every record. */
  function AllReconciled(l: Limits, jobs: map<JobId, Job>, now: int, boot: nat, unitOf: JobId -> UnitState)
    : map<JobId, Job>
  {
    map id | id in jobs && jobs[id].kind in l.unknown :: Reconciled(l, jobs[id], now, boot, unitOf(id))
  }

  function Without(jobs: map<JobId, Job>, gone: set<JobId>): map<JobId, Job> {
    map id | id in jobs && id !in gone :: jobs[id]
  }

  lemma WithoutMore(jobs: map<JobId, Job>, gone: set<JobId>, id: JobId)
    ensures Forget(Without(jobs, gone), id) == Without(jobs, gone + {id})
  {
  }

  /** The records in `done` have been reconciled, the others are as before. */
  ghost predicate Partly(l: Limits, before: map<JobId, Job>, after: map<JobId, Job>, done: set<JobId>,
                         now: int, boot: nat, unitOf: JobId -> UnitState)
  {
    && after.Keys == before.Keys && done <= before.Keys
    && forall id | id in before :: before[id].kind in l.unknown &&
         after[id] == if id in done then Reconciled(l, before[id], now, boot, unitOf(id)) else before[id]
  }

  lemma PartlyMore(l: Limits, before: map<JobId, Job>, after: map<JobId, Job>, done: set<JobId>,
                   now: int, boot: nat, unitOf: JobId -> UnitState, id: JobId)
    requires Partly(l, before, after, done, now, boot, unitOf) && id in before && id !in done
    ensures Partly(l, before, after[id := Reconciled(l, after[id], now, boot, unitOf(id))], done + {id},
                   now, boot, unitOf)
  {
  }

  /** After a prune: nothing but terminal records went, and the newest ones stayed. */
  ghost predicate PrunedTo(before: map<JobId, Job>, after: map<JobId, Job>, keep: nat) {
    && (forall id | id in after :: id in before && after[id] == before[id])
    && |after| == (if |before| < keep then |before| else keep)
    && NewestFirst(after.Keys, before.Keys - after.Keys)
  }

  /** The slice `[keep:]` of the names, newest first. */
  method Excess(all: set<JobId>, keep: nat) returns (excess: set<JobId>)
    ensures excess <= all && NewestFirst(all - excess, excess)
    ensures |all - excess| == if |all| < keep then |all| else keep
  {
    var kept: set<JobId> := {};
    excess := all;
    while excess != {} && |kept| < keep
      invariant kept + excess == all && kept !! excess
      invariant |kept| <= keep && NewestFirst(kept, excess)
    {
      var id := Newest(excess);
      TakeNewest(kept, excess, id);
      kept := kept + {id};
      excess := excess - {id};
    }
    assert all - excess == kept;
    assert |all| == |kept| + |excess|;
  }

  lemma PrunedWithout(jobs: map<JobId, Job>, excess: set<JobId>, keep: nat)
    requires excess <= jobs.Keys && NewestFirst(jobs.Keys - excess, excess)
    requires |jobs.Keys - excess| == if |jobs.Keys| < keep then |jobs.Keys| else keep
    ensures PrunedTo(jobs, Without(jobs, excess), keep)
  {
    assert Without(jobs, excess).Keys == jobs.Keys - excess;
    assert jobs.Keys - Without(jobs, excess).Keys == excess;
  }

  lemma AllDone(l: Limits, before: map<JobId, Job>, after: map<JobId, Job>, now: int, boot: nat,
                unitOf: JobId -> UnitState)
    requires Partly(l, before, after, before.Keys, now, boot, unitOf)
    ensures after == AllReconciled(l, before, now, boot, unitOf)
  {
  }

  /** How the command of `run` ends; `Raised` covers every other failure. */
  datatype Answer = ExitZero | ExitOther | RanTooLong | Raised

  function StatusOf(a: Answer): Status {
    if a.ExitZero? then Succeeded else Failed
  }

  function VerdictOf(a: Answer): Verdict {
    match a
    case ExitZero => Completed
    case RanTooLong => TimedOut
    case _ => OperationFailed
  }

  /** Queued in this boot less than a minute ago. */
  predicate IsFresh(j: Job, now: int, boot: nat) {
    j.status == Queued && j.boot == boot && now < j.created + 60_000_000
  }

  lemma FreshStays(l: Limits, j: Job, now: int, boot: nat, unit: UnitState)
    requires j.kind in l.unknown && IsFresh(j, now, boot)
    ensures Reconciled(l, j, now, boot, unit) == j
  {
    QueuedIsInterruptedIff(l, j, now, unit);
  }

  class Store {
    const limits: Limits
    var now: int
    var boot: nat
    var jobs: map<JobId, Job>
    var guarded: bool

    ghost var start: World
    ghost var runners: map<JobId, Runner>
    ghost var issued: set<JobId>
    ghost var begun: seq<JobId>
    ghost var events: seq<Event>

    ghost function W(): World reads this {
      World(now, boot, jobs, runners, guarded, issued, begun)
    }

    ghost predicate Valid() reads this {
      Exec(limits, start, events) == Some(W()) && Complete(limits)
    }

    /** A store with no records on a machine that just booted. */
    constructor (l: Limits, at: int, bootId: nat)
      requires Complete(l) && at >= 0
      ensures Valid() && Initial(start) && limits == l && now == at && boot == bootId
      ensures jobs == map[] && runners == map[] && !guarded && issued == {} && begun == []
    {
      limits, now, boot, jobs, guarded := l, at, bootId, map[], false;
      runners, issued, begun, events := map[], {}, [], [];
      start := World(at, bootId, map[], map[], false, {}, []);
    }

    /** The answers of `systemctl` that the run may contain. */
    ghost predicate Answers(unitOf: JobId -> UnitState) reads this {
      forall id | id in jobs :: Believable(limits, runners, id, unitOf(id))
    }

    ghost method Note(w: World, e: Event)
      requires Exec(limits, start, events) == Some(w) && Next(limits, w, e) == Some(W())
      requires Complete(limits)
      modifies this`events
      ensures events == old(events) + [e] && Valid()
    {
      ExecSnoc(limits, start, events, e);
      events := events + [e];
    }

    /** Every record in the store may be read back: no write was ever invalid. */
    lemma RecordsAreSound()
      requires Valid() && RecordInv(start)
      ensures RecordInv(W())
    {
      RunKeepsRecords(limits, start, events, W());
    }

    /** `_reconcile` of one record, as `get` does it. */
    method Get(id: JobId, unit: UnitState) returns (job: Option<Job>)
      requires Valid() && !guarded && Believable(limits, runners, id, unit)
      modifies this`jobs, this`events
      ensures Valid() && old(events) <= events
      ensures job == if id in old(jobs) then Some(Reconciled(limits, old(jobs)[id], now, boot, unit)) else None
      ensures jobs == if id in old(jobs) then old(jobs)[id := job.value] else old(jobs)
      ensures id in old(jobs) && IsFresh(old(jobs)[id], now, boot) ==> jobs == old(jobs)
    {
      if id !in jobs { return None; }
      assert jobs[id].kind in limits.unknown;
      ghost var w := W();
      if Lost(limits, jobs[id], now, boot, unit) {
        jobs := jobs[id := jobs[id].(status := Interrupted, finished := Some(Stamp(now)),
                                     verdict := Some(RunnerInterrupted))];
      } else {
        assert jobs == jobs[id := jobs[id]];
      }
      Note(w, Reconcile(id, unit));
      return Some(jobs[id]);
    }

    /** The loop of `_assert_idle_locked`: reconcile newest first, stop at the first record still active. */
    method ReconcileUntilActive(unitOf: JobId -> UnitState) returns (found: Option<JobId>, ghost done: set<JobId>)
      requires Valid() && !guarded && Answers(unitOf)
      modifies this`jobs, this`events
      ensures Valid() && old(events) <= events
      ensures Partly(limits, old(jobs), jobs, done, now, boot, unitOf)
      ensures forall id | id in done && found != Some(id) :: !Active(jobs[id].status)
      ensures found.Some? ==> found.value in done && Active(jobs[found.value].status)
      ensures found.None? ==> done == old(jobs).Keys
    {
      done := {};
      var todo := jobs.Keys;
      while todo != {}
        invariant Valid() && old(events) <= events && done + todo == old(jobs).Keys && done !! todo
        invariant Partly(limits, old(jobs), jobs, done, now, boot, unitOf)
        invariant forall id | id in done :: !Active(jobs[id].status)
      {
        var id := Newest(todo);
        PartlyMore(limits, old(jobs), jobs, done, now, boot, unitOf, id);
        var job := Get(id, unitOf(id));
        done := done + {id};
        todo := todo - {id};
        if Active(job.value.status) {
          return Some(id), done;
        }
      }
      return None, done;
    }

    /** `_assert_idle_locked`: an active record after reconciliation refuses, else old terminal records go. */
    method AssertIdle(unitOf: JobId -> UnitState) returns (idle: bool)
      requires Valid() && !guarded && Answers(unitOf)
      modifies this`jobs, this`events
      ensures Valid() && old(events) <= events
      ensures idle <==> forall id | id in old(jobs) && old(jobs)[id].kind in limits.unknown ::
                          !Active(Reconciled(limits, old(jobs)[id], now, boot, unitOf(id)).status)
      ensures idle ==> Idle(jobs) && PrunedTo(AllReconciled(limits, old(jobs), now, boot, unitOf), jobs, MAX_RECORDS)
      ensures !idle ==> exists done :: Partly(limits, old(jobs), jobs, done, now, boot, unitOf)
    {
      var found, done := ReconcileUntilActive(unitOf);
      if found.Some? {
        return false;
      }
      AllDone(limits, old(jobs), jobs, now, boot, unitOf);
      PruneTerminal();
      return true;
    }

    lemma FreshIsBusy(unitOf: JobId -> UnitState)
      requires Valid()
      ensures forall j | j in jobs && IsFresh(jobs[j], now, boot) ::
                jobs[j].kind in limits.unknown && Reconciled(limits, jobs[j], now, boot, unitOf(j)) == jobs[j]
    {
      forall j | j in jobs && IsFresh(jobs[j], now, boot)
        ensures jobs[j].kind in limits.unknown && Reconciled(limits, jobs[j], now, boot, unitOf(j)) == jobs[j]
      {
        FreshStays(limits, jobs[j], now, boot, unitOf(j));
      }
    }

    method Unlink(id: JobId)
      requires Valid() && !guarded && id in jobs && !Active(jobs[id].status)
      modifies this`jobs, this`events
      ensures Valid() && jobs == Forget(old(jobs), id) && old(events) <= events
    {
      ghost var w := W();
      jobs := map j | j in jobs && j != id :: jobs[j];
      Note(w, Prune(id));
    }

    method UnlinkAll(excess: set<JobId>)
      requires Valid() && !guarded && Idle(jobs) && excess <= jobs.Keys
      modifies this`jobs, this`events
      ensures Valid() && old(events) <= events && jobs == Without(old(jobs), excess)
    {
      var todo := excess;
      ghost var gone: set<JobId> := {};
      while todo != {}
        invariant Valid() && old(events) <= events && gone + todo == excess && gone !! todo
        invariant jobs == Without(old(jobs), gone)
      {
        var id :| id in todo;
        WithoutMore(old(jobs), gone, id);
        Unlink(id);
        gone := gone + {id};
        todo := todo - {id};
      }
      assert gone == excess;
    }

    /** `_prune_terminal_locked` on an idle store: every record past the newest MAX_RECORDS is removed. */
    method PruneTerminal()
      requires Valid() && !guarded && Idle(jobs)
      modifies this`jobs, this`events
      ensures Valid() && Idle(jobs) && old(events) <= events && PrunedTo(old(jobs), jobs, MAX_RECORDS)
    {
      var excess := Excess(jobs.Keys, MAX_RECORDS);
      UnlinkAll(excess);
      PrunedWithout(old(jobs), excess, MAX_RECORDS);
    }

    /** The locked section of `start`: only an idle store accepts a job, and it is queued at once. */
    method Start(id: JobId, kind: Kind, snapshotId: Option<string>, importId: Option<string>,
                 unitOf: JobId -> UnitState) returns (accepted: bool)
      requires Valid() && RecordInv(start) && !guarded && id !in issued && Answers(unitOf)
      modifies this`jobs, this`issued, this`events
      ensures Valid() && old(events) <= events
      ensures accepted <==> (kind.Rollback? <==> snapshotId.Some?) && (kind.ConfigImport? <==> importId.Some?)
                            && forall j | j in old(jobs) && old(jobs)[j].kind in limits.unknown ::
                                 !Active(Reconciled(limits, old(jobs)[j], now, boot, unitOf(j)).status)
      ensures accepted ==>
                id in jobs && jobs[id] == Job(kind, Queued, Stamp(now), boot, snapshotId, importId, None, None, None)
                           && forall j | j in jobs && j != id :: !Active(jobs[j].status)
      ensures accepted ==> PrunedTo(AllReconciled(limits, old(jobs), now, boot, unitOf), Forget(jobs, id), MAX_RECORDS)
      ensures (exists j :: j in old(jobs) && IsFresh(old(jobs)[j], now, boot)) ==> !accepted
      ensures !accepted ==> issued == old(issued) && id !in jobs
      ensures !accepted ==>
                jobs == old(jobs) || exists done :: Partly(limits, old(jobs), jobs, done, now, boot, unitOf)
    {
      RecordsAreSound();
      FreshIsBusy(unitOf);
      if kind.Rollback? != snapshotId.Some? || kind.ConfigImport? != importId.Some? { return false; }
      var idle := AssertIdle(unitOf);
      if !idle { return false; }
      Enqueue(id, Job(kind, Queued, Stamp(now), boot, snapshotId, importId, None, None, None));
      return true;
    }

    method Enqueue(id: JobId, job: Job)
      requires Valid() && !guarded && id !in issued && id !in jobs && Idle(jobs)
      requires job == Job(job.kind, Queued, Stamp(now), boot, job.snapshotId, job.importId, None, None, None)
      requires (job.kind.Rollback? <==> job.snapshotId.Some?) && (job.kind.ConfigImport? <==> job.importId.Some?)
      modifies this`jobs, this`issued, this`events
      ensures Valid() && old(events) <= events && issued == old(issued) + {id}
      ensures jobs == old(jobs)[id := job] && Forget(jobs, id) == old(jobs)
    {
      ghost var w := W();
      jobs := jobs[id := job];
      issued := issued + {id};
      Note(w, Submit(id, job.kind, job.snapshotId, job.importId));
    }

    /** After a failed launch only a still queued record of a unit that systemd never knew is closed. */
    method LaunchError(id: JobId, returned: bool, load: LoadState) returns (closed: bool)
      requires Valid() && !guarded && id in jobs
      modifies this`jobs, this`events
      ensures Valid() && jobs.Keys == old(jobs).Keys && forall j | j in jobs && j != id :: jobs[j] == old(jobs)[j]
      ensures closed <==> old(jobs)[id].status == Queued && returned && load == NotFound
      ensures closed ==> jobs[id] == old(jobs)[id].(status := Failed, finished := Some(Stamp(now)),
                                                    verdict := Some(LauncherFailed))
      ensures !closed ==> jobs == old(jobs)
    {
      closed := jobs[id].status == Queued && returned && load == NotFound;
      if closed {
        ghost var w := W();
        jobs := jobs[id := jobs[id].(status := Failed, finished := Some(Stamp(now)), verdict := Some(LauncherFailed))];
        Note(w, JobProtocol.LaunchFailed(id));
      }
    }

    /** First locked section of `run`: only a queued job of this boot may go on to its command. */
    method RunClaim(id: JobId) returns (go: bool)
      requires Valid() && !guarded
      modifies this`jobs, this`runners, this`events
      ensures Valid() && jobs.Keys == old(jobs).Keys && forall j | j in jobs && j != id :: jobs[j] == old(jobs)[j]
      ensures go <==> id in old(jobs) && old(jobs)[id].status == Queued && old(jobs)[id].boot == boot
      ensures go ==> jobs[id] == old(jobs)[id].(status := Running, started := Some(Stamp(now)))
      ensures runners == if go then old(runners)[id := Claimed(now)] else old(runners)
      ensures id in jobs && old(jobs)[id].status == Queued && !go ==>
                jobs[id] == old(jobs)[id].(status := Interrupted, finished := Some(Stamp(now)),
                                           verdict := Some(BootChanged))
      ensures id in jobs && old(jobs)[id].status != Queued ==> jobs[id] == old(jobs)[id]
    {
      if id !in jobs || jobs[id].status != Queued { return false; }
      ghost var w := W();
      var j := jobs[id];
      if j.boot != boot {
        jobs := jobs[id := j.(status := Interrupted, finished := Some(Stamp(now)), verdict := Some(BootChanged))];
        Note(w, Claim(id));
        return false;
      }
      jobs := jobs[id := j.(status := Running, started := Some(Stamp(now)))];
      runners := runners[id := Claimed(now)];
      Note(w, Claim(id));
      return true;
    }

    /** Last locked section of `run`: a record that is no longer active keeps what it says. */
    method RunReport(id: JobId, status: Status, verdict: Verdict)
      requires Valid() && !guarded && id in runners && runners[id] == Reporting(status, verdict)
      modifies this`jobs, this`runners, this`events
      ensures Valid() && runners == Forget(old(runners), id)
      ensures jobs.Keys == old(jobs).Keys && forall j | j in jobs && j != id :: jobs[j] == old(jobs)[j]
      ensures id in jobs && !Active(old(jobs)[id].status) ==> jobs[id] == old(jobs)[id]
      ensures id in jobs && Active(old(jobs)[id].status) ==>
                jobs[id] == old(jobs)[id].(status := status, finished := Some(Stamp(now)), verdict := Some(verdict))
    {
      ghost var w := W();
      if id in jobs {
        if Active(jobs[id].status) {
          jobs := jobs[id := jobs[id].(status := status, finished := Some(Stamp(now)), verdict := Some(verdict))];
        } else {
          assert jobs == jobs[id := jobs[id]];
        }
      }
      runners := Forget(runners, id);
      Note(w, Report(id));
    }

    /** Time goes on, within what the launch delay and the command timeouts allow. */
    method Pass(d: int)
      requires Valid() && d >= 0 && InTime(limits, W(), now + d)
      modifies this`now, this`events
      ensures Valid() && now == old(now) + d
    {
      ghost var w := W();
      now := now + d;
      Note(w, Tick(d));
    }

    /** The machine restarts: every process is gone, and the boot id is a new one. */
    method Restart()
      requires Valid()
      modifies this`boot, this`runners, this`guarded, this`events
      ensures Valid() && boot == old(boot) + 1 && runners == map[] && !guarded
    {
      ghost var w := W();
      boot := boot + 1;
      runners := map[];
      guarded := false;
      Note(w, Reboot);
    }

    /** The claimed runner starts its command. */
    method BeginCommand(id: JobId)
      requires Valid() && id in runners && runners[id].Claimed?
      modifies this`runners, this`begun, this`events
      ensures Valid() && begun == old(begun) + [id]
      ensures runners == old(runners)[id := Commanding(old(runners)[id].at, now)]
    {
      ghost var w := W();
      runners := runners[id := Commanding(runners[id].at, now)];
      begun := begun + [id];
      Note(w, Event.BeginCommand(id));
    }

    /** What became of the command; a runner that fails before it starts one can only report that. */
    method EndCommand(id: JobId, answer: Answer)
      requires Valid() && Working(runners, id) && (runners[id].Claimed? ==> answer.Raised?)
      modifies this`runners, this`events
      ensures Valid() && runners == old(runners)[id := Reporting(StatusOf(answer), VerdictOf(answer))]
    {
      ghost var w := W();
      runners := runners[id := Reporting(StatusOf(answer), VerdictOf(answer))];
      Note(w, Event.EndCommand(id, StatusOf(answer), VerdictOf(answer)));
    }

    /** A runner is killed. */
    method Kill(id: JobId)
      requires Valid() && id in runners
      modifies this`runners, this`events
      ensures Valid() && runners == Forget(old(runners), id)
    {
      ghost var w := W();
      runners := Forget(runners, id);
      Note(w, Die(id));
    }

    method LeaveMaintenance()
      requires Valid() && guarded
      modifies this`guarded, this`events
      ensures Valid() && !guarded
    {
      ghost var w := W();
      guarded := false;
      Note(w, LeaveGuard);
    }

    /** The part of `run` between its locked sections: start the command in time, and wait for it in time. */
    method RunCommand(id: JobId, delay: int, took: int, answer: Answer)
      requires Valid() && runners == map[id := Claimed(now)] && id in jobs
      requires 0 <= delay <= limits.launch && 0 <= took <= limits.run[jobs[id].kind]
      modifies this`now, this`runners, this`begun, this`events
      ensures Valid() && now == old(now) + if answer.Raised? then delay else delay + took
      ensures runners == map[id := Reporting(StatusOf(answer), VerdictOf(answer))]
      ensures begun == if answer.Raised? then old(begun) else old(begun) + [id]
    {
      Pass(delay);
      if !answer.Raised? {
        BeginCommand(id);
        Pass(took);
      }
      EndCommand(id, answer);
    }

    /** `run` from its claim to its report, with nothing else going on. */
    method Run(id: JobId, delay: int, took: int, answer: Answer) returns (ran: bool)
      requires Valid() && !guarded && runners == map[]
      requires 0 <= delay <= limits.launch && forall k: Kind :: k in limits.run && 0 <= took <= limits.run[k]
      modifies this`now, this`jobs, this`runners, this`begun, this`events
      ensures Valid() && runners == map[] && jobs.Keys == old(jobs).Keys
      ensures ran <==> id in old(jobs) && old(jobs)[id].status == Queued && old(jobs)[id].boot == boot
      ensures ran ==> jobs[id].started == Some(Stamp(old(now))) && jobs[id].finished == Some(Stamp(now))
      ensures ran ==> (jobs[id].status, jobs[id].verdict) == match answer
                      case ExitZero => (Succeeded, Some(Completed))
                      case RanTooLong => (Failed, Some(TimedOut))
                      case _ => (Failed, Some(OperationFailed))
      ensures begun == if ran && !answer.Raised? then old(begun) + [id] else old(begun)
      ensures forall j | j in jobs && j != id :: jobs[j] == old(jobs)[j]
    {
      ran := RunClaim(id);
      if ran {
        assert jobs[id].kind in limits.run && took <= limits.run[jobs[id].kind];
        RunCommand(id, delay, took, answer);
        RunReport(id, StatusOf(answer), VerdictOf(answer));
        assert runners == map[];
      }
    }

    /** `maintenance_guard`: the lock is kept for the whole action, and only an idle store lets one in. */
    method EnterMaintenance(unitOf: JobId -> UnitState) returns (entered: bool)
      requires Valid() && !guarded && Answers(unitOf)
      modifies this`jobs, this`guarded, this`events
      ensures Valid() && guarded == entered
      ensures entered ==>
                Idle(jobs) && PrunedTo(AllReconciled(limits, old(jobs), now, boot, unitOf), jobs, MAX_RECORDS)
      ensures (exists j :: j in old(jobs) && IsFresh(old(jobs)[j], now, boot)) ==> !entered
      ensures !entered ==> exists done :: Partly(limits, old(jobs), jobs, done, now, boot, unitOf)
      ensures entered <==> forall id | id in old(jobs) && old(jobs)[id].kind in limits.unknown ::
                             !Active(Reconciled(limits, old(jobs)[id], now, boot, unitOf(id)).status)
    {
      FreshIsBusy(unitOf);
      entered := AssertIdle(unitOf);
      if entered {
        ghost var w := W();
        guarded := true;
        Note(w, EnterGuard);
      }
    }

    /** The next record of a listing. */
    method GetNext(id: JobId, unitOf: JobId -> UnitState, ghost before: map<JobId, Job>, ghost names: set<JobId>,
                   ghost todo: set<JobId>, out: seq<Job>, ghost order: seq<JobId>)
      returns (out': seq<Job>)
      requires Valid() && !guarded && Answers(unitOf)
      requires id in todo && (forall t | t in todo :: t <= id)
      requires Underway(limits, before, jobs, names, todo, out, order, now, boot, unitOf)
      modifies this`jobs, this`events
      ensures Valid() && old(events) <= events && jobs.Keys == old(jobs).Keys
      ensures Underway(limits, before, jobs, names, todo - {id}, out', order + [id], now, boot, unitOf)
    {
      TakeNewest(names - todo, todo, id);
      PartlyMore(limits, before, jobs, names - todo, now, boot, unitOf, id);
      ListedGrows(out, order, jobs, names - todo, id, Reconciled(limits, jobs[id], now, boot, unitOf(id)));
      var job := Get(id, unitOf(id));
      out' := out + [job.value];
      assert names - (todo - {id}) == names - todo + {id};
    }

    method GetAll(names: set<JobId>, unitOf: JobId -> UnitState) returns (out: seq<Job>, ghost order: seq<JobId>)
      requires Valid() && !guarded && Answers(unitOf) && names <= jobs.Keys
      modifies this`jobs, this`events
      ensures Valid() && old(events) <= events
      ensures Partly(limits, old(jobs), jobs, names, now, boot, unitOf) && Listed(out, order, jobs, names)
    {
      var todo := names;
      out, order := [], [];
      NothingListed(limits, jobs, names, now, boot, unitOf);
      while todo != {}
        invariant Valid() && old(events) <= events && jobs.Keys == old(jobs).Keys && !guarded
        invariant Underway(limits, old(jobs), jobs, names, todo, out, order, now, boot, unitOf)
      {
        var id := Newest(todo);
        out := GetNext(id, unitOf, old(jobs), names, todo, out, order);
        order, todo := order + [id], todo - {id};
      }
      AllListed(limits, old(jobs), jobs, names, out, order, now, boot, unitOf);
    }

    /** `list`: the newest MAX_RECORDS records, newest first and each reconciled. */
    method List(unitOf: JobId -> UnitState) returns (out: seq<Job>, ghost order: seq<JobId>, ghost done: set<JobId>)
      requires Valid() && !guarded && Answers(unitOf)
      modifies this`jobs, this`events
      ensures Valid() && old(events) <= events
      ensures |done| == if |old(jobs)| < MAX_RECORDS then |old(jobs)| else MAX_RECORDS
      ensures Partly(limits, old(jobs), jobs, done, now, boot, unitOf) && Listed(out, order, jobs, done)
      ensures done <= old(jobs).Keys && NewestFirst(done, old(jobs).Keys - done)
    {
      var excess := Excess(jobs.Keys, MAX_RECORDS);
      done := jobs.Keys - excess;
      assert jobs.Keys - done == excess;
      out, order := GetAll(jobs.Keys - excess, unitOf);
    }
  }

  /** Whatever a store did so far is a run of the protocol, so JobTheorems binds it. */
  lemma StoreIsReachable(s: Store)
    requires s.Valid() && Initial(s.start)
    ensures Reachable(s.limits, s.W())
    ensures Safe(s.limits) ==> Exclusive(s.W())
  {
    if Safe(s.limits) {
      MutualExclusion(s.limits, s.W());
    }
  }

  /** `out` holds the stored records of the names in `done`, in the order `order`, newest first. */
  ghost predicate Listed(out: seq<Job>, order: seq<JobId>, jobs: map<JobId, Job>, done: set<JobId>) {
    && |out| == |order| == |done|
    && (forall id :: id in order <==> id in done)
    && (forall i, j | 0 <= i < j < |order| :: order[j] < order[i])
    && (forall i | 0 <= i < |order| :: order[i] in jobs && out[i] == jobs[order[i]])
  }

  lemma ListedGrows(out: seq<Job>, order: seq<JobId>, jobs: map<JobId, Job>, done: set<JobId>, id: JobId, job: Job)
    requires Listed(out, order, jobs, done) && NewestFirst(done, {id})
    ensures Listed(out + [job], order + [id], jobs[id := job], done + {id})
  {
    forall i | 0 <= i < |order| ensures order[i] in done && id < order[i] {
      assert order[i] in order;
    }
  }

  /** A listing of `names` that still lacks those in `todo`. */
  ghost predicate Underway(l: Limits, before: map<JobId, Job>, after: map<JobId, Job>, names: set<JobId>,
                           todo: set<JobId>, out: seq<Job>, order: seq<JobId>, now: int, boot: nat,
                           unitOf: JobId -> UnitState)
  {
    && todo <= names <= before.Keys && NewestFirst(names - todo, todo)
    && Partly(l, before, after, names - todo, now, boot, unitOf) && Listed(out, order, after, names - todo)
  }

  lemma NothingListed(l: Limits, jobs: map<JobId, Job>, names: set<JobId>, now: int, boot: nat,
                      unitOf: JobId -> UnitState)
    requires names <= jobs.Keys && forall id | id in jobs :: jobs[id].kind in l.unknown
    ensures Underway(l, jobs, jobs, names, names, [], [], now, boot, unitOf)
  {
    assert names - names == {};
  }

  lemma AllListed(l: Limits, before: map<JobId, Job>, after: map<JobId, Job>, names: set<JobId>, out: seq<Job>,
                  order: seq<JobId>, now: int, boot: nat, unitOf: JobId -> UnitState)
    requires Underway(l, before, after, names, {}, out, order, now, boot, unitOf)
    ensures Partly(l, before, after, names, now, boot, unitOf) && Listed(out, order, after, names)
  {
    assert names - {} == names;
  }
}
