/** The steps of a health check run (deploy/bot/healthcheck.py) over a durable state file, and what every run keeps. */
module NotifierProtocol {
  import opened Common
  import opened NotifierState

  // ---- observing ----

  /** `_observe`: what a row becomes when a recipient's check finds `problems` at `now`. */
  function Observed(row: Row, problems: Problems, now: real): Row {
    if row.observed == problems && row.pending.Some? then
      row.(pending := Some(row.pending.value.(next := Min(row.pending.value.next, now + RETRY_MAX))))
    else
      Row(problems, row.delivered, NextPending(row, problems, now))
  }

  function NextPending(row: Row, problems: Problems, now: real): Option<Pending> {
    if problems != [] then
      if row.delivered == Some(problems) then None else Some(Pending(Problem, problems, 0, now))
    else if row.observed != [] && row.delivered != Some(row.observed) then Some(Pending(Resolved, row.observed, 0, now))
    else if row.delivered.Some? && row.delivered.value != [] then Some(Pending(Recovery, [], 0, now))
    else None
  }

  function Min(a: real, b: real): real {
    if a < b then a else b
  }

  // ---- what an observation leaves to be sent ----

  /** Nothing new: a waiting notice keeps waiting, an hour at most, and a settled row stays settled. */
  lemma SameProblemsKeepWaiting(row: Row, now: real)
    ensures row.pending.Some? ==>
              var r := Observed(row, row.observed, now);
              && r.pending.Some? && r.(pending := row.pending) == row
              && r.pending.value.(next := row.pending.value.next) == row.pending.value
              && r.pending.value.next ==
                   if row.pending.value.next < now + 3600.0 then row.pending.value.next else now + 3600.0
    ensures row.pending.None? && row.delivered == Some(row.observed) ==> Observed(row, row.observed, now) == row
  {
  }

  /** Problems that the recipient was not told are announced at once, whatever waited before. */
  lemma NewProblemsAreAnnounced(row: Row, problems: Problems, now: real)
    requires problems != [] && (problems != row.observed || row.pending.None?)
    ensures Observed(row, problems, now) ==
              Row(problems, row.delivered,
                  if row.delivered == Some(problems) then None else Some(Pending(Problem, problems, 0, now)))
  {
  }

  /**
    When the problems are gone, a recipient who was never told of the last ones hears what they were, one who was told
    hears that they are over, and nobody else hears anything.
   */
  lemma EndIsExplained(row: Row, now: real)
    requires row.observed != []
    ensures row.delivered != Some(row.observed) ==>
              Observed(row, [], now) == Row([], row.delivered, Some(Pending(Resolved, row.observed, 0, now)))
    ensures row.delivered == Some(row.observed) ==>
              Observed(row, [], now) == Row([], row.delivered, Some(Pending(Recovery, [], 0, now)))
  {
  }

  /** A recipient without news of any problem hears nothing while there is none. */
  lemma QuietStart(row: Row, now: real)
    requires row.observed == [] && row.pending.None?
    ensures Observed(row, [], now) ==
              Row([], row.delivered,
                  if row.delivered.Some? && row.delivered != Some([]) then Some(Pending(Recovery, [], 0, now))
                  else None)
  {
  }

  /** From a file without receipts: whatever it names is announced again, or explained if it is over. */
  lemma LegacyIsToldOnce(disk: Json, recipients: seq<Uid>, u: Uid, problems: Problems, now: real)
    requires disk.Obj? && disk.fields.Keys == {"problems"} && Loaded(Some(disk), recipients).Some? && u in recipients
    ensures ListOf(disk.fields["problems"]).Some?
    ensures var old_ := ListOf(disk.fields["problems"]).value;
            var row := Observed(Loaded(Some(disk), recipients).value.rows[u], problems, now);
            row.pending == if problems != [] then Some(Pending(Problem, problems, 0, now))
                           else if old_ != [] then Some(Pending(Resolved, old_, 0, now)) else None
  {
  }

  // ---- sending ----

  predicate Due(row: Row, now: real) {
    row.pending.Some? && row.pending.value.next <= now
  }

  function Pow2(n: nat): (r: nat)
    ensures r >= 1
  {
    if n == 0 then 1 else 2 * Pow2(n - 1)
  }

  /** The wait after the given number of failed attempts doubles up to an hour. */
  function Delay(attempts: nat): real {
    if attempts == 0 then RETRY_BASE else Min(RETRY_MAX, RETRY_BASE * Pow2(attempts - 1) as real)
  }

  function Attempted(row: Row, now: real, confirmed: bool): Row
    requires row.pending.Some?
  {
    if confirmed then Row(row.observed, Some(row.observed), None)
    else
      var attempts: nat := if 0 <= row.pending.value.attempts < 4 then row.pending.value.attempts + 1 else 4;
      row.(pending := Some(row.pending.value.(attempts := attempts, next := now + Delay(attempts))))
  }

  /** A send that was not confirmed is tried again after 10, 20, 40 and then 60 minutes. */
  lemma WaitsDouble(row: Row, now: real)
    requires row.pending.Some? && 0 <= row.pending.value.attempts <= 4
    ensures var p, q := row.pending.value, Attempted(row, now, false).pending;
            && Attempted(row, now, false).(pending := row.pending) == row
            && q == Some(Pending(p.kind, p.problems, if p.attempts < 4 then p.attempts + 1 else 4,
                                 now + match p.attempts
                                       case 0 => 600.0
                                       case 1 => 1200.0
                                       case 2 => 2400.0
                                       case _ => 3600.0))
  {
    assert Pow2(0) == 1 && Pow2(1) == 2 && Pow2(2) == 4 && Pow2(3) == 8;
  }

  /** `_update_legacy_view`: once every recipient was told the same, the shared list says so. */
  predicate AllTold(rows: map<Uid, Row>, p: Problems) {
    rows != map[] && forall u | u in rows :: rows[u].pending.None? && rows[u].delivered == Some(p)
  }

  ghost predicate LegacyView(before: State, after: State) {
    && after.rows == before.rows
    && (forall p :: AllTold(before.rows, p) ==> after.problems == p)
    && ((forall p :: !AllTold(before.rows, p)) ==> after.problems == before.problems)
  }

  // ---- the steps of a run ----

  datatype Notice = Notice(uid: Uid, kind: Kind, problems: Problems)

  /** A run in memory: `unsaved` after a change, `receipt` while a confirmed send is not on disk. */
  datatype Live = Live(state: State, now: real, todo: seq<Uid>, unsaved: bool, receipt: bool)

  /** `sent` lists the confirmed sends; `lost` says that some receipt never reached the disk. */
  datatype World = World(disk: Option<Json>, mem: Option<Live>, sent: seq<Notice>, lost: bool)

  /** `legacy` is the shared list after the step; a stop is the end of a run, an error or a crash. */
  datatype Event =
    | Load(recipients: seq<Uid>, problems: Problems, now: real, legacy: Problems)
    | Save
    | Pass
    | Send(confirmed: bool, legacy: Problems)
    | Stop

  function ObservedRows(rows: map<Uid, Row>, problems: Problems, now: real): map<Uid, Row> {
    map u | u in rows :: Observed(rows[u], problems, now)
  }

  ghost function OnLoad(w: World, e: Event): Option<World>
    requires e.Load?
  {
    var loaded := Loaded(w.disk, e.recipients);
    if w.mem.Some? || loaded.None? || !GoodList(e.problems) || e.now < 0.0 then None else
    var seen := State(loaded.value.problems, ObservedRows(loaded.value.rows, e.problems, e.now));
    var state := seen.(problems := e.legacy);
    if !LegacyView(seen, state) then None else
    Some(w.(mem := Some(Live(state, e.now, e.recipients, true, false))))
  }

  function OnSave(w: World): Option<World> {
    if w.mem.None? then None else
    Some(w.(disk := Some(Encode(w.mem.value.state)), mem := Some(w.mem.value.(unsaved := false, receipt := false))))
  }

  /** The next recipient of a saved run. */
  predicate AtRecipient(w: World) {
    w.mem.Some? && !w.mem.value.unsaved && w.mem.value.todo != [] && w.mem.value.todo[0] in w.mem.value.state.rows
  }

  function OnPass(w: World): Option<World> {
    if !AtRecipient(w) || Due(w.mem.value.state.rows[w.mem.value.todo[0]], w.mem.value.now) then None else
    Some(w.(mem := Some(w.mem.value.(todo := w.mem.value.todo[1..]))))
  }

  ghost function OnSend(w: World, e: Event): Option<World>
    requires e.Send?
  {
    if !AtRecipient(w) then None else
    var live := w.mem.value;
    var u := live.todo[0];
    var row := live.state.rows[u];
    if !Due(row, live.now) then None else
    var told := State(live.state.problems, live.state.rows[u := Attempted(row, live.now, e.confirmed)]);
    var state := told.(problems := e.legacy);
    if !LegacyView(told, state) then None else
    Some(w.(mem := Some(Live(state, live.now, live.todo[1..], true, e.confirmed)),
            sent := if e.confirmed then w.sent + [Notice(u, row.pending.value.kind, row.pending.value.problems)]
                    else w.sent))
  }

  function OnStop(w: World): Option<World> {
    Some(w.(mem := None, lost := w.lost || (w.mem.Some? && w.mem.value.receipt)))
  }

  ghost function Next(w: World, e: Event): Option<World> {
    match e
    case Load(_, _, _, _) => OnLoad(w, e)
    case Save => OnSave(w)
    case Pass => OnPass(w)
    case Send(_, _) => OnSend(w, e)
    case Stop => OnStop(w)
  }

  ghost function Exec(w: World, events: seq<Event>): Option<World> {
    if events == [] then Some(w) else
    var before := Exec(w, events[..|events| - 1]);
    if before.None? then None else Next(before.value, events[|events| - 1])
  }

  function Start(disk: Option<Json>): World {
    World(disk, None, [], false)
  }

  // ---- every saved state is accepted ----

  /** A row as it comes out of any accepted file: consistent, or a legacy row that waits for its first observation. */
  predicate Watched(row: Row) {
    GoodRow(row) || (row.observed != [] && GoodList(row.observed) && row == NewRow(row.observed, true))
  }

  lemma ObservedIsGood(row: Row, problems: Problems, now: real, old_: Problems)
    requires GoodRow(row) || (old_ != [] && GoodList(old_) && row == NewRow(old_, true))
    requires GoodList(problems) && now >= 0.0
    ensures GoodRow(Observed(row, problems, now))
  {
  }

  lemma LegacyViewIsGood(before: State, after: State)
    requires Good(before) && LegacyView(before, after)
    ensures Good(after)
  {
  }

  /** A file that any later run accepts, whoever its recipients are. */
  ghost predicate Readable(disk: Option<Json>) {
    forall recipients :: Loaded(disk, recipients).Some?
  }

  ghost predicate RowsBounded(rows: map<Uid, Row>, now: real) {
    forall u | u in rows && rows[u].pending.Some? :: rows[u].pending.value.next <= now + RETRY_MAX
  }

  ghost predicate LiveOk(live: Live) {
    Good(live.state) && live.now >= 0.0 && RowsBounded(live.state.rows, live.now) && (live.receipt ==> live.unsaved)
  }

  ghost predicate Inv(w: World) {
    Readable(w.disk) && (w.mem.Some? ==> LiveOk(w.mem.value))
  }

  lemma LoadKeepsInv(w: World, e: Event)
    requires Inv(w) && e.Load? && OnLoad(w, e).Some?
    ensures Inv(OnLoad(w, e).value)
  {
    var loaded := Loaded(w.disk, e.recipients).value;
    LoadedIsFit(w.disk, e.recipients);
    var seen := State(loaded.problems, ObservedRows(loaded.rows, e.problems, e.now));
    forall u | u in loaded.rows ensures GoodRow(seen.rows[u]) {
      ObservedIsGood(loaded.rows[u], e.problems, e.now, loaded.problems);
    }
    LegacyViewIsGood(seen, seen.(problems := e.legacy));
  }

  lemma SaveKeepsInv(w: World)
    requires Inv(w) && w.mem.Some?
    ensures Inv(OnSave(w).value)
  {
    var s := w.mem.value.state;
    forall recipients ensures Loaded(Some(Encode(s)), recipients).Some? {
      StateRoundTrip(s, recipients);
    }
  }

  lemma SendKeepsInv(w: World, e: Event)
    requires Inv(w) && e.Send? && OnSend(w, e).Some?
    ensures Inv(OnSend(w, e).value)
  {
  }

  lemma StepKeepsInv(w: World, e: Event)
    requires Inv(w) && Next(w, e).Some?
    ensures Inv(Next(w, e).value)
  {
    match e
    case Load(_, _, _, _) => LoadKeepsInv(w, e);
    case Save => SaveKeepsInv(w);
    case Send(_, _) => SendKeepsInv(w, e);
    case Pass =>
    case Stop =>
  }

  /**
    At every point of every sequence of runs, crashes included, the file on disk is accepted by any later
    run, and no notice waits longer than the longest retry delay, however the clock jumped.
   */
  lemma {:induction false} SavedIsAlwaysAccepted(disk: Option<Json>, events: seq<Event>)
    requires Readable(disk) && Exec(Start(disk), events).Some?
    ensures Inv(Exec(Start(disk), events).value)
  {
    if events != [] {
      var n := |events| - 1;
      SavedIsAlwaysAccepted(disk, events[..n]);
      StepKeepsInv(Exec(Start(disk), events[..n]).value, events[n]);
    }
  }

  /** A missing file and a well-formed legacy file are readable. */
  lemma FreshIsReadable(problems: Problems)
    requires GoodList(problems)
    ensures Readable(None) && Readable(Some(Obj(map["problems" := ListJson(problems)])))
  {
  }

  // ---- a recovery follows a problem ----

  ghost predicate ToldBefore(sent: seq<Notice>, k: int, u: Uid, p: Problems) {
    exists j :: 0 <= j < k <= |sent| && sent[j] == Notice(u, Problem, p)
  }

  ghost predicate RowEarned(sent: seq<Notice>, u: Uid, row: Row) {
    row.delivered.Some? && row.delivered.value != [] ==> ToldBefore(sent, |sent|, u, row.delivered.value)
  }

  ghost predicate RowsEarned(sent: seq<Notice>, rows: map<Uid, Row>) {
    forall u | u in rows :: RowEarned(sent, u, rows[u])
  }

  ghost predicate DiskEarned(disk: Option<Json>, sent: seq<Notice>) {
    forall recipients | Loaded(disk, recipients).Some? :: RowsEarned(sent, Loaded(disk, recipients).value.rows)
  }

  ghost predicate RecoveriesEarned(sent: seq<Notice>) {
    forall k | 0 <= k < |sent| && sent[k].kind.Recovery? ::
      exists p: Problems :: p != [] && ToldBefore(sent, k, sent[k].uid, p)
  }

  ghost predicate Earned(w: World) {
    && DiskEarned(w.disk, w.sent) && RecoveriesEarned(w.sent)
    && (w.mem.Some? ==> RowsEarned(w.sent, w.mem.value.state.rows))
  }

  lemma LaterIsToldToo(sent: seq<Notice>, n: Notice, u: Uid, p: Problems)
    requires ToldBefore(sent, |sent|, u, p)
    ensures ToldBefore(sent + [n], |sent| + 1, u, p)
  {
    var j :| 0 <= j < |sent| && sent[j] == Notice(u, Problem, p);
    assert (sent + [n])[j] == sent[j];
  }

  lemma RowsStayEarned(sent: seq<Notice>, n: Notice, rows: map<Uid, Row>)
    requires RowsEarned(sent, rows)
    ensures RowsEarned(sent + [n], rows)
  {
    forall u | u in rows ensures RowEarned(sent + [n], u, rows[u]) {
      if rows[u].delivered.Some? && rows[u].delivered.value != [] {
        LaterIsToldToo(sent, n, u, rows[u].delivered.value);
      }
    }
  }

  lemma RecoveriesStayEarned(sent: seq<Notice>, n: Notice)
    requires RecoveriesEarned(sent)
    requires n.kind.Recovery? ==> exists p: Problems :: p != [] && ToldBefore(sent, |sent|, n.uid, p)
    ensures RecoveriesEarned(sent + [n])
  {
    var sent' := sent + [n];
    forall k | 0 <= k < |sent'| && sent'[k].kind.Recovery?
      ensures exists p: Problems :: p != [] && ToldBefore(sent', k, sent'[k].uid, p)
    {
      var p: Problems :| p != [] && ToldBefore(sent, k, sent'[k].uid, p);
      var j :| 0 <= j < k && sent[j] == Notice(sent'[k].uid, Problem, p);
      assert sent'[j] == sent[j];
      assert ToldBefore(sent', k, sent'[k].uid, p);
    }
  }

  /** A confirmed send leaves the row it is about earned. */
  lemma SendStaysEarned(w: World, e: Event)
    requires Inv(w) && Earned(w) && e.Send? && OnSend(w, e).Some?
    ensures Earned(OnSend(w, e).value)
  {
    var live := w.mem.value;
    var u := live.todo[0];
    var row := live.state.rows[u];
    assert GoodRow(row) && RowEarned(w.sent, u, row);
    if e.confirmed {
      var n := Notice(u, row.pending.value.kind, row.pending.value.problems);
      RowsStayEarned(w.sent, n, live.state.rows);
      RecoveriesStayEarned(w.sent, n);
      assert (w.sent + [n])[|w.sent|] == n;
      forall recipients | Loaded(w.disk, recipients).Some?
        ensures RowsEarned(w.sent + [n], Loaded(w.disk, recipients).value.rows)
      {
        RowsStayEarned(w.sent, n, Loaded(w.disk, recipients).value.rows);
      }
    }
  }

  lemma SaveStaysEarned(w: World)
    requires Inv(w) && Earned(w) && w.mem.Some?
    ensures Earned(OnSave(w).value)
  {
    var s := w.mem.value.state;
    forall recipients | Loaded(Some(Encode(s)), recipients).Some?
      ensures RowsEarned(w.sent, Loaded(Some(Encode(s)), recipients).value.rows)
    {
      StateRoundTrip(s, recipients);
    }
  }

  lemma LoadStaysEarned(w: World, e: Event)
    requires Earned(w) && e.Load? && OnLoad(w, e).Some?
    ensures Earned(OnLoad(w, e).value)
  {
  }

  lemma StepStaysEarned(w: World, e: Event)
    requires Inv(w) && Earned(w) && Next(w, e).Some?
    ensures Earned(Next(w, e).value)
  {
    match e
    case Load(_, _, _, _) => LoadStaysEarned(w, e);
    case Save => SaveStaysEarned(w);
    case Send(_, _) => SendStaysEarned(w, e);
    case Pass =>
    case Stop =>
  }

  /** Over all runs from a missing or legacy file a confirmed recovery follows a confirmed, non-empty problem notice. */
  lemma {:induction false} RecoveryFollowsProblem(disk: Option<Json>, events: seq<Event>)
    requires Readable(disk) && DiskEarned(disk, []) && Exec(Start(disk), events).Some?
    ensures Earned(Exec(Start(disk), events).value)
  {
    if events != [] {
      var n := |events| - 1;
      SavedIsAlwaysAccepted(disk, events[..n]);
      RecoveryFollowsProblem(disk, events[..n]);
      StepStaysEarned(Exec(Start(disk), events[..n]).value, events[n]);
    }
  }

  lemma FreshIsEarned(problems: Problems)
    ensures DiskEarned(None, []) && DiskEarned(Some(Obj(map["problems" := ListJson(problems)])), [])
  {
  }

  // ---- quiet while nothing changes ----

  /** Told of exactly these problems, with nothing to send. */
  function Settled(p: Problems): Row {
    Row(p, Some(p), None)
  }

  predicate Steady(e: Event, u: Uid, p: Problems) {
    e.Load? ==> e.problems == p && u in e.recipients
  }

  ghost predicate DiskQuiet(disk: Option<Json>, u: Uid, p: Problems) {
    forall recipients | Loaded(disk, recipients).Some? && u in recipients ::
      Loaded(disk, recipients).value.rows[u] == Settled(p)
  }

  ghost predicate Quiet(w: World, u: Uid, p: Problems) {
    && DiskQuiet(w.disk, u, p)
    && (w.mem.Some? ==> u in w.mem.value.state.rows && w.mem.value.state.rows[u] == Settled(p))
  }

  function SentTo(sent: seq<Notice>, u: Uid): seq<Notice> {
    if sent == [] then [] else
    var last := sent[|sent| - 1];
    SentTo(sent[..|sent| - 1], u) + if last.uid == u then [last] else []
  }

  lemma StepStaysQuiet(w: World, e: Event, u: Uid, p: Problems)
    requires Inv(w) && Quiet(w, u, p) && Steady(e, u, p) && Next(w, e).Some?
    ensures Quiet(Next(w, e).value, u, p) && SentTo(Next(w, e).value.sent, u) == SentTo(w.sent, u)
  {
    if e.Save? {
      var s := w.mem.value.state;
      forall recipients | Loaded(Some(Encode(s)), recipients).Some? && u in recipients
        ensures Loaded(Some(Encode(s)), recipients).value.rows[u] == Settled(p)
      {
        StateRoundTrip(s, recipients);
      }
    } else if e.Send? && e.confirmed {
      var w' := OnSend(w, e).value;
      assert w'.sent[..|w'.sent| - 1] == w.sent;
    }
  }

  /** After one recorded delivery, unchanged problems never lead to another notice to that recipient. */
  lemma {:induction false} UnchangedProblemsStayQuiet(w: World, events: seq<Event>, u: Uid, p: Problems)
    requires Inv(w) && Quiet(w, u, p) && (forall e | e in events :: Steady(e, u, p)) && Exec(w, events).Some?
    ensures Inv(Exec(w, events).value) && Quiet(Exec(w, events).value, u, p)
    ensures SentTo(Exec(w, events).value.sent, u) == SentTo(w.sent, u)
  {
    if events != [] {
      var n := |events| - 1;
      assert events == events[..n] + [events[n]];
      UnchangedProblemsStayQuiet(w, events[..n], u, p);
      StepKeepsInv(Exec(w, events[..n]).value, events[n]);
      StepStaysQuiet(Exec(w, events[..n]).value, events[n], u, p);
    }
  }

  /** A confirmed send whose receipt is saved leaves exactly that quiet behind. */
  lemma ConfirmedAndSavedIsQuiet(w: World, e: Event, u: Uid)
    requires Inv(w) && e.Send? && e.confirmed && OnSend(w, e).Some? && w.mem.value.todo[0] == u
    ensures Quiet(OnSave(OnSend(w, e).value).value, u, w.mem.value.state.rows[u].observed)
  {
    SendKeepsInv(w, e);
    var s := OnSend(w, e).value.mem.value.state;
    forall recipients | Loaded(Some(Encode(s)), recipients).Some? && u in recipients
      ensures Loaded(Some(Encode(s)), recipients).value.rows[u] == Settled(w.mem.value.state.rows[u].observed)
    {
      StateRoundTrip(s, recipients);
    }
  }

  // ---- no repeats while receipts survive ----

  /** What the confirmed notices told a recipient last; `None` before the first one. */
  function ViewOf(sent: seq<Notice>, u: Uid): Option<Problems> {
    if sent == [] then None else
    var last := sent[|sent| - 1];
    if last.uid != u then ViewOf(sent[..|sent| - 1], u)
    else Some(if last.kind.Problem? then last.problems else [])
  }

  predicate Tracks(row: Row, view: Option<Problems>) {
    if view.Some? then row.delivered == view else row.delivered.None? || row.delivered == Some([])
  }

  ghost predicate RowsTrack(rows: map<Uid, Row>, sent: seq<Notice>) {
    forall u | u in rows :: Tracks(rows[u], ViewOf(sent, u))
  }

  ghost predicate DiskTracks(disk: Option<Json>, sent: seq<Notice>, recipients: seq<Uid>) {
    Loaded(disk, recipients).Some? ==> RowsTrack(Loaded(disk, recipients).value.rows, sent)
  }

  /** Every notice told its recipient something else than the notices before it. */
  ghost predicate NoRepeats(sent: seq<Notice>) {
    forall k | 0 <= k < |sent| :: IsNews(sent[k], ViewOf(sent[..k], sent[k].uid))
  }

  predicate IsNews(n: Notice, view: Option<Problems>) {
    match n.kind
    case Problem => view != Some(n.problems)
    case Recovery => view.Some? && view.value != []
    case Resolved => n.problems != [] && view != Some(n.problems)
  }

  ghost predicate InStep(w: World, recipients: seq<Uid>) {
    !w.lost ==>
      && NoRepeats(w.sent)
      && (if w.mem.Some?
          then && w.mem.value.state.rows.Keys == (set u | u in recipients)
               && RowsTrack(w.mem.value.state.rows, w.sent)
               && (!w.mem.value.receipt ==> DiskTracks(w.disk, w.sent, recipients))
          else DiskTracks(w.disk, w.sent, recipients))
  }

  predicate ForTheSame(e: Event, recipients: seq<Uid>) {
    e.Load? ==> e.recipients == recipients
  }

  lemma OneMoreNotice(sent: seq<Notice>, n: Notice)
    requires NoRepeats(sent) && IsNews(n, ViewOf(sent, n.uid))
    ensures NoRepeats(sent + [n])
    ensures forall u | u != n.uid :: ViewOf(sent + [n], u) == ViewOf(sent, u)
    ensures ViewOf(sent + [n], n.uid) == Some(if n.kind.Problem? then n.problems else [])
  {
    var sent' := sent + [n];
    assert sent'[..|sent|] == sent;
    forall k | 0 <= k < |sent'| ensures IsNews(sent'[k], ViewOf(sent'[..k], sent'[k].uid)) {
      if k < |sent| {
        assert sent'[..k] == sent[..k] && sent'[k] == sent[k];
      }
    }
  }

  /** A confirmed notice is news, and the row then tracks it. */
  lemma ConfirmedStaysTracked(rows: map<Uid, Row>, sent: seq<Notice>, u: Uid, now: real)
    requires NoRepeats(sent) && RowsTrack(rows, sent) && u in rows && GoodRow(rows[u]) && rows[u].pending.Some?
    ensures var sent' := sent + [Notice(u, rows[u].pending.value.kind, rows[u].pending.value.problems)];
            NoRepeats(sent') && RowsTrack(rows[u := Attempted(rows[u], now, true)], sent')
  {
    assert Tracks(rows[u], ViewOf(sent, u));
    OneMoreNotice(sent, Notice(u, rows[u].pending.value.kind, rows[u].pending.value.problems));
  }

  lemma SendStaysInStep(w: World, e: Event, recipients: seq<Uid>)
    requires Inv(w) && InStep(w, recipients) && e.Send? && OnSend(w, e).Some?
    ensures InStep(OnSend(w, e).value, recipients)
  {
    var live := w.mem.value;
    var u := live.todo[0];
    if !w.lost {
      if e.confirmed {
        ConfirmedStaysTracked(live.state.rows, w.sent, u, live.now);
      } else {
        assert Tracks(live.state.rows[u], ViewOf(w.sent, u));
      }
    }
  }

  lemma StepStaysInStep(w: World, e: Event, recipients: seq<Uid>)
    requires Inv(w) && InStep(w, recipients) && ForTheSame(e, recipients) && Next(w, e).Some?
    ensures InStep(Next(w, e).value, recipients)
  {
    if e.Send? {
      SendStaysInStep(w, e, recipients);
    } else if e.Save? {
      var s := w.mem.value.state;
      StateRoundTrip(s, recipients);
      if !w.lost {
        assert Select(s, recipients).rows == s.rows;
      }
    }
  }

  /** While every receipt reaches the disk and the recipients stay the same, nobody is told the same thing twice. */
  lemma {:induction false} NothingIsRepeated(disk: Option<Json>, events: seq<Event>, recipients: seq<Uid>)
    requires Readable(disk) && DiskTracks(disk, [], recipients)
    requires (forall e | e in events :: ForTheSame(e, recipients)) && Exec(Start(disk), events).Some?
    ensures InStep(Exec(Start(disk), events).value, recipients)
  {
    if events != [] {
      var n := |events| - 1;
      assert events == events[..n] + [events[n]];
      SavedIsAlwaysAccepted(disk, events[..n]);
      NothingIsRepeated(disk, events[..n], recipients);
      StepStaysInStep(Exec(Start(disk), events[..n]).value, events[n], recipients);
    }
  }

  lemma FreshTracks(problems: Problems, recipients: seq<Uid>)
    ensures DiskTracks(None, [], recipients)
    ensures DiskTracks(Some(Obj(map["problems" := ListJson(problems)])), [], recipients)
  {
  }

  /** Why runs need a clock after 1970: a first alarm stored at an earlier time is refused by every later run. */
  lemma FirstAlarmIsReadableIff(problems: Problems, now: real)
    requires GoodList(problems) && problems != []
    ensures RowOf(RowJson(Observed(NewRow([], false), problems, now))).Some? <==> now >= 0.0
  {
  }
}
