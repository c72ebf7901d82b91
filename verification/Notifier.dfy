/** The health notifier itself (deploy/bot/healthcheck.py `_run`), step by step over its state file. */
module Notifier {
  import opened Common
  import opened NotifierState
  import opened NotifierProtocol

  datatype Exit = Refused | Crashed | Finished(failed: bool)

  /** What becomes of one attempt; the process may die before the send, or between the send and the save. */
  datatype Answer = Confirmed | Unconfirmed | DiesFirst | DiesAfter(confirmed: bool)

  predicate Dies(a: Answer) {
    a.DiesFirst? || a.DiesAfter?
  }

  /** `file` is durable; `rows` and `problems` are the state a run has in memory. */
  class Notifier {
    var file: Option<Json>
    var rows: map<Uid, Row>
    var problems: Problems
    ghost var origin: Option<Json>
    ghost var events: seq<Event>
    ghost var world: World

    /** The events noted so far lead from the first file to this one. */
    ghost predicate Valid()
      reads this
    {
      && Exec(Start(origin), events) == Some(world) && world.disk == file
      && (world.mem.Some? ==> world.mem.value.state == State(problems, rows))
    }

    ghost predicate Idle()
      reads this
    {
      Valid() && world.mem.None?
    }

    /** A crashed process comes back to whatever file it left. */
    constructor (found: Option<Json>)
      ensures Idle() && file == found && origin == found
    {
      file, rows, problems := found, map[], [];
      origin, events, world := found, [], Start(found);
    }

    ghost method Note(e: Event)
      requires Exec(Start(origin), events) == Some(world) && Next(world, e).Some?
      modifies this`events, this`world
      ensures events == old(events) + [e] && Some(world) == Next(old(world), e)
      ensures Exec(Start(origin), events) == Some(world)
    {
      world := Next(world, e).value;
      events := events + [e];
    }

    method SaveState()
      requires Valid() && world.mem.Some?
      modifies this`file, this`events, this`world
      ensures Valid() && Some(world) == OnSave(old(world))
      ensures events == old(events) + [Event.Save]
    {
      file := Some(Encode(State(problems, rows)));
      Note(Event.Save);
    }

    ghost method Halt()
      requires Valid()
      modifies this`events, this`world
      ensures Idle() && events == old(events) + [Stop]
    {
      Note(Stop);
    }

    /** `_update_legacy_view`. */
    method UpdateLegacyView()
      modifies this`problems
      ensures LegacyView(State(old(problems), rows), State(problems, rows))
    {
      if rows == map[] { return; }
      var first: Uid :| first in rows;
      var told := rows[first].delivered;
      var todo := rows.Keys;
      while todo != {}
        invariant todo <= rows.Keys && problems == old(problems)
        invariant forall u | u in rows && u !in todo :: rows[u].pending.None? && rows[u].delivered == told
      {
        var u: Uid :| u in todo;
        if rows[u].pending.Some? || rows[u].delivered != told {
          return;
        }
        todo := todo - {u};
      }
      if told.Some? {
        assert AllTold(rows, told.value);
        problems := told.value;
      }
    }

    /** Let every row see the problems of this check. */
    method ObserveAll(found: Problems, now: real)
      modifies this`rows
      ensures rows == ObservedRows(old(rows), found, now)
    {
      var todo := rows.Keys;
      while todo != {}
        invariant todo <= rows.Keys == old(rows).Keys
        invariant forall u | u in rows ::
                    rows[u] == if u in todo then old(rows)[u] else Observed(old(rows)[u], found, now)
      {
        var u: Uid :| u in todo;
        var row := Observe(rows[u], found, now);
        rows := rows[u := row];
        todo := todo - {u};
      }
    }

    /** Take over a loaded state and let every row see the problems of this check. */
    method Adopt(loaded: State, found: Problems, now: real)
      modifies this`rows, this`problems
      ensures rows == ObservedRows(loaded.rows, found, now)
      ensures LegacyView(State(loaded.problems, rows), State(problems, rows))
    {
      problems, rows := loaded.problems, loaded.rows;
      ObserveAll(found, now);
      UpdateLegacyView();
    }

    method LoadAndObserve(recipients: seq<Uid>, found: Problems, now: real) returns (ok: bool)
      requires Idle() && GoodList(found) && now >= 0.0
      modifies this`rows, this`problems, this`events, this`world
      ensures Valid() && old(events) <= events
      ensures ok == Loaded(old(file), recipients).Some?
      ensures !ok ==> world == old(world)
      ensures ok ==> world.mem == Some(Live(State(problems, rows), now, recipients, true, false))
                     && rows == ObservedRows(Loaded(old(file), recipients).value.rows, found, now)
    {
      var loaded;
      if file.None? {
        loaded := Loaded(file, recipients);
      } else {
        loaded := Decode(file.value, recipients);
      }
      if loaded.None? { return false; }
      Adopt(loaded.value, found, now);
      Note(Load(recipients, found, now, problems));
      ok := true;
    }

    /** One due notice: send it, and record what came of it. */
    method SendOne(u: Uid, now: real, confirmed: bool)
      requires Valid() && AtRecipient(world) && world.mem.value.todo[0] == u
      requires now == world.mem.value.now && Due(rows[u], now)
      modifies this`rows, this`problems, this`events, this`world
      ensures Valid() && old(events) <= events
      ensures world.mem == Some(Live(State(problems, rows), now, old(world).mem.value.todo[1..], true, confirmed))
      ensures rows == old(rows)[u := Attempted(old(rows)[u], now, confirmed)]
    {
      rows := rows[u := Attempted(rows[u], now, confirmed)];
      UpdateLegacyView();
      Note(Send(confirmed, problems));
    }

    /** The state a run has between two recipients: everything so far is on disk. */
    ghost predicate AtRest(now: real, todo: seq<Uid>)
      reads this
    {
      && Valid() && file == Some(Encode(State(problems, rows)))
      && world.mem == Some(Live(State(problems, rows), now, todo, false, false))
    }

    /** One recipient's turn: nothing due, or an attempt recorded and saved, or a crash on the way. */
    method Turn(u: Uid, now: real, answer: Answer, ghost rest: seq<Uid>) returns (turn: Option<bool>)
      requires AtRest(now, [u] + rest) && u in rows
      modifies this`file, this`rows, this`problems, this`events, this`world
      ensures old(events) <= events
      ensures turn == if old(rows)[u].pending.None? || now < old(rows)[u].pending.value.next then Some(true)
                      else if Dies(answer) then None else Some(answer.Confirmed?)
      ensures turn.None? ==> Idle()
      ensures turn.Some? ==> AtRest(now, rest)
      ensures turn.Some? ==>
                rows == if Due(old(rows)[u], now) then old(rows)[u := Attempted(old(rows)[u], now, answer.Confirmed?)]
                        else old(rows)
    {
      if !Due(rows[u], now) {
        Note(Pass);
        return Some(true);
      }
      if answer.DiesFirst? { Halt(); return None; }
      SendOne(u, now, answer.Confirmed? || answer == DiesAfter(true));
      if answer.DiesAfter? { Halt(); return None; }
      SaveState();
      turn := Some(answer.Confirmed?);
    }

    /** Load, observe and save, unless the file is refused or the run dies first. */
    method Begin(recipients: seq<Uid>, found: Problems, now: real, lives: bool) returns (refused: bool, alive: bool)
      requires Idle() && GoodList(found) && now >= 0.0
      modifies this`file, this`rows, this`problems, this`events, this`world
      ensures old(events) <= events
      ensures refused == Loaded(old(file), recipients).None? && (refused ==> !alive && file == old(file))
      ensures alive <==> !refused && lives
      ensures if alive then AtRest(now, recipients) else Idle()
      ensures alive ==> rows == ObservedRows(Loaded(old(file), recipients).value.rows, found, now)
    {
      var ok := LoadAndObserve(recipients, found, now);
      refused, alive := !ok, false;
      if ok {
        if !lives { Halt(); return; }
        SaveState();
        alive := true;
      }
    }

    /**
      One run. Whatever happens, the file on disk follows the protocol. A run that comes to its end has tried everyone
      who was due, once, and reports a failure exactly if one of these sends was not confirmed.
     */
    method Run(recipients: seq<Uid>, found: Problems, now: real, lives: bool, answer: Uid -> Answer)
      returns (exit: Exit)
      requires Idle() && GoodList(found) && now >= 0.0
      modifies this`file, this`rows, this`problems, this`events, this`world
      ensures Idle() && old(events) <= events
      ensures exit == match Loaded(old(file), recipients)
                      case None => Refused
                      case Some(loaded) => Ending(ObservedRows(loaded.rows, found, now), recipients, now, lives, answer)
      ensures exit.Refused? ==> file == old(file)
      ensures exit.Finished? ==> file == Some(Encode(State(problems, rows))) && Loaded(old(file), recipients).Some?
      ensures exit.Finished? ==>
                Served(ObservedRows(Loaded(old(file), recipients).value.rows, found, now), rows, recipients, now,
                       answer)
    {
      var refused, alive := Begin(recipients, found, now, lives);
      if refused { return Refused; }
      if !alive { return Crashed; }
      var done := Serve(recipients, now, answer);
      exit := if done.None? then Crashed else Finished(done.value);
    }

    /** The turn of the recipient at place `i`. */
    method ServeOne(recipients: seq<Uid>, i: nat, now: real, answer: Uid -> Answer, ghost first: map<Uid, Row>,
                    bad: bool)
      returns (worse: Option<bool>)
      requires i < |recipients| && AtRest(now, recipients[i..]) && recipients[i] in rows
      requires Progress(first, rows, recipients[..i], now, answer, bad)
      modifies this`file, this`rows, this`problems, this`events, this`world
      ensures old(events) <= events
      ensures worse.None? ==> Idle() && Due(first[recipients[i]], now) && Dies(answer(recipients[i]))
      ensures worse.Some? ==>
                && AtRest(now, recipients[i + 1..]) && rows.Keys == old(rows).Keys
                && Progress(first, rows, recipients[..i + 1], now, answer, worse.value)
    {
      assert recipients[i..] == [recipients[i]] + recipients[i + 1..];
      TurnServes(first, rows, recipients, i, now, answer, bad);
      var turn := Turn(recipients[i], now, answer(recipients[i]), recipients[i + 1..]);
      worse := if turn.None? then None else Some(bad || !turn.value);
    }

    /** The sending loop; `None` when the process dies on the way, else whether a send was not confirmed. */
    method Serve(recipients: seq<Uid>, now: real, answer: Uid -> Answer) returns (failed: Option<bool>)
      requires AtRest(now, recipients) && rows.Keys == set u | u in recipients
      modifies this`file, this`rows, this`problems, this`events, this`world
      ensures Idle() && old(events) <= events
      ensures failed.None? <==> exists u :: u in recipients && Due(old(rows)[u], now) && Dies(answer(u))
      ensures failed.Some? ==> file == Some(Encode(State(problems, rows)))
                               && Progress(old(rows), rows, recipients, now, answer, failed.value)
    {
      failed := Some(false);
      assert recipients[0..] == recipients;
      for i := 0 to |recipients|
        invariant old(events) <= events && AtRest(now, recipients[i..]) && failed.Some?
        invariant rows.Keys == old(rows).Keys && Progress(old(rows), rows, recipients[..i], now, answer, failed.value)
      {
        failed := ServeOne(recipients, i, now, answer, old(rows), failed.value);
        if failed.None? {
          assert recipients[i] in recipients;
          return;
        }
      }
      assert recipients[..|recipients|] == recipients;
      assert forall u | u in recipients && Due(old(rows)[u], now) :: !Dies(answer(u));
      Halt();
    }
  }

  /** How a run ends that found `first` to work on. */
  ghost function Ending(first: map<Uid, Row>, recipients: seq<Uid>, now: real, lives: bool, answer: Uid -> Answer)
    : Exit
  {
    if !lives || exists u :: u in recipients && u in first && Due(first[u], now) && Dies(answer(u)) then Crashed
    else Finished(exists u :: u in recipients && u in first && Due(first[u], now) && answer(u).Unconfirmed?)
  }

  /** Whoever of `served` was due has had one attempt; the others still have the row of their observation. */
  ghost predicate Served(first: map<Uid, Row>, rows: map<Uid, Row>, served: seq<Uid>, now: real,
                         answer: Uid -> Answer)
  {
    && rows.Keys == first.Keys
    && forall u | u in rows ::
         rows[u] == if u in served && Due(first[u], now) then Attempted(first[u], now, answer(u).Confirmed?)
                    else first[u]
  }

  /** After an attempt nobody is due again at the same time. */
  lemma AttemptedWaits(row: Row, now: real, confirmed: bool)
    requires row.pending.Some?
    ensures !Due(Attempted(row, now, confirmed), now)
  {
  }

  /** Nobody in `served` had the process die, and `failed` says whether one of the sends was not confirmed. */
  ghost predicate Progress(first: map<Uid, Row>, rows: map<Uid, Row>, served: seq<Uid>, now: real,
                           answer: Uid -> Answer, failed: bool)
  {
    && first.Keys >= (set u | u in served) && Served(first, rows, served, now, answer)
    && (forall u | u in served && Due(first[u], now) :: !Dies(answer(u)))
    && (failed <==> exists u :: u in served && Due(first[u], now) && answer(u).Unconfirmed?)
  }

  lemma TurnServes(first: map<Uid, Row>, rows: map<Uid, Row>, recipients: seq<Uid>, i: nat, now: real,
                   answer: Uid -> Answer, failed: bool)
    requires i < |recipients| && Progress(first, rows, recipients[..i], now, answer, failed) && recipients[i] in rows
    ensures var u := recipients[i];
            && (Due(rows[u], now) <==> u !in recipients[..i] && Due(first[u], now))
            && (!Due(rows[u], now) ==> Progress(first, rows, recipients[..i + 1], now, answer, failed))
            && (Due(rows[u], now) && !Dies(answer(u)) ==>
                  Progress(first, rows[u := Attempted(rows[u], now, answer(u).Confirmed?)], recipients[..i + 1], now,
                           answer, failed || answer(u).Unconfirmed?))
  {
    var u := recipients[i];
    assert recipients[..i + 1] == recipients[..i] + [u];
    if u in recipients[..i] && Due(first[u], now) {
      AttemptedWaits(first[u], now, answer(u).Confirmed?);
    }
  }

  /**
    `_observe`. Whoever was told exactly these problems has nothing pending, and nothing pending means just that;
    a retry is never further away than the longest delay, and what was delivered is not touched.
   */
  method Observe(row: Row, found: Problems, now: real) returns (row': Row)
    ensures row' == Observed(row, found, now)
    ensures row'.observed == found && row'.delivered == row.delivered
    ensures row'.pending.Some? ==> row'.pending.value.next <= now + RETRY_MAX
    ensures Watched(row) && GoodList(found) && now >= 0.0 ==> GoodRow(row')
    ensures Watched(row) && row'.pending.None? ==> row.delivered == Some(found)
    ensures Watched(row) && row'.pending.Some? ==> row.delivered != Some(found) || row'.pending.value.kind.Resolved?
    ensures row.pending.None? && row.observed == found && row.delivered == Some(found) ==> row' == row
  {
    row' := row;
    if row.observed == found && row.pending.Some? {
      row' := row.(pending := Some(row.pending.value.(next := Min(row.pending.value.next, now + RETRY_MAX))));
      return;
    }
    var next := None;
    if found != [] {
      if row.delivered != Some(found) {
        next := Some(Pending(Problem, found, 0, now));
      }
    } else if row.observed != [] && (row.delivered.None? || row.delivered.value != row.observed) {
      next := Some(Pending(Resolved, row.observed, 0, now));
    } else if row.delivered.Some? && row.delivered.value != [] {
      next := Some(Pending(Recovery, [], 0, now));
    }
    row' := row'.(observed := found);
    row' := row'.(pending := next);
  }
}
