/**
  The gates a transaction must pass: declared service actions, stability sampling and the
  observation that decides between commit and rollback.
 */
module TxGates {
  import opened Common

  datatype Action = Restart(unit: string) | Start(unit: string) | Stop(unit: string) | Global(name: string)

  datatype Want = Active | Inactive

  /** The hard gates of `health_snapshot`. */
  datatype Gate = Svc(unit: string) | Dns(probe: string) | Port(number: int)

  predicate NamesUnit(a: Action) {
    !a.Global?
  }

  function WantOf(a: Action): Want {
    if a.Stop? then Inactive else Active
  }

  /** No two actions want opposite ends for one unit. */
  ghost predicate Consistent(actions: seq<Action>) {
    forall i, j | 0 <= i < |actions| && 0 <= j < |actions| && NamesUnit(actions[i]) && NamesUnit(actions[j])
                  && actions[i].unit == actions[j].unit :: WantOf(actions[i]) == WantOf(actions[j])
  }

  /** `action_conflicts`: an empty result means no contradiction. */
  method ActionConflicts(actions: seq<Action>) returns (conflict: bool)
    ensures conflict <==> !Consistent(actions)
  {
    var seen: map<string, Want> := map[];
    for k := 0 to |actions|
      invariant Consistent(actions[..k])
      invariant forall i | 0 <= i < k && NamesUnit(actions[i]) ::
                  actions[i].unit in seen && seen[actions[i].unit] == WantOf(actions[i])
      invariant forall u | u in seen ::
                  (exists i :: 0 <= i < k && NamesUnit(actions[i]) && actions[i].unit == u
                               && WantOf(actions[i]) == seen[u])
    {
      var a := actions[k];
      if NamesUnit(a) {
        if a.unit in seen && seen[a.unit] != WantOf(a) {
          assert exists i :: 0 <= i < k && NamesUnit(actions[i]) && actions[i].unit == a.unit
                             && WantOf(actions[i]) == seen[a.unit];
          return true;
        }
        seen := seen[a.unit := WantOf(a)];
      }
    }
    assert actions[..|actions|] == actions;
    return false;
  }

  /** `expected_states`: later actions overwrite earlier ones. */
  function Expected(actions: seq<Action>): map<string, Want> {
    if actions == [] then map[] else
    var prev := Expected(actions[..|actions| - 1]);
    var a := actions[|actions| - 1];
    if NamesUnit(a) then prev[a.unit := WantOf(a)] else prev
  }

  method ExpectedStates(actions: seq<Action>) returns (exp: map<string, Want>)
    ensures exp == Expected(actions)
  {
    exp := map[];
    for k := 0 to |actions|
      invariant exp == Expected(actions[..k])
    {
      assert actions[..k + 1][..k] == actions[..k];
      if NamesUnit(actions[k]) {
        exp := exp[actions[k].unit := WantOf(actions[k])];
      }
    }
    assert actions[..|actions|] == actions;
  }

  /** In a consistent list the expected end of a unit is what any action on it wants. */
  lemma {:induction false} ExpectedMeaning(actions: seq<Action>, u: string)
    requires Consistent(actions)
    ensures u in Expected(actions) <==> exists a :: a in actions && NamesUnit(a) && a.unit == u
    ensures forall a | a in actions && NamesUnit(a) && a.unit == u ::
              Expected(actions)[u] == if a.Stop? then Inactive else Active
  {
    if actions != [] {
      var n := |actions| - 1;
      var prev, last := actions[..n], actions[n];
      ExpectedMeaning(prev, u);
      assert actions == prev + [last];
      forall a | a in actions && NamesUnit(a) && a.unit == u
        ensures u in Expected(actions) && Expected(actions)[u] == if a.Stop? then Inactive else Active
      {
        if NamesUnit(last) && last.unit == u {
          var i :| 0 <= i < |actions| && actions[i] == a;
          assert WantOf(actions[i]) == WantOf(actions[n]);
        } else {
          assert a in prev;
        }
      }
    }
  }

  /** Expected ends do not depend on the order (or repetition) of accepted actions. */
  lemma ExpectedOrderFree(a: seq<Action>, b: seq<Action>)
    requires Consistent(a) && Consistent(b)
    requires forall x :: x in a <==> x in b
    ensures Expected(a) == Expected(b)
  {
    forall u
      ensures u in Expected(a) <==> u in Expected(b)
      ensures u in Expected(a) ==> Expected(a)[u] == Expected(b)[u]
    {
      ExpectedMeaning(a, u);
      ExpectedMeaning(b, u);
    }
  }

  /** `n` consecutive samples in a row, somewhere among the first `limit`, all hold. */
  ghost predicate Streak(samples: seq<bool>, n: nat, limit: nat) {
    exists k :: StreakAt(samples, n, limit, k)
  }

  ghost predicate StreakAt(samples: seq<bool>, n: nat, limit: nat, k: nat) {
    k + n <= limit <= |samples| && forall i | k <= i < k + n :: samples[i]
  }

  /** A current run of `streak < n` good samples adds no streak of length `n`. */
  lemma NoStreakYet(samples: seq<bool>, n: nat, prev: nat, streak: nat)
    requires prev + 1 <= |samples| && streak <= prev + 1 && 0 < n && streak < n
    requires streak <= prev ==> !samples[prev - streak]
    requires NoStreak(samples, n, prev)
    ensures NoStreak(samples, n, prev + 1)
  {
    var limit := prev + 1;
    forall k ensures !StreakAt(samples, n, limit, k) {
      assert !StreakAt(samples, n, prev, k);
    }
  }

  ghost predicate NoStreak(samples: seq<bool>, n: nat, limit: nat) {
    forall k :: !StreakAt(samples, n, limit, k)
  }

  /** `svc_stable`: a streak of active samples, and NRestarts (if readable) did not grow. */
  method ServiceStable(active: seq<bool>, n: nat, maxPolls: nat, restarts0: Option<int>, restarts1: Option<int>)
    returns (ok: bool)
    requires |active| >= maxPolls
    ensures ok <==> Streak(active, n, maxPolls)
                    && !(restarts0.Some? && restarts1.Some? && restarts1.value > restarts0.value)
  {
    var streak := 0;
    var i := 0;
    while i < maxPolls
      invariant 0 <= streak <= i <= maxPolls
      invariant forall j | i - streak <= j < i :: active[j]
      invariant streak < i ==> !active[i - streak - 1]
      invariant i > 0 ==> streak == 0 || streak < n
      invariant n > 0 ==> NoStreak(active, n, i)
    {
      if active[i] {
        streak := streak + 1;
        if streak >= n {
          assert StreakAt(active, n, maxPolls, i + 1 - n);
          break;
        }
      } else {
        streak := 0;
      }
      if n > 0 {
        NoStreakYet(active, n, i, streak);
      }
      i := i + 1;
    }
    if streak < n {
      return false;
    }
    if n == 0 {
      assert StreakAt(active, 0, maxPolls, 0);
    }
    return !(restarts0.Some? && restarts1.Some? && restarts1.value > restarts0.value);
  }

  /** `svc_inactive_stable`: succeeds only on an inactive sample, so at least one is needed. */
  method ServiceInactiveStable(inactive: seq<bool>, n: nat, maxPolls: nat) returns (ok: bool)
    requires |inactive| >= maxPolls
    ensures ok <==> Streak(inactive, if n == 0 then 1 else n, maxPolls)
  {
    var need := if n == 0 then 1 else n;
    var streak := 0;
    for i := 0 to maxPolls
      invariant 0 <= streak <= i && streak < need
      invariant forall j | i - streak <= j < i :: inactive[j]
      invariant streak < i ==> !inactive[i - streak - 1]
      invariant NoStreak(inactive, need, i)
    {
      if inactive[i] {
        streak := streak + 1;
        if streak >= n {
          assert StreakAt(inactive, need, maxPolls, i + 1 - need);
          return true;
        }
      } else {
        streak := 0;
      }
      NoStreakYet(inactive, need, i, streak);
    }
    return false;
  }

  /** Everything the environment will answer while one transaction commits. */
  datatype Probe = Probe(
    normal: bool,
    actions: seq<Action>,
    services: set<string>,              // services of the targets, guards and actions
    guards: map<string, Want>,          // states that services must be in before anything is written
    state: string -> Option<Want>,      // what `systemctl` says of them under the lock; `None` when it cannot say
    base: map<Gate, bool>,              // health before
    after: map<Gate, bool>,             // health after
    samples: nat, maxPolls: nat,
    active: string -> seq<bool>,
    inactive: string -> seq<bool>,
    restarts: string -> (Option<int>, Option<int>),
    valid: string -> bool,              // the validators accept the candidate of this target
    keeps: string -> bool,              // a copy of this target can be saved
    indexed: bool, noted: bool,         // the index of the copies, and the note of what will be written
    writes: string -> bool,             // this target can be replaced or removed
    acts: Action -> bool,               // this service action succeeds
    undoes: string -> bool,             // this target can be put back
    settles: bool,                      // services, sysctl and nft come back as they were
    drops: bool)                        // materials that are no longer needed can be deleted

  ghost predicate Answers(p: Probe) {
    forall u | u in p.services :: |p.active(u)| >= p.maxPolls && |p.inactive(u)| >= p.maxPolls
  }

  /** Every guarded service is positively known to be in the state it was guarded with. */
  ghost predicate GuardsHold(p: Probe) {
    forall u | u in p.guards :: p.state(u) == Some(p.guards[u])
  }

  /** Step 2) of `_commit_locked`: an unknown or different state refuses. */
  method CheckGuards(p: Probe) returns (ok: bool)
    ensures ok <==> forall u | u in p.guards :: p.state(u) == Some(p.guards[u])
  {
    var todo := p.guards.Keys;
    while todo != {}
      invariant todo <= p.guards.Keys
      invariant forall u | u in p.guards && u !in todo :: p.state(u) == Some(p.guards[u])
    {
      var u :| u in todo;
      if p.state(u) != Some(p.guards[u]) {
        return false;
      }
      todo := todo - {u};
    }
    ok := true;
  }

  /** The unit reached the state its action asked for (active when none asked) and stayed there. */
  ghost predicate Reached(p: Probe, u: string) {
    if u in Expected(p.actions) && Expected(p.actions)[u] == Inactive then
      Streak(p.inactive(u), if p.samples == 0 then 1 else p.samples, p.maxPolls)
    else
      Streak(p.active(u), p.samples, p.maxPolls)
      && !(p.restarts(u).0.Some? && p.restarts(u).1.Some? && p.restarts(u).1.value > p.restarts(u).0.value)
  }

  /** The last action that names the unit stops it. */
  ghost predicate StoppedLast(actions: seq<Action>, u: string) {
    exists k :: 0 <= k < |actions| && actions[k] == Stop(u) && NamedLast(actions, u, k)
  }

  ghost predicate NamedLast(actions: seq<Action>, u: string, k: int) {
    forall j | 0 <= j < |actions| && k < j && NamesUnit(actions[j]) :: actions[j].unit != u
  }

  lemma {:induction false} ExpectedInactiveIff(actions: seq<Action>, u: string)
    ensures u in Expected(actions) && Expected(actions)[u] == Inactive <==> StoppedLast(actions, u)
  {
    if actions != [] {
      var n := |actions| - 1;
      var prev, last := actions[..n], actions[n];
      ExpectedInactiveIff(prev, u);
      if NamesUnit(last) && last.unit == u {
        assert last.Stop? ==> actions[n] == Stop(u) && NamedLast(actions, u, n);
      } else {
        forall k | 0 <= k < n ensures NamedLast(prev, u, k) <==> NamedLast(actions, u, k) {
          assert NamedLast(actions, u, k) ==> forall j | k < j < n && NamesUnit(prev[j]) :: actions[j] == prev[j];
          assert NamedLast(prev, u, k) ==> forall j | k < j < n :: actions[j] == prev[j];
        }
      }
    }
  }

  /** A unit that was stopped last must stay inactive; any other must stay active, without a new restart. */
  lemma ReachedMeaning(p: Probe, u: string)
    ensures Reached(p, u) <==>
              (if StoppedLast(p.actions, u)
               then Streak(p.inactive(u), if p.samples == 0 then 1 else p.samples, p.maxPolls)
               else Streak(p.active(u), p.samples, p.maxPolls) && !NewRestart(p, u))
  {
    ExpectedInactiveIff(p.actions, u);
  }

  /** Where no two actions contradict, any stop of the unit decides. */
  lemma ReachedPlainly(p: Probe, u: string)
    requires Consistent(p.actions)
    ensures Reached(p, u) <==> EndsWell(p, u)
    ensures u in Expected(p.actions) <==> exists a :: a in p.actions && NamesUnit(a) && a.unit == u
  {
    ExpectedMeaning(p.actions, u);
  }

  /** A unit that some action stops stays inactive, any other active and without a new restart. */
  ghost predicate EndsWell(p: Probe, u: string) {
    if Stop(u) in p.actions then Streak(p.inactive(u), if p.samples == 0 then 1 else p.samples, p.maxPolls)
    else Streak(p.active(u), p.samples, p.maxPolls) && !NewRestart(p, u)
  }

  /** It was not active before, and no action asked for anything else. */
  ghost predicate WasBadAlready(p: Probe, u: string) {
    Svc(u) in p.base && !p.base[Svc(u)] && forall a | a in p.actions && NamesUnit(a) :: a.unit != u
  }

  lemma NoRegressionMeaning(p: Probe)
    requires Consistent(p.actions)
    ensures NoRegression(p) <==>
              && (forall u | u in p.services :: EndsWell(p, u) || WasBadAlready(p, u))
              && (forall g | g in p.after && !p.after[g] :: g in p.base && !p.base[g])
  {
    forall u { ReachedPlainly(p, u); }
  }

  ghost predicate NewRestart(p: Probe, u: string) {
    p.restarts(u).0.Some? && p.restarts(u).1.Some? && p.restarts(u).0.value < p.restarts(u).1.value
  }

  /** `_do_actions`: one after the other, and the first failure ends it. */
  method DoActions(p: Probe) returns (ok: bool)
    ensures ok <==> forall a | a in p.actions :: p.acts(a)
  {
    for k := 0 to |p.actions|
      invariant forall j | 0 <= j < k :: p.acts(p.actions[j])
    {
      if !p.acts(p.actions[k]) {
        assert p.actions[k] in p.actions;
        return false;
      }
    }
    ok := true;
  }

  predicate WasBad(p: Probe, g: Gate) {
    g in p.base && !p.base[g]
  }

  /** The verdict of the observation: named units end as asked, nothing that was good turned bad. */
  ghost predicate NoRegression(p: Probe) {
    && (forall u | u in p.services ::
          Reached(p, u) || (u !in Expected(p.actions) && WasBad(p, Svc(u))))
    && (forall g | g in p.after && !p.after[g] :: WasBad(p, g))
  }

  /** `_observe`: services one by one, then the gates one by one; the first failure decides. */
  method Observe(p: Probe) returns (fine: bool)
    requires Answers(p)
    ensures fine <==> NoRegression(p)
    ensures fine <==>
              && (forall u | u in p.services :: Reached(p, u)
                    || (u !in Expected(p.actions) && Svc(u) in p.base && !p.base[Svc(u)]))
              && (forall g | g in p.after && !p.after[g] :: g in p.base && !p.base[g])
  {
    var exp := ExpectedStates(p.actions);
    var todo := p.services;
    while todo != {}
      invariant todo <= p.services
      invariant forall u | u in p.services - todo ::
                  Reached(p, u) || (u !in exp && WasBad(p, Svc(u)))
    {
      var u :| u in todo;
      var ok: bool;
      if u in exp && exp[u] == Inactive {
        ok := ServiceInactiveStable(p.inactive(u), p.samples, p.maxPolls);
      } else {
        ok := ServiceStable(p.active(u), p.samples, p.maxPolls, p.restarts(u).0, p.restarts(u).1);
      }
      assert ok <==> Reached(p, u);
      if !ok && !(u !in exp && WasBad(p, Svc(u))) {
        return false;
      }
      todo := todo - {u};
    }
    var gates := p.after.Keys;
    while gates != {}
      invariant gates <= p.after.Keys
      invariant forall g | g in p.after.Keys - gates && !p.after[g] :: WasBad(p, g)
    {
      var g :| g in gates;
      if !p.after[g] && !WasBad(p, g) {
        return false;
      }
      gates := gates - {g};
    }
    return true;
  }

  /** In normal mode every gate was good before, so every gate is good afterwards. */
  lemma NormalModeStaysGood(p: Probe)
    requires NoRegression(p) && forall g | g in p.base :: p.base[g]
    ensures forall g | g in p.after :: p.after[g]
    ensures forall u | u in p.services :: Reached(p, u)
  {
  }

  /** Whatever the mode, a unit named by an action ends as the action asked. */
  lemma NamedUnitsReached(p: Probe, a: Action)
    requires NoRegression(p) && Consistent(p.actions) && a in p.actions && NamesUnit(a) && a.unit in p.services
    ensures a.Stop? ==> Streak(p.inactive(a.unit), if p.samples == 0 then 1 else p.samples, p.maxPolls)
    ensures !a.Stop? ==> Streak(p.active(a.unit), p.samples, p.maxPolls) && !NewRestart(p, a.unit)
  {
    ExpectedMeaning(p.actions, a.unit);
  }
}
