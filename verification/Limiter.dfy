/** The in-memory limiter of the Web service (deploy/web/pdg-web.py `SecurityState`), one method per locked section. */
module Limiter {
  import opened Common
  import opened SlidingWindow

  type Ip = string

  const GLOBAL_WINDOW := 60.0
  const GLOBAL_PER_IP := 240
  const GLOBAL_ALL := 2000
  const LOGIN_WINDOW := 900.0
  const LOGIN_PER_IP := 5
  const LOGIN_ALL := 30
  const MAP_LIMIT := 1024

  // ---- queues by address ----

  ghost predicate MapOk(m: map<Ip, Times>) {
    |m| <= MAP_LIMIT && forall k | k in m :: m[k] != []
  }

  function QueueOf(m: map<Ip, Times>, ip: Ip): Times {
    if ip in m then m[ip] else []
  }

  function Pruned(m: map<Ip, Times>, cutoff: real): map<Ip, Times> {
    map k | k in m && Fresh(m[k], cutoff) != [] :: Fresh(m[k], cutoff)
  }

  lemma PrunedOf(m: map<Ip, Times>, cutoff: real, ip: Ip)
    ensures QueueOf(Pruned(m, cutoff), ip) == Fresh(QueueOf(m, ip), cutoff)
  {
  }

  /** No address has more entries than before. */
  ghost predicate Shrunk(before: map<Ip, Times>, after: map<Ip, Times>) {
    forall ip :: |QueueOf(after, ip)| <= |QueueOf(before, ip)|
  }

  lemma PrunedIsShrunk(m: map<Ip, Times>, cutoff: real)
    ensures Shrunk(m, Pruned(m, cutoff))
  {
    forall ip ensures |QueueOf(Pruned(m, cutoff), ip)| <= |QueueOf(m, ip)| {
      PrunedOf(m, cutoff, ip);
      FreshIsShorter(QueueOf(m, ip), cutoff);
    }
  }

  lemma PrunedIsSmaller(m: map<Ip, Times>, cutoff: real)
    ensures |Pruned(m, cutoff)| <= |m|
  {
    SubsetSize(Pruned(m, cutoff).Keys, m.Keys);
  }

  /** `_prune_map`; the map never outgrows its limit, so trimming it here has nothing to do. */
  method PruneMap(m: map<Ip, Times>, cutoff: real) returns (r: map<Ip, Times>)
    requires MapOk(m)
    ensures r == Pruned(m, cutoff) && MapOk(r)
  {
    r := m;
    var todo := m.Keys;
    while todo != {}
      invariant todo <= m.Keys && r.Keys <= m.Keys && todo <= r.Keys
      invariant forall k | k in m && k in todo :: r[k] == m[k]
      invariant forall k | k in m && k !in todo :: (k in r <==> Fresh(m[k], cutoff) != [])
      invariant forall k | k in r && k !in todo :: r[k] == Fresh(m[k], cutoff)
    {
      var key: Ip :| key in todo;
      var queue := Prune(r[key], cutoff);
      r := if queue == [] then r - {key} else r[key := queue];
      todo := todo - {key};
    }
    assert r == Pruned(m, cutoff);
    PrunedIsSmaller(m, cutoff);
  }

  function Last(q: Times): real {
    if q == [] then 0.0 else q[|q| - 1]
  }

  ghost predicate IsOldest(m: map<Ip, Times>, k: Ip) {
    k in m && forall x | x in m :: Last(m[k]) <= Last(m[x])
  }

  /** What makes room for `ip`: nothing while there is some, or dropping an address that was quiet longest. */
  ghost predicate MakesRoom(m: map<Ip, Times>, ip: Ip, r: map<Ip, Times>) {
    if ip in m || |m| < MAP_LIMIT then r == m else exists k :: IsOldest(m, k) && r == m - {k}
  }

  /** The queue of `ip` gets one more time. */
  function WithTime(m: map<Ip, Times>, ip: Ip, now: real): map<Ip, Times> {
    m[ip := QueueOf(m, ip) + [now]]
  }

  /** Make room for a new address by dropping the one that was quiet longest. */
  method MakeRoom(m: map<Ip, Times>, ip: Ip) returns (r: map<Ip, Times>)
    requires MapOk(m)
    ensures MapOk(r) && (ip !in r ==> |r| < MAP_LIMIT) && QueueOf(r, ip) == QueueOf(m, ip) && Shrunk(m, r)
    ensures MakesRoom(m, ip, r)
  {
    if ip in m || |m| < MAP_LIMIT { return m; }
    var oldest: Ip :| oldest in m;
    var todo := m.Keys - {oldest};
    while todo != {}
      invariant todo <= m.Keys && oldest in m
      invariant forall x | x in m && x !in todo :: Last(m[oldest]) <= Last(m[x])
    {
      var key: Ip :| key in todo;
      if Last(m[key]) < Last(m[oldest]) { oldest := key; }
      todo := todo - {key};
    }
    r := m - {oldest};
    assert r.Keys == m.Keys - {oldest};
    assert IsOldest(m, oldest);
  }

  /** A failure is recorded at `ip`: expired times go, room is made if it is needed, and both queues get the time. */
  ghost predicate WithFailure(logins: map<Ip, Times>, all: Times, logins': map<Ip, Times>, all': Times, ip: Ip,
                              now: real)
  {
    && all' == Fresh(all, now - LOGIN_WINDOW) + [now]
    && exists room :: MakesRoom(Pruned(logins, now - LOGIN_WINDOW), ip, room) && logins' == WithTime(room, ip, now)
  }

  // ---- pending attempts ----

  function Pending(m: map<Ip, nat>, ip: Ip): nat {
    if ip in m then m[ip] else 0
  }

  ghost function Total(m: map<Ip, nat>): nat
  {
    if m == map[] then 0 else
    var k: Ip :| k in m;
    m[k] + Total(m - {k})
  }

  lemma {:induction false} TotalSplit(m: map<Ip, nat>, ip: Ip)
    ensures Total(m) == Pending(m, ip) + Total(m - {ip})
    decreases |m|
  {
    if ip !in m {
      assert m - {ip} == m;
    } else {
      var k: Ip :| k in m && Total(m) == m[k] + Total(m - {k});
      if k != ip {
        TotalSplit(m - {k}, ip);
        TotalSplit(m - {ip}, k);
        assert m - {k} - {ip} == m - {ip} - {k};
      }
    }
  }

  lemma TotalAfter(m: map<Ip, nat>, m': map<Ip, nat>, ip: Ip)
    requires m' - {ip} == m - {ip}
    ensures Total(m') - Pending(m', ip) == Total(m) - Pending(m, ip)
  {
    TotalSplit(m, ip);
    TotalSplit(m', ip);
  }

  // ---- the limiter ----

  /** Recorded failures and reservations together stay within both limits. */
  ghost predicate Within(log: Times, recent: Times, logins: map<Ip, Times>, pending: map<Ip, nat>, total: int,
                         span: real)
  {
    && |recent| + total <= LOGIN_ALL && Spread(log, LOGIN_ALL, span)
    && PerIp(logins, pending)
  }

  ghost predicate PerIp(logins: map<Ip, Times>, pending: map<Ip, nat>) {
    forall ip :: |QueueOf(logins, ip)| + Pending(pending, ip) <= LOGIN_PER_IP
  }

  lemma ShrinkKeepsPerIp(before: map<Ip, Times>, after: map<Ip, Times>, pending: map<Ip, nat>)
    requires PerIp(before, pending) && Shrunk(before, after)
    ensures PerIp(after, pending)
  {
  }

  function OneMore(pending: map<Ip, nat>, ip: Ip): map<Ip, nat> {
    pending[ip := Pending(pending, ip) + 1]
  }

  lemma ReserveKeepsPerIp(logins: map<Ip, Times>, pending: map<Ip, nat>, ip: Ip)
    requires PerIp(logins, pending) && |QueueOf(logins, ip)| + Pending(pending, ip) < LOGIN_PER_IP
    ensures PerIp(logins, OneMore(pending, ip))
  {
  }

  /** There is room for one more failure at this address. */
  ghost predicate Room(recent: Times, logins: map<Ip, Times>, pending: map<Ip, nat>, total: int, ip: Ip) {
    |recent| + total < LOGIN_ALL && |QueueOf(logins, ip)| + Pending(pending, ip) < LOGIN_PER_IP
  }

  lemma ReleaseKeepsWithin(log: Times, recent: Times, logins: map<Ip, Times>, pending: map<Ip, nat>, total: int,
                           span: real, ip: Ip)
    requires Within(log, recent, logins, pending, total, span)
    ensures var total' := if ip in pending then total - 1 else total;
            Within(log, recent, logins, OneLess(pending, ip), total', span)
            && (Pending(pending, ip) > 0 ==> Room(recent, logins, OneLess(pending, ip), total', ip))
  {
  }

  lemma PruneKeepsWithin(log: Times, recent: Times, recent': Times, logins: map<Ip, Times>, logins': map<Ip, Times>,
                         pending: map<Ip, nat>, total: int, span: real)
    requires |recent'| <= |recent| && Shrunk(logins, logins')
    ensures Within(log, recent, logins, pending, total, span) ==> Within(log, recent', logins', pending, total, span)
    ensures forall ip :: Room(recent, logins, pending, total, ip) ==> Room(recent', logins', pending, total, ip)
  {
  }

  lemma RecordKeepsWithin(log: Times, recent: Times, now: real, logins: map<Ip, Times>, pending: map<Ip, nat>,
                          total: int, span: real, ip: Ip)
    requires Within(log, recent, logins, pending, total, span) && Room(recent, logins, pending, total, ip)
    requires Tail(log, recent, now - span) && total >= 0
    ensures Within(log + [now], recent + [now], WithTime(logins, ip, now), pending, total, span)
  {
    AppendKeepsSpread(log, recent, LOGIN_ALL, span, now);
    var logins' := WithTime(logins, ip, now);
    forall x ensures |QueueOf(logins', x)| + Pending(pending, x) <= LOGIN_PER_IP {
      assert |QueueOf(logins, x)| + Pending(pending, x) <= LOGIN_PER_IP;
    }
  }

  /** A queue with its history and its map by address. */
  ghost predicate Kept(log: Times, recent: Times, clock: real, w: real, d: real, per: map<Ip, Times>) {
    Records(log, recent, clock, w, d) && MapOk(per)
  }

  /** A time is added to the log, its queue and the queue of its address. */
  lemma AddKeeps(log: Times, recent: Times, clock: real, now: real, w: real, d: real, per: map<Ip, Times>, ip: Ip)
    requires Kept(log, recent, clock, w, d, per) && (ip !in per ==> |per| < MAP_LIMIT) && now <= clock <= now + d
    ensures Kept(log + [now], recent + [now], clock, w, d, WithTime(per, ip, now))
    ensures Tail(log, recent, now - (w - d))
  {
  }

  /** A queue and its map are pruned. */
  lemma PruneKeeps(log: Times, recent: Times, clock: real, now: real, w: real, d: real, per: map<Ip, Times>,
                   cutoff: real)
    requires Kept(log, recent, clock, w, d, per) && clock - d <= now && cutoff == now - w
    ensures Kept(log, Fresh(recent, cutoff), Later(clock, now), w, d, Pruned(per, cutoff))
    ensures |Fresh(recent, cutoff)| <= |recent| && Measures(|Fresh(recent, cutoff)|, log, now, w, d)
  {
    FreshCounts(log, recent, clock, now, w, d);
    FreshIsShorter(recent, cutoff);
    PrunedIsSmaller(per, cutoff);
  }

  ghost predicate Admits(log: Times, recent: Times, span: real) {
    |recent| <= GLOBAL_ALL && Spread(log, GLOBAL_ALL, span)
  }

  ghost predicate Counts(pending: map<Ip, nat>, total: int) {
    total == Total(pending) && forall ip | ip in pending :: pending[ip] >= 1
  }

  lemma ReserveKeepsCounts(pending: map<Ip, nat>, total: int, ip: Ip)
    requires Counts(pending, total)
    ensures Counts(OneMore(pending, ip), total + 1)
  {
    var pending' := OneMore(pending, ip);
    assert pending' - {ip} == pending - {ip};
    TotalAfter(pending, pending', ip);
  }

  function OneLess(pending: map<Ip, nat>, ip: Ip): map<Ip, nat> {
    if ip !in pending then pending
    else if pending[ip] <= 1 then pending - {ip}
    else pending[ip := pending[ip] - 1]
  }

  lemma OneLessKeepsCounts(pending: map<Ip, nat>, total: int, ip: Ip)
    requires Counts(pending, total)
    ensures Counts(OneLess(pending, ip), if ip in pending then total - 1 else total)
    ensures forall x :: Pending(OneLess(pending, ip), x) ==
              Pending(pending, x) - (if x == ip && ip in pending then 1 else 0)
  {
    if ip in pending {
      assert OneLess(pending, ip) - {ip} == pending - {ip};
      TotalAfter(pending, OneLess(pending, ip), ip);
    }
  }

  // ---- whole runs ----

  /** The login sections of a run that change a reservation or record a failure. */
  datatype Call = Reserved(ip: Ip) | Finished(ip: Ip, failed: bool) | Recorded(ip: Ip)

  function Moved(n: nat, c: Call, ip: Ip): nat {
    if c.ip != ip || c.Recorded? then n
    else if c.Reserved? then n + 1
    else if n > 0 then n - 1
    else 0
  }

  /** The reservations of an address that were not given back. */
  ghost function Balance(calls: seq<Call>, ip: Ip): nat {
    if calls == [] then 0 else
    Moved(Balance(calls[..|calls| - 1], ip), calls[|calls| - 1], ip)
  }

  /** Every recorded failure gives back a reservation of its own address. */
  ghost predicate Paid(calls: seq<Call>) {
    forall i | 0 <= i < |calls| :: PaidAt(calls, i)
  }

  ghost predicate PaidAt(calls: seq<Call>, i: nat)
    requires i < |calls|
  {
    match calls[i]
    case Reserved(_) => true
    case Finished(ip, failed) => failed ==> Balance(calls[..i], ip) > 0
    case Recorded(_) => false
  }

  lemma SamePrefix(calls: seq<Call>, c: Call, i: nat)
    requires i < |calls|
    ensures PaidAt(calls + [c], i) <==> PaidAt(calls, i)
  {
    assert (calls + [c])[..i] == calls[..i];
  }

  lemma PaidLater(calls: seq<Call>, c: Call)
    ensures Paid(calls + [c]) <==> Paid(calls) && PaidAt(calls + [c], |calls|)
  {
    var all := calls + [c];
    if Paid(all) {
      forall i | 0 <= i < |calls| ensures PaidAt(calls, i) {
        SamePrefix(calls, c, i);
        assert PaidAt(all, i);
      }
    }
    if Paid(calls) && PaidAt(all, |calls|) {
      forall i | 0 <= i < |all| ensures PaidAt(all, i) {
        if i < |calls| {
          SamePrefix(calls, c, i);
        }
      }
    }
  }

  lemma OneMoreCall(calls: seq<Call>, c: Call)
    ensures (calls + [c])[..|calls|] == calls
    ensures Paid(calls + [c]) <==> Paid(calls) && PaidAt(calls + [c], |calls|)
    ensures forall ip :: Balance(calls + [c], ip) == Moved(Balance(calls, ip), c, ip)
  {
    assert (calls + [c])[..|calls|] == calls;
    PaidLater(calls, c);
  }

  ghost predicate Follows(pending: map<Ip, nat>, calls: seq<Call>) {
    forall ip :: Pending(pending, ip) == Balance(calls, ip)
  }

  lemma ReserveFollows(pending: map<Ip, nat>, calls: seq<Call>, ip: Ip)
    requires Follows(pending, calls)
    ensures Follows(OneMore(pending, ip), calls + [Reserved(ip)])
    ensures Paid(calls + [Reserved(ip)]) ==> Paid(calls)
  {
    OneMoreCall(calls, Reserved(ip));
    assert Pending(pending, ip) == Balance(calls, ip);
    forall x ensures Pending(OneMore(pending, ip), x) == Balance(calls + [Reserved(ip)], x) {
      assert Pending(pending, x) == Balance(calls, x);
    }
  }

  lemma FinishFollows(pending: map<Ip, nat>, calls: seq<Call>, ip: Ip, failed: bool)
    requires Follows(pending, calls)
    ensures Follows(OneLess(pending, ip), calls + [Finished(ip, failed)])
    ensures Paid(calls + [Finished(ip, failed)]) ==> Paid(calls) && (failed ==> ip in pending)
  {
    OneMoreCall(calls, Finished(ip, failed));
    assert Pending(pending, ip) == Balance(calls, ip);
    forall x ensures Pending(OneLess(pending, ip), x) == Balance(calls + [Finished(ip, failed)], x) {
      assert Pending(pending, x) == Balance(calls, x);
    }
  }

  /** What the request handlers do: each reserves for its client and, if that worked, finishes once, in any order. */
  datatype Step = Enter(handler: nat, ip: Ip) | Leave(handler: nat, failed: bool)

  ghost function Open(steps: seq<Step>): map<nat, Ip> {
    if steps == [] then map[] else
    var before := Open(steps[..|steps| - 1]);
    match steps[|steps| - 1]
    case Enter(h, ip) => before[h := ip]
    case Leave(h, _) => before - {h}
  }

  ghost predicate Handlers(steps: seq<Step>) {
    steps == [] ||
    var before := Open(steps[..|steps| - 1]);
    && Handlers(steps[..|steps| - 1])
    && (steps[|steps| - 1].Enter? <==> steps[|steps| - 1].handler !in before)
  }

  ghost function Calls(steps: seq<Step>): seq<Call>
    requires Handlers(steps)
  {
    if steps == [] then [] else
    var before := steps[..|steps| - 1];
    Calls(before) + [
      match steps[|steps| - 1]
      case Enter(h, ip) => Reserved(ip)
      case Leave(h, failed) => Finished(Open(before)[h], failed)
    ]
  }

  ghost function OpenAt(open: map<nat, Ip>, ip: Ip): set<nat> {
    set h | h in open && open[h] == ip
  }

  lemma OpenAfterEnter(open: map<nat, Ip>, h: nat, ip: Ip, x: Ip)
    requires h !in open
    ensures |OpenAt(open[h := ip], x)| == |OpenAt(open, x)| + (if x == ip then 1 else 0)
  {
    assert OpenAt(open[h := ip], x) == if x == ip then OpenAt(open, x) + {h} else OpenAt(open, x);
  }

  lemma OpenAfterLeave(open: map<nat, Ip>, h: nat, x: Ip)
    requires h in open
    ensures |OpenAt(open - {h}, x)| == |OpenAt(open, x)| - (if x == open[h] then 1 else 0)
  {
    assert h in OpenAt(open, open[h]);
    assert OpenAt(open - {h}, x) == if x == open[h] then OpenAt(open, x) - {h} else OpenAt(open, x);
  }

  /** However handlers interleave, what stays reserved is one for each open one, so every failure is paid for. */
  lemma {:induction false} HandlersPay(steps: seq<Step>)
    requires Handlers(steps)
    ensures Paid(Calls(steps)) && forall ip :: Balance(Calls(steps), ip) == |OpenAt(Open(steps), ip)|
  {
    if steps == [] { return; }
    var before, last := steps[..|steps| - 1], steps[|steps| - 1];
    HandlersPay(before);
    var open := Open(before);
    var c := if last.Enter? then Reserved(last.ip) else Finished(open[last.handler], last.failed);
    OneMoreCall(Calls(before), c);
    if last.Enter? {
      forall ip { OpenAfterEnter(open, last.handler, last.ip, ip); }
    } else {
      assert last.handler in OpenAt(open, open[last.handler]);
      forall ip { OpenAfterLeave(open, last.handler, ip); }
    }
  }

  /**
    `admitted` and `failures` are the full histories, each with the latest time its locked sections came with. The
    clock is read before the lock is taken, so a section may come with a time up to `skew` before that.
   */
  class SecurityState {
    var global: map<Ip, Times>
    var logins: map<Ip, Times>
    var allRequests: Times
    var allFailures: Times
    var pending: map<Ip, nat>
    var pendingTotal: int
    ghost const skew: real
    ghost var admitted: Times
    ghost var failures: Times
    ghost var requestClock: real
    ghost var loginClock: real
    ghost var calls: seq<Call>

    ghost predicate Requests()
      reads this`admitted, this`allRequests, this`requestClock, this`global
    {
      && Kept(admitted, allRequests, requestClock, GLOBAL_WINDOW, skew, global)
      && Admits(admitted, allRequests, GLOBAL_WINDOW - skew)
    }

    ghost predicate Logins()
      reads this`failures, this`allFailures, this`loginClock, this`logins, this`pending, this`pendingTotal
    {
      Kept(failures, allFailures, loginClock, LOGIN_WINDOW, skew, logins) && Counts(pending, pendingTotal)
    }

    ghost predicate Valid()
      reads this
    {
      Requests() && Logins() && Tracked()
    }

    /** The reservations are those of the run so far, and the bounds hold if every failure was paid for. */
    ghost predicate Tracked()
      reads this`calls, this`failures, this`allFailures, this`logins, this`pending, this`pendingTotal
    {
      Follows(pending, calls) && (Paid(calls) ==> Bounded())
    }

    ghost predicate Bounded()
      reads this`failures, this`allFailures, this`logins, this`pending, this`pendingTotal
    {
      Within(failures, allFailures, logins, pending, pendingTotal, LOGIN_WINDOW - skew)
    }

    ghost predicate RoomAt(ip: Ip)
      reads this`allFailures, this`logins, this`pending, this`pendingTotal
    {
      Room(allFailures, logins, pending, pendingTotal, ip)
    }

    constructor (ghost d: real)
      requires d >= 0.0
      ensures Valid() && skew == d && admitted == [] && failures == [] && pending == map[] && calls == []
    {
      global, logins, allRequests, allFailures := map[], map[], [], [];
      pending, pendingTotal := map[], 0;
      skew := d;
      admitted, failures, requestClock, loginClock, calls := [], [], 0.0, 0.0, [];
    }

    method PruneRequests(now: real)
      requires Requests() && requestClock - skew <= now
      modifies this`global, this`allRequests, this`requestClock
      ensures Requests() && requestClock == Later(old(requestClock), now)
      ensures global == Pruned(old(global), now - GLOBAL_WINDOW)
      ensures allRequests == Fresh(old(allRequests), now - GLOBAL_WINDOW)
      ensures Measures(|allRequests|, admitted, now, GLOBAL_WINDOW, skew)
    {
      var cutoff := now - GLOBAL_WINDOW;
      PruneKeeps(admitted, allRequests, requestClock, now, GLOBAL_WINDOW, skew, global, cutoff);
      allRequests := Prune(allRequests, cutoff);
      global := PruneMap(global, cutoff);
      requestClock := Later(requestClock, now);
    }

    /** Make room for an address, in place. */
    method EvictRequests(ip: Ip)
      requires Requests()
      modifies this`global
      ensures Requests() && (ip !in global ==> |global| < MAP_LIMIT)
      ensures QueueOf(global, ip) == QueueOf(old(global), ip) && MakesRoom(old(global), ip, global)
    {
      global := MakeRoom(global, ip);
    }

    method AddRequest(ip: Ip, now: real)
      requires Requests() && (ip !in global ==> |global| < MAP_LIMIT) && |allRequests| < GLOBAL_ALL
      requires now <= requestClock <= now + skew
      modifies this`global, this`allRequests, this`admitted
      ensures Requests() && admitted == old(admitted) + [now]
      ensures global == WithTime(old(global), ip, now) && allRequests == old(allRequests) + [now]
    {
      AddKeeps(admitted, allRequests, requestClock, now, GLOBAL_WINDOW, skew, global, ip);
      AppendKeepsSpread(admitted, allRequests, GLOBAL_ALL, GLOBAL_WINDOW - skew, now);
      global := WithTime(global, ip, now);
      allRequests := allRequests + [now];
      admitted := admitted + [now];
    }

    method GlobalRateAllowed(ip: Ip, now: real) returns (allowed: bool)
      requires Requests() && requestClock - skew <= now
      modifies this`global, this`allRequests, this`admitted, this`requestClock
      ensures Requests() && requestClock == Later(old(requestClock), now)
      ensures Measures(|Fresh(old(allRequests), now - GLOBAL_WINDOW)|, old(admitted), now, GLOBAL_WINDOW, skew)
      ensures allowed <==> |Fresh(old(allRequests), now - GLOBAL_WINDOW)| < GLOBAL_ALL
                           && |Fresh(QueueOf(old(global), ip), now - GLOBAL_WINDOW)| < GLOBAL_PER_IP
      ensures admitted == if allowed then old(admitted) + [now] else old(admitted)
      ensures allRequests == Fresh(old(allRequests), now - GLOBAL_WINDOW) + if allowed then [now] else []
      ensures allowed ==> QueueOf(global, ip) == Fresh(QueueOf(old(global), ip), now - GLOBAL_WINDOW) + [now]
      ensures var live := Pruned(old(global), now - GLOBAL_WINDOW);
              if |Fresh(old(allRequests), now - GLOBAL_WINDOW)| >= GLOBAL_ALL then global == live else
              exists room :: MakesRoom(live, ip, room)
                             && global == if allowed then WithTime(room, ip, now) else room
    {
      PrunedOf(global, now - GLOBAL_WINDOW, ip);
      PruneRequests(now);
      if |allRequests| >= GLOBAL_ALL { return false; }
      EvictRequests(ip);
      if |QueueOf(global, ip)| >= GLOBAL_PER_IP { return false; }
      AddRequest(ip, now);
      allowed := true;
    }

    /** The pruning every login section starts with; room for `ip` stays. */
    method PruneLogins(now: real, ghost ip: Ip)
      requires Logins() && loginClock - skew <= now
      modifies this`logins, this`allFailures, this`loginClock
      ensures Logins() && loginClock == Later(old(loginClock), now) && (old(Bounded()) ==> Bounded())
      ensures old(RoomAt(ip)) ==> RoomAt(ip)
      ensures logins == Pruned(old(logins), now - LOGIN_WINDOW)
      ensures allFailures == Fresh(old(allFailures), now - LOGIN_WINDOW)
      ensures Measures(|allFailures|, failures, now, LOGIN_WINDOW, skew)
    {
      var cutoff := now - LOGIN_WINDOW;
      PruneKeeps(failures, allFailures, loginClock, now, LOGIN_WINDOW, skew, logins, cutoff);
      PrunedIsShrunk(logins, cutoff);
      PruneKeepsWithin(failures, allFailures, Fresh(allFailures, cutoff), logins, Pruned(logins, cutoff), pending,
                       pendingTotal, LOGIN_WINDOW - skew);
      allFailures := Prune(allFailures, cutoff);
      logins := PruneMap(logins, cutoff);
      loginClock := Later(loginClock, now);
    }

    method Reserve(ip: Ip)
      requires Logins() && Tracked() && RoomAt(ip)
      modifies this`pending, this`pendingTotal, this`calls
      ensures Logins() && Tracked() && calls == old(calls) + [Reserved(ip)]
      ensures pending == OneMore(old(pending), ip) && pendingTotal == old(pendingTotal) + 1
    {
      ReserveKeepsCounts(pending, pendingTotal, ip);
      if Bounded() {
        ReserveKeepsPerIp(logins, pending, ip);
      }
      ReserveFollows(pending, calls, ip);
      pending := OneMore(pending, ip);
      pendingTotal := pendingTotal + 1;
      calls := calls + [Reserved(ip)];
    }

    method ReserveLoginAttempt(ip: Ip, now: real) returns (ok: bool)
      requires Logins() && Tracked() && loginClock - skew <= now
      modifies this`logins, this`allFailures, this`pending, this`pendingTotal, this`loginClock, this`calls
      ensures Logins() && Tracked() && loginClock == Later(old(loginClock), now)
      ensures calls == if ok then old(calls) + [Reserved(ip)] else old(calls)
      ensures Measures(|Fresh(old(allFailures), now - LOGIN_WINDOW)|, failures, now, LOGIN_WINDOW, skew)
      ensures ok <==> |Fresh(old(allFailures), now - LOGIN_WINDOW)| + old(pendingTotal) < LOGIN_ALL
                      && |Fresh(QueueOf(old(logins), ip), now - LOGIN_WINDOW)| + Pending(old(pending), ip)
                         < LOGIN_PER_IP
      ensures pending == if ok then old(pending)[ip := Pending(old(pending), ip) + 1] else old(pending)
      ensures pendingTotal == old(pendingTotal) + if ok then 1 else 0
      ensures logins == Pruned(old(logins), now - LOGIN_WINDOW)
      ensures allFailures == Fresh(old(allFailures), now - LOGIN_WINDOW)
    {
      PrunedOf(logins, now - LOGIN_WINDOW, ip);
      PruneLogins(now, ip);
      if |allFailures| + pendingTotal >= LOGIN_ALL { return false; }
      if |QueueOf(logins, ip)| + Pending(pending, ip) >= LOGIN_PER_IP { return false; }
      Reserve(ip);
      ok := true;
    }

    /** Make room for an address, in place. */
    method EvictLogins(ip: Ip)
      requires Logins()
      modifies this`logins
      ensures Logins() && (ip !in logins ==> |logins| < MAP_LIMIT) && (old(Bounded()) ==> Bounded())
      ensures QueueOf(logins, ip) == QueueOf(old(logins), ip) && (old(RoomAt(ip)) ==> RoomAt(ip))
      ensures MakesRoom(old(logins), ip, logins)
    {
      var room := MakeRoom(logins, ip);
      if Bounded() {
        ShrinkKeepsPerIp(logins, room, pending);
      }
      logins := room;
    }

    method AddFailure(ip: Ip, now: real)
      requires Logins() && (ip !in logins ==> |logins| < MAP_LIMIT) && now <= loginClock <= now + skew
      modifies this`logins, this`allFailures, this`failures
      ensures Logins() && failures == old(failures) + [now]
      ensures logins == WithTime(old(logins), ip, now) && allFailures == old(allFailures) + [now]
      ensures old(Bounded() && RoomAt(ip)) ==> Bounded()
    {
      AddKeeps(failures, allFailures, loginClock, now, LOGIN_WINDOW, skew, logins, ip);
      if Bounded() && RoomAt(ip) {
        RecordKeepsWithin(failures, allFailures, now, logins, pending, pendingTotal, LOGIN_WINDOW - skew, ip);
      }
      logins := WithTime(logins, ip, now);
      allFailures := allFailures + [now];
      failures := failures + [now];
    }

    method RecordLocked(ip: Ip, now: real)
      requires Logins() && loginClock - skew <= now
      modifies this`logins, this`allFailures, this`failures, this`loginClock
      ensures Logins() && loginClock == Later(old(loginClock), now) && failures == old(failures) + [now]
      ensures QueueOf(logins, ip) == Fresh(QueueOf(old(logins), ip), now - LOGIN_WINDOW) + [now]
      ensures WithFailure(old(logins), old(allFailures), logins, allFailures, ip, now)
      ensures old(Bounded() && RoomAt(ip)) ==> Bounded()
    {
      PrunedOf(logins, now - LOGIN_WINDOW, ip);
      PruneLogins(now, ip);
      EvictLogins(ip);
      AddFailure(ip, now);
    }

    /** Public in the source, although only `finish_login_attempt` needs what it does: nothing is given back for it. */
    method RecordLoginFailure(ip: Ip, now: real)
      requires Logins() && Tracked() && loginClock - skew <= now
      modifies this`logins, this`allFailures, this`failures, this`loginClock, this`calls
      ensures Logins() && Tracked() && loginClock == Later(old(loginClock), now) && failures == old(failures) + [now]
      ensures QueueOf(logins, ip) == Fresh(QueueOf(old(logins), ip), now - LOGIN_WINDOW) + [now]
      ensures WithFailure(old(logins), old(allFailures), logins, allFailures, ip, now)
      ensures calls == old(calls) + [Recorded(ip)]
    {
      RecordLocked(ip, now);
      OneMoreCall(calls, Recorded(ip));
      calls := calls + [Recorded(ip)];
    }

    method Release(ip: Ip)
      requires Logins()
      modifies this`pending, this`pendingTotal
      ensures Logins() && pending == OneLess(old(pending), ip)
      ensures pendingTotal == old(pendingTotal) - if ip in old(pending) then 1 else 0
      ensures old(Bounded()) ==> Bounded() && (ip in old(pending) ==> RoomAt(ip))
    {
      OneLessKeepsCounts(pending, pendingTotal, ip);
      if Bounded() {
        ReleaseKeepsWithin(failures, allFailures, logins, pending, pendingTotal, LOGIN_WINDOW - skew, ip);
      }
      pendingTotal := if ip in pending then pendingTotal - 1 else pendingTotal;
      pending := OneLess(pending, ip);
    }

    /** Give back one reservation and record a failure. */
    method FinishLoginAttempt(ip: Ip, failed: bool, now: real)
      requires Logins() && Tracked() && loginClock - skew <= now
      modifies this`pending, this`pendingTotal, this`logins, this`allFailures, this`failures, this`loginClock,
               this`calls
      ensures Logins() && Tracked() && calls == old(calls) + [Finished(ip, failed)]
      ensures failures == if failed then old(failures) + [now] else old(failures)
      ensures pending == OneLess(old(pending), ip)
      ensures pendingTotal == old(pendingTotal) - if ip in old(pending) then 1 else 0
      ensures if failed then WithFailure(old(logins), old(allFailures), logins, allFailures, ip, now)
              else logins == old(logins) && allFailures == old(allFailures)
    {
      FinishFollows(pending, calls, ip, failed);
      Release(ip);
      if failed {
        RecordLocked(ip, now);
      }
      calls := calls + [Finished(ip, failed)];
    }

    method ClearLoginFailures(ip: Ip)
      requires Logins() && Tracked()
      modifies this`logins
      ensures Logins() && Tracked() && logins == old(logins) - {ip}
    {
      assert (logins - {ip}).Keys == logins.Keys - {ip};
      if Bounded() {
        ShrinkKeepsPerIp(logins, logins - {ip}, pending);
      }
      logins := logins - {ip};
    }

    /**
      In any fifteen minutes less the skew at most 30 failures were recorded if each was paid for, in any minute
      less the skew at most 2000 requests let in.
     */
    lemma WindowsAreBounded(t: real)
      requires Valid()
      ensures Paid(calls) ==> Recent(failures, t, 900.0 - skew) <= 30
      ensures Recent(admitted, t, 60.0 - skew) <= 2000
    {
      if Paid(calls) {
        SpreadBoundsWindow(failures, LOGIN_ALL, LOGIN_WINDOW - skew, t);
      }
      SpreadBoundsWindow(admitted, GLOBAL_ALL, GLOBAL_WINDOW - skew, t);
    }

    /** So it is for the request handlers, however they interleave. */
    lemma HandlersAreBounded(steps: seq<Step>, t: real)
      requires Valid() && Handlers(steps) && calls == Calls(steps)
      ensures Recent(failures, t, 900.0 - skew) <= 30
      ensures forall ip :: |QueueOf(logins, ip)| + |OpenAt(Open(steps), ip)| <= 5
    {
      HandlersPay(steps);
      WindowsAreBounded(t);
    }
  }

  lemma {:induction false} FreshIsShorter(q: Times, cutoff: real)
    ensures |Fresh(q, cutoff)| <= |q|
    decreases |q|
  {
    if q != [] && q[0] <= cutoff {
      FreshIsShorter(q[1..], cutoff);
    }
  }
}
