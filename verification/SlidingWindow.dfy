/** Sliding windows over recorded times, as the Web limiter keeps them (deploy/web/pdg-web.py `_prune`). */
module SlidingWindow {
  type Times = seq<real>

  ghost predicate Sorted(h: Times) {
    forall i, j | 0 <= i < j < |h| :: h[i] <= h[j]
  }

  /** How many recorded times lie in the half-open window `(lo, hi]`. */
  function CountIn(h: Times, lo: real, hi: real): nat {
    if h == [] then 0 else
    CountIn(h[..|h| - 1], lo, hi) + if lo < h[|h| - 1] <= hi then 1 else 0
  }

  /** The entries in the `w` seconds up to `t`. */
  function Recent(h: Times, t: real, w: real): nat {
    CountIn(h, t - w, t)
  }

  /** No entry is more than `d` earlier than one recorded before it. */
  ghost predicate Skewed(h: Times, d: real) {
    forall i, j | 0 <= i < j < |h| :: h[i] - d <= h[j]
  }

  predicate Apart(h: Times, i: int, j: int, n: nat, w: real) {
    0 <= i && i + n <= j < |h| ==> h[j] - h[i] >= w
  }

  /** Every entry is at least `w` later than those `n` or more places before it. */
  ghost predicate Spread(h: Times, n: nat, w: real) {
    forall i, j :: Apart(h, i, j, n, w)
  }

  /** What `_prune` leaves: entries up to the cutoff fall off the front. */
  function Fresh(q: Times, cutoff: real): Times {
    if q != [] && q[0] <= cutoff then Fresh(q[1..], cutoff) else q
  }

  method Prune(q: Times, cutoff: real) returns (r: Times)
    ensures r == Fresh(q, cutoff)
  {
    r := q;
    while r != [] && r[0] <= cutoff
      invariant Fresh(q, cutoff) == Fresh(r, cutoff)
      decreases |r|
    {
      r := r[1..];
    }
  }

  /** What is left is the end of the queue, from the first entry after the cutoff on. */
  lemma {:induction false} FreshMeaning(q: Times, cutoff: real)
    ensures var r := Fresh(q, cutoff);
            && |r| <= |q| && q[|q| - |r|..] == r && (forall i | 0 <= i < |q| - |r| :: q[i] <= cutoff)
            && (r != [] ==> r[0] > cutoff)
  {
    if q != [] && q[0] <= cutoff {
      FreshMeaning(q[1..], cutoff);
    }
  }

  /** The queue `q` holds the whole history `h` but for entries up to `cut`. */
  ghost predicate Tail(h: Times, q: Times, cut: real) {
    && |q| <= |h| && h[|h| - |q|..] == q
    && forall i | 0 <= i < |h| - |q| :: h[i] <= cut
  }

  lemma {:induction false} FreshKeepsTail(h: Times, q: Times, cut: real, cutoff: real, latest: real)
    requires Tail(h, q, cut) && cut <= latest && cutoff <= latest
    ensures Tail(h, Fresh(q, cutoff), latest) && |Fresh(q, cutoff)| <= |q|
    ensures Fresh(q, cutoff) != [] ==> Fresh(q, cutoff)[0] > cutoff
    decreases |q|
  {
    if q != [] && q[0] <= cutoff {
      assert h[|h| - |q|] == q[0] && h[|h| - |q| + 1..] == q[1..];
      FreshKeepsTail(h, q[1..], latest, cutoff, latest);
    }
  }

  lemma {:induction false} CountSplit(a: Times, b: Times, lo: real, hi: real)
    ensures CountIn(a + b, lo, hi) == CountIn(a, lo, hi) + CountIn(b, lo, hi)
  {
    if b == [] {
      assert a + b == a;
    } else {
      assert (a + b)[..|a + b| - 1] == a + b[..|b| - 1];
      CountSplit(a, b[..|b| - 1], lo, hi);
    }
  }

  lemma {:induction false} CountNone(h: Times, lo: real, hi: real)
    requires forall i | 0 <= i < |h| :: h[i] <= lo || h[i] > hi
    ensures CountIn(h, lo, hi) == 0
  {
    if h != [] {
      CountNone(h[..|h| - 1], lo, hi);
    }
  }

  lemma {:induction false} CountAll(h: Times, lo: real, hi: real)
    requires forall i | 0 <= i < |h| :: lo < h[i] <= hi
    ensures CountIn(h, lo, hi) == |h|
  {
    if h != [] {
      CountAll(h[..|h| - 1], lo, hi);
    }
  }

  lemma {:induction false} CountAtMost(h: Times, lo: real, hi: real)
    ensures CountIn(h, lo, hi) <= |h|
  {
    if h != [] {
      CountAtMost(h[..|h| - 1], lo, hi);
    }
  }

  /** The entries from `k` on are counted, those before it are not. */
  lemma CountBounds(h: Times, k: nat, lo: real, hi: real)
    requires k <= |h|
    ensures (forall i | 0 <= i < k :: h[i] <= lo) ==> CountIn(h, lo, hi) <= |h| - k
    ensures (forall i | k <= i < |h| :: lo < h[i] <= hi) ==> CountIn(h, lo, hi) >= |h| - k
  {
    assert h == h[..k] + h[k..];
    CountSplit(h[..k], h[k..], lo, hi);
    CountAtMost(h[k..], lo, hi);
    if forall i | 0 <= i < k :: h[i] <= lo {
      CountNone(h[..k], lo, hi);
    }
    if forall i | k <= i < |h| :: lo < h[i] <= hi {
      CountAll(h[k..], lo, hi);
    }
  }

  /**
    Which windows a pruned queue of length `n` stands for when clocks are read up to `d` apart; exact for
    `d == 0.0`.
   */
  ghost predicate Measures(n: nat, h: Times, now: real, w: real, d: real) {
    Recent(h, now + d, w) <= n <= Recent(h, now + d, w + d + d)
  }

  /** A queue with its history, pruned by readings up to `clock`. */
  ghost predicate Records(h: Times, q: Times, clock: real, w: real, d: real) {
    d >= 0.0 && Skewed(h, d) && (forall i | 0 <= i < |h| :: h[i] <= clock) && Tail(h, q, clock - w)
  }

  function Later(a: real, b: real): real {
    if a < b then b else a
  }

  lemma FreshMeasures(h: Times, q: Times, r: Times, clock: real, now: real, w: real, d: real)
    requires Records(h, r, clock, w, d) && now <= clock <= now + d && (r != [] ==> r[0] > now - w)
    ensures Measures(|r|, h, now, w, d)
  {
    var k := |h| - |r|;
    CountBounds(h, k, now + d - w, now + d);
    assert r != [] ==> r[0] == h[k];
    CountBounds(h, k, now + d - (w + d + d), now + d);
  }

  /** A pruned queue is as long as its window of the history is full, but for the skew of the clocks. */
  lemma FreshCounts(h: Times, q: Times, clock: real, now: real, w: real, d: real)
    requires Records(h, q, clock, w, d) && clock - d <= now
    ensures Records(h, Fresh(q, now - w), Later(clock, now), w, d)
    ensures |Fresh(q, now - w)| <= |q| && Measures(|Fresh(q, now - w)|, h, now, w, d)
  {
    var latest := Later(clock, now);
    FreshKeepsTail(h, q, clock - w, now - w, latest - w);
    FreshMeasures(h, q, Fresh(q, now - w), latest, now, w, d);
  }

  /** Appending to a history whose pruned queue has room keeps its entries spread. */
  lemma AppendKeepsSpread(h: Times, q: Times, n: nat, w: real, now: real)
    requires Spread(h, n, w) && Tail(h, q, now - w) && |q| < n
    ensures Spread(h + [now], n, w)
  {
    forall i, j ensures Apart(h + [now], i, j, n, w) {
      assert Apart(h, i, j, n, w);
    }
  }

  /** Spread entries are exactly those no window of length `w` holds more than `n` of. */
  lemma SpreadIffWindowsBounded(h: Times, n: nat, w: real)
    requires Sorted(h) && n >= 1 && w > 0.0
    ensures Spread(h, n, w) <==> forall t :: Recent(h, t, w) <= n
  {
    if Spread(h, n, w) {
      forall t ensures Recent(h, t, w) <= n {
        SpreadBoundsWindow(h, n, w, t);
      }
    } else {
      var i, j :| !Apart(h, i, j, n, w);
      CrowdedWindow(h, i, j, n, w);
      assert Recent(h, h[j], w) > n;
    }
  }

  lemma CrowdedWindow(h: Times, i: int, j: int, n: nat, w: real)
    requires Sorted(h) && !Apart(h, i, j, n, w)
    ensures Recent(h, h[j], w) > n
  {
    CountSlice(h, i, j + 1, h[j] - w, h[j]);
  }

  lemma {:induction false} CountSlice(h: Times, i: nat, j: nat, lo: real, hi: real)
    requires Sorted(h) && i < j <= |h| && lo < h[i] && h[j - 1] <= hi
    ensures CountIn(h, lo, hi) >= j - i
  {
    if j < |h| {
      CountSlice(h[..|h| - 1], i, j, lo, hi);
    } else if i < j - 1 {
      CountSlice(h[..|h| - 1], i, j - 1, lo, hi);
    }
  }

  lemma PrefixStaysSpread(h: Times, n: nat, w: real)
    requires h != [] && Spread(h, n, w)
    ensures Spread(h[..|h| - 1], n, w)
  {
    var p := h[..|h| - 1];
    forall i, j ensures Apart(p, i, j, n, w) {
      assert Apart(h, i, j, n, w);
    }
  }

  /** In whatever order they were recorded, no window of length `w` holds more than `n` of spread entries. */
  lemma {:induction false} SpreadBoundsWindow(h: Times, n: nat, w: real, t: real)
    requires Spread(h, n, w)
    ensures Recent(h, t, w) <= n
  {
    if h != [] {
      var last := |h| - 1;
      if t - w < h[last] <= t {
        var k := if |h| > n then |h| - n else 0;
        forall i | 0 <= i < k ensures h[i] <= t - w {
          assert Apart(h, i, last, n, w);
        }
        CountBounds(h, k, t - w, t);
      } else {
        PrefixStaysSpread(h, n, w);
        SpreadBoundsWindow(h[..last], n, w, t);
      }
    }
  }
}
