/**
  Brace-depth scanning of nftables.conf (deploy/bot/nftscan.py) and the classification of the project's
  table (deploy/bot/nftmerge.py `_target_status`). A line comes with what the scanners' patterns say of it.
 */
module NftScan {
  import opened Common

  /** `Open` starts `table inet pdg {` (`bare`: nothing follows the brace), `Table` starts any other table. */
  datatype Kind = Banner | Decl | Delete | Open(bare: bool) | Table | White | Other

  /** `delta`: opening minus closing braces outside comments and strings. */
  datatype Line = Line(text: string, kind: Kind, delta: int)

  type Text = seq<Line>

  datatype Mode = Managed | External

  datatype Status = Absent | Owned(mode: Mode) | Legacy | Foreign

  /** What the shape checks say of one table block: its owner mode, and whether it is the old stock table. */
  datatype Shapes = Shapes(mode: Text -> Option<Mode>, legacy: Text -> bool)

  predicate Guard(l: Line) {
    l.kind.Banner? || l.kind.Decl? || l.kind.Delete?
  }

  predicate Opens(l: Line) {
    l.kind.Open? || l.kind.Table?
  }

  predicate NoOpen(t: Text) {
    forall l | l in t :: !l.kind.Open?
  }

  predicate NoGuard(t: Text) {
    forall l | l in t :: !Guard(l)
  }

  /** How many lines a block takes, counted until the depth is no longer positive, and the depth then. */
  function Consume(t: Text, depth: int): (r: (nat, int))
    ensures r.0 <= |t| && (t != [] ==> r.0 >= 1)
  {
    if t == [] then (0, depth)
    else
      var d := depth + t[0].delta;
      if d <= 0 then (1, d)
      else
        var rest := Consume(t[1..], d);
        (1 + rest.0, rest.1)
  }

  /** The inner loop of both scanners. */
  method ConsumeBlock(t: Text, start: nat) returns (i: nat, depth: int)
    requires start < |t|
    ensures start < i <= |t| && (i - start, depth) == Consume(t[start..], 0)
  {
    i, depth := start, 0;
    while i < |t|
      invariant start <= i <= |t| && (i > start ==> depth > 0) && (i == start ==> depth == 0)
      invariant Consume(t[start..], 0) == (i - start + Consume(t[i..], depth).0, Consume(t[i..], depth).1)
    {
      assert t[i..][1..] == t[i + 1..];
      depth := depth + t[i].delta;
      i := i + 1;
      if depth <= 0 { break; }
    }
  }

  /** The blocks of the project's table at the top level; an unbalanced table swallows the rest. */
  function PdgBlocks(t: Text): seq<Text>
    decreases |t|
  {
    if t == [] then []
    else if !Opens(t[0]) then PdgBlocks(t[1..])
    else
      var (n, d) := Consume(t, 0);
      if d != 0 then if t[0].kind.Open? then [t] else []
      else (if t[0].kind.Open? then [t[..n]] else []) + PdgBlocks(t[n..])
  }

  /** Every table that starts in `t` at the top level also ends there. */
  predicate Settles(t: Text)
    decreases |t|
  {
    if t == [] then true
    else if !Opens(t[0]) then Settles(t[1..])
    else
      var (n, d) := Consume(t, 0);
      d == 0 && Settles(t[n..])
  }

  /** What the block that starts at `i` and ends before `j` adds. */
  function Found(t: Text, i: nat, j: nat): seq<Text>
    requires i < j <= |t|
  {
    if t[i].kind.Open? then [t[i..j]] else []
  }

  lemma ScanPast(t: Text, i: nat, j: nat, blocks: seq<Text>)
    requires i < j <= |t|
    requires if Opens(t[i]) then (j - i, 0) == Consume(t[i..], 0) else j == i + 1
    ensures blocks + PdgBlocks(t[i..]) == blocks + Found(t, i, j) + PdgBlocks(t[j..])
  {
    assert t[i..][j - i..] == t[j..] && t[i..][..j - i] == t[i..j];
  }

  /** `_named_blocks`, restricted to the project's table. */
  method ScanBlocks(t: Text) returns (blocks: seq<Text>)
    ensures blocks == PdgBlocks(t)
  {
    blocks := [];
    ghost var all := PdgBlocks(t);
    var i := 0;
    assert t[0..] == t;
    while i < |t|
      invariant 0 <= i <= |t| && all == blocks + PdgBlocks(t[i..])
    {
      if !Opens(t[i]) {
        ScanPast(t, i, i + 1, blocks);
        i := i + 1;
      } else {
        var j, depth := ConsumeBlock(t, i);
        if depth != 0 {
          return blocks + if t[i].kind.Open? then [t[i..]] else [];
        }
        ScanPast(t, i, j, blocks);
        blocks := blocks + Found(t, i, j);
        i := j;
      }
    }
    assert blocks + [] == blocks;
  }

  function Count(t: Text, p: Line -> bool): nat {
    if t == [] then 0 else (if p(t[0]) then 1 else 0) + Count(t[1..], p)
  }

  function Banners(t: Text): nat { Count(t, (l: Line) => l.kind.Banner?) }
  function Decls(t: Text): nat { Count(t, (l: Line) => l.kind.Decl?) }
  function Deletes(t: Text): nat { Count(t, (l: Line) => l.kind.Delete?) }

  predicate NamesTable(t: Text) {
    exists l | l in t :: l.kind.Decl? || l.kind == Open(true)
  }

  /** `pdg_table_status`, and `legacy_stock_pdg_status` for what it calls foreign. */
  function TableStatus(t: Text, shapes: Shapes): Status {
    var blocks := PdgBlocks(t);
    if blocks == [] then if NamesTable(t) then Foreign else Absent
    else if |blocks| == 1 && shapes.mode(blocks[0]).Some? then Owned(shapes.mode(blocks[0]).value)
    else Foreign
  }

  /** `_target_status`. */
  function TargetStatus(t: Text, shapes: Shapes): Status {
    match TableStatus(t, shapes)
    case Absent => if Banners(t) + Decls(t) + Deletes(t) > 0 then Foreign else Absent
    case Foreign => if |PdgBlocks(t)| == 1 && shapes.legacy(PdgBlocks(t)[0]) then Legacy else Foreign
    case Owned(m) => if Banners(t) > 1 || Decls(t) > 1 || Deletes(t) > 1 then Foreign else Owned(m)
    case Legacy => Legacy
  }

  // ---- scanning a text in two parts ----

  lemma {:induction false} ConsumeAppend(a: Text, b: Text, depth: int)
    requires a != [] && Consume(a, depth).1 <= 0
    ensures Consume(a + b, depth) == Consume(a, depth)
  {
    assert (a + b)[1..] == a[1..] + b;
    if depth + a[0].delta > 0 {
      if a[1..] != [] {
        ConsumeAppend(a[1..], b, depth + a[0].delta);
      }
    }
  }

  lemma {:induction false} BlocksAppend(a: Text, b: Text)
    requires Settles(a)
    ensures PdgBlocks(a + b) == PdgBlocks(a) + PdgBlocks(b)
    ensures Settles(b) ==> Settles(a + b)
    decreases |a|
  {
    if a == [] {
      assert a + b == b;
    } else if !Opens(a[0]) {
      assert (a + b)[1..] == a[1..] + b;
      BlocksAppend(a[1..], b);
    } else {
      var n := Consume(a, 0).0;
      ConsumeAppend(a, b, 0);
      assert (a + b)[..n] == a[..n] && (a + b)[n..] == a[n..] + b && (a + b)[0] == a[0];
      BlocksAppend(a[n..], b);
      var first := if a[0].kind.Open? then [a[..n]] else [];
      assert first + (PdgBlocks(a[n..]) + PdgBlocks(b)) == first + PdgBlocks(a[n..]) + PdgBlocks(b);
    }
  }

  lemma {:induction false} NoOpenNoBlocks(t: Text)
    requires NoOpen(t)
    ensures PdgBlocks(t) == []
    decreases |t|
  {
    if t != [] {
      var n := if Opens(t[0]) then Consume(t, 0).0 else 1;
      NoOpenNoBlocks(t[n..]);
    }
  }

  /** At any positive depth `b` is passed and leaves the depth as it was. */
  ghost predicate Contained(b: Text) {
    forall d | d > 0 :: Consume(b, d) == (|b|, d)
  }

  /** A block that closes just at its end is passed at any positive depth. */
  lemma {:induction false} ClosedIsPassed(b: Text, depth: int, more: int)
    requires b != [] && Consume(b, depth) == (|b|, 0) && more > 0
    ensures Consume(b, depth + more) == (|b|, more)
  {
    if depth + b[0].delta > 0 && b[1..] != [] {
      ClosedIsPassed(b[1..], depth + b[0].delta, more);
    }
  }

  lemma {:induction false} ConsumeThrough(a: Text, b: Text, depth: int)
    requires Consume(a, depth).1 > 0
    ensures Consume(a, depth).0 == |a|
    ensures var d := Consume(a, depth).1; Consume(a + b, depth) == (|a| + Consume(b, d).0, Consume(b, d).1)
  {
    if a == [] {
      assert a + b == b;
    } else {
      assert (a + b)[1..] == a[1..] + b;
      ConsumeThrough(a[1..], b, depth + a[0].delta);
    }
  }

  lemma SwallowTail(a: Text, b: Text, c: Text, d: int)
    requires a != [] && a[0].kind.Table? && Consume(a, 0).1 == d > 0 && Contained(b) && NoOpen(c)
    ensures PdgBlocks(a + b + c) == []
  {
    var t := a + b + c;
    ConsumeThrough(a, b + c, 0);
    ConsumeThrough(b, c, d);
    assert a + (b + c) == t;
    var n := Consume(c, d).0;
    assert Consume(t, 0) == (|a| + |b| + n, Consume(c, d).1);
    assert t[|a| + |b| + n..] == c[n..];
    NoOpenNoBlocks(c[n..]);
  }

  /** A table left open in `a` swallows a block that follows, even when something later closes it. */
  lemma {:induction false} UnsettledSwallows(a: Text, b: Text, c: Text)
    requires !Settles(a) && PdgBlocks(a) == [] && Contained(b) && NoOpen(c)
    ensures PdgBlocks(a + b + c) == []
    decreases |a|
  {
    var t := a + b + c;
    assert a + (b + c) == t;
    if !Opens(a[0]) {
      assert t[1..] == a[1..] + b + c;
      UnsettledSwallows(a[1..], b, c);
    } else {
      var (n, d) := Consume(a, 0);
      if d <= 0 {
        ConsumeAppend(a, b + c, 0);
        if d == 0 {
          assert t[n..] == a[n..] + b + c;
          UnsettledSwallows(a[n..], b, c);
        }
      } else {
        SwallowTail(a, b, c, d);
      }
    }
  }
}
