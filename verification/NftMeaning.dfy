/** The scanners, the classification and the splice, said without the functions the loops are proved against. */
module NftMeaning {
  import opened Common
  import opened NftScan
  import opened NftSplice
  import Theorems = NftTheorems

  /** Opening less closing braces of some lines. */
  function Depth(t: Text): int {
    if t == [] then 0 else t[0].delta + Depth(t[1..])
  }

  /** The braces of these lines close at the last one and no earlier. */
  ghost predicate Balanced(b: Text) {
    b != [] && Depth(b) == 0 && forall k | 0 < k < |b| :: Depth(b[..k]) > 0
  }

  ghost predicate NeverCloses(b: Text) {
    forall k | 0 < k <= |b| :: !Balanced(b[..k])
  }

  function Glued(pieces: seq<Text>): Text {
    if pieces == [] then [] else pieces[0] + Glued(pieces[1..])
  }

  lemma {:induction false} ConsumeMeans(t: Text, depth: int)
    requires t != []
    ensures var (n, d) := Consume(t, depth);
            d == depth + Depth(t[..n]) && (d > 0 ==> n == |t|) && forall k | 0 < k < n :: depth + Depth(t[..k]) > 0
  {
    var more := depth + t[0].delta;
    assert t[..1][1..] == [] && t[..1][0] == t[0];
    if more > 0 {
      var (n, d) := Consume(t, depth);
      if t[1..] != [] {
        ConsumeMeans(t[1..], more);
      }
      forall k | 0 < k <= n ensures depth + Depth(t[..k]) == more + Depth(t[1..][..k - 1]) {
        assert t[..k][1..] == t[1..][..k - 1];
      }
    }
  }

  /** Counting stops where the lines are balanced, if they ever are. */
  lemma ConsumeBalances(t: Text)
    requires t != []
    ensures var (n, d) := Consume(t, 0); if d == 0 then Balanced(t[..n]) else NeverCloses(t)
    ensures forall k | 0 < k <= |t| && Balanced(t[..k]) :: Consume(t, 0) == (k, 0)
  {
    var (n, d) := Consume(t, 0);
    ConsumeMeans(t, 0);
    forall k | 0 < k < n ensures t[..n][..k] == t[..k] {}
    forall k | 0 < k <= |t| && Balanced(t[..k]) ensures k == n && d == 0 {
      assert forall m | 0 < m < k :: t[..k][..m] == t[..m];
    }
  }

  // ---- the tables at the top level ----

  /** A line that opens no table, a whole table, or at the end one that never closes. */
  ghost predicate Piece(p: Text, last: bool) {
    p != [] && if !Opens(p[0]) then |p| == 1 else Balanced(p) || (last && NeverCloses(p))
  }

  /** The text cut at its top level. */
  ghost predicate Tiled(t: Text, pieces: seq<Text>) {
    t == Glued(pieces) && forall i | 0 <= i < |pieces| :: Piece(pieces[i], i == |pieces| - 1)
  }

  predicate IsPdg(p: Text) {
    p != [] && p[0].kind.Open?
  }

  predicate Same(p: Text, q: Text) {
    p == q
  }

  lemma TiledMore(t: Text, n: nat, pieces: seq<Text>)
    requires n <= |t| && Tiled(t[n..], pieces) && Piece(t[..n], false)
    ensures Tiled(t, [t[..n]] + pieces)
  {
    var all := [t[..n]] + pieces;
    assert all[1..] == pieces && t == t[..n] + t[n..];
    forall i | 0 <= i < |all| ensures Piece(all[i], i == |all| - 1) {
      if i > 0 {
        assert all[i] == pieces[i - 1] && Piece(pieces[i - 1], i - 1 == |pieces| - 1);
      }
    }
  }

  lemma Whole(t: Text, n: nat)
    requires t != [] && (if Opens(t[0]) then Consume(t, 0) == (n, 0) else n == 1)
    ensures Piece(t[..n], false)
  {
    if Opens(t[0]) {
      ConsumeBalances(t);
    }
  }

  lemma OneTile(t: Text)
    requires t != [] && Opens(t[0]) && Consume(t, 0).1 != 0
    ensures Tiled(t, [t])
  {
    ConsumeBalances(t);
    assert [t][1..] == [] && t + [] == t;
  }

  ghost predicate BlocksOf(t: Text, pieces: seq<Text>, blocks: seq<Text>) {
    Tiled(t, pieces) && Sieved(pieces, blocks, IsPdg, Same)
  }

  lemma BlocksMore(t: Text, n: nat, pieces: seq<Text>, blocks: seq<Text>)
    requires n <= |t| && BlocksOf(t[n..], pieces, blocks) && Piece(t[..n], false)
    ensures BlocksOf(t, [t[..n]] + pieces, (if IsPdg(t[..n]) then [t[..n]] else []) + blocks)
  {
    TiledMore(t, n, pieces);
    assert ([t[..n]] + pieces)[1..] == pieces;
    SieveMore([t[..n]] + pieces, blocks, IsPdg, Same, if IsPdg(t[..n]) then [t[..n]] else []);
  }

  /** The blocks found are the project's tables among the pieces, in order. */
  lemma {:induction false} BlocksMeaning(t: Text) returns (pieces: seq<Text>)
    ensures BlocksOf(t, pieces, PdgBlocks(t))
    decreases |t|
  {
    SieveEmpty<Text, Text>(IsPdg, Same);
    if t == [] {
      return [];
    }
    var n := if Opens(t[0]) then Consume(t, 0).0 else 1;
    if Opens(t[0]) && Consume(t, 0).1 != 0 {
      OneTile(t);
      assert [t][1..] == [];
      SieveMore([t], [], IsPdg, Same, if t[0].kind.Open? then [t] else []);
      assert PdgBlocks(t) == (if t[0].kind.Open? then [t] else []) + [];
      return [t];
    }
    Whole(t, n);
    var rest := BlocksMeaning(t[n..]);
    BlocksMore(t, n, rest, PdgBlocks(t[n..]));
    pieces := [t[..n]] + rest;
    assert PdgBlocks(t) == (if IsPdg(t[..n]) then [t[..n]] else []) + PdgBlocks(t[n..]);
  }

  // ---- whose table it is ----

  ghost predicate AtMostOne(t: Text, p: Line -> bool) {
    forall i, j | 0 <= i < j < |t| :: !(p(t[i]) && p(t[j]))
  }

  lemma {:induction false} CountIff(t: Text, p: Line -> bool)
    ensures Count(t, p) == 0 <==> forall l | l in t :: !p(l)
    ensures Count(t, p) <= 1 <==> AtMostOne(t, p)
  {
    if t != [] {
      var rest := t[1..];
      CountIff(rest, p);
      assert forall i | 0 <= i < |rest| :: rest[i] == t[i + 1];
      if p(t[0]) && AtMostOne(t, p) {
        forall l | l in rest ensures !p(l) {
          var i :| 0 <= i < |rest| && rest[i] == l;
          assert t[i + 1] == l;
        }
      }
      if AtMostOne(rest, p) && !p(t[0]) {
        forall i, j | 0 <= i < j < |t| ensures !(p(t[i]) && p(t[j])) {
          if i > 0 {
            assert rest[i - 1] == t[i] && rest[j - 1] == t[j];
          }
        }
      }
    }
  }

  ghost predicate FewGuards(t: Text) {
    && AtMostOne(t, (l: Line) => l.kind.Banner?)
    && AtMostOne(t, (l: Line) => l.kind.Decl?)
    && AtMostOne(t, (l: Line) => l.kind.Delete?)
  }

  lemma GuardCounts(t: Text)
    ensures Banners(t) <= 1 && Decls(t) <= 1 && Deletes(t) <= 1 <==> FewGuards(t)
    ensures Banners(t) + Decls(t) + Deletes(t) == 0 <==> NoGuard(t)
  {
    CountIff(t, (l: Line) => l.kind.Banner?);
    CountIff(t, (l: Line) => l.kind.Decl?);
    CountIff(t, (l: Line) => l.kind.Delete?);
  }

  /**
    Nothing of the project is there exactly without table, guard and naming line; its table is there exactly with one
    block of the right shape and no guard twice; the stock table is one block of that shape; all else is foreign.
   */
  lemma StatusMeaning(t: Text, shapes: Shapes)
    ensures var blocks := PdgBlocks(t);
            var status := TargetStatus(t, shapes);
            && (status.Absent? <==> blocks == [] && forall l | l in t :: !Guard(l) && l.kind != Open(true))
            && (forall m :: status == Owned(m) <==>
                              |blocks| == 1 && shapes.mode(blocks[0]) == Some(m) && FewGuards(t))
            && (status.Legacy? <==>
                 |blocks| == 1 && shapes.mode(blocks[0]).None? && shapes.legacy(blocks[0]))
  {
    GuardCounts(t);
  }

  // ---- what is kept ----

  /** A line, or one table of the project from its opening to where it closes. */
  ghost predicate Cut(t: Text, pieces: seq<Text>) {
    t == Glued(pieces) && forall i | 0 <= i < |pieces| :: CutPiece(pieces[i])
  }

  ghost predicate CutPiece(p: Text) {
    p != [] && if p[0].kind.Open? then Balanced(p) else |p| == 1
  }

  predicate Foreigner(p: Text) {
    p != [] && !Guard(p[0]) && !p[0].kind.Open?
  }

  predicate Only(p: Text, l: Line) {
    p == [l]
  }

  /** The first piece that is the project's, counted in pieces; before it every line is a piece. */
  ghost predicate FirstOurs(pieces: seq<Text>, at: Option<nat>) {
    match at
    case None => forall i | 0 <= i < |pieces| :: Foreigner(pieces[i])
    case Some(n) => n < |pieces| && !Foreigner(pieces[n]) && forall i | 0 <= i < n :: Foreigner(pieces[i])
  }

  ghost predicate KeptOf(t: Text, pieces: seq<Text>, keep: Text, at: Option<nat>) {
    Cut(t, pieces) && Sieved(pieces, keep, Foreigner, Only) && FirstOurs(pieces, at)
  }

  lemma CutMore(t: Text, n: nat, pieces: seq<Text>)
    requires n <= |t| && Cut(t[n..], pieces) && CutPiece(t[..n])
    ensures Cut(t, [t[..n]] + pieces)
  {
    assert ([t[..n]] + pieces)[1..] == pieces && t == t[..n] + t[n..];
  }

  lemma KeptMore(t: Text, n: nat, pieces: seq<Text>, keep: Text, at: Option<nat>)
    requires n <= |t| && KeptOf(t[n..], pieces, keep, at) && CutPiece(t[..n])
    ensures var first := t[..n];
            if Foreigner(first)
            then KeptOf(t, [first] + pieces, [t[0]] + keep, if at.None? then None else Some(at.value + 1))
            else KeptOf(t, [first] + pieces, keep, Some(0))
  {
    var all := [t[..n]] + pieces;
    CutMore(t, n, pieces);
    assert all[1..] == pieces;
    if Foreigner(t[..n]) {
      assert t[..n] == [t[0]];
      SieveMore(all, keep, Foreigner, Only, [t[0]]);
    } else {
      SieveMore(all, keep, Foreigner, Only, []);
      assert [] + keep == keep;
    }
  }

  /** What is kept are the lines of the others, in order, and the splice point is where the first piece was taken. */
  lemma {:induction false} StripMeaning(t: Text) returns (pieces: seq<Text>)
    requires Strip(t).Some?
    ensures KeptOf(t, pieces, Strip(t).value, FirstHit(t))
    decreases |t|
  {
    if t == [] {
      SieveEmpty<Text, Line>(Foreigner, Only);
      return [];
    }
    var n := if t[0].kind.Open? then Consume(t, 0).0 else 1;
    ConsumeBalances(t);
    var rest := StripMeaning(t[n..]);
    KeptMore(t, n, rest, Strip(t[n..]).value, FirstHit(t[n..]));
    pieces := [t[..n]] + rest;
  }

  /** The lines can be kept exactly if every table of the project that the scan meets closes. */
  lemma {:induction false} StripIff(t: Text)
    ensures Strip(t).Some? <==> exists pieces :: Cut(t, pieces)
  {
    if Strip(t).Some? {
      var pieces := StripMeaning(t);
    }
    forall pieces | Cut(t, pieces) ensures Strip(t).Some? {
      CutIsKept(t, pieces);
    }
  }

  lemma {:induction false} CutIsKept(t: Text, pieces: seq<Text>)
    requires Cut(t, pieces)
    ensures Strip(t).Some?
    decreases |pieces|
  {
    if pieces != [] {
      var p := pieces[0];
      assert t[..|p|] == p && t[|p|..] == Glued(pieces[1..]);
      CutIsKept(t[|p|..], pieces[1..]);
      ConsumeBalances(t);
    }
  }

  // ---- the new file ----

  predicate EndsSolid(t: Text) {
    t == [] || !Blank(t[|t| - 1])
  }

  predicate StartsSolid(t: Text) {
    t == [] || !Blank(t[0])
  }

  function LineBreak(t: Text): Text {
    if t != [] && t[|t| - 1] == EMPTY then [] else [EMPTY]
  }

  /** `keep` with the block at `at`: the blanks there go, one empty line stands on each side, and the file ends. */
  ghost predicate BlockAt(v: Text, keep: Text, at: Option<nat>, block: Text) {
    exists head, blanks, tail :: BlockBetween(v, keep, at, block, head, blanks, tail)
  }

  ghost predicate BlockBetween(v: Text, keep: Text, at: Option<nat>, block: Text, head: Text, blanks: Text, tail: Text)
  {
    && keep == head + blanks + tail && AllBlank(blanks) && EndsSolid(head) && StartsSolid(tail)
    && (match at case None => tail == [] case Some(n) => |head| <= n <= |head| + |blanks|)
    && v == head + (if head == [] then [] else [EMPTY]) + ([BANNER] + block)
            + if tail == [] then [EMPTY] else [EMPTY] + tail + LineBreak(tail)
  }

  lemma SpliceForm(keep: Text, at: Option<nat>, block: Text)
    requires (at.Some? ==> at.value <= |keep|) && (block == [] || block[|block| - 1] != EMPTY)
    ensures var (head, tail) := Split(Kept(keep, at));
            BlockAt(Write(Join(head, [BANNER] + block, tail)), keep, at, block)
  {
    var (head, tail) := Split(Kept(keep, at));
    var blanks := Theorems.KeptIsParts(Kept(keep, at), head, tail);
    Theorems.WrittenForm(head, [BANNER] + block, tail);
    SplitEnds(keep, at, head, blanks, tail);
    BackMeans(tail);
    assert BlockBetween(Write(Join(head, [BANNER] + block, tail)), keep, at, block, head, blanks, tail);
  }

  lemma SplitEnds(keep: Text, at: Option<nat>, head: Text, blanks: Text, tail: Text)
    requires (at.Some? ==> at.value <= |keep|) && (head, tail) == Split(Kept(keep, at)) && keep == head + blanks + tail
    ensures EndsSolid(head) && StartsSolid(tail)
    ensures match at case None => tail == [] case Some(n) => |head| <= n <= |head| + |blanks|
  {
  }

  lemma BackMeans(tail: Text)
    ensures Theorems.Back(tail) == if tail == [] then [EMPTY] else [EMPTY] + tail + LineBreak(tail)
  {
    assert [EMPTY] + tail + [] == [EMPTY] + tail;
  }

  /**
    Replacing: a foreign table is refused, a table that does not close too; a file without the table gets the block at
    its end; any other file keeps the lines of the others, with the block where the first line of the project stood.
    The rendered block does not end with an empty line.
   */
  lemma ReplaceMeaning(t: Text, block: Text, shapes: Shapes)
    requires block == [] || block[|block| - 1] != EMPTY
    ensures match TargetStatus(t, shapes)
            case Foreign => Replace(t, block, shapes) == Err(FOREIGN)
            case Absent => Replace(t, block, shapes).Ok? && BlockAt(Replace(t, block, shapes).value, t, None, block)
            case _ =>
              (if Replace(t, block, shapes).Err?
               then Replace(t, block, shapes) == Err(UNBALANCED) && forall pieces :: !Cut(t, pieces)
               else exists pieces, keep, at ::
                 KeptOf(t, pieces, keep, at) && BlockAt(Replace(t, block, shapes).value, keep, at, block))
  {
    var r := RemoveOwned(t, shapes, true);
    if r.Kept? {
      SpliceForm(r.keep, r.at, block);
    }
    if TargetStatus(t, shapes).Legacy? || TargetStatus(t, shapes).Owned? {
      OwnedIsStripped(t, r);
    }
  }

  /** What becomes of a file with the project's table. */
  lemma OwnedIsStripped(t: Text, r: Removal)
    requires r == if Strip(t).None? then Refused(UNBALANCED) else Kept(Strip(t).value, FirstHit(t))
    ensures match r
            case Refused(code) => code == UNBALANCED && forall pieces :: !Cut(t, pieces)
            case Kept(keep, at) => exists pieces :: KeptOf(t, pieces, keep, at)
  {
    StripIff(t);
    if r.Kept? {
      var pieces := StripMeaning(t);
    }
  }

  /** The kept lines without the empty ones at the end, and a final line break. */
  ghost predicate Trimmed(v: Text, keep: Text) {
    exists body, empties ::
      && keep == body + empties && (forall l | l in empties :: l == EMPTY)
      && (body == [] || body[|body| - 1] != EMPTY)
      && v == if body == [] then [EMPTY, EMPTY] else body + [EMPTY]
  }

  lemma TrimForm(keep: Text)
    ensures Trimmed(Write(DropEmpty(keep)), keep)
  {
    var body := DropEmpty(keep);
    DropsEmpties(keep);
    assert keep == body + keep[|body|..];
  }

  lemma {:induction false} DropsEmpties(t: Text)
    ensures var body := DropEmpty(t); body == [] || body[|body| - 1] != EMPTY
    ensures forall l | l in t[|DropEmpty(t)|..] :: l == EMPTY
  {
    if t != [] && t[|t| - 1] == EMPTY {
      DropsEmpties(t[..|t| - 1]);
      assert t[|DropEmpty(t)|..] == t[..|t| - 1][|DropEmpty(t)|..] + [EMPTY];
    }
  }

  /** Removing: neither a foreign table nor the stock one is touched; else the lines of the others are what is left. */
  lemma RemoveMeaning(t: Text, shapes: Shapes)
    ensures match TargetStatus(t, shapes)
            case Absent => Remove(t, shapes).Ok? && Trimmed(Remove(t, shapes).value, t)
            case Owned(_) =>
              (if Remove(t, shapes).Err?
               then Remove(t, shapes) == Err(UNBALANCED) && forall pieces :: !Cut(t, pieces)
               else exists pieces, keep, at :: KeptOf(t, pieces, keep, at) && Trimmed(Remove(t, shapes).value, keep))
            case _ => Remove(t, shapes) == Err(FOREIGN)
  {
    var r := RemoveOwned(t, shapes, false);
    if r.Kept? {
      TrimForm(r.keep);
    }
    if TargetStatus(t, shapes).Owned? {
      OwnedIsStripped(t, r);
    }
  }
}
