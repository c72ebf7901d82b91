/** What replacing and removing the project's table promise about the rest of the file. */
module NftTheorems {
  import opened Common
  import opened NftScan
  import opened NftSplice

  /**
    A block whose lines before the table are guards and blanks, as in the shipped template, with one table that
    closes at the end and passes the shape check. `_render_mode` would also let a comment through there.
   */
  ghost predicate Rendered(block: Text, shapes: Shapes) {
    exists k :: RenderedAt(block, shapes, k)
  }

  ghost predicate RenderedAt(block: Text, shapes: Shapes, k: nat) {
    && k < |block| && (forall i | 0 <= i < k :: block[i].delta == 0 && (Blank(block[i]) || Guard(block[i])))
    && block[k].kind.Open? && Consume(block[k..], 0) == (|block| - k, 0)
    && shapes.mode(block[k..]).Some?
    && Banners(block) == 0 && Decls(block) <= 1 && Deletes(block) <= 1
    && block[|block| - 1] != EMPTY
  }

  /** What the rest of the proofs need of the spliced lines. */
  ghost predicate Spliced(b: Text, body: Text, shapes: Shapes) {
    && b != [] && Guard(b[0]) && b[|b| - 1] != EMPTY
    && PdgBlocks(b) == [body] && shapes.mode(body).Some? && Settles(b) && Contained(b)
    && Strip(b).Some? && AllBlank(Strip(b).value)
    && Banners(b) == 1 && Decls(b) <= 1 && Deletes(b) <= 1
  }

  // ---- the rendered block in the scanners' eyes ----

  lemma {:induction false} FrontScans(g: Text, body: Text)
    requires (forall l | l in g :: l.delta == 0 && (Blank(l) || Guard(l)))
    requires body != [] && body[0].kind.Open? && Consume(body, 0) == (|body|, 0)
    ensures PdgBlocks(g + body) == [body] && Settles(g + body)
    ensures Strip(g + body).Some? && AllBlank(Strip(g + body).value)
  {
    if g == [] {
      assert g + body == body && body[|body|..] == [] && body[..|body|] == body;
    } else {
      assert (g + body)[1..] == g[1..] + body && g[0] in g;
      FrontScans(g[1..], body);
    }
  }

  lemma {:induction false} FrontPasses(g: Text, body: Text, d: int)
    requires (forall l | l in g :: l.delta == 0) && d > 0
    requires body != [] && Consume(body, 0) == (|body|, 0)
    ensures Consume(g + body, d) == (|g + body|, d)
  {
    if g == [] {
      assert g + body == body;
      ClosedIsPassed(body, 0, d);
    } else {
      assert (g + body)[1..] == g[1..] + body && g[0] in g;
      FrontPasses(g[1..], body, d);
    }
  }

  predicate Front(g: Text) {
    forall l | l in g :: l.delta == 0 && (Blank(l) || Guard(l))
  }

  lemma FrontOf(block: Text, shapes: Shapes, k: nat)
    requires RenderedAt(block, shapes, k)
    ensures Front([BANNER] + block[..k])
    ensures [BANNER] + block == [BANNER] + block[..k] + block[k..]
  {
    forall l | l in block[..k] ensures l.delta == 0 && (Blank(l) || Guard(l)) {
      var i :| 0 <= i < k && block[i] == l;
    }
    assert block == block[..k] + block[k..];
  }

  lemma WholePasses(g: Text, body: Text)
    requires (forall l | l in g :: l.delta == 0) && body != [] && Consume(body, 0) == (|body|, 0)
    ensures Contained(g + body)
  {
    forall d | d > 0 ensures Consume(g + body, d) == (|g + body|, d) {
      FrontPasses(g, body, d);
    }
  }

  lemma BannerCounts(block: Text)
    ensures var b := [BANNER] + block;
            Banners(b) == 1 + Banners(block) && Decls(b) == Decls(block) && Deletes(b) == Deletes(block)
  {
    assert ([BANNER] + block)[1..] == block;
  }

  /** The banner and the block. */
  lemma BlockIsSpliced(block: Text, shapes: Shapes) returns (body: Text)
    requires Rendered(block, shapes)
    ensures Spliced([BANNER] + block, body, shapes)
  {
    var k: nat :| RenderedAt(block, shapes, k);
    body := block[k..];
    FrontOf(block, shapes, k);
    FrontScans([BANNER] + block[..k], body);
    WholePasses([BANNER] + block[..k], body);
    BannerCounts(block);
  }

  // ---- the pieces of a replaced file ----

  /** The parts that the splice leaves in place. */
  ghost predicate Parts(t: Text, shapes: Shapes, head: Text, tail: Text) {
    var r := RemoveOwned(t, shapes, true);
    r.Kept? && (head, tail) == Split(r)
  }

  lemma {:induction false} NoneOfKind(t: Text, p: Line -> bool)
    requires Count(t, p) == 0
    ensures forall l | l in t :: !p(l)
  {
    if exists l :: l in t && p(l) {
      CountSome(t, p);
    }
  }

  /** In a file without the project's table no line is a guard. */
  lemma AbsentHasNoGuard(t: Text, shapes: Shapes)
    requires TargetStatus(t, shapes).Absent?
    ensures NoGuard(t) && PdgBlocks(t) == []
  {
    NoneOfKind(t, (l: Line) => l.kind.Banner?);
    NoneOfKind(t, (l: Line) => l.kind.Decl?);
    NoneOfKind(t, (l: Line) => l.kind.Delete?);
  }

  lemma {:induction false} PrefixHasNoBlocks(a: Text, b: Text)
    requires PdgBlocks(a + b) == []
    ensures PdgBlocks(a) == []
    decreases |a|
  {
    if a != [] {
      assert (a + b)[0] == a[0];
      if !Opens(a[0]) {
        assert (a + b)[1..] == a[1..] + b;
        PrefixHasNoBlocks(a[1..], b);
      } else if Consume(a, 0).1 == 0 {
        var n := Consume(a, 0).0;
        ConsumeAppend(a, b, 0);
        assert (a + b)[n..] == a[n..] + b;
        PrefixHasNoBlocks(a[n..], b);
      }
    }
  }

  lemma TrimAgain(t: Text)
    ensures TrimEnd(TrimEnd(t)) == TrimEnd(t) && TrimStart(TrimStart(t)) == TrimStart(t)
  {
  }

  /** The parts of a file with nothing of the project in it. */
  lemma CleanParts(a: Text, b: Text)
    requires NoGuard(a) && NoGuard(b)
    ensures NoGuard(TrimEnd(a)) && NoGuard(TrimStart(b))
    ensures NoOpen(a) ==> NoOpen(TrimEnd(a))
    ensures NoOpen(b) ==> NoOpen(TrimStart(b))
  {
  }

  lemma CleanCut(keep: Text, i: nat)
    requires NoGuard(keep) && NoOpen(keep) && i <= |keep|
    ensures NoGuard(TrimEnd(keep[..i])) && NoGuard(TrimStart(keep[i..]))
    ensures NoOpen(TrimEnd(keep[..i])) && NoOpen(TrimStart(keep[i..]))
  {
    assert keep == keep[..i] + keep[i..];
    CleanParts(keep[..i], keep[i..]);
  }

  /** A file without the table may hide an opening of it only inside another table. */
  lemma AbsentParts(t: Text, shapes: Shapes)
    requires TargetStatus(t, shapes).Absent?
    ensures NoGuard(TrimEnd(t)) && PdgBlocks(TrimEnd(t)) == []
  {
    AbsentHasNoGuard(t, shapes);
    CleanParts(t, []);
    var head := TrimEnd(t);
    assert t == head + t[|head|..];
    PrefixHasNoBlocks(head, t[|head|..]);
  }

  lemma StrippedParts(t: Text, shapes: Shapes, head: Text, tail: Text)
    requires Parts(t, shapes, head, tail) && !TargetStatus(t, shapes).Absent?
    ensures NoGuard(head) && NoGuard(tail) && NoOpen(head) && NoOpen(tail)
  {
    StripIsClean(t);
    var keep := Strip(t).value;
    if FirstHit(t).Some? {
      HitIsInside(t);
      CleanCut(keep, FirstHit(t).value);
    } else {
      CleanParts(keep, []);
    }
  }

  /** No line of the project is left in the parts; only a nested opening may hide in a file without the table. */
  lemma PartsAreClean(t: Text, shapes: Shapes, head: Text, tail: Text)
    requires Parts(t, shapes, head, tail)
    ensures NoGuard(head) && NoGuard(tail) && NoOpen(tail) && PdgBlocks(head) == []
    ensures !TargetStatus(t, shapes).Absent? ==> NoOpen(head)
  {
    if TargetStatus(t, shapes).Absent? {
      AbsentParts(t, shapes);
    } else {
      StrippedParts(t, shapes, head, tail);
      NoOpenNoBlocks(head);
    }
  }

  lemma PartsAreTrimmed(t: Text, shapes: Shapes, head: Text, tail: Text)
    requires Parts(t, shapes, head, tail)
    ensures TrimEnd(head) == head && TrimStart(tail) == tail
  {
    var r := RemoveOwned(t, shapes, true);
    if r.at.None? {
      TrimAgain(r.keep);
    } else {
      TrimAgain(r.keep[..r.at.value]);
      TrimAgain(r.keep[r.at.value..]);
    }
  }

  // ---- nothing else changes ----

  lemma TrimsAreSolid(keep: Text, a: Text, b: Text)
    requires keep == a + b
    ensures Solid(TrimEnd(a)) + Solid(TrimStart(b)) == Solid(keep)
  {
    SolidOfTrimEnd(a);
    SolidOfTrimStart(b);
    SolidAppend(a, b);
  }

  lemma CutJoins(keep: Text, i: nat)
    requires i <= |keep|
    ensures keep == keep[..i] + keep[i..]
  {
  }

  lemma SplitIsSolid(r: Removal, head: Text, tail: Text)
    requires r.Kept? && (r.at.Some? ==> r.at.value <= |r.keep|) && (head, tail) == Split(r)
    ensures Solid(head) + Solid(tail) == Solid(r.keep)
  {
    if r.at.Some? {
      CutJoins(r.keep, r.at.value);
      TrimsAreSolid(r.keep, r.keep[..r.at.value], r.keep[r.at.value..]);
    } else {
      SolidOfTrimEnd(r.keep);
      assert Solid(head) + [] == Solid(head);
    }
  }

  lemma SolidOfThree(a: Text, b: Text, c: Text)
    ensures Solid(a + b + c) == Solid(a) + Solid(b) + Solid(c)
  {
    SolidAppend(a, b);
    SolidAppend(a + b, c);
  }

  lemma {:induction false} BlanksAreNotSolid(t: Text)
    requires AllBlank(t)
    ensures Solid(t) == []
  {
    if t != [] {
      assert t[0] in t;
      BlanksAreNotSolid(t[1..]);
    }
  }

  lemma BlanksAfter(t: Text, blanks: Text)
    requires AllBlank(blanks)
    ensures Solid(t + blanks) == Solid(t)
  {
    BlanksAreNotSolid(blanks);
    SolidAppend(t, blanks);
  }

  lemma BlanksBefore(t: Text, blanks: Text)
    requires AllBlank(blanks)
    ensures Solid(blanks + t) == Solid(t)
  {
    BlanksAreNotSolid(blanks);
    SolidAppend(blanks, t);
  }

  lemma SolidOfWrite(t: Text)
    ensures Solid(Write(t)) == Solid(t)
  {
    if t == [] {
      BlanksAreNotSolid([EMPTY, EMPTY]);
    } else {
      BlanksAfter(t, [EMPTY]);
    }
  }

  lemma JoinIsThree(head: Text, b: Text, tail: Text)
    ensures Join(head, b, tail) == (head + Gap(head)) + b + (Gap(tail) + tail)
  {
  }

  lemma SolidOfJoin(head: Text, b: Text, tail: Text)
    ensures Solid(Join(head, b, tail)) == Solid(head) + Solid(b) + Solid(tail)
  {
    JoinIsThree(head, b, tail);
    BlanksAfter(head, Gap(head));
    BlanksBefore(tail, Gap(tail));
    SolidOfThree(head + Gap(head), b, Gap(tail) + tail);
  }

  /** The solid lines of the new file are those kept from the old one, in order, with the block in one place. */
  lemma ContentStays(t: Text, block: Text, shapes: Shapes, head: Text, tail: Text)
    requires Parts(t, shapes, head, tail)
    ensures Replace(t, block, shapes).Ok?
    ensures Solid(Replace(t, block, shapes).value) == Solid(head) + Solid([BANNER] + block) + Solid(tail)
    ensures Solid(head) + Solid(tail) == Solid(RemoveOwned(t, shapes, true).keep)
  {
    SplitIsSolid(RemoveOwned(t, shapes, true), head, tail);
    SolidOfJoin(head, [BANNER] + block, tail);
    SolidOfWrite(Join(head, [BANNER] + block, tail));
  }

  // ---- the file that is written ----

  /** What follows the block: a gap and the tail, or only the final line break. */
  ghost function Back(tail: Text): Text {
    if tail == [] then [EMPTY]
    else if tail[|tail| - 1] == EMPTY then [EMPTY] + tail
    else [EMPTY] + tail + [EMPTY]
  }

  ghost function Written(front: Text, b: Text, back: Text): Text {
    front + b + back
  }

  lemma WriteAdds(t: Text)
    requires t != [] && t[|t| - 1] != EMPTY
    ensures Write(t) == t + [EMPTY]
  {
  }

  lemma WrittenForm(head: Text, b: Text, tail: Text)
    requires b != [] && b[|b| - 1] != EMPTY
    ensures Write(Join(head, b, tail)) == Written(head + Gap(head), b, Back(tail))
  {
    var front := head + Gap(head) + b;
    if tail == [] {
      assert Join(head, b, tail) == front;
      WriteAdds(front);
    } else {
      var t := front + ([EMPTY] + tail);
      assert Join(head, b, tail) == t && t[|t| - 1] == tail[|tail| - 1];
      if tail[|tail| - 1] != EMPTY {
        WriteAdds(t);
        assert t + [EMPTY] == front + ([EMPTY] + tail + [EMPTY]);
      }
    }
  }

  lemma TrimOne(t: Text)
    requires t == [] || !Blank(t[0])
    ensures TrimStart([EMPTY] + t) == t
  {
    assert ([EMPTY] + t)[1..] == t;
  }

  /** The parts found again are written as before. */
  lemma BackAgain(tail: Text)
    requires TrimStart(tail) == tail
    ensures Back(TrimStart(Back(tail))) == Back(tail)
  {
    if tail == [] {
      TrimOne([]);
      assert [EMPTY] + [] == [EMPTY];
    } else if tail[|tail| - 1] == EMPTY {
      TrimOne(tail);
    } else {
      TrimOne(tail + [EMPTY]);
      assert Back(tail) == [EMPTY] + (tail + [EMPTY]);
    }
  }

  lemma BackIsClean(tail: Text)
    requires NoOpen(tail) && NoGuard(tail)
    ensures NoOpen(Back(tail)) && NoGuard(Back(tail))
  {
  }

  lemma GapIsBlank(t: Text)
    ensures AllBlank(Gap(t)) && Settles(Gap(t)) && NoOpen(Gap(t)) && NoGuard(Gap(t)) && PdgBlocks(Gap(t)) == []
  {
  }

  // ---- its status ----

  lemma CountOfParts(a: Text, b: Text, c: Text, p: Line -> bool)
    requires (forall l | l in a :: !p(l)) && (forall l | l in c :: !p(l))
    ensures Count(Written(a, b, c), p) == Count(b, p)
  {
    CountAppend(a + b, c, p);
    CountAppend(a, b, p);
    CountNone(a, p);
    CountNone(c, p);
  }

  lemma GuardsOfWritten(front: Text, b: Text, back: Text)
    requires NoGuard(front) && NoGuard(back)
    ensures var t := Written(front, b, back);
            Banners(t) == Banners(b) && Decls(t) == Decls(b) && Deletes(t) == Deletes(b)
  {
    CountOfParts(front, b, back, (l: Line) => l.kind.Banner?);
    CountOfParts(front, b, back, (l: Line) => l.kind.Decl?);
    CountOfParts(front, b, back, (l: Line) => l.kind.Delete?);
  }

  lemma SettledBlocks(front: Text, b: Text, back: Text, body: Text)
    requires Settles(front) && PdgBlocks(front) == [] && Settles(b) && PdgBlocks(b) == [body] && NoOpen(back)
    ensures PdgBlocks(Written(front, b, back)) == [body]
  {
    BlocksAppend(front, b);
    BlocksAppend(front + b, back);
    NoOpenNoBlocks(back);
  }

  lemma OneBlockIsOwned(t: Text, body: Text, shapes: Shapes)
    requires PdgBlocks(t) == [body] && shapes.mode(body).Some? && Banners(t) == 1 && Decls(t) <= 1 && Deletes(t) <= 1
    ensures TargetStatus(t, shapes).Owned?
  {
  }

  /** With a settled front, the new file is owned and its block is the one that was spliced in. */
  lemma SettledIsOwned(front: Text, b: Text, back: Text, body: Text, shapes: Shapes)
    requires Spliced(b, body, shapes) && Settles(front) && PdgBlocks(front) == [] && NoGuard(front)
    requires NoGuard(back) && NoOpen(back)
    ensures TargetStatus(Written(front, b, back), shapes).Owned?
  {
    SettledBlocks(front, b, back, body);
    GuardsOfWritten(front, b, back);
    OneBlockIsOwned(Written(front, b, back), body, shapes);
  }

  lemma NoBlocksIsForeign(t: Text, shapes: Shapes)
    requires PdgBlocks(t) == [] && Banners(t) > 0
    ensures TargetStatus(t, shapes).Foreign?
  {
  }

  lemma UnsettledGap(head: Text)
    requires !Settles(head) && PdgBlocks(head) == []
    ensures !Settles(head + Gap(head)) && PdgBlocks(head + Gap(head)) == []
    decreases |head|
  {
    if Gap(head) != [] {
      UnsettledStays(head);
    }
  }

  lemma {:induction false} UnsettledStays(head: Text)
    requires !Settles(head) && PdgBlocks(head) == []
    ensures !Settles(head + [EMPTY]) && PdgBlocks(head + [EMPTY]) == []
    decreases |head|
  {
    var t := head + [EMPTY];
    assert t[0] == head[0];
    if !Opens(head[0]) {
      assert t[1..] == head[1..] + [EMPTY];
      UnsettledStays(head[1..]);
    } else if Consume(head, 0).1 <= 0 {
      var n := Consume(head, 0).0;
      ConsumeAppend(head, [EMPTY], 0);
      if Consume(head, 0).1 == 0 {
        assert t[n..] == head[n..] + [EMPTY];
        UnsettledStays(head[n..]);
      }
    } else {
      ConsumeThrough(head, [EMPTY], 0);
    }
  }

  /** With an unsettled front, the new file is refused by the next run. */
  lemma UnsettledIsForeign(head: Text, b: Text, back: Text, body: Text, shapes: Shapes)
    requires Spliced(b, body, shapes) && !Settles(head) && PdgBlocks(head) == [] && NoGuard(head)
    requires NoGuard(back) && NoOpen(back)
    ensures TargetStatus(Written(head + Gap(head), b, back), shapes).Foreign?
  {
    UnsettledGap(head);
    UnsettledSwallows(head + Gap(head), b, back);
    GapIsBlank(head);
    GuardsOfWritten(head + Gap(head), b, back);
    NoBlocksIsForeign(Written(head + Gap(head), b, back), shapes);
  }

  // ---- stripping it ----

  lemma StripOfWritten(a: Text, b: Text, c: Text)
    requires NoOpen(a) && NoGuard(a) && NoOpen(c) && NoGuard(c) && Strip(b).Some?
    ensures Strip(Written(a, b, c)) == Some(Written(a, Strip(b).value, c))
  {
    CleanStays(a);
    CleanStays(c);
    StripAppend(a, b);
    StripAppend(a + b, c);
  }

  lemma HitOfWritten(a: Text, b: Text, c: Text)
    requires NoOpen(a) && NoGuard(a) && b != [] && Guard(b[0])
    ensures FirstHit(Written(a, b, c)) == Some(|a|)
  {
    assert Written(a, b, c) == a + (b + c);
    HitAppend(a, b + c);
  }

  /** What a run on the new file keeps of it: the front, the blanks of the block, the back. */
  lemma KeptOfWritten(front: Text, b: Text, back: Text, body: Text, shapes: Shapes, legacyToo: bool)
    requires Spliced(b, body, shapes) && Settles(front) && NoOpen(front) && NoGuard(front)
    requires NoOpen(back) && NoGuard(back)
    ensures RemoveOwned(Written(front, b, back), shapes, legacyToo)
            == Kept(Written(front, Strip(b).value, back), Some(|front|))
  {
    NoOpenNoBlocks(front);
    SettledIsOwned(front, b, back, body, shapes);
    StripOfWritten(front, b, back);
    HitOfWritten(front, b, back);
  }

  lemma SplitOfWritten(head: Text, front: Text, left: Text, back: Text)
    requires front == head + Gap(head) && TrimEnd(head) == head && AllBlank(left)
    ensures Split(Kept(Written(front, left, back), Some(|front|))) == (head, TrimStart(back))
  {
    var keep := Written(front, left, back);
    assert keep[..|front|] == front && keep[|front|..] == left + back;
    GapIsBlank(head);
    BlanksFallOffEnd(head, Gap(head));
    BlanksFallOffStart(left, back);
  }

  lemma FrontIsClean(head: Text)
    requires Settles(head) && NoOpen(head) && NoGuard(head)
    ensures var front := head + Gap(head); Settles(front) && NoOpen(front) && NoGuard(front)
  {
    GapIsBlank(head);
    BlocksAppend(head, Gap(head));
  }

  // ---- replacing again ----

  /** The parts of a run that can be repeated. */
  ghost predicate Clean(head: Text, tail: Text) {
    && Settles(head) && NoOpen(head) && NoGuard(head) && TrimEnd(head) == head
    && NoGuard(tail) && NoOpen(tail) && TrimStart(tail) == tail
  }

  /** The next run finds the same parts. */
  lemma SameParts(head: Text, b: Text, tail: Text, body: Text, shapes: Shapes)
    requires Spliced(b, body, shapes) && Clean(head, tail)
    ensures Parts(Written(head + Gap(head), b, Back(tail)), shapes, head, TrimStart(Back(tail)))
  {
    FrontIsClean(head);
    BackIsClean(tail);
    KeptOfWritten(head + Gap(head), b, Back(tail), body, shapes, true);
    SplitOfWritten(head, head + Gap(head), Strip(b).value, Back(tail));
  }

  /** A settled, clean front makes the second run write the same file. */
  lemma CleanIsStable(head: Text, block: Text, tail: Text, body: Text, shapes: Shapes)
    requires Spliced([BANNER] + block, body, shapes) && Clean(head, tail)
    ensures var t := Written(head + Gap(head), [BANNER] + block, Back(tail)); Replace(t, block, shapes) == Ok(t)
  {
    SameParts(head, [BANNER] + block, tail, body, shapes);
    WrittenForm(head, [BANNER] + block, TrimStart(Back(tail)));
    BackAgain(tail);
  }

  // ---- a nested opening in front ----

  function Openings(t: Text): nat {
    Count(t, (l: Line) => l.kind.Open?)
  }

  lemma OpeningsOfWritten(a: Text, b: Text, c: Text)
    ensures Openings(Written(a, b, c)) == Openings(a) + Openings(b) + Openings(c)
  {
    CountAppend(a + b, c, (l: Line) => l.kind.Open?);
    CountAppend(a, b, (l: Line) => l.kind.Open?);
  }

  lemma OpeningsIff(t: Text)
    ensures Openings(t) == 0 <==> NoOpen(t)
  {
    if NoOpen(t) {
      CountNone(t, (l: Line) => l.kind.Open?);
    } else {
      CountSome(t, (l: Line) => l.kind.Open?);
    }
  }

  /** A run on an owned file leaves no opening but those of the block. */
  lemma OpeningsAfter(t: Text, block: Text, body: Text, shapes: Shapes, head: Text, tail: Text)
    requires Spliced([BANNER] + block, body, shapes) && Parts(t, shapes, head, tail) && !TargetStatus(t, shapes).Absent?
    ensures Replace(t, block, shapes).Ok? && Openings(Replace(t, block, shapes).value) == Openings([BANNER] + block)
  {
    StrippedParts(t, shapes, head, tail);
    WrittenForm(head, [BANNER] + block, tail);
    BackIsClean(tail);
    GapIsBlank(head);
    OpeningsIff(head + Gap(head));
    OpeningsIff(Back(tail));
    OpeningsOfWritten(head + Gap(head), [BANNER] + block, Back(tail));
  }

  lemma GapStaysOpen(head: Text)
    ensures NoOpen(head + Gap(head)) ==> NoOpen(head)
  {
    assert forall l | l in head :: l in head + Gap(head);
  }

  /** A nested opening in front is lost by the second run, or stops it. */
  lemma NestedIsUnstable(head: Text, block: Text, tail: Text, body: Text, shapes: Shapes)
    requires Spliced([BANNER] + block, body, shapes)
    requires Settles(head) && !NoOpen(head) && NoGuard(head) && PdgBlocks(head) == [] && NoGuard(tail) && NoOpen(tail)
    ensures var t := Written(head + Gap(head), [BANNER] + block, Back(tail)); Replace(t, block, shapes) != Ok(t)
  {
    var front := head + Gap(head);
    var t := Written(front, [BANNER] + block, Back(tail));
    BackIsClean(tail);
    GapIsBlank(head);
    BlocksAppend(head, Gap(head));
    SettledIsOwned(front, [BANNER] + block, Back(tail), body, shapes);
    GapStaysOpen(head);
    OpeningsIff(front);
    OpeningsOfWritten(front, [BANNER] + block, Back(tail));
    var r := RemoveOwned(t, shapes, true);
    if r.Kept? {
      OpeningsAfter(t, block, body, shapes, Split(r).0, Split(r).1);
    }
  }

  lemma UnsettledIsUnstable(head: Text, block: Text, tail: Text, body: Text, shapes: Shapes)
    requires Spliced([BANNER] + block, body, shapes) && !Settles(head) && PdgBlocks(head) == [] && NoGuard(head)
    requires NoGuard(tail) && NoOpen(tail)
    ensures Replace(Written(head + Gap(head), [BANNER] + block, Back(tail)), block, shapes) == Err(FOREIGN)
  {
    BackIsClean(tail);
    UnsettledIsForeign(head, [BANNER] + block, Back(tail), body, shapes);
  }

  /**
    Replacing is idempotent exactly when every table that starts before the spliced block also ends before
    it, and none of them hides a line that opens the project's table.
   */
  lemma ReplaceIsIdempotentIff(t: Text, block: Text, shapes: Shapes, head: Text, tail: Text)
    requires Rendered(block, shapes) && Parts(t, shapes, head, tail)
    ensures Replace(t, block, shapes).Ok?
    ensures var t1 := Replace(t, block, shapes).value;
            Replace(t1, block, shapes) == Ok(t1) <==> Settles(head) && NoOpen(head)
  {
    PartsAreClean(t, shapes, head, tail);
    PartsAreTrimmed(t, shapes, head, tail);
    var body := BlockIsSpliced(block, shapes);
    WrittenForm(head, [BANNER] + block, tail);
    if !Settles(head) {
      UnsettledIsUnstable(head, block, tail, body, shapes);
    } else if !NoOpen(head) {
      NestedIsUnstable(head, block, tail, body, shapes);
    } else {
      CleanIsStable(head, block, tail, body, shapes);
    }
  }

  // ---- replace, then remove ----

  lemma {:induction false} DropEmptyKeepsEnd(t: Text)
    ensures TrimEnd(DropEmpty(t)) == TrimEnd(t)
  {
    if t != [] && t[|t| - 1] == EMPTY {
      DropEmptyKeepsEnd(t[..|t| - 1]);
    }
  }

  lemma WriteKeepsEnd(t: Text)
    ensures TrimEnd(Write(t)) == TrimEnd(t)
  {
    if t == [] {
      BlanksFallOffEnd([], [EMPTY, EMPTY]);
      assert [] + [EMPTY, EMPTY] == [EMPTY, EMPTY];
    } else {
      BlanksFallOffEnd(t, [EMPTY]);
    }
  }

  lemma RemovedIsWritten(keep: Text)
    ensures TrimEnd(Write(DropEmpty(keep))) == TrimEnd(keep)
  {
    DropEmptyKeepsEnd(keep);
    WriteKeepsEnd(DropEmpty(keep));
  }

  lemma RemoveLeaves(head: Text, b: Text, tail: Text, body: Text, shapes: Shapes)
    requires Spliced(b, body, shapes) && Clean(head, tail)
    ensures Remove(Written(head + Gap(head), b, Back(tail)), shapes)
            == Ok(Write(DropEmpty(Written(head + Gap(head), Strip(b).value, Back(tail)))))
  {
    FrontIsClean(head);
    BackIsClean(tail);
    KeptOfWritten(head + Gap(head), b, Back(tail), body, shapes, false);
  }

  lemma {:induction false} EndIsBlank(t: Text)
    ensures AllBlank(t[|TrimEnd(t)|..])
  {
    if t != [] && Blank(t[|t| - 1]) {
      var short := t[..|t| - 1];
      EndIsBlank(short);
      assert t[|TrimEnd(t)|..] == short[|TrimEnd(short)|..] + [t[|t| - 1]];
    }
  }

  lemma {:induction false} StartIsBlank(t: Text)
    ensures AllBlank(t[..|t| - |TrimStart(t)|])
  {
    if t != [] && Blank(t[0]) {
      var short := t[1..];
      StartIsBlank(short);
      assert t[..|t| - |TrimStart(t)|] == [t[0]] + short[..|short| - |TrimStart(short)|];
    }
  }

  lemma CutTwice<T>(a: seq<T>, b: seq<T>, i: nat, j: nat)
    requires i <= |a| && j <= |b|
    ensures a + b == a[..i] + (a[i..] + b[..j]) + b[j..]
  {
  }

  lemma BlanksJoin(a: Text, b: Text)
    requires AllBlank(a) && AllBlank(b)
    ensures AllBlank(a + b)
  {
    forall l | l in a + b ensures Blank(l) {
      assert l in a || l in b;
    }
  }

  lemma TrimmedCut(a: Text, b: Text) returns (blanks: Text)
    ensures AllBlank(blanks) && a + b == TrimEnd(a) + blanks + TrimStart(b)
  {
    var i, j := |TrimEnd(a)|, |b| - |TrimStart(b)|;
    EndIsBlank(a);
    StartIsBlank(b);
    blanks := a[i..] + b[..j];
    BlanksJoin(a[i..], b[..j]);
    CutTwice(a, b, i, j);
  }

  /** What a run keeps is its two parts with blank lines between them. */
  lemma KeptIsParts(r: Removal, head: Text, tail: Text) returns (blanks: Text)
    requires r.Kept? && (r.at.Some? ==> r.at.value <= |r.keep|) && (head, tail) == Split(r)
    ensures AllBlank(blanks) && r.keep == head + blanks + tail
  {
    if r.at.Some? {
      CutJoins(r.keep, r.at.value);
      blanks := TrimmedCut(r.keep[..r.at.value], r.keep[r.at.value..]);
    } else {
      EndIsBlank(r.keep);
      blanks := r.keep[|TrimEnd(r.keep)|..];
      assert r.keep == head + blanks + [];
    }
  }

  lemma BackIsPlain(h: Text, tail: Text)
    ensures h + Back(tail) == h + [EMPTY] + tail || h + Back(tail) == h + [EMPTY] + tail + [EMPTY]
  {
    if tail == [] {
      assert h + [EMPTY] + tail == h + [EMPTY];
    }
  }

  lemma Regroup<T>(a: seq<T>, g: seq<T>, left: seq<T>, e: seq<T>, tail: seq<T>)
    ensures a + g + left + e + tail == a + (g + left + e) + tail
  {
  }

  /** Without the block the written file is the two parts again, with blank lines between them and at the end. */
  lemma WrittenEnds(head: Text, left: Text, tail: Text) returns (blanks: Text)
    requires AllBlank(left)
    ensures AllBlank(blanks) && TrimEnd(Written(head + Gap(head), left, Back(tail))) == TrimEnd(head + blanks + tail)
  {
    GapIsBlank(head);
    BlanksJoin(Gap(head), left);
    BlanksJoin(Gap(head) + left, [EMPTY]);
    blanks := Gap(head) + left + [EMPTY];
    Regroup(head, Gap(head), left, [EMPTY], tail);
    BlanksFallOffEnd(head + blanks + tail, [EMPTY]);
    BackIsPlain(head + Gap(head) + left, tail);
  }

  /** Removing the block from the new file. */
  lemma RemoveOfWritten(head: Text, b: Text, tail: Text, body: Text, shapes: Shapes) returns (blanks: Text)
    requires Spliced(b, body, shapes) && Clean(head, tail)
    ensures var r := Remove(Written(head + Gap(head), b, Back(tail)), shapes);
            AllBlank(blanks) && r.Ok? && TrimEnd(r.value) == TrimEnd(head + blanks + tail)
  {
    RemoveLeaves(head, b, tail, body, shapes);
    RemovedIsWritten(Written(head + Gap(head), Strip(b).value, Back(tail)));
    blanks := WrittenEnds(head, Strip(b).value, tail);
  }

  /** The new file, with the facts about the block. */
  lemma ReplacedForm(t: Text, block: Text, shapes: Shapes, head: Text, tail: Text) returns (body: Text)
    requires Rendered(block, shapes) && Parts(t, shapes, head, tail)
    ensures Spliced([BANNER] + block, body, shapes)
    ensures Replace(t, block, shapes) == Ok(Written(head + Gap(head), [BANNER] + block, Back(tail)))
  {
    body := BlockIsSpliced(block, shapes);
    WrittenForm(head, [BANNER] + block, tail);
  }

  lemma PartsRepeat(t: Text, shapes: Shapes, head: Text, tail: Text)
    requires Parts(t, shapes, head, tail) && Settles(head) && NoOpen(head)
    ensures Clean(head, tail)
  {
    PartsAreClean(t, shapes, head, tail);
    PartsAreTrimmed(t, shapes, head, tail);
  }

  /**
    Removing what was spliced in gives back the text that was kept, line by line: `old_` are the blank lines that
    stood at the splice point, `new_` those that stand there now, and blank lines at the end may differ. A file
    that had no such table comes back up to blank lines at its end.
   */
  lemma RemoveUndoesReplace(t: Text, block: Text, shapes: Shapes, head: Text, tail: Text)
    returns (old_: Text, new_: Text)
    requires Rendered(block, shapes) && Parts(t, shapes, head, tail) && Settles(head) && NoOpen(head)
    ensures Replace(t, block, shapes).Ok? && AllBlank(old_) && AllBlank(new_)
    ensures RemoveOwned(t, shapes, true).keep == head + old_ + tail
    ensures var r := Remove(Replace(t, block, shapes).value, shapes);
            && r.Ok? && TrimEnd(r.value) == TrimEnd(head + new_ + tail)
            && (TargetStatus(t, shapes).Absent? ==> TrimEnd(r.value) == TrimEnd(t))
  {
    PartsRepeat(t, shapes, head, tail);
    var body := ReplacedForm(t, block, shapes, head, tail);
    new_ := RemoveOfWritten(head, [BANNER] + block, tail, body, shapes);
    old_ := KeptIsParts(RemoveOwned(t, shapes, true), head, tail);
    if TargetStatus(t, shapes).Absent? {
      AbsentComesBack(t, shapes, head, tail, new_);
    }
  }

  lemma AbsentComesBack(t: Text, shapes: Shapes, head: Text, tail: Text, blanks: Text)
    requires Parts(t, shapes, head, tail) && TargetStatus(t, shapes).Absent? && AllBlank(blanks)
    ensures TrimEnd(head + blanks + tail) == TrimEnd(t)
  {
    assert head + blanks + tail == head + blanks;
    BlanksFallOffEnd(head, blanks);
    TrimAgain(t);
  }

  /** `v` is the kept text again, up to the blank lines `n` at the splice point and those at the end. */
  ghost predicate GivesBack(v: Text, head: Text, n: Text, tail: Text) {
    AllBlank(n) && TrimEnd(v) == TrimEnd(head + n + tail)
  }

  /** Replace, then remove: accepted, and the kept text is back. */
  ghost predicate Undone(t: Text, block: Text, shapes: Shapes, head: Text, tail: Text) {
    && Replace(t, block, shapes).Ok?
    && var r := Remove(Replace(t, block, shapes).value, shapes);
       r.Ok? && exists n :: GivesBack(r.value, head, n, tail)
  }

  lemma {:induction false} TrimEndKeepsOpen(t: Text)
    ensures NoOpen(TrimEnd(t)) <==> NoOpen(t)
  {
    if t != [] && Blank(t[|t| - 1]) {
      var short := t[..|t| - 1];
      assert t == short + [t[|t| - 1]];
      TrimEndKeepsOpen(short);
    }
  }

  lemma RemovedHasNoOpen(t: Text, shapes: Shapes)
    requires TargetStatus(t, shapes).Owned? && Remove(t, shapes).Ok?
    ensures NoOpen(TrimEnd(Remove(t, shapes).value))
  {
    var keep := Strip(t).value;
    StripIsClean(t);
    RemovedIsWritten(keep);
    TrimEndKeepsOpen(keep);
  }

  lemma OpenIsNotGivenBack(v: Text, head: Text, n: Text, tail: Text)
    requires NoOpen(TrimEnd(v)) && !NoOpen(head)
    ensures !GivesBack(v, head, n, tail)
  {
    TrimEndKeepsOpen(head + n + tail);
    var l :| l in head && l.kind.Open?;
    assert l in head + n + tail;
  }

  lemma UnsettledIsNotUndone(t: Text, block: Text, shapes: Shapes, head: Text, tail: Text)
    requires Rendered(block, shapes) && Parts(t, shapes, head, tail) && !Settles(head)
    ensures Replace(t, block, shapes).Ok? && Remove(Replace(t, block, shapes).value, shapes) == Err(FOREIGN)
  {
    PartsAreClean(t, shapes, head, tail);
    var body := ReplacedForm(t, block, shapes, head, tail);
    BackIsClean(tail);
    UnsettledIsForeign(head, [BANNER] + block, Back(tail), body, shapes);
  }

  lemma NestedIsOwned(t: Text, block: Text, shapes: Shapes, head: Text, tail: Text)
    requires Rendered(block, shapes) && Parts(t, shapes, head, tail) && Settles(head)
    ensures Replace(t, block, shapes).Ok? && TargetStatus(Replace(t, block, shapes).value, shapes).Owned?
  {
    PartsAreClean(t, shapes, head, tail);
    var body := ReplacedForm(t, block, shapes, head, tail);
    BackIsClean(tail);
    GapIsBlank(head);
    BlocksAppend(head, Gap(head));
    SettledIsOwned(head + Gap(head), [BANNER] + block, Back(tail), body, shapes);
  }

  lemma NestedIsNotUndone(t: Text, block: Text, shapes: Shapes, head: Text, tail: Text)
    requires Rendered(block, shapes) && Parts(t, shapes, head, tail) && Settles(head) && !NoOpen(head)
    ensures !Undone(t, block, shapes, head, tail)
  {
    NestedIsOwned(t, block, shapes, head, tail);
    var t1 := Replace(t, block, shapes).value;
    if Remove(t1, shapes).Ok? {
      RemovedHasNoOpen(t1, shapes);
      forall n ensures !GivesBack(Remove(t1, shapes).value, head, n, tail) {
        OpenIsNotGivenBack(Remove(t1, shapes).value, head, n, tail);
      }
    }
  }

  /**
    Removing undoes replacing exactly when every table that starts before the splice point also ends before it,
    and none of them hides a line that opens the project's table.
   */
  lemma RemoveUndoesReplaceIff(t: Text, block: Text, shapes: Shapes, head: Text, tail: Text)
    requires Rendered(block, shapes) && Parts(t, shapes, head, tail)
    ensures Undone(t, block, shapes, head, tail) <==> Settles(head) && NoOpen(head)
  {
    if !Settles(head) {
      UnsettledIsNotUndone(t, block, shapes, head, tail);
    } else if !NoOpen(head) {
      NestedIsNotUndone(t, block, shapes, head, tail);
    } else {
      var old_, new_ := RemoveUndoesReplace(t, block, shapes, head, tail);
      assert GivesBack(Remove(Replace(t, block, shapes).value, shapes).value, head, new_, tail);
    }
  }

  /** Replace, then remove: accepted, and the file is back up to blank lines at its end. */
  ghost predicate Restored(t: Text, block: Text, shapes: Shapes) {
    && Replace(t, block, shapes).Ok?
    && var r := Remove(Replace(t, block, shapes).value, shapes);
       r.Ok? && TrimEnd(r.value) == TrimEnd(t)
  }

  lemma AbsentIsWhole(t: Text, shapes: Shapes)
    requires TargetStatus(t, shapes).Absent?
    ensures Parts(t, shapes, TrimEnd(t), [])
  {
  }

  lemma RestoredIsUndone(t: Text, block: Text, shapes: Shapes)
    requires Restored(t, block, shapes)
    ensures Undone(t, block, shapes, TrimEnd(t), [])
  {
    var head := TrimEnd(t);
    TrimAgain(t);
    assert head + [] + [] == head;
    assert GivesBack(Remove(Replace(t, block, shapes).value, shapes).value, head, [], []);
  }

  lemma CleanIsRestored(t: Text, block: Text, shapes: Shapes, head: Text)
    requires Rendered(block, shapes) && TargetStatus(t, shapes).Absent?
    requires Parts(t, shapes, head, []) && Settles(head) && NoOpen(head)
    ensures Restored(t, block, shapes)
  {
    var old_, new_ := RemoveUndoesReplace(t, block, shapes, head, []);
  }

  /** A file that had no such table is restored under the same condition. */
  lemma RestoredIff(t: Text, block: Text, shapes: Shapes)
    requires Rendered(block, shapes) && TargetStatus(t, shapes).Absent?
    ensures Restored(t, block, shapes) <==> Settles(TrimEnd(t)) && NoOpen(TrimEnd(t))
  {
    AbsentIsWhole(t, shapes);
    if Settles(TrimEnd(t)) && NoOpen(TrimEnd(t)) {
      CleanIsRestored(t, block, shapes, TrimEnd(t));
    } else if Restored(t, block, shapes) {
      RestoredIsUndone(t, block, shapes);
      RemoveUndoesReplaceIff(t, block, shapes, TrimEnd(t), []);
    }
  }

  // ---- a file that the second run refuses ----

  const CUT_OFF: Text := [Line("table ip x {", Kind.Table, 1)]
  const SMALL: Text := [Line("table inet pdg {", Open(true), 1), Line("}", Other, -1)]

  ghost function AnyShape(): Shapes {
    Shapes(block => Some(Managed), block => false)
  }

  lemma NoGuardCounts(t: Text)
    requires NoGuard(t)
    ensures Banners(t) == 0 && Decls(t) == 0 && Deletes(t) == 0
  {
    CountNone(t, (l: Line) => l.kind.Banner?);
    CountNone(t, (l: Line) => l.kind.Decl?);
    CountNone(t, (l: Line) => l.kind.Delete?);
  }

  lemma SmallIsRendered()
    ensures Rendered(SMALL, AnyShape())
  {
    assert SMALL[0..] == SMALL && Consume(SMALL[1..], 1) == (1, 0);
    NoGuardCounts(SMALL);
    assert RenderedAt(SMALL, AnyShape(), 0);
  }

  lemma CutOffIsUnsettled()
    ensures TargetStatus(CUT_OFF, AnyShape()).Absent? && Parts(CUT_OFF, AnyShape(), CUT_OFF, []) && !Settles(CUT_OFF)
  {
    assert Consume(CUT_OFF, 0) == (1, 1);
    assert PdgBlocks(CUT_OFF) == [] && !Settles(CUT_OFF);
    NoGuardCounts(CUT_OFF);
    assert RemoveOwned(CUT_OFF, AnyShape(), true) == Kept(CUT_OFF, None);
    assert TrimEnd(CUT_OFF) == CUT_OFF;
  }

  /** A file whose last table is cut off takes the block once; the next run finds a foreign table. */
  lemma ACutOffTableStopsTheNextRun()
    ensures Rendered(SMALL, AnyShape()) && Replace(CUT_OFF, SMALL, AnyShape()).Ok?
    ensures Replace(Replace(CUT_OFF, SMALL, AnyShape()).value, SMALL, AnyShape())
            != Replace(CUT_OFF, SMALL, AnyShape())
  {
    SmallIsRendered();
    CutOffIsUnsettled();
    ReplaceIsIdempotentIff(CUT_OFF, SMALL, AnyShape(), CUT_OFF, []);
  }

  /** Nor can the block be removed from it again. */
  lemma ACutOffTableKeepsTheBlock()
    ensures Rendered(SMALL, AnyShape()) && TargetStatus(CUT_OFF, AnyShape()).Absent?
    ensures Replace(CUT_OFF, SMALL, AnyShape()).Ok?
    ensures Remove(Replace(CUT_OFF, SMALL, AnyShape()).value, AnyShape()) == Err(FOREIGN)
  {
    SmallIsRendered();
    CutOffIsUnsettled();
    UnsettledIsNotUndone(CUT_OFF, SMALL, AnyShape(), CUT_OFF, []);
  }
}
