/** Replacing and removing the project's table in nftables.conf (deploy/bot/nftmerge.py). */
module NftSplice {
  import opened Common
  import opened NftScan

  const EMPTY := Line("", White, 0)
  const BANNER := Line("#", Kind.Banner, 0)

  predicate Blank(l: Line) {
    l.kind.White? && l.delta == 0
  }

  function Solid(t: Text): Text {
    if t == [] then [] else (if Blank(t[0]) then [] else [t[0]]) + Solid(t[1..])
  }

  function TrimEnd(t: Text): (r: Text)
    ensures r <= t && (r == [] || !Blank(r[|r| - 1]))
  {
    if t != [] && Blank(t[|t| - 1]) then TrimEnd(t[..|t| - 1]) else t
  }

  function TrimStart(t: Text): (r: Text)
    ensures |r| <= |t| && t[|t| - |r|..] == r && (r == [] || !Blank(r[0]))
  {
    if t != [] && Blank(t[0]) then TrimStart(t[1..]) else t
  }

  // ---- removing ----

  /** The lines that are not the project's; `None` when a block does not close. */
  function Strip(t: Text): Option<Text>
    decreases |t|
  {
    if t == [] then Some([])
    else if Guard(t[0]) then Strip(t[1..])
    else if t[0].kind.Open? then
      var (n, d) := Consume(t, 0);
      if d != 0 then None else Strip(t[n..])
    else
      var rest := Strip(t[1..]);
      if rest.None? then None else Some([t[0]] + rest.value)
  }

  /** How many lines stand before the first one of the project. */
  function FirstHit(t: Text): Option<nat> {
    if t == [] then None
    else if Guard(t[0]) || t[0].kind.Open? then Some(0)
    else
      var rest := FirstHit(t[1..]);
      if rest.None? then None else Some(rest.value + 1)
  }

  datatype Removal = Kept(keep: Text, at: Option<nat>) | Refused(code: nat)

  const UNBALANCED: nat := 2
  const FOREIGN: nat := 4

  function RemoveOwned(t: Text, shapes: Shapes, allowLegacy: bool): (r: Removal)
    ensures r.Kept? && r.at.Some? ==> r.at.value <= |r.keep|
  {
    match TargetStatus(t, shapes)
    case Absent => Kept(t, None)
    case Foreign => Refused(FOREIGN)
    case _ =>
      if TargetStatus(t, shapes).Legacy? && !allowLegacy then Refused(FOREIGN)
      else if Strip(t).None? then Refused(UNBALANCED)
      else
        HitIsInside(t);
        Kept(Strip(t).value, FirstHit(t))
  }

  lemma {:induction false} HitIsInside(t: Text)
    requires Strip(t).Some?
    ensures FirstHit(t).None? ==> Strip(t).value == t
    ensures FirstHit(t).Some? ==> FirstHit(t).value < |t| && FirstHit(t).value <= |Strip(t).value|
    ensures FirstHit(t).Some? ==> t[..FirstHit(t).value] == Strip(t).value[..FirstHit(t).value]
    decreases |t|
  {
    if t != [] && !Guard(t[0]) && !t[0].kind.Open? {
      HitIsInside(t[1..]);
      if FirstHit(t).Some? {
        var k := FirstHit(t).value;
        assert t[..k] == [t[0]] + t[1..][..k - 1];
        assert Strip(t).value[..k] == [t[0]] + Strip(t[1..]).value[..k - 1];
      } else {
        assert t == [t[0]] + t[1..];
      }
    }
  }

  function After(out: Text, rest: Option<Text>): Option<Text> {
    if rest.None? then None else Some(out + rest.value)
  }

  /** The loop of `_remove_owned`. */
  method StripLines(t: Text) returns (keep: Option<Text>, first: Option<nat>)
    ensures keep == Strip(t) && (keep.Some? ==> first == FirstHit(t))
  {
    var out: Text := [];
    first := None;
    var i := 0;
    ghost var all := Strip(t);
    assert t[0..] == t && (all.Some? ==> [] + all.value == all.value);
    while i < |t|
      invariant 0 <= i <= |t|
      invariant all == After(out, Strip(t[i..]))
      invariant FirstHit(t) == if first.Some? then first
                               else if FirstHit(t[i..]).None? then None else Some(|out| + FirstHit(t[i..]).value)
    {
      assert t[i..][0] == t[i] && t[i..][1..] == t[i + 1..];
      if Guard(t[i]) {
        if first.None? { first := Some(|out|); }
        i := i + 1;
      } else if t[i].kind.Open? {
        if first.None? { first := Some(|out|); }
        var j, depth := ConsumeBlock(t, i);
        assert t[i..][j - i..] == t[j..];
        if depth != 0 { return None, None; }
        i := j;
      } else {
        StripKeeps(t, i, out);
        out := out + [t[i]];
        i := i + 1;
      }
    }
    assert out + [] == out;
    keep := Some(out);
  }

  lemma StripKeeps(t: Text, i: nat, out: Text)
    requires i < |t| && !Guard(t[i]) && !t[i].kind.Open?
    ensures After(out, Strip(t[i..])) == After(out + [t[i]], Strip(t[i + 1..]))
  {
    assert t[i..][1..] == t[i + 1..];
    var rest := Strip(t[i + 1..]);
    assert rest.Some? ==> out + ([t[i]] + rest.value) == out + [t[i]] + rest.value;
  }

  // ---- writing ----

  /** `_write`: the file ends with a line break. */
  function Write(t: Text): Text {
    if |t| >= 2 && t[|t| - 1] == EMPTY then t else if t == [] then [EMPTY, EMPTY] else t + [EMPTY]
  }

  function Gap(t: Text): Text {
    if t == [] then [] else [EMPTY]
  }

  function Join(head: Text, block: Text, tail: Text): Text {
    head + Gap(head) + block + Gap(tail) + tail
  }

  /** What stays before and after the spliced block. */
  function Split(r: Removal): (Text, Text)
    requires r.Kept? && (r.at.Some? ==> r.at.value <= |r.keep|)
  {
    if r.at.None? then (TrimEnd(r.keep), [])
    else (TrimEnd(r.keep[..r.at.value]), TrimStart(r.keep[r.at.value..]))
  }

  /** `_replace`, for a rendered block. */
  function Replace(t: Text, block: Text, shapes: Shapes): Result<Text, nat> {
    var r := RemoveOwned(t, shapes, true);
    if r.Refused? then Err(r.code)
    else
      var (head, tail) := Split(r);
      Ok(Write(Join(head, [BANNER] + block, tail)))
  }

  function DropEmpty(t: Text): (r: Text)
    ensures r <= t && forall k | |r| <= k < |t| :: t[k] == EMPTY
  {
    if t != [] && t[|t| - 1] == EMPTY then DropEmpty(t[..|t| - 1]) else t
  }

  /** `_remove`. */
  function Remove(t: Text, shapes: Shapes): Result<Text, nat> {
    var r := RemoveOwned(t, shapes, false);
    if r.Refused? then Err(r.code) else Ok(Write(DropEmpty(r.keep)))
  }

  method PopBlankEnd(t: Text) returns (r: Text)
    ensures r == TrimEnd(t)
  {
    r := t;
    while r != [] && Blank(r[|r| - 1])
      invariant TrimEnd(r) == TrimEnd(t)
      decreases |r|
    {
      r := r[..|r| - 1];
    }
  }

  method PopBlankStart(t: Text) returns (r: Text)
    ensures r == TrimStart(t)
  {
    r := t;
    while r != [] && Blank(r[0])
      invariant TrimStart(r) == TrimStart(t)
      decreases |r|
    {
      r := r[1..];
    }
  }

  /** `_remove_owned`. */
  method RemoveLines(t: Text, shapes: Shapes, allowLegacy: bool) returns (r: Removal)
    ensures r == RemoveOwned(t, shapes, allowLegacy)
  {
    var status := TargetStatus(t, shapes);
    if status.Foreign? || (status.Legacy? && !allowLegacy) { return Refused(FOREIGN); }
    if status.Absent? { return Kept(t, None); }
    var keep, first := StripLines(t);
    if keep.None? { return Refused(UNBALANCED); }
    r := Kept(keep.value, first);
  }

  /** `_replace`. */
  method ReplaceBlock(t: Text, block: Text, shapes: Shapes) returns (r: Result<Text, nat>)
    ensures r == Replace(t, block, shapes)
  {
    var removed := RemoveLines(t, shapes, true);
    if removed.Refused? { return Err(removed.code); }
    var keep := removed.keep;
    var head, tail: Text := [], [];
    if removed.at.None? {
      head := PopBlankEnd(keep);
    } else {
      head := PopBlankEnd(keep[..removed.at.value]);
      tail := PopBlankStart(keep[removed.at.value..]);
    }
    r := Ok(Write(Join(head, [BANNER] + block, tail)));
  }

  // ---- pieces ----

  lemma {:induction false} CountAppend(a: Text, b: Text, p: Line -> bool)
    ensures Count(a + b, p) == Count(a, p) + Count(b, p)
  {
    if a == [] {
      assert a + b == b;
    } else {
      assert (a + b)[1..] == a[1..] + b;
      CountAppend(a[1..], b, p);
    }
  }

  lemma {:induction false} CountNone(t: Text, p: Line -> bool)
    requires forall l | l in t :: !p(l)
    ensures Count(t, p) == 0
  {
    if t != [] {
      CountNone(t[1..], p);
    }
  }

  lemma {:induction false} CountSome(t: Text, p: Line -> bool)
    requires exists l :: l in t && p(l)
    ensures Count(t, p) > 0
  {
    var l :| l in t && p(l);
    if !p(t[0]) {
      assert l in t[1..];
      CountSome(t[1..], p);
    }
  }

  lemma {:induction false} SolidAppend(a: Text, b: Text)
    ensures Solid(a + b) == Solid(a) + Solid(b)
  {
    if a == [] {
      assert a + b == b;
    } else {
      assert (a + b)[1..] == a[1..] + b;
      SolidAppend(a[1..], b);
    }
  }

  lemma {:induction false} SolidOfTrimEnd(t: Text)
    ensures Solid(TrimEnd(t)) == Solid(t)
  {
    if t != [] && Blank(t[|t| - 1]) {
      var short := t[..|t| - 1];
      assert t == short + [t[|t| - 1]];
      SolidAppend(short, [t[|t| - 1]]);
      SolidOfTrimEnd(short);
    }
  }

  lemma {:induction false} SolidOfTrimStart(t: Text)
    ensures Solid(TrimStart(t)) == Solid(t)
  {
    if t != [] && Blank(t[0]) {
      SolidOfTrimStart(t[1..]);
    }
  }

  predicate AllBlank(t: Text) {
    forall l | l in t :: Blank(l)
  }

  lemma {:induction false} BlanksFallOffEnd(a: Text, b: Text)
    requires AllBlank(b)
    ensures TrimEnd(a + b) == TrimEnd(a)
  {
    if b == [] {
      assert a + b == a;
    } else {
      assert (a + b)[..|a + b| - 1] == a + b[..|b| - 1];
      BlanksFallOffEnd(a, b[..|b| - 1]);
    }
  }

  lemma {:induction false} BlanksFallOffStart(a: Text, b: Text)
    requires AllBlank(a)
    ensures TrimStart(a + b) == TrimStart(b)
  {
    if a == [] {
      assert a + b == b;
    } else {
      assert (a + b)[1..] == a[1..] + b;
      BlanksFallOffStart(a[1..], b);
    }
  }

  /** What is kept holds no line of the project. */
  lemma {:induction false} StripIsClean(t: Text)
    requires Strip(t).Some?
    ensures NoOpen(Strip(t).value) && NoGuard(Strip(t).value)
    decreases |t|
  {
    if t != [] {
      if Guard(t[0]) {
        StripIsClean(t[1..]);
      } else if t[0].kind.Open? {
        StripIsClean(t[Consume(t, 0).0..]);
      } else {
        StripIsClean(t[1..]);
      }
    }
  }

  lemma {:induction false} StripAppend(a: Text, b: Text)
    requires Strip(a).Some?
    ensures Strip(a + b) == After(Strip(a).value, Strip(b))
    decreases |a|
  {
    if a == [] {
      assert a + b == b && (Strip(b).Some? ==> [] + Strip(b).value == Strip(b).value);
    } else if a[0].kind.Open? {
      var n := Consume(a, 0).0;
      ConsumeAppend(a, b, 0);
      assert (a + b)[n..] == a[n..] + b;
      StripAppend(a[n..], b);
    } else {
      assert (a + b)[1..] == a[1..] + b;
      StripAppend(a[1..], b);
      if !Guard(a[0]) && Strip(b).Some? {
        assert [a[0]] + (Strip(a[1..]).value + Strip(b).value) == [a[0]] + Strip(a[1..]).value + Strip(b).value;
      }
    }
  }

  lemma {:induction false} CleanStays(t: Text)
    requires NoOpen(t) && NoGuard(t)
    ensures Strip(t) == Some(t) && FirstHit(t) == None
  {
    if t != [] {
      assert t[0] in t && t == [t[0]] + t[1..];
      CleanStays(t[1..]);
    }
  }

  lemma {:induction false} HitAppend(a: Text, b: Text)
    requires NoOpen(a) && NoGuard(a)
    ensures FirstHit(a + b) == if FirstHit(b).None? then None else Some(|a| + FirstHit(b).value)
  {
    if a == [] {
      assert a + b == b;
    } else {
      assert a[0] in a && (a + b)[1..] == a[1..] + b;
      HitAppend(a[1..], b);
    }
  }
}
