/** What the profile reader takes, line by line, and what a move between Android and iOS does, port by port. */
module ProfileMeaning {
  import opened Common
  import opened Decimal
  import opened ProfileEntries
  import opened Profile
  import opened ProfileRetarget

  // ---- a line ----

  predicate AllWhite(s: string) {
    forall i | 0 <= i < |s| :: White(s[i])
  }

  /** Text that neither starts nor ends with white space. */
  predicate Trim(s: string) {
    s != "" && !White(s[0]) && !White(s[|s| - 1])
  }

  lemma {:induction false} LStripIs(pad: string, rest: string)
    requires AllWhite(pad) && (rest == "" || !White(rest[0]))
    ensures LStrip(pad + rest) == rest
  {
    if pad == "" {
      assert pad + rest == rest;
    } else {
      assert (pad + rest)[1..] == pad[1..] + rest;
      LStripIs(pad[1..], rest);
    }
  }

  lemma {:induction false} RStripIs(front: string, end: string)
    requires AllWhite(end) && (front == "" || !White(front[|front| - 1]))
    ensures RStrip(front + end) == front
  {
    if end == "" {
      assert front + end == front;
    } else {
      assert (front + end)[..|front + end| - 1] == front + end[..|end| - 1];
      RStripIs(front, end[..|end| - 1]);
    }
  }

  lemma StripIs(pad: string, body: string, end: string)
    requires AllWhite(pad) && AllWhite(end) && Trim(body)
    ensures LStrip(pad + body + end) == body + end && Strip(pad + body + end) == body
  {
    assert pad + body + end == pad + (body + end);
    LStripIs(pad, body + end);
    RStripIs(body, end);
  }

  lemma {:induction false} StripOfWhite(s: string)
    requires AllWhite(s)
    ensures Strip(s) == ""
  {
    if s != "" {
      StripOfWhite(s[1..]);
    }
  }

  lemma {:induction false} LStripSplits(s: string) returns (pad: string)
    ensures AllWhite(pad) && s == pad + LStrip(s)
  {
    if s != "" && White(s[0]) {
      var rest := LStripSplits(s[1..]);
      pad := [s[0]] + rest;
      assert s == [s[0]] + s[1..];
    } else {
      pad := "";
    }
  }

  lemma {:induction false} RStripSplits(s: string) returns (end: string)
    ensures AllWhite(end) && s == RStrip(s) + end
  {
    if s != "" && White(s[|s| - 1]) {
      var rest := RStripSplits(s[..|s| - 1]);
      end := rest + [s[|s| - 1]];
      assert s == s[..|s| - 1] + [s[|s| - 1]];
    } else {
      end := "";
    }
  }

  /** Every line is white, or text between white space. */
  lemma LineSplits(s: string) returns (pad: string, body: string, end: string)
    ensures s == pad + body + end && AllWhite(pad) && AllWhite(end)
    ensures body == "" || Trim(body)
  {
    pad := LStripSplits(s);
    var t := LStrip(s);
    end := RStripSplits(t);
    body := RStrip(t);
    assert body != "" ==> body[0] == t[0];
  }

  /** The first `=` of a text that has one. */
  ghost predicate IsPair(body: string, left: string, right: string) {
    body == left + "=" + right && forall i | 0 <= i < |left| :: left[i] != '='
  }

  lemma EqIs(body: string, left: string, right: string)
    requires IsPair(body, left, right)
    ensures Eq(body) == |left| && body[..Eq(body)] == left && body[Eq(body) + 1..] == right
  {
    assert body[|left|] == '=';
  }

  ghost predicate IsFirstWord(body: string, word: string) {
    word <= body && (forall i | 0 <= i < |word| :: !White(word[i])) && (|word| < |body| ==> White(body[|word|]))
  }

  lemma {:induction false} WordIs(body: string)
    ensures IsFirstWord(body, Word(body))
    ensures forall w | IsFirstWord(body, w) :: w == Word(body)
  {
    if body != "" && !White(body[0]) {
      WordIs(body[1..]);
      assert Word(body) == [body[0]] + Word(body[1..]);
      forall w | IsFirstWord(body, w) ensures w == Word(body) {
        assert w != "" && IsFirstWord(body[1..], w[1..]);
        assert w == [w[0]] + w[1..];
      }
    } else {
      assert body != "" ==> White(body[0]);
    }
  }

  /** Blank lines and comments say nothing. */
  lemma CommentsAreSkipped(pad: string, body: string, end: string, managed: set<string>)
    requires AllWhite(pad) && AllWhite(end)
    ensures ReadLine(pad, managed).Skip?
    ensures Trim(body) && body[0] == '#' ==> ReadLine(pad + body + end, managed).Skip?
  {
    StripOfWhite(pad);
    if Trim(body) {
      StripIs(pad, body, end);
    }
  }

  /** A line without `=` is an error exactly if its first word is a managed key. */
  lemma BareWordIsBadIff(pad: string, body: string, end: string, word: string, managed: set<string>)
    requires AllWhite(pad) && AllWhite(end) && Trim(body) && body[0] != '#' && IsFirstWord(body, word)
    requires forall i | 0 <= i < |body| :: body[i] != '='
    ensures ReadLine(pad + body + end, managed) == if word in managed then Bad else Skip
  {
    StripIs(pad, body, end);
    WordIs(body);
  }

  /**
    A line with `=` is an entry of the trimmed key and value if the key is managed and stands right before the `=`; a
    managed key with white space after it is an error, and any other key says nothing.
   */
  lemma PairMeaning(pad: string, body: string, end: string, left: string, right: string, managed: set<string>)
    requires AllWhite(pad) && AllWhite(end) && Trim(body) && body[0] != '#' && IsPair(body, left, right)
    ensures ReadLine(pad + body + end, managed) ==
              if Strip(left) !in managed then Skip
              else if Strip(left) == left then Entry(left, Strip(right)) else Bad
  {
    StripIs(pad, body, end);
    EqIs(body, left, right);
    KeyStands(body, end, left, right, Strip(left));
  }

  lemma KeyStands(body: string, end: string, left: string, right: string, key: string)
    requires IsPair(body, left, right) && |key| <= |left|
    ensures key + "=" <= body + end <==> key == left
  {
    var t := body + end;
    assert t[|left|] == '=' && t[..|left|] == left;
    if key + "=" <= t {
      assert t[|key|] == '=';
      KeyIsLeft(left, key, t);
    }
    if key == left {
      assert t[..|left| + 1] == left + "=";
    }
  }

  lemma KeyIsLeft(left: string, key: string, t: string)
    requires left <= t && key + "=" <= t
    requires (forall i | 0 <= i < |left| :: left[i] != '=') && |key| <= |left|
    ensures key == left
  {
    assert forall i | 0 <= i < |left| :: t[i] == left[i];
    assert t[|key|] == '=' && t[..|key|] == key;
  }

  // ---- a profile ----

  lemma {:induction false} CollectIff<K(!new), V(!new)>(rs: seq<LineRead<K, V>>)
    ensures Collect(rs).Some? <==>
              && (forall i | 0 <= i < |rs| :: !rs[i].Bad?)
              && (forall i, j | 0 <= i < j < |rs| && rs[i].Entry? && rs[j].Entry? :: rs[i].key != rs[j].key)
    ensures Collect(rs).Some? ==>
              && (forall i | 0 <= i < |rs| && rs[i].Entry? ::
                    rs[i].key in Collect(rs).value && Collect(rs).value[rs[i].key] == rs[i].value)
              && (forall k | k in Collect(rs).value :: Has(rs, k))
  {
    if rs != [] {
      var n := |rs| - 1;
      var rest := rs[..n];
      CollectIff(rest);
      assert forall i | 0 <= i < n :: rest[i] == rs[i];
      if Collect(rest).Some? {
        forall k | Has(rest, k) ensures Has(rs, k) {
          var i :| 0 <= i < |rest| && rest[i].Entry? && rest[i].key == k;
          assert rs[i].key == k;
        }
        if rs[n].Entry? && rs[n].key in Collect(rest).value {
          var i :| 0 <= i < |rest| && rest[i].Entry? && rest[i].key == rs[n].key;
          assert rs[i].key == rs[n].key;
        }
      }
    }
  }

  /** A profile is accepted exactly if no line is an error and no key has two entries; it then says its entries. */
  lemma ReadMeaning(lines: seq<string>, managed: set<string>)
    ensures Read(lines, managed).Some? <==>
              && (forall i | 0 <= i < |lines| :: !ReadLine(lines[i], managed).Bad?)
              && (forall i, j | 0 <= i < j < |lines| && ReadLine(lines[i], managed).Entry?
                                && ReadLine(lines[j], managed).Entry? ::
                    ReadLine(lines[i], managed).key != ReadLine(lines[j], managed).key)
    ensures Read(lines, managed).Some? ==>
              forall k, v :: (k in Read(lines, managed).value && Read(lines, managed).value[k] == v) <==>
                exists i :: 0 <= i < |lines| && ReadLine(lines[i], managed) == Entry(k, v)
  {
    var rs := ReadLines(lines, managed);
    CollectIff(rs);
    assert |rs| == |lines| && forall i | 0 <= i < |lines| :: rs[i] == ReadLine(lines[i], managed);
    if Collect(rs).Some? {
      var m := Collect(rs).value;
      forall k, v | k in m && m[k] == v
        ensures exists i :: 0 <= i < |lines| && ReadLine(lines[i], managed) == Entry(k, v)
      {
        var i :| 0 <= i < |rs| && rs[i].Entry? && rs[i].key == k;
        assert ReadLine(lines[i], managed) == Entry(k, v);
      }
      forall k, v | exists i :: 0 <= i < |lines| && ReadLine(lines[i], managed) == Entry(k, v)
        ensures k in m && m[k] == v
      {
        var i :| 0 <= i < |lines| && ReadLine(lines[i], managed) == Entry(k, v);
        assert rs[i] == Entry(k, v);
      }
    }
  }

  // ---- a port list ----

  predicate Digits(s: string) {
    s != "" && forall i | 0 <= i < |s| :: IsDigit(s[i])
  }

  /** White space (tab, line ends, blank) with at most one comma in it. */
  predicate Gap(s: string) {
    s != "" && (forall i | 0 <= i < |s| :: s[i] in ",\t\r\n ")
    && forall i, j | 0 <= i < j < |s| :: !(s[i] == ',' && s[j] == ',')
  }

  /** Items with gaps between them. */
  function Weave(items: seq<string>, gaps: seq<string>): string
    requires |items| == |gaps| + 1
  {
    if gaps == [] then items[0] else items[0] + gaps[0] + Weave(items[1..], gaps[1..])
  }

  ghost predicate IsList(s: string, ns: seq<nat>, items: seq<string>, gaps: seq<string>) {
    && |items| == |gaps| + 1 == |ns| && s == Weave(items, gaps) && (forall g | g in gaps :: Gap(g))
    && forall i | 0 <= i < |items| :: Digits(items[i]) && Val(items[i]) == ns[i]
  }

  lemma {:induction false} SepRunIs(gap: string, rest: string)
    requires (forall i | 0 <= i < |gap| :: Separates(gap[i])) && (rest != "" ==> !Separates(rest[0]))
    ensures SepRun(gap + rest) == |gap|
  {
    if gap == "" {
      assert gap + rest == rest;
    } else {
      assert (gap + rest)[1..] == gap[1..] + rest;
      SepRunIs(gap[1..], rest);
    }
  }

  lemma {:induction false} SepRunSplits(s: string)
    ensures forall i | 0 <= i < SepRun(s) :: Separates(s[i])
    ensures SepRun(s) < |s| ==> !Separates(s[SepRun(s)])
  {
    if s != "" && Separates(s[0]) {
      SepRunSplits(s[1..]);
    }
  }

  lemma {:induction false} CommasIff(s: string)
    ensures Commas(s) == 0 <==> forall i | 0 <= i < |s| :: s[i] != ','
    ensures Commas(s) <= 1 <==> forall i, j | 0 <= i < j < |s| :: !(s[i] == ',' && s[j] == ',')
  {
    if s != "" {
      var rest := s[1..];
      CommasIff(rest);
      assert forall i | 0 <= i < |rest| :: rest[i] == s[i + 1];
      if s[0] == ',' && Commas(rest) > 0 {
        var i :| 0 <= i < |rest| && rest[i] == ',';
        assert s[0] == ',' && s[i + 1] == ',';
      }
      if Commas(rest) > 1 {
        var i, j :| 0 <= i < j < |rest| && rest[i] == ',' && rest[j] == ',';
        assert s[i + 1] == ',' && s[j + 1] == ',';
      }
    }
  }

  lemma GapIs(gap: string)
    ensures Gap(gap) <==> gap != "" && (forall i | 0 <= i < |gap| :: Separates(gap[i])) && Commas(gap) <= 1
  {
    CommasIff(gap);
  }

  /** A list is read as the values of its items. */
  lemma {:induction false} ListIsRead(s: string, ns: seq<nat>, items: seq<string>, gaps: seq<string>)
    requires IsList(s, ns, items, gaps)
    ensures Numbers(s) == Some(ns) && s != "" && IsDigit(s[0])
    decreases |gaps|
  {
    assert Digits(items[0]);
    if gaps == [] {
      DigitRunIs(items[0], "");
      assert items[0] + "" == s && s[..|s|] == s && ns == [ns[0]];
    } else {
      var item, gap, rest := items[0], gaps[0], Weave(items[1..], gaps[1..]);
      assert gap in gaps && forall g | g in gaps[1..] :: g in gaps;
      ListIsRead(rest, ns[1..], items[1..], gaps[1..]);
      ListStep(s, item, gap, rest, ns[1..]);
      assert ns == [Val(item)] + ns[1..];
    }
  }

  lemma {:induction false} ListStep(s: string, item: string, gap: string, rest: string, ns: seq<nat>)
    requires Digits(item) && Gap(gap) && rest != "" && IsDigit(rest[0]) && Numbers(rest) == Some(ns)
    requires s == item + gap + rest
    ensures Numbers(s) == Some([Val(item)] + ns)
  {
    GapIs(gap);
    assert s == item + (gap + rest) && !IsDigit(gap[0]);
    DigitRunIs(item, gap + rest);
    SepRunIs(gap, rest);
    assert s[|item|..] == gap + rest && s[..|item|] == item;
    assert s[|item|..|item| + |gap|] == gap && s[|item| + |gap|..] == rest;
  }

  lemma OneNumber(s: string)
    requires Numbers(s).Some? && DigitRun(s) == |s|
    ensures Digits(s) && Numbers(s).value == [Val(s)]
  {
  }

  lemma {:induction false} MoreNumbers(s: string) returns (item: string, gap: string, rest: string)
    requires Numbers(s).Some? && DigitRun(s) < |s|
    ensures s == item + gap + rest && Digits(item) && Gap(gap) && |rest| < |s|
    ensures Numbers(rest).Some? && Numbers(s).value == [Val(item)] + Numbers(rest).value
  {
    var d := DigitRun(s);
    GapIsThere(s);
    var k := SepRun(s[d..]);
    GapOf(s, d, k);
    item, gap, rest := s[..d], s[d..d + k], s[d + k..];
    ThreeParts(s, d, k);
    NumbersSplit(s, item, rest);
  }

  lemma {:induction false} GapIsThere(s: string)
    requires Numbers(s).Some? && DigitRun(s) < |s|
    ensures var d := DigitRun(s); var k := SepRun(s[d..]); 0 < d && 0 < k && Commas(s[d..d + k]) <= 1
  {
  }

  lemma {:induction false} NumbersSplit(s: string, item: string, rest: string)
    requires Numbers(s).Some? && DigitRun(s) < |s| && item == s[..DigitRun(s)] && Digits(item)
    requires rest == s[DigitRun(s) + SepRun(s[DigitRun(s)..])..]
    ensures Numbers(rest).Some? && Numbers(s).value == [Val(item)] + Numbers(rest).value
  {
    var d := DigitRun(s);
    var k := SepRun(s[d..]);
    GapIsThere(s);
    var more := Numbers(rest);
    assert Numbers(s) == if more.None? then None else Some([Val(item)] + more.value);
  }

  lemma ThreeParts(s: string, d: nat, k: nat)
    requires d + k <= |s|
    ensures s == s[..d] + s[d..d + k] + s[d + k..]
  {
  }

  /** Whatever is read is a list. */
  lemma {:induction false} ReadIsList(s: string) returns (items: seq<string>, gaps: seq<string>)
    requires Numbers(s).Some?
    ensures IsList(s, Numbers(s).value, items, gaps)
    decreases |s|
  {
    if DigitRun(s) == |s| {
      OneNumber(s);
      items, gaps := [s], [];
    } else {
      var item, gap, rest := MoreNumbers(s);
      var moreItems, moreGaps := ReadIsList(rest);
      items, gaps := [item] + moreItems, [gap] + moreGaps;
      WeaveMore(s, item, gap, rest, Numbers(rest).value, moreItems, moreGaps);
    }
  }

  lemma GapOf(s: string, d: nat, k: nat)
    requires d < |s| && k == SepRun(s[d..]) && k > 0 && Commas(s[d..d + k]) <= 1
    ensures Gap(s[d..d + k])
  {
    var gap := s[d..d + k];
    SepRunSplits(s[d..]);
    assert forall i | 0 <= i < k :: gap[i] == s[d..][i];
    GapIs(gap);
  }

  lemma WeaveMore(s: string, item: string, gap: string, rest: string, ns: seq<nat>, items: seq<string>,
                  gaps: seq<string>)
    requires IsList(rest, ns, items, gaps) && Digits(item) && Gap(gap) && s == item + gap + rest
    ensures IsList(s, [Val(item)] + ns, [item] + items, [gap] + gaps)
  {
    assert ([item] + items)[1..] == items && ([gap] + gaps)[1..] == gaps;
  }

  /**
    Exactly the texts that are decimal numbers with gaps between them, whatever surrounds them, are port lists; all the
    numbers must be ports.
   */
  lemma PortsMeaning(text: string)
    ensures Ports(text).Some? <==>
              exists ns, items, gaps ::
                IsList(Strip(text), ns, items, gaps) && forall n | n in ns :: 1 <= n <= 65535
    ensures Ports(text).Some? ==>
              exists ns, items, gaps :: IsList(Strip(text), ns, items, gaps) && Ports(text).value == set n | n in ns
  {
    var t := Strip(text);
    forall ns, items, gaps | IsList(t, ns, items, gaps) ensures Numbers(t) == Some(ns) && t != "" {
      ListIsRead(t, ns, items, gaps);
    }
    if t != "" && Numbers(t).Some? {
      var items, gaps := ReadIsList(t);
      assert IsList(t, Numbers(t).value, items, gaps);
      assert forall n :: n in Elements(Numbers(t).value) <==> n in Numbers(t).value;
    }
  }

  lemma {:induction false} JoinIsList(ns: seq<nat>) returns (items: seq<string>, gaps: seq<string>)
    requires ns != []
    ensures IsList(Join(ns), ns, items, gaps)
    ensures (forall i | 0 <= i < |ns| :: items[i] == Dec(ns[i])) && forall g | g in gaps :: g == ","
  {
    ValOfDec(ns[0]);
    if |ns| == 1 {
      items, gaps := [Dec(ns[0])], [];
    } else {
      var moreItems, moreGaps := JoinIsList(ns[1..]);
      items, gaps := [Dec(ns[0])] + moreItems, [","] + moreGaps;
      assert items[1..] == moreItems && gaps[1..] == moreGaps;
    }
  }

  // ---- the move ----

  /** The ports that a profile names, or the default of the platform that it moves to. */
  ghost function PortsBefore(values: Values, p: Platform): Option<set<nat>> {
    if TLS in values then Ports(values[TLS])
    else Some(match p case Android => {443, 5228, 5229, 5230} case Ios => {443})
  }

  /**
    A profile can be moved exactly if it is readable, its port list is, and, on the way to iOS, it has a port besides
    the three of Android's message service.
   */
  lemma RetargetIff(lines: seq<string>, p: Platform)
    ensures Retarget(lines, p).Some? <==>
              && Read(lines, MANAGED).Some? && PortsBefore(Read(lines, MANAGED).value, p).Some?
              && (p.Ios? ==> exists n :: n in PortsBefore(Read(lines, MANAGED).value, p).value
                                         && n !in {5228, 5229, 5230})
  {
    if Read(lines, MANAGED).Some? && PortsBefore(Read(lines, MANAGED).value, p).Some? {
      var before := PortsBefore(Read(lines, MANAGED).value, p).value;
      assert 5228 in Moved(before, Android);
      if n :| n in before && n !in {5228, 5229, 5230} {
        assert n in Moved(before, Ios);
      }
    }
  }

  /** After the move the three ports are there on Android only, and any other port exactly if it was there before. */
  lemma PortByPort(lines: seq<string>, p: Platform, n: nat)
    requires Retarget(lines, p).Some?
    ensures var after := Read(Retarget(lines, p).value, MANAGED);
            && after.Some? && TLS in after.value && Ports(after.value[TLS]).Some?
            && (n in Ports(after.value[TLS]).value <==>
                  if n in {5228, 5229, 5230} then p.Android?
                  else n in PortsBefore(Read(lines, MANAGED).value, p).value)
            && PLATFORM in after.value && after.value[PLATFORM] == match p case Android => "android" case Ios => "ios"
  {
    RetargetChangesTwoValues(lines, p);
  }

  /** The new list is written in ascending order, in decimal, with single commas. */
  lemma PortsAreWrittenPlainly(lines: seq<string>, p: Platform)
    returns (ns: seq<nat>, items: seq<string>, gaps: seq<string>)
    requires Retarget(lines, p).Some?
    ensures PortsAfter(Read(lines, MANAGED).value, p) == Some(Elements(ns)) && Increasing(ns)
    ensures IsList(PortText(Elements(ns)), ns, items, gaps)
    ensures (forall i | 0 <= i < |ns| :: items[i] == Dec(ns[i])) && forall g | g in gaps :: g == ","
  {
    var ports := PortsAfter(Read(lines, MANAGED).value, p).value;
    ns := Ascending(ports);
    AscendingFacts(ports);
    assert Elements([]) == {};
    items, gaps := JoinIsList(ns);
  }
}
