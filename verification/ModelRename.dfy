/** Renaming one name everywhere: `rename_references`, `rename_exit` and the core of `rebind_direct`. */
module ModelRename {
  import opened Common
  import opened GroupGraph
  import opened Model

  function Swap(x: string, old_: string, new_: string): string {
    if x == old_ then new_ else x
  }

  function SwapAll(xs: seq<string>, old_: string, new_: string): seq<string> {
    seq(|xs|, i requires 0 <= i < |xs| => Swap(xs[i], old_, new_))
  }

  function SwapOption(x: Option<string>, old_: string, new_: string): Option<string> {
    if x == Some(old_) then Some(new_) else x
  }

  function RenameGroup(g: Group, old_: string, new_: string): Group {
    g.(name := Swap(g.name, old_, new_), proxies := SwapAll(g.proxies, old_, new_))
  }

  function RenameOutbounds(outs: seq<Outbound>, old_: string, new_: string): seq<Outbound> {
    seq(|outs|, i requires 0 <= i < |outs| => outs[i].(tag := Swap(outs[i].tag, old_, new_)))
  }

  function RenameGroups(groups: seq<Group>, old_: string, new_: string): seq<Group> {
    seq(|groups|, i requires 0 <= i < |groups| => RenameGroup(groups[i], old_, new_))
  }

  function RenameRules(rules: seq<Rule>, old_: string, new_: string): seq<Rule> {
    seq(|rules|, i requires 0 <= i < |rules| => rules[i].(outbound := SwapOption(rules[i].outbound, old_, new_)))
  }

  /** The model with `old_` called `new_` as a tag, as a group and in every reference a route depends on. */
  function Rename(m: Model, old_: string, new_: string): Model {
    m.(outbounds := RenameOutbounds(m.outbounds, old_, new_),
       groups := RenameGroups(m.groups, old_, new_),
       final := SwapOption(m.final, old_, new_),
       rules := RenameRules(m.rules, old_, new_))
  }

  // ---- what a rename is, said name by name ----

  predicate NameFollows(before: string, after: string, old_: string, new_: string) {
    (before == old_ ==> after == new_) && (before != old_ ==> after == before)
  }

  predicate NamesFollow(before: seq<string>, after: seq<string>, old_: string, new_: string) {
    |after| == |before| && forall i | 0 <= i < |before| :: NameFollows(before[i], after[i], old_, new_)
  }

  predicate OptionFollows(before: Option<string>, after: Option<string>, old_: string, new_: string) {
    match (before, after)
    case (None, None) => true
    case (Some(x), Some(y)) => NameFollows(x, y, old_, new_)
    case _ => false
  }

  /** Groups, members, final target and rules follow; everything else stays as it is. */
  ghost predicate ReferencesFollow(m: Model, m': Model, old_: string, new_: string) {
    && |m'.groups| == |m.groups| && |m'.rules| == |m.rules|
    && (forall i | 0 <= i < |m.groups| ::
          && NameFollows(m.groups[i].name, m'.groups[i].name, old_, new_)
          && NamesFollow(m.groups[i].proxies, m'.groups[i].proxies, old_, new_)
          && m'.groups[i].(name := m.groups[i].name, proxies := m.groups[i].proxies) == m.groups[i])
    && OptionFollows(m.final, m'.final, old_, new_)
    && (forall i | 0 <= i < |m.rules| ::
          && OptionFollows(m.rules[i].outbound, m'.rules[i].outbound, old_, new_)
          && m'.rules[i].(outbound := m.rules[i].outbound) == m.rules[i])
    && m'.proxyProviders == m.proxyProviders && m'.ruleProviders == m.ruleProviders
    && m'.ruleSetTags == m.ruleSetTags && m'.inbounds == m.inbounds
  }

  /** A rename changes one name, in its place and wherever it is referred to, and nothing else. */
  lemma RenameMeaning(m: Model, old_: string, new_: string)
    ensures var m' := Rename(m, old_, new_);
            && ReferencesFollow(m, m', old_, new_)
            && |m'.outbounds| == |m.outbounds|
            && forall i | 0 <= i < |m.outbounds| ::
                 && NameFollows(m.outbounds[i].tag, m'.outbounds[i].tag, old_, new_)
                 && m'.outbounds[i].(tag := m.outbounds[i].tag) == m.outbounds[i]
  {
  }

  function Names(m: Model): set<string> {
    Tags(m.outbounds) + GroupNames(m.groups) + m.proxyProviders.Keys + m.ruleProviders.Keys
  }

  /** The checks made before a rename: `old_` may be renamed, `new_` is legal for it and free. */
  ghost predicate MayRename(norm: Norm, m: Model, old_: string, new_: string) {
    && (old_ in GroupNames(m.groups)
        || exists o :: o in m.outbounds && o.tag == old_ && (o.kind.Proxy? || (o.kind.Direct? && MachineTag(new_))))
    && ValidName(norm, new_) && new_ !in Names(m) && new_ !in RESERVED
  }

  // ---- a valid model stays valid ----

  lemma SwapMembers(xs: seq<string>, old_: string, new_: string)
    ensures forall x :: x in SwapAll(xs, old_, new_) <==> exists y :: y in xs && Swap(y, old_, new_) == x
  {
    var ys := SwapAll(xs, old_, new_);
    forall x ensures x in ys <==> exists y :: y in xs && Swap(y, old_, new_) == x {
      if x in ys {
        var i :| 0 <= i < |ys| && ys[i] == x;
        assert xs[i] in xs;
      }
      if y :| y in xs && Swap(y, old_, new_) == x {
        var i :| 0 <= i < |xs| && xs[i] == y;
        assert ys[i] == x;
      }
    }
  }

  lemma SwapKeepsNoDup(xs: seq<string>, old_: string, new_: string)
    requires NoDup(xs) && new_ !in xs
    ensures NoDup(SwapAll(xs, old_, new_))
  {
  }

  /** Tags and group names of the renamed model are the images of the old ones. */
  lemma RenamedSets(m: Model, old_: string, new_: string)
    ensures var m' := Rename(m, old_, new_);
            && Tags(m'.outbounds) == (set x | x in Tags(m.outbounds) :: Swap(x, old_, new_))
            && RoutableTags(m'.outbounds) == (set x | x in RoutableTags(m.outbounds) :: Swap(x, old_, new_))
            && BlockTags(m'.outbounds) == (set x | x in BlockTags(m.outbounds) :: Swap(x, old_, new_))
            && GroupNames(m'.groups) == (set x | x in GroupNames(m.groups) :: Swap(x, old_, new_))
  {
    var m' := Rename(m, old_, new_);
    forall o | o in m.outbounds ensures o.(tag := Swap(o.tag, old_, new_)) in m'.outbounds {
      var i :| 0 <= i < |m.outbounds| && m.outbounds[i] == o;
      assert m'.outbounds[i] == o.(tag := Swap(o.tag, old_, new_));
    }
    forall o' | o' in m'.outbounds ensures exists o :: o in m.outbounds && o' == o.(tag := Swap(o.tag, old_, new_)) {
      var i :| 0 <= i < |m'.outbounds| && m'.outbounds[i] == o';
      assert m.outbounds[i] in m.outbounds;
    }
    forall g | g in m.groups ensures RenameGroup(g, old_, new_) in m'.groups {
      var i :| 0 <= i < |m.groups| && m.groups[i] == g;
      assert m'.groups[i] == RenameGroup(g, old_, new_);
    }
    forall g' | g' in m'.groups ensures exists g :: g in m.groups && g' == RenameGroup(g, old_, new_) {
      var i :| 0 <= i < |m'.groups| && m'.groups[i] == g';
      assert m.groups[i] in m.groups;
    }
  }

  lemma OutboundFrom(outs: seq<Outbound>, old_: string, new_: string, o': Outbound) returns (o: Outbound)
    requires o' in RenameOutbounds(outs, old_, new_)
    ensures o in outs && o' == o.(tag := Swap(o.tag, old_, new_))
  {
    var i :| 0 <= i < |outs| && RenameOutbounds(outs, old_, new_)[i] == o';
    o := outs[i];
  }

  lemma GroupFrom(groups: seq<Group>, old_: string, new_: string, g': Group) returns (g: Group)
    requires g' in RenameGroups(groups, old_, new_)
    ensures g in groups && g' == RenameGroup(g, old_, new_)
  {
    var i :| 0 <= i < |groups| && RenameGroups(groups, old_, new_)[i] == g';
    g := groups[i];
  }

  lemma KeepsDirect(norm: Norm, m: Model, old_: string, new_: string)
    requires Valid(norm, m) && MayRename(norm, m, old_, new_)
    ensures OneDirect(RenameOutbounds(m.outbounds, old_, new_))
  {
    var outs := RenameOutbounds(m.outbounds, old_, new_);
    var d :| IsTheDirect(m.outbounds, d) && MachineTag(d.tag) && d.tag !in RESERVED;
    var k :| 0 <= k < |m.outbounds| && m.outbounds[k] == d;
    assert outs[k] in outs;
    forall o' | o' in outs && o'.kind.Direct? ensures o' == outs[k] {
      var o := OutboundFrom(m.outbounds, old_, new_, o');
    }
    if d.tag == old_ {
      RenamedKind(norm, m, old_, new_, d);
    }
    assert IsTheDirect(outs, outs[k]);
  }

  lemma KeepsDistinctTags(norm: Norm, m: Model, old_: string, new_: string)
    requires Valid(norm, m) && MayRename(norm, m, old_, new_)
    ensures DistinctTags(RenameOutbounds(m.outbounds, old_, new_))
  {
    var outs := RenameOutbounds(m.outbounds, old_, new_);
    forall i, j | 0 <= i < j < |outs| ensures outs[i].tag != outs[j].tag {
      assert m.outbounds[i] in m.outbounds && m.outbounds[j] in m.outbounds;
    }
  }

  lemma KeepsOutbounds(norm: Norm, m: Model, old_: string, new_: string)
    requires Valid(norm, m) && MayRename(norm, m, old_, new_)
    ensures var outs := RenameOutbounds(m.outbounds, old_, new_);
            OneDirect(outs) && DistinctTags(outs) && forall o | o in outs :: OutboundOk(norm, o)
  {
    KeepsDirect(norm, m, old_, new_);
    KeepsDistinctTags(norm, m, old_, new_);
    forall o' | o' in RenameOutbounds(m.outbounds, old_, new_) ensures OutboundOk(norm, o') {
      var o := OutboundFrom(m.outbounds, old_, new_, o');
      if o.tag == old_ {
        RenamedKind(norm, m, old_, new_, o);
      }
    }
  }

  /** Only a proxy or the direct outbound can carry the renamed tag. */
  lemma RenamedKind(norm: Norm, m: Model, old_: string, new_: string, o: Outbound)
    requires Valid(norm, m) && MayRename(norm, m, old_, new_) && o in m.outbounds && o.tag == old_
    ensures o.kind.Proxy? || (o.kind.Direct? && MachineTag(new_))
  {
    assert old_ in Tags(m.outbounds);
    var p :| p in m.outbounds && p.tag == old_ && (p.kind.Proxy? || (p.kind.Direct? && MachineTag(new_)));
    SameTag(m.outbounds, o, p);
  }

  lemma SameTag(outs: seq<Outbound>, a: Outbound, b: Outbound)
    requires DistinctTags(outs) && a in outs && b in outs && a.tag == b.tag
    ensures a == b
  {
  }

  /** A name the model mentions is never the new one, so renaming is injective on it. */
  lemma NewIsUnmentioned(norm: Norm, m: Model, old_: string, new_: string)
    requires Valid(norm, m) && MayRename(norm, m, old_, new_)
    ensures forall g | g in m.groups :: g.name != new_ && new_ !in g.proxies
    ensures forall r | r in m.rules :: r.outbound != Some(new_)
    ensures m.final != Some(new_) && old_ in Names(m) && old_ !in RESERVED
    ensures new_ !in Targets(m)
  {
    assert forall g | g in m.groups :: g.name in GroupNames(m.groups);
    forall o | o in m.outbounds ensures o.tag in Tags(m.outbounds) {}
    assert RoutableTags(m.outbounds) <= Tags(m.outbounds);
    forall g | g in m.groups ensures new_ !in g.proxies {
      assert MembersOk(m, g);
    }
  }

  lemma SwapKeepsDistinct(groups: seq<Group>, old_: string, new_: string)
    requires DistinctNames(groups) && forall g | g in groups :: g.name != new_
    ensures DistinctNames(RenameGroups(groups, old_, new_))
  {
    var groups' := RenameGroups(groups, old_, new_);
    forall i, j | 0 <= i < j < |groups'| ensures groups'[i].name != groups'[j].name {
      assert groups[i] in groups && groups[j] in groups;
    }
  }

  lemma KeepsDistinctNames(norm: Norm, m: Model, old_: string, new_: string)
    requires Valid(norm, m) && MayRename(norm, m, old_, new_)
    ensures DistinctNames(RenameGroups(m.groups, old_, new_))
  {
    forall g | g in m.groups ensures g.name != new_ {
      assert g.name in GroupNames(m.groups);
    }
    SwapKeepsDistinct(m.groups, old_, new_);
  }

  lemma KeepsGroup(norm: Norm, m: Model, old_: string, new_: string, g: Group)
    requires Valid(norm, m) && MayRename(norm, m, old_, new_) && g in m.groups
    ensures GroupOk(norm, RenameGroup(g, old_, new_))
  {
    NewIsUnmentioned(norm, m, old_, new_);
    assert GroupOk(norm, g);
    SwapKeepsNoDup(g.proxies, old_, new_);
  }

  lemma KeepsGroups(norm: Norm, m: Model, old_: string, new_: string)
    requires Valid(norm, m) && MayRename(norm, m, old_, new_)
    ensures var groups := RenameGroups(m.groups, old_, new_);
            DistinctNames(groups) && forall g | g in groups :: GroupOk(norm, g)
  {
    KeepsDistinctNames(norm, m, old_, new_);
    forall g' | g' in RenameGroups(m.groups, old_, new_) ensures GroupOk(norm, g') {
      var g := GroupFrom(m.groups, old_, new_, g');
      KeepsGroup(norm, m, old_, new_, g);
    }
  }

  lemma KeepsMembers(norm: Norm, m: Model, old_: string, new_: string, g': Group)
    requires Valid(norm, m) && MayRename(norm, m, old_, new_) && g' in RenameGroups(m.groups, old_, new_)
    ensures MembersOk(Rename(m, old_, new_), g')
  {
    var m' := Rename(m, old_, new_);
    NewIsUnmentioned(norm, m, old_, new_);
    RenamedSets(m, old_, new_);
    var g := GroupFrom(m.groups, old_, new_, g');
    assert MembersOk(m, g);
    SwapMembers(g.proxies, old_, new_);
    forall x' | x' in g'.proxies ensures x' in Targets(m') || x' == "REJECT" {
      var x :| x in g.proxies && Swap(x, old_, new_) == x';
      if x in GroupNames(m.groups) {
        assert x' in GroupNames(m'.groups);
      } else if x in RoutableTags(m.outbounds) {
        assert x' in RoutableTags(m'.outbounds);
      }
    }
    KeepsOneAlias(norm, m, old_, new_, g);
  }

  lemma KeepsOneAlias(norm: Norm, m: Model, old_: string, new_: string, g: Group)
    requires Valid(norm, m) && MayRename(norm, m, old_, new_) && MembersOk(m, g) && new_ !in g.proxies
    ensures var m', proxies' := Rename(m, old_, new_), SwapAll(g.proxies, old_, new_);
            forall x', y' | x' in proxies' && y' in proxies' && RejectAlias(m', x') && RejectAlias(m', y') :: x' == y'
  {
    var m', proxies' := Rename(m, old_, new_), SwapAll(g.proxies, old_, new_);
    SwapMembers(g.proxies, old_, new_);
    forall x', y' | x' in proxies' && y' in proxies' && RejectAlias(m', x') && RejectAlias(m', y')
      ensures x' == y'
    {
      var x :| x in g.proxies && Swap(x, old_, new_) == x';
      var y :| y in g.proxies && Swap(y, old_, new_) == y';
      AliasFrom(norm, m, old_, new_, x);
      AliasFrom(norm, m, old_, new_, y);
    }
  }

  lemma AliasFrom(norm: Norm, m: Model, old_: string, new_: string, x: string)
    requires Valid(norm, m) && MayRename(norm, m, old_, new_) && x != new_
    requires RejectAlias(Rename(m, old_, new_), Swap(x, old_, new_))
    ensures RejectAlias(m, x)
  {
    RenamedSets(m, old_, new_);
    var x' := Swap(x, old_, new_);
    if x' != "REJECT" {
      var y :| y in BlockTags(m.outbounds) && Swap(y, old_, new_) == x';
      assert y in Tags(m.outbounds);
    }
  }

  /** Every edge of the renamed graph is an old edge under its new names. */
  lemma EdgeFrom(m: Model, old_: string, new_: string, n': string, c': string)
    requires forall g | g in m.groups :: g.name != new_ && new_ !in g.proxies
    requires n' in GraphOf(RenameGroups(m.groups, old_, new_)) && c' in GraphOf(RenameGroups(m.groups, old_, new_))[n']
    ensures var n, c := Swap(n', new_, old_), Swap(c', new_, old_);
            n in GraphOf(m.groups) && c in GraphOf(m.groups)[n]
  {
    var groups := RenameGroups(m.groups, old_, new_);
    var h' :| h' in groups && h'.name == n' && c' in h'.proxies && c' in GroupNames(groups);
    var h := GroupFrom(m.groups, old_, new_, h');
    SwapMembers(h.proxies, old_, new_);
    var x :| x in h.proxies && Swap(x, old_, new_) == c';
    var k' :| k' in groups && k'.name == c';
    var k := GroupFrom(m.groups, old_, new_, k');
    assert x == k.name && h.name == Swap(n', new_, old_);
    assert h.name in GroupNames(m.groups) && x in GroupNames(m.groups);
  }

  lemma KeepsRanked(norm: Norm, m: Model, old_: string, new_: string)
    requires Valid(norm, m) && MayRename(norm, m, old_, new_)
    ensures Ranked(GraphOf(RenameGroups(m.groups, old_, new_)))
  {
    NewIsUnmentioned(norm, m, old_, new_);
    PullRank(m, old_, new_);
  }

  lemma PullRank(m: Model, old_: string, new_: string)
    requires forall g | g in m.groups :: g.name != new_ && new_ !in g.proxies
    requires Ranked(GraphOf(m.groups))
    ensures Ranked(GraphOf(RenameGroups(m.groups, old_, new_)))
  {
    var g0, g1 := GraphOf(m.groups), GraphOf(RenameGroups(m.groups, old_, new_));
    var rank :| IsRank(g0, rank);
    var rank': map<string, nat> := map n' | n' in g1 ::
      if Swap(n', new_, old_) in rank then rank[Swap(n', new_, old_)] else 0;
    forall n', c' | n' in g1 && c' in g1[n'] ensures c' in rank' && rank'[c'] < rank'[n'] {
      EdgeFrom(m, old_, new_, n', c');
    }
    assert IsRank(g1, rank');
  }

  /** Once the collision checks pass, validation of the renamed model cannot fail. */
  lemma RenameKeepsValid(norm: Norm, m: Model, old_: string, new_: string)
    requires Valid(norm, m) && MayRename(norm, m, old_, new_)
    ensures Valid(norm, Rename(m, old_, new_))
  {
    var m' := Rename(m, old_, new_);
    KeepsOutbounds(norm, m, old_, new_);
    KeepsGroups(norm, m, old_, new_);
    KeepsRanked(norm, m, old_, new_);
    forall g | g in m'.groups ensures MembersOk(m', g) {
      KeepsMembers(norm, m, old_, new_, g);
    }
    KeepsNamespace(norm, m, old_, new_);
    KeepsRoute(m, old_, new_);
  }

  lemma SwapSet(s: set<string>, old_: string, new_: string)
    requires new_ !in s
    ensures (set x | x in s :: Swap(x, old_, new_)) == if old_ in s then s - {old_} + {new_} else s
  {
  }

  lemma KeepsNamespace(norm: Norm, m: Model, old_: string, new_: string)
    requires Valid(norm, m) && MayRename(norm, m, old_, new_)
    ensures OneNamespace(Rename(m, old_, new_))
  {
    RenamedSets(m, old_, new_);
    SwapSet(Tags(m.outbounds), old_, new_);
    SwapSet(GroupNames(m.groups), old_, new_);
    StaysDisjoint(Tags(m.outbounds), GroupNames(m.groups), m.proxyProviders.Keys, m.ruleProviders.Keys, old_, new_);
  }

  lemma StaysDisjoint(a: set<string>, b: set<string>, c: set<string>, d: set<string>, old_: string, new_: string)
    requires a !! b !! c !! d && a + b + c + d !! RESERVED && old_ in a + b
    requires new_ !in a + b + c + d && new_ !in RESERVED
    ensures var a' := if old_ in a then a - {old_} + {new_} else a;
            var b' := (if old_ in b then b - {old_} + {new_} else b);
            a' !! b' !! c !! d && a' + b' + c + d !! RESERVED
  {
  }

  lemma TargetsFollow(m: Model, old_: string, new_: string, x: string)
    requires x in Targets(m)
    ensures Swap(x, old_, new_) in Targets(Rename(m, old_, new_))
  {
    RenamedSets(m, old_, new_);
    var m' := Rename(m, old_, new_);
    if x in GroupNames(m.groups) {
      assert Swap(x, old_, new_) in GroupNames(m'.groups);
    } else {
      assert Swap(x, old_, new_) in RoutableTags(m'.outbounds);
    }
  }

  lemma KeepsRoute(m: Model, old_: string, new_: string)
    requires RouteOk(m)
    ensures RouteOk(Rename(m, old_, new_))
  {
    var m' := Rename(m, old_, new_);
    TargetsFollow(m, old_, new_, m.final.value);
    forall r' | r' in m'.rules && r'.outbound.Some? ensures r'.outbound.value in Targets(m') {
      var i :| 0 <= i < |m.rules| && m'.rules[i] == r';
      assert m.rules[i] in m.rules;
      TargetsFollow(m, old_, new_, m.rules[i].outbound.value);
    }
  }

  lemma SwapBack(xs: seq<string>, old_: string, new_: string)
    requires new_ !in xs
    ensures SwapAll(SwapAll(xs, old_, new_), new_, old_) == xs
  {
  }

  lemma OutboundsBack(outs: seq<Outbound>, old_: string, new_: string)
    requires new_ !in Tags(outs)
    ensures RenameOutbounds(RenameOutbounds(outs, old_, new_), new_, old_) == outs
  {
  }

  lemma GroupsBack(groups: seq<Group>, old_: string, new_: string)
    requires forall g | g in groups :: g.name != new_ && new_ !in g.proxies
    ensures RenameGroups(RenameGroups(groups, old_, new_), new_, old_) == groups
  {
    forall i | 0 <= i < |groups| ensures RenameGroups(RenameGroups(groups, old_, new_), new_, old_)[i] == groups[i] {
      assert groups[i] in groups;
      SwapBack(groups[i].proxies, old_, new_);
    }
  }

  lemma RulesBack(rules: seq<Rule>, old_: string, new_: string)
    requires forall r | r in rules :: r.outbound != Some(new_)
    ensures RenameRules(RenameRules(rules, old_, new_), new_, old_) == rules
  {
  }

  /** Renaming back restores the model exactly. */
  lemma RenameBack(norm: Norm, m: Model, old_: string, new_: string)
    requires Valid(norm, m) && MayRename(norm, m, old_, new_)
    ensures Rename(Rename(m, old_, new_), new_, old_) == m
  {
    NewIsUnmentioned(norm, m, old_, new_);
    OutboundsBack(m.outbounds, old_, new_);
    GroupsBack(m.groups, old_, new_);
    RulesBack(m.rules, old_, new_);
  }
}
