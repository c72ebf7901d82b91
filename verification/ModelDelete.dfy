/** Editing a model in place: `rename_references`, `_mihomo_group_delete` and `delete_exit` (pdg-bot.py). */
module ModelDelete {
  import opened Common
  import opened GroupGraph
  import opened Model
  import opened ModelRename

  function Drop(xs: seq<string>, gone: set<string>): seq<string> {
    if xs == [] then [] else (if xs[0] in gone then [] else [xs[0]]) + Drop(xs[1..], gone)
  }

  /** The group list without the groups in `gone` and without any mention of them. */
  function Prune(groups: seq<Group>, gone: set<string>): seq<Group> {
    if groups == [] then [] else
    (if groups[0].name in gone then [] else [groups[0].(proxies := Drop(groups[0].proxies, gone))])
    + Prune(groups[1..], gone)
  }

  lemma {:induction false} DropMembers(xs: seq<string>, gone: set<string>)
    ensures forall x :: x in Drop(xs, gone) <==> x in xs && x !in gone
  {
    if xs != [] {
      DropMembers(xs[1..], gone);
      assert xs == [xs[0]] + xs[1..];
    }
  }

  lemma DropEmpty(xs: seq<string>, gone: set<string>)
    ensures Drop(xs, gone) == [] <==> forall x | x in xs :: x in gone
  {
  }

  lemma {:induction false} DropTwice(xs: seq<string>, a: set<string>, b: set<string>)
    requires a <= b
    ensures Drop(Drop(xs, a), b) == Drop(xs, b)
  {
    if xs != [] {
      DropTwice(xs[1..], a, b);
      if xs[0] !in a {
        assert Drop(xs, a)[1..] == Drop(xs[1..], a);
      } else {
        assert Drop(xs, a) == Drop(xs[1..], a) && Drop(xs, b) == Drop(xs[1..], b);
      }
    }
  }

  lemma {:induction false} DropNothing(xs: seq<string>)
    ensures Drop(xs, {}) == xs
  {
    if xs != [] { DropNothing(xs[1..]); }
  }

  lemma {:induction false} DropNoDup(xs: seq<string>, gone: set<string>)
    requires NoDup(xs)
    ensures NoDup(Drop(xs, gone))
  {
    if xs != [] {
      DropNoDup(xs[1..], gone);
      DropMembers(xs[1..], gone);
    }
  }

  lemma {:induction false} PruneMembers(groups: seq<Group>, gone: set<string>)
    ensures forall g' :: g' in Prune(groups, gone) <==>
              exists g :: g in groups && g.name !in gone && g' == g.(proxies := Drop(g.proxies, gone))
  {
    if groups != [] {
      PruneMembers(groups[1..], gone);
      assert groups == [groups[0]] + groups[1..];
      forall g' ensures g' in Prune(groups, gone) <==>
              exists g :: g in groups && g.name !in gone && g' == g.(proxies := Drop(g.proxies, gone))
      {
        if groups[0].name !in gone && g' == groups[0].(proxies := Drop(groups[0].proxies, gone)) {
          assert groups[0] in groups;
        }
      }
    }
  }

  lemma {:induction false} PruneTwice(groups: seq<Group>, a: set<string>, b: set<string>)
    requires a <= b
    ensures Prune(Prune(groups, a), b) == Prune(groups, b)
  {
    if groups != [] {
      PruneTwice(groups[1..], a, b);
      if groups[0].name !in a {
        DropTwice(groups[0].proxies, a, b);
        assert Prune(groups, a)[1..] == Prune(groups[1..], a);
      } else {
        assert Prune(groups, a) == Prune(groups[1..], a) && Prune(groups, b) == Prune(groups[1..], b);
      }
    }
  }

  lemma {:induction false} PruneNothing(groups: seq<Group>)
    ensures Prune(groups, {}) == groups
  {
    if groups != [] {
      PruneNothing(groups[1..]);
      DropNothing(groups[0].proxies);
    }
  }

  lemma {:induction false} PruneDistinct(groups: seq<Group>, gone: set<string>)
    requires DistinctNames(groups)
    ensures DistinctNames(Prune(groups, gone))
  {
    if groups != [] {
      PruneDistinct(groups[1..], gone);
      PruneMembers(groups[1..], gone);
      var rest := Prune(groups[1..], gone);
      forall i | 0 <= i < |rest| ensures rest[i].name != groups[0].name {
        assert rest[i] in rest;
      }
      assert Prune(groups, gone) == rest || Prune(groups, gone)[1..] == rest;
    }
  }

  /** A group without provider whose members are all gone must be gone itself. */
  ghost predicate EmptyClosed(groups: seq<Group>, gone: set<string>) {
    forall g | g in groups && g.uses == [] && (forall x | x in g.proxies :: x in gone) :: g.name in gone
  }

  ghost predicate Sweeps(groups: seq<Group>, removed: set<string>, gone: set<string>) {
    removed <= gone <= removed + GroupNames(groups) && EmptyClosed(groups, gone)
  }

  /** The least set with the removed names in it that is closed in this sense. */
  ghost predicate IsCascade(groups: seq<Group>, removed: set<string>, gone: set<string>) {
    && Sweeps(groups, removed, gone)
    && forall s: set<string> | removed <= s && EmptyClosed(groups, s) :: gone <= s
  }

  /** `newly_empty`: groups left with neither members nor providers. */
  function Emptied(groups: seq<Group>): set<string> {
    set g | g in groups && g.proxies == [] && g.uses == [] :: g.name
  }

  /** One more round is forced by every closed set. */
  lemma EmptiedIsForced(groups: seq<Group>, gone: set<string>, s: set<string>)
    requires gone <= s && EmptyClosed(groups, s)
    ensures Emptied(Prune(groups, gone)) <= s
  {
    PruneMembers(groups, gone);
    forall n | n in Emptied(Prune(groups, gone)) ensures n in s {
      var g' :| g' in Prune(groups, gone) && g'.proxies == [] && g'.uses == [] && g'.name == n;
      var g :| g in groups && g.name !in gone && g' == g.(proxies := Drop(g.proxies, gone));
      DropMembers(g.proxies, gone);
      forall x | x in g.proxies ensures x in s {
        assert x !in Drop(g.proxies, gone);
      }
    }
  }

  lemma BereftIsEmptied(groups: seq<Group>, gone: set<string>, g: Group)
    requires g in groups && g.uses == [] && (forall x | x in g.proxies :: x in gone) && g.name !in gone
    ensures g.name in Emptied(Prune(groups, gone))
  {
    PruneMembers(groups, gone);
    DropEmpty(g.proxies, gone);
    var g' := g.(proxies := Drop(g.proxies, gone));
    assert g' in Prune(groups, gone);
  }

  lemma NothingEmptiedIsClosed(groups: seq<Group>, gone: set<string>)
    requires Emptied(Prune(groups, gone)) == {}
    ensures EmptyClosed(groups, gone)
  {
    forall g | g in groups && g.uses == [] && (forall x | x in g.proxies :: x in gone) ensures g.name in gone {
      if g.name !in gone {
        BereftIsEmptied(groups, gone, g);
      }
    }
  }

  lemma EmptiedIsNew(groups: seq<Group>, gone: set<string>)
    ensures Emptied(Prune(groups, gone)) !! gone
    ensures Emptied(Prune(groups, gone)) <= GroupNames(groups)
  {
    PruneMembers(groups, gone);
  }

  function RenamedOutbound(o: Outbound, old_: string, new_: string): Outbound {
    o.(tag := Swap(o.tag, old_, new_),
       members := if o.kind.Selector? || o.kind.UrlTestOut? then SwapAll(o.members, old_, new_) else o.members)
  }

  /** A rename that also closes the member lists which only models before schema 3 have. */
  function RenamedExit(m: Model, old_: string, new_: string): Model {
    Rename(m, old_, new_).(outbounds := seq(|m.outbounds|, i requires 0 <= i < |m.outbounds| =>
      RenamedOutbound(m.outbounds[i], old_, new_)))
  }

  /** On a valid model there are none, so the rename is the one that ModelRename speaks of. */
  lemma ValidRenamesPlainly(norm: Norm, m: Model, old_: string, new_: string)
    requires Valid(norm, m)
    ensures RenamedExit(m, old_, new_) == Rename(m, old_, new_)
  {
    forall i | 0 <= i < |m.outbounds|
      ensures RenamedOutbound(m.outbounds[i], old_, new_) == RenameOutbounds(m.outbounds, old_, new_)[i]
    {
      assert m.outbounds[i] in m.outbounds && OutboundOk(norm, m.outbounds[i]);
    }
    assert RenamedExit(m, old_, new_).outbounds == RenameOutbounds(m.outbounds, old_, new_);
  }

  /** The lists of legacy group outbounds follow, those of other outbounds do not. */
  ghost predicate LegacyFollows(before: seq<Outbound>, after: seq<Outbound>, old_: string, new_: string) {
    && |after| == |before|
    && forall i | 0 <= i < |before| ::
         && after[i].(tag := before[i].tag, members := before[i].members) == before[i]
         && NameFollows(before[i].tag, after[i].tag, old_, new_)
         && if before[i].kind.Selector? || before[i].kind.UrlTestOut?
            then NamesFollow(before[i].members, after[i].members, old_, new_)
            else after[i].members == before[i].members
  }

  /** The ruleset metadata also names target outbounds. */
  function RenamedTargets(rulesets: map<string, string>, old_: string, new_: string): map<string, string> {
    map name | name in rulesets :: Swap(rulesets[name], old_, new_)
  }

  class Draft {
    var model: Model

    constructor (m: Model)
      ensures model == m
    {
      model := m;
    }

    /** `rename_references`: groups, then the final target, then every rule, one by one. */
    method RenameReferences(old_: string, new_: string, renameGroup: bool)
      requires renameGroup || old_ !in GroupNames(model.groups)
      modifies this
      ensures model == old(model).(groups := RenameGroups(old(model).groups, old_, new_),
                                   final := SwapOption(old(model).final, old_, new_),
                                   rules := RenameRules(old(model).rules, old_, new_))
    {
      var groups := model.groups;
      for i := 0 to |groups|
        invariant |groups| == |model.groups| && model == old(model)
        invariant forall j | 0 <= j < i :: groups[j] == RenameGroup(model.groups[j], old_, new_)
        invariant forall j | i <= j < |groups| :: groups[j] == model.groups[j]
      {
        var g := groups[i];
        assert model.groups[i] in model.groups && model.groups[i].name in GroupNames(model.groups);
        if renameGroup && g.name == old_ {
          g := g.(name := new_);
        }
        groups := groups[i := g.(proxies := SwapAll(g.proxies, old_, new_))];
      }
      var final := if model.final == Some(old_) then Some(new_) else model.final;
      var rules := model.rules;
      for i := 0 to |rules|
        invariant |rules| == |model.rules| && model == old(model)
        invariant forall j | 0 <= j < i ::
                    rules[j] == model.rules[j].(outbound := SwapOption(model.rules[j].outbound, old_, new_))
        invariant forall j | i <= j < |rules| :: rules[j] == model.rules[j]
      {
        if rules[i].outbound == Some(old_) {
          rules := rules[i := rules[i].(outbound := Some(new_))];
        }
      }
      model := model.(groups := groups, final := final, rules := rules);
    }

    /** `rename_exit`: tags and legacy member lists of the outbounds, the references, and the ruleset metadata. */
    method RenameExit(old_: string, new_: string, rulesets: map<string, string>) returns (after: map<string, string>)
      modifies this
      ensures model == RenamedExit(old(model), old_, new_)
      ensures LegacyFollows(old(model).outbounds, model.outbounds, old_, new_)
      ensures ReferencesFollow(old(model), model, old_, new_)
      ensures after.Keys == rulesets.Keys
              && forall name | name in rulesets :: NameFollows(rulesets[name], after[name], old_, new_)
    {
      var outs := model.outbounds;
      for i := 0 to |outs|
        invariant model == old(model) && |outs| == |model.outbounds|
        invariant forall j | 0 <= j < i :: outs[j] == RenamedOutbound(model.outbounds[j], old_, new_)
        invariant forall j | i <= j < |outs| :: outs[j] == model.outbounds[j]
      {
        if outs[i].tag == old_ {
          outs := outs[i := outs[i].(tag := new_)];
        }
        if outs[i].kind.Selector? || outs[i].kind.UrlTestOut? {
          outs := outs[i := outs[i].(members := SwapAll(outs[i].members, old_, new_))];
        }
      }
      assert outs == RenamedExit(model, old_, new_).outbounds;
      model := model.(outbounds := outs);
      RenameReferences(old_, new_, exists g | g in model.groups :: g.name == old_);
      RenameMeaning(old(model), old_, new_);
      after := RenamedTargets(rulesets, old_, new_);
    }

    /** `_mihomo_group_delete`: repeat until no group is newly empty. */
    method GroupDelete(removed: set<string>) returns (gone: set<string>)
      modifies this
      ensures IsCascade(old(model).groups, removed, gone)
      ensures model == old(model).(groups := Prune(old(model).groups, gone))
    {
      ghost var all := model.groups;
      ghost var last: set<string> := {};
      PruneNothing(all);
      gone := removed;
      while true
        invariant model == old(model).(groups := Prune(all, last)) && last <= gone
        invariant removed <= gone <= removed + GroupNames(all)
        invariant forall s: set<string> | removed <= s && EmptyClosed(all, s) :: gone <= s
        decreases |GroupNames(all) - gone|
      {
        PruneTwice(all, last, gone);
        model := model.(groups := Prune(model.groups, gone));
        last := gone;
        var empty := Emptied(model.groups);
        EmptiedIsNew(all, gone);
        if empty - gone == {} {
          assert empty == {};
          NothingEmptiedIsClosed(all, gone);
          break;
        }
        forall s: set<string> | removed <= s && EmptyClosed(all, s) ensures gone + empty <= s {
          EmptiedIsForced(all, gone, s);
        }
        GrowthEnds(GroupNames(all), gone, empty);
        gone := gone + empty;
      }
    }

    /**
      `delete_exit`: drop the outbound or group, cascade through the groups, then point every dangling
      route and ruleset target at the first target that is left.
     */
    method DeleteExit(tag: string, rulesets: map<string, string>) returns (r: Result<map<string, string>, DeleteError>)
      modifies this
      ensures r.Err? ==> model == old(model)
      ensures r.Err? && r.error.NotDeletable? <==> !Deletable(old(model), tag)
      ensures r.Err? && r.error.NotDeletable? <==>
                && (forall g | g in old(model).groups :: g.name != tag)
                && (forall o | o in old(model).outbounds && o.kind.Proxy? :: o.tag != tag)
      ensures r.Err? && r.error.NoFallback? ==> exists gone ::
                && IsCascade(old(model).groups, {tag}, gone)
                && forall o | o in old(model).outbounds && Routable(o.kind) :: o.tag in gone
      ensures r.Ok? ==> exists gone, fallback ::
                IsCascade(old(model).groups, {tag}, gone) && model == Deleted(old(model), tag, gone, fallback)
                && fallback in Targets(model) && r.value == Retargeted(rulesets, gone, fallback)
                && IsDeletion(old(model), tag, rulesets, model, r.value, gone, fallback)
    {
      if !Deletable(model, tag) { return Err(NotDeletable); }
      var m, gone := Preview(tag);
      var live := Drop(OrderedTargets(m), gone);
      if live == [] {
        NoneLive(model, tag, m, gone);
        return Err(NoFallback);
      }
      var fallback := live[0];
      DeletionFacts(model, tag, rulesets, gone, fallback);
      var known := Targets(m);
      model := m.(final := Retarget(m.final, known, fallback), rules := RetargetRules(m.rules, known, fallback));
      return Ok(Retargeted(rulesets, gone, fallback));
    }

    /** The model without the exit and without the groups that go with it. */
    method Preview(tag: string) returns (m: Model, gone: set<string>)
      ensures IsCascade(model.groups, {tag}, gone) && m == Bare(model, tag, gone)
    {
      var draft := new Draft(model.(outbounds := WithoutTag(model.outbounds, tag)));
      gone := draft.GroupDelete({tag});
      m := draft.model;
    }
  }

  datatype DeleteError = NotDeletable | NoFallback

  /** `deletable_tags`: proxies and groups, never the machine plumbing. */
  predicate Deletable(m: Model, tag: string) {
    tag in GroupNames(m.groups) || exists o | o in m.outbounds :: o.tag == tag && o.kind.Proxy?
  }

  function WithoutTag(outs: seq<Outbound>, tag: string): seq<Outbound> {
    if outs == [] then [] else (if outs[0].tag == tag then [] else [outs[0]]) + WithoutTag(outs[1..], tag)
  }

  /** `routable_tags_unchecked`: outbounds first, then groups. */
  function OrderedTargets(m: Model): seq<string> {
    OrderedTags(m.outbounds) + NamesOf(m.groups)
  }

  function OrderedTags(outs: seq<Outbound>): seq<string> {
    if outs == [] then [] else (if Routable(outs[0].kind) then [outs[0].tag] else []) + OrderedTags(outs[1..])
  }

  function Retarget(x: Option<string>, known: set<string>, fallback: string): Option<string> {
    if x.Some? && x.value in known then x else Some(fallback)
  }

  function RetargetRules(rules: seq<Rule>, known: set<string>, fallback: string): seq<Rule> {
    seq(|rules|, i requires 0 <= i < |rules| =>
      if rules[i].outbound.None? then rules[i]
      else rules[i].(outbound := Retarget(rules[i].outbound, known, fallback)))
  }

  /** The ruleset metadata follows: a target that is gone becomes the fallback. */
  function Retargeted(rulesets: map<string, string>, gone: set<string>, fallback: string): map<string, string> {
    map name | name in rulesets :: if rulesets[name] in gone then fallback else rulesets[name]
  }

  /** The model after the cascade `gone`, before any reference is retargeted. */
  function Bare(m: Model, tag: string, gone: set<string>): Model {
    m.(outbounds := WithoutTag(m.outbounds, tag), groups := Prune(m.groups, gone))
  }

  function Deleted(m: Model, tag: string, gone: set<string>, fallback: string): Model {
    var b := Bare(m, tag, gone);
    b.(final := Retarget(m.final, Targets(b), fallback), rules := RetargetRules(m.rules, Targets(b), fallback))
  }

  lemma {:induction false} WithoutTagMembers(outs: seq<Outbound>, tag: string)
    ensures forall o :: o in WithoutTag(outs, tag) <==> o in outs && o.tag != tag
  {
    if outs != [] {
      WithoutTagMembers(outs[1..], tag);
      assert outs == [outs[0]] + outs[1..];
    }
  }

  lemma {:induction false} WithoutTagDistinct(outs: seq<Outbound>, tag: string)
    requires DistinctTags(outs)
    ensures DistinctTags(WithoutTag(outs, tag))
  {
    if outs != [] {
      WithoutTagDistinct(outs[1..], tag);
      WithoutTagMembers(outs[1..], tag);
      var rest := WithoutTag(outs[1..], tag);
      forall i | 0 <= i < |rest| ensures rest[i].tag != outs[0].tag {
        assert rest[i] in rest;
      }
      assert WithoutTag(outs, tag) == rest || WithoutTag(outs, tag)[1..] == rest;
    }
  }

  lemma {:induction false} OrderedTagsMembers(outs: seq<Outbound>)
    ensures forall x :: x in OrderedTags(outs) <==> x in RoutableTags(outs)
  {
    if outs != [] {
      OrderedTagsMembers(outs[1..]);
      assert outs == [outs[0]] + outs[1..];
    }
  }

  lemma OrderedIsTargets(m: Model)
    ensures forall x :: x in OrderedTargets(m) <==> x in Targets(m)
  {
    OrderedTagsMembers(m.outbounds);
    var names := NamesOf(m.groups);
    forall x ensures x in names <==> x in GroupNames(m.groups) {
      if g :| g in m.groups && g.name == x {
        var i :| 0 <= i < |m.groups| && m.groups[i] == g;
        assert names[i] == x;
      }
    }
  }

  lemma OtherTagStays(m: Model, tag: string, left: Model, o: Outbound)
    requires left.outbounds == WithoutTag(m.outbounds, tag)
    requires o in m.outbounds && Routable(o.kind) && o.tag != tag
    ensures o.tag in OrderedTargets(left)
  {
    OrderedIsTargets(left);
    WithoutTagMembers(m.outbounds, tag);
    assert o in left.outbounds;
  }

  lemma NoneLive(m: Model, tag: string, left: Model, gone: set<string>)
    requires left.outbounds == WithoutTag(m.outbounds, tag) && Drop(OrderedTargets(left), gone) == [] && tag in gone
    ensures forall o | o in m.outbounds && Routable(o.kind) :: o.tag in gone
  {
    DropEmpty(OrderedTargets(left), gone);
    forall o | o in m.outbounds && Routable(o.kind) ensures o.tag in gone {
      if o.tag != tag {
        OtherTagStays(m, tag, left, o);
      }
    }
  }

  /** On a valid model it never comes to that: the direct exit is left, and no group is called like it. */
  lemma DirectIsLive(norm: Norm, m: Model, tag: string, gone: set<string>)
    requires Valid(norm, m) && Deletable(m, tag) && Sweeps(m.groups, {tag}, gone)
    ensures exists o :: o in m.outbounds && Routable(o.kind) && o.tag !in gone
  {
    DirectIsNotDeletable(norm, m, tag);
    var d :| IsTheDirect(m.outbounds, d);
    assert d.tag in Tags(m.outbounds);
  }

  lemma AlwaysLive(norm: Norm, m: Model, tag: string)
    requires Valid(norm, m) && Deletable(m, tag)
    ensures !exists gone ::
              IsCascade(m.groups, {tag}, gone) && forall o | o in m.outbounds && Routable(o.kind) :: o.tag in gone
  {
    forall gone | IsCascade(m.groups, {tag}, gone)
      ensures exists o :: o in m.outbounds && Routable(o.kind) && o.tag !in gone
    {
      DirectIsLive(norm, m, tag, gone);
    }
  }

  // ---- what a deletion does, reference by reference ----

  predicate SameName(a: string, b: string) { a == b }

  predicate SameOutbound(a: Outbound, b: Outbound) { a == b }

  function Outside(gone: set<string>): string -> bool {
    x => x !in gone
  }

  function OtherTag(tag: string): Outbound -> bool {
    (o: Outbound) => o.tag != tag
  }

  function Survives(gone: set<string>): Group -> bool {
    (g: Group) => g.name !in gone
  }

  /** A group that is left keeps everything but the members that are gone. */
  ghost predicate LeftOf(g: Group, h: Group, gone: set<string>) {
    && h.name == g.name && h.kind == g.kind && h.uses == g.uses && h.probe == g.probe
    && Sieved(g.proxies, h.proxies, Outside(gone), SameName)
  }

  ghost function LeftFrom(gone: set<string>): (Group, Group) -> bool {
    (g: Group, h: Group) => LeftOf(g, h, gone)
  }

  /** The first exit that is left, else the first group. */
  ghost predicate IsFirstLive(m: Model, gone: set<string>, x: string) {
    if exists i :: LiveAt(m, gone, i)
    then exists i :: LiveAt(m, gone, i) && m.outbounds[i].tag == x && forall j | 0 <= j < i :: !LiveAt(m, gone, j)
    else m.groups != [] && m.groups[0].name == x
  }

  predicate LiveAt(m: Model, gone: set<string>, i: int) {
    0 <= i < |m.outbounds| && Routable(m.outbounds[i].kind) && m.outbounds[i].tag !in gone
  }

  /**
    What `delete_exit` makes of a model and of the ruleset targets: the exit and the groups in `gone` are left out,
    what pointed at something that is no longer there points at `fallback`, and everything else is as it was.
   */
  ghost predicate IsDeletion(m: Model, tag: string, rulesets: map<string, string>, d: Model,
                             after: map<string, string>, gone: set<string>, fallback: string)
  {
    && Sieved(m.outbounds, d.outbounds, OtherTag(tag), SameOutbound)
    && Sieved(m.groups, d.groups, Survives(gone), LeftFrom(gone))
    && d.proxyProviders == m.proxyProviders && d.ruleProviders == m.ruleProviders
    && d.ruleSetTags == m.ruleSetTags && d.inbounds == m.inbounds
    && IsFirstLive(d, gone, fallback)
    && d.final == (if m.final.Some? && m.final.value in Targets(d) then m.final else Some(fallback))
    && |d.rules| == |m.rules|
    && (forall i | 0 <= i < |m.rules| ::
          && d.rules[i].(outbound := m.rules[i].outbound) == m.rules[i]
          && d.rules[i].outbound == if m.rules[i].outbound.None? then None
                                    else if m.rules[i].outbound.value in Targets(d) then m.rules[i].outbound
                                    else Some(fallback))
    && after.Keys == rulesets.Keys
    && forall name | name in rulesets :: after[name] == if rulesets[name] in gone then fallback else rulesets[name]
  }

  lemma {:induction false} DropSieves(xs: seq<string>, gone: set<string>)
    ensures Sieved(xs, Drop(xs, gone), Outside(gone), SameName)
  {
    if xs == [] {
      SieveEmpty(Outside(gone), SameName);
    } else {
      DropSieves(xs[1..], gone);
      SieveMore(xs, Drop(xs[1..], gone), Outside(gone), SameName, if xs[0] in gone then [] else [xs[0]]);
    }
  }

  lemma {:induction false} WithoutSieves(outs: seq<Outbound>, tag: string)
    ensures Sieved(outs, WithoutTag(outs, tag), OtherTag(tag), SameOutbound)
  {
    if outs == [] {
      SieveEmpty(OtherTag(tag), SameOutbound);
    } else {
      WithoutSieves(outs[1..], tag);
      SieveMore(outs, WithoutTag(outs[1..], tag), OtherTag(tag), SameOutbound,
                if outs[0].tag == tag then [] else [outs[0]]);
    }
  }

  lemma {:induction false} PruneSieves(groups: seq<Group>, gone: set<string>)
    ensures Sieved(groups, Prune(groups, gone), Survives(gone), LeftFrom(gone))
  {
    if groups == [] {
      SieveEmpty(Survives(gone), LeftFrom(gone));
    } else {
      var g := groups[0];
      PruneSieves(groups[1..], gone);
      DropSieves(g.proxies, gone);
      SieveMore(groups, Prune(groups[1..], gone), Survives(gone), LeftFrom(gone),
                if g.name in gone then [] else [g.(proxies := Drop(g.proxies, gone))]);
    }
  }

  lemma LiveStep(outs: seq<Outbound>, gone: set<string>)
    requires outs != []
    ensures Drop(OrderedTags(outs), gone) ==
              (if Routable(outs[0].kind) && outs[0].tag !in gone then [outs[0].tag] else [])
              + Drop(OrderedTags(outs[1..]), gone)
  {
    var head := if Routable(outs[0].kind) then [outs[0].tag] else [];
    DropAppend(head, OrderedTags(outs[1..]), gone);
    assert head != [] ==> head[1..] == [];
  }

  lemma {:induction false} FirstTag(outs: seq<Outbound>, gone: set<string>) returns (i: nat)
    requires exists o :: o in outs && Routable(o.kind) && o.tag !in gone
    ensures i < |outs| && Routable(outs[i].kind) && outs[i].tag !in gone
    ensures forall j | 0 <= j < i :: !(Routable(outs[j].kind) && outs[j].tag !in gone)
    ensures Drop(OrderedTags(outs), gone) != [] && Drop(OrderedTags(outs), gone)[0] == outs[i].tag
  {
    LiveStep(outs, gone);
    if Routable(outs[0].kind) && outs[0].tag !in gone {
      i := 0;
    } else {
      assert forall o | o in outs :: o == outs[0] || o in outs[1..];
      var j := FirstTag(outs[1..], gone);
      i := j + 1;
      assert forall k | 0 < k < i :: outs[k] == outs[1..][k - 1];
    }
  }

  lemma {:induction false} NoTag(outs: seq<Outbound>, gone: set<string>)
    requires forall o | o in outs && Routable(o.kind) :: o.tag in gone
    ensures Drop(OrderedTags(outs), gone) == []
  {
    if outs != [] {
      assert outs[0] in outs;
      LiveStep(outs, gone);
      NoTag(outs[1..], gone);
    }
  }

  lemma {:induction false} DropAppend(a: seq<string>, b: seq<string>, gone: set<string>)
    ensures Drop(a + b, gone) == Drop(a, gone) + Drop(b, gone)
  {
    if a == [] {
      assert a + b == b;
    } else {
      assert (a + b)[1..] == a[1..] + b;
      DropAppend(a[1..], b, gone);
    }
  }

  function NamesOf(groups: seq<Group>): seq<string> {
    seq(|groups|, i requires 0 <= i < |groups| => groups[i].name)
  }

  /** The head of the list of live targets. */
  lemma FirstLive(m: Model, gone: set<string>)
    requires Drop(OrderedTargets(m), gone) != [] && forall g | g in m.groups :: g.name !in gone
    ensures IsFirstLive(m, gone, Drop(OrderedTargets(m), gone)[0])
  {
    DropAppend(OrderedTags(m.outbounds), NamesOf(m.groups), gone);
    if exists o :: o in m.outbounds && Routable(o.kind) && o.tag !in gone {
      var i := FirstTag(m.outbounds, gone);
      assert LiveAt(m, gone, i);
    } else {
      NoTag(m.outbounds, gone);
      forall i ensures !LiveAt(m, gone, i) {
        assert 0 <= i < |m.outbounds| ==> m.outbounds[i] in m.outbounds;
      }
      assert m.groups != [] && m.groups[0] in m.groups && NamesOf(m.groups)[0] == m.groups[0].name;
    }
  }

  lemma DeletedMeaning(m: Model, tag: string, rulesets: map<string, string>, gone: set<string>, fallback: string)
    requires IsFirstLive(Bare(m, tag, gone), gone, fallback)
    ensures IsDeletion(m, tag, rulesets, Deleted(m, tag, gone, fallback), Retargeted(rulesets, gone, fallback),
                       gone, fallback)
  {
    var d := Deleted(m, tag, gone, fallback);
    WithoutSieves(m.outbounds, tag);
    PruneSieves(m.groups, gone);
    SameFirstLive(Bare(m, tag, gone), d, gone, fallback);
    assert Targets(d) == Targets(Bare(m, tag, gone));
  }

  /** Everything about deleting with the first live target as fallback. */
  lemma DeletionFacts(m: Model, tag: string, rulesets: map<string, string>, gone: set<string>, fallback: string)
    requires IsCascade(m.groups, {tag}, gone) && Drop(OrderedTargets(Bare(m, tag, gone)), gone) != []
    requires fallback == Drop(OrderedTargets(Bare(m, tag, gone)), gone)[0]
    ensures fallback in Targets(Deleted(m, tag, gone, fallback))
    ensures IsDeletion(m, tag, rulesets, Deleted(m, tag, gone, fallback), Retargeted(rulesets, gone, fallback),
                       gone, fallback)
  {
    var b := Bare(m, tag, gone);
    PruneMembers(m.groups, gone);
    DropMembers(OrderedTargets(b), gone);
    assert fallback in Drop(OrderedTargets(b), gone);
    OrderedIsTargets(b);
    FirstLive(b, gone);
    DeletedMeaning(m, tag, rulesets, gone, fallback);
  }

  lemma SameFirstLive(a: Model, b: Model, gone: set<string>, x: string)
    requires a.outbounds == b.outbounds && a.groups == b.groups && IsFirstLive(a, gone, x)
    ensures IsFirstLive(b, gone, x)
  {
    forall i ensures LiveAt(a, gone, i) <==> LiveAt(b, gone, i) {
    }
  }

  // ---- a valid model stays valid ----

  /** The direct outbound is never deletable, so there is always a fallback. */
  lemma DirectIsNotDeletable(norm: Norm, m: Model, tag: string)
    requires Valid(norm, m) && Deletable(m, tag)
    ensures !(DirectTags(m.outbounds) <= {tag})
    ensures forall o | o in m.outbounds && o.tag == tag :: o.kind.Proxy?
  {
    forall o | o in m.outbounds && o.tag == tag ensures o.kind.Proxy? {
      assert tag in Tags(m.outbounds);
      var p :| p in m.outbounds && p.tag == tag && p.kind.Proxy?;
      SameTag(m.outbounds, o, p);
    }
    var d :| IsTheDirect(m.outbounds, d);
    assert d.tag in DirectTags(m.outbounds);
  }

  lemma BareSets(m: Model, tag: string, gone: set<string>)
    requires Sweeps(m.groups, {tag}, gone)
    ensures var b := Bare(m, tag, gone);
            && Tags(b.outbounds) == Tags(m.outbounds) - {tag}
            && RoutableTags(b.outbounds) <= RoutableTags(m.outbounds) <= RoutableTags(b.outbounds) + {tag}
            && BlockTags(b.outbounds) <= BlockTags(m.outbounds)
            && GroupNames(b.groups) == GroupNames(m.groups) - gone
  {
    WithoutTagMembers(m.outbounds, tag);
    PruneMembers(m.groups, gone);
    var b := Bare(m, tag, gone);
    forall n | n in GroupNames(m.groups) - gone ensures n in GroupNames(b.groups) {
      var g :| g in m.groups && g.name == n;
      assert g.(proxies := Drop(g.proxies, gone)) in b.groups;
    }
  }

  lemma PrunedFrom(groups: seq<Group>, gone: set<string>, g': Group) returns (g: Group)
    requires g' in Prune(groups, gone)
    ensures g in groups && g.name !in gone && g' == g.(proxies := Drop(g.proxies, gone))
  {
    PruneMembers(groups, gone);
    g :| g in groups && g.name !in gone && g' == g.(proxies := Drop(g.proxies, gone));
  }

  lemma BareGroupOk(norm: Norm, groups: seq<Group>, gone: set<string>, g': Group)
    requires EmptyClosed(groups, gone) && g' in Prune(groups, gone) && forall g | g in groups :: GroupOk(norm, g)
    ensures GroupOk(norm, g')
  {
    var g := PrunedFrom(groups, gone, g');
    assert GroupOk(norm, g);
    DropEmpty(g.proxies, gone);
    DropNoDup(g.proxies, gone);
  }

  lemma TargetStays(m: Model, tag: string, gone: set<string>, x: string)
    requires Sweeps(m.groups, {tag}, gone) && x in Targets(m) && x !in gone
    ensures x in Targets(Bare(m, tag, gone))
  {
    BareSets(m, tag, gone);
  }

  lemma AliasStays(m: Model, tag: string, gone: set<string>, x: string)
    requires RejectAlias(Bare(m, tag, gone), x)
    ensures RejectAlias(m, x)
  {
    WithoutTagMembers(m.outbounds, tag);
  }

  lemma BareMembers(m: Model, tag: string, gone: set<string>, g': Group)
    requires Sweeps(m.groups, {tag}, gone) && g' in Prune(m.groups, gone) && forall g | g in m.groups :: MembersOk(m, g)
    ensures MembersOk(Bare(m, tag, gone), g')
  {
    var g := PrunedFrom(m.groups, gone, g');
    assert MembersOk(m, g);
    DropMembers(g.proxies, gone);
    forall x | x in g'.proxies ensures x in Targets(Bare(m, tag, gone)) || x == "REJECT" {
      if x != "REJECT" {
        TargetStays(m, tag, gone, x);
      }
    }
    forall x | x in g'.proxies && RejectAlias(Bare(m, tag, gone), x) ensures RejectAlias(m, x) {
      AliasStays(m, tag, gone, x);
    }
  }

  lemma BareEdge(groups: seq<Group>, gone: set<string>, n: string, c: string)
    requires n in GraphOf(Prune(groups, gone)) && c in GraphOf(Prune(groups, gone))[n]
    ensures n in GraphOf(groups) && c in GraphOf(groups)[n]
  {
    var h' :| h' in Prune(groups, gone) && h'.name == n && c in h'.proxies;
    var h := PrunedFrom(groups, gone, h');
    DropMembers(h.proxies, gone);
    var k' :| k' in Prune(groups, gone) && k'.name == c;
    var k := PrunedFrom(groups, gone, k');
    assert k.name in GroupNames(groups) && h.name in GroupNames(groups);
  }

  lemma BareRanked(groups: seq<Group>, gone: set<string>)
    requires Ranked(GraphOf(groups))
    ensures Ranked(GraphOf(Prune(groups, gone)))
  {
    forall n, c | n in GraphOf(Prune(groups, gone)) && c in GraphOf(Prune(groups, gone))[n]
      ensures n in GraphOf(groups) && c in GraphOf(groups)[n]
    {
      BareEdge(groups, gone, n, c);
    }
    PruneMembers(groups, gone);
    SubgraphRanked(GraphOf(groups), GraphOf(Prune(groups, gone)));
  }

  lemma BareOutbounds(norm: Norm, m: Model, tag: string)
    requires Valid(norm, m) && Deletable(m, tag)
    ensures var outs := WithoutTag(m.outbounds, tag);
            OneDirect(outs) && DistinctTags(outs) && forall o | o in outs :: OutboundOk(norm, o)
  {
    WithoutTagMembers(m.outbounds, tag);
    WithoutTagDistinct(m.outbounds, tag);
    DirectIsNotDeletable(norm, m, tag);
    var d :| IsTheDirect(m.outbounds, d) && MachineTag(d.tag) && d.tag !in RESERVED;
    assert IsTheDirect(WithoutTag(m.outbounds, tag), d);
  }

  /** After the cascade and the retargeting the model passes `validate`. */
  lemma DeleteKeepsValid(norm: Norm, m: Model, tag: string, gone: set<string>, fallback: string)
    requires Valid(norm, m) && Deletable(m, tag) && Sweeps(m.groups, {tag}, gone)
    requires fallback in Targets(Bare(m, tag, gone))
    ensures Valid(norm, Deleted(m, tag, gone, fallback))
  {
    var d := Deleted(m, tag, gone, fallback);
    BareOutbounds(norm, m, tag);
    PruneDistinct(m.groups, gone);
    BareRanked(m.groups, gone);
    forall g | g in d.groups ensures GroupOk(norm, g) {
      BareGroupOk(norm, m.groups, gone, g);
    }
    forall g | g in d.groups ensures MembersOk(d, g) {
      BareMembers(m, tag, gone, g);
      SameMembers(Bare(m, tag, gone), d, g);
    }
    BareNamespace(m, tag, gone);
    RetargetedRoute(m, tag, gone, fallback);
  }

  lemma SameMembers(b: Model, d: Model, g: Group)
    requires MembersOk(b, g)
    requires d.outbounds == b.outbounds && d.groups == b.groups && d.proxyProviders == b.proxyProviders
    ensures MembersOk(d, g)
  {
  }

  lemma RetargetedRoute(m: Model, tag: string, gone: set<string>, fallback: string)
    requires fallback in Targets(Bare(m, tag, gone))
    ensures RouteOk(Deleted(m, tag, gone, fallback))
  {
  }

  /** A ruleset target that was `direct` or routable still is. */
  lemma RulesetsFollow(m: Model, tag: string, gone: set<string>, fallback: string, target: string)
    requires Sweeps(m.groups, {tag}, gone) && fallback in Targets(Bare(m, tag, gone))
    requires target == "direct" || target in Targets(m)
    ensures var t := if target in gone then fallback else target;
            t == "direct" || t in Targets(Deleted(m, tag, gone, fallback))
  {
    assert Targets(Deleted(m, tag, gone, fallback)) == Targets(Bare(m, tag, gone));
    BareSets(m, tag, gone);
  }

  lemma BareNamespace(m: Model, tag: string, gone: set<string>)
    requires OneNamespace(m) && Sweeps(m.groups, {tag}, gone)
    ensures OneNamespace(Bare(m, tag, gone))
  {
    BareSets(m, tag, gone);
  }

  ghost predicate TargetsKnown(rulesets: map<string, string>, m: Model) {
    forall name | name in rulesets :: rulesets[name] == "direct" || rulesets[name] in Targets(m)
  }

  /** `delete_exit` on a valid model never lacks a fallback and always ends in a valid model. */
  method DeleteFromValid(norm: Norm, draft: Draft, tag: string, rulesets: map<string, string>)
    returns (r: Result<map<string, string>, DeleteError>)
    requires Valid(norm, draft.model)
    modifies draft
    ensures Valid(norm, draft.model)
    ensures r.Ok? <==> Deletable(old(draft.model), tag)
    ensures r.Ok? && TargetsKnown(rulesets, old(draft.model)) ==> TargetsKnown(r.value, draft.model)
  {
    ghost var m := draft.model;
    if Deletable(m, tag) {
      AlwaysLive(norm, m, tag);
    }
    r := draft.DeleteExit(tag, rulesets);
    if r.Ok? {
      DeletedOk(norm, m, draft.model, tag, rulesets, r.value);
    }
  }

  lemma DeletedOk(norm: Norm, m: Model, d: Model, tag: string, rulesets: map<string, string>,
                  after: map<string, string>)
    requires Valid(norm, m) && Deletable(m, tag)
    requires exists gone, fallback ::
               IsCascade(m.groups, {tag}, gone) && d == Deleted(m, tag, gone, fallback)
               && fallback in Targets(d) && after == Retargeted(rulesets, gone, fallback)
    ensures Valid(norm, d)
    ensures TargetsKnown(rulesets, m) ==> TargetsKnown(after, d)
  {
    var gone, fallback :| IsCascade(m.groups, {tag}, gone) && d == Deleted(m, tag, gone, fallback)
                          && fallback in Targets(d) && after == Retargeted(rulesets, gone, fallback);
    assert Targets(d) == Targets(Bare(m, tag, gone));
    DeleteKeepsValid(norm, m, tag, gone, fallback);
    if TargetsKnown(rulesets, m) {
      forall name | name in after ensures after[name] == "direct" || after[name] in Targets(d) {
        RulesetsFollow(m, tag, gone, fallback, rulesets[name]);
      }
    }
  }

  lemma GrowthEnds(all: set<string>, gone: set<string>, more: set<string>)
    requires more <= all && more !! gone && more != {}
    ensures |all - (gone + more)| < |all - gone|
  {
    assert all - gone == (all - (gone + more)) + more;
  }
}
