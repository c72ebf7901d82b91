/** Schema migration and rebinding of the direct tag (pdgmodel.py `migrate`, `rebind_direct*`). */
module ModelMigrate {
  import opened Common
  import opened Model
  import opened ModelRename

  /** A document as stored: schema 1 or 2 keeps groups as outbounds and Mihomo mirrors, schema 3 as policy groups. */
  datatype Raw = Raw(schema: int, outbounds: seq<Outbound>, groups: seq<Group>, mirrors: seq<Group>,
                     proxyProviders: map<string, Provider>, ruleProviders: map<string, Provider>,
                     rules: seq<Rule>, final: Option<string>, ruleSetTags: seq<string>, inbounds: seq<Inbound>)

  const DEFAULT_URL := "https://www.gstatic.com/generate_204"

  predicate IsLegacy(o: Outbound) {
    o.kind.Selector? || o.kind.UrlTestOut?
  }

  function Directs(outs: seq<Outbound>): seq<string> {
    if outs == [] then [] else (if outs[0].kind.Direct? then [outs[0].tag] else []) + Directs(outs[1..])
  }

  /** `direct_tag`: exactly one direct outbound, with a machine tag. */
  function DirectOf(outs: seq<Outbound>): Option<string> {
    var ds := Directs(outs);
    if |ds| == 1 && MachineTag(ds[0]) then Some(ds[0]) else None
  }

  // ---- legacy groups ----

  function Or<T>(x: Option<T>, default_: T): Option<T> {
    if x.Some? then x else Some(default_)
  }

  /** `_canonical_group`. */
  function CanonicalGroup(o: Outbound, direct: string): Group {
    Group(o.tag, if o.kind.Selector? then Select else UrlTest, SwapAll(o.members, "DIRECT", direct), [],
          if o.kind.Selector? then Probe(None, None, None)
          else Probe(Or(o.probe.url, DEFAULT_URL), Or(o.probe.interval, 180), Or(o.probe.tolerance, 50)))
  }

  function CanonicalGroups(outs: seq<Outbound>, direct: string): seq<Group> {
    if outs == [] then [] else
    (if IsLegacy(outs[0]) then [CanonicalGroup(outs[0], direct)] else []) + CanonicalGroups(outs[1..], direct)
  }

  function SwapProxies(groups: seq<Group>, old_: string, new_: string): seq<Group> {
    seq(|groups|, i requires 0 <= i < |groups| => groups[i].(proxies := SwapAll(groups[i].proxies, old_, new_)))
  }

  predicate Representable(g: Group) {
    g.uses == [] && "REJECT" !in g.proxies
  }

  /** The two legacy representations of one group say the same. */
  predicate Agree(canonical: Group, mirror: Group) {
    && mirror.kind == canonical.kind && Representable(mirror) && mirror.proxies == canonical.proxies
    && (canonical.kind.UrlTest? ==>
          && Or(mirror.probe.url, DEFAULT_URL) == Or(canonical.probe.url, DEFAULT_URL)
          && Or(mirror.probe.interval, 180) == Or(canonical.probe.interval, 180)
          && Or(mirror.probe.tolerance, 50) == Or(canonical.probe.tolerance, 50))
  }

  ghost predicate LegacyOk(norm: Norm, schema: int, canonical: seq<Group>, mirrors: seq<Group>) {
    && (forall c | c in canonical :: ValidName(norm, c.name)) && DistinctNames(canonical)
    && (forall g | g in mirrors :: ValidName(norm, g.name)) && DistinctNames(mirrors)
    && (forall c, g | c in canonical && g in mirrors && c.name == g.name :: Agree(c, g))
    && (forall c | c in canonical && c.name !in GroupNames(mirrors) :: schema != 2)
    && (forall g | g in mirrors && g.name !in GroupNames(canonical) ::
          !((g.kind.Select? || g.kind.UrlTest?) && Representable(g)))
  }

  /** Groups of `canonical` whose name no mirror has. */
  function Unmirrored(canonical: seq<Group>, mirrors: set<string>): seq<Group> {
    if canonical == [] then [] else
    (if canonical[0].name in mirrors then [] else [canonical[0]]) + Unmirrored(canonical[1..], mirrors)
  }

  /** `_legacy_groups`: mirrors in their order, then groups that only schema 1 may lack a mirror for. */
  function LegacyGroups(canonical: seq<Group>, mirrors: seq<Group>): seq<Group> {
    mirrors + Unmirrored(canonical, GroupNames(mirrors))
  }

  function NonLegacy(outs: seq<Outbound>): seq<Outbound> {
    if outs == [] then [] else (if IsLegacy(outs[0]) then [] else [outs[0]]) + NonLegacy(outs[1..])
  }

  /** The document in schema-3 layout, names still as stored. */
  ghost function Laid(norm: Norm, raw: Raw): Option<Model> {
    if DirectOf(raw.outbounds).None? then None else
    var direct := DirectOf(raw.outbounds).value;
    if raw.schema == 3 then
      if (exists o :: o in raw.outbounds && IsLegacy(o)) || raw.mirrors != [] then None else
      Some(Model(raw.outbounds, raw.groups, raw.proxyProviders, raw.ruleProviders, raw.rules, raw.final,
                 raw.ruleSetTags, raw.inbounds))
    else if raw.schema == 1 || raw.schema == 2 then
      var canonical := CanonicalGroups(raw.outbounds, direct);
      var mirrors := SwapProxies(raw.mirrors, "DIRECT", direct);
      if raw.groups != [] || !LegacyOk(norm, raw.schema, canonical, mirrors) then None else
      Some(Model(NonLegacy(raw.outbounds), LegacyGroups(canonical, mirrors), raw.proxyProviders, raw.ruleProviders,
                 raw.rules, raw.final, raw.ruleSetTags, raw.inbounds))
    else None
  }

  // ---- `_canonicalize_user_names` ----

  function N(norm: Norm, s: string): string {
    if norm(s).Some? then norm(s).value else s
  }

  function NAll(norm: Norm, xs: seq<string>): seq<string> {
    seq(|xs|, i requires 0 <= i < |xs| => N(norm, xs[i]))
  }

  function NOption(norm: Norm, x: Option<string>): Option<string> {
    if x.Some? then Some(N(norm, x.value)) else None
  }

  ghost predicate Known(norm: Norm, xs: seq<string>) {
    forall x | x in xs :: norm(x).Some?
  }

  /** Every name normalizes, and provider names do not collide once normalized. */
  ghost predicate Canonizable(norm: Norm, m: Model) {
    && (forall o | o in m.outbounds :: (o.kind.Proxy? ==> norm(o.tag).Some?) && Known(norm, o.members)
                                       && (o.detour.Some? ==> norm(o.detour.value).Some?))
    && (forall g | g in m.groups :: norm(g.name).Some? && Known(norm, g.proxies) && Known(norm, g.uses))
    && NoCollision(norm, m.proxyProviders) && NoCollision(norm, m.ruleProviders)
    && (m.final.Some? ==> norm(m.final.value).Some?)
    && (forall r | r in m.rules :: (r.outbound.Some? ==> norm(r.outbound.value).Some?)
                                   && (r.ruleSet.Some? ==> norm(r.ruleSet.value).Some?))
    && Known(norm, m.ruleSetTags)
  }

  ghost predicate NoCollision(norm: Norm, p: map<string, Provider>) {
    && (forall k | k in p :: norm(k).Some?)
    && (forall j, k | j in p && k in p && N(norm, j) == N(norm, k) :: j == k)
  }

  ghost function CanonProviders(norm: Norm, p: map<string, Provider>): map<string, Provider>
    requires NoCollision(norm, p)
  {
    map k | k in p :: N(norm, k) := p[k]
  }

  function CanonOutbounds(norm: Norm, outs: seq<Outbound>): seq<Outbound> {
    seq(|outs|, i requires 0 <= i < |outs| =>
      outs[i].(tag := if outs[i].kind.Proxy? then N(norm, outs[i].tag) else outs[i].tag,
               detour := NOption(norm, outs[i].detour), members := NAll(norm, outs[i].members)))
  }

  function CanonGroups(norm: Norm, groups: seq<Group>): seq<Group> {
    seq(|groups|, i requires 0 <= i < |groups| =>
      groups[i].(name := N(norm, groups[i].name), proxies := NAll(norm, groups[i].proxies),
                 uses := NAll(norm, groups[i].uses)))
  }

  function CanonRules(norm: Norm, rules: seq<Rule>): seq<Rule> {
    seq(|rules|, i requires 0 <= i < |rules| =>
      rules[i].(outbound := NOption(norm, rules[i].outbound), ruleSet := NOption(norm, rules[i].ruleSet)))
  }

  ghost function Canon(norm: Norm, m: Model): Model
    requires Canonizable(norm, m)
  {
    Model(CanonOutbounds(norm, m.outbounds), CanonGroups(norm, m.groups),
          CanonProviders(norm, m.proxyProviders), CanonProviders(norm, m.ruleProviders),
          CanonRules(norm, m.rules), NOption(norm, m.final), NAll(norm, m.ruleSetTags), m.inbounds)
  }

  /** `migrate`: the validated schema-3 view, or `None` when the document is refused. */
  ghost function Migrated(norm: Norm, raw: Raw): Option<Model> {
    match Laid(norm, raw)
    case None => None
    case Some(m) =>
      if Canonizable(norm, m) && Valid(norm, Canon(norm, m)) then Some(Canon(norm, m)) else None
  }

  // ---- rebinding ----

  /** `rebind_direct`: migrate, check for collisions, rename the direct tag everywhere, validate. */
  ghost function Rebound(norm: Norm, raw: Raw, new_: string): Option<Model> {
    match Migrated(norm, raw)
    case None => None
    case Some(m) =>
      if !MachineTag(new_) || DirectOf(m.outbounds).None? then None else
      var old_ := DirectOf(m.outbounds).value;
      if new_ == old_ then Some(m) else
      if new_ in RESERVED || new_ in Names(m) - {old_} then None else
      var r := Rename(m, old_, new_);
      if Valid(norm, r) then Some(r) else None
  }

  function RebindOutbounds(outs: seq<Outbound>, old_: string, new_: string): seq<Outbound> {
    seq(|outs|, i requires 0 <= i < |outs| =>
      if outs[i].kind.Direct? then outs[i].(tag := new_)
      else if IsLegacy(outs[i]) then outs[i].(members := SwapAll(outs[i].members, old_, new_))
      else outs[i])
  }

  /** The rewrite that keeps the stored schema. */
  function RebindRaw(raw: Raw, old_: string, new_: string): Raw {
    raw.(outbounds := RebindOutbounds(raw.outbounds, old_, new_),
         groups := SwapProxies(raw.groups, old_, new_), mirrors := SwapProxies(raw.mirrors, old_, new_),
         final := SwapOption(raw.final, old_, new_), rules := RenameRules(raw.rules, old_, new_))
  }

  /** `rebind_direct_preserve_schema`. */
  ghost function Preserved(norm: Norm, raw: Raw, new_: string): Option<Raw> {
    if DirectOf(raw.outbounds).None? || !MachineTag(new_) || Rebound(norm, raw, new_).None? then None else
    var old_ := DirectOf(raw.outbounds).value;
    if old_ == new_ then Some(raw) else
    var r := RebindRaw(raw, old_, new_);
    if Migrated(norm, r).None? then None else Some(r)
  }

  // ---- the two rebindings agree ----

  /** What the raw rewrite does to the schema-3 layout. */
  function RebindLaid(m: Model, old_: string, new_: string): Model {
    m.(outbounds := RebindOutbounds(m.outbounds, old_, new_), groups := SwapProxies(m.groups, old_, new_),
       final := SwapOption(m.final, old_, new_), rules := RenameRules(m.rules, old_, new_))
  }

  lemma {:induction false} DirectsRebound(outs: seq<Outbound>, old_: string, new_: string)
    ensures |Directs(RebindOutbounds(outs, old_, new_))| == |Directs(outs)|
    ensures forall x | x in Directs(RebindOutbounds(outs, old_, new_)) :: x == new_
  {
    if outs != [] {
      DirectsRebound(outs[1..], old_, new_);
      assert RebindOutbounds(outs, old_, new_)[1..] == RebindOutbounds(outs[1..], old_, new_);
    }
  }

  lemma {:induction false} NonLegacyRebound(outs: seq<Outbound>, old_: string, new_: string)
    ensures NonLegacy(RebindOutbounds(outs, old_, new_)) == RebindOutbounds(NonLegacy(outs), old_, new_)
  {
    if outs != [] {
      NonLegacyRebound(outs[1..], old_, new_);
      assert RebindOutbounds(outs, old_, new_)[1..] == RebindOutbounds(outs[1..], old_, new_);
    }
  }

  /** DIRECT means the direct tag before and after; neither name is DIRECT itself. */
  lemma DirectAliasFollows(xs: seq<string>, old_: string, new_: string)
    requires old_ != "DIRECT" && new_ != "DIRECT"
    ensures SwapAll(SwapAll(xs, old_, new_), "DIRECT", new_) == SwapAll(SwapAll(xs, "DIRECT", old_), old_, new_)
  {
  }

  lemma {:induction false} CanonicalRebound(outs: seq<Outbound>, old_: string, new_: string)
    requires old_ != "DIRECT" && new_ != "DIRECT"
    ensures CanonicalGroups(RebindOutbounds(outs, old_, new_), new_)
            == SwapProxies(CanonicalGroups(outs, old_), old_, new_)
  {
    if outs != [] {
      CanonicalRebound(outs[1..], old_, new_);
      assert RebindOutbounds(outs, old_, new_)[1..] == RebindOutbounds(outs[1..], old_, new_);
      if IsLegacy(outs[0]) {
        DirectAliasFollows(outs[0].members, old_, new_);
        var g := CanonicalGroup(outs[0], old_);
        assert CanonicalGroup(RebindOutbounds(outs, old_, new_)[0], new_)
               == g.(proxies := SwapAll(g.proxies, old_, new_));
        var rest := CanonicalGroups(outs[1..], old_);
        assert SwapProxies([g] + rest, old_, new_)
               == [g.(proxies := SwapAll(g.proxies, old_, new_))] + SwapProxies(rest, old_, new_);
      }
    }
  }

  lemma MirrorsRebound(mirrors: seq<Group>, old_: string, new_: string)
    requires old_ != "DIRECT" && new_ != "DIRECT"
    ensures SwapProxies(SwapProxies(mirrors, old_, new_), "DIRECT", new_)
            == SwapProxies(SwapProxies(mirrors, "DIRECT", old_), old_, new_)
  {
    forall i | 0 <= i < |mirrors|
      ensures SwapProxies(SwapProxies(mirrors, old_, new_), "DIRECT", new_)[i]
              == SwapProxies(SwapProxies(mirrors, "DIRECT", old_), old_, new_)[i]
    {
      DirectAliasFollows(mirrors[i].proxies, old_, new_);
    }
  }

  lemma SwappedFrom(groups: seq<Group>, old_: string, new_: string, g': Group) returns (g: Group)
    requires g' in SwapProxies(groups, old_, new_)
    ensures g in groups && g' == g.(proxies := SwapAll(g.proxies, old_, new_))
  {
    var i :| 0 <= i < |groups| && SwapProxies(groups, old_, new_)[i] == g';
    g := groups[i];
  }

  lemma SwapKeepsNames(groups: seq<Group>, old_: string, new_: string)
    ensures GroupNames(SwapProxies(groups, old_, new_)) == GroupNames(groups)
  {
    var swapped := SwapProxies(groups, old_, new_);
    forall g | g in groups ensures g.name in GroupNames(swapped) {
      var i :| 0 <= i < |groups| && groups[i] == g;
      assert swapped[i].name == g.name && swapped[i] in swapped;
    }
    forall g' | g' in swapped ensures g'.name in GroupNames(groups) {
      var g := SwappedFrom(groups, old_, new_, g');
    }
  }

  lemma SwapKeepsRepresentable(g: Group, old_: string, new_: string)
    requires old_ != "REJECT" && new_ != "REJECT"
    ensures Representable(g.(proxies := SwapAll(g.proxies, old_, new_))) <==> Representable(g)
  {
    SwapMembers(g.proxies, old_, new_);
  }

  lemma LegacyOkRebound(norm: Norm, schema: int, canonical: seq<Group>, mirrors: seq<Group>, old_: string, new_: string)
    requires LegacyOk(norm, schema, canonical, mirrors) && old_ != "REJECT" && new_ != "REJECT"
    ensures LegacyOk(norm, schema, SwapProxies(canonical, old_, new_), SwapProxies(mirrors, old_, new_))
  {
    var c1, m1 := SwapProxies(canonical, old_, new_), SwapProxies(mirrors, old_, new_);
    SwapKeepsNames(canonical, old_, new_);
    SwapKeepsNames(mirrors, old_, new_);
    forall c' | c' in c1 ensures ValidName(norm, c'.name) && (c'.name !in GroupNames(m1) ==> schema != 2) {
      var c := SwappedFrom(canonical, old_, new_, c');
    }
    forall g' | g' in m1
      ensures ValidName(norm, g'.name)
      ensures g'.name !in GroupNames(c1) ==> !((g'.kind.Select? || g'.kind.UrlTest?) && Representable(g'))
    {
      var g := SwappedFrom(mirrors, old_, new_, g');
      SwapKeepsRepresentable(g, old_, new_);
    }
    forall c', g' | c' in c1 && g' in m1 && c'.name == g'.name ensures Agree(c', g') {
      var c := SwappedFrom(canonical, old_, new_, c');
      var g := SwappedFrom(mirrors, old_, new_, g');
      SwapKeepsRepresentable(g, old_, new_);
    }
  }

  lemma {:induction false} UnmirroredRebound(canonical: seq<Group>, names: set<string>, old_: string, new_: string)
    ensures Unmirrored(SwapProxies(canonical, old_, new_), names)
            == SwapProxies(Unmirrored(canonical, names), old_, new_)
  {
    if canonical != [] {
      UnmirroredRebound(canonical[1..], names, old_, new_);
      assert SwapProxies(canonical, old_, new_)[1..] == SwapProxies(canonical[1..], old_, new_);
    }
  }

  lemma LegacyGroupsRebound(canonical: seq<Group>, mirrors: seq<Group>, old_: string, new_: string)
    ensures LegacyGroups(SwapProxies(canonical, old_, new_), SwapProxies(mirrors, old_, new_))
            == SwapProxies(LegacyGroups(canonical, mirrors), old_, new_)
  {
    SwapKeepsNames(mirrors, old_, new_);
    UnmirroredRebound(canonical, GroupNames(mirrors), old_, new_);
  }

  lemma LegacyStays(outs: seq<Outbound>, old_: string, new_: string)
    ensures (exists o :: o in RebindOutbounds(outs, old_, new_) && IsLegacy(o)) <==>
            (exists o :: o in outs && IsLegacy(o))
  {
    var outs' := RebindOutbounds(outs, old_, new_);
    if o' :| o' in outs' && IsLegacy(o') {
      var i :| 0 <= i < |outs'| && outs'[i] == o';
      assert outs[i] in outs && IsLegacy(outs[i]);
    }
    if o :| o in outs && IsLegacy(o) {
      var i :| 0 <= i < |outs| && outs[i] == o;
      assert outs'[i] in outs' && IsLegacy(outs'[i]);
    }
  }

  lemma LaidRebound(norm: Norm, raw: Raw, old_: string, new_: string)
    requires Laid(norm, raw).Some? && DirectOf(raw.outbounds) == Some(old_) && MachineTag(new_)
    requires old_ !in RESERVED && new_ !in RESERVED
    ensures Laid(norm, RebindRaw(raw, old_, new_)) == Some(RebindLaid(Laid(norm, raw).value, old_, new_))
  {
    var r := RebindRaw(raw, old_, new_);
    DirectsRebound(raw.outbounds, old_, new_);
    assert DirectOf(r.outbounds) == Some(new_) by {
      assert Directs(r.outbounds)[0] in Directs(r.outbounds);
    }
    if raw.schema == 3 {
      LegacyStays(raw.outbounds, old_, new_);
    } else {
      var canonical := CanonicalGroups(raw.outbounds, old_);
      var mirrors := SwapProxies(raw.mirrors, "DIRECT", old_);
      CanonicalRebound(raw.outbounds, old_, new_);
      MirrorsRebound(raw.mirrors, old_, new_);
      LegacyOkRebound(norm, raw.schema, canonical, mirrors, old_, new_);
      LegacyGroupsRebound(canonical, mirrors, old_, new_);
      NonLegacyRebound(raw.outbounds, old_, new_);
    }
  }

  // ---- normalization and the rewrite ----

  /** No reference spells the direct tag in a form that only normalization would recognize. */
  ghost predicate NoAlias(norm: Norm, m: Model, old_: string) {
    && (forall g, x | g in m.groups && x in g.proxies && norm(x) == Some(old_) :: x == old_)
    && (m.final.Some? && norm(m.final.value) == Some(old_) ==> m.final == Some(old_))
    && (forall r | r in m.rules && r.outbound.Some? && norm(r.outbound.value) == Some(old_) :: r.outbound == Some(old_))
  }

  lemma CanonizableRebound(norm: Norm, m: Model, old_: string, new_: string)
    requires Canonizable(norm, m) && norm(new_) == Some(new_)
    requires forall o | o in m.outbounds :: !IsLegacy(o)
    ensures Canonizable(norm, RebindLaid(m, old_, new_))
  {
  }

  lemma SwapThenN(norm: Norm, x: string, old_: string, new_: string)
    requires norm(new_) == Some(new_) && norm(old_) == Some(old_) && norm(x).Some?
    requires norm(x) == Some(old_) ==> x == old_
    ensures N(norm, Swap(x, old_, new_)) == Swap(N(norm, x), old_, new_)
  {
  }

  lemma CanonOutboundsRebound(norm: Norm, outs: seq<Outbound>, old_: string, new_: string)
    requires forall o | o in outs :: !IsLegacy(o) && (o.kind.Direct? ==> o.tag == old_)
    requires forall o | o in CanonOutbounds(norm, outs) && o.tag == old_ :: o.kind.Direct?
    ensures CanonOutbounds(norm, RebindOutbounds(outs, old_, new_))
            == RenameOutbounds(CanonOutbounds(norm, outs), old_, new_)
  {
  }

  lemma CanonGroupsRebound(norm: Norm, groups: seq<Group>, old_: string, new_: string)
    requires norm(new_) == Some(new_) && norm(old_) == Some(old_)
    requires forall g | g in groups :: N(norm, g.name) != old_ && Known(norm, g.proxies)
    requires forall g, x | g in groups && x in g.proxies && norm(x) == Some(old_) :: x == old_
    ensures CanonGroups(norm, SwapProxies(groups, old_, new_)) == RenameGroups(CanonGroups(norm, groups), old_, new_)
  {
    forall i | 0 <= i < |groups|
      ensures CanonGroups(norm, SwapProxies(groups, old_, new_))[i]
              == RenameGroups(CanonGroups(norm, groups), old_, new_)[i]
    {
      var g := groups[i];
      assert g in groups;
      forall j | 0 <= j < |g.proxies|
        ensures NAll(norm, SwapAll(g.proxies, old_, new_))[j] == SwapAll(NAll(norm, g.proxies), old_, new_)[j]
      {
        assert g.proxies[j] in g.proxies;
        SwapThenN(norm, g.proxies[j], old_, new_);
      }
      assert NAll(norm, SwapAll(g.proxies, old_, new_)) == SwapAll(NAll(norm, g.proxies), old_, new_);
    }
  }

  lemma CanonRulesRebound(norm: Norm, rules: seq<Rule>, old_: string, new_: string)
    requires norm(new_) == Some(new_) && norm(old_) == Some(old_)
    requires forall r | r in rules && r.outbound.Some? :: norm(r.outbound.value).Some?
    requires forall r | r in rules && r.outbound.Some? && norm(r.outbound.value) == Some(old_) ::
               r.outbound == Some(old_)
    ensures CanonRules(norm, RenameRules(rules, old_, new_)) == RenameRules(CanonRules(norm, rules), old_, new_)
  {
  }

  // ---- the direct outbound through all of this ----

  lemma {:induction false} DirectsMeaning(outs: seq<Outbound>)
    ensures forall x :: x in Directs(outs) <==> exists o :: o in outs && o.kind.Direct? && o.tag == x
  {
    if outs != [] {
      DirectsMeaning(outs[1..]);
      assert outs == [outs[0]] + outs[1..];
    }
  }

  lemma {:induction false} DirectsOfNonLegacy(outs: seq<Outbound>)
    ensures Directs(NonLegacy(outs)) == Directs(outs)
    ensures forall o | o in NonLegacy(outs) :: !IsLegacy(o)
  {
    if outs != [] {
      var rest := NonLegacy(outs[1..]);
      DirectsOfNonLegacy(outs[1..]);
      assert NonLegacy(outs) == if IsLegacy(outs[0]) then rest else [outs[0]] + rest;
    }
  }

  lemma {:induction false} DirectsOfCanon(norm: Norm, outs: seq<Outbound>)
    ensures Directs(CanonOutbounds(norm, outs)) == Directs(outs)
  {
    if outs != [] {
      DirectsOfCanon(norm, outs[1..]);
      assert CanonOutbounds(norm, outs)[1..] == CanonOutbounds(norm, outs[1..]);
    }
  }

  /** The layout keeps the one direct outbound and holds no legacy group outbound. */
  lemma LaidDirect(norm: Norm, raw: Raw)
    requires Laid(norm, raw).Some?
    ensures var outs := Laid(norm, raw).value.outbounds;
            && DirectOf(outs) == DirectOf(raw.outbounds)
            && (forall o | o in outs :: !IsLegacy(o))
            && (forall o | o in outs && o.kind.Direct? :: DirectOf(raw.outbounds) == Some(o.tag))
  {
    var outs := if raw.schema == 3 then raw.outbounds else NonLegacy(raw.outbounds);
    assert Laid(norm, raw).value.outbounds == outs;
    DirectsOfNonLegacy(raw.outbounds);
    TheOneDirect(outs);
  }

  lemma TheOneDirect(outs: seq<Outbound>)
    requires DirectOf(outs).Some?
    ensures forall o | o in outs && o.kind.Direct? :: DirectOf(outs) == Some(o.tag)
  {
    DirectsMeaning(outs);
    forall o | o in outs && o.kind.Direct? ensures DirectOf(outs) == Some(o.tag) {
      assert o.tag in Directs(outs);
    }
  }

  /** In a migrated model only the direct outbound carries the direct tag, and no group does. */
  lemma DirectIsUnique(norm: Norm, m: Model, old_: string)
    requires Valid(norm, m) && DirectOf(m.outbounds) == Some(old_)
    ensures old_ !in RESERVED && MachineTag(old_)
    ensures exists o :: o in m.outbounds && o.kind.Direct? && o.tag == old_
    ensures forall o | o in m.outbounds && o.tag == old_ :: o.kind.Direct?
    ensures forall g | g in m.groups :: g.name != old_
  {
    DirectsMeaning(m.outbounds);
    assert old_ in Directs(m.outbounds);
    var d :| d in m.outbounds && d.kind.Direct? && d.tag == old_;
    var t :| IsTheDirect(m.outbounds, t) && MachineTag(t.tag) && t.tag !in RESERVED;
    forall o | o in m.outbounds && o.tag == old_ ensures o.kind.Direct? {
      SameTag(m.outbounds, o, d);
    }
    assert old_ in Tags(m.outbounds);
    assert forall g | g in m.groups :: g.name in GroupNames(m.groups);
  }

  /** A stored document that migrates, its direct tag, and a different legal new one. */
  ghost predicate Rebindable(norm: Norm, raw: Raw, old_: string, new_: string) {
    && NormLaws(norm) && Laid(norm, raw).Some? && Canonizable(norm, Laid(norm, raw).value)
    && Valid(norm, Canon(norm, Laid(norm, raw).value))
    && DirectOf(raw.outbounds) == Some(old_) && old_ != new_ && MachineTag(new_) && new_ !in RESERVED
  }

  /** No group is named like the direct outbound. */
  lemma GroupsKeepClear(norm: Norm, groups: seq<Group>, old_: string)
    requires forall g | g in CanonGroups(norm, groups) :: g.name != old_
    ensures forall g | g in groups :: N(norm, g.name) != old_
  {
    forall g | g in groups ensures N(norm, g.name) != old_ {
      var i :| 0 <= i < |groups| && groups[i] == g;
      assert CanonGroups(norm, groups)[i] in CanonGroups(norm, groups);
    }
  }

  lemma RebindableFacts(norm: Norm, raw: Raw, old_: string, new_: string)
    requires Rebindable(norm, raw, old_, new_)
    ensures var m := Laid(norm, raw).value;
            var c := Canon(norm, m);
            && DirectOf(c.outbounds) == Some(old_) && old_ !in RESERVED
            && norm(old_) == Some(old_) && norm(new_) == Some(new_)
            && (forall o | o in m.outbounds :: !IsLegacy(o) && (o.kind.Direct? ==> o.tag == old_))
            && (forall o | o in c.outbounds && o.tag == old_ :: o.kind.Direct?)
            && (forall g | g in m.groups :: N(norm, g.name) != old_)
            && Laid(norm, RebindRaw(raw, old_, new_)) == Some(RebindLaid(m, old_, new_))
            && Canonizable(norm, RebindLaid(m, old_, new_))
  {
    var m := Laid(norm, raw).value;
    var c := Canon(norm, m);
    LaidDirect(norm, raw);
    DirectsOfCanon(norm, m.outbounds);
    DirectIsUnique(norm, c, old_);
    GroupsKeepClear(norm, m.groups, old_);
    LaidRebound(norm, raw, old_, new_);
    CanonizableRebound(norm, m, old_, new_);
  }

  /** Without aliases, rewriting the stored document and migrating is renaming the migrated model. */
  lemma CanonRebound(norm: Norm, raw: Raw, old_: string, new_: string)
    requires Rebindable(norm, raw, old_, new_) && NoAlias(norm, Laid(norm, raw).value, old_)
    ensures var m := Laid(norm, raw).value;
            Canonizable(norm, RebindLaid(m, old_, new_))
            && Canon(norm, RebindLaid(m, old_, new_)) == Rename(Canon(norm, m), old_, new_)
  {
    var m := Laid(norm, raw).value;
    RebindableFacts(norm, raw, old_, new_);
    CanonOutboundsRebound(norm, m.outbounds, old_, new_);
    CanonGroupsRebound(norm, m.groups, old_, new_);
    CanonRulesRebound(norm, m.rules, old_, new_);
    if m.final.Some? {
      SwapThenN(norm, m.final.value, old_, new_);
    }
  }

  lemma OldTagIsGone(norm: Norm, outs: seq<Outbound>, old_: string, new_: string)
    requires forall o | o in outs :: !IsLegacy(o) && (o.kind.Direct? ==> o.tag == old_)
    requires forall o | o in CanonOutbounds(norm, outs) && o.tag == old_ :: o.kind.Direct?
    requires old_ != new_
    ensures old_ !in RoutableTags(CanonOutbounds(norm, RebindOutbounds(outs, old_, new_)))
  {
    CanonOutboundsRebound(norm, outs, old_, new_);
    forall o' | o' in RenameOutbounds(CanonOutbounds(norm, outs), old_, new_) ensures o'.tag != old_ {
      var o := OutboundFrom(CanonOutbounds(norm, outs), old_, new_, o');
    }
  }

  lemma OldGroupIsGone(norm: Norm, groups: seq<Group>, old_: string, new_: string)
    requires forall g | g in groups :: N(norm, g.name) != old_
    ensures old_ !in GroupNames(CanonGroups(norm, SwapProxies(groups, old_, new_)))
  {
  }

  /** After the rewrite nothing answers to the old tag. */
  lemma OldIsGone(norm: Norm, raw: Raw, old_: string, new_: string)
    requires Rebindable(norm, raw, old_, new_)
    ensures Canonizable(norm, RebindLaid(Laid(norm, raw).value, old_, new_))
    ensures old_ !in Targets(Canon(norm, RebindLaid(Laid(norm, raw).value, old_, new_)))
  {
    RebindableFacts(norm, raw, old_, new_);
    OldTagIsGone(norm, Laid(norm, raw).value.outbounds, old_, new_);
    OldGroupIsGone(norm, Laid(norm, raw).value.groups, old_, new_);
  }

  /** An alias of the old tag is left behind by the rewrite, so the rewritten document no longer validates. */
  lemma AliasBreaks(norm: Norm, raw: Raw, old_: string, new_: string)
    requires Rebindable(norm, raw, old_, new_) && !NoAlias(norm, Laid(norm, raw).value, old_)
    ensures Migrated(norm, RebindRaw(raw, old_, new_)) == None
  {
    OldIsGone(norm, raw, old_, new_);
    RebindableFacts(norm, raw, old_, new_);
    AliasDangles(norm, Laid(norm, raw).value, old_, new_);
  }

  lemma AliasDangles(norm: Norm, m: Model, old_: string, new_: string)
    requires !NoAlias(norm, m, old_) && Canonizable(norm, RebindLaid(m, old_, new_))
    requires old_ !in Targets(Canon(norm, RebindLaid(m, old_, new_))) && old_ !in RESERVED
    ensures !Valid(norm, Canon(norm, RebindLaid(m, old_, new_)))
  {
    var c' := Canon(norm, RebindLaid(m, old_, new_));
    if g, x :| g in m.groups && x in g.proxies && norm(x) == Some(old_) && x != old_ {
      AliasInGroup(norm, m, old_, new_, g, x);
      var h :| h in c'.groups && old_ in h.proxies;
      assert !MembersOk(c', h);
    } else if m.final.Some? && norm(m.final.value) == Some(old_) && m.final != Some(old_) {
      assert c'.final == Some(old_);
    } else {
      var r :| r in m.rules && r.outbound.Some? && norm(r.outbound.value) == Some(old_) && r.outbound != Some(old_);
      AliasInRule(norm, m, old_, new_, r);
      var q :| q in c'.rules && q.outbound == Some(old_);
      assert !RouteOk(c');
    }
  }

  lemma AliasInGroup(norm: Norm, m: Model, old_: string, new_: string, g: Group, x: string)
    requires g in m.groups && x in g.proxies && norm(x) == Some(old_) && x != old_
    requires Canonizable(norm, RebindLaid(m, old_, new_))
    ensures exists h :: h in Canon(norm, RebindLaid(m, old_, new_)).groups && old_ in h.proxies
  {
    var c' := Canon(norm, RebindLaid(m, old_, new_));
    var i :| 0 <= i < |m.groups| && m.groups[i] == g;
    var j :| 0 <= j < |g.proxies| && g.proxies[j] == x;
    assert c'.groups[i].proxies[j] == old_;
    assert c'.groups[i] in c'.groups;
  }

  lemma AliasInRule(norm: Norm, m: Model, old_: string, new_: string, r: Rule)
    requires r in m.rules && r.outbound.Some? && norm(r.outbound.value) == Some(old_) && r.outbound != Some(old_)
    requires Canonizable(norm, RebindLaid(m, old_, new_))
    ensures exists q :: q in Canon(norm, RebindLaid(m, old_, new_)).rules && q.outbound == Some(old_)
  {
    var c' := Canon(norm, RebindLaid(m, old_, new_));
    var i :| 0 <= i < |m.rules| && m.rules[i] == r;
    assert c'.rules[i].outbound == Some(old_);
  }

  // ---- main results ----

  /** Once the collision checks of `rebind_direct` pass, its final validation succeeds. */
  lemma ReboundNeverFailsLate(norm: Norm, raw: Raw, new_: string)
    requires NormLaws(norm) && Migrated(norm, raw).Some? && MachineTag(new_)
    ensures var m := Migrated(norm, raw).value;
            && DirectOf(m.outbounds).Some?
            && var old_ := DirectOf(m.outbounds).value;
               Rebound(norm, raw, new_) ==
                 if new_ == old_ then Some(m)
                 else if new_ in RESERVED || new_ in Names(m) then None
                 else Some(Rename(m, old_, new_))
  {
    var m := Laid(norm, raw).value;
    var c := Canon(norm, m);
    LaidDirect(norm, raw);
    DirectsOfCanon(norm, m.outbounds);
    var old_ := DirectOf(c.outbounds).value;
    DirectIsUnique(norm, c, old_);
    if new_ != old_ && new_ !in RESERVED && new_ !in Names(c) {
      RenameKeepsValid(norm, c, old_, new_);
    }
  }

  lemma RewrittenMigrates(norm: Norm, raw: Raw, old_: string, new_: string)
    requires Rebindable(norm, raw, old_, new_)
    requires Valid(norm, Rename(Canon(norm, Laid(norm, raw).value), old_, new_))
    ensures Migrated(norm, RebindRaw(raw, old_, new_)) ==
              if NoAlias(norm, Laid(norm, raw).value, old_)
              then Some(Rename(Canon(norm, Laid(norm, raw).value), old_, new_)) else None
  {
    RebindableFacts(norm, raw, old_, new_);
    if NoAlias(norm, Laid(norm, raw).value, old_) {
      CanonRebound(norm, raw, old_, new_);
    } else {
      AliasBreaks(norm, raw, old_, new_);
    }
  }

  /** What an accepted rebinding to a different tag amounts to. */
  lemma ReboundParts(norm: Norm, raw: Raw, old_: string, new_: string)
    requires NormLaws(norm) && Rebound(norm, raw, new_).Some? && DirectOf(raw.outbounds) == Some(old_) && new_ != old_
    ensures Rebindable(norm, raw, old_, new_)
    ensures Rebound(norm, raw, new_) == Some(Rename(Canon(norm, Laid(norm, raw).value), old_, new_))
    ensures Valid(norm, Rename(Canon(norm, Laid(norm, raw).value), old_, new_))
  {
    LaidDirect(norm, raw);
    DirectsOfCanon(norm, Laid(norm, raw).value.outbounds);
  }

  lemma SameTagRebinds(norm: Norm, raw: Raw, new_: string)
    requires NormLaws(norm) && DirectOf(raw.outbounds) == Some(new_)
    ensures Rebound(norm, raw, new_) == Migrated(norm, raw)
  {
    if Migrated(norm, raw).Some? {
      LaidDirect(norm, raw);
      DirectsOfCanon(norm, Laid(norm, raw).value.outbounds);
    }
  }

  /** Both rebinding forms give the same result, and the condition under which the second one gives any. */
  ghost predicate Commutes(norm: Norm, raw: Raw, old_: string, new_: string)
    requires DirectOf(raw.outbounds) == Some(old_)
  {
    && (Preserved(norm, raw, new_).Some? <==>
          Rebound(norm, raw, new_).Some? && (new_ == old_ || NoAlias(norm, Laid(norm, raw).value, old_)))
    && (Preserved(norm, raw, new_).Some? ==>
          Migrated(norm, Preserved(norm, raw, new_).value) == Rebound(norm, raw, new_))
  }

  lemma SameTagCommutes(norm: Norm, raw: Raw, tag: string)
    requires NormLaws(norm) && DirectOf(raw.outbounds) == Some(tag)
    ensures Commutes(norm, raw, tag, tag)
  {
    SameTagRebinds(norm, raw, tag);
  }

  lemma OtherTagCommutes(norm: Norm, raw: Raw, old_: string, new_: string)
    requires NormLaws(norm) && DirectOf(raw.outbounds) == Some(old_) && new_ != old_
    ensures Commutes(norm, raw, old_, new_)
  {
    if Rebound(norm, raw, new_).Some? {
      RewrittenCommutes(norm, raw, old_, new_);
    }
  }

  lemma RewrittenCommutes(norm: Norm, raw: Raw, old_: string, new_: string)
    requires NormLaws(norm) && Rebound(norm, raw, new_).Some? && DirectOf(raw.outbounds) == Some(old_) && new_ != old_
    ensures Migrated(norm, RebindRaw(raw, old_, new_)) ==
              if NoAlias(norm, Laid(norm, raw).value, old_) then Rebound(norm, raw, new_) else None
  {
    ReboundParts(norm, raw, old_, new_);
    RewrittenMigrates(norm, raw, old_, new_);
  }

  /**
    `rebind_direct_preserve_schema` returns a document exactly when `rebind_direct` accepts and no
    reference is an unnormalized spelling of the old direct tag; and that document then migrates to
    precisely what `rebind_direct` returns.
   */
  lemma RebindCommutesWithMigration(norm: Norm, raw: Raw, new_: string)
    requires NormLaws(norm) && DirectOf(raw.outbounds).Some?
    ensures var old_ := DirectOf(raw.outbounds).value;
            Preserved(norm, raw, new_).Some? <==>
              Rebound(norm, raw, new_).Some? && (new_ == old_ || NoAlias(norm, Laid(norm, raw).value, old_))
    ensures Preserved(norm, raw, new_).Some? ==>
              Migrated(norm, Preserved(norm, raw, new_).value) == Rebound(norm, raw, new_)
  {
    var old_ := DirectOf(raw.outbounds).value;
    if new_ == old_ {
      SameTagCommutes(norm, raw, new_);
    } else {
      OtherTagCommutes(norm, raw, old_, new_);
    }
  }
}
