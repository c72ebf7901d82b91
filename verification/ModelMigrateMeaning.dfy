/** What `migrate` (deploy/bot/pdgmodel.py) keeps of a stored document, entry by entry, and when it refuses one. */
module ModelMigrateMeaning {
  import opened Common
  import opened Model
  import opened ModelRename
  import opened ModelMigrate

  // ---- stored names and their normal forms ----

  ghost predicate ListNormal(norm: Norm, xs: seq<string>, ys: seq<string>) {
    |ys| == |xs| && forall i | 0 <= i < |xs| :: norm(xs[i]) == Some(ys[i])
  }

  ghost predicate OptionNormal(norm: Norm, x: Option<string>, y: Option<string>) {
    (x.None? <==> y.None?) && (x.Some? && y.Some? ==> norm(x.value) == Some(y.value))
  }

  /** A legacy member list, in which DIRECT stands for the direct exit. */
  ghost predicate MembersNormal(norm: Norm, direct: string, xs: seq<string>, ys: seq<string>) {
    |ys| == |xs| && forall i | 0 <= i < |xs| :: norm(if xs[i] == "DIRECT" then direct else xs[i]) == Some(ys[i])
  }

  ghost predicate OutboundNormal(norm: Norm, o: Outbound, p: Outbound) {
    && p.kind == o.kind && p.probe == o.probe
    && (if o.kind.Proxy? then norm(o.tag) == Some(p.tag) else p.tag == o.tag)
    && OptionNormal(norm, o.detour, p.detour) && ListNormal(norm, o.members, p.members)
  }

  ghost predicate GroupNormal(norm: Norm, g: Group, h: Group) {
    && norm(g.name) == Some(h.name) && h.kind == g.kind && h.probe == g.probe
    && ListNormal(norm, g.proxies, h.proxies) && ListNormal(norm, g.uses, h.uses)
  }

  /** A group stored as a Mihomo mirror. */
  ghost predicate MirrorNormal(norm: Norm, direct: string, g: Group, h: Group) {
    && h.name == g.name && h.kind == g.kind && h.probe == g.probe
    && MembersNormal(norm, direct, g.proxies, h.proxies) && ListNormal(norm, g.uses, h.uses)
  }

  /** A group stored as an outbound: what a `urltest` leaves open takes the default. */
  ghost predicate LegacyNormal(norm: Norm, direct: string, o: Outbound, h: Group) {
    && h.name == o.tag && h.kind == (if o.kind.Selector? then Select else UrlTest)
    && MembersNormal(norm, direct, o.members, h.proxies) && h.uses == []
    && h.probe == if o.kind.Selector? then Probe(None, None, None) else WithDefaults(o.probe)
  }

  function WithDefaults(p: Probe): Probe {
    Probe(if p.url.Some? then p.url else Some("https://www.gstatic.com/generate_204"),
          if p.interval.Some? then p.interval else Some(180),
          if p.tolerance.Some? then p.tolerance else Some(50))
  }

  ghost predicate RuleNormal(norm: Norm, r: Rule, q: Rule) {
    && q.(outbound := r.outbound, ruleSet := r.ruleSet) == r
    && OptionNormal(norm, r.outbound, q.outbound) && OptionNormal(norm, r.ruleSet, q.ruleSet)
  }

  /** Every entry is kept under the normal form of its name. */
  ghost predicate ProvidersNormal(norm: Norm, p: map<string, Provider>, q: map<string, Provider>) {
    && (forall k | k in p :: norm(k).Some? && norm(k).value in q && q[norm(k).value] == p[k])
    && (forall k | k in q :: exists j :: j in p && norm(j) == Some(k))
  }

  // ---- which documents have a schema-3 form ----

  ghost predicate TheDirect(outs: seq<Outbound>, direct: string) {
    exists i :: 0 <= i < |outs| && IsOnlyDirect(outs, i) && outs[i].tag == direct
  }

  ghost predicate IsOnlyDirect(outs: seq<Outbound>, i: int)
    requires 0 <= i < |outs|
  {
    outs[i].kind.Direct? && forall j | 0 <= j < |outs| && outs[j].kind.Direct? :: j == i
  }

  predicate IsGroupOutbound(o: Outbound) {
    o.kind.Selector? || o.kind.UrlTestOut?
  }

  predicate NotGroupOutbound(o: Outbound) {
    !IsGroupOutbound(o)
  }

  ghost predicate DistinctGroupTags(outs: seq<Outbound>) {
    forall i, j | 0 <= i < j < |outs| && IsGroupOutbound(outs[i]) && IsGroupOutbound(outs[j]) ::
      outs[i].tag != outs[j].tag
  }

  /** An outbound and a mirror of one name describe the same group. */
  ghost predicate SameGroup(direct: string, o: Outbound, g: Group) {
    && g.kind == (if o.kind.Selector? then Select else UrlTest) && g.uses == []
    && |g.proxies| == |o.members|
    && (forall i | 0 <= i < |g.proxies| ::
          && ReadDirect(g.proxies[i], direct) != "REJECT"
          && ReadDirect(g.proxies[i], direct) == ReadDirect(o.members[i], direct))
    && (o.kind.UrlTestOut? ==> WithDefaults(g.probe) == WithDefaults(o.probe))
  }

  function ReadDirect(x: string, direct: string): string {
    if x == "DIRECT" then direct else x
  }

  /** A mirror that could have been written as an outbound. */
  ghost predicate Editable(direct: string, g: Group) {
    && (g.kind.Select? || g.kind.UrlTest?) && g.uses == []
    && forall i | 0 <= i < |g.proxies| :: ReadDirect(g.proxies[i], direct) != "REJECT"
  }

  /** The two places in which groups were stored before schema 3 do not contradict each other. */
  ghost predicate LegacyAgrees(norm: Norm, raw: Raw, direct: string) {
    && raw.groups == [] && DistinctGroupTags(raw.outbounds) && DistinctNames(raw.mirrors)
    && (forall o | o in raw.outbounds && IsGroupOutbound(o) :: norm(o.tag) == Some(o.tag))
    && (forall g | g in raw.mirrors :: norm(g.name) == Some(g.name))
    && (forall o, g | o in raw.outbounds && IsGroupOutbound(o) && g in raw.mirrors && g.name == o.tag ::
          SameGroup(direct, o, g))
    && (raw.schema == 2 ==> forall o | o in raw.outbounds && IsGroupOutbound(o) ::
          exists g :: g in raw.mirrors && g.name == o.tag)
    && (forall g | g in raw.mirrors && Editable(direct, g) ::
          exists o :: o in raw.outbounds && IsGroupOutbound(o) && o.tag == g.name)
  }

  ghost predicate Acceptable(norm: Norm, raw: Raw, direct: string) {
    && TheDirect(raw.outbounds, direct) && MachineTag(direct)
    && if raw.schema == 3 then raw.mirrors == [] && forall o | o in raw.outbounds :: !IsGroupOutbound(o)
       else (raw.schema == 1 || raw.schema == 2) && LegacyAgrees(norm, raw, direct)
  }

  // ---- what is kept ----

  /** Group outbounds without a mirror. */
  function LacksMirror(mirrors: seq<Group>): Outbound -> bool {
    (o: Outbound) => IsGroupOutbound(o) && o.tag !in GroupNames(mirrors)
  }

  ghost function OutboundForm(norm: Norm): (Outbound, Outbound) -> bool {
    (o: Outbound, p: Outbound) => OutboundNormal(norm, o, p)
  }

  ghost function LegacyForm(norm: Norm, direct: string): (Outbound, Group) -> bool {
    (o: Outbound, h: Group) => LegacyNormal(norm, direct, o, h)
  }

  /** Groups of schema 3 one by one; before that the mirrors, then what only schema 1 may leave without one. */
  ghost predicate GroupsNormal(norm: Norm, raw: Raw, direct: string, groups: seq<Group>) {
    if raw.schema == 3 then
      |groups| == |raw.groups| && forall i | 0 <= i < |groups| :: GroupNormal(norm, raw.groups[i], groups[i])
    else
      && |groups| >= |raw.mirrors|
      && (forall i | 0 <= i < |raw.mirrors| :: MirrorNormal(norm, direct, raw.mirrors[i], groups[i]))
      && Sieved(raw.outbounds, groups[|raw.mirrors|..], LacksMirror(raw.mirrors), LegacyForm(norm, direct))
  }

  /** `m` is the stored document with names in normal form and group outbounds turned into groups; nothing is lost. */
  ghost predicate IsMigration(norm: Norm, raw: Raw, direct: string, m: Model) {
    && Sieved(raw.outbounds, m.outbounds, NotGroupOutbound, OutboundForm(norm))
    && GroupsNormal(norm, raw, direct, m.groups)
    && ProvidersNormal(norm, raw.proxyProviders, m.proxyProviders)
    && ProvidersNormal(norm, raw.ruleProviders, m.ruleProviders)
    && |m.rules| == |raw.rules| && (forall i | 0 <= i < |raw.rules| :: RuleNormal(norm, raw.rules[i], m.rules[i]))
    && OptionNormal(norm, raw.final, m.final) && ListNormal(norm, raw.ruleSetTags, m.ruleSetTags)
    && m.inbounds == raw.inbounds
  }

  // ---- the specification meets it ----

  lemma NAllIsNormal(norm: Norm, xs: seq<string>)
    requires Known(norm, xs)
    ensures ListNormal(norm, xs, NAll(norm, xs))
  {
    forall i | 0 <= i < |xs| ensures norm(xs[i]) == Some(NAll(norm, xs)[i]) {
      assert xs[i] in xs;
    }
  }

  lemma SwappedIsNormal(norm: Norm, direct: string, xs: seq<string>)
    requires Known(norm, SwapAll(xs, "DIRECT", direct))
    ensures MembersNormal(norm, direct, xs, NAll(norm, SwapAll(xs, "DIRECT", direct)))
  {
    var ys := SwapAll(xs, "DIRECT", direct);
    NAllIsNormal(norm, ys);
    assert forall i | 0 <= i < |xs| :: ys[i] == if xs[i] == "DIRECT" then direct else xs[i];
  }

  ghost predicate OutboundNameable(norm: Norm, o: Outbound) {
    && (o.kind.Proxy? ==> norm(o.tag).Some?) && Known(norm, o.members)
    && (o.detour.Some? ==> norm(o.detour.value).Some?)
  }

  lemma {:induction false} OutboundsKept(norm: Norm, outs: seq<Outbound>)
    requires forall o | o in NonLegacy(outs) :: OutboundNameable(norm, o)
    ensures Sieved(outs, CanonOutbounds(norm, NonLegacy(outs)), NotGroupOutbound, OutboundForm(norm))
  {
    if outs == [] {
      SieveEmpty(NotGroupOutbound, OutboundForm(norm));
      assert CanonOutbounds(norm, NonLegacy(outs)) == [];
    } else {
      var o, rest := outs[0], NonLegacy(outs[1..]);
      var head := if IsLegacy(o) then [] else [o];
      assert NonLegacy(outs) == head + rest;
      assert forall x | x in rest :: x in NonLegacy(outs);
      OutboundsKept(norm, outs[1..]);
      if !IsLegacy(o) {
        assert o in NonLegacy(outs);
        NAllIsNormal(norm, o.members);
      }
      assert CanonOutbounds(norm, head + rest) == CanonOutbounds(norm, head) + CanonOutbounds(norm, rest);
      SieveMore(outs, CanonOutbounds(norm, rest), NotGroupOutbound, OutboundForm(norm), CanonOutbounds(norm, head));
    }
  }

  lemma {:induction false} AllNonLegacy(outs: seq<Outbound>)
    requires forall o | o in outs :: !IsLegacy(o)
    ensures NonLegacy(outs) == outs
  {
    if outs != [] {
      AllNonLegacy(outs[1..]);
    }
  }

  ghost predicate GroupNameable(norm: Norm, g: Group) {
    norm(g.name).Some? && Known(norm, g.proxies) && Known(norm, g.uses)
  }

  lemma GroupsKept(norm: Norm, groups: seq<Group>)
    requires forall g | g in groups :: GroupNameable(norm, g)
    ensures forall i | 0 <= i < |groups| :: GroupNormal(norm, groups[i], CanonGroups(norm, groups)[i])
  {
    forall i | 0 <= i < |groups| ensures GroupNormal(norm, groups[i], CanonGroups(norm, groups)[i]) {
      assert groups[i] in groups;
      NAllIsNormal(norm, groups[i].proxies);
      NAllIsNormal(norm, groups[i].uses);
    }
  }

  lemma MirrorsKept(norm: Norm, direct: string, mirrors: seq<Group>)
    requires forall g | g in SwapProxies(mirrors, "DIRECT", direct) :: GroupNameable(norm, g)
    requires forall g | g in mirrors :: norm(g.name) == Some(g.name)
    ensures forall i | 0 <= i < |mirrors| ::
              MirrorNormal(norm, direct, mirrors[i], CanonGroups(norm, SwapProxies(mirrors, "DIRECT", direct))[i])
  {
    var swapped := SwapProxies(mirrors, "DIRECT", direct);
    forall i | 0 <= i < |mirrors| ensures MirrorNormal(norm, direct, mirrors[i], CanonGroups(norm, swapped)[i]) {
      assert mirrors[i] in mirrors && swapped[i] in swapped;
      SwappedIsNormal(norm, direct, mirrors[i].proxies);
      NAllIsNormal(norm, mirrors[i].uses);
    }
  }

  /** The groups that only schema 1 may leave without a mirror. */
  function Alone(outs: seq<Outbound>, direct: string, mirrors: seq<Group>): seq<Group> {
    Unmirrored(CanonicalGroups(outs, direct), GroupNames(mirrors))
  }

  lemma AloneStep(outs: seq<Outbound>, direct: string, mirrors: seq<Group>)
    requires outs != []
    ensures Alone(outs, direct, mirrors) ==
              (if LacksMirror(mirrors)(outs[0]) then [CanonicalGroup(outs[0], direct)] else [])
              + Alone(outs[1..], direct, mirrors)
  {
    var rest := CanonicalGroups(outs[1..], direct);
    if IsLegacy(outs[0]) {
      assert CanonicalGroups(outs, direct) == [CanonicalGroup(outs[0], direct)] + rest;
      assert ([CanonicalGroup(outs[0], direct)] + rest)[1..] == rest;
    } else {
      assert CanonicalGroups(outs, direct) == rest;
    }
  }

  lemma LegacyKept(norm: Norm, direct: string, o: Outbound)
    requires IsGroupOutbound(o) && norm(o.tag) == Some(o.tag) && GroupNameable(norm, CanonicalGroup(o, direct))
    ensures LegacyNormal(norm, direct, o, CanonGroups(norm, [CanonicalGroup(o, direct)])[0])
  {
    SwappedIsNormal(norm, direct, o.members);
    assert NAll(norm, []) == [];
  }

  lemma {:induction false} AloneKept(norm: Norm, direct: string, outs: seq<Outbound>, mirrors: seq<Group>)
    requires forall g | g in Alone(outs, direct, mirrors) :: GroupNameable(norm, g)
    requires forall o | o in outs && IsGroupOutbound(o) :: norm(o.tag) == Some(o.tag)
    ensures Sieved(outs, CanonGroups(norm, Alone(outs, direct, mirrors)), LacksMirror(mirrors),
                   LegacyForm(norm, direct))
  {
    if outs == [] {
      SieveEmpty(LacksMirror(mirrors), LegacyForm(norm, direct));
      assert CanonGroups(norm, Alone(outs, direct, mirrors)) == [];
    } else {
      var o, rest := outs[0], Alone(outs[1..], direct, mirrors);
      var head := if LacksMirror(mirrors)(o) then [CanonicalGroup(o, direct)] else [];
      AloneStep(outs, direct, mirrors);
      assert forall g | g in rest :: g in Alone(outs, direct, mirrors);
      AloneKept(norm, direct, outs[1..], mirrors);
      if LacksMirror(mirrors)(o) {
        assert head[0] in Alone(outs, direct, mirrors);
        LegacyKept(norm, direct, o);
      }
      AloneMore(norm, direct, outs, mirrors, head, rest);
    }
  }

  lemma AloneMore(norm: Norm, direct: string, outs: seq<Outbound>, mirrors: seq<Group>, head: seq<Group>,
                  rest: seq<Group>)
    requires outs != []
    requires Sieved(outs[1..], CanonGroups(norm, rest), LacksMirror(mirrors), LegacyForm(norm, direct))
    requires if LacksMirror(mirrors)(outs[0])
             then |head| == 1 && LegacyNormal(norm, direct, outs[0], CanonGroups(norm, head)[0]) else head == []
    ensures Sieved(outs, CanonGroups(norm, head + rest), LacksMirror(mirrors), LegacyForm(norm, direct))
  {
    assert CanonGroups(norm, head + rest) == CanonGroups(norm, head) + CanonGroups(norm, rest);
    SieveMore(outs, CanonGroups(norm, rest), LacksMirror(mirrors), LegacyForm(norm, direct), CanonGroups(norm, head));
  }

  lemma ProvidersKept(norm: Norm, p: map<string, Provider>)
    requires NoCollision(norm, p)
    ensures ProvidersNormal(norm, p, CanonProviders(norm, p))
  {
  }

  lemma RulesKept(norm: Norm, rules: seq<Rule>)
    requires forall r | r in rules :: (r.outbound.Some? ==> norm(r.outbound.value).Some?)
                                      && (r.ruleSet.Some? ==> norm(r.ruleSet.value).Some?)
    ensures forall i | 0 <= i < |rules| :: RuleNormal(norm, rules[i], CanonRules(norm, rules)[i])
  {
    forall i | 0 <= i < |rules| ensures RuleNormal(norm, rules[i], CanonRules(norm, rules)[i]) {
      assert rules[i] in rules;
    }
  }

  // ---- when there is a schema-3 form ----

  lemma {:induction false} DirectsCount(outs: seq<Outbound>)
    ensures Directs(outs) == [] <==> forall j | 0 <= j < |outs| :: !outs[j].kind.Direct?
    ensures forall direct :: Directs(outs) == [direct] <==> TheDirect(outs, direct)
  {
    if outs != [] {
      var rest := outs[1..];
      DirectsCount(rest);
      forall direct ensures Directs(outs) == [direct] <==> TheDirect(outs, direct) {
        OneDirectStep(outs, direct);
      }
    }
  }

  lemma OneDirectStep(outs: seq<Outbound>, direct: string)
    requires outs != []
    ensures TheDirect(outs, direct) <==>
              if outs[0].kind.Direct? then outs[0].tag == direct && forall j | 0 <= j < |outs| - 1 ::
                                             !outs[1..][j].kind.Direct?
              else TheDirect(outs[1..], direct)
  {
    var rest := outs[1..];
    assert forall j | 0 <= j < |rest| :: rest[j] == outs[j + 1];
    if TheDirect(outs, direct) {
      var i :| 0 <= i < |outs| && IsOnlyDirect(outs, i) && outs[i].tag == direct;
      if i > 0 {
        assert IsOnlyDirect(rest, i - 1);
      }
    }
    if !outs[0].kind.Direct? && TheDirect(rest, direct) {
      var i :| 0 <= i < |rest| && IsOnlyDirect(rest, i) && rest[i].tag == direct;
      assert IsOnlyDirect(outs, i + 1);
    }
    if outs[0].kind.Direct? && outs[0].tag == direct && forall j | 0 <= j < |rest| :: !rest[j].kind.Direct? {
      assert IsOnlyDirect(outs, 0);
    }
  }

  lemma DirectOfMeaning(outs: seq<Outbound>, direct: string)
    ensures DirectOf(outs) == Some(direct) <==> TheDirect(outs, direct) && MachineTag(direct)
  {
    DirectsCount(outs);
    assert |Directs(outs)| == 1 ==> Directs(outs) == [Directs(outs)[0]];
  }

  lemma {:induction false} CanonicalMembers(outs: seq<Outbound>, direct: string)
    ensures forall c :: c in CanonicalGroups(outs, direct) <==>
              exists o :: o in outs && IsGroupOutbound(o) && c == CanonicalGroup(o, direct)
  {
    if outs != [] {
      CanonicalMembers(outs[1..], direct);
      assert outs == [outs[0]] + outs[1..];
    }
  }

  lemma {:induction false} CanonicalDistinct(outs: seq<Outbound>, direct: string)
    ensures DistinctNames(CanonicalGroups(outs, direct)) <==> DistinctGroupTags(outs)
  {
    if outs != [] {
      CanonicalDistinct(outs[1..], direct);
      CanonicalMembers(outs[1..], direct);
      DistinctStep(outs);
      var rest := CanonicalGroups(outs[1..], direct);
      if IsLegacy(outs[0]) {
        NamesStep(CanonicalGroup(outs[0], direct), rest);
        assert (forall c | c in rest :: c.name != outs[0].tag) <==>
               (forall o | o in outs[1..] && IsGroupOutbound(o) :: o.tag != outs[0].tag) by {
          assert forall o | o in outs[1..] && IsGroupOutbound(o) :: CanonicalGroup(o, direct) in rest;
        }
      } else {
        assert CanonicalGroups(outs, direct) == rest;
      }
    }
  }

  lemma DistinctStep(outs: seq<Outbound>)
    requires outs != []
    ensures DistinctGroupTags(outs) <==>
              DistinctGroupTags(outs[1..])
              && (IsGroupOutbound(outs[0]) ==>
                    forall o | o in outs[1..] && IsGroupOutbound(o) :: o.tag != outs[0].tag)
  {
    var rest := outs[1..];
    assert forall j | 0 <= j < |rest| :: rest[j] == outs[j + 1];
    if DistinctGroupTags(outs) {
      forall o | o in rest && IsGroupOutbound(o) && IsGroupOutbound(outs[0]) ensures o.tag != outs[0].tag {
        var j :| 0 <= j < |rest| && rest[j] == o;
        assert outs[j + 1].tag != outs[0].tag;
      }
    }
    if DistinctGroupTags(rest)
       && (IsGroupOutbound(outs[0]) ==> forall o | o in rest && IsGroupOutbound(o) :: o.tag != outs[0].tag) {
      forall i, j | 0 <= i < j < |outs| && IsGroupOutbound(outs[i]) && IsGroupOutbound(outs[j])
        ensures outs[i].tag != outs[j].tag
      {
        assert outs[j] == rest[j - 1] && outs[j] in rest;
        if i > 0 {
          assert outs[i] == rest[i - 1];
        }
      }
    }
  }

  lemma NamesStep(c: Group, rest: seq<Group>)
    ensures DistinctNames([c] + rest) <==> DistinctNames(rest) && forall d | d in rest :: d.name != c.name
  {
    var all := [c] + rest;
    assert forall j | 0 <= j < |rest| :: all[j + 1] == rest[j];
    if DistinctNames(all) {
      forall d | d in rest ensures d.name != c.name {
        var j :| 0 <= j < |rest| && rest[j] == d;
        assert all[0].name != all[j + 1].name;
      }
    }
  }

  lemma MirrorsDistinct(mirrors: seq<Group>, direct: string)
    ensures DistinctNames(SwapProxies(mirrors, "DIRECT", direct)) <==> DistinctNames(mirrors)
  {
    var swapped := SwapProxies(mirrors, "DIRECT", direct);
    if DistinctNames(swapped) {
      forall i, j | 0 <= i < j < |mirrors| ensures mirrors[i].name != mirrors[j].name {
        assert swapped[i].name != swapped[j].name;
      }
    }
  }

  lemma SwappedMembers(mirrors: seq<Group>, direct: string)
    ensures var swapped := SwapProxies(mirrors, "DIRECT", direct);
            && (forall g | g in mirrors :: g.(proxies := SwapAll(g.proxies, "DIRECT", direct)) in swapped)
            && (forall h | h in swapped ::
                  exists g :: g in mirrors && h == g.(proxies := SwapAll(g.proxies, "DIRECT", direct)))
            && GroupNames(swapped) == GroupNames(mirrors)
  {
    var swapped := SwapProxies(mirrors, "DIRECT", direct);
    forall g | g in mirrors ensures g.(proxies := SwapAll(g.proxies, "DIRECT", direct)) in swapped {
      var i :| 0 <= i < |mirrors| && mirrors[i] == g;
      assert swapped[i] == g.(proxies := SwapAll(g.proxies, "DIRECT", direct));
    }
    forall h | h in swapped
      ensures exists g :: g in mirrors && h == g.(proxies := SwapAll(g.proxies, "DIRECT", direct))
    {
      var i :| 0 <= i < |swapped| && swapped[i] == h;
      assert mirrors[i] in mirrors;
    }
  }

  lemma NoReject(xs: seq<string>, direct: string)
    ensures "REJECT" !in SwapAll(xs, "DIRECT", direct) <==>
              forall i | 0 <= i < |xs| :: ReadDirect(xs[i], direct) != "REJECT"
  {
    var ys := SwapAll(xs, "DIRECT", direct);
    assert forall i | 0 <= i < |xs| :: ys[i] == ReadDirect(xs[i], direct);
    if "REJECT" in ys {
      var i :| 0 <= i < |ys| && ys[i] == "REJECT";
    }
  }

  lemma AgreeMeaning(direct: string, o: Outbound, g: Group)
    requires IsGroupOutbound(o)
    ensures Agree(CanonicalGroup(o, direct), g.(proxies := SwapAll(g.proxies, "DIRECT", direct))) <==>
              SameGroup(direct, o, g)
  {
    var xs, ys := SwapAll(g.proxies, "DIRECT", direct), SwapAll(o.members, "DIRECT", direct);
    NoReject(g.proxies, direct);
    assert forall i | 0 <= i < |xs| :: xs[i] == ReadDirect(g.proxies[i], direct);
    assert forall i | 0 <= i < |ys| :: ys[i] == ReadDirect(o.members[i], direct);
  }

  /** The canonical form of a mirror. */
  function Read(g: Group, direct: string): Group {
    g.(proxies := SwapAll(g.proxies, "DIRECT", direct))
  }

  lemma NamesMeaning(norm: Norm, outs: seq<Outbound>, mirrors: seq<Group>, direct: string)
    ensures (forall c | c in CanonicalGroups(outs, direct) :: ValidName(norm, c.name)) <==>
              forall o | o in outs && IsGroupOutbound(o) :: norm(o.tag) == Some(o.tag)
    ensures (forall g | g in SwapProxies(mirrors, "DIRECT", direct) :: ValidName(norm, g.name)) <==>
              forall g | g in mirrors :: norm(g.name) == Some(g.name)
  {
    CanonicalMembers(outs, direct);
    SwappedMembers(mirrors, direct);
    assert forall o | o in outs && IsGroupOutbound(o) :: CanonicalGroup(o, direct) in CanonicalGroups(outs, direct);
    assert forall g | g in mirrors :: Read(g, direct) in SwapProxies(mirrors, "DIRECT", direct);
  }

  lemma AgreementMeaning(outs: seq<Outbound>, mirrors: seq<Group>, direct: string)
    ensures (forall c, h | c in CanonicalGroups(outs, direct) && h in SwapProxies(mirrors, "DIRECT", direct)
                           && c.name == h.name :: Agree(c, h)) <==>
              forall o, g | o in outs && IsGroupOutbound(o) && g in mirrors && g.name == o.tag ::
                SameGroup(direct, o, g)
  {
    var canonical, swapped := CanonicalGroups(outs, direct), SwapProxies(mirrors, "DIRECT", direct);
    CanonicalMembers(outs, direct);
    SwappedMembers(mirrors, direct);
    if forall c, h | c in canonical && h in swapped && c.name == h.name :: Agree(c, h) {
      forall o, g | o in outs && IsGroupOutbound(o) && g in mirrors && g.name == o.tag
        ensures SameGroup(direct, o, g)
      {
        AgreeMeaning(direct, o, g);
        assert CanonicalGroup(o, direct) in canonical && Read(g, direct) in swapped;
      }
    }
    if forall o, g | o in outs && IsGroupOutbound(o) && g in mirrors && g.name == o.tag :: SameGroup(direct, o, g) {
      forall c, h | c in canonical && h in swapped && c.name == h.name ensures Agree(c, h) {
        var o :| o in outs && IsGroupOutbound(o) && c == CanonicalGroup(o, direct);
        var g :| g in mirrors && h == g.(proxies := SwapAll(g.proxies, "DIRECT", direct));
        AgreeMeaning(direct, o, g);
      }
    }
  }

  lemma MirroredMeaning(outs: seq<Outbound>, mirrors: seq<Group>, direct: string)
    ensures (forall c | c in CanonicalGroups(outs, direct) ::
               c.name in GroupNames(SwapProxies(mirrors, "DIRECT", direct))) <==>
              forall o | o in outs && IsGroupOutbound(o) :: exists g :: g in mirrors && g.name == o.tag
  {
    CanonicalMembers(outs, direct);
    SwappedMembers(mirrors, direct);
    assert forall o | o in outs && IsGroupOutbound(o) :: CanonicalGroup(o, direct) in CanonicalGroups(outs, direct);
  }

  lemma EditableMeaning(outs: seq<Outbound>, mirrors: seq<Group>, direct: string)
    ensures (forall h | h in SwapProxies(mirrors, "DIRECT", direct)
                        && h.name !in GroupNames(CanonicalGroups(outs, direct)) ::
               !((h.kind.Select? || h.kind.UrlTest?) && Representable(h))) <==>
              forall g | g in mirrors && Editable(direct, g) ::
                exists o :: o in outs && IsGroupOutbound(o) && o.tag == g.name
  {
    var canonical, swapped := CanonicalGroups(outs, direct), SwapProxies(mirrors, "DIRECT", direct);
    CanonicalNames(outs, direct);
    SwappedMembers(mirrors, direct);
    forall g ensures Editable(direct, g) <==>
                       (g.kind.Select? || g.kind.UrlTest?) && Representable(Read(g, direct))
    {
      NoReject(g.proxies, direct);
    }
    if forall h | h in swapped && h.name !in GroupNames(canonical) ::
         !((h.kind.Select? || h.kind.UrlTest?) && Representable(h)) {
      forall g | g in mirrors && Editable(direct, g) ensures g.name in GroupNames(canonical) {
        assert Read(g, direct) in swapped;
      }
    }
  }

  lemma CanonicalNames(outs: seq<Outbound>, direct: string)
    ensures forall x :: x in GroupNames(CanonicalGroups(outs, direct)) <==>
              exists o :: o in outs && IsGroupOutbound(o) && o.tag == x
  {
    CanonicalMembers(outs, direct);
    forall o | o in outs && IsGroupOutbound(o) ensures o.tag in GroupNames(CanonicalGroups(outs, direct)) {
      assert CanonicalGroup(o, direct) in CanonicalGroups(outs, direct);
    }
  }

  lemma LegacyMeaning(norm: Norm, raw: Raw, direct: string)
    requires raw.groups == [] && raw.schema in {1, 2}
    ensures LegacyOk(norm, raw.schema, CanonicalGroups(raw.outbounds, direct),
                     SwapProxies(raw.mirrors, "DIRECT", direct))
            <==> LegacyAgrees(norm, raw, direct)
  {
    CanonicalDistinct(raw.outbounds, direct);
    MirrorsDistinct(raw.mirrors, direct);
    NamesMeaning(norm, raw.outbounds, raw.mirrors, direct);
    AgreementMeaning(raw.outbounds, raw.mirrors, direct);
    MirroredMeaning(raw.outbounds, raw.mirrors, direct);
    EditableMeaning(raw.outbounds, raw.mirrors, direct);
  }

  lemma LaidIff(norm: Norm, raw: Raw)
    ensures Laid(norm, raw).Some? <==> exists direct :: Acceptable(norm, raw, direct)
    ensures forall direct | Acceptable(norm, raw, direct) :: DirectOf(raw.outbounds) == Some(direct)
  {
    forall direct
      ensures DirectOf(raw.outbounds) == Some(direct) <==> TheDirect(raw.outbounds, direct) && MachineTag(direct)
    {
      DirectOfMeaning(raw.outbounds, direct);
    }
    if DirectOf(raw.outbounds).Some? && raw.groups == [] && raw.schema in {1, 2} {
      LegacyMeaning(norm, raw, DirectOf(raw.outbounds).value);
    }
    if Laid(norm, raw).Some? {
      assert Acceptable(norm, raw, DirectOf(raw.outbounds).value);
    }
  }

  // ---- when every name has a normal form ----

  ghost predicate Readable(norm: Norm, direct: string, xs: seq<string>) {
    forall x | x in xs :: norm(if x == "DIRECT" then direct else x).Some?
  }

  ghost predicate ProvidersNameable(norm: Norm, p: map<string, Provider>) {
    && (forall k | k in p :: norm(k).Some?)
    && (forall j, k | j in p && k in p && norm(j) == norm(k) :: j == k)
  }

  ghost predicate GroupsNameable(norm: Norm, raw: Raw, direct: string) {
    if raw.schema == 3 then forall g | g in raw.groups :: GroupNameable(norm, g)
    else
      && (forall g | g in raw.mirrors :: Readable(norm, direct, g.proxies) && Known(norm, g.uses))
      && (forall o | o in raw.outbounds && LacksMirror(raw.mirrors)(o) :: Readable(norm, direct, o.members))
  }

  /** Every name that ends up in the model has a normal form, and no two providers share one. */
  ghost predicate Nameable(norm: Norm, raw: Raw, direct: string) {
    && (forall o | o in raw.outbounds && !IsGroupOutbound(o) :: OutboundNameable(norm, o))
    && GroupsNameable(norm, raw, direct)
    && ProvidersNameable(norm, raw.proxyProviders) && ProvidersNameable(norm, raw.ruleProviders)
    && (raw.final.Some? ==> norm(raw.final.value).Some?)
    && (forall r | r in raw.rules :: (r.outbound.Some? ==> norm(r.outbound.value).Some?)
                                     && (r.ruleSet.Some? ==> norm(r.ruleSet.value).Some?))
    && Known(norm, raw.ruleSetTags)
  }

  lemma SwappedKnown(norm: Norm, direct: string, xs: seq<string>)
    ensures Known(norm, SwapAll(xs, "DIRECT", direct)) <==> Readable(norm, direct, xs)
  {
    var ys := SwapAll(xs, "DIRECT", direct);
    assert forall i | 0 <= i < |xs| :: ys[i] == if xs[i] == "DIRECT" then direct else xs[i];
    if Known(norm, ys) {
      forall x | x in xs ensures norm(if x == "DIRECT" then direct else x).Some? {
        var i :| 0 <= i < |xs| && xs[i] == x;
        assert ys[i] in ys;
      }
    }
    if Readable(norm, direct, xs) {
      forall y | y in ys ensures norm(y).Some? {
        var i :| 0 <= i < |ys| && ys[i] == y;
        assert xs[i] in xs;
      }
    }
  }

  lemma {:induction false} NonLegacyMembers(outs: seq<Outbound>)
    ensures forall o :: o in NonLegacy(outs) <==> o in outs && !IsGroupOutbound(o)
  {
    if outs != [] {
      NonLegacyMembers(outs[1..]);
      assert outs == [outs[0]] + outs[1..];
    }
  }

  lemma {:induction false} AloneMembers(outs: seq<Outbound>, direct: string, mirrors: seq<Group>)
    ensures forall c :: c in Alone(outs, direct, mirrors) <==>
              exists o :: o in outs && LacksMirror(mirrors)(o) && c == CanonicalGroup(o, direct)
  {
    if outs != [] {
      AloneStep(outs, direct, mirrors);
      AloneMembers(outs[1..], direct, mirrors);
      assert outs == [outs[0]] + outs[1..];
    }
  }

  lemma LegacyNameable(norm: Norm, raw: Raw, direct: string)
    requires LegacyAgrees(norm, raw, direct) && raw.schema in {1, 2}
    ensures (forall g | g in SwapProxies(raw.mirrors, "DIRECT", direct) :: GroupNameable(norm, g))
            && (forall g | g in Alone(raw.outbounds, direct, raw.mirrors) :: GroupNameable(norm, g))
            <==> GroupsNameable(norm, raw, direct)
  {
    var swapped, alone := SwapProxies(raw.mirrors, "DIRECT", direct), Alone(raw.outbounds, direct, raw.mirrors);
    SwappedMembers(raw.mirrors, direct);
    AloneMembers(raw.outbounds, direct, raw.mirrors);
    forall g | g in raw.mirrors
      ensures GroupNameable(norm, Read(g, direct)) <==> Readable(norm, direct, g.proxies) && Known(norm, g.uses)
    {
      SwappedKnown(norm, direct, g.proxies);
    }
    forall o | o in raw.outbounds && IsGroupOutbound(o)
      ensures GroupNameable(norm, CanonicalGroup(o, direct)) <==> Readable(norm, direct, o.members)
    {
      SwappedKnown(norm, direct, o.members);
    }
    assert forall g | g in raw.mirrors :: Read(g, direct) in swapped;
    assert forall o | o in raw.outbounds && LacksMirror(raw.mirrors)(o) :: CanonicalGroup(o, direct) in alone;
  }

  lemma LaidGroups(norm: Norm, raw: Raw, direct: string)
    requires Acceptable(norm, raw, direct) && Laid(norm, raw).Some? && DirectOf(raw.outbounds) == Some(direct)
    ensures Laid(norm, raw).value.groups ==
              if raw.schema == 3 then raw.groups
              else SwapProxies(raw.mirrors, "DIRECT", direct) + Alone(raw.outbounds, direct, raw.mirrors)
    ensures Laid(norm, raw).value.outbounds == NonLegacy(raw.outbounds)
  {
    SwappedMembers(raw.mirrors, direct);
    if raw.schema == 3 {
      AllNonLegacy(raw.outbounds);
    }
  }

  lemma CollisionMeaning(norm: Norm, p: map<string, Provider>)
    ensures NoCollision(norm, p) <==> ProvidersNameable(norm, p)
  {
  }

  lemma NameableIff(norm: Norm, raw: Raw, direct: string)
    requires Acceptable(norm, raw, direct) && Laid(norm, raw).Some? && DirectOf(raw.outbounds) == Some(direct)
    ensures Canonizable(norm, Laid(norm, raw).value) <==> Nameable(norm, raw, direct)
  {
    LaidGroups(norm, raw, direct);
    NonLegacyMembers(raw.outbounds);
    CollisionMeaning(norm, raw.proxyProviders);
    CollisionMeaning(norm, raw.ruleProviders);
    if raw.schema != 3 {
      LegacyNameable(norm, raw, direct);
    }
  }

  // ---- the theorem ----

  lemma GroupsAreKept(norm: Norm, raw: Raw, direct: string)
    requires Acceptable(norm, raw, direct) && Laid(norm, raw).Some? && DirectOf(raw.outbounds) == Some(direct)
    requires forall g | g in Laid(norm, raw).value.groups :: GroupNameable(norm, g)
    ensures GroupsNormal(norm, raw, direct, CanonGroups(norm, Laid(norm, raw).value.groups))
  {
    LaidGroups(norm, raw, direct);
    if raw.schema == 3 {
      GroupsKept(norm, raw.groups);
    } else {
      var swapped, alone := SwapProxies(raw.mirrors, "DIRECT", direct), Alone(raw.outbounds, direct, raw.mirrors);
      assert forall g | g in swapped :: g in swapped + alone;
      assert forall g | g in alone :: g in swapped + alone;
      MirrorsKept(norm, direct, raw.mirrors);
      AloneKept(norm, direct, raw.outbounds, raw.mirrors);
      LegacyParts(norm, raw, direct, swapped, alone);
    }
  }

  lemma LegacyParts(norm: Norm, raw: Raw, direct: string, a: seq<Group>, b: seq<Group>)
    requires raw.schema != 3 && |a| == |raw.mirrors|
    requires forall i | 0 <= i < |a| :: MirrorNormal(norm, direct, raw.mirrors[i], CanonGroups(norm, a)[i])
    requires Sieved(raw.outbounds, CanonGroups(norm, b), LacksMirror(raw.mirrors), LegacyForm(norm, direct))
    ensures GroupsNormal(norm, raw, direct, CanonGroups(norm, a + b))
  {
    assert CanonGroups(norm, a + b) == CanonGroups(norm, a) + CanonGroups(norm, b);
    assert CanonGroups(norm, a + b)[|a|..] == CanonGroups(norm, b);
  }

  lemma CanonIsMigration(norm: Norm, raw: Raw, direct: string)
    requires Acceptable(norm, raw, direct) && Laid(norm, raw).Some? && DirectOf(raw.outbounds) == Some(direct)
    requires Canonizable(norm, Laid(norm, raw).value)
    ensures IsMigration(norm, raw, direct, Canon(norm, Laid(norm, raw).value))
  {
    var l := Laid(norm, raw).value;
    LaidGroups(norm, raw, direct);
    OutboundsKept(norm, raw.outbounds);
    GroupsAreKept(norm, raw, direct);
    ProvidersKept(norm, raw.proxyProviders);
    ProvidersKept(norm, raw.ruleProviders);
    RulesKept(norm, raw.rules);
    NAllIsNormal(norm, raw.ruleSetTags);
  }

  /**
    `migrate` accepts exactly the documents whose legacy parts agree, whose names have normal forms and whose schema-3
    form is valid; and it returns that form, in which nothing but spellings and the layout of groups has changed.
   */
  lemma MigratedMeaning(norm: Norm, raw: Raw)
    requires NormLaws(norm)
    ensures (exists direct :: Acceptable(norm, raw, direct) && Nameable(norm, raw, direct)) ==>
              exists direct, m ::
                && Acceptable(norm, raw, direct) && IsMigration(norm, raw, direct, m)
                && Migrated(norm, raw) == if Valid(norm, m) then Some(m) else None
    ensures (!exists direct :: Acceptable(norm, raw, direct) && Nameable(norm, raw, direct)) ==>
              Migrated(norm, raw) == None
  {
    LaidIff(norm, raw);
    if Laid(norm, raw).Some? {
      var direct :| Acceptable(norm, raw, direct);
      NameableIff(norm, raw, direct);
      if Nameable(norm, raw, direct) {
        CanonIsMigration(norm, raw, direct);
      }
    }
  }

  /** What a migration returned, stored as schema 3, migrates to itself. */
  lemma MigratedIsStable(norm: Norm, raw: Raw)
    requires NormLaws(norm) && Migrated(norm, raw).Some?
    ensures var m := Migrated(norm, raw).value;
            Migrated(norm, Raw(3, m.outbounds, m.groups, [], m.proxyProviders, m.ruleProviders, m.rules, m.final,
                               m.ruleSetTags, m.inbounds)) == Some(m)
  {
    var l := Laid(norm, raw).value;
    LaidDirect(norm, raw);
    DirectsOfCanon(norm, l.outbounds);
    CanonTwice(norm, l);
    StoredAsIs(norm, Canon(norm, l));
  }

  lemma StoredAsIs(norm: Norm, m: Model)
    requires DirectOf(m.outbounds).Some? && Canonizable(norm, m) && Canon(norm, m) == m && Valid(norm, m)
    ensures Migrated(norm, Raw(3, m.outbounds, m.groups, [], m.proxyProviders, m.ruleProviders, m.rules, m.final,
                               m.ruleSetTags, m.inbounds)) == Some(m)
  {
    assert forall o | o in m.outbounds :: OutboundOk(norm, o);
  }

  lemma NTwice(norm: Norm, xs: seq<string>)
    requires NormLaws(norm) && Known(norm, xs)
    ensures Known(norm, NAll(norm, xs)) && NAll(norm, NAll(norm, xs)) == NAll(norm, xs)
  {
    var ys := NAll(norm, xs);
    forall y | y in ys ensures norm(y) == Some(y) {
      var i :| 0 <= i < |ys| && ys[i] == y;
      assert xs[i] in xs;
    }
  }

  lemma OutboundsTwice(norm: Norm, outs: seq<Outbound>)
    requires NormLaws(norm) && forall o | o in outs :: OutboundNameable(norm, o)
    ensures forall o | o in CanonOutbounds(norm, outs) :: OutboundNameable(norm, o)
    ensures CanonOutbounds(norm, CanonOutbounds(norm, outs)) == CanonOutbounds(norm, outs)
  {
    var once := CanonOutbounds(norm, outs);
    forall i | 0 <= i < |outs|
      ensures OutboundNameable(norm, once[i]) && CanonOutbounds(norm, once)[i] == once[i]
    {
      assert outs[i] in outs;
      NTwice(norm, outs[i].members);
    }
  }

  lemma GroupsTwice(norm: Norm, groups: seq<Group>)
    requires NormLaws(norm) && forall g | g in groups :: GroupNameable(norm, g)
    ensures forall g | g in CanonGroups(norm, groups) :: GroupNameable(norm, g)
    ensures CanonGroups(norm, CanonGroups(norm, groups)) == CanonGroups(norm, groups)
  {
    var once := CanonGroups(norm, groups);
    forall i | 0 <= i < |groups| ensures GroupNameable(norm, once[i]) && CanonGroups(norm, once)[i] == once[i] {
      assert groups[i] in groups;
      NTwice(norm, groups[i].proxies);
      NTwice(norm, groups[i].uses);
    }
  }

  lemma ProvidersTwice(norm: Norm, p: map<string, Provider>)
    requires NormLaws(norm) && NoCollision(norm, p)
    ensures NoCollision(norm, CanonProviders(norm, p))
    ensures CanonProviders(norm, CanonProviders(norm, p)) == CanonProviders(norm, p)
  {
    var q := CanonProviders(norm, p);
    forall k | k in q ensures norm(k) == Some(k) {
      var j :| j in p && N(norm, j) == k;
    }
  }

  ghost predicate RuleNameable(norm: Norm, r: Rule) {
    (r.outbound.Some? ==> norm(r.outbound.value).Some?) && (r.ruleSet.Some? ==> norm(r.ruleSet.value).Some?)
  }

  lemma RulesTwice(norm: Norm, rules: seq<Rule>)
    requires NormLaws(norm) && forall r | r in rules :: RuleNameable(norm, r)
    ensures forall r | r in CanonRules(norm, rules) :: RuleNameable(norm, r)
    ensures CanonRules(norm, CanonRules(norm, rules)) == CanonRules(norm, rules)
  {
    var once := CanonRules(norm, rules);
    forall i | 0 <= i < |rules| ensures RuleNameable(norm, once[i]) && CanonRules(norm, once)[i] == once[i] {
      assert rules[i] in rules;
    }
  }

  lemma CanonTwice(norm: Norm, m: Model)
    requires NormLaws(norm) && Canonizable(norm, m)
    ensures Canonizable(norm, Canon(norm, m)) && Canon(norm, Canon(norm, m)) == Canon(norm, m)
  {
    assert forall o | o in m.outbounds :: OutboundNameable(norm, o);
    assert forall g | g in m.groups :: GroupNameable(norm, g);
    assert forall r | r in m.rules :: RuleNameable(norm, r);
    OutboundsTwice(norm, m.outbounds);
    GroupsTwice(norm, m.groups);
    ProvidersTwice(norm, m.proxyProviders);
    ProvidersTwice(norm, m.ruleProviders);
    RulesTwice(norm, m.rules);
    NTwice(norm, m.ruleSetTags);
  }

  // ---- rebinding ----

  /** A document stored in any schema with the direct exit under another tag. */
  ghost predicate StoredFollows(raw: Raw, raw': Raw, old_: string, new_: string) {
    && |raw'.outbounds| == |raw.outbounds|
    && (forall i | 0 <= i < |raw.outbounds| ::
          var o, p := raw.outbounds[i], raw'.outbounds[i];
          && p.(tag := o.tag, members := o.members) == o
          && p.tag == (if o.kind.Direct? then new_ else o.tag)
          && if IsGroupOutbound(o) then NamesFollow(o.members, p.members, old_, new_) else p.members == o.members)
    && ProxiesFollow(raw.groups, raw'.groups, old_, new_) && ProxiesFollow(raw.mirrors, raw'.mirrors, old_, new_)
    && OptionFollows(raw.final, raw'.final, old_, new_)
    && |raw'.rules| == |raw.rules|
    && (forall i | 0 <= i < |raw.rules| ::
          && OptionFollows(raw.rules[i].outbound, raw'.rules[i].outbound, old_, new_)
          && raw'.rules[i].(outbound := raw.rules[i].outbound) == raw.rules[i])
    && raw'.schema == raw.schema && raw'.inbounds == raw.inbounds && raw'.ruleSetTags == raw.ruleSetTags
    && raw'.proxyProviders == raw.proxyProviders && raw'.ruleProviders == raw.ruleProviders
  }

  ghost predicate ProxiesFollow(before: seq<Group>, after: seq<Group>, old_: string, new_: string) {
    && |after| == |before|
    && forall i | 0 <= i < |before| ::
         && NamesFollow(before[i].proxies, after[i].proxies, old_, new_)
         && after[i].(proxies := before[i].proxies) == before[i]
  }

  lemma RewriteMeaning(raw: Raw, old_: string, new_: string)
    ensures StoredFollows(raw, RebindRaw(raw, old_, new_), old_, new_)
  {
  }

  /** The direct exit is called `new_`, every reference follows, and nothing else has changed. */
  ghost predicate IsRebound(m: Model, r: Model, old_: string, new_: string) {
    && ReferencesFollow(m, r, old_, new_) && |r.outbounds| == |m.outbounds|
    && forall i | 0 <= i < |m.outbounds| ::
         && r.outbounds[i].(tag := m.outbounds[i].tag) == m.outbounds[i]
         && r.outbounds[i].tag == if m.outbounds[i].kind.Direct? then new_ else m.outbounds[i].tag
  }

  ghost predicate ReboundFrom(norm: Norm, raw: Raw, m: Model, old_: string, new_: string) {
    && (Rebound(norm, raw, new_).Some? <==>
          MachineTag(new_) && (new_ == old_ || (new_ !in RESERVED && new_ !in Names(m))))
    && (Rebound(norm, raw, new_).Some? ==> IsRebound(m, Rebound(norm, raw, new_).value, old_, new_))
  }

  /** In a valid model the direct tag names the direct exit and nothing else. */
  lemma DirectTagIsIts(norm: Norm, m: Model, old_: string)
    requires Valid(norm, m) && DirectOf(m.outbounds) == Some(old_)
    ensures forall i | 0 <= i < |m.outbounds| :: m.outbounds[i].kind.Direct? <==> m.outbounds[i].tag == old_
  {
    DirectIsUnique(norm, m, old_);
    TheOneDirect(m.outbounds);
    forall i | 0 <= i < |m.outbounds| ensures m.outbounds[i].kind.Direct? <==> m.outbounds[i].tag == old_ {
      assert m.outbounds[i] in m.outbounds;
    }
  }

  lemma RenamedIsRebound(m: Model, old_: string, new_: string)
    requires forall i | 0 <= i < |m.outbounds| :: m.outbounds[i].kind.Direct? <==> m.outbounds[i].tag == old_
    ensures IsRebound(m, Rename(m, old_, new_), old_, new_)
    ensures IsRebound(m, m, old_, old_)
  {
    RenameMeaning(m, old_, new_);
  }

  /** `rebind_direct` accepts exactly a free, unreserved machine tag (or the old one), and what it returns. */
  lemma ReboundMeaning(norm: Norm, raw: Raw, new_: string)
    requires NormLaws(norm) && Migrated(norm, raw).Some?
    ensures exists old_ ::
              && TheDirect(Migrated(norm, raw).value.outbounds, old_)
              && ReboundFrom(norm, raw, Migrated(norm, raw).value, old_, new_)
  {
    var m := Migrated(norm, raw).value;
    LaidDirect(norm, raw);
    DirectsOfCanon(norm, Laid(norm, raw).value.outbounds);
    var old_ := DirectOf(m.outbounds).value;
    DirectOfMeaning(m.outbounds, old_);
    DirectTagIsIts(norm, m, old_);
    RenamedIsRebound(m, old_, new_);
    if MachineTag(new_) {
      ReboundNeverFailsLate(norm, raw, new_);
    }
    assert ReboundFrom(norm, raw, m, old_, new_);
  }
}
