/** The rendered Mihomo configuration as a whole (sb2mihomo.py `singbox_to_mihomo`): rule layers and closure. */
module Render {
  import opened Common
  import opened Model
  import opened Route

  // ---- mixed listeners ----

  function ListenerName(i: Inbound): string {
    if i.tag == "" then "mixed-in" else i.tag
  }

  predicate IsListener(i: Inbound) {
    i.mixed && i.port != 0
  }

  predicate Pins(r: Rule, tag: string) {
    r.inbound.Some? && tag in r.inbound.value && r.outbound.Some? && r.outbound.value != ""
  }

  /** The exit a listener is pinned to: its first pinning rule, else the final target. */
  function PinOf(rules: seq<Rule>, final: Option<string>, tag: string): Option<string> {
    if rules == [] then final
    else if Pins(rules[0], tag) then rules[0].outbound
    else PinOf(rules[1..], final, tag)
  }

  function PinRule(m: Model, tag: string): MRule {
    InName(tag, FinalTarget(PinOf(m.rules, m.final, tag), DirectTags(m.outbounds), BlockTags(m.outbounds)))
  }

  function PinRules(m: Model, inbounds: seq<Inbound>): seq<MRule> {
    if inbounds == [] then [] else
    PinRules(m, inbounds[..|inbounds| - 1])
    + if IsListener(inbounds[|inbounds| - 1]) then [PinRule(m, ListenerName(inbounds[|inbounds| - 1]))] else []
  }

  /** `_mixed_listeners`: one IN-NAME rule per mixed inbound with a port. */
  method MixedListeners(m: Model) returns (inRules: seq<MRule>)
    ensures inRules == PinRules(m, m.inbounds)
  {
    inRules := [];
    for k := 0 to |m.inbounds|
      invariant inRules == PinRules(m, m.inbounds[..k])
    {
      assert m.inbounds[..k + 1][..k] == m.inbounds[..k];
      if IsListener(m.inbounds[k]) {
        var tag := ListenerName(m.inbounds[k]);
        var exit := m.final;
        var j := 0;
        assert m.rules[0..] == m.rules;
        while j < |m.rules|
          invariant 0 <= j <= |m.rules| && exit == m.final
          invariant PinOf(m.rules, m.final, tag) == PinOf(m.rules[j..], m.final, tag)
        {
          assert m.rules[j..][1..] == m.rules[j + 1..];
          if Pins(m.rules[j], tag) {
            exit := m.rules[j].outbound;
            break;
          }
          j := j + 1;
        }
        assert exit == PinOf(m.rules, m.final, tag);
        inRules := inRules + [InName(tag, FinalTarget(exit, DirectTags(m.outbounds), BlockTags(m.outbounds)))];
      }
    }
    assert m.inbounds[..|m.inbounds|] == m.inbounds;
  }

  predicate ListensAs(m: Model, name: string) {
    exists i | i in m.inbounds :: IsListener(i) && ListenerName(i) == name
  }

  lemma {:induction false} PinRulesMatch(m: Model, inbounds: seq<Inbound>, c: Conn, remote: Remote)
    ensures FirstMatch(PinRules(m, inbounds), c, remote) ==
            if c.listener.Some? && (exists i :: i in inbounds && IsListener(i) && ListenerName(i) == c.listener.value)
            then Some(PinRule(m, c.listener.value).target) else None
    ensures forall r | r in PinRules(m, inbounds) ::
              exists i :: i in inbounds && IsListener(i) && r == PinRule(m, ListenerName(i))
  {
    if inbounds != [] {
      var n := |inbounds| - 1;
      var rest, last := inbounds[..n], inbounds[n];
      PinRulesMatch(m, rest, c, remote);
      assert inbounds == rest + [last];
      var tail := if IsListener(last) then [PinRule(m, ListenerName(last))] else [];
      FirstMatchSplit(PinRules(m, rest), tail, c, remote);
    }
  }

  // ---- interception domains ----

  const MITM_OUT := "MITM-OUT"
  const RETIRED: set<string> := {"gs-loc.apple.com", "gs-loc-cn.apple.com"}

  function Lower(s: string): string {
    seq(|s|, i requires 0 <= i < |s| => LowerAscii(s[i]))
  }

  function StripDots(s: string): string {
    if s != "" && s[|s| - 1] == '.' then StripDots(s[..|s| - 1]) else s
  }

  function Intercepted(domains: seq<string>): seq<string> {
    if domains == [] then [] else
    (if StripDots(Lower(domains[0])) in RETIRED then [] else [domains[0]]) + Intercepted(domains[1..])
  }

  function MitmRules(domains: seq<string>): seq<MRule> {
    seq(|domains|, i requires 0 <= i < |domains| => DomainSuffix(domains[i], MITM_OUT))
  }

  predicate MitmHit(domains: seq<string>, d: string) {
    exists x | x in domains :: SuffixHit(d, x)
  }

  lemma MitmMatch(domains: seq<string>, c: Conn, remote: Remote)
    ensures FirstMatch(MitmRules(domains), c, remote) == if MitmHit(domains, c.domain) then Some(MITM_OUT) else None
  {
    OneTarget(MitmRules(domains), MITM_OUT, c, remote);
    if MitmHit(domains, c.domain) {
      var x :| x in domains && SuffixHit(c.domain, x);
      var i :| 0 <= i < |domains| && domains[i] == x;
      assert MitmRules(domains)[i] in MitmRules(domains) && Hits(MitmRules(domains)[i], c, remote);
    }
  }

  // ---- the layers of the final rule list ----

  /** Insert after the leading address rejects: listener pins first, then interception. */
  method Assemble(base: seq<MRule>, inRules: seq<MRule>, mitm: seq<string>) returns (rules: seq<MRule>, i: nat)
    ensures i <= |base| && (forall k | 0 <= k < i :: base[k].IpReject?) && (i < |base| ==> !base[i].IpReject?)
    ensures rules == base[..i] + inRules + MitmRules(mitm) + base[i..]
  {
    i := 0;
    while i < |base| && base[i].IpReject?
      invariant i <= |base| && forall k | 0 <= k < i :: base[k].IpReject?
    {
      i := i + 1;
    }
    rules := base;
    var at := i;
    if inRules != [] {
      rules := rules[..at] + inRules + rules[at..];
      at := at + |inRules|;
    }
    assert rules == base[..i] + inRules + base[i..];
    if mitm != [] {
      rules := rules[..at] + MitmRules(mitm) + rules[at..];
    }
  }

  lemma RejectsFirst(rules: seq<MRule>, c: Conn, remote: Remote)
    requires forall k | 0 <= k < |rules| :: rules[k].IpReject?
    ensures FirstMatch(rules, c, remote) ==
              if exists r :: r in rules && Hits(r, c, remote) then Some("REJECT") else None
  {
    OneTarget(rules, "REJECT", c, remote);
  }

  /** First match over four layers. */
  lemma FourLayers(head: seq<MRule>, pins: seq<MRule>, hooks: seq<MRule>, rest: seq<MRule>, c: Conn, remote: Remote)
    ensures FirstMatch(head + pins + hooks + rest, c, remote) ==
            if FirstMatch(head, c, remote).Some? then FirstMatch(head, c, remote)
            else if FirstMatch(pins, c, remote).Some? then FirstMatch(pins, c, remote)
            else if FirstMatch(hooks, c, remote).Some? then FirstMatch(hooks, c, remote)
            else FirstMatch(rest, c, remote)
  {
    FirstMatchSplit(head, pins, c, remote);
    FirstMatchSplit(head + pins, hooks, c, remote);
    FirstMatchSplit(head + pins + hooks, rest, c, remote);
  }

  /**
    First match over the assembled list: a leading address reject, else the listener's pin, else interception, else
    the route rules.
   */
  lemma Layers(m: Model, base: seq<MRule>, i: nat, mitm: seq<string>, c: Conn, remote: Remote)
    requires i <= |base| && forall k | 0 <= k < i :: base[k].IpReject?
    ensures FirstMatch(base[..i] + PinRules(m, m.inbounds) + MitmRules(mitm) + base[i..], c, remote) ==
            if exists r :: r in base[..i] && Hits(r, c, remote) then Some("REJECT")
            else if c.listener.Some? && ListensAs(m, c.listener.value) then Some(PinRule(m, c.listener.value).target)
            else if MitmHit(mitm, c.domain) then Some(MITM_OUT)
            else FirstMatch(base, c, remote)
  {
    RejectsFirst(base[..i], c, remote);
    PinRulesMatch(m, m.inbounds, c, remote);
    MitmMatch(mitm, c, remote);
    assert base == base[..i] + base[i..];
    FirstMatchSplit(base[..i], base[i..], c, remote);
    FourLayers(base[..i], PinRules(m, m.inbounds), MitmRules(mitm), base[i..], c, remote);
  }

  // ---- the configuration ----

  datatype Config = Config(proxies: seq<string>, groups: seq<Group>, rules: seq<MRule>,
                           proxyProviders: set<string>, ruleProviders: set<string>,
                           unknown: seq<string>, dropped: seq<Rule>)

  /** Protocols `convert_proxy` can translate; shadowtls is a known proxy type without a translation. */
  const CONVERTIBLE: set<string> :=
    {"shadowsocks", "vmess", "trojan", "vless", "hysteria", "hysteria2", "tuic", "anytls", "socks", "http"}

  predicate Converts(o: Outbound) {
    o.kind.Proxy? && o.kind.protocol in CONVERTIBLE
  }

  /** Neither a proxy that converts nor a kind that renders to nothing by design. */
  predicate Unconvertible(o: Outbound) {
    (o.kind.Proxy? && o.kind.protocol !in CONVERTIBLE) || (o.kind.Plumbing? && o.kind.protocol != "dns")
  }

  function Mappings(p: map<string, Provider>): set<string> {
    set name | name in p && p[name].Mapping?
  }

  function MapMembers(g: Group, direct: set<string>, block: set<string>): Group {
    g.(proxies := seq(|g.proxies|, i requires 0 <= i < |g.proxies| => MapTarget(g.proxies[i], direct, block)))
  }

  /** The route rules, before pins and interception are inserted. */
  function BaseRules(m: Model, rulesets: set<string>): seq<MRule> {
    var direct, block := DirectTags(m.outbounds), BlockTags(m.outbounds);
    RenderRules(m.rules, Mappings(m.ruleProviders) + rulesets, direct, block)
    + [MatchAll(FinalTarget(m.final, direct, block))]
  }

  /** All `i` leading address rejects stay in front; pins and interception follow them. */
  ghost predicate RulesOf(m: Model, rulesets: set<string>, mitm: seq<string>, rules: seq<MRule>, i: nat) {
    var base := BaseRules(m, rulesets);
    && i <= |base| && (forall k | 0 <= k < i :: base[k].IpReject?) && (i < |base| ==> !base[i].IpReject?)
    && rules == base[..i] + PinRules(m, m.inbounds) + MitmRules(mitm) + base[i..]
  }

  /** Which exits, groups and providers the file defines, and what it reports as not translated. */
  ghost predicate DefinesOf(m: Model, rulesets: set<string>, mitm: seq<string>, cfg: Config) {
    && (forall x :: x in cfg.proxies <==>
          (exists o :: o in m.outbounds && Converts(o) && o.tag == x) || (mitm != [] && x == MITM_OUT))
    && (forall x :: x in cfg.unknown <==> exists o :: o in m.outbounds && Unconvertible(o) && o.tag == x)
    && |cfg.groups| == |m.groups|
    && (forall k | 0 <= k < |m.groups| ::
          cfg.groups[k] == MapMembers(m.groups[k], DirectTags(m.outbounds), BlockTags(m.outbounds)))
    && cfg.proxyProviders == Mappings(m.proxyProviders)
    && cfg.ruleProviders == Mappings(m.ruleProviders) + rulesets
    && (forall r :: r in cfg.dropped <==> r in m.rules && IsDropped(r, Mappings(m.ruleProviders) + rulesets))
  }

  ghost predicate Rendered(m: Model, rulesets: set<string>, mitmDomains: seq<string>, cfg: Config) {
    && DefinesOf(m, rulesets, Intercepted(mitmDomains), cfg)
    && exists i: nat :: RulesOf(m, rulesets, Intercepted(mitmDomains), cfg.rules, i)
  }

  /** `singbox_to_mihomo` on a migrated model. */
  method RenderConfig(m: Model, rulesets: set<string>, mitmDomains: seq<string>) returns (cfg: Config)
    ensures Rendered(m, rulesets, mitmDomains, cfg)
  {
    var direct, block := DirectTags(m.outbounds), BlockTags(m.outbounds);
    var proxies, unknown := Proxies(m.outbounds);
    var groups := [];
    for k := 0 to |m.groups|
      invariant |groups| == k && forall j | 0 <= j < k :: groups[j] == MapMembers(m.groups[j], direct, block)
    {
      groups := groups + [MapMembers(m.groups[k], direct, block)];
    }
    var available := Mappings(m.ruleProviders) + rulesets;
    var base, dropped := RulesFromRoute(m, available);
    var inRules := MixedListeners(m);
    var mitm := Intercepted(mitmDomains);
    var rules, at := Assemble(base, inRules, mitm);
    if mitm != [] {
      proxies := proxies + [MITM_OUT];
    }
    cfg := Config(proxies, groups, rules, Mappings(m.proxyProviders), available, unknown, dropped);
    assert RulesOf(m, rulesets, mitm, rules, at);
  }

  method Proxies(outs: seq<Outbound>) returns (proxies: seq<string>, unknown: seq<string>)
    ensures forall x :: x in proxies <==> exists o :: o in outs && Converts(o) && o.tag == x
    ensures forall x :: x in unknown <==> exists o :: o in outs && Unconvertible(o) && o.tag == x
  {
    proxies, unknown := [], [];
    for k := 0 to |outs|
      invariant forall x :: x in proxies <==> exists o :: o in outs[..k] && Converts(o) && o.tag == x
      invariant forall x :: x in unknown <==> exists o :: o in outs[..k] && Unconvertible(o) && o.tag == x
    {
      assert outs[..k + 1] == outs[..k] + [outs[k]];
      if Converts(outs[k]) {
        proxies := proxies + [outs[k].tag];
      } else if Unconvertible(outs[k]) {
        unknown := unknown + [outs[k].tag];
      }
    }
    assert outs[..|outs|] == outs;
  }

  // ---- routing through the whole file ----

  /** The interpreter and the rendered file agree on where a connection goes, layer by layer. */
  lemma RenderingPreservesRouting(m: Model, rulesets: set<string>, mitmDomains: seq<string>, cfg: Config,
                                  sets: map<string, Entries>, c: Conn, remote: Remote)
    requires Rendered(m, rulesets, mitmDomains, cfg) && c.inside == {}
    ensures var info := Interpret(m.rules, m.final, sets, c.domain, false);
            var transparent := c.listener.None? || !ListensAs(m, c.listener.value);
            && (!transparent ==> FirstMatch(cfg.rules, c, remote) == Some(PinRule(m, c.listener.value).target))
            && (transparent && MitmHit(Intercepted(mitmDomains), c.domain) ==>
                  FirstMatch(cfg.rules, c, remote) == Some(MITM_OUT))
            && (transparent && !MitmHit(Intercepted(mitmDomains), c.domain) && info.Certain?
                && CopiesFaithful(sets, c.domain, remote) && Provided(m.rules, sets, c.domain, cfg.ruleProviders) ==>
                  FirstMatch(cfg.rules, c, remote)
                  == Some(MapTarget(info.target, DirectTags(m.outbounds), BlockTags(m.outbounds))))
  {
    var mitm := Intercepted(mitmDomains);
    var i: nat :| RulesOf(m, rulesets, mitm, cfg.rules, i);
    var base := BaseRules(m, rulesets);
    Layers(m, base, i, mitm, c, remote);
    assert forall r | r in base[..i] :: !Hits(r, c, remote);
    BaseIgnoresListeners(m, rulesets, c, remote);
    if Interpret(m.rules, m.final, sets, c.domain, false).Certain?
       && CopiesFaithful(sets, c.domain, remote) && Provided(m.rules, sets, c.domain, cfg.ruleProviders) {
      RulesAgree(m.rules, m.final, sets, c.domain, remote, cfg.ruleProviders,
                 DirectTags(m.outbounds), BlockTags(m.outbounds));
    }
  }

  /** When nothing was dropped, every ruleset that decides has its provider. */
  lemma NothingDroppedIsProvided(m: Model, rulesets: set<string>, mitmDomains: seq<string>, cfg: Config,
                                 sets: map<string, Entries>, d: string)
    requires Rendered(m, rulesets, mitmDomains, cfg) && cfg.dropped == []
    ensures Provided(m.rules, sets, d, cfg.ruleProviders)
  {
  }

  /** Route rules never look at the listener. */
  lemma BaseIgnoresListeners(m: Model, rulesets: set<string>, c: Conn, remote: Remote)
    ensures FirstMatch(BaseRules(m, rulesets), c, remote)
            == FirstMatch(BaseRules(m, rulesets), Conn(c.domain, None, c.inside), remote)
  {
    var direct, block := DirectTags(m.outbounds), BlockTags(m.outbounds);
    RendersFrom(m.rules, Mappings(m.ruleProviders) + rulesets, direct, block);
    WithoutListeners(BaseRules(m, rulesets), c, remote);
  }

  lemma {:induction false} WithoutListeners(rules: seq<MRule>, c: Conn, remote: Remote)
    requires forall r | r in rules :: !r.InName?
    ensures FirstMatch(rules, c, remote) == FirstMatch(rules, Conn(c.domain, None, c.inside), remote)
  {
    if rules != [] {
      assert rules[0] in rules;
      WithoutListeners(rules[1..], c, remote);
    }
  }

  /** Where a rendered route rule comes from. */
  ghost predicate ComesFrom(x: MRule, r: Rule, available: set<string>, direct: set<string>, block: set<string>) {
    if r.reject then x.IpReject?
    else && r.outbound.Some? && r.outbound.value != "" && !x.IpReject? && !x.InName? && !x.MatchAll?
         && x.target == MapTarget(r.outbound.value, direct, block) && (x.RuleSet? ==> x.name in available)
  }

  lemma {:induction false} RendersFrom(rules: seq<Rule>, available: set<string>, direct: set<string>,
                                       block: set<string>)
    ensures forall x | x in RenderRules(rules, available, direct, block) ::
              exists r :: r in rules && ComesFrom(x, r, available, direct, block)
  {
    if rules != [] {
      var n := |rules| - 1;
      RendersFrom(rules[..n], available, direct, block);
      assert rules == rules[..n] + [rules[n]];
      forall x | x in RenderRule(rules[n], available, direct, block)
        ensures ComesFrom(x, rules[n], available, direct, block)
      {
      }
    }
  }

  // ---- closure ----

  /** A policy name the core can resolve in this file. */
  ghost predicate Resolves(cfg: Config, target: string) {
    target == "DIRECT" || target == "REJECT" || target in cfg.proxies || target in GroupNames(cfg.groups)
  }

  /** Every policy and ruleset name is defined in the file. */
  ghost predicate PoliciesResolve(cfg: Config) {
    && (forall r | r in cfg.rules :: Resolves(cfg, TargetOf(r)) && (r.RuleSet? ==> r.name in cfg.ruleProviders))
    && forall g, x | g in cfg.groups && x in g.proxies :: Resolves(cfg, x)
  }

  ghost predicate Used(groups: seq<Group>, u: string) {
    exists g :: g in groups && u in g.uses
  }

  ghost predicate UsesResolve(cfg: Config) {
    forall u | Used(cfg.groups, u) :: u in cfg.proxyProviders
  }

  /** Every target of a valid model without unconvertible exits resolves in the rendered file. */
  lemma TargetResolves(m: Model, rulesets: set<string>, mitm: seq<string>, cfg: Config, x: string)
    requires DefinesOf(m, rulesets, mitm, cfg) && cfg.unknown == []
    requires x in Targets(m) || x == "REJECT"
    ensures Resolves(cfg, MapTarget(x, DirectTags(m.outbounds), BlockTags(m.outbounds)))
  {
    if x in GroupNames(m.groups) {
      var g :| g in m.groups && g.name == x;
      var k :| 0 <= k < |m.groups| && m.groups[k] == g;
      assert cfg.groups[k] in cfg.groups && cfg.groups[k].name == x;
    } else if x in RoutableTags(m.outbounds) {
      var o :| o in m.outbounds && Routable(o.kind) && o.tag == x;
      assert Unconvertible(o) ==> x in cfg.unknown;
    }
  }

  lemma {:induction false} PinIsTarget(rules: seq<Rule>, final: Option<string>, tag: string, targets: set<string>)
    requires final.Some? && final.value in targets
    requires forall r | r in rules && r.outbound.Some? :: r.outbound.value in targets
    ensures PinOf(rules, final, tag).Some? && PinOf(rules, final, tag).value in targets
  {
    if rules != [] {
      assert rules[0] in rules;
      PinIsTarget(rules[1..], final, tag, targets);
    }
  }

  /** One rule of the rendered list. */
  lemma RuleResolves(norm: Norm, m: Model, rulesets: set<string>, mitm: seq<string>, cfg: Config, r: MRule)
    requires Valid(norm, m) && DefinesOf(m, rulesets, mitm, cfg) && cfg.unknown == []
    requires r in BaseRules(m, rulesets) || r in PinRules(m, m.inbounds) || r in MitmRules(mitm)
    ensures Resolves(cfg, TargetOf(r)) && (r.RuleSet? ==> r.name in cfg.ruleProviders)
  {
    var direct, block := DirectTags(m.outbounds), BlockTags(m.outbounds);
    if r in MitmRules(mitm) {
      assert MITM_OUT in cfg.proxies;
    } else if r in PinRules(m, m.inbounds) {
      PinRulesMatch(m, m.inbounds, ToName(""), (a, b) => false);
      var i :| i in m.inbounds && IsListener(i) && r == PinRule(m, ListenerName(i));
      PinIsTarget(m.rules, m.final, ListenerName(i), Targets(m));
      TargetResolves(m, rulesets, mitm, cfg, PinOf(m.rules, m.final, ListenerName(i)).value);
    } else if r == MatchAll(FinalTarget(m.final, direct, block)) {
      TargetResolves(m, rulesets, mitm, cfg, m.final.value);
    } else {
      RendersFrom(m.rules, Mappings(m.ruleProviders) + rulesets, direct, block);
      var rule :| rule in m.rules && ComesFrom(r, rule, Mappings(m.ruleProviders) + rulesets, direct, block);
      if !rule.reject {
        TargetResolves(m, rulesets, mitm, cfg, rule.outbound.value);
      }
    }
  }

  /** A member of a rendered group. */
  lemma MemberResolves(norm: Norm, m: Model, rulesets: set<string>, mitm: seq<string>, cfg: Config, g: Group, x: string)
    requires Valid(norm, m) && DefinesOf(m, rulesets, mitm, cfg) && cfg.unknown == []
    requires g in cfg.groups && x in g.proxies
    ensures Resolves(cfg, x)
  {
    var k :| 0 <= k < |cfg.groups| && cfg.groups[k] == g;
    var j :| 0 <= j < |g.proxies| && g.proxies[j] == x;
    assert m.groups[k] in m.groups && m.groups[k].proxies[j] in m.groups[k].proxies;
    TargetResolves(m, rulesets, mitm, cfg, m.groups[k].proxies[j]);
  }

  lemma FromSomeLayer(m: Model, rulesets: set<string>, mitm: seq<string>, rules: seq<MRule>, i: nat, r: MRule)
    requires RulesOf(m, rulesets, mitm, rules, i) && r in rules
    ensures r in BaseRules(m, rulesets) || r in PinRules(m, m.inbounds) || r in MitmRules(mitm)
  {
  }

  /** Groups keep their `use` lists. */
  lemma SameUses(m: Model, rulesets: set<string>, mitm: seq<string>, cfg: Config)
    requires DefinesOf(m, rulesets, mitm, cfg)
    ensures forall u :: Used(m.groups, u) <==> Used(cfg.groups, u)
  {
  }

  /** The rendered file of a valid model names only policies and rulesets that it defines. */
  lemma PoliciesAreClosed(norm: Norm, m: Model, rulesets: set<string>, mitmDomains: seq<string>, cfg: Config)
    requires Valid(norm, m) && Rendered(m, rulesets, mitmDomains, cfg) && cfg.unknown == []
    ensures PoliciesResolve(cfg)
  {
    var mitm := Intercepted(mitmDomains);
    forall r | r in cfg.rules ensures Resolves(cfg, TargetOf(r)) && (r.RuleSet? ==> r.name in cfg.ruleProviders) {
      var i: nat :| RulesOf(m, rulesets, mitm, cfg.rules, i);
      FromSomeLayer(m, rulesets, mitm, cfg.rules, i, r);
      RuleResolves(norm, m, rulesets, mitm, cfg, r);
    }
    forall g, x | g in cfg.groups && x in g.proxies ensures Resolves(cfg, x) {
      MemberResolves(norm, m, rulesets, mitm, cfg, g, x);
    }
  }

  /**
    Validation asks of a used proxy provider only that the name is declared, so `use` resolves in the
    rendered file exactly when every used provider is a mapping.
   */
  lemma UsesAreClosedIff(m: Model, rulesets: set<string>, mitmDomains: seq<string>, cfg: Config)
    requires Rendered(m, rulesets, mitmDomains, cfg)
    ensures UsesResolve(cfg) <==> forall u | Used(m.groups, u) :: u in m.proxyProviders && m.proxyProviders[u].Mapping?
  {
    SameUses(m, rulesets, Intercepted(mitmDomains), cfg);
  }
}
