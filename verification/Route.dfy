/**
  Where a domain goes: the bot's own interpreter of the route (pdg-bot.py) and the rule list rendered
  for Mihomo (sb2mihomo.py), with the theorem that the two agree.
 */
module Route {
  import opened Common
  import opened Model

  // ---- matching ----

  predicate EndsWith(s: string, t: string) {
    |t| <= |s| && s[|s| - |t|..] == t
  }

  predicate OccursAt(s: string, t: string, i: int) {
    0 <= i <= |s| - |t| && s[i..i + |t|] == t
  }

  predicate Contains(s: string, t: string) {
    exists i | 0 <= i <= |s| - |t| :: OccursAt(s, t, i)
  }

  predicate SuffixHit(d: string, suffix: string) {
    d == suffix || EndsWith(d, "." + suffix)
  }

  function Values(f: Field): seq<string> {
    if f.Items? then f.values else []
  }

  predicate DomainHit(r: Rule, d: string) {
    d in Values(r.domain) || exists s | s in Values(r.suffix) :: SuffixHit(d, s)
  }

  predicate KeywordHit(r: Rule, d: string) {
    exists k | k in Values(r.keyword) :: Contains(d, k)
  }

  /** The entries of a ruleset that the bot can read. */
  datatype Entries = Entries(full: seq<string>, domain: seq<string>, keyword: seq<string>)

  predicate EntriesHit(e: Entries, d: string) {
    d in e.full || (exists s | s in e.domain :: SuffixHit(d, s)) || exists k | k in e.keyword :: Contains(d, k)
  }

  /** `_match_ruleset`: `None` when the local copy cannot be inspected. */
  function LocalHit(sets: map<string, Entries>, name: string, d: string): Option<bool> {
    if name in sets then Some(EntriesHit(sets[name], d)) else None
  }

  /** The `rule_set` of a rule, unless it is missing or empty. */
  function SetOf(r: Rule): Option<string> {
    if r.ruleSet.Some? && r.ruleSet.value != "" then r.ruleSet else None
  }

  // ---- the interpreter ----

  datatype Reason = ExplicitDomain | KeywordRule | RuleSetRule | Default

  datatype Info = Certain(target: string, reason: Reason) | Unavailable | Malformed

  predicate HasMalformedField(r: Rule) {
    r.domain.Malformed? || r.suffix.Malformed? || r.keyword.Malformed?
  }

  /** Keys besides `outbound` and the three domain lists. */
  predicate ExtraForDomain(r: Rule) {
    r.reject || r.extra || r.ruleSet.Some? || r.inbound.Some? || r.ipCidr.Some?
  }

  /** Keys besides `outbound` and `rule_set`. */
  predicate ExtraForSet(r: Rule) {
    || r.reject || r.extra || r.inbound.Some? || r.ipCidr.Some?
    || !r.domain.Absent? || !r.suffix.Absent? || !r.keyword.Absent?
  }

  /** What one rule decides: a final answer, or whether the walk goes on certain or uncertain. */
  datatype Verdict = Stop(info: Info) | Continue(uncertain: bool)

  function Judge(r: Rule, sets: map<string, Entries>, d: string, uncertain: bool): Verdict {
    if HasMalformedField(r) then Stop(Unavailable) else
    var explicit := DomainHit(r, d) || KeywordHit(r, d);
    var name := SetOf(r);
    if r.outbound.None? then
      if explicit || (name.Some? && LocalHit(sets, name.value, d) != Some(false)) then Stop(Unavailable)
      else Continue(uncertain)
    else if r.outbound.value == "" then Stop(Info.Malformed)
    else if explicit then
      if ExtraForDomain(r) || uncertain then Stop(Unavailable)
      else Stop(Certain(r.outbound.value, if DomainHit(r, d) then ExplicitDomain else KeywordRule))
    else if name.Some? then
      var hit := LocalHit(sets, name.value, d);
      if hit == Some(true) && ExtraForSet(r) then Stop(Unavailable)
      else if hit.None? then Continue(true)
      else if hit == Some(true) then
        if uncertain then Stop(Unavailable) else Stop(Certain(r.outbound.value, RuleSetRule))
      else Continue(uncertain)
    else Continue(uncertain)
  }

  function Interpret(rules: seq<Rule>, final: Option<string>, sets: map<string, Entries>, d: string,
                     uncertain: bool): Info
  {
    if rules == [] then
      if uncertain then Unavailable
      else if final.None? || final.value == "" then Info.Malformed
      else Certain(final.value, Default)
    else match Judge(rules[0], sets, d, uncertain)
      case Stop(info) => info
      case Continue(u) => Interpret(rules[1..], final, sets, d, u)
  }

  /** `_singbox_route_info_unchecked`, with its `uncertain` variable. */
  method RouteInfo(m: Model, sets: map<string, Entries>, d: string) returns (info: Info)
    ensures info == Interpret(m.rules, m.final, sets, d, false)
  {
    var uncertain := false;
    assert m.rules[0..] == m.rules;
    for i := 0 to |m.rules|
      invariant Interpret(m.rules, m.final, sets, d, false) == Interpret(m.rules[i..], m.final, sets, d, uncertain)
    {
      var r := m.rules[i];
      assert m.rules[i..][0] == r && m.rules[i..][1..] == m.rules[i + 1..];
      if HasMalformedField(r) { return Unavailable; }
      var explicit := DomainHit(r, d) || KeywordHit(r, d);
      var name := SetOf(r);
      if r.outbound.None? {
        if explicit { return Unavailable; }
        if name.Some? {
          var hit := LocalHit(sets, name.value, d);
          if hit != Some(false) { return Unavailable; }
        }
        continue;
      }
      if r.outbound.value == "" { return Info.Malformed; }
      if explicit {
        if ExtraForDomain(r) || uncertain { return Unavailable; }
        return Certain(r.outbound.value, if DomainHit(r, d) then ExplicitDomain else KeywordRule);
      }
      if name.Some? {
        var hit := LocalHit(sets, name.value, d);
        if hit == Some(true) && ExtraForSet(r) { return Unavailable; }
        if hit.None? {
          uncertain := true;
        } else if hit.value {
          if uncertain { return Unavailable; }
          return Certain(r.outbound.value, RuleSetRule);
        }
      }
    }
    if uncertain { return Unavailable; }
    if m.final.None? || m.final.value == "" { return Info.Malformed; }
    return Certain(m.final.value, Default);
  }

  // ---- the rendered rule list ----

  datatype MRule =
    | IpReject(cidr: string)
    | InName(listener: string, target: string)
    | RuleSet(name: string, target: string)
    | DomainSuffix(value: string, target: string)
    | Domain(value: string, target: string)
    | DomainKeyword(value: string, target: string)
    | MatchAll(target: string)

  /** `_map_target`. */
  function MapTarget(tag: string, direct: set<string>, block: set<string>): string {
    if tag in direct then "DIRECT" else if tag in block then "REJECT" else tag
  }

  /** What one route rule renders to; dropped rules render to nothing. */
  function RenderRule(r: Rule, available: set<string>, direct: set<string>, block: set<string>): seq<MRule> {
    if r.reject then
      var cidrs := if r.ipCidr.Some? then r.ipCidr.value else [];
      seq(|cidrs|, i requires 0 <= i < |cidrs| => IpReject(cidrs[i]))
    else if r.outbound.None? || r.outbound.value == "" then []
    else
      var target := MapTarget(r.outbound.value, direct, block);
      if SetOf(r).Some? then
        if SetOf(r).value in available then [RuleSet(SetOf(r).value, target)] else []
      else
        DomainBlock(r, target)
  }

  function DomainBlock(r: Rule, target: string): seq<MRule> {
    var s, d, k := Values(r.suffix), Values(r.domain), Values(r.keyword);
    seq(|s|, i requires 0 <= i < |s| => DomainSuffix(s[i], target))
    + seq(|d|, i requires 0 <= i < |d| => Domain(d[i], target))
    + seq(|k|, i requires 0 <= i < |k| => DomainKeyword(k[i], target))
  }

  function RenderRules(rules: seq<Rule>, available: set<string>, direct: set<string>, block: set<string>): seq<MRule> {
    if rules == [] then [] else
    RenderRules(rules[..|rules| - 1], available, direct, block)
    + RenderRule(rules[|rules| - 1], available, direct, block)
  }

  function FinalTarget(final: Option<string>, direct: set<string>, block: set<string>): string {
    if final.Some? && final.value != "" then MapTarget(final.value, direct, block) else "DIRECT"
  }

  predicate IsDropped(r: Rule, available: set<string>) {
    !r.reject && (r.outbound.None? || r.outbound.value == "" || (SetOf(r).Some? && SetOf(r).value !in available))
  }

  /** `_rules_from_route`: appends rule by rule and remembers what it had to leave out. */
  method RulesFromRoute(m: Model, available: set<string>) returns (rules: seq<MRule>, dropped: seq<Rule>)
    ensures var direct, block := DirectTags(m.outbounds), BlockTags(m.outbounds);
            rules == RenderRules(m.rules, available, direct, block) + [MatchAll(FinalTarget(m.final, direct, block))]
    ensures forall r :: r in dropped <==> r in m.rules && IsDropped(r, available)
    ensures forall r :: r in dropped <==>
              && r in m.rules && !r.reject
              && (r.outbound.None? || r.outbound == Some("")
                  || (r.ruleSet.Some? && r.ruleSet.value != "" && r.ruleSet.value !in available))
  {
    var direct, block := DirectTags(m.outbounds), BlockTags(m.outbounds);
    rules, dropped := [], [];
    for i := 0 to |m.rules|
      invariant rules == RenderRules(m.rules[..i], available, direct, block)
      invariant forall r :: r in dropped <==> r in m.rules[..i] && IsDropped(r, available)
    {
      var r := m.rules[i];
      assert m.rules[..i + 1] == m.rules[..i] + [r] && m.rules[..i + 1][..i] == m.rules[..i];
      rules := rules + RenderRule(r, available, direct, block);
      if IsDropped(r, available) {
        dropped := dropped + [r];
      }
    }
    assert m.rules[..|m.rules|] == m.rules;
    rules := rules + [MatchAll(FinalTarget(m.final, direct, block))];
  }

  // ---- first match ----

  /**
    A connection, coming in through a mixed listener or transparently; `inside` are the address ranges its destination
    is known to lie in, and so empty for one that carries a domain name.
   */
  datatype Conn = Conn(domain: string, listener: Option<string>, inside: set<string>)

  function ToName(d: string): Conn {
    Conn(d, None, {})
  }

  /** Membership of a domain in the remote provider of a ruleset. */
  type Remote = (string, string) -> bool

  /** Address rules are rendered as not resolving, so they never match a connection to a domain name. */
  predicate Hits(r: MRule, c: Conn, remote: Remote) {
    match r
    case IpReject(cidr) => cidr in c.inside
    case InName(listener, _) => c.listener == Some(listener)
    case RuleSet(name, _) => remote(name, c.domain)
    case DomainSuffix(value, _) => SuffixHit(c.domain, value)
    case Domain(value, _) => c.domain == value
    case DomainKeyword(value, _) => Contains(c.domain, value)
    case MatchAll(_) => true
  }

  function TargetOf(r: MRule): string {
    if r.IpReject? then "REJECT" else r.target
  }

  function FirstMatch(rules: seq<MRule>, c: Conn, remote: Remote): Option<string> {
    if rules == [] then None
    else if Hits(rules[0], c, remote) then Some(TargetOf(rules[0]))
    else FirstMatch(rules[1..], c, remote)
  }

  lemma {:induction false} FirstMatchSplit(a: seq<MRule>, b: seq<MRule>, c: Conn, remote: Remote)
    ensures FirstMatch(a + b, c, remote) ==
            if FirstMatch(a, c, remote).Some? then FirstMatch(a, c, remote) else FirstMatch(b, c, remote)
  {
    if a == [] {
      assert a + b == b;
    } else {
      assert (a + b)[1..] == a[1..] + b;
      FirstMatchSplit(a[1..], b, c, remote);
    }
  }

  /** When all rules of a block have one target, only whether any of them hits matters. */
  lemma {:induction false} OneTarget(rules: seq<MRule>, target: string, c: Conn, remote: Remote)
    requires forall r | r in rules :: TargetOf(r) == target
    ensures FirstMatch(rules, c, remote) == if exists r :: r in rules && Hits(r, c, remote) then Some(target) else None
  {
    if rules != [] {
      assert rules == [rules[0]] + rules[1..];
      OneTarget(rules[1..], target, c, remote);
    }
  }

  lemma {:induction false} RenderFromFront(rules: seq<Rule>, available: set<string>, direct: set<string>,
                                           block: set<string>)
    requires rules != []
    ensures RenderRules(rules, available, direct, block)
            == RenderRule(rules[0], available, direct, block) + RenderRules(rules[1..], available, direct, block)
  {
    var n := |rules| - 1;
    if n > 0 {
      RenderFromFront(rules[..n], available, direct, block);
      assert rules[..n][1..] == rules[1..][..n - 1];
      assert rules[1..][n - 1] == rules[n];
    }
  }

  // ---- agreement ----

  /** The local copies say what the remote providers say about `d`. */
  ghost predicate CopiesFaithful(sets: map<string, Entries>, d: string, remote: Remote) {
    forall name | name in sets :: remote(name, d) == EntriesHit(sets[name], d)
  }

  /** Every ruleset that matches `d` and routes it has a provider in the rendered file. */
  ghost predicate Provided(rules: seq<Rule>, sets: map<string, Entries>, d: string, available: set<string>) {
    forall r | r in rules && !r.reject && SetOf(r).Some? && SetOf(r).value in sets
               && EntriesHit(sets[SetOf(r).value], d) ::
      SetOf(r).value in available
  }

  lemma {:induction false} UncertainStaysSo(rules: seq<Rule>, final: Option<string>, sets: map<string, Entries>,
                                            d: string)
    ensures !Interpret(rules, final, sets, d, true).Certain?
  {
    if rules != [] {
      UncertainStaysSo(rules[1..], final, sets, d);
    }
  }

  /** A rule whose lists mention `d` renders to some rule that hits. */
  lemma DomainBlockHit(r: Rule, d: string, target: string) returns (j: int)
    requires DomainHit(r, d) || KeywordHit(r, d)
    ensures 0 <= j < |DomainBlock(r, target)|
    ensures forall remote: Remote :: Hits(DomainBlock(r, target)[j], ToName(d), remote)
    ensures TargetOf(DomainBlock(r, target)[j]) == target
  {
    var s, e, k := Values(r.suffix), Values(r.domain), Values(r.keyword);
    if d in e {
      var i :| 0 <= i < |e| && e[i] == d;
      j := |s| + i;
      assert DomainBlock(r, target)[j] == Domain(d, target);
    } else if x :| x in s && SuffixHit(d, x) {
      j :| 0 <= j < |s| && s[j] == x;
      assert DomainBlock(r, target)[j] == DomainSuffix(x, target);
    } else {
      var x :| x in k && Contains(d, x);
      var i :| 0 <= i < |k| && k[i] == x;
      j := |s| + |e| + i;
      assert DomainBlock(r, target)[j] == DomainKeyword(x, target);
    }
  }

  /** A rule that decides with certainty renders to rules of which one hits, all with its mapped target. */
  lemma DecidingRuleHits(r: Rule, sets: map<string, Entries>, d: string, remote: Remote,
                         available: set<string>, direct: set<string>, block: set<string>)
    requires CopiesFaithful(sets, d, remote) && Provided([r], sets, d, available)
    requires Judge(r, sets, d, false).Stop? && Judge(r, sets, d, false).info.Certain?
    ensures FirstMatch(RenderRule(r, available, direct, block), ToName(d), remote)
            == Some(MapTarget(Judge(r, sets, d, false).info.target, direct, block))
  {
    var target := MapTarget(r.outbound.value, direct, block);
    var block_ := RenderRule(r, available, direct, block);
    var c := ToName(d);
    OneTarget(block_, target, c, remote);
    if DomainHit(r, d) || KeywordHit(r, d) {
      var j := DomainBlockHit(r, d, target);
      var items := DomainBlock(r, target);
      assert block_ == items && items[j] in items && Hits(items[j], c, remote);
    } else {
      assert r in [r];
      assert block_ == [RuleSet(SetOf(r).value, target)];
    }
  }

  /** A rule the walk passes with certainty renders to nothing that hits. */
  lemma PassedRuleMisses(r: Rule, sets: map<string, Entries>, d: string, remote: Remote,
                         available: set<string>, direct: set<string>, block: set<string>)
    requires CopiesFaithful(sets, d, remote) && Judge(r, sets, d, false) == Continue(false)
    ensures FirstMatch(RenderRule(r, available, direct, block), ToName(d), remote) == None
  {
    var block_ := RenderRule(r, available, direct, block);
    if r.reject {
      OneTarget(block_, "REJECT", ToName(d), remote);
    } else if r.outbound.Some? && r.outbound.value != "" {
      var target := MapTarget(r.outbound.value, direct, block);
      OneTarget(block_, target, ToName(d), remote);
      if SetOf(r).None? {
        NothingHits(r, d, target, remote);
      }
    }
  }

  lemma NothingHits(r: Rule, d: string, target: string, remote: Remote)
    requires !DomainHit(r, d) && !KeywordHit(r, d)
    ensures forall x | x in DomainBlock(r, target) :: !Hits(x, ToName(d), remote)
  {
    var s, e, k, b := Values(r.suffix), Values(r.domain), Values(r.keyword), DomainBlock(r, target);
    forall i | 0 <= i < |b| ensures !Hits(b[i], ToName(d), remote) {
      if i < |s| {
        assert b[i] == DomainSuffix(s[i], target) && s[i] in s;
      } else if i < |s| + |e| {
        assert b[i] == Domain(e[i - |s|], target) && e[i - |s|] in e;
      } else {
        assert b[i] == DomainKeyword(k[i - |s| - |e|], target) && k[i - |s| - |e|] in k;
      }
    }
  }

  lemma {:induction false} RulesAgree(rules: seq<Rule>, final: Option<string>, sets: map<string, Entries>,
                                      d: string, remote: Remote,
                                      available: set<string>, direct: set<string>, block: set<string>)
    requires CopiesFaithful(sets, d, remote) && Provided(rules, sets, d, available)
    requires Interpret(rules, final, sets, d, false).Certain?
    ensures FirstMatch(RenderRules(rules, available, direct, block) + [MatchAll(FinalTarget(final, direct, block))],
                       ToName(d), remote)
            == Some(MapTarget(Interpret(rules, final, sets, d, false).target, direct, block))
  {
    var last := [MatchAll(FinalTarget(final, direct, block))];
    if rules == [] {
      assert RenderRules(rules, available, direct, block) + last == last;
    } else {
      var head := RenderRule(rules[0], available, direct, block);
      var tail := RenderRules(rules[1..], available, direct, block);
      RenderFromFront(rules, available, direct, block);
      assert head + tail + last == head + (tail + last);
      FirstMatchSplit(head, tail + last, ToName(d), remote);
      match Judge(rules[0], sets, d, false)
      case Stop(_) =>
        assert Provided([rules[0]], sets, d, available) by {
          assert rules[0] in rules;
        }
        DecidingRuleHits(rules[0], sets, d, remote, available, direct, block);
      case Continue(u) =>
        UncertainStaysSo(rules[1..], final, sets, d);
        PassedRuleMisses(rules[0], sets, d, remote, available, direct, block);
        assert forall r | r in rules[1..] :: r in rules;
        RulesAgree(rules[1..], final, sets, d, remote, available, direct, block);
    }
  }
}
