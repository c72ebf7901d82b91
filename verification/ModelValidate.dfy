/** `validate` as the loops and mutable sets it is written with, proved against the specification. */
module ModelValidate {
  import opened Common
  import opened GroupGraph
  import opened Model

  /** `direct_tag` and the loop over outbounds. */
  method CheckOutbounds(norm: Norm, outs: seq<Outbound>) returns (ok: bool)
    ensures ok <==> OneDirect(outs) && DistinctTags(outs) && forall o | o in outs :: OutboundOk(norm, o)
  {
    var directs := 0;
    ghost var at := 0;
    for i := 0 to |outs|
      invariant directs == 0 ==> forall j | 0 <= j < i :: !outs[j].kind.Direct?
      invariant directs == 1 ==> 0 <= at < i && outs[at].kind.Direct?
                                 && forall j | 0 <= j < i && outs[j].kind.Direct? :: j == at
      invariant directs >= 2 ==> exists j, k :: 0 <= j < k < i && outs[j].kind.Direct? && outs[k].kind.Direct?
      invariant directs >= 0
    {
      if outs[i].kind.Direct? {
        if directs == 1 {
          assert outs[at].kind.Direct? && outs[i].kind.Direct?;
        }
        if directs == 0 { at := i; }
        directs := directs + 1;
      }
    }
    if directs != 1 {
      return false;
    }
    if exists o | o in outs :: o.kind.Direct? && (!MachineTag(o.tag) || o.tag in RESERVED) {
      return false;
    }
    assert IsTheDirect(outs, outs[at]);
    var seen: set<string> := {};
    for i := 0 to |outs|
      invariant seen == set j | 0 <= j < i :: outs[j].tag
      invariant forall j, k | 0 <= j < k < i :: outs[j].tag != outs[k].tag
      invariant forall j | 0 <= j < i :: OutboundOk(norm, outs[j])
    {
      if !OutboundOk(norm, outs[i]) {
        assert outs[i] in outs;
        return false;
      }
      if outs[i].tag in seen {
        return false;
      }
      seen := seen + {outs[i].tag};
    }
    return true;
  }

  /** Which options a group of each type may carry, and their ranges. */
  lemma OptionsIff(g: Group)
    ensures var o := g.probe;
            OptionsOk(g) <==>
              match g.kind
              case Select => o == Probe(None, None, None)
              case UrlTest =>
                && (o.url.Some? ==> exists scheme, rest :: UrlParts(o.url.value, scheme, rest))
                && (o.interval.Some? ==> 0 < o.interval.value <= 7 * 86400)
                && (o.tolerance.Some? ==> 0 <= o.tolerance.value < 65536)
              case _ =>
                && (o.url.Some? ==> exists scheme, rest :: UrlParts(o.url.value, scheme, rest))
                && (o.interval.Some? ==> 0 < o.interval.value <= 7 * 86400) && o.tolerance.None?
  {
    if g.probe.url.Some? {
      UrlIff(g.probe.url.value);
    }
  }

  /** What `https?://[^\s\x00]+` matches, in either case. */
  ghost predicate UrlParts(u: string, scheme: string, rest: string) {
    && u == scheme + rest && rest != []
    && (forall c | c in rest :: !White(c) && c != '\0')
    && (Spells(scheme, "http://") || Spells(scheme, "https://"))
  }

  ghost predicate Spells(s: string, word: string) {
    |s| == |word| && forall i | 0 <= i < |s| :: SpellsAt(s[i], word[i])
  }

  predicate SpellsAt(c: char, w: char) {
    c == w || ('A' <= c <= 'Z' && c - 'A' + 'a' == w) || (c == '\U{17F}' && w == 's')
  }

  lemma SpellsIff(u: string, word: string)
    requires forall c | c in word :: 'a' <= c <= 'z' || c == ':' || c == '/'
    ensures SameScheme(u, word) <==> |u| > |word| && Spells(u[..|word|], word)
    ensures SameScheme(u, word) ==> forall i | 0 <= i < |word| :: !White(u[i]) && u[i] != '\0'
  {
    if SameScheme(u, word) {
      forall i | 0 <= i < |word|
        ensures SpellsAt(u[i], word[i]) && !White(u[i]) && u[i] != '\0'
      {
        assert word[i] in word;
      }
      assert forall i | 0 <= i < |word| :: u[..|word|][i] == u[i];
    } else if |u| > |word| && Spells(u[..|word|], word) {
      forall i | 0 <= i < |word| ensures LowerAscii(u[i]) == word[i] || (u[i] == '\U{17F}' && word[i] == 's') {
        assert u[..|word|][i] == u[i] && word[i] in word && SpellsAt(u[i], word[i]);
      }
    }
  }

  lemma UrlIff(u: string)
    ensures HttpUrl(u) <==> exists scheme, rest :: UrlParts(u, scheme, rest)
  {
    SpellsIff(u, "http://");
    SpellsIff(u, "https://");
    if HttpUrl(u) {
      var n := if SameScheme(u, "http://") then 7 else 8;
      assert u == u[..n] + u[n..];
      assert UrlParts(u, u[..n], u[n..]);
    }
    forall scheme, rest | UrlParts(u, scheme, rest) ensures HttpUrl(u) {
      assert u[..|scheme|] == scheme;
      forall i | 0 <= i < |u| ensures !White(u[i]) && u[i] != '\0' {
        if i >= |scheme| {
          assert u[i] in rest;
        }
      }
    }
  }

  method HasDup(s: seq<string>) returns (dup: bool)
    ensures dup <==> !NoDup(s)
  {
    var seen: set<string> := {};
    for i := 0 to |s|
      invariant seen == set j | 0 <= j < i :: s[j]
      invariant forall j, k | 0 <= j < k < i :: s[j] != s[k]
    {
      if s[i] in seen { return true; }
      seen := seen + {s[i]};
    }
    return false;
  }

  /** `_validate_group` and the loop that collects the groups. */
  method CheckGroups(norm: Norm, groups: seq<Group>) returns (ok: bool)
    ensures ok <==> DistinctNames(groups) && forall g | g in groups :: GroupOk(norm, g)
  {
    var seen: set<string> := {};
    for i := 0 to |groups|
      invariant seen == set j | 0 <= j < i :: groups[j].name
      invariant forall j, k | 0 <= j < k < i :: groups[j].name != groups[k].name
      invariant forall j | 0 <= j < i :: GroupOk(norm, groups[j])
    {
      var g := groups[i];
      var dupProxies := HasDup(g.proxies);
      var dupUses := HasDup(g.uses);
      if !ValidName(norm, g.name) || !OptionsOk(g) || dupProxies || dupUses || (g.proxies == [] && g.uses == []) {
        assert g in groups && !GroupOk(norm, g);
        return false;
      }
      if g.name in seen { return false; }
      seen := seen + {g.name};
    }
    return true;
  }

  /** The member loop: references, REJECT aliases and provider references of every group. */
  method CheckMembers(m: Model) returns (ok: bool)
    requires forall g | g in m.groups :: NoDup(g.proxies)
    ensures ok <==> forall g | g in m.groups :: MembersOk(m, g)
  {
    var known := Targets(m) + {"REJECT"};
    for i := 0 to |m.groups|
      invariant forall j | 0 <= j < i :: MembersOk(m, m.groups[j])
    {
      var g := m.groups[i];
      if exists x | x in g.proxies :: x !in known {
        assert g in m.groups;
        return false;
      }
      var alias: Option<string> := None;
      for k := 0 to |g.proxies|
        invariant alias.None? ==> forall j | 0 <= j < k :: !RejectAlias(m, g.proxies[j])
        invariant alias.Some? ==> alias.value in g.proxies[..k] && RejectAlias(m, alias.value)
        invariant alias.Some? ==>
                    forall j | 0 <= j < k && RejectAlias(m, g.proxies[j]) :: g.proxies[j] == alias.value
      {
        if RejectAlias(m, g.proxies[k]) {
          if alias.Some? {
            assert alias.value in g.proxies && g.proxies[k] in g.proxies && g in m.groups;
            return false;
          }
          alias := Some(g.proxies[k]);
        }
        assert g.proxies[..k + 1] == g.proxies[..k] + [g.proxies[k]];
      }
      if exists u | u in g.uses :: u !in m.proxyProviders {
        assert g in m.groups;
        return false;
      }
    }
    return true;
  }

  method CheckRoute(m: Model) returns (ok: bool)
    ensures ok <==> RouteOk(m)
  {
    if m.final.None? || m.final.value !in Targets(m) { return false; }
    for i := 0 to |m.rules|
      invariant forall j | 0 <= j < i && m.rules[j].outbound.Some? :: m.rules[j].outbound.value in Targets(m)
    {
      var r := m.rules[i];
      if r.outbound.Some? && r.outbound.value !in Targets(m) {
        assert r in m.rules;
        return false;
      }
    }
    return true;
  }

  /** `validate` accepts exactly the valid models; the recursive cycle check decides rankability. */
  method Validate(norm: Norm, m: Model) returns (ok: bool)
    ensures ok <==> Valid(norm, m)
  {
    ok := CheckOutbounds(norm, m.outbounds);
    if !ok { return; }
    ok := CheckGroups(norm, m.groups);
    if !ok { return; }
    if exists p | p in m.proxyProviders.Keys + m.ruleProviders.Keys :: !ValidName(norm, p) { return false; }
    var tags, names := Tags(m.outbounds), GroupNames(m.groups);
    if !(tags !! names !! m.proxyProviders.Keys !! m.ruleProviders.Keys) { return false; }
    if !(tags + names + m.proxyProviders.Keys + m.ruleProviders.Keys !! RESERVED) { return false; }
    ok := CheckMembers(m);
    if !ok { return; }
    var checker := new Checker(GraphOf(m.groups));
    ok := checker.AllAcyclic();
    if !ok { return; }
    ok := CheckRoute(m);
  }
}
