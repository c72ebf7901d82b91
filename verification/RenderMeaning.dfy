/** What the rendered file does with every connection, in terms of the model's rules and exits. */
module RenderMeaning {
  import opened Common
  import opened Model
  import opened Route
  import opened RouteMeaning
  import opened Render

  // ---- listener pins ----

  ghost predicate IsPin(r: Rule, tag: string) {
    r.inbound.Some? && tag in r.inbound.value && r.outbound.Some? && r.outbound.value != ""
  }

  /** The first rule that pins the listener decides, or else the final target. */
  ghost predicate PinnedTo(m: Model, tag: string, k: int, p: string) {
    && 0 <= k <= |m.rules| && (forall i | 0 <= i < k :: !IsPin(m.rules[i], tag))
    && if k < |m.rules| then IsPin(m.rules[k], tag) && IsPolicy(m, m.rules[k].outbound.value, p)
       else IsFinal(m, m.final, p)
  }

  lemma {:induction false} PinFrom(rules: seq<Rule>, final: Option<string>, tag: string) returns (k: int)
    ensures 0 <= k <= |rules| && (forall i | 0 <= i < k :: !IsPin(rules[i], tag))
    ensures k < |rules| ==> IsPin(rules[k], tag)
    ensures PinOf(rules, final, tag) == if k < |rules| then rules[k].outbound else final
  {
    if rules == [] || IsPin(rules[0], tag) {
      k := 0;
    } else {
      var j := PinFrom(rules[1..], final, tag);
      k := j + 1;
      assert forall i | 0 < i < k :: rules[i] == rules[1..][i - 1];
    }
  }

  lemma PinMeaning(m: Model, tag: string) returns (k: int)
    ensures PinRule(m, tag).listener == tag && PinnedTo(m, tag, k, PinRule(m, tag).target)
  {
    k := PinFrom(m.rules, m.final, tag);
    FinalIsPolicy(m);
    if k < |m.rules| {
      MapTargetIsPolicy(m, m.rules[k].outbound.value);
    }
  }

  /** A mixed inbound with a port listens under its tag, or under the default one. */
  ghost predicate Listens(m: Model, name: string) {
    exists i :: i in m.inbounds && i.mixed && i.port != 0 && name == if i.tag == "" then "mixed-in" else i.tag
  }

  // ---- interception ----

  /** `d` is `n` up to letter case and dots at the end. */
  ghost predicate SameDomain(d: string, n: string) {
    && |d| >= |n| && (forall i | 0 <= i < |n| :: LowerAscii(d[i]) == n[i])
    && forall i | |n| <= i < |d| :: d[i] == '.'
  }

  ghost predicate Current(d: string) {
    !SameDomain(d, "gs-loc.apple.com") && !SameDomain(d, "gs-loc-cn.apple.com")
  }

  predicate Equal(a: string, b: string) { a == b }

  ghost function IsCurrent(): string -> bool {
    (d: string) => Current(d)
  }

  lemma {:induction false} StripDotsIs(s: string, n: string)
    requires n != "" && n[|n| - 1] != '.'
    ensures StripDots(s) == n <==> n <= s && forall i | |n| <= i < |s| :: s[i] == '.'
  {
    if s != "" && s[|s| - 1] == '.' {
      StripDotsIs(s[..|s| - 1], n);
      assert n <= s && n != s ==> n <= s[..|s| - 1];
    }
  }

  lemma SameDomainIs(d: string, n: string)
    requires n != "" && n[|n| - 1] != '.'
    ensures StripDots(Lower(d)) == n <==> SameDomain(d, n)
  {
    var l := Lower(d);
    StripDotsIs(l, n);
    assert |l| == |d| && forall i | 0 <= i < |d| :: l[i] == LowerAscii(d[i]) && (l[i] == '.' <==> d[i] == '.');
    if n <= l {
      assert forall i | 0 <= i < |n| :: l[i] == n[i];
    }
    if SameDomain(d, n) {
      assert l[..|n|] == n;
    }
  }

  lemma RetiredIs(d: string)
    ensures StripDots(Lower(d)) in RETIRED <==> !Current(d)
  {
    SameDomainIs(d, "gs-loc.apple.com");
    SameDomainIs(d, "gs-loc-cn.apple.com");
  }

  /** The interception list without the two retired domains, however they are spelled. */
  lemma {:induction false} InterceptedMeaning(domains: seq<string>)
    ensures Sieved(domains, Intercepted(domains), IsCurrent(), Equal)
    ensures forall x :: x in Intercepted(domains) <==> x in domains && Current(x)
  {
    if domains == [] {
      SieveEmpty(IsCurrent(), Equal);
    } else {
      var d := domains[0];
      InterceptedMeaning(domains[1..]);
      RetiredIs(d);
      SieveMore(domains, Intercepted(domains[1..]), IsCurrent(), Equal, if Current(d) then [d] else []);
      assert domains == [d] + domains[1..];
    }
  }

  // ---- groups ----

  /** A rendered group is the model's with its members under their policy names. */
  ghost predicate GroupRendered(m: Model, g: Group, h: Group) {
    && h.name == g.name && h.kind == g.kind && h.uses == g.uses && h.probe == g.probe && |h.proxies| == |g.proxies|
    && forall j | 0 <= j < |g.proxies| :: IsPolicy(m, g.proxies[j], h.proxies[j])
  }

  lemma GroupsMeaning(m: Model, rulesets: set<string>, mitmDomains: seq<string>, cfg: Config)
    requires Rendered(m, rulesets, mitmDomains, cfg)
    ensures |cfg.groups| == |m.groups| && forall k | 0 <= k < |m.groups| :: GroupRendered(m, m.groups[k], cfg.groups[k])
  {
    forall k | 0 <= k < |m.groups| ensures GroupRendered(m, m.groups[k], cfg.groups[k]) {
      forall j | 0 <= j < |m.groups[k].proxies| ensures IsPolicy(m, m.groups[k].proxies[j], cfg.groups[k].proxies[j]) {
        MapTargetIsPolicy(m, m.groups[k].proxies[j]);
      }
    }
  }

  // ---- the address rejects in front ----

  /** The rule leaves nothing in the file. */
  ghost predicate Silent(r: Rule, available: set<string>) {
    if r.reject then r.ipCidr.None? || r.ipCidr.value == []
    else if r.outbound.None? || r.outbound.value == "" then true
    else if NoSet(r) then Values(r.domain) == [] && Values(r.suffix) == [] && Values(r.keyword) == []
    else r.ruleSet.value !in available
  }

  /** An address reject with only address rejects and rules that leave nothing before it. */
  ghost predicate LeadReject(rules: seq<Rule>, available: set<string>, k: int) {
    && 0 <= k < |rules| && rules[k].reject && forall i | 0 <= i < k :: rules[i].reject || Silent(rules[i], available)
  }

  function Lead(rules: seq<MRule>): seq<MRule> {
    if rules != [] && rules[0].IpReject? then [rules[0]] + Lead(rules[1..]) else []
  }

  lemma {:induction false} LeadIs(rules: seq<MRule>, i: nat)
    requires i <= |rules| && (forall k | 0 <= k < i :: rules[k].IpReject?) && (i < |rules| ==> !rules[i].IpReject?)
    ensures Lead(rules) == rules[..i]
  {
    if i > 0 {
      LeadIs(rules[1..], i - 1);
      assert rules[..i] == [rules[0]] + rules[1..][..i - 1];
    }
  }

  lemma {:induction false} LeadAppend(a: seq<MRule>, b: seq<MRule>)
    ensures Lead(a + b) == if AllRejects(a) then a + Lead(b) else Lead(a)
  {
    if a == [] {
      assert a + b == b && a + Lead(b) == Lead(b);
    } else if a[0].IpReject? {
      assert (a + b)[1..] == a[1..] + b && (a + b)[0] == a[0];
      LeadAppend(a[1..], b);
      assert AllRejects(a) ==> [a[0]] + (a[1..] + Lead(b)) == a + Lead(b);
    } else {
      assert (a + b)[0] == a[0];
    }
  }

  predicate AllRejects(a: seq<MRule>) {
    a == [] || (a[0].IpReject? && AllRejects(a[1..]))
  }

  lemma {:induction false} AllRejectsIff(a: seq<MRule>)
    ensures AllRejects(a) <==> forall x | x in a :: x.IpReject?
  {
    if a != [] {
      AllRejectsIff(a[1..]);
      assert a == [a[0]] + a[1..];
    }
  }

  lemma SilentIs(r: Rule, available: set<string>, direct: set<string>, block: set<string>)
    ensures RenderRule(r, available, direct, block) == [] <==> Silent(r, available)
    ensures r.reject ==> forall x | x in RenderRule(r, available, direct, block) :: x.IpReject?
    ensures !r.reject ==> forall x | x in RenderRule(r, available, direct, block) :: !x.IpReject?
  {
  }

  lemma LeadRejectStep(rules: seq<Rule>, available: set<string>, c: Conn)
    requires rules != []
    ensures (exists k :: LeadReject(rules, available, k) && Rejects(rules[k], c)) <==>
              (rules[0].reject && Rejects(rules[0], c))
              || ((rules[0].reject || Silent(rules[0], available))
                  && exists k :: LeadReject(rules[1..], available, k) && Rejects(rules[1..][k], c))
  {
    assert forall i | 0 <= i < |rules| - 1 :: rules[1..][i] == rules[i + 1];
    if k :| LeadReject(rules, available, k) && Rejects(rules[k], c) {
      if k > 0 {
        assert LeadReject(rules[1..], available, k - 1);
      }
    }
    if rules[0].reject && Rejects(rules[0], c) {
      assert LeadReject(rules, available, 0);
    }
    if rules[0].reject || Silent(rules[0], available) {
      if k :| LeadReject(rules[1..], available, k) && Rejects(rules[1..][k], c) {
        assert LeadReject(rules, available, k + 1);
      }
    }
  }

  lemma {:induction false} LeadMeaning(rules: seq<Rule>, available: set<string>, direct: set<string>,
                                       block: set<string>, last: MRule, c: Conn, remote: Remote)
    requires !last.IpReject?
    ensures (exists x :: x in Lead(RenderRules(rules, available, direct, block) + [last]) && Hits(x, c, remote)) <==>
              exists k :: LeadReject(rules, available, k) && Rejects(rules[k], c)
  {
    if rules == [] {
      assert RenderRules(rules, available, direct, block) + [last] == [last];
    } else {
      var head := RenderRule(rules[0], available, direct, block);
      var tail := RenderRules(rules[1..], available, direct, block);
      RenderFromFront(rules, available, direct, block);
      assert head + tail + [last] == head + (tail + [last]);
      LeadAppend(head, tail + [last]);
      AllRejectsIff(head);
      SilentIs(rules[0], available, direct, block);
      LeadMeaning(rules[1..], available, direct, block, last, c, remote);
      LeadRejectStep(rules, available, c);
      if rules[0].reject {
        RejectActs(rules[0], available, direct, block, c, remote);
      } else if head != [] {
        assert head[0] in head && Lead(head) == [];
      }
    }
  }

  // ---- the theorem ----

  /** Where a connection goes, layer by layer. */
  ghost predicate GoesTo(m: Model, rulesets: set<string>, mitmDomains: seq<string>, c: Conn, remote: Remote,
                         p: string)
  {
    var available := Mappings(m.ruleProviders) + rulesets;
    if exists k :: LeadReject(m.rules, available, k) && Rejects(m.rules[k], c) then p == "REJECT"
    else if c.listener.Some? && Listens(m, c.listener.value) then exists k :: PinnedTo(m, c.listener.value, k, p)
    else if exists x :: x in mitmDomains && Current(x) && SuffixHit(c.domain, x) then p == "MITM-OUT"
    else exists k :: RoutedTo(m, available, c, remote, k, p)
  }

  /**
    Every connection matches some rule of the rendered file: first the leading address rejects, then the pin of its
    listener, then interception, then the first route rule that acts, and at last the final target.
   */
  lemma EveryConnectionGoes(m: Model, rulesets: set<string>, mitmDomains: seq<string>, cfg: Config, c: Conn,
                            remote: Remote)
    requires Rendered(m, rulesets, mitmDomains, cfg)
    ensures FirstMatch(cfg.rules, c, remote).Some?
    ensures GoesTo(m, rulesets, mitmDomains, c, remote, FirstMatch(cfg.rules, c, remote).value)
  {
    var mitm, available := Intercepted(mitmDomains), Mappings(m.ruleProviders) + rulesets;
    var direct, block := DirectTags(m.outbounds), BlockTags(m.outbounds);
    var base := BaseRules(m, rulesets);
    var i: nat :| RulesOf(m, rulesets, mitm, cfg.rules, i);
    Layers(m, base, i, mitm, c, remote);
    LeadIs(base, i);
    LeadMeaning(m.rules, available, direct, block, MatchAll(FinalTarget(m.final, direct, block)), c, remote);
    InterceptedMeaning(mitmDomains);
    var k, p := RenderedRoutes(m, available, c, remote);
    if c.listener.Some? {
      var j := PinMeaning(m, c.listener.value);
    }
  }

  /**
    On a valid model, what the interpreter is certain of is what happens: a name of a direct exit goes out directly,
    one of a blocking exit is rejected, and any other exit or group takes the connection under its own name.
   */
  lemma CertainMeansItsExit(norm: Norm, m: Model, rulesets: set<string>, mitmDomains: seq<string>, cfg: Config,
                            sets: map<string, Entries>, d: string, remote: Remote, t: string, why: Reason)
    requires Valid(norm, m) && Rendered(m, rulesets, mitmDomains, cfg)
    requires Interpret(m.rules, m.final, sets, d, false) == Certain(t, why)
    requires CopiesFaithful(sets, d, remote) && Provided(m.rules, sets, d, cfg.ruleProviders)
    requires forall x | x in mitmDomains && SuffixHit(d, x) :: !Current(x)
    ensures exists p :: FirstMatch(cfg.rules, ToName(d), remote) == Some(p) && IsExitOf(m, t, p)
  {
    InterceptedMeaning(mitmDomains);
    RenderingPreservesRouting(m, rulesets, mitmDomains, cfg, sets, ToName(d), remote);
    var p := MapTarget(t, DirectTags(m.outbounds), BlockTags(m.outbounds));
    MapTargetIsPolicy(m, t);
    PolicyIsExit(norm, m, t, p);
  }

  /** `p` is the name under which the file knows the exit or group called `t`. */
  ghost predicate IsExitOf(m: Model, t: string, p: string) {
    && (forall o | o in m.outbounds && o.tag == t ::
          && (o.kind.Direct? ==> p == "DIRECT") && (o.kind.Block? ==> p == "REJECT") && (o.kind.Proxy? ==> p == t))
    && (forall g | g in m.groups && g.name == t :: p == t)
  }

  lemma PolicyIsExit(norm: Norm, m: Model, t: string, p: string)
    requires Valid(norm, m) && IsPolicy(m, t, p)
    ensures IsExitOf(m, t, p)
  {
    forall o | o in m.outbounds && o.tag == t
      ensures (o.kind.Direct? ==> p == "DIRECT") && (o.kind.Block? ==> p == "REJECT") && (o.kind.Proxy? ==> p == t)
    {
      PolicyByExit(norm, m, o, p);
    }
    forall g | g in m.groups && g.name == t ensures p == t {
      PolicyOfGroup(norm, m, g, p);
    }
  }

  /** The exits of the file are the proxies of the protocols it can express, and the interceptor if it is used. */
  lemma ExitsMeaning(m: Model, rulesets: set<string>, mitmDomains: seq<string>, cfg: Config)
    requires Rendered(m, rulesets, mitmDomains, cfg)
    ensures forall x :: x in cfg.proxies <==>
              || (exists o :: o in m.outbounds && o.tag == x && o.kind.Proxy?
                    && o.kind.protocol in {"shadowsocks", "vmess", "trojan", "vless", "hysteria", "hysteria2", "tuic",
                                           "anytls", "socks", "http"})
              || (x == "MITM-OUT" && exists d :: d in mitmDomains && Current(d))
    ensures forall x :: x in cfg.unknown <==>
              exists o :: o in m.outbounds && o.tag == x
                && match o.kind
                   case Proxy(protocol) =>
                     protocol !in {"shadowsocks", "vmess", "trojan", "vless", "hysteria", "hysteria2", "tuic",
                                   "anytls", "socks", "http"}
                   case Plumbing(protocol) => protocol != "dns"
                   case _ => false
  {
    InterceptedMeaning(mitmDomains);
    var mitm := Intercepted(mitmDomains);
    assert mitm != [] ==> mitm[0] in mitm;
  }
}
