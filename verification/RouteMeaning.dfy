/** What the interpreter and the rendered rules say, in terms of the rules themselves and of what an exit is. */
module RouteMeaning {
  import opened Common
  import opened Model
  import opened Route

  // ---- names and patterns ----

  /** A suffix matches the name itself and what ends in a dot and the suffix. */
  lemma SuffixHitIff(d: string, suffix: string)
    ensures SuffixHit(d, suffix) <==> d == suffix || exists p: string :: d == p + "." + suffix
  {
    if SuffixHit(d, suffix) && d != suffix {
      var p := d[..|d| - |suffix| - 1];
      assert d == p + ("." + suffix);
      assert d == p + "." + suffix;
    }
    if p: string :| d == p + "." + suffix {
      assert d == p + ("." + suffix) && d[|p|..] == "." + suffix;
    }
  }

  lemma ContainsIff(s: string, t: string)
    ensures Contains(s, t) <==> exists a: string, b: string :: s == a + t + b
  {
    if Contains(s, t) {
      var i :| 0 <= i <= |s| - |t| && OccursAt(s, t, i);
      assert s == s[..i] + t + s[i + |t|..];
    }
    if a: string, b: string :| s == a + t + b {
      assert s[|a|..|a| + |t|] == t;
      assert OccursAt(s, t, |a|);
    }
  }

  // ---- when the interpreter is certain ----

  /** Some entry of the rule's domain lists matches. */
  ghost predicate Mentions(r: Rule, d: string) {
    || (exists x :: x in Values(r.domain) && x == d)
    || (exists x :: x in Values(r.suffix) && SuffixHit(d, x))
    || (exists x :: x in Values(r.keyword) && Contains(d, x))
  }

  /** The rule has a ruleset of which the local copy is known to match, or known not to. */
  ghost predicate SetKnown(r: Rule, sets: map<string, Entries>, d: string, hit: bool) {
    r.ruleSet.Some? && r.ruleSet.value != "" && r.ruleSet.value in sets && EntriesHit(sets[r.ruleSet.value], d) == hit
  }

  ghost predicate NoSet(r: Rule) {
    r.ruleSet.None? || r.ruleSet.value == ""
  }

  ghost predicate WellFormedRule(r: Rule) {
    !r.domain.Malformed? && !r.suffix.Malformed? && !r.keyword.Malformed? && r.outbound != Some("")
  }

  /** The interpreter is sure that the rule has nothing to do with `d`. */
  ghost predicate SurelyMisses(r: Rule, sets: map<string, Entries>, d: string) {
    WellFormedRule(r) && !Mentions(r, d) && (NoSet(r) || SetKnown(r, sets, d, false))
  }

  /** Nothing but the domain lists and the exit. */
  ghost predicate OnlyDomains(r: Rule) {
    !r.reject && !r.extra && r.ruleSet.None? && r.inbound.None? && r.ipCidr.None?
  }

  /** Nothing but the ruleset and the exit. */
  ghost predicate OnlySet(r: Rule) {
    !r.reject && !r.extra && r.inbound.None? && r.ipCidr.None?
    && r.domain.Absent? && r.suffix.Absent? && r.keyword.Absent?
  }

  /** The interpreter is sure that the rule sends `d` to `t`. */
  ghost predicate SurelySends(r: Rule, sets: map<string, Entries>, d: string, t: string, why: Reason) {
    && WellFormedRule(r) && r.outbound == Some(t)
    && if Mentions(r, d) then
         && OnlyDomains(r)
         && why == (if (exists x :: x in Values(r.domain) && x == d)
                       || (exists x :: x in Values(r.suffix) && SuffixHit(d, x)) then ExplicitDomain else KeywordRule)
       else SetKnown(r, sets, d, true) && OnlySet(r) && why == RuleSetRule
  }

  ghost predicate Settled(rules: seq<Rule>, final: Option<string>, sets: map<string, Entries>, d: string, t: string,
                          why: Reason, k: int)
  {
    && 0 <= k <= |rules| && (forall i | 0 <= i < k :: SurelyMisses(rules[i], sets, d))
    && if k < |rules| then SurelySends(rules[k], sets, d, t, why)
       else final == Some(t) && t != "" && why == Default
  }

  lemma JudgeMeaning(r: Rule, sets: map<string, Entries>, d: string)
    ensures Judge(r, sets, d, false) == Continue(false) <==> SurelyMisses(r, sets, d)
    ensures forall t, why :: Judge(r, sets, d, false) == Stop(Certain(t, why)) <==> SurelySends(r, sets, d, t, why)
  {
    assert DomainHit(r, d) || KeywordHit(r, d) <==> Mentions(r, d);
  }

  /**
    The interpreter answers with certainty exactly if the first rule that might concern the domain is plain, known to
    match and routes somewhere, every rule before it being known not to match; without such a rule, for the final
    target.
   */
  lemma {:induction false} CertainIff(rules: seq<Rule>, final: Option<string>, sets: map<string, Entries>, d: string,
                                      t: string, why: Reason)
    ensures Interpret(rules, final, sets, d, false) == Certain(t, why) <==>
              exists k :: Settled(rules, final, sets, d, t, why, k)
  {
    if rules == [] {
      assert Settled(rules, final, sets, d, t, why, 0) <==> final == Some(t) && t != "" && why == Default;
    } else {
      CertainIff(rules[1..], final, sets, d, t, why);
      JudgeMeaning(rules[0], sets, d);
      UncertainStaysSo(rules[1..], final, sets, d);
      SettledStep(rules, final, sets, d, t, why);
    }
  }

  lemma SettledStep(rules: seq<Rule>, final: Option<string>, sets: map<string, Entries>, d: string, t: string,
                    why: Reason)
    requires rules != []
    ensures (exists k :: Settled(rules, final, sets, d, t, why, k)) <==>
              SurelySends(rules[0], sets, d, t, why)
              || (SurelyMisses(rules[0], sets, d) && exists k :: Settled(rules[1..], final, sets, d, t, why, k))
  {
    assert forall i | 0 <= i < |rules| - 1 :: rules[1..][i] == rules[i + 1];
    if k :| Settled(rules, final, sets, d, t, why, k) {
      if k > 0 {
        assert Settled(rules[1..], final, sets, d, t, why, k - 1);
      }
    }
    if SurelySends(rules[0], sets, d, t, why) {
      assert Settled(rules, final, sets, d, t, why, 0);
    }
    if SurelyMisses(rules[0], sets, d) {
      if k :| Settled(rules[1..], final, sets, d, t, why, k) {
        assert Settled(rules, final, sets, d, t, why, k + 1);
      }
    }
  }

  /** The interpreter cannot tell whether the rule concerns `d`, and goes on in doubt. */
  ghost predicate LeavesOpen(r: Rule, sets: map<string, Entries>, d: string) {
    WellFormedRule(r) && !Mentions(r, d) && r.outbound.Some? && !NoSet(r) && r.ruleSet.value !in sets
  }

  /** The first rule that is not passed has an empty exit; or all surely miss and there is no final target. */
  ghost predicate Broken(rules: seq<Rule>, final: Option<string>, sets: map<string, Entries>, d: string,
                         uncertain: bool, k: int)
  {
    && 0 <= k <= |rules|
    && (forall i | 0 <= i < k :: SurelyMisses(rules[i], sets, d) || (LeavesOpen(rules[i], sets, d) && k < |rules|))
    && if k < |rules| then rules[k].outbound == Some("") && WellFormedRule(rules[k].(outbound := None))
       else !uncertain && (final.None? || final.value == "")
  }

  lemma JudgeBreaks(r: Rule, sets: map<string, Entries>, d: string, uncertain: bool)
    ensures Judge(r, sets, d, uncertain) == Stop(Info.Malformed) <==>
              r.outbound == Some("") && WellFormedRule(r.(outbound := None))
    ensures Judge(r, sets, d, uncertain) == Continue(true) <==>
              LeavesOpen(r, sets, d) || (SurelyMisses(r, sets, d) && uncertain)
    ensures Judge(r, sets, d, uncertain) == Continue(false) <==> SurelyMisses(r, sets, d) && !uncertain
  {
    assert DomainHit(r, d) || KeywordHit(r, d) <==> Mentions(r, d);
  }

  /** The interpreter rejects the model exactly if it comes to an empty exit, or ends without a final target. */
  lemma {:induction false} MalformedIff(rules: seq<Rule>, final: Option<string>, sets: map<string, Entries>, d: string,
                                        uncertain: bool)
    ensures Interpret(rules, final, sets, d, uncertain).Malformed? <==>
              exists k :: Broken(rules, final, sets, d, uncertain, k)
  {
    if rules == [] {
      assert Broken(rules, final, sets, d, uncertain, 0) <==> !uncertain && (final.None? || final.value == "");
    } else {
      MalformedIff(rules[1..], final, sets, d, true);
      MalformedIff(rules[1..], final, sets, d, false);
      JudgeBreaks(rules[0], sets, d, uncertain);
      BrokenStep(rules, final, sets, d, uncertain);
    }
  }

  lemma BrokenStep(rules: seq<Rule>, final: Option<string>, sets: map<string, Entries>, d: string, uncertain: bool)
    requires rules != []
    ensures (exists k :: Broken(rules, final, sets, d, uncertain, k)) <==>
              || Broken(rules, final, sets, d, uncertain, 0)
              || (SurelyMisses(rules[0], sets, d) && exists k :: Broken(rules[1..], final, sets, d, uncertain, k))
              || (LeavesOpen(rules[0], sets, d) && exists k :: Broken(rules[1..], final, sets, d, true, k))
  {
    var rest := rules[1..];
    forall k | Broken(rules, final, sets, d, uncertain, k) && k > 0
      ensures SurelyMisses(rules[0], sets, d) ==> Broken(rest, final, sets, d, uncertain, k - 1)
      ensures LeavesOpen(rules[0], sets, d) && k < |rules| ==> Broken(rest, final, sets, d, true, k - 1)
    {
      assert forall i | 0 <= i < k - 1 :: rest[i] == rules[i + 1];
    }
    forall k, u | Broken(rest, final, sets, d, u, k) && (if SurelyMisses(rules[0], sets, d) then u == uncertain
                                                         else LeavesOpen(rules[0], sets, d) && u)
      ensures Broken(rules, final, sets, d, uncertain, k + 1)
    {
      assert forall i | 0 < i < k + 1 :: rules[i] == rest[i - 1];
    }
  }

  // ---- what a policy name stands for ----

  ghost predicate HasKind(m: Model, tag: string, direct: bool) {
    exists o :: o in m.outbounds && o.tag == tag && if direct then o.kind.Direct? else o.kind.Block?
  }

  /** A direct exit is called DIRECT in the file, a blocking one REJECT, and everything else by its own name. */
  ghost predicate IsPolicy(m: Model, tag: string, p: string) {
    if HasKind(m, tag, true) then p == "DIRECT" else if HasKind(m, tag, false) then p == "REJECT" else p == tag
  }

  lemma MapTargetIsPolicy(m: Model, tag: string)
    ensures IsPolicy(m, tag, MapTarget(tag, DirectTags(m.outbounds), BlockTags(m.outbounds)))
  {
  }

  /** In a valid model the tag decides: no direct exit also blocks, and no group is called like an exit. */
  lemma PolicyByExit(norm: Norm, m: Model, o: Outbound, p: string)
    requires Valid(norm, m) && o in m.outbounds && IsPolicy(m, o.tag, p)
    ensures o.kind.Direct? ==> p == "DIRECT"
    ensures o.kind.Block? ==> p == "REJECT"
    ensures o.kind.Proxy? ==> p == o.tag
  {
    forall x | x in m.outbounds && x.tag == o.tag ensures x == o {
      var i :| 0 <= i < |m.outbounds| && m.outbounds[i] == x;
      var j :| 0 <= j < |m.outbounds| && m.outbounds[j] == o;
      assert i == j;
    }
  }

  lemma PolicyOfGroup(norm: Norm, m: Model, g: Group, p: string)
    requires Valid(norm, m) && g in m.groups && IsPolicy(m, g.name, p)
    ensures p == g.name
  {
    assert g.name in GroupNames(m.groups);
    forall o | o in m.outbounds ensures o.tag != g.name {
      assert o.tag in Tags(m.outbounds);
    }
  }

  // ---- what the rendered rules do with a connection ----

  /** The rule rejects the connection's address. */
  ghost predicate Rejects(r: Rule, c: Conn) {
    r.reject && r.ipCidr.Some? && exists cidr :: cidr in r.ipCidr.value && cidr in c.inside
  }

  /** The rule is rendered and takes the connection: by its ruleset if it has one, else by its domain lists. */
  ghost predicate Takes(r: Rule, available: set<string>, c: Conn, remote: Remote) {
    && !r.reject && r.outbound.Some? && r.outbound.value != ""
    && if NoSet(r) then Mentions(r, c.domain)
       else r.ruleSet.value in available && remote(r.ruleSet.value, c.domain)
  }

  ghost predicate Acts(r: Rule, available: set<string>, c: Conn, remote: Remote) {
    Rejects(r, c) || Takes(r, available, c, remote)
  }

  /** Where the first rule that acts sends the connection, or else the final target. */
  ghost predicate RoutedTo(m: Model, available: set<string>, c: Conn, remote: Remote, k: int, p: string) {
    && 0 <= k <= |m.rules| && (forall i | 0 <= i < k :: !Acts(m.rules[i], available, c, remote))
    && if k < |m.rules| then
         if m.rules[k].reject then Rejects(m.rules[k], c) && p == "REJECT"
         else Takes(m.rules[k], available, c, remote) && IsPolicy(m, m.rules[k].outbound.value, p)
       else IsFinal(m, m.final, p)
  }

  ghost predicate IsFinal(m: Model, final: Option<string>, p: string) {
    if final.Some? && final.value != "" then IsPolicy(m, final.value, p) else p == "DIRECT"
  }

  lemma BlockActs(r: Rule, target: string, c: Conn, remote: Remote)
    ensures (exists x :: x in DomainBlock(r, target) && Hits(x, c, remote)) <==> Mentions(r, c.domain)
    ensures forall x | x in DomainBlock(r, target) :: TargetOf(x) == target
  {
    var s, d, k, b := Values(r.suffix), Values(r.domain), Values(r.keyword), DomainBlock(r, target);
    if Mentions(r, c.domain) {
      if c.domain in d {
        var i :| 0 <= i < |d| && d[i] == c.domain;
        assert b[|s| + i] == Domain(c.domain, target) && Hits(b[|s| + i], c, remote);
      } else if x :| x in s && SuffixHit(c.domain, x) {
        var i :| 0 <= i < |s| && s[i] == x;
        assert b[i] == DomainSuffix(x, target) && Hits(b[i], c, remote);
      } else {
        var x :| x in k && Contains(c.domain, x);
        var i :| 0 <= i < |k| && k[i] == x;
        assert b[|s| + |d| + i] == DomainKeyword(x, target) && Hits(b[|s| + |d| + i], c, remote);
      }
    }
    if x :| x in b && Hits(x, c, remote) {
      BlockMentions(r, target, c, remote, x);
    }
  }

  lemma BlockMentions(r: Rule, target: string, c: Conn, remote: Remote, x: MRule)
    requires x in DomainBlock(r, target) && Hits(x, c, remote)
    ensures Mentions(r, c.domain)
  {
    var s, d, k, b := Values(r.suffix), Values(r.domain), Values(r.keyword), DomainBlock(r, target);
    var i :| 0 <= i < |b| && b[i] == x;
    if i < |s| {
      assert x == DomainSuffix(s[i], target) && s[i] in s;
    } else if i < |s| + |d| {
      assert x == Domain(d[i - |s|], target) && d[i - |s|] in d;
    } else {
      assert x == DomainKeyword(k[i - |s| - |d|], target) && k[i - |s| - |d|] in k;
    }
  }

  /** What one rule renders to. */
  lemma RuleActs(m: Model, r: Rule, available: set<string>, c: Conn, remote: Remote)
    ensures var out := RenderRule(r, available, DirectTags(m.outbounds), BlockTags(m.outbounds));
            var first := FirstMatch(out, c, remote);
            && (first.Some? <==> Acts(r, available, c, remote))
            && (first.Some? && r.reject ==> first.value == "REJECT")
            && (first.Some? && !r.reject ==> IsPolicy(m, r.outbound.value, first.value))
  {
    var direct, block := DirectTags(m.outbounds), BlockTags(m.outbounds);
    var out := RenderRule(r, available, direct, block);
    if r.reject {
      OneTarget(out, "REJECT", c, remote);
      RejectActs(r, available, direct, block, c, remote);
    } else if r.outbound.Some? && r.outbound.value != "" {
      var target := MapTarget(r.outbound.value, direct, block);
      MapTargetIsPolicy(m, r.outbound.value);
      BlockActs(r, target, c, remote);
      OneTarget(out, target, c, remote);
      if SetOf(r).Some? {
        SetActs(r, available, target, c, remote);
      }
    }
  }

  lemma RejectActs(r: Rule, available: set<string>, direct: set<string>, block: set<string>, c: Conn, remote: Remote)
    requires r.reject
    ensures (exists x :: x in RenderRule(r, available, direct, block) && Hits(x, c, remote)) <==> Rejects(r, c)
  {
    var out := RenderRule(r, available, direct, block);
    if Rejects(r, c) {
      var cidr :| cidr in r.ipCidr.value && cidr in c.inside;
      var i :| 0 <= i < |r.ipCidr.value| && r.ipCidr.value[i] == cidr;
      assert out[i] == IpReject(cidr) && out[i] in out;
    }
  }

  lemma SetActs(r: Rule, available: set<string>, target: string, c: Conn, remote: Remote)
    requires SetOf(r).Some?
    ensures var out := if SetOf(r).value in available then [RuleSet(SetOf(r).value, target)] else [];
            (exists x :: x in out && Hits(x, c, remote)) <==>
              SetOf(r).value in available && remote(SetOf(r).value, c.domain)
  {
    var x := RuleSet(SetOf(r).value, target);
    if SetOf(r).value in available && remote(SetOf(r).value, c.domain) {
      assert x in [x] && Hits(x, c, remote);
    }
  }

  /** The rendered route rules send every connection where the first acting rule, or else the final target, says. */
  lemma {:induction false} RenderedFrom(m: Model, rules: seq<Rule>, available: set<string>, c: Conn, remote: Remote)
    returns (k: int)
    ensures 0 <= k <= |rules| && (forall i | 0 <= i < k :: !Acts(rules[i], available, c, remote))
    ensures k < |rules| ==> Acts(rules[k], available, c, remote)
    ensures FirstMatch(RenderRules(rules, available, DirectTags(m.outbounds), BlockTags(m.outbounds)), c, remote) ==
              if k == |rules| then None
              else FirstMatch(RenderRule(rules[k], available, DirectTags(m.outbounds), BlockTags(m.outbounds)), c,
                              remote)
  {
    var direct, block := DirectTags(m.outbounds), BlockTags(m.outbounds);
    if rules == [] {
      k := 0;
    } else {
      RenderFromFront(rules, available, direct, block);
      FirstMatchSplit(RenderRule(rules[0], available, direct, block), RenderRules(rules[1..], available, direct, block),
                      c, remote);
      RuleActs(m, rules[0], available, c, remote);
      if Acts(rules[0], available, c, remote) {
        k := 0;
      } else {
        var j := RenderedFrom(m, rules[1..], available, c, remote);
        k := j + 1;
        assert forall i | 0 < i < k :: rules[i] == rules[1..][i - 1];
      }
    }
  }

  lemma FinalIsPolicy(m: Model)
    ensures IsFinal(m, m.final, FinalTarget(m.final, DirectTags(m.outbounds), BlockTags(m.outbounds)))
  {
  }

  /** Any connection, whatever the remote rulesets hold. */
  lemma RenderedRoutes(m: Model, available: set<string>, c: Conn, remote: Remote) returns (k: int, p: string)
    ensures FirstMatch(RenderRules(m.rules, available, DirectTags(m.outbounds), BlockTags(m.outbounds))
                       + [MatchAll(FinalTarget(m.final, DirectTags(m.outbounds), BlockTags(m.outbounds)))], c, remote)
            == Some(p)
    ensures RoutedTo(m, available, c, remote, k, p)
  {
    var direct, block := DirectTags(m.outbounds), BlockTags(m.outbounds);
    var last := [MatchAll(FinalTarget(m.final, direct, block))];
    k := RenderedFrom(m, m.rules, available, c, remote);
    FirstMatchSplit(RenderRules(m.rules, available, direct, block), last, c, remote);
    FinalIsPolicy(m);
    if k < |m.rules| {
      RuleActs(m, m.rules[k], available, c, remote);
    }
    p := FirstMatch(RenderRules(m.rules, available, direct, block) + last, c, remote).value;
  }
}
