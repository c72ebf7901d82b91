/** A valid model whose rendered `use` list dangles, and the condition under which none does. */
module RenderStory {
  import opened GroupGraph
  import opened Model
  import opened Render
  import opened ModelStory

  /** The sample with a proxy provider that is not a mapping, used by its group. */
  function WithJunk(): Model {
    Sample("auto").(groups := [Group("auto", Fallback, ["hk", "lan"], ["prov"], NO_PROBE)],
                    proxyProviders := map["prov" := Junk])
  }

  lemma JunkSets()
    ensures var m := WithJunk();
            && Tags(m.outbounds) == {"lan", "hk"} && GroupNames(m.groups) == {"auto"}
            && m.proxyProviders.Keys == {"prov"}
            && Targets(m) == {"lan", "hk", "auto"} && BlockTags(m.outbounds) == {}
  {
    SampleSets("auto");
    assert WithJunk().groups[0] in WithJunk().groups;
    assert Targets(WithJunk()) == {"lan", "hk", "auto"};
  }

  lemma JunkGroups(norm: Norm)
    requires NormLaws(norm)
    ensures var m := WithJunk();
            && DistinctNames(m.groups) && (forall g | g in m.groups :: GroupOk(norm, g) && MembersOk(m, g))
            && Ranked(GraphOf(m.groups))
  {
    SampleTags();
    JunkSets();
    assert IsRank(GraphOf(WithJunk().groups), map["auto" := 0]);
  }

  lemma JunkNames(norm: Norm)
    requires NormLaws(norm)
    ensures ValidName(norm, "prov") && OneNamespace(WithJunk()) && RouteOk(WithJunk())
  {
    JunkSets();
    assert MachineTag("prov");
  }

  /** `validate` alone accepts it. */
  lemma JunkIsValid(norm: Norm)
    requires NormLaws(norm)
    ensures Valid(norm, WithJunk())
  {
    SampleOutbounds(norm, "auto");
    JunkGroups(norm);
    JunkNames(norm);
  }

  /** However it is rendered, its `use` list names a provider that the file does not define. */
  lemma AUseCanDangle(norm: Norm, rulesets: set<string>, mitmDomains: seq<string>, cfg: Config)
    requires NormLaws(norm) && Rendered(WithJunk(), rulesets, mitmDomains, cfg)
    ensures Valid(norm, WithJunk()) && !UsesResolve(cfg)
  {
    JunkIsValid(norm);
    UsesAreClosedIff(WithJunk(), rulesets, mitmDomains, cfg);
    assert WithJunk().groups[0] in WithJunk().groups;
    assert Used(WithJunk().groups, "prov");
  }

  /** What the transaction's own model validator demands of providers on top of `validate`. */
  predicate OnlyMappings(m: Model) {
    forall p | p in m.proxyProviders :: m.proxyProviders[p].Mapping?
  }

  /** A model that passed that validator renders to a file in which every name resolves. */
  lemma CheckedModelsAreClosed(norm: Norm, m: Model, rulesets: set<string>, mitmDomains: seq<string>, cfg: Config)
    requires Valid(norm, m) && OnlyMappings(m) && Rendered(m, rulesets, mitmDomains, cfg) && cfg.unknown == []
    ensures PoliciesResolve(cfg) && UsesResolve(cfg)
  {
    PoliciesAreClosed(norm, m, rulesets, mitmDomains, cfg);
    UsesAreClosedIff(m, rulesets, mitmDomains, cfg);
    forall u | Used(m.groups, u) ensures u in m.proxyProviders {
      var g :| g in m.groups && u in g.uses;
      assert MembersOk(m, g);
    }
  }
}
