/** A concrete model: the conditions of the model theorems can be met, and one document that rebinding refuses. */
module ModelStory {
  import opened Common
  import opened GroupGraph
  import opened Model
  import opened ModelRename
  import opened ModelDelete
  import opened ModelMigrate

  const NO_PROBE := Probe(None, None, None)

  /** A direct exit, one proxy, a group over both, and a route that ends at `final`. */
  function Sample(final: string): Model {
    Model([Outbound(Direct, "lan", None, [], NO_PROBE), Outbound(Proxy("vless"), "hk", None, [], NO_PROBE)],
          [Group("auto", Fallback, ["hk", "lan"], [], NO_PROBE)],
          map[], map[], [], Some(final), [], [])
  }

  lemma SampleTags()
    ensures MachineTag("lan") && MachineTag("hk") && MachineTag("auto") && MachineTag("wan")
  {
  }

  lemma SampleSets(final: string)
    ensures Tags(Sample(final).outbounds) == {"lan", "hk"} && GroupNames(Sample(final).groups) == {"auto"}
    ensures Targets(Sample(final)) == {"lan", "hk", "auto"} && BlockTags(Sample(final).outbounds) == {}
  {
    var m := Sample(final);
    assert m.outbounds[0] in m.outbounds && m.outbounds[1] in m.outbounds && m.groups[0] in m.groups;
  }

  lemma SampleOutbounds(norm: Norm, final: string)
    requires NormLaws(norm)
    ensures var outs := Sample(final).outbounds;
            OneDirect(outs) && DistinctTags(outs) && forall o | o in outs :: OutboundOk(norm, o)
  {
    var outs := Sample(final).outbounds;
    SampleTags();
    assert IsTheDirect(outs, outs[0]);
  }

  lemma SampleGroups(norm: Norm, final: string)
    requires NormLaws(norm)
    ensures var m := Sample(final);
            && DistinctNames(m.groups) && (forall g | g in m.groups :: GroupOk(norm, g) && MembersOk(m, g))
            && Ranked(GraphOf(m.groups))
  {
    SampleTags();
    SampleSets(final);
    assert IsRank(GraphOf(Sample(final).groups), map["auto" := 0]);
  }

  /** Every lawful normalization accepts the sample. */
  lemma SampleIsValid(norm: Norm, final: string)
    requires NormLaws(norm) && final in {"lan", "hk", "auto"}
    ensures Valid(norm, Sample(final))
  {
    SampleSets(final);
    SampleOutbounds(norm, final);
    SampleGroups(norm, final);
  }

  /** The sample may lose its proxy and have it renamed. */
  lemma SampleCanChange(norm: Norm, final: string)
    requires NormLaws(norm) && final in {"lan", "hk", "auto"}
    ensures Deletable(Sample(final), "hk") && MayRename(norm, Sample(final), "hk", "wan")
  {
    SampleTags();
    SampleSets(final);
    assert Sample(final).outbounds[1] in Sample(final).outbounds;
  }

  function Stored(final: string): Raw {
    var m := Sample(final);
    Raw(3, m.outbounds, m.groups, [], map[], map[], [], Some(final), [], [])
  }

  lemma SampleDirect(final: string)
    ensures DirectOf(Sample(final).outbounds) == Some("lan")
  {
    SampleTags();
    var outs := Sample(final).outbounds;
    assert Directs(outs[2..]) == [];
    assert outs[1..][1..] == outs[2..] && Directs(outs[1..]) == [];
  }

  lemma StoredIsLaid(norm: Norm, final: string)
    requires NormLaws(norm) && norm(final) == Some("lan")
    ensures Laid(norm, Stored(final)) == Some(Sample(final))
  {
    SampleTags();
    SampleDirect(final);
  }

  lemma SampleCanonizes(norm: Norm, final: string)
    requires NormLaws(norm) && norm(final) == Some("lan")
    ensures Canonizable(norm, Sample(final)) && Canon(norm, Sample(final)) == Sample("lan")
  {
    SampleTags();
    var m := Sample(final);
    assert NAll(norm, ["hk", "lan"]) == ["hk", "lan"] && NAll(norm, []) == [];
    assert CanonOutbounds(norm, m.outbounds) == m.outbounds && CanonGroups(norm, m.groups) == m.groups;
  }

  /** A stored route target that normalizes to the direct tag reads as the sample. */
  lemma StoredMigrates(norm: Norm, final: string)
    requires NormLaws(norm) && norm(final) == Some("lan")
    ensures Laid(norm, Stored(final)) == Some(Sample(final)) && Migrated(norm, Stored(final)) == Some(Sample("lan"))
  {
    StoredIsLaid(norm, final);
    SampleCanonizes(norm, final);
    SampleIsValid(norm, "lan");
  }

  lemma NewTagIsFree(final: string)
    ensures MachineTag("wan") && "wan" !in Names(Sample(final)) && "wan" !in RESERVED
  {
    SampleTags();
    SampleSets(final);
  }

  lemma StoredRebinds(norm: Norm, final: string)
    requires NormLaws(norm) && norm(final) == Some("lan")
    ensures Rebound(norm, Stored(final), "wan").Some?
  {
    NewTagIsFree("lan");
    SampleDirect("lan");
    StoredMigrates(norm, final);
    ReboundNeverFailsLate(norm, Stored(final), "wan");
  }

  /**
    Rebinding the direct tag is refused in the stored schema for a document whose only flaw is another
    spelling of that tag, although `rebind_direct` accepts it.
   */
  lemma ASpellingBlocksRebinding(norm: Norm, final: string)
    requires NormLaws(norm) && norm(final) == Some("lan") && final != "lan"
    ensures Rebound(norm, Stored(final), "wan").Some? && Preserved(norm, Stored(final), "wan").None?
  {
    StoredRebinds(norm, final);
    StoredMigrates(norm, final);
    SampleDirect(final);
    assert Stored(final).outbounds == Sample(final).outbounds;
    assert !NoAlias(norm, Sample(final), "lan");
    RebindCommutesWithMigration(norm, Stored(final), "wan");
  }
}
