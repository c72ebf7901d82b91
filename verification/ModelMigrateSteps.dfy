/** Migration and rebinding as pdgmodel.py carries them out, loop by loop, against ModelMigrate. */
module ModelMigrateSteps {
  import opened Common
  import opened Model
  import opened ModelRename
  import opened ModelValidate
  import opened ModelDelete
  import opened ModelMigrate
  import Meaning = ModelMigrateMeaning

  // ---- legacy groups ----

  ghost predicate NamesOk(norm: Norm, groups: seq<Group>) {
    (forall g | g in groups :: ValidName(norm, g.name)) && DistinctNames(groups)
  }

  lemma {:induction false} CanonicalOneMore(outs: seq<Outbound>, o: Outbound, direct: string)
    ensures CanonicalGroups(outs + [o], direct)
            == CanonicalGroups(outs, direct) + if IsLegacy(o) then [CanonicalGroup(o, direct)] else []
  {
    if outs == [] {
      assert outs + [o] == [o] && CanonicalGroups([o][1..], direct) == [];
    } else {
      assert (outs + [o])[1..] == outs[1..] + [o];
      CanonicalOneMore(outs[1..], o, direct);
      var head := if IsLegacy(outs[0]) then [CanonicalGroup(outs[0], direct)] else [];
      var tail := if IsLegacy(o) then [CanonicalGroup(o, direct)] else [];
      assert head + (CanonicalGroups(outs[1..], direct) + tail) == head + CanonicalGroups(outs[1..], direct) + tail;
    }
  }

  /** Collected groups with their names so far. */
  ghost predicate Collected(norm: Norm, groups: seq<Group>, names: set<string>) {
    NamesOk(norm, groups) && names == GroupNames(groups)
  }

  lemma CollectOne(norm: Norm, groups: seq<Group>, names: set<string>, g: Group)
    requires Collected(norm, groups, names)
    ensures ValidName(norm, g.name) && g.name !in names <==> NamesOk(norm, groups + [g])
    ensures NamesOk(norm, groups + [g]) ==> Collected(norm, groups + [g], names + {g.name})
  {
    var longer := groups + [g];
    assert g == longer[|groups|] && g in longer;
    if g.name in names {
      var h :| h in groups && h.name == g.name;
      var i :| 0 <= i < |groups| && groups[i] == h;
      assert longer[i].name == longer[|groups|].name;
    }
    if ValidName(norm, g.name) && g.name !in names {
      assert forall h | h in groups :: h.name in GroupNames(groups);
      assert forall i | 0 <= i < |groups| :: groups[i] in groups;
    }
  }

  lemma NamesOkPrefix(norm: Norm, a: seq<Group>, b: seq<Group>)
    ensures NamesOk(norm, a + b) ==> NamesOk(norm, a)
  {
    assert forall g | g in a :: g in a + b;
    assert forall i | 0 <= i < |a| :: (a + b)[i] == a[i];
  }

  lemma {:induction false} CanonicalPrefix(outs: seq<Outbound>, i: nat, direct: string) returns (rest: seq<Group>)
    requires i <= |outs|
    ensures CanonicalGroups(outs, direct) == CanonicalGroups(outs[..i], direct) + rest
    decreases |outs| - i
  {
    if i == |outs| {
      rest := [];
      assert outs[..i] == outs;
    } else {
      var more := CanonicalPrefix(outs, i + 1, direct);
      CanonicalOneMore(outs[..i], outs[i], direct);
      assert outs[..i + 1] == outs[..i] + [outs[i]];
      rest := (if IsLegacy(outs[i]) then [CanonicalGroup(outs[i], direct)] else []) + more;
    }
  }

  /** The first loop of `_legacy_groups`: groups written as outbounds. */
  method CollectCanonical(norm: Norm, outs: seq<Outbound>, direct: string) returns (r: Option<seq<Group>>)
    ensures r == if NamesOk(norm, CanonicalGroups(outs, direct)) then Some(CanonicalGroups(outs, direct)) else None
  {
    var groups, names := [], {};
    for i := 0 to |outs|
      invariant groups == CanonicalGroups(outs[..i], direct) && Collected(norm, groups, names)
    {
      CanonicalOneMore(outs[..i], outs[i], direct);
      assert outs[..i + 1] == outs[..i] + [outs[i]];
      if IsLegacy(outs[i]) {
        var g := CanonicalGroup(outs[i], direct);
        CollectOne(norm, groups, names, g);
        if !ValidName(norm, g.name) || g.name in names {
          ghost var rest := CanonicalPrefix(outs, i + 1, direct);
          NamesOkPrefix(norm, groups + [g], rest);
          return None;
        }
        groups, names := groups + [g], names + {g.name};
      }
    }
    assert outs[..|outs|] == outs;
    r := Some(groups);
  }

  /** The second loop: the Mihomo mirrors, with DIRECT read as the direct tag. */
  method CollectMirrors(norm: Norm, raw: seq<Group>, direct: string) returns (r: Option<seq<Group>>)
    ensures var mirrors := SwapProxies(raw, "DIRECT", direct);
            r == if NamesOk(norm, mirrors) then Some(mirrors) else None
  {
    ghost var all := SwapProxies(raw, "DIRECT", direct);
    var groups, names := [], {};
    for i := 0 to |raw|
      invariant groups == all[..i] && Collected(norm, groups, names)
    {
      var g := raw[i].(proxies := SwapAll(raw[i].proxies, "DIRECT", direct));
      assert all[..i + 1] == all[..i] + [g];
      CollectOne(norm, groups, names, g);
      if !ValidName(norm, g.name) || g.name in names {
        assert all == all[..i + 1] + all[i + 1..];
        NamesOkPrefix(norm, all[..i + 1], all[i + 1..]);
        return None;
      }
      groups, names := groups + [g], names + {g.name};
    }
    assert all[..|raw|] == all;
    r := Some(groups);
  }

  /** What the third loop demands of one group written as an outbound. */
  ghost predicate Mirrored(schema: int, c: Group, mirrors: seq<Group>) {
    (forall g | g in mirrors && g.name == c.name :: Agree(c, g)) && (c.name !in GroupNames(mirrors) ==> schema != 2)
  }

  /** The third loop, for one group: find its mirror and compare. */
  method CheckMirror(schema: int, c: Group, mirrors: seq<Group>) returns (ok: bool)
    requires DistinctNames(mirrors)
    ensures ok <==> Mirrored(schema, c, mirrors)
  {
    for j := 0 to |mirrors|
      invariant forall k | 0 <= k < j :: mirrors[k].name != c.name
    {
      if mirrors[j].name == c.name {
        assert mirrors[j] in mirrors;
        ok := Agree(c, mirrors[j]);
        return;
      }
    }
    assert forall g | g in mirrors :: g.name != c.name;
    ok := schema != 2;
  }

  lemma {:induction false} UnmirroredOneMore(canonical: seq<Group>, c: Group, names: set<string>)
    ensures Unmirrored(canonical + [c], names) == Unmirrored(canonical, names) + if c.name in names then [] else [c]
  {
    if canonical == [] {
      assert canonical + [c] == [c] && Unmirrored([c][1..], names) == [];
    } else {
      assert (canonical + [c])[1..] == canonical[1..] + [c];
      UnmirroredOneMore(canonical[1..], c, names);
      var head := if canonical[0].name in names then [] else [canonical[0]];
      var tail := if c.name in names then [] else [c];
      assert head + (Unmirrored(canonical[1..], names) + tail) == head + Unmirrored(canonical[1..], names) + tail;
    }
  }

  lemma LegacyOkParts(norm: Norm, schema: int, canonical: seq<Group>, mirrors: seq<Group>)
    ensures LegacyOk(norm, schema, canonical, mirrors) <==>
              && NamesOk(norm, canonical) && NamesOk(norm, mirrors)
              && (forall c | c in canonical :: Mirrored(schema, c, mirrors))
              && forall g | g in mirrors && g.name !in GroupNames(canonical) ::
                   !((g.kind.Select? || g.kind.UrlTest?) && Representable(g))
  {
  }

  /** The fourth loop: an editable mirror must have its group outbound. */
  method CheckEditable(canonical: seq<Group>, mirrors: seq<Group>) returns (ok: bool)
    ensures ok <==> forall g | g in mirrors && g.name !in GroupNames(canonical) ::
                      !((g.kind.Select? || g.kind.UrlTest?) && Representable(g))
  {
    for j := 0 to |mirrors|
      invariant forall k | 0 <= k < j && mirrors[k].name !in GroupNames(canonical) ::
                  !((mirrors[k].kind.Select? || mirrors[k].kind.UrlTest?) && Representable(mirrors[k]))
    {
      var g := mirrors[j];
      if g.name !in GroupNames(canonical) && (g.kind.Select? || g.kind.UrlTest?) && Representable(g) {
        assert g in mirrors;
        return false;
      }
    }
    ok := true;
  }

  /** The last two loops of `_legacy_groups`. */
  method MergeGroups(norm: Norm, schema: int, canonical: seq<Group>, mirrors: seq<Group>)
    returns (r: Option<seq<Group>>)
    requires NamesOk(norm, canonical) && NamesOk(norm, mirrors)
    ensures r == if LegacyOk(norm, schema, canonical, mirrors) then Some(LegacyGroups(canonical, mirrors)) else None
  {
    LegacyOkParts(norm, schema, canonical, mirrors);
    var order := mirrors;
    for i := 0 to |canonical|
      invariant forall j | 0 <= j < i :: Mirrored(schema, canonical[j], mirrors)
      invariant order == mirrors + Unmirrored(canonical[..i], GroupNames(mirrors))
    {
      var c := canonical[i];
      assert c in canonical;
      var ok := CheckMirror(schema, c, mirrors);
      if !ok { return None; }
      UnmirroredOneMore(canonical[..i], c, GroupNames(mirrors));
      assert canonical[..i + 1] == canonical[..i] + [c];
      if c.name !in GroupNames(mirrors) {
        order := order + [c];
      }
    }
    assert canonical[..|canonical|] == canonical;
    var editable := CheckEditable(canonical, mirrors);
    if !editable { return None; }
    r := Some(order);
  }

  // ---- names ----

  method NormalizeAll(norm: Norm, xs: seq<string>) returns (r: Option<seq<string>>)
    ensures r == if Known(norm, xs) then Some(NAll(norm, xs)) else None
  {
    var out := [];
    for i := 0 to |xs|
      invariant out == NAll(norm, xs)[..i] && forall j | 0 <= j < i :: norm(xs[j]).Some?
    {
      assert xs[i] in xs;
      if norm(xs[i]).None? { return None; }
      out := out + [norm(xs[i]).value];
    }
    assert NAll(norm, xs)[..|xs|] == NAll(norm, xs);
    r := Some(out);
  }

  /** Group members keep REJECT as it is, which a lawful normalization does anyway. */
  method NormalizeMembers(norm: Norm, xs: seq<string>) returns (r: Option<seq<string>>)
    requires NormLaws(norm)
    ensures r == if Known(norm, xs) then Some(NAll(norm, xs)) else None
  {
    assert MachineTag("REJECT");
    var out := [];
    for i := 0 to |xs|
      invariant out == NAll(norm, xs)[..i] && forall j | 0 <= j < i :: norm(xs[j]).Some?
    {
      assert xs[i] in xs;
      if xs[i] == "REJECT" {
        out := out + [xs[i]];
      } else {
        if norm(xs[i]).None? { return None; }
        out := out + [norm(xs[i]).value];
      }
    }
    assert NAll(norm, xs)[..|xs|] == NAll(norm, xs);
    r := Some(out);
  }

  ghost predicate Taken(norm: Norm, part: map<string, Provider>, name: string) {
    exists k :: k in part && N(norm, k) == name
  }

  /** One more provider collides exactly when its normalized name is already taken. */
  lemma AddCollides(norm: Norm, part: map<string, Provider>, key: string, value: Provider)
    requires NoCollision(norm, part) && key !in part
    ensures NoCollision(norm, part[key := value]) <==> norm(key).Some? && !Taken(norm, part, N(norm, key))
  {
    var more := part[key := value];
    if k :| k in part && N(norm, k) == N(norm, key) {
      assert k in more && key in more;
    } else if norm(key).Some? {
      forall j, k | j in more && k in more && N(norm, j) == N(norm, k) ensures j == k {
        assert (j in part && k in part) || j == key || k == key;
      }
    }
  }

  lemma AddExtends(norm: Norm, part: map<string, Provider>, key: string, value: Provider)
    requires NoCollision(norm, part) && NoCollision(norm, part[key := value]) && key !in part
    ensures CanonProviders(norm, part[key := value]) == CanonProviders(norm, part)[N(norm, key) := value]
  {
    var more, a := part[key := value], CanonProviders(norm, part[key := value]);
    var b := CanonProviders(norm, part)[N(norm, key) := value];
    forall n | n in a ensures n in b && a[n] == b[n] {
      var k :| k in more && N(norm, k) == n;
      assert k in part || k == key;
    }
    forall n | n in b ensures n in a {
      if n != N(norm, key) {
        var k :| k in part && N(norm, k) == n;
        assert k in more;
      } else {
        assert key in more;
      }
    }
  }

  lemma FewerProviders(norm: Norm, p: map<string, Provider>, part: map<string, Provider>)
    requires part.Keys <= p.Keys
    ensures NoCollision(norm, p) ==> NoCollision(norm, part)
  {
  }

  /** `rebuilt` holds every provider that is no longer in `todo`, under its normalized name. */
  ghost predicate PartlyRebuilt(norm: Norm, p: map<string, Provider>, todo: set<string>,
                                rebuilt: map<string, Provider>)
  {
    NoCollision(norm, p - todo) && rebuilt == CanonProviders(norm, p - todo)
  }

  method RebuildOne(norm: Norm, p: map<string, Provider>, todo: set<string>, key: string,
                    rebuilt: map<string, Provider>)
    returns (r: Option<map<string, Provider>>)
    requires PartlyRebuilt(norm, p, todo, rebuilt) && key in todo && key in p
    ensures if r.Some? then PartlyRebuilt(norm, p, todo - {key}, r.value) else !NoCollision(norm, p)
  {
    AddCollides(norm, p - todo, key, p[key]);
    assert (p - todo)[key := p[key]] == p - (todo - {key});
    FewerProviders(norm, p, p - (todo - {key}));
    if norm(key).None? || norm(key).value in rebuilt { return None; }
    AddExtends(norm, p - todo, key, p[key]);
    r := Some(rebuilt[norm(key).value := p[key]]);
  }

  lemma NothingRebuilt(norm: Norm, empty: map<string, Provider>)
    requires empty == map[]
    ensures NoCollision(norm, empty) && CanonProviders(norm, empty) == map[]
  {
    assert CanonProviders(norm, empty).Keys == {};
  }

  /** Provider maps are rebuilt under normalized names; two names that meet are an error. */
  method RebuildProviders(norm: Norm, p: map<string, Provider>) returns (r: Option<map<string, Provider>>)
    ensures r.Some? <==> NoCollision(norm, p)
    ensures r.Some? ==> r.value == CanonProviders(norm, p)
  {
    r := Some(map[]);
    var todo := p.Keys;
    NothingRebuilt(norm, p - todo);
    while todo != {}
      invariant todo <= p.Keys && r.Some? && PartlyRebuilt(norm, p, todo, r.value)
    {
      var key: string :| key in todo;
      r := RebuildOne(norm, p, todo, key, r.value);
      if r.None? { return; }
      todo := todo - {key};
    }
    assert p - todo == p;
  }

  ghost predicate OutboundKnown(norm: Norm, o: Outbound) {
    (o.kind.Proxy? ==> norm(o.tag).Some?) && Known(norm, o.members) && (o.detour.Some? ==> norm(o.detour.value).Some?)
  }

  ghost predicate GroupKnown(norm: Norm, g: Group) {
    norm(g.name).Some? && Known(norm, g.proxies) && Known(norm, g.uses)
  }

  predicate RuleKnown(norm: Norm, r: Rule) {
    (r.outbound.Some? ==> norm(r.outbound.value).Some?) && (r.ruleSet.Some? ==> norm(r.ruleSet.value).Some?)
  }

  method NormalizeOutbounds(norm: Norm, outs: seq<Outbound>) returns (r: Option<seq<Outbound>>)
    ensures r == if forall o | o in outs :: OutboundKnown(norm, o) then Some(CanonOutbounds(norm, outs)) else None
  {
    var done := outs;
    for i := 0 to |outs|
      invariant |done| == |outs|
      invariant forall j | 0 <= j < i :: OutboundKnown(norm, outs[j]) && done[j] == CanonOutbounds(norm, outs)[j]
      invariant forall j | i <= j < |outs| :: done[j] == outs[j]
    {
      var o := outs[i];
      assert o in outs;
      if o.kind.Proxy? {
        if norm(o.tag).None? { return None; }
        done := done[i := done[i].(tag := norm(o.tag).value)];
      }
      if o.detour.Some? {
        if norm(o.detour.value).None? { return None; }
        done := done[i := done[i].(detour := norm(o.detour.value))];
      }
      var members := NormalizeAll(norm, o.members);
      if members.None? { return None; }
      done := done[i := done[i].(members := members.value)];
    }
    assert done == CanonOutbounds(norm, outs);
    r := Some(done);
  }

  method NormalizeGroups(norm: Norm, groups: seq<Group>) returns (r: Option<seq<Group>>)
    requires NormLaws(norm)
    ensures r == if forall g | g in groups :: GroupKnown(norm, g) then Some(CanonGroups(norm, groups)) else None
  {
    var done := groups;
    for i := 0 to |groups|
      invariant |done| == |groups|
      invariant forall j | 0 <= j < i :: GroupKnown(norm, groups[j]) && done[j] == CanonGroups(norm, groups)[j]
      invariant forall j | i <= j < |groups| :: done[j] == groups[j]
    {
      var g := groups[i];
      assert g in groups;
      if norm(g.name).None? { return None; }
      var proxies := NormalizeMembers(norm, g.proxies);
      if proxies.None? { return None; }
      var uses := NormalizeAll(norm, g.uses);
      if uses.None? { return None; }
      done := done[i := g.(name := norm(g.name).value, proxies := proxies.value, uses := uses.value)];
    }
    assert done == CanonGroups(norm, groups);
    r := Some(done);
  }

  method NormalizeRules(norm: Norm, rules: seq<Rule>) returns (r: Option<seq<Rule>>)
    ensures r == if forall x | x in rules :: RuleKnown(norm, x) then Some(CanonRules(norm, rules)) else None
  {
    var done := rules;
    for i := 0 to |rules|
      invariant |done| == |rules|
      invariant forall j | 0 <= j < i :: RuleKnown(norm, rules[j]) && done[j] == CanonRules(norm, rules)[j]
      invariant forall j | i <= j < |rules| :: done[j] == rules[j]
    {
      var x := rules[i];
      assert x in rules;
      if x.outbound.Some? {
        if norm(x.outbound.value).None? { return None; }
        done := done[i := done[i].(outbound := norm(x.outbound.value))];
      }
      if x.ruleSet.Some? {
        if norm(x.ruleSet.value).None? { return None; }
        done := done[i := done[i].(ruleSet := norm(x.ruleSet.value))];
      }
    }
    assert done == CanonRules(norm, rules);
    r := Some(done);
  }

  lemma CanonizableParts(norm: Norm, m: Model)
    ensures Canonizable(norm, m) <==>
              && (forall o | o in m.outbounds :: OutboundKnown(norm, o))
              && (forall g | g in m.groups :: GroupKnown(norm, g))
              && NoCollision(norm, m.proxyProviders) && NoCollision(norm, m.ruleProviders)
              && (m.final.Some? ==> norm(m.final.value).Some?) && (forall x | x in m.rules :: RuleKnown(norm, x))
              && Known(norm, m.ruleSetTags)
  {
  }

  /** `_canonicalize_user_names`: names first, then every reference; the first bad one is an error. */
  method Canonicalize(norm: Norm, m: Model) returns (r: Option<Model>)
    requires NormLaws(norm)
    ensures r.Some? <==> Canonizable(norm, m)
    ensures r.Some? ==> r.value == Canon(norm, m)
  {
    CanonizableParts(norm, m);
    var outbounds := NormalizeOutbounds(norm, m.outbounds);
    if outbounds.None? { return None; }
    var groups := NormalizeGroups(norm, m.groups);
    if groups.None? { return None; }
    var proxyProviders := RebuildProviders(norm, m.proxyProviders);
    if proxyProviders.None? { return None; }
    var ruleProviders := RebuildProviders(norm, m.ruleProviders);
    if ruleProviders.None? { return None; }
    if m.final.Some? && norm(m.final.value).None? { return None; }
    var rules := NormalizeRules(norm, m.rules);
    if rules.None? { return None; }
    var tags := NormalizeAll(norm, m.ruleSetTags);
    if tags.None? { return None; }
    r := Some(Model(outbounds.value, groups.value, proxyProviders.value, ruleProviders.value, rules.value,
                    if m.final.Some? then norm(m.final.value) else None, tags.value, m.inbounds));
  }

  // ---- migration ----

  method Layout(norm: Norm, raw: Raw) returns (r: Option<Model>)
    ensures r == Laid(norm, raw)
  {
    if DirectOf(raw.outbounds).None? { return None; }
    var direct := DirectOf(raw.outbounds).value;
    if raw.schema == 3 {
      if (exists o | o in raw.outbounds :: IsLegacy(o)) || raw.mirrors != [] { return None; }
      return Some(Model(raw.outbounds, raw.groups, raw.proxyProviders, raw.ruleProviders, raw.rules, raw.final,
                        raw.ruleSetTags, raw.inbounds));
    }
    if (raw.schema != 1 && raw.schema != 2) || raw.groups != [] { return None; }
    LegacyOkParts(norm, raw.schema, CanonicalGroups(raw.outbounds, direct), SwapProxies(raw.mirrors, "DIRECT", direct));
    var canonical := CollectCanonical(norm, raw.outbounds, direct);
    if canonical.None? { return None; }
    var mirrors := CollectMirrors(norm, raw.mirrors, direct);
    if mirrors.None? { return None; }
    var groups := MergeGroups(norm, raw.schema, canonical.value, mirrors.value);
    if groups.None? { return None; }
    r := Some(Model(NonLegacy(raw.outbounds), groups.value, raw.proxyProviders, raw.ruleProviders, raw.rules, raw.final,
                    raw.ruleSetTags, raw.inbounds));
  }

  /** `migrate`: lay out, normalize, validate. */
  method Migrate(norm: Norm, raw: Raw) returns (r: Option<Model>)
    requires NormLaws(norm)
    ensures r == Migrated(norm, raw)
    ensures r.Some? ==> Valid(norm, r.value) && exists direct ::
              Meaning.Acceptable(norm, raw, direct) && Meaning.IsMigration(norm, raw, direct, r.value)
  {
    Meaning.MigratedMeaning(norm, raw);
    var laid := Layout(norm, raw);
    if laid.None? { return None; }
    r := Canonicalize(norm, laid.value);
    if r.Some? {
      var ok := Validate(norm, r.value);
      if !ok { r := None; }
    }
  }

  // ---- rebinding ----

  /** In a valid model, renaming the direct outbound is renaming its tag. */
  lemma DirectOnly(norm: Norm, m: Model, old_: string)
    requires Valid(norm, m) && DirectOf(m.outbounds) == Some(old_)
    ensures forall o | o in m.outbounds :: o.kind.Direct? <==> o.tag == old_
    ensures old_ !in GroupNames(m.groups)
  {
    DirectIsUnique(norm, m, old_);
    TheOneDirect(m.outbounds);
  }

  method RetagDirect(outs: seq<Outbound>, old_: string, new_: string) returns (r: seq<Outbound>)
    requires forall o | o in outs :: o.kind.Direct? <==> o.tag == old_
    ensures r == RenameOutbounds(outs, old_, new_)
  {
    r := outs;
    for i := 0 to |outs|
      invariant |r| == |outs| && forall j | 0 <= j < i :: r[j] == RenameOutbounds(outs, old_, new_)[j]
      invariant forall j | i <= j < |outs| :: r[j] == outs[j]
    {
      assert outs[i] in outs;
      if r[i].kind.Direct? {
        r := r[i := r[i].(tag := new_)];
      }
    }
  }

  /** `rebind_direct`: check the new tag against the migrated model, then rewrite it in place. */
  method RebindDirect(norm: Norm, raw: Raw, new_: string) returns (r: Option<Model>)
    requires NormLaws(norm)
    ensures r == Rebound(norm, raw, new_)
    ensures r.Some? ==> Migrated(norm, raw).Some? && exists old_ ::
              Meaning.TheDirect(Migrated(norm, raw).value.outbounds, old_)
              && Meaning.IsRebound(Migrated(norm, raw).value, r.value, old_, new_)
  {
    if Migrated(norm, raw).Some? { Meaning.ReboundMeaning(norm, raw, new_); }
    var migrated := Migrate(norm, raw);
    if migrated.None? || !MachineTag(new_) || DirectOf(migrated.value.outbounds).None? { return None; }
    var m := migrated.value;
    var old_ := DirectOf(m.outbounds).value;
    if new_ == old_ { return Some(m); }
    if new_ in RESERVED || new_ in Names(m) - {old_} { return None; }
    DirectOnly(norm, m, old_);
    var outs := RetagDirect(m.outbounds, old_, new_);
    var draft := new Draft(m.(outbounds := outs));
    draft.RenameReferences(old_, new_, false);
    assert draft.model == Rename(m, old_, new_);
    var ok := Validate(norm, draft.model);
    r := if ok then Some(draft.model) else None;
  }

  /** A stored document that is rewritten in place. */
  class Document {
    var raw: Raw

    constructor (r: Raw)
      ensures raw == r
    {
      raw := r;
    }

    method RewriteOutbounds(old_: string, new_: string)
      modifies this
      ensures raw == old(raw).(outbounds := RebindOutbounds(old(raw).outbounds, old_, new_))
    {
      var outs := raw.outbounds;
      for i := 0 to |outs|
        invariant raw == old(raw) && |outs| == |raw.outbounds|
        invariant forall j | 0 <= j < i :: outs[j] == RebindOutbounds(raw.outbounds, old_, new_)[j]
        invariant forall j | i <= j < |outs| :: outs[j] == raw.outbounds[j]
      {
        if outs[i].kind.Direct? {
          outs := outs[i := outs[i].(tag := new_)];
        } else if IsLegacy(outs[i]) {
          outs := outs[i := outs[i].(members := SwapAll(outs[i].members, old_, new_))];
        }
      }
      assert outs == RebindOutbounds(raw.outbounds, old_, new_);
      raw := raw.(outbounds := outs);
    }

    method RewriteRoute(old_: string, new_: string)
      modifies this
      ensures raw == old(raw).(final := SwapOption(old(raw).final, old_, new_),
                               rules := RenameRules(old(raw).rules, old_, new_))
    {
      var rules := raw.rules;
      for i := 0 to |rules|
        invariant raw == old(raw) && |rules| == |raw.rules|
        invariant forall j | 0 <= j < i :: rules[j] == RenameRules(raw.rules, old_, new_)[j]
        invariant forall j | i <= j < |rules| :: rules[j] == raw.rules[j]
      {
        if rules[i].outbound == Some(old_) {
          rules := rules[i := rules[i].(outbound := Some(new_))];
        }
      }
      assert rules == RenameRules(raw.rules, old_, new_);
      raw := raw.(final := if raw.final == Some(old_) then Some(new_) else raw.final, rules := rules);
    }

    /** The rewriting half of `rebind_direct_preserve_schema`, both legacy representations included. */
    method RewriteDirect(old_: string, new_: string)
      modifies this
      ensures raw == RebindRaw(old(raw), old_, new_)
      ensures Meaning.StoredFollows(old(raw), raw, old_, new_)
    {
      Meaning.RewriteMeaning(raw, old_, new_);
      RewriteOutbounds(old_, new_);
      var groups := RewriteGroups(raw.groups, old_, new_);
      var mirrors := RewriteGroups(raw.mirrors, old_, new_);
      raw := raw.(groups := groups, mirrors := mirrors);
      RewriteRoute(old_, new_);
    }
  }

  method RewriteGroups(groups: seq<Group>, old_: string, new_: string) returns (r: seq<Group>)
    ensures r == SwapProxies(groups, old_, new_)
  {
    r := groups;
    for i := 0 to |groups|
      invariant |r| == |groups| && forall j | 0 <= j < i :: r[j] == SwapProxies(groups, old_, new_)[j]
      invariant forall j | i <= j < |r| :: r[j] == groups[j]
    {
      r := r[i := r[i].(proxies := SwapAll(r[i].proxies, old_, new_))];
    }
  }

  /** `rebind_direct_preserve_schema`: refused unless `rebind_direct` accepts and the result still migrates. */
  method RebindPreservingSchema(norm: Norm, raw: Raw, new_: string) returns (r: Option<Raw>)
    requires NormLaws(norm)
    ensures r == Preserved(norm, raw, new_)
  {
    if DirectOf(raw.outbounds).None? || !MachineTag(new_) { return None; }
    var old_ := DirectOf(raw.outbounds).value;
    var rebound := RebindDirect(norm, raw, new_);
    if rebound.None? { return None; }
    if old_ == new_ { return Some(raw); }
    var document := new Document(raw);
    document.RewriteDirect(old_, new_);
    var migrated := Migrate(norm, document.raw);
    r := if migrated.Some? then Some(document.raw) else None;
  }
}
