/** The canonical PDG model and its validation (deploy/bot/pdgmodel.py). */
module Model {
  import opened Common
  import opened GroupGraph

  /** The abstract name canonicalization `normalize_name`: `None` rejects the name. */
  type Norm = string -> Option<string>

  predicate TagChar(c: char) {
    'a' <= c <= 'z' || 'A' <= c <= 'Z' || '0' <= c <= '9' || c in "_.-"
  }

  /** `TAG_RE`: the ASCII tags of machine plumbing. */
  predicate MachineTag(s: string) {
    1 <= |s| <= 64 && forall i | 0 <= i < |s| :: TagChar(s[i])
  }

  /** What is assumed of `normalize_name`: idempotent, and the identity on machine tags. */
  ghost predicate NormLaws(norm: Norm) {
    && (forall s | norm(s).Some? :: norm(norm(s).value) == norm(s))
    && (forall s | MachineTag(s) :: norm(s) == Some(s))
  }

  /** `validate_name`. */
  predicate ValidName(norm: Norm, s: string) {
    norm(s) == Some(s)
  }

  const RESERVED: set<string> :=
    {"DIRECT", "REJECT", "REJECT-DROP", "PASS", "PASS-RULE", "COMPATIBLE", "GLOBAL"}

  datatype OutType = Direct | Block | Proxy(protocol: string) | Plumbing(protocol: string) | Selector | UrlTestOut

  datatype Probe = Probe(url: Option<string>, interval: Option<int>, tolerance: Option<int>)

  /** `members` is the `outbounds` list of a legacy group outbound. */
  datatype Outbound = Outbound(kind: OutType, tag: string, detour: Option<string>,
                               members: seq<string>, probe: Probe)

  datatype GroupType = Select | UrlTest | Fallback | LoadBalance

  datatype Group = Group(name: string, kind: GroupType, proxies: seq<string>, uses: seq<string>, probe: Probe)

  /** A provider entry is kept as it is; only a mapping is ever rendered. */
  datatype Provider = Mapping(body: string) | Junk

  /** A domain list of a route rule, as the interpreter sees it. */
  datatype Field = Absent | Malformed | Items(values: seq<string>)

  datatype Rule = Rule(reject: bool, outbound: Option<string>, ruleSet: Option<string>,
                       domain: Field, suffix: Field, keyword: Field,
                       inbound: Option<seq<string>>, ipCidr: Option<seq<string>>, extra: bool)

  datatype Inbound = Inbound(mixed: bool, tag: string, port: int)

  datatype Model = Model(outbounds: seq<Outbound>, groups: seq<Group>,
                         proxyProviders: map<string, Provider>, ruleProviders: map<string, Provider>,
                         rules: seq<Rule>, final: Option<string>, ruleSetTags: seq<string>,
                         inbounds: seq<Inbound>)

  predicate Routable(k: OutType) {
    k.Direct? || k.Block? || k.Proxy?
  }

  function Tags(outs: seq<Outbound>): set<string> {
    set o | o in outs :: o.tag
  }

  function RoutableTags(outs: seq<Outbound>): set<string> {
    set o | o in outs && Routable(o.kind) :: o.tag
  }

  function BlockTags(outs: seq<Outbound>): set<string> {
    set o | o in outs && o.kind.Block? :: o.tag
  }

  function DirectTags(outs: seq<Outbound>): set<string> {
    set o | o in outs && o.kind.Direct? :: o.tag
  }

  function GroupNames(groups: seq<Group>): set<string> {
    set g | g in groups :: g.name
  }

  /** Everything a route may point at. */
  function Targets(m: Model): set<string> {
    RoutableTags(m.outbounds) + GroupNames(m.groups)
  }

  // ---- what `validate` accepts, said without its loops ----

  ghost predicate NoDup<T>(s: seq<T>) {
    forall i, j | 0 <= i < j < |s| :: s[i] != s[j]
  }

  ghost predicate DistinctTags(outs: seq<Outbound>) {
    forall i, j | 0 <= i < j < |outs| :: outs[i].tag != outs[j].tag
  }

  ghost predicate DistinctNames(groups: seq<Group>) {
    forall i, j | 0 <= i < j < |groups| :: groups[i].name != groups[j].name
  }

  predicate OutboundOk(norm: Norm, o: Outbound) {
    (if o.kind.Proxy? then ValidName(norm, o.tag) else MachineTag(o.tag)) && !o.kind.Selector? && !o.kind.UrlTestOut?
  }

  ghost predicate OneDirect(outs: seq<Outbound>) {
    exists d :: IsTheDirect(outs, d) && MachineTag(d.tag) && d.tag !in RESERVED
  }

  ghost predicate IsTheDirect(outs: seq<Outbound>, d: Outbound) {
    d in outs && d.kind.Direct? && forall o | o in outs && o.kind.Direct? :: o == d
  }

  function LowerAscii(c: char): char {
    if 'A' <= c <= 'Z' then c - 'A' + 'a' else c
  }

  /** Letters in either case; with `re.I` the long s is an `s` too. */
  predicate SameScheme(s: string, scheme: string) {
    && |s| > |scheme|
    && forall i | 0 <= i < |scheme| :: LowerAscii(s[i]) == scheme[i] || (s[i] == '\U{17F}' && scheme[i] == 's')
  }

  predicate HttpUrl(u: string) {
    (SameScheme(u, "http://") || SameScheme(u, "https://")) && forall i | 0 <= i < |u| :: !White(u[i]) && u[i] != '\0'
  }

  /** The options each group type may carry, and their ranges. */
  predicate OptionsOk(g: Group) {
    && (g.kind.Select? ==> g.probe.url.None? && g.probe.interval.None?)
    && (!g.kind.UrlTest? ==> g.probe.tolerance.None?)
    && (g.probe.url.Some? ==> HttpUrl(g.probe.url.value))
    && (g.probe.interval.Some? ==> 1 <= g.probe.interval.value <= 604800)
    && (g.probe.tolerance.Some? ==> 0 <= g.probe.tolerance.value <= 65535)
  }

  ghost predicate GroupOk(norm: Norm, g: Group) {
    && ValidName(norm, g.name) && OptionsOk(g)
    && NoDup(g.proxies) && NoDup(g.uses) && !(g.proxies == [] && g.uses == [])
  }

  ghost predicate MembersOk(m: Model, g: Group) {
    && (forall x | x in g.proxies :: x in Targets(m) || x == "REJECT")
    && (forall x, y | x in g.proxies && y in g.proxies && RejectAlias(m, x) && RejectAlias(m, y) :: x == y)
    && (forall u | u in g.uses :: u in m.proxyProviders)
  }

  predicate RejectAlias(m: Model, x: string) {
    x == "REJECT" || x in BlockTags(m.outbounds)
  }

  /** The group graph: an edge for every member that is itself a group. */
  function GraphOf(groups: seq<Group>): Graph<string> {
    map n | n in GroupNames(groups) ::
      set g, x | g in groups && g.name == n && x in g.proxies && x in GroupNames(groups) :: x
  }

  ghost predicate OneNamespace(m: Model) {
    && Tags(m.outbounds) !! GroupNames(m.groups) !! m.proxyProviders.Keys !! m.ruleProviders.Keys
    && Tags(m.outbounds) + GroupNames(m.groups) + m.proxyProviders.Keys + m.ruleProviders.Keys !! RESERVED
  }

  ghost predicate RouteOk(m: Model) {
    && m.final.Some? && m.final.value in Targets(m)
    && forall r | r in m.rules && r.outbound.Some? :: r.outbound.value in Targets(m)
  }

  ghost predicate Valid(norm: Norm, m: Model) {
    && OneDirect(m.outbounds) && DistinctTags(m.outbounds) && (forall o | o in m.outbounds :: OutboundOk(norm, o))
    && DistinctNames(m.groups) && (forall g | g in m.groups :: GroupOk(norm, g))
    && (forall p | p in m.proxyProviders.Keys + m.ruleProviders.Keys :: ValidName(norm, p))
    && OneNamespace(m)
    && (forall g | g in m.groups :: MembersOk(m, g))
    && Ranked(GraphOf(m.groups))
    && RouteOk(m)
  }
}
