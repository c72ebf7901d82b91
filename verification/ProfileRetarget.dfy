/** Moving a profile between Android and iOS (deploy/bot/pdgprofile.py `retarget_platform_text`). */
module ProfileRetarget {
  import opened Common
  import opened Decimal
  import opened ProfileEntries
  import opened Profile

  datatype Platform = Android | Ios

  const PLATFORM := "PDG_PLATFORM"
  const TLS := "PDG_HIJACK_TLS_TCP_PORTS"
  const ORDER: seq<string> := [PLATFORM, TLS]
  const GMS: set<nat> := {5228, 5229, 5230}

  const MANAGED: set<string> := {
    "PDG_QUIC_MODE", TLS, "PDG_HIJACK_HTTP_TCP_PORTS", "PDG_QUIC_MARK", "PDG_QUIC_MARK_MASK",
    "PDG_QUIC_ROUTE_TABLE", "PDG_QUIC_RULE_PRIORITY", "PDG_FIREWALL_MODE", PLATFORM, "PDG_INTERNAL_CIDR",
    "PDG_SSH_PORT", "PDG_LOWMEM", "PDG_HIJACK_MODE", "PDG_TFO", "PDG_CERT_DIR"}

  function Name(p: Platform): string {
    match p
    case Android => "android"
    case Ios => "ios"
  }

  function DefaultPorts(p: Platform): set<nat> {
    match p
    case Android => {443} + GMS
    case Ios => {443}
  }

  predicate PortRange(s: set<nat>) {
    forall p | p in s :: 1 <= p <= 65535
  }

  /** `parse_port_list` on text, as a set; the list itself is `Ascending` of it. */
  function Ports(text: string): Option<set<nat>> {
    var t := Strip(text);
    var ns := if t == "" then None else Numbers(t);
    if ns.Some? && PortRange(Elements(ns.value)) then Some(Elements(ns.value)) else None
  }

  function PortText(ports: set<nat>): string {
    Join(Ascending(ports))
  }

  function Moved(ports: set<nat>, p: Platform): set<nat> {
    if p.Ios? then ports - GMS else ports + GMS
  }

  /** The TLS ports after the move; `None` when they cannot be read. */
  function PortsAfter(values: Values, p: Platform): Option<set<nat>> {
    var before := if TLS in values then Ports(values[TLS]) else Some(DefaultPorts(p));
    if before.None? then None else Some(Moved(before.value, p))
  }

  function Updates(p: Platform, ports: set<nat>): Values {
    map[PLATFORM := Name(p), TLS := PortText(ports)]
  }

  /** `retarget_platform_text`: `None` where the source raises `ProfileError`. */
  function Retarget(lines: seq<string>, p: Platform): Option<seq<string>> {
    var values := Read(lines, MANAGED);
    if values.None? then None else
    var ports := PortsAfter(values.value, p);
    if ports.None? || ports.value == {} then None
    else Some(Rewritten(lines, ORDER, Updates(p, ports.value)))
  }

  /** The same, step by step. */
  method RetargetPlatform(lines: seq<string>, p: Platform) returns (r: Option<seq<string>>)
    ensures r == Retarget(lines, p)
  {
    var values := ReadValues(lines, MANAGED);
    if values.None? { return None; }
    var ports := PortsAfter(values.value, p);
    if ports.None? || ports.value == {} { return None; }
    UpdatesAreWritable(p, ports.value);
    AcceptedOnce(lines, Updates(p, ports.value), MANAGED);
    OrderIsRight(p, ports.value);
    var output := RewriteLines(lines, ORDER, Updates(p, ports.value));
    r := Some(output);
  }

  // ---- the two updates can be written ----

  lemma KeysAreBare()
    ensures Bare(PLATFORM) && Bare(TLS) && PLATFORM != TLS && PLATFORM in MANAGED && TLS in MANAGED
  {
    assert PLATFORM[4] != TLS[4];
  }

  lemma {:induction false} JoinEnds(ns: seq<nat>)
    requires ns != []
    ensures Join(ns) != "" && IsDigit(Join(ns)[0]) && IsDigit(Join(ns)[|Join(ns)| - 1])
  {
    if |ns| > 1 {
      JoinEnds(ns[1..]);
    }
  }

  lemma PortTextIsTidy(ports: set<nat>)
    requires ports != {}
    ensures Tidy(PortText(ports))
  {
    JoinEnds(Ascending(ports));
  }

  /** The written port list reads back as the same ports. */
  lemma PortsRoundTrip(ports: set<nat>)
    requires ports != {} && PortRange(ports)
    ensures Ports(PortText(ports)) == Some(ports)
  {
    AscendingFacts(ports);
    PortTextIsTidy(ports);
    TidyStays(PortText(ports));
    NumbersOfJoin(Ascending(ports));
  }

  lemma UpdatesAreWritable(p: Platform, ports: set<nat>)
    requires ports != {}
    ensures Writable(Updates(p, ports), MANAGED)
  {
    KeysAreBare();
    PortTextIsTidy(ports);
    assert Tidy("android") && Tidy("ios");
  }

  lemma OrderIsRight(p: Platform, ports: set<nat>)
    ensures Distinct(ORDER) && (forall k :: k in ORDER <==> k in Updates(p, ports))
  {
    KeysAreBare();
  }

  lemma PortsInRange(values: Values, p: Platform)
    requires PortsAfter(values, p).Some?
    ensures PortRange(PortsAfter(values, p).value)
  {
  }

  // ---- the theorems ----

  /**
    The new profile says what the old one said but for the platform and the TLS ports, and those ports
    are the old ones (the target's default where none were given) without or with the GMS ports.
   */
  lemma RetargetChangesTwoValues(lines: seq<string>, p: Platform)
    requires Retarget(lines, p).Some?
    ensures Read(lines, MANAGED).Some?
    ensures var old_, new_ := Read(lines, MANAGED).value, Read(Retarget(lines, p).value, MANAGED);
            && new_.Some? && new_.value.Keys == old_.Keys + {PLATFORM, TLS}
            && (forall k | k in old_ && k != PLATFORM && k != TLS :: new_.value[k] == old_[k])
            && new_.value[PLATFORM] == Name(p)
            && Ports(new_.value[TLS]) == PortsAfter(old_, p)
  {
    var values := Read(lines, MANAGED).value;
    var ports := PortsAfter(values, p).value;
    UpdatesAreWritable(p, ports);
    OrderIsRight(p, ports);
    RewrittenReads(lines, ORDER, Updates(p, ports), MANAGED);
    PortsInRange(values, p);
    PortsRoundTrip(ports);
    KeysAreBare();
  }

  /** Every other line stays where it was; new lines only follow at the end. */
  lemma OtherLinesStay(lines: seq<string>, p: Platform)
    requires Retarget(lines, p).Some?
    ensures var out := Retarget(lines, p).value;
            && |lines| <= |out|
            && (forall i | 0 <= i < |lines| :: KeyOf(lines[i]) !in ORDER ==> out[i] == lines[i])
            && (forall i | 0 <= i < |lines| :: KeyOf(lines[i]) in ORDER ==> KeyOf(out[i]) == KeyOf(lines[i]))
            && (forall i | |lines| <= i < |out| :: KeyOf(out[i]) in ORDER)
  {
    var ports := PortsAfter(Read(lines, MANAGED).value, p).value;
    var updates := Updates(p, ports);
    KeysAreBare();
    OrderIsRight(p, ports);
    forall i | 0 <= i < |lines| && KeyOf(lines[i]) in ORDER
      ensures KeyOf(Renewed(lines[i], updates)) == KeyOf(lines[i])
    {
      RenewedTwice(lines[i], updates, updates);
    }
    MissingAreNew(ORDER, Absent(lines, updates), updates);
  }

  lemma {:induction false} MissingAreNew(order: seq<string>, absent: set<string>, updates: Values)
    requires forall k | k in order :: k in updates && Bare(k)
    ensures forall l | l in Missing(order, absent, updates) :: KeyOf(l) in order
  {
    if order != [] {
      MissingAreNew(order[1..], absent, updates);
      NewLineKey(order[0], updates[order[0]]);
    }
  }

  /** A second move starts from the ports of the first and otherwise from the first profile. */
  lemma RetargetAgain(lines: seq<string>, p: Platform, q: Platform)
    requires Retarget(lines, p).Some?
    ensures var first := PortsAfter(Read(lines, MANAGED).value, p).value;
            Retarget(Retarget(lines, p).value, q) ==
              if Moved(first, q) == {} then None else Some(Rewritten(lines, ORDER, Updates(q, Moved(first, q))))
  {
    var first := PortsAfter(Read(lines, MANAGED).value, p).value;
    RetargetChangesTwoValues(lines, p);
    OrderIsRight(p, first);
    OrderIsRight(q, Moved(first, q));
    KeysAreBare();
    RewrittenTwice(lines, ORDER, Updates(p, first), Updates(q, Moved(first, q)));
  }

  lemma MovedLaws(ports: set<nat>, p: Platform)
    ensures Moved(Moved(ports, p), p) == Moved(ports, p)
    ensures Moved(Moved(Moved(ports, Android), Ios), Android) == Moved(ports, Android)
  {
  }

  /** Moving twice to the same platform is moving once. */
  lemma RetargetIsIdempotent(lines: seq<string>, p: Platform)
    requires Retarget(lines, p).Some?
    ensures Retarget(Retarget(lines, p).value, p) == Retarget(lines, p)
  {
    var values := Read(lines, MANAGED).value;
    RetargetAgain(lines, p, p);
    var before := if TLS in values then Ports(values[TLS]) else Some(DefaultPorts(p));
    MovedLaws(before.value, p);
  }

  /** Android, iOS and back is Android again, whenever iOS is accepted: that is, when a port besides GMS is left. */
  lemma AndroidAndBack(lines: seq<string>)
    requires Retarget(lines, Android).Some?
    ensures var android := Retarget(lines, Android).value;
            && (Retarget(android, Ios).Some? <==> !(PortsAfter(Read(lines, MANAGED).value, Android).value <= GMS))
            && (Retarget(android, Ios).Some? ==> Retarget(Retarget(android, Ios).value, Android) == Some(android))
  {
    var values := Read(lines, MANAGED).value;
    var before := if TLS in values then Ports(values[TLS]) else Some(DefaultPorts(Android));
    var android := Retarget(lines, Android).value;
    var first := Moved(before.value, Android);
    RetargetAgain(lines, Android, Ios);
    RetargetChangesTwoValues(lines, Android);
    MovedLaws(before.value, Android);
    if Retarget(android, Ios).Some? {
      RetargetAgain(android, Ios, Android);
      assert Read(android, MANAGED).Some? && PortsAfter(Read(android, MANAGED).value, Ios) == Some(Moved(first, Ios));
      RewrittenBack(lines, first);
    }
  }

  /** Writing the same two values into a profile that has them changes nothing. */
  lemma RewrittenBack(lines: seq<string>, ports: set<nat>)
    ensures Rewritten(Rewritten(lines, ORDER, Updates(Android, ports)), ORDER, Updates(Android, ports))
            == Rewritten(lines, ORDER, Updates(Android, ports))
  {
    OrderIsRight(Android, ports);
    KeysAreBare();
    RewrittenTwice(lines, ORDER, Updates(Android, ports), Updates(Android, ports));
  }

  /** A profile that never named its TLS ports names them after a move. */
  lemma AnEmptyProfileGainsPorts()
    ensures Read([], MANAGED) == Some(map[]) && Retarget([], Ios).Some?
    ensures var after := Read(Retarget([], Ios).value, MANAGED);
            after.Some? && TLS in after.value && Ports(after.value[TLS]) == Some({443})
  {
    assert ReadLines([], MANAGED) == [];
    KeysAreBare();
    assert Moved({443}, Ios) == {443};
    assert PortsAfter(map[], Ios) == Some({443});
    RetargetChangesTwoValues([], Ios);
  }
}
