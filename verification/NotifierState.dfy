/** The stored state of the health notifier (deploy/bot/healthcheck.py): its JSON form and its decoder. */
module NotifierState {
  import opened Common

  const RETRY_BASE := 600.0
  const RETRY_MAX := 3600.0
  const SCHEMA := 2

  /** What `json.loads` can return; `NotFinite` is NaN or an infinity. */
  datatype Json =
    | Null | Bool(b: bool) | Int(i: int) | Float(r: real) | NotFinite | Text(s: string)
    | List(items: seq<Json>) | Obj(fields: map<string, Json>)

  type Uid = string
  type Problems = seq<string>

  datatype Kind = Problem | Recovery | Resolved

  datatype Pending = Pending(kind: Kind, problems: Problems, attempts: int, next: real)

  /** `delivered` is `None` when a legacy file leaves it open what the recipient was told. */
  datatype Row = Row(observed: Problems, delivered: Option<Problems>, pending: Option<Pending>)

  datatype State = State(problems: Problems, rows: map<Uid, Row>)

  // ---- what the decoder demands ----

  predicate GoodList(p: Problems) {
    |p| <= 128 && forall k | 0 <= k < |p| :: |p[k]| <= 16384
  }

  predicate Consistent(r: Row) {
    if r.pending.None? then r.delivered == Some(r.observed)
    else match r.pending.value.kind
      case Problem => r.observed != [] && r.pending.value.problems == r.observed && r.delivered != Some(r.observed)
      case Recovery =>
        r.observed == [] && r.pending.value.problems == [] && r.delivered.Some? && r.delivered.value != []
      case Resolved =>
        r.observed == [] && r.pending.value.problems != [] && r.delivered != Some(r.pending.value.problems)
  }

  predicate GoodRow(r: Row) {
    && GoodList(r.observed) && (r.delivered.Some? ==> GoodList(r.delivered.value)) && Consistent(r)
    && (r.pending.Some? ==>
          GoodList(r.pending.value.problems) && 0 <= r.pending.value.attempts <= 4 && r.pending.value.next >= 0.0)
  }

  ghost predicate Good(s: State) {
    GoodList(s.problems) && forall u | u in s.rows :: GoodRow(s.rows[u])
  }

  // ---- decoding ----

  function Get(j: Json, key: string): Json {
    if j.Obj? && key in j.fields then j.fields[key] else Null
  }

  predicate IsProblem(j: Json) {
    j.Text? && |j.s| <= 16384
  }

  function ListOf(j: Json): Option<Problems> {
    if j.List? && |j.items| <= 128 && forall k | 0 <= k < |j.items| :: IsProblem(j.items[k])
    then Some(seq(|j.items|, k requires 0 <= k < |j.items| => j.items[k].s)) else None
  }

  function TimeOf(j: Json): Option<real> {
    if j.Int? && j.i >= 0 then Some(j.i as real)
    else if j.Float? && j.r >= 0.0 then Some(j.r)
    else None
  }

  function KindOf(j: Json): Option<Kind> {
    if j == Text("problem") then Some(Problem)
    else if j == Text("recovery") then Some(Recovery)
    else if j == Text("resolved") then Some(Resolved)
    else None
  }

  function PendingOf(j: Json): Option<Pending> {
    var kind, problems, next := KindOf(Get(j, "kind")), ListOf(Get(j, "problems")), TimeOf(Get(j, "next_attempt"));
    var attempts := Get(j, "attempts");
    if kind.Some? && attempts.Int? && 0 <= attempts.i <= 4 && problems.Some? && next.Some?
    then Some(Pending(kind.value, problems.value, attempts.i, next.value)) else None
  }

  function RowOf(j: Json): Option<Row> {
    if !j.Obj? || "observed" !in j.fields || "delivered" !in j.fields || "pending" !in j.fields then None else
    var observed, delivered := ListOf(j.fields["observed"]), ListOf(j.fields["delivered"]);
    var pending := PendingOf(j.fields["pending"]);
    if observed.None? || (delivered.None? && !j.fields["delivered"].Null?)
      || (pending.None? && !j.fields["pending"].Null?)
    then None else
    var row := Row(observed.value, delivered, pending);
    if Consistent(row) then Some(row) else None
  }

  /** `_new_recipient`. */
  function NewRow(observed: Problems, unknown: bool): Row {
    Row(observed, if unknown then None else Some([]), None)
  }

  /** The row of a recipient in a current file: absent means new, a bad one is an error. */
  function RowIn(rows: map<string, Json>, u: Uid): Option<Row> {
    if u in rows then RowOf(rows[u]) else Some(NewRow([], false))
  }

  predicate IsSchema(j: Json) {
    j == Int(SCHEMA) || j == Float(SCHEMA as real)
  }

  /** A file from before receipts were kept: the problems it names were seen, but maybe never delivered. */
  function FromLegacy(problems: Problems, recipients: seq<Uid>): State {
    State(problems, map u | u in recipients :: NewRow(problems, problems != []))
  }

  function Decoded(j: Json, recipients: seq<Uid>): Option<State> {
    if !j.Obj? then None
    else if "schema" !in j.fields then
      if j.fields.Keys == {"problems"} && ListOf(j.fields["problems"]).Some?
      then Some(FromLegacy(ListOf(j.fields["problems"]).value, recipients)) else None
    else
      var rows, problems := Get(j, "recipients"), ListOf(Get(j, "problems"));
      if IsSchema(j.fields["schema"]) && rows.Obj? && problems.Some?
         && forall u | u in recipients :: RowIn(rows.fields, u).Some?
      then Some(State(problems.value, map u | u in recipients :: RowIn(rows.fields, u).value)) else None
  }

  /** `_load_state`: a missing file starts afresh. */
  function Loaded(disk: Option<Json>, recipients: seq<Uid>): Option<State> {
    if disk.None? then Some(State([], map u | u in recipients :: NewRow([], false)))
    else Decoded(disk.value, recipients)
  }

  /** `_decode_state`, recipient by recipient. */
  method Decode(j: Json, recipients: seq<Uid>) returns (result: Option<State>)
    ensures result == Decoded(j, recipients)
  {
    if !j.Obj? { return None; }
    if "schema" !in j.fields {
      if j.fields.Keys != {"problems"} || ListOf(j.fields["problems"]).None? { return None; }
      return Some(FromLegacy(ListOf(j.fields["problems"]).value, recipients));
    }
    var stored, problems := Get(j, "recipients"), ListOf(Get(j, "problems"));
    if !IsSchema(j.fields["schema"]) || !stored.Obj? || problems.None? { return None; }
    var rows: map<Uid, Row> := map[];
    for i := 0 to |recipients|
      invariant rows.Keys == set k | 0 <= k < i :: recipients[k]
      invariant forall u | u in rows :: RowIn(stored.fields, u) == Some(rows[u])
    {
      var row := RowIn(stored.fields, recipients[i]);
      if row.None? { return None; }
      rows := rows[recipients[i] := row.value];
    }
    assert rows == map u | u in recipients :: RowIn(stored.fields, u).value;
    return Some(State(problems.value, rows));
  }

  // ---- encoding ----

  function ListJson(p: Problems): Json {
    List(seq(|p|, k requires 0 <= k < |p| => Text(p[k])))
  }

  function KindJson(k: Kind): Json {
    match k
    case Problem => Text("problem")
    case Recovery => Text("recovery")
    case Resolved => Text("resolved")
  }

  function PendingJson(p: Pending): Json {
    Obj(map["kind" := KindJson(p.kind), "problems" := ListJson(p.problems),
            "attempts" := Int(p.attempts), "next_attempt" := Float(p.next)])
  }

  function RowJson(r: Row): Json {
    Obj(map["observed" := ListJson(r.observed),
            "delivered" := if r.delivered.None? then Null else ListJson(r.delivered.value),
            "pending" := if r.pending.None? then Null else PendingJson(r.pending.value)])
  }

  function Encode(s: State): Json {
    Obj(map["schema" := Int(SCHEMA), "problems" := ListJson(s.problems),
            "recipients" := Obj(map u | u in s.rows :: RowJson(s.rows[u]))])
  }

  // ---- round trip ----

  lemma ListRoundTrip(p: Problems)
    requires GoodList(p)
    ensures ListOf(ListJson(p)) == Some(p)
  {
    var j := ListJson(p);
    assert forall k | 0 <= k < |p| :: IsProblem(j.items[k]) && j.items[k].s == p[k];
    assert ListOf(j).value == p;
  }

  lemma PendingRoundTrip(p: Pending)
    requires GoodList(p.problems) && 0 <= p.attempts <= 4 && p.next >= 0.0
    ensures PendingOf(PendingJson(p)) == Some(p)
  {
    ListRoundTrip(p.problems);
  }

  lemma RowRoundTrip(r: Row)
    requires GoodRow(r)
    ensures RowOf(RowJson(r)) == Some(r)
  {
    ListRoundTrip(r.observed);
    if r.delivered.Some? { ListRoundTrip(r.delivered.value); }
    if r.pending.Some? { PendingRoundTrip(r.pending.value); }
  }

  /** What a stored row must be for the decoder to take it. */
  ghost predicate Keepable(r: Row) {
    && |r.observed| <= 128 && (forall k | 0 <= k < |r.observed| :: |r.observed[k]| <= 16384)
    && (r.delivered.Some? ==>
          |r.delivered.value| <= 128 && forall k | 0 <= k < |r.delivered.value| :: |r.delivered.value[k]| <= 16384)
    && match r.pending
       case None => r.delivered == Some(r.observed)
       case Some(p) =>
         && |p.problems| <= 128 && (forall k | 0 <= k < |p.problems| :: |p.problems[k]| <= 16384)
         && 0 <= p.attempts <= 4 && p.next >= 0.0
         && match p.kind
            case Problem => r.observed != [] && p.problems == r.observed && r.delivered != Some(r.observed)
            case Recovery => r.observed == [] && p.problems == [] && r.delivered.Some? && r.delivered != Some([])
            case Resolved => r.observed == [] && p.problems != [] && r.delivered != Some(p.problems)
  }

  lemma ListReadsIff(p: Problems)
    ensures ListOf(ListJson(p)) == if GoodList(p) then Some(p) else None
  {
    var j := ListJson(p);
    assert forall k | 0 <= k < |p| :: j.items[k] == Text(p[k]);
    if GoodList(p) {
      ListRoundTrip(p);
    }
  }

  /** A row written out is read back if and only if it is one that the notifier may keep. */
  lemma RowReadsIff(r: Row)
    ensures RowOf(RowJson(r)) == if Keepable(r) then Some(r) else None
  {
    ListReadsIff(r.observed);
    if r.delivered.Some? { ListReadsIff(r.delivered.value); }
    if r.pending.Some? { ListReadsIff(r.pending.value.problems); }
  }

  // ---- what the decoder reads ----

  ghost predicate PendingIs(j: Json, p: Pending) {
    && (match p.kind
        case Problem => Get(j, "kind") == Text("problem")
        case Recovery => Get(j, "kind") == Text("recovery")
        case Resolved => Get(j, "kind") == Text("resolved"))
    && Get(j, "problems") == ListJson(p.problems) && Get(j, "attempts") == Int(p.attempts)
    && (Get(j, "next_attempt") == Float(p.next)
        || exists i :: Get(j, "next_attempt") == Int(i) && i as real == p.next)
  }

  ghost predicate RowIs(j: Json, r: Row) {
    && j.Obj? && {"observed", "delivered", "pending"} <= j.fields.Keys && Keepable(r)
    && j.fields["observed"] == ListJson(r.observed)
    && j.fields["delivered"] == (if r.delivered.None? then Null else ListJson(r.delivered.value))
    && if r.pending.None? then j.fields["pending"].Null? else PendingIs(j.fields["pending"], r.pending.value)
  }

  /** A file from before receipts were kept, which names problems only. */
  ghost predicate LegacyIs(j: Json, recipients: seq<Uid>, s: State) {
    && j == Obj(map["problems" := ListJson(s.problems)]) && GoodList(s.problems)
    && s.rows.Keys == (set u | u in recipients)
    && forall u | u in s.rows :: s.rows[u] == Row(s.problems, if s.problems == [] then Some([]) else None, None)
  }

  /** A current file: a recipient without an entry was told of no problem yet. */
  ghost predicate CurrentIs(j: Json, recipients: seq<Uid>, s: State) {
    && j.Obj? && Get(j, "schema") in {Int(2), Float(2.0)} && Get(j, "problems") == ListJson(s.problems)
    && GoodList(s.problems) && Get(j, "recipients").Obj? && s.rows.Keys == (set u | u in recipients)
    && forall u | u in s.rows ::
         (if u in Get(j, "recipients").fields then RowIs(Get(j, "recipients").fields[u], s.rows[u])
          else s.rows[u] == Row([], Some([]), None))
  }

  lemma ListIs(j: Json, p: Problems)
    ensures ListOf(j) == Some(p) <==> j == ListJson(p) && GoodList(p)
  {
    if ListOf(j) == Some(p) {
      assert forall k | 0 <= k < |p| :: IsProblem(j.items[k]) && j.items[k].s == p[k];
      assert j.items == ListJson(p).items;
    } else if j == ListJson(p) {
      ListReadsIff(p);
    }
  }

  lemma PendingReads(j: Json, p: Pending)
    ensures PendingOf(j) == Some(p) <==>
              PendingIs(j, p) && GoodList(p.problems) && 0 <= p.attempts <= 4 && p.next >= 0.0
  {
    ListIs(Get(j, "problems"), p.problems);
  }

  lemma RowReads(j: Json, r: Row)
    ensures RowOf(j) == Some(r) <==> RowIs(j, r)
  {
    if j.Obj? && {"observed", "delivered", "pending"} <= j.fields.Keys {
      ListIs(j.fields["observed"], r.observed);
      if r.delivered.Some? { ListIs(j.fields["delivered"], r.delivered.value); }
      if r.pending.Some? { PendingReads(j.fields["pending"], r.pending.value); }
    }
  }

  lemma LegacyReads(j: Json, recipients: seq<Uid>, s: State)
    requires j.Obj? && "schema" !in j.fields
    ensures Decoded(j, recipients) == Some(s) <==> LegacyIs(j, recipients, s)
  {
    ListIs(Get(j, "problems"), s.problems);
    if Decoded(j, recipients) == Some(s) {
      assert j.fields == map["problems" := ListJson(s.problems)];
    }
    if LegacyIs(j, recipients, s) {
      assert s == FromLegacy(s.problems, recipients);
    }
  }

  lemma CurrentReads(j: Json, recipients: seq<Uid>, s: State)
    requires j.Obj? && "schema" in j.fields && Get(j, "recipients").Obj?
    ensures Decoded(j, recipients) == Some(s) <==> CurrentIs(j, recipients, s)
  {
    ListIs(Get(j, "problems"), s.problems);
    var rows := Get(j, "recipients").fields;
    forall u | u in recipients && u in s.rows && u in rows
      ensures RowIn(rows, u) == Some(s.rows[u]) <==> RowIs(rows[u], s.rows[u])
    {
      RowReads(rows[u], s.rows[u]);
    }
    if CurrentIs(j, recipients, s) {
      forall u | u in recipients ensures RowIn(rows, u) == Some(s.rows[u]) {
        assert u in s.rows;
      }
      assert s.rows == map u | u in recipients :: RowIn(rows, u).value;
    }
  }

  /** A file is read as a state exactly if it says that state; whatever else a file says is refused. */
  lemma FileReadsIff(j: Json, recipients: seq<Uid>, s: State)
    ensures Decoded(j, recipients) == Some(s) <==>
              (if j.Obj? && "schema" !in j.fields then LegacyIs(j, recipients, s) else CurrentIs(j, recipients, s))
  {
    if j.Obj? && "schema" !in j.fields {
      LegacyReads(j, recipients, s);
    } else if j.Obj? && Get(j, "recipients").Obj? {
      CurrentReads(j, recipients, s);
    }
  }

  /** The rows of the named recipients, new ones for those without a row. */
  function Select(s: State, recipients: seq<Uid>): State {
    State(s.problems, map u | u in recipients :: if u in s.rows then s.rows[u] else NewRow([], false))
  }

  /** A good state written out is read back, whoever the recipients are by then. */
  lemma StateRoundTrip(s: State, recipients: seq<Uid>)
    requires Good(s)
    ensures Decoded(Encode(s), recipients) == Some(Select(s, recipients))
  {
    ListRoundTrip(s.problems);
    var rows := Get(Encode(s), "recipients").fields;
    forall u | u in recipients
      ensures RowIn(rows, u) == Some(if u in s.rows then s.rows[u] else NewRow([], false))
    {
      if u in s.rows { RowRoundTrip(s.rows[u]); }
    }
    assert (map u | u in recipients :: RowIn(rows, u).value) == Select(s, recipients).rows;
  }

  lemma RowsDecodeGood(j: Json)
    requires RowOf(j).Some?
    ensures GoodRow(RowOf(j).value)
  {
  }

  lemma ListDecodesGood(j: Json)
    ensures ListOf(j).Some? ==> GoodList(ListOf(j).value)
  {
  }

  /** A legacy row of a non-empty list waits for its first observation; every other row is consistent. */
  ghost predicate Fit(s: State) {
    && GoodList(s.problems)
    && forall u | u in s.rows :: GoodRow(s.rows[u]) || (s.problems != [] && s.rows[u] == NewRow(s.problems, true))
  }

  /** Whatever file is accepted, the state it yields can be worked on. */
  lemma LoadedIsFit(disk: Option<Json>, recipients: seq<Uid>)
    requires Loaded(disk, recipients).Some?
    ensures Fit(Loaded(disk, recipients).value)
  {
    if disk.Some? {
      ListDecodesGood(Get(disk.value, "problems"));
      if "schema" in disk.value.fields {
        var rows := Get(disk.value, "recipients").fields;
        forall u | u in recipients ensures GoodRow(RowIn(rows, u).value) {
          if u in rows { RowsDecodeGood(rows[u]); }
        }
      }
    }
  }
}
