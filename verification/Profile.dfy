/** The strict profile reader and the platform rewrite (deploy/bot/pdgprofile.py), line by line. */
module Profile {
  import opened Common
  import opened ProfileEntries

  type Values = map<string, string>

  // ---- text ----

  function LStrip(s: string): (r: string)
    ensures r == [] || !White(r[0])
  {
    if s != [] && White(s[0]) then LStrip(s[1..]) else s
  }

  function RStrip(s: string): (r: string)
    ensures r <= s && (r == [] || !White(r[|r| - 1]))
  {
    if s != [] && White(s[|s| - 1]) then RStrip(s[..|s| - 1]) else s
  }

  function Strip(s: string): string {
    RStrip(LStrip(s))
  }

  /** The position of the first `=`, or the length. */
  function Eq(s: string): (k: nat)
    ensures k <= |s| && (forall i | 0 <= i < k :: s[i] != '=') && (k < |s| ==> s[k] == '=')
  {
    if s == [] || s[0] == '=' then 0 else 1 + Eq(s[1..])
  }

  /** The first blank-delimited word. */
  function Word(s: string): string {
    if s == [] || White(s[0]) then [] else [s[0]] + Word(s[1..])
  }

  // ---- reading ----

  /** What one line means to `read_values`. */
  function ReadLine(raw: string, managed: set<string>): LineRead<string, string> {
    var line := Strip(raw);
    if line == "" || line[0] == '#' then Skip
    else if Eq(line) == |line| then if Word(line) in managed then Bad else Skip
    else
      var key := Strip(line[..Eq(line)]);
      if key !in managed then Skip
      else if !(key + "=" <= LStrip(raw)) then Bad
      else Entry(key, Strip(line[Eq(line) + 1..]))
  }

  function ReadLines(lines: seq<string>, managed: set<string>): seq<LineRead<string, string>> {
    seq(|lines|, i requires 0 <= i < |lines| => ReadLine(lines[i], managed))
  }

  /** `read_values`: `None` for a malformed or repeated managed entry. */
  function Read(lines: seq<string>, managed: set<string>): Option<Values> {
    Collect(ReadLines(lines, managed))
  }

  lemma CollectNext(rs: seq<LineRead<string, string>>, i: nat, found: Values)
    requires i < |rs| && Collect(rs[..i]) == Some(found)
    ensures rs[i].Bad? || (rs[i].Entry? && rs[i].key in found) ==> Collect(rs) == None
    ensures rs[i].Entry? && rs[i].key !in found ==> Collect(rs[..i + 1]) == Some(found[rs[i].key := rs[i].value])
    ensures rs[i].Skip? ==> Collect(rs[..i + 1]) == Some(found)
  {
    var next := rs[..i + 1];
    assert next[..i] == rs[..i] && next[i] == rs[i];
    if Collect(next).None? {
      CollectPrefix(rs, i + 1);
    }
  }

  method ReadValues(lines: seq<string>, managed: set<string>) returns (r: Option<Values>)
    ensures r == Read(lines, managed)
  {
    var found: Values := map[];
    ghost var rs := ReadLines(lines, managed);
    for i := 0 to |lines|
      invariant Collect(rs[..i]) == Some(found)
    {
      var read := ReadLine(lines[i], managed);
      CollectNext(rs, i, found);
      if read.Bad? || (read.Entry? && read.key in found) {
        return None;
      }
      if read.Entry? {
        found := found[read.key := read.value];
      }
    }
    assert rs[..|lines|] == rs;
    r := Some(found);
  }

  // ---- rewriting ----

  /** The key by which the rewrite recognizes a line. */
  function KeyOf(line: string): string {
    var t := LStrip(line);
    if Eq(t) < |t| then t[..Eq(t)] else ""
  }

  function Line(key: string, value: string): string {
    key + "=" + value
  }

  /** One line after the rewrite. */
  function Renewed(line: string, updates: Values): string {
    if KeyOf(line) in updates then Line(KeyOf(line), updates[KeyOf(line)]) else line
  }

  function RenewedAll(lines: seq<string>, updates: Values): seq<string> {
    seq(|lines|, i requires 0 <= i < |lines| => Renewed(lines[i], updates))
  }

  predicate HasKey(lines: seq<string>, key: string) {
    exists l | l in lines :: KeyOf(l) == key
  }

  function Absent(lines: seq<string>, updates: Values): set<string> {
    set k | k in updates && !HasKey(lines, k)
  }

  /** New lines for the absent keys, in the given order. */
  function Missing(order: seq<string>, absent: set<string>, updates: Values): seq<string>
    requires forall k | k in order :: k in updates
  {
    if order == [] then [] else
    (if order[0] in absent then [Line(order[0], updates[order[0]])] else []) + Missing(order[1..], absent, updates)
  }

  /** Every line in its place, then the keys that had none. */
  function Rewritten(lines: seq<string>, order: seq<string>, updates: Values): seq<string>
    requires forall k | k in order :: k in updates
  {
    RenewedAll(lines, updates) + Missing(order, Absent(lines, updates), updates)
  }

  /** No two lines carry the same updated key. */
  ghost predicate OnceEach(lines: seq<string>, updates: Values) {
    forall i, j | 0 <= i < j < |lines| && KeyOf(lines[i]) in updates :: KeyOf(lines[j]) != KeyOf(lines[i])
  }

  /** The first loop of the rewrite; a second line of the same key would be dropped. */
  method RenewLines(lines: seq<string>, updates: Values) returns (output: seq<string>, seen: set<string>)
    requires OnceEach(lines, updates)
    ensures output == RenewedAll(lines, updates) && seen == updates.Keys - Absent(lines, updates)
  {
    seen := {};
    output := [];
    for i := 0 to |lines|
      invariant output == RenewedAll(lines, updates)[..i]
      invariant forall key :: key in seen <==> key in updates && HasKey(lines[..i], key)
    {
      var key := KeyOf(lines[i]);
      assert lines[..i + 1] == lines[..i] + [lines[i]];
      if key in updates {
        if key !in seen {
          output := output + [Line(key, updates[key])];
          seen := seen + {key};
        }
      } else {
        output := output + [lines[i]];
      }
    }
    assert lines[..|lines|] == lines;
  }

  lemma MissingStep(order: seq<string>, i: nat, absent: set<string>, updates: Values, output: seq<string>)
    requires i < |order| && forall k | k in order :: k in updates
    ensures output + Missing(order[i..], absent, updates) ==
            (if order[i] in absent then output + [Line(order[i], updates[order[i]])] else output)
            + Missing(order[i + 1..], absent, updates)
  {
    assert order[i..][1..] == order[i + 1..];
  }

  /** The whole rewrite: renew in place, then append what had no line. */
  method RewriteLines(lines: seq<string>, order: seq<string>, updates: Values) returns (output: seq<string>)
    requires OnceEach(lines, updates) && forall k | k in order :: k in updates
    ensures output == Rewritten(lines, order, updates)
  {
    var seen;
    output, seen := RenewLines(lines, updates);
    ghost var absent, goal := Absent(lines, updates), Rewritten(lines, order, updates);
    assert order[0..] == order;
    for i := 0 to |order|
      invariant goal == output + Missing(order[i..], absent, updates)
    {
      MissingStep(order, i, absent, updates, output);
      assert order[i] in order;
      if order[i] !in seen {
        output := output + [Line(order[i], updates[order[i]])];
      }
    }
    assert output + [] == output;
  }

  // ---- the reader and the rewrite see the same keys ----

  lemma {:induction false} EqOfPrefix(s: string, p: string)
    requires p <= s
    ensures Eq(p) == if Eq(s) < |p| then Eq(s) else |p|
  {
    if p != [] && p[0] != '=' {
      EqOfPrefix(s[1..], p[1..]);
    }
  }

  lemma {:induction false} RStripKeepsEq(s: string)
    ensures Eq(s) < |s| ==> Eq(RStrip(s)) == Eq(s) < |RStrip(s)|
    ensures Eq(s) == |s| ==> Eq(RStrip(s)) == |RStrip(s)|
  {
    if s != [] && White(s[|s| - 1]) {
      EqOfPrefix(s, s[..|s| - 1]);
      RStripKeepsEq(s[..|s| - 1]);
    }
  }

  predicate Bare(key: string) {
    key != "" && forall i | 0 <= i < |key| :: key[i] != '=' && key[i] != '#' && !White(key[i])
  }

  predicate Tidy(value: string) {
    value != "" && !White(value[0]) && !White(value[|value| - 1])
  }

  /** Updates that the reader will take as they are. */
  ghost predicate Writable(updates: Values, managed: set<string>) {
    forall k | k in updates :: Bare(k) && k in managed && Tidy(updates[k])
  }

  lemma {:induction false} EqAfter(key: string, rest: string)
    requires Bare(key)
    ensures Eq(key + "=" + rest) == |key|
    ensures LStrip(key + "=" + rest) == key + "=" + rest
  {
    if |key| > 1 {
      assert (key + "=" + rest)[1..] == key[1..] + "=" + rest;
      EqAfter(key[1..], rest);
    } else {
      assert (key + "=" + rest)[1..] == "=" + rest;
    }
  }

  lemma TidyStays(value: string)
    requires Tidy(value)
    ensures Strip(value) == value
  {
  }

  /** A line that the rewrite recognizes is an entry of the same key to the reader. */
  lemma RecognizedIsRead(line: string, managed: set<string>)
    requires Bare(KeyOf(line)) && KeyOf(line) in managed
    ensures |KeyOf(line)| < |Strip(line)|
    ensures ReadLine(line, managed) == Entry(KeyOf(line), Strip(Strip(line)[|KeyOf(line)| + 1..]))
  {
    var t, key := LStrip(line), KeyOf(line);
    TidyStays(key);
    RStripKeepsEq(t);
    assert Strip(line)[..Eq(t)] == t[..Eq(t)] == key;
    assert key + "=" == t[..Eq(t) + 1];
  }

  /** An entry is on a line that the rewrite recognizes by the same key. */
  lemma ReadIsRecognized(line: string, managed: set<string>)
    requires ReadLine(line, managed).Entry? && Bare(ReadLine(line, managed).key)
    ensures KeyOf(line) == ReadLine(line, managed).key
  {
    var t, key := LStrip(line), ReadLine(line, managed).key;
    assert t == key + "=" + t[|key| + 1..];
    EqAfter(key, t[|key| + 1..]);
  }

  lemma NewLineKey(key: string, value: string)
    requires Bare(key)
    ensures KeyOf(Line(key, value)) == key
  {
    EqAfter(key, value);
  }

  /** A rewritten line says what it was given. */
  lemma NewLineReads(key: string, value: string, managed: set<string>)
    requires Bare(key) && key in managed && Tidy(value)
    ensures ReadLine(Line(key, value), managed) == Entry(key, value)
  {
    EqAfter(key, value);
    NewLineKey(key, value);
    var line := Line(key, value);
    assert line[|line| - 1] == value[|value| - 1];
    assert Strip(line) == line && line[|key| + 1..] == value;
    TidyStays(value);
    RecognizedIsRead(line, managed);
  }

  /** Line by line, reading commutes with the rewrite. */
  lemma RenewedLineReads(line: string, updates: Values, managed: set<string>)
    requires Writable(updates, managed)
    ensures ReadLine(Renewed(line, updates), managed) == Renew(ReadLine(line, managed), updates)
    ensures ReadLine(line, managed).Entry? && ReadLine(line, managed).key in updates ==>
              KeyOf(line) == ReadLine(line, managed).key
    ensures KeyOf(line) in updates ==> ReadLine(line, managed).Entry? && ReadLine(line, managed).key == KeyOf(line)
  {
    var key := KeyOf(line);
    if key in updates {
      RecognizedIsRead(line, managed);
      NewLineReads(key, updates[key], managed);
    }
    if ReadLine(line, managed).Entry? && ReadLine(line, managed).key in updates {
      ReadIsRecognized(line, managed);
    }
  }

  lemma KeysAgree(lines: seq<string>, updates: Values, managed: set<string>)
    requires Writable(updates, managed)
    ensures ReadLines(RenewedAll(lines, updates), managed) == RenewAll(ReadLines(lines, managed), updates)
    ensures forall key | key in updates :: HasKey(lines, key) <==> Has(ReadLines(lines, managed), key)
  {
    var rs := ReadLines(lines, managed);
    forall i | 0 <= i < |lines|
      ensures ReadLine(Renewed(lines[i], updates), managed) == Renew(rs[i], updates)
      ensures forall key | key in updates :: KeyOf(lines[i]) == key <==> rs[i].Entry? && rs[i].key == key
    {
      RenewedLineReads(lines[i], updates, managed);
    }
    forall key | key in updates ensures HasKey(lines, key) <==> Has(rs, key) {
      if l :| l in lines && KeyOf(l) == key {
        var i :| 0 <= i < |lines| && lines[i] == l;
        assert rs[i].Entry? && rs[i].key == key;
      }
      if i :| 0 <= i < |rs| && rs[i].Entry? && rs[i].key == key {
        assert lines[i] in lines && KeyOf(lines[i]) == key;
      }
    }
  }

  /** An accepted profile has every updated key at most once. */
  lemma AcceptedOnce(lines: seq<string>, updates: Values, managed: set<string>)
    requires Read(lines, managed).Some? && Writable(updates, managed)
    ensures OnceEach(lines, updates)
    ensures forall key | key in updates :: HasKey(lines, key) <==> key in Read(lines, managed).value
  {
    var rs := ReadLines(lines, managed);
    KeysAgree(lines, updates, managed);
    CollectedKeys(rs);
    forall i, j | 0 <= i < j < |lines| && KeyOf(lines[i]) in updates ensures KeyOf(lines[j]) != KeyOf(lines[i]) {
      RenewedLineReads(lines[i], updates, managed);
      RenewedLineReads(lines[j], updates, managed);
      assert rs[i].Entry? && (rs[j].Entry? ==> rs[i].key != rs[j].key);
    }
  }

  // ---- what the rewritten profile says ----

  lemma ReadSplit(a: seq<string>, b: seq<string>, managed: set<string>)
    ensures ReadLines(a + b, managed) == ReadLines(a, managed) + ReadLines(b, managed)
  {
  }

  lemma ReadOne(line: string, managed: set<string>)
    ensures ReadLines([line], managed) == [ReadLine(line, managed)]
  {
  }

  lemma {:induction false} MissingReads(order: seq<string>, absent: set<string>, updates: Values, managed: set<string>)
    requires Writable(updates, managed) && forall k | k in order :: k in updates
    ensures ReadLines(Missing(order, absent, updates), managed) == Fill(order, absent, updates)
  {
    if order != [] {
      var k, rest := order[0], Missing(order[1..], absent, updates);
      MissingReads(order[1..], absent, updates, managed);
      NewLineReads(k, updates[k], managed);
      ReadOne(Line(k, updates[k]), managed);
      ReadSplit([Line(k, updates[k])], rest, managed);
      assert Missing(order, absent, updates) == if k in absent then [Line(k, updates[k])] + rest else rest;
    }
  }

  /** The rewritten profile is accepted, and says the updates and otherwise what it said before. */
  lemma RewrittenReads(lines: seq<string>, order: seq<string>, updates: Values, managed: set<string>)
    requires Read(lines, managed).Some? && Writable(updates, managed) && Distinct(order)
    requires forall k :: k in order <==> k in updates
    ensures Read(Rewritten(lines, order, updates), managed) == Some(Read(lines, managed).value + updates)
  {
    var absent := Absent(lines, updates);
    var front, back := RenewedAll(lines, updates), Missing(order, absent, updates);
    KeysAgree(lines, updates, managed);
    MissingReads(order, absent, updates, managed);
    CollectUpdated(ReadLines(lines, managed), order, absent, updates);
    ReadSplit(front, back, managed);
  }

  // ---- the second rewrite wins ----

  ghost predicate SameKeys(a: Values, b: Values) {
    a.Keys == b.Keys && forall k | k in a :: Bare(k)
  }

  lemma RenewedTwice(line: string, t: Values, u: Values)
    requires SameKeys(t, u)
    ensures Renewed(Renewed(line, t), u) == Renewed(line, u)
    ensures KeyOf(line) in t ==> KeyOf(Renewed(line, t)) == KeyOf(line)
  {
    if KeyOf(line) in t {
      NewLineKey(KeyOf(line), t[KeyOf(line)]);
    }
  }

  lemma {:induction false} MissingKeys(order: seq<string>, absent: set<string>, t: Values, u: Values)
    requires SameKeys(t, u) && forall k | k in order :: k in t
    ensures RenewedAll(Missing(order, absent, t), u) == Missing(order, absent, u)
    ensures forall k | k in order && k in absent :: HasKey(Missing(order, absent, t), k)
  {
    if order != [] {
      MissingKeys(order[1..], absent, t, u);
      NewLineKey(order[0], t[order[0]]);
      var rest, all := Missing(order[1..], absent, t), Missing(order, absent, t);
      if order[0] in absent {
        assert all == [Line(order[0], t[order[0]])] + rest && all[0] in all;
        RenewedSplit([Line(order[0], t[order[0]])], rest, u);
      } else {
        assert all == rest;
      }
      forall x | x in order && x in absent ensures HasKey(all, x) {
        if x != order[0] {
          var l :| l in rest && KeyOf(l) == x;
          assert l in all;
        }
      }
    }
  }

  lemma AllKeysThere(lines: seq<string>, order: seq<string>, t: Values)
    requires SameKeys(t, t) && forall k :: k in order <==> k in t
    ensures Absent(Rewritten(lines, order, t), t) == {}
  {
    var out := Rewritten(lines, order, t);
    MissingKeys(order, Absent(lines, t), t, t);
    forall key | key in t ensures HasKey(out, key) {
      if l :| l in lines && KeyOf(l) == key {
        var i :| 0 <= i < |lines| && lines[i] == l;
        RenewedTwice(l, t, t);
        assert out[i] == Renewed(l, t) && out[i] in out;
      } else {
        var l :| l in Missing(order, Absent(lines, t), t) && KeyOf(l) == key;
        assert l in out;
      }
    }
  }

  lemma {:induction false} NothingMissing(order: seq<string>, u: Values)
    requires forall k | k in order :: k in u
    ensures Missing(order, {}, u) == []
  {
    if order != [] {
      NothingMissing(order[1..], u);
    }
  }

  lemma RenewedSplit(a: seq<string>, b: seq<string>, u: Values)
    ensures RenewedAll(a + b, u) == RenewedAll(a, u) + RenewedAll(b, u)
  {
  }

  /** Rewriting a rewritten profile is rewriting the first one. */
  lemma RewrittenTwice(lines: seq<string>, order: seq<string>, t: Values, u: Values)
    requires SameKeys(t, u) && forall k :: k in order <==> k in t
    ensures Rewritten(Rewritten(lines, order, t), order, u) == Rewritten(lines, order, u)
  {
    var front, back := RenewedAll(lines, t), Missing(order, Absent(lines, t), t);
    AllKeysThere(lines, order, t);
    assert Absent(front + back, u) == Absent(front + back, t);
    NothingMissing(order, u);
    MissingKeys(order, Absent(lines, t), t, u);
    assert Absent(lines, t) == Absent(lines, u);
    RenewedSplit(front, back, u);
    forall i | 0 <= i < |lines| ensures Renewed(Renewed(lines[i], t), u) == Renewed(lines[i], u) {
      RenewedTwice(lines[i], t, u);
    }
    assert RenewedAll(front, u) == RenewedAll(lines, u);
  }
}
