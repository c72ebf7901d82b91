/** Key-value entries collected line by line, each key at most once. */
module ProfileEntries {
  import opened Common

  datatype LineRead<K, V> = Skip | Bad | Entry(key: K, value: V)

  /** `None` for a bad line or a repeated key. */
  function Collect<K, V>(rs: seq<LineRead<K, V>>): Option<map<K, V>> {
    if rs == [] then Some(map[]) else
    var before := Collect(rs[..|rs| - 1]);
    if before.None? then None else
    match rs[|rs| - 1]
    case Skip => before
    case Bad => None
    case Entry(key, value) => if key in before.value then None else Some(before.value[key := value])
  }

  predicate Has<K(==), V(==)>(rs: seq<LineRead<K, V>>, key: K) {
    exists i | 0 <= i < |rs| :: rs[i].Entry? && rs[i].key == key
  }

  function Renew<K, V>(r: LineRead<K, V>, updates: map<K, V>): LineRead<K, V> {
    if r.Entry? && r.key in updates then Entry(r.key, updates[r.key]) else r
  }

  function RenewAll<K, V>(rs: seq<LineRead<K, V>>, updates: map<K, V>): seq<LineRead<K, V>> {
    seq(|rs|, i requires 0 <= i < |rs| => Renew(rs[i], updates))
  }

  /** Values of known keys replaced, no key added. */
  function Override<K, V>(m: map<K, V>, updates: map<K, V>): map<K, V> {
    map k | k in m :: if k in updates then updates[k] else m[k]
  }

  lemma {:induction false} CollectPrefix<K, V>(rs: seq<LineRead<K, V>>, i: nat)
    requires i <= |rs| && Collect(rs[..i]).None?
    ensures Collect(rs).None?
    decreases |rs|
  {
    if i < |rs| {
      assert rs[..|rs| - 1][..i] == rs[..i];
      CollectPrefix(rs[..|rs| - 1], i);
    } else {
      assert rs[..i] == rs;
    }
  }

  /** The collected keys are those of the entries, and no two entries share one. */
  lemma {:induction false} CollectedKeys<K, V>(rs: seq<LineRead<K, V>>)
    requires Collect(rs).Some?
    ensures forall key :: Has(rs, key) <==> key in Collect(rs).value
    ensures forall i, j | 0 <= i < j < |rs| && rs[i].Entry? && rs[j].Entry? :: rs[i].key != rs[j].key
  {
    if rs != [] {
      var rest := rs[..|rs| - 1];
      CollectedKeys(rest);
      assert rs == rest + [rs[|rs| - 1]];
      forall i | 0 <= i < |rest| && rest[i].Entry? ensures rest[i].key in Collect(rest).value {
        assert Has(rest, rest[i].key);
      }
      forall key | Has(rs, key) ensures key in Collect(rs).value {
        var i :| 0 <= i < |rs| && rs[i].Entry? && rs[i].key == key;
        assert i < |rest| ==> Has(rest, key);
      }
      forall key | key in Collect(rs).value ensures Has(rs, key) {
        if key in Collect(rest).value {
          assert Has(rest, key);
          var i :| 0 <= i < |rest| && rest[i].Entry? && rest[i].key == key;
          assert rs[i] == rest[i];
        }
      }
    }
  }

  lemma {:induction false} CollectRenewed<K, V>(rs: seq<LineRead<K, V>>, updates: map<K, V>)
    requires Collect(rs).Some?
    ensures Collect(RenewAll(rs, updates)) == Some(Override(Collect(rs).value, updates))
  {
    if rs != [] {
      var rest := rs[..|rs| - 1];
      CollectRenewed(rest, updates);
      assert RenewAll(rs, updates)[..|rs| - 1] == RenewAll(rest, updates);
      assert Override(Collect(rs).value, updates) == Collect(RenewAll(rs, updates)).value;
    }
  }

  lemma CollectOneMore<K, V>(rs: seq<LineRead<K, V>>, key: K, value: V)
    requires Collect(rs).Some? && key !in Collect(rs).value
    ensures Collect(rs + [Entry(key, value)]) == Some(Collect(rs).value[key := value])
  {
    assert (rs + [Entry(key, value)])[..|rs|] == rs;
  }

  ghost predicate Distinct<T>(order: seq<T>) {
    forall i, j | 0 <= i < j < |order| :: order[i] != order[j]
  }

  /** One entry for every absent key, in order. */
  function Fill<K, V>(order: seq<K>, absent: set<K>, updates: map<K, V>): seq<LineRead<K, V>>
    requires forall k | k in order :: k in updates
  {
    if order == [] then [] else
    (if order[0] in absent then [Entry(order[0], updates[order[0]])] else []) + Fill(order[1..], absent, updates)
  }

  /** The absent keys are missing from `m`, the others already have their new value. */
  ghost predicate Halfway<K, V>(m: map<K, V>, order: seq<K>, absent: set<K>, updates: map<K, V>) {
    forall k | k in order :: k in updates && if k in absent then k !in m else k in m && m[k] == updates[k]
  }

  function Chosen<K, V>(order: seq<K>, updates: map<K, V>): map<K, V>
    requires forall k | k in order :: k in updates
  {
    map k | k in order :: updates[k]
  }

  lemma ChosenStep<K, V>(m: map<K, V>, order: seq<K>, updates: map<K, V>)
    requires order != [] && forall k | k in order :: k in updates
    ensures m[order[0] := updates[order[0]]] + Chosen(order[1..], updates) == m + Chosen(order, updates)
  {
    var a, b := m[order[0] := updates[order[0]]] + Chosen(order[1..], updates), m + Chosen(order, updates);
    forall k ensures (k in a <==> k in b) && (k in a ==> a[k] == b[k]) {
      assert k in order <==> k == order[0] || k in order[1..];
    }
  }

  lemma HalfwayStep<K, V>(m: map<K, V>, order: seq<K>, absent: set<K>, updates: map<K, V>)
    requires order != [] && Distinct(order) && Halfway(m, order, absent, updates)
    ensures Halfway(m[order[0] := updates[order[0]]], order[1..], absent, updates) && Distinct(order[1..])
    ensures order[0] !in absent ==> m[order[0] := updates[order[0]]] == m
  {
    forall k | k in order[1..] ensures k in order && k != order[0] {
    }
  }

  /** The first key of `order`, appended if it is absent. */
  function First<K, V>(rs: seq<LineRead<K, V>>, order: seq<K>, absent: set<K>, updates: map<K, V>): seq<LineRead<K, V>>
    requires order != [] && order[0] in updates
  {
    if order[0] in absent then rs + [Entry(order[0], updates[order[0]])] else rs
  }

  lemma FillStep<K, V>(rs: seq<LineRead<K, V>>, order: seq<K>, absent: set<K>, updates: map<K, V>)
    requires order != [] && forall k | k in order :: k in updates
    ensures rs + Fill(order, absent, updates) == First(rs, order, absent, updates) + Fill(order[1..], absent, updates)
  {
  }

  lemma FirstCollected<K, V>(rs: seq<LineRead<K, V>>, order: seq<K>, absent: set<K>, updates: map<K, V>)
    requires order != [] && Collect(rs).Some? && Halfway(Collect(rs).value, order, absent, updates)
    ensures Collect(First(rs, order, absent, updates)) == Some(Collect(rs).value[order[0] := updates[order[0]]])
  {
    assert order[0] in order;
    if order[0] in absent {
      CollectOneMore(rs, order[0], updates[order[0]]);
    } else {
      var m := Collect(rs).value;
      assert m[order[0] := updates[order[0]]] == m;
    }
  }

  lemma {:induction false} CollectFilled<K, V>(rs: seq<LineRead<K, V>>, m: map<K, V>, order: seq<K>,
                                               absent: set<K>, updates: map<K, V>)
    requires Collect(rs) == Some(m) && Distinct(order) && Halfway(m, order, absent, updates)
    ensures Collect(rs + Fill(order, absent, updates)) == Some(m + Chosen(order, updates))
    decreases |order|
  {
    if order == [] {
      assert rs + [] == rs && m + Chosen(order, updates) == m;
    } else {
      FirstCollected(rs, order, absent, updates);
      HalfwayStep(m, order, absent, updates);
      ChosenStep(m, order, updates);
      FillStep(rs, order, absent, updates);
      CollectFilled(First(rs, order, absent, updates), m[order[0] := updates[order[0]]], order[1..], absent, updates);
    }
  }

  lemma AllChosen<K, V>(m: map<K, V>, order: seq<K>, updates: map<K, V>)
    requires forall k :: k in order <==> k in updates
    ensures Override(m, updates) + Chosen(order, updates) == m + updates
  {
  }

  /** Known keys overridden and absent keys filled in: all updates are there. */
  lemma CollectUpdated<K, V>(rs: seq<LineRead<K, V>>, order: seq<K>, absent: set<K>, updates: map<K, V>)
    requires Collect(rs).Some? && Distinct(order) && (forall k :: k in order <==> k in updates)
    requires forall k | k in updates :: k in absent <==> !Has(rs, k)
    ensures Collect(RenewAll(rs, updates) + Fill(order, absent, updates)) == Some(Collect(rs).value + updates)
  {
    CollectedKeys(rs);
    CollectRenewed(rs, updates);
    CollectFilled(RenewAll(rs, updates), Override(Collect(rs).value, updates), order, absent, updates);
    AllChosen(Collect(rs).value, order, updates);
  }
}
