/** Small helpers shared by every module. */
module Common {
  datatype Option<+T> = None | Some(value: T)

  datatype Result<+T, +E> = Ok(value: T) | Err(error: E)

  /** What Python's `str.strip` and the regular expression `\s` take for white space. */
  predicate White(c: char) {
    || '\t' <= c <= '\r' || '\U{1C}' <= c <= ' ' || c == '\U{85}' || c == '\U{A0}' || c == '\U{1680}'
    || '\U{2000}' <= c <= '\U{200A}' || c == '\U{2028}' || c == '\U{2029}'
    || c == '\U{202F}' || c == '\U{205F}' || c == '\U{3000}'
  }

  /** The keys of a map in a form that quantifiers can be triggered on. */
  function Look<K, V>(m: map<K, V>, k: K): Option<V> {
    if k in m then Some(m[k]) else None
  }

  /** The newest name of a non-empty directory listing. */
  function Newest(s: set<nat>): (m: nat)
    requires s != {}
    ensures m in s && forall x | x in s :: x <= m
  {
    NewestExists(s);
    var m :| m in s && forall x | x in s :: x <= m;
    m
  }

  lemma {:induction false} NewestExists(s: set<nat>)
    requires s != {}
    ensures exists m :: m in s && forall x | x in s :: x <= m
    decreases |s|
  {
    var a :| a in s;
    if s != {a} {
      var rest := s - {a};
      NewestExists(rest);
      var m :| m in rest && forall x | x in rest :: x <= m;
      assert forall x | x in s :: x == a || x in rest;
      var top := if a > m then a else m;
      assert top in s && forall x | x in s :: x <= top;
    }
  }

  lemma {:induction false} SubsetSize<T>(a: set<T>, b: set<T>)
    requires a <= b
    ensures |a| <= |b|
    decreases |a|
  {
    if a != {} {
      var x :| x in a;
      SubsetSize(a - {x}, b - {x});
    }
  }

  // ---- what a filtered list is ----

  /** Of the first `i` elements of `xs`, `cut[i]` stand at the front of `ys`. */
  ghost predicate Walks<S(!new), T(!new)>(xs: seq<S>, ys: seq<T>, keep: S -> bool, same: (S, T) -> bool,
                                                 cut: seq<nat>)
  {
    && |cut| == |xs| + 1 && cut[0] == 0 && cut[|xs|] == |ys|
    && forall i | 0 <= i < |xs| :: WalksAt(xs, ys, keep, same, cut, i)
  }

  ghost predicate WalksAt<S(!new), T(!new)>(xs: seq<S>, ys: seq<T>, keep: S -> bool, same: (S, T) -> bool,
                                                    cut: seq<nat>, i: nat)
    requires i < |xs| && |cut| == |xs| + 1
  {
    if keep(xs[i]) then cut[i] < |ys| && cut[i + 1] == cut[i] + 1 && same(xs[i], ys[cut[i]])
    else cut[i + 1] == cut[i]
  }

  /** `ys` is `xs` without what `keep` refuses: order and repetitions kept, each element up to `same`. */
  ghost predicate Sieved<S(!new), T(!new)>(xs: seq<S>, ys: seq<T>, keep: S -> bool, same: (S, T) -> bool) {
    exists cut :: Walks(xs, ys, keep, same, cut)
  }

  lemma SieveEmpty<S(!new), T(!new)>(keep: S -> bool, same: (S, T) -> bool)
    ensures Sieved<S, T>([], [], keep, same)
  {
    assert Walks<S, T>([], [], keep, same, [0]);
  }

  lemma SieveMore<S(!new), T(!new)>(xs: seq<S>, ys: seq<T>, keep: S -> bool, same: (S, T) -> bool, y: seq<T>)
    requires xs != [] && Sieved(xs[1..], ys, keep, same)
    requires if keep(xs[0]) then |y| == 1 && same(xs[0], y[0]) else y == []
    ensures Sieved(xs, y + ys, keep, same)
  {
    var cut :| Walks(xs[1..], ys, keep, same, cut);
    var longer := [0] + seq(|cut|, i requires 0 <= i < |cut| => cut[i] + |y|);
    forall i | 0 <= i < |xs| ensures WalksAt(xs, y + ys, keep, same, longer, i) {
      if i > 0 {
        assert xs[1..][i - 1] == xs[i] && WalksAt(xs[1..], ys, keep, same, cut, i - 1);
      }
    }
    assert Walks(xs, y + ys, keep, same, longer);
  }
}
