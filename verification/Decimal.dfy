/** Port lists as text: decimal numbers and the list syntax of sb2mihomo.py `parse_port_list`. */
module Decimal {
  import opened Common

  predicate IsDigit(c: char) {
    '0' <= c <= '9'
  }

  function Digit(n: nat): (c: char)
    requires n < 10
    ensures IsDigit(c) && c - '0' == n as char
  {
    '0' + n as char
  }

  /** `str(n)`. */
  function Dec(n: nat): (s: string)
    ensures s != [] && forall i | 0 <= i < |s| :: IsDigit(s[i])
  {
    if n < 10 then [Digit(n)] else Dec(n / 10) + [Digit(n % 10)]
  }

  /** `int(s, 10)` on digits. */
  function Val(s: string): nat
    requires forall i | 0 <= i < |s| :: IsDigit(s[i])
  {
    if s == [] then 0 else
    assert IsDigit(s[|s| - 1]);
    10 * Val(s[..|s| - 1]) + (s[|s| - 1] as int - '0' as int)
  }

  lemma {:induction false} ValOfDec(n: nat)
    ensures Val(Dec(n)) == n
  {
    if n >= 10 {
      ValOfDec(n / 10);
      assert Dec(n)[..|Dec(n)| - 1] == Dec(n / 10);
    } else {
      assert Dec(n)[..0] == [];
    }
  }

  /** How many characters of `s`, from the front, are digits. */
  function DigitRun(s: string): (k: nat)
    ensures k <= |s| && (forall i | 0 <= i < k :: IsDigit(s[i])) && (k < |s| ==> !IsDigit(s[k]))
  {
    if s == [] || !IsDigit(s[0]) then 0 else 1 + DigitRun(s[1..])
  }

  lemma {:induction false} DigitRunIs(digits: string, rest: string)
    requires (forall i | 0 <= i < |digits| :: IsDigit(digits[i])) && (rest != [] ==> !IsDigit(rest[0]))
    ensures DigitRun(digits + rest) == |digits|
  {
    if digits != [] {
      assert (digits + rest)[1..] == digits[1..] + rest;
      DigitRunIs(digits[1..], rest);
    } else {
      assert digits + rest == rest;
    }
  }

  predicate Separates(c: char) {
    c in ",\t\r\n "
  }

  function SepRun(s: string): (k: nat)
    ensures k <= |s|
  {
    if s == [] || !Separates(s[0]) then 0 else 1 + SepRun(s[1..])
  }

  function Commas(s: string): nat {
    if s == [] then 0 else (if s[0] == ',' then 1 else 0) + Commas(s[1..])
  }

  /** The list grammar: numbers, separated by blanks with at most one comma among them. */
  function Numbers(s: string): Option<seq<nat>>
    decreases |s|
  {
    var d := DigitRun(s);
    if d == 0 then None
    else if d == |s| then Some([Val(s)])
    else
      var k := SepRun(s[d..]);
      if k == 0 || Commas(s[d..d + k]) > 1 then None else
      var more := Numbers(s[d + k..]);
      if more.None? then None else Some([Val(s[..d])] + more.value)
  }

  /** `",".join(map(str, ns))`. */
  function Join(ns: seq<nat>): string {
    if ns == [] then "" else if |ns| == 1 then Dec(ns[0]) else Dec(ns[0]) + "," + Join(ns[1..])
  }

  lemma JoinStartsWithDigit(ns: seq<nat>)
    requires ns != []
    ensures Join(ns) != [] && IsDigit(Join(ns)[0])
  {
  }

  /** A comma-joined list reads back. */
  lemma {:induction false} NumbersOfJoin(ns: seq<nat>)
    requires ns != []
    ensures Numbers(Join(ns)) == Some(ns)
  {
    var head := Dec(ns[0]);
    ValOfDec(ns[0]);
    if |ns| == 1 {
      DigitRunIs(head, "");
      assert head + "" == head && ns == [ns[0]];
    } else {
      var tail := Join(ns[1..]);
      JoinStartsWithDigit(ns[1..]);
      var s := Join(ns);
      assert s == head + ("," + tail);
      DigitRunIs(head, "," + tail);
      assert s[|head|..] == "," + tail && s[..|head|] == head;
      OneComma(tail);
      assert s[|head| + 1..] == tail && s[|head|..|head| + 1] == ",";
      NumbersOfJoin(ns[1..]);
      assert ns == [ns[0]] + ns[1..];
    }
  }

  lemma OneComma(tail: string)
    requires tail != [] && IsDigit(tail[0])
    ensures SepRun("," + tail) == 1 && Commas(",") == 1
  {
    assert ("," + tail)[1..] == tail;
    assert Commas(","[1..]) == 0;
  }

  // ---- sorted lists ----

  /** `sorted(s)`. */
  function Ascending(s: set<nat>): seq<nat> {
    if s == {} then [] else Ascending(s - {Newest(s)}) + [Newest(s)]
  }

  ghost predicate Increasing(ns: seq<nat>) {
    forall i, j | 0 <= i < j < |ns| :: ns[i] < ns[j]
  }

  function Elements(ns: seq<nat>): set<nat> {
    set n | n in ns
  }

  lemma {:induction false} AscendingFacts(s: set<nat>)
    ensures Increasing(Ascending(s)) && Elements(Ascending(s)) == s
  {
    if s != {} {
      var top := Newest(s);
      var rest := Ascending(s - {top});
      AscendingFacts(s - {top});
      assert Ascending(s) == rest + [top];
      forall i | 0 <= i < |rest| ensures rest[i] < top {
        assert rest[i] in Elements(rest);
      }
      assert Elements(rest + [top]) == Elements(rest) + {top};
    }
  }

}
