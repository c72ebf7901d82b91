/** Base 128 varints: the encoder and the two readers (deploy/bot/mitm_wloc.py, deploy/bot/parse-geosite.py). */
module Base128 {
  import opened Common

  type Byte = x: int | 0 <= x < 256

  type Bytes = seq<Byte>

  const TWO63: nat := 0x8000_0000_0000_0000
  const TWO64: nat := 0x1_0000_0000_0000_0000

  /** Seven bits a byte, lowest first; the top bit says that more follow. */
  function Uvarint(n: nat): (r: Bytes)
    ensures |r| >= 1
  {
    if n < 128 then [n] else [n % 128 + 128] + Uvarint(n / 128)
  }

  /** `_uvarint`: a negative number is encoded as its 64-bit two's complement. */
  method EncodeVarint(value: int) returns (out: Bytes)
    ensures out == Uvarint(value % TWO64)
  {
    var n: nat := value % TWO64;
    out := [];
    while true
      invariant out + Uvarint(n) == Uvarint(value % TWO64)
      decreases n
    {
      var b := n % 128;
      ghost var before := n;
      n := n / 128;
      if n != 0 {
        assert Uvarint(before) == [b + 128] + Uvarint(n);
        assert out + Uvarint(before) == out + [b + 128] + Uvarint(n);
        out := out + [b + 128];
      } else {
        return out + [b];
      }
    }
  }

  /** A value read from the front of a buffer, and what follows it. */
  datatype Read = Read(value: nat, rest: Bytes)

  /** `_rv` of the patcher: no bound on length or value; running off the end fails. */
  function Varint(b: Bytes): (r: Option<Read>)
    ensures r.Some? ==> |r.value.rest| < |b| && b[|b| - |r.value.rest|..] == r.value.rest
  {
    if b == [] then None
    else if b[0] < 128 then Some(Read(b[0], b[1..]))
    else
      var more := Varint(b[1..]);
      if more.None? then None else Some(Read(b[0] - 128 + 128 * more.value.value, more.value.rest))
  }

  /** `_rv` of the geosite parser, at its `k`-th byte: at most ten bytes and 64 bits. */
  function StrictVarint(b: Bytes, k: nat): (r: Option<Read>)
    ensures r.Some? ==> |r.value.rest| < |b| && b[|b| - |r.value.rest|..] == r.value.rest
  {
    if k >= 10 || b == [] || (k == 9 && b[0] > 1) then None
    else if b[0] < 128 then Some(Read(b[0], b[1..]))
    else
      var more := StrictVarint(b[1..], k + 1);
      if more.None? then None else Some(Read(b[0] - 128 + 128 * more.value.value, more.value.rest))
  }

  function Pow128(k: nat): (r: nat)
    ensures r >= 1
  {
    if k == 0 then 1 else 128 * Pow128(k - 1)
  }

  /** `acc | x << s`, where `scale` is 2 to the power `s` and `acc` is below it. */
  function Grown(acc: nat, scale: nat, x: nat): nat {
    acc + scale * x
  }

  /** What a reader that has `acc` from its first bytes makes of the rest. */
  function Resume(acc: nat, scale: nat, more: Option<Read>): Option<Read> {
    if more.None? then None else Some(Read(Grown(acc, scale, more.value.value), more.value.rest))
  }

  /** One continuation byte moves from the rest into the accumulator. */
  lemma ResumeStep(acc: nat, scale: nat, b: Byte, more: Option<Read>)
    requires b >= 128
    ensures Resume(acc, scale, Resume(b - 128, 128, more)) == Resume(Grown(acc, scale, b % 128), scale * 128, more)
  {
    if more.Some? {
      Regroup(acc, scale, b - 128, more.value.value);
    }
  }

  lemma Regroup(acc: nat, scale: nat, low: nat, v: nat)
    ensures Grown(acc, scale, Grown(low, 128, v)) == Grown(Grown(acc, scale, low), scale * 128, v)
  {
  }

  lemma VarintHead(b: Bytes, i: nat)
    requires i < |b|
    ensures Varint(b[i..]) ==
              if b[i] < 128 then Some(Read(b[i], b[i + 1..])) else Resume(b[i] - 128, 128, Varint(b[i + 1..]))
  {
  }

  lemma StrictHead(b: Bytes, i: nat, k: nat)
    requires i < |b| && k < 10 && !(k == 9 && b[i] > 1)
    ensures StrictVarint(b[i..], k) ==
            if b[i] < 128 then Some(Read(b[i], b[i + 1..]))
            else Resume(b[i] - 128, 128, StrictVarint(b[i + 1..], k + 1))
  {
  }

  method ReadVarint(b: Bytes, start: nat) returns (r: Option<Read>)
    requires start <= |b|
    ensures r == Varint(b[start..])
  {
    var i, acc: nat, scale: nat := start, 0, 1;
    while i < |b|
      invariant start <= i <= |b|
      invariant Varint(b[start..]) == Resume(acc, scale, Varint(b[i..]))
    {
      var x := b[i];
      VarintHead(b, i);
      i := i + 1;
      if x < 128 {
        return Some(Read(Grown(acc, scale, x), b[i..]));
      }
      ResumeStep(acc, scale, x, Varint(b[i..]));
      acc, scale := Grown(acc, scale, x % 128), scale * 128;
    }
    r := None;
  }

  method ReadStrictVarint(b: Bytes, start: nat) returns (r: Option<Read>)
    requires start <= |b|
    ensures r == StrictVarint(b[start..], 0)
  {
    var i, acc: nat, scale: nat := start, 0, 1;
    for k := 0 to 10
      invariant start <= i <= |b|
      invariant StrictVarint(b[start..], 0) == Resume(acc, scale, StrictVarint(b[i..], k))
    {
      if i >= |b| { return None; }
      var x := b[i];
      i := i + 1;
      if k == 9 && x > 1 { return None; }
      StrictHead(b, i - 1, k);
      if x < 128 {
        return Some(Read(Grown(acc, scale, x), b[i..]));
      }
      ResumeStep(acc, scale, x, StrictVarint(b[i..], k + 1));
      acc, scale := Grown(acc, scale, x % 128), scale * 128;
    }
    r := None;
  }

  // ---- round trip ----

  lemma {:induction false} VarintRoundTrip(n: nat, rest: Bytes)
    ensures Varint(Uvarint(n) + rest) == Some(Read(n, rest))
  {
    if n < 128 {
      assert ([n] + rest)[1..] == rest;
    } else {
      var b := Uvarint(n) + rest;
      assert b[0] == n % 128 + 128 && b[1..] == Uvarint(n / 128) + rest;
      VarintRoundTrip(n / 128, rest);
    }
  }

  /** Bytes that a reader takes as one number: the top bit is set on all of them but the last. */
  predicate Chain(b: Bytes) {
    b != [] && b[|b| - 1] < 128 && forall i | 0 <= i < |b| - 1 :: b[i] >= 128
  }

  /** Seven bits of each byte, the first weighing least. */
  function Weigh(b: Bytes): nat {
    if b == [] then 0 else b[|b| - 1] % 128 * Pow128(|b| - 1) + Weigh(b[..|b| - 1])
  }

  lemma {:induction false} WeighHead(b: Bytes)
    requires b != []
    ensures Weigh(b) == b[0] % 128 + 128 * Weigh(b[1..])
  {
    var n := |b| - 1;
    if n == 0 {
      assert b[..0] == [] && b[1..] == [] && Pow128(0) == 1;
    } else {
      WeighHead(b[..n]);
      assert b[..n][1..] == b[1..][..n - 1] && b[1..][n - 1] == b[n];
      Scale(b[n] % 128, n);
    }
  }

  lemma Scale(x: nat, n: nat)
    requires n > 0
    ensures x * Pow128(n) == 128 * (x * Pow128(n - 1))
  {
  }

  lemma {:induction false} ChainMore(x: Byte, used: Bytes)
    requires x >= 128 && Chain(used)
    ensures Chain([x] + used) && Weigh([x] + used) == x - 128 + 128 * Weigh(used)
  {
    WeighHead([x] + used);
    assert ([x] + used)[1..] == used;
  }

  ghost predicate ReadsAs(b: Bytes, used: Bytes, r: Read) {
    b == used + r.rest && Chain(used) && r.value == Weigh(used)
  }

  lemma {:induction false} ReadsMore(b: Bytes, used: Bytes, r: Read)
    requires b != [] && b[0] >= 128 && ReadsAs(b[1..], used, r)
    ensures ReadsAs(b, [b[0]] + used, Read(b[0] - 128 + 128 * r.value, r.rest))
  {
    ChainMore(b[0], used);
    assert b == [b[0]] + b[1..];
    assert [b[0]] + used + r.rest == [b[0]] + (used + r.rest);
  }

  lemma {:induction false} EndedIff(b: Bytes)
    ensures Varint(b).Some? <==> exists i :: 0 <= i < |b| && b[i] < 128
  {
    if b != [] && b[0] >= 128 {
      EndedIff(b[1..]);
      assert forall i | 0 < i < |b| :: b[i] == b[1..][i - 1];
    }
  }

  lemma {:induction false} WeighedBytes(b: Bytes) returns (used: Bytes)
    requires Varint(b).Some?
    ensures ReadsAs(b, used, Varint(b).value)
  {
    if b[0] >= 128 {
      var rest := WeighedBytes(b[1..]);
      used := [b[0]] + rest;
      ReadsMore(b, rest, Varint(b[1..]).value);
    } else {
      used := [b[0]];
      WeighHead(used);
    }
  }

  /** A number is read exactly if some byte ends it, and then it is what the bytes up to the first such one weigh. */
  lemma VarintMeaning(b: Bytes)
    ensures Varint(b).Some? <==> exists i :: 0 <= i < |b| && b[i] < 128
    ensures Varint(b).Some? ==> exists used :: ReadsAs(b, used, Varint(b).value)
  {
    EndedIff(b);
    if Varint(b).Some? {
      var used := WeighedBytes(b);
    }
  }

  /** The encoding of a number is such bytes, weighs the number, and has no byte too many. */
  lemma {:induction false} UvarintMeaning(n: nat)
    ensures Chain(Uvarint(n)) && Weigh(Uvarint(n)) == n && (|Uvarint(n)| > 1 ==> Uvarint(n)[|Uvarint(n)| - 1] != 0)
  {
    WeighHead(Uvarint(n));
    if n >= 128 {
      UvarintMeaning(n / 128);
      assert Uvarint(n)[1..] == Uvarint(n / 128);
    }
  }

  lemma {:induction false} StrictWithin(b: Bytes, k: nat)
    requires k <= 9
    ensures StrictVarint(b, k).Some? <==>
              Varint(b).Some? && |b| - |Varint(b).value.rest| <= 10 - k && Varint(b).value.value < 2 * Pow128(9 - k)
    ensures StrictVarint(b, k).Some? ==> StrictVarint(b, k) == Varint(b)
    decreases 9 - k
  {
    if b != [] && b[0] >= 128 {
      if k < 9 {
        StrictWithin(b[1..], k + 1);
        assert Pow128(9 - k) == 128 * Pow128(8 - k);
      }
    } else if b != [] && k < 9 {
      assert Pow128(9 - k) == 128 * Pow128(8 - k);
    }
  }

  lemma TenBytesHold64Bits()
    ensures 2 * Pow128(9) == TWO64
  {
  }

  /** The strict reader is the lax one restricted to ten bytes and 64 bits. */
  lemma StrictIsLaxWithin64Bits(b: Bytes)
    ensures StrictVarint(b, 0).Some? <==>
              Varint(b).Some? && |b| - |Varint(b).value.rest| <= 10 && Varint(b).value.value < TWO64
    ensures StrictVarint(b, 0).Some? ==> StrictVarint(b, 0) == Varint(b)
  {
    StrictWithin(b, 0);
    TenBytesHold64Bits();
  }

  lemma {:induction false} UvarintLength(n: nat, k: nat)
    requires n < 128 * Pow128(k)
    ensures |Uvarint(n)| <= k + 1
  {
    if n >= 128 {
      assert Pow128(k) == 128 * Pow128(k - 1);
      UvarintLength(n / 128, k - 1);
    }
  }

  lemma StrictRoundTrip(n: nat, rest: Bytes)
    requires n < TWO64
    ensures StrictVarint(Uvarint(n) + rest, 0) == Some(Read(n, rest)) && |Uvarint(n)| <= 10
  {
    TenBytesHold64Bits();
    UvarintLength(n, 9);
    VarintRoundTrip(n, rest);
    StrictIsLaxWithin64Bits(Uvarint(n) + rest);
  }

  /** `_svar`: back from 64 bits to a signed number. */
  function Svar(n: nat): int {
    if n >= TWO63 then n - TWO64 else n
  }

  lemma SignedRoundTrip(n: int, rest: Bytes)
    requires 0 - TWO63 <= n < TWO63
    ensures Varint(Uvarint(n % TWO64) + rest).Some? && Svar(Varint(Uvarint(n % TWO64) + rest).value.value) == n
  {
    VarintRoundTrip(n % TWO64, rest);
  }

  /** Bytes after a complete varint do not change how it reads. */
  lemma {:induction false} StrictVarintAppend(b: Bytes, k: nat, tail: Bytes)
    requires StrictVarint(b, k).Some?
    ensures StrictVarint(b + tail, k) == Some(StrictVarint(b, k).value.(rest := StrictVarint(b, k).value.rest + tail))
  {
    var all := b + tail;
    assert all[0] == b[0] && all[1..] == b[1..] + tail;
    if b[0] >= 128 {
      StrictVarintAppend(b[1..], k + 1, tail);
      var more := StrictVarint(b[1..], k + 1).value;
      assert StrictVarint(all[1..], k + 1) == Some(Read(more.value, more.rest + tail));
    }
  }
}
