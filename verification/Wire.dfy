/**
  Protocol Buffers messages as field lists: the lax decoder with its lossless check (deploy/bot/mitm_wloc.py)
  and the strict decoder (deploy/bot/parse-geosite.py).
 */
module Wire {
  import opened Common
  import opened Base128

  datatype Value = Num(v: nat) | Fixed64(data: Bytes) | Sub(data: Bytes) | Fixed32(data: Bytes)

  datatype Field = Field(number: nat, value: Value)

  function WireType(v: Value): nat {
    match v
    case Num(_) => 0
    case Fixed64(_) => 1
    case Sub(_) => 2
    case Fixed32(_) => 5
  }

  // ---- encoding ----

  function Payload(v: Value): Bytes {
    match v
    case Num(n) => Uvarint(n % TWO64)
    case Sub(data) => Uvarint(|data| % TWO64) + data
    case Fixed64(data) => data
    case Fixed32(data) => data
  }

  function Key(f: Field): nat {
    8 * f.number + WireType(f.value)
  }

  function EncodeField(f: Field): Bytes {
    Uvarint(Key(f) % TWO64) + Payload(f.value)
  }

  function EncodeAll(fs: seq<Field>): Bytes {
    if fs == [] then [] else EncodeField(fs[0]) + EncodeAll(fs[1..])
  }

  /** The bytes of a field: its number times eight plus the wire type, then what the type asks for. */
  ghost predicate LaidOut(f: Field, key: Bytes, body: Bytes) {
    && Chain(key)
    && match f.value
       case Num(n) => Weigh(key) == (8 * f.number) % TWO64 && Chain(body) && Weigh(body) == n % TWO64
       case Fixed64(data) => Weigh(key) == (8 * f.number + 1) % TWO64 && body == data
       case Fixed32(data) => Weigh(key) == (8 * f.number + 5) % TWO64 && body == data
       case Sub(data) =>
         && Weigh(key) == (8 * f.number + 2) % TWO64
         && exists size :: body == size + data && Chain(size) && Weigh(size) == |data| % TWO64
  }

  lemma FieldLayout(f: Field)
    ensures exists key, body :: EncodeField(f) == key + body && LaidOut(f, key, body)
  {
    UvarintMeaning(Key(f) % TWO64);
    if f.value.Num? { UvarintMeaning(f.value.v % TWO64); }
    if f.value.Sub? { UvarintMeaning(|f.value.data| % TWO64); }
    assert LaidOut(f, Uvarint(Key(f) % TWO64), Payload(f.value));
  }

  // ---- decoding ----

  /** A field read from the front of a buffer. */
  datatype Got = Got(field: Field, rest: Bytes)

  /** The first `n` bytes, or all there are: what slicing past the end yields. */
  function Take(b: Bytes, n: nat): Bytes {
    if n <= |b| then b[..n] else b
  }

  function Skip(b: Bytes, n: nat): Bytes {
    if n <= |b| then b[n..] else []
  }

  function LaxValue(number: nat, wt: nat, b: Bytes): Option<Got> {
    if wt == 0 then
      var v := Varint(b);
      if v.None? then None else Some(Got(Field(number, Num(v.value.value)), v.value.rest))
    else if wt == 2 then
      var n := Varint(b);
      if n.None? then None
      else Some(Got(Field(number, Sub(Take(n.value.rest, n.value.value))), Skip(n.value.rest, n.value.value)))
    else if wt == 5 then Some(Got(Field(number, Fixed32(Take(b, 4))), Skip(b, 4)))
    else if wt == 1 then Some(Got(Field(number, Fixed64(Take(b, 8))), Skip(b, 8)))
    else None
  }

  function LaxField(b: Bytes): (r: Option<Got>)
    ensures r.Some? ==> |r.value.rest| < |b|
  {
    var key := Varint(b);
    if key.None? then None else LaxValue(key.value.value / 8, key.value.value % 8, key.value.rest)
  }

  /** `_fields` of the patcher. */
  function LaxFields(b: Bytes): Option<seq<Field>>
    decreases |b|
  {
    if b == [] then Some([]) else
    var got := LaxField(b);
    if got.None? then None else
    var more := LaxFields(got.value.rest);
    if more.None? then None else Some([got.value.field] + more.value)
  }

  function StrictValue(number: nat, wt: nat, b: Bytes): Option<Got> {
    if !(1 <= number < 0x2000_0000) then None
    else if wt == 0 then
      var v := StrictVarint(b, 0);
      if v.None? then None else Some(Got(Field(number, Num(v.value.value)), v.value.rest))
    else if wt == 2 then
      var n := StrictVarint(b, 0);
      if n.None? || n.value.value > |n.value.rest| then None
      else Some(Got(Field(number, Sub(n.value.rest[..n.value.value])), n.value.rest[n.value.value..]))
    else if wt == 5 then if |b| < 4 then None else Some(Got(Field(number, Fixed32(b[..4])), b[4..]))
    else if wt == 1 then if |b| < 8 then None else Some(Got(Field(number, Fixed64(b[..8])), b[8..]))
    else None
  }

  function StrictField(b: Bytes): (r: Option<Got>)
    ensures r.Some? ==> |r.value.rest| < |b|
  {
    var key := StrictVarint(b, 0);
    if key.None? then None else StrictValue(key.value.value / 8, key.value.value % 8, key.value.rest)
  }

  /** `_fields` of the geosite parser. */
  function StrictFields(b: Bytes): Option<seq<Field>>
    decreases |b|
  {
    if b == [] then Some([]) else
    var got := StrictField(b);
    if got.None? then None else
    var more := StrictFields(got.value.rest);
    if more.None? then None else Some([got.value.field] + more.value)
  }

  /** What a decoder that has `done` makes of the fields still to come. */
  function After(done: seq<Field>, more: Option<seq<Field>>): Option<seq<Field>> {
    if more.None? then None else Some(done + more.value)
  }

  lemma AfterAfter(a: seq<Field>, b: seq<Field>, more: Option<seq<Field>>)
    ensures After(a, After(b, more)) == After(a + b, more)
  {
    if more.Some? {
      assert a + (b + more.value) == a + b + more.value;
    }
  }

  lemma AfterNothing(more: Option<seq<Field>>)
    ensures After([], more) == more
  {
    if more.Some? {
      assert [] + more.value == more.value;
    }
  }

  lemma LaxStep(b: Bytes, got: Got)
    requires LaxField(b) == Some(got)
    ensures LaxFields(b) == After([got.field], LaxFields(got.rest))
  {
  }

  lemma StrictStep(b: Bytes, got: Got)
    requires StrictField(b) == Some(got)
    ensures StrictFields(b) == After([got.field], StrictFields(got.rest))
  {
  }

  method DecodeLax(b: Bytes) returns (r: Option<seq<Field>>)
    ensures r == LaxFields(b)
  {
    var rest, fields := b, [];
    AfterNothing(LaxFields(b));
    while rest != []
      invariant LaxFields(b) == After(fields, LaxFields(rest))
      decreases |rest|
    {
      var key := ReadVarint(rest, 0);
      assert rest[0..] == rest;
      if key.None? { return None; }
      var got := LaxValue(key.value.value / 8, key.value.value % 8, key.value.rest);
      if got.None? { return None; }
      LaxStep(rest, got.value);
      AfterAfter(fields, [got.value.field], LaxFields(got.value.rest));
      fields, rest := fields + [got.value.field], got.value.rest;
    }
    assert fields + [] == fields;
    r := Some(fields);
  }

  method DecodeStrict(b: Bytes) returns (r: Option<seq<Field>>)
    ensures r == StrictFields(b)
  {
    var rest, fields := b, [];
    AfterNothing(StrictFields(b));
    while rest != []
      invariant StrictFields(b) == After(fields, StrictFields(rest))
      decreases |rest|
    {
      var key := ReadStrictVarint(rest, 0);
      assert rest[0..] == rest;
      if key.None? { return None; }
      var got := StrictValue(key.value.value / 8, key.value.value % 8, key.value.rest);
      if got.None? { return None; }
      StrictStep(rest, got.value);
      AfterAfter(fields, [got.value.field], StrictFields(got.value.rest));
      fields, rest := fields + [got.value.field], got.value.rest;
    }
    assert fields + [] == fields;
    r := Some(fields);
  }

  // ---- the strict decoder ----

  /** A field both decoders can carry. */
  predicate Legal(f: Field) {
    && 1 <= f.number < 0x2000_0000
    && match f.value
       case Num(v) => v < TWO64
       case Sub(data) => |data| < TWO64
       case Fixed64(data) => |data| == 8
       case Fixed32(data) => |data| == 4
  }

  /** Number and wire type come back out of an unmasked key. */
  lemma KeyParts(f: Field)
    ensures Key(f) / 8 == f.number && Key(f) % 8 == WireType(f.value)
  {
  }

  /** A length prefix that was read, followed by that many bytes. */
  lemma StrictSubAt(number: nat, b: Bytes, data: Bytes, rest: Bytes)
    requires 1 <= number < 0x2000_0000 && StrictVarint(b, 0) == Some(Read(|data|, data + rest))
    ensures StrictValue(number, 2, b) == Some(Got(Field(number, Sub(data)), rest))
  {
    TakeAll(data, rest, |data|);
  }

  lemma SubPayload(data: Bytes, rest: Bytes)
    requires |data| < TWO64
    ensures Payload(Sub(data)) + rest == Uvarint(|data|) + (data + rest)
  {
    SmallStays(|data|);
    Regrouped(Uvarint(|data|), data, rest);
  }

  lemma SmallStays(n: nat)
    requires n < TWO64
    ensures n % TWO64 == n
  {
  }

  lemma Regrouped(a: Bytes, b: Bytes, c: Bytes)
    ensures a + b + c == a + (b + c)
  {
  }

  lemma StrictSubRoundTrip(number: nat, data: Bytes, rest: Bytes)
    requires 1 <= number < 0x2000_0000 && |data| < TWO64
    ensures StrictValue(number, 2, Payload(Sub(data)) + rest) == Some(Got(Field(number, Sub(data)), rest))
  {
    SubPayload(data, rest);
    StrictRoundTrip(|data|, data + rest);
    StrictSubAt(number, Payload(Sub(data)) + rest, data, rest);
  }

  lemma StrictNumRoundTrip(number: nat, v: nat, rest: Bytes)
    requires 1 <= number < 0x2000_0000 && v < TWO64
    ensures StrictValue(number, 0, Payload(Num(v)) + rest) == Some(Got(Field(number, Num(v)), rest))
  {
    StrictRoundTrip(v, rest);
  }

  lemma StrictValueRoundTrip(f: Field, rest: Bytes)
    requires Legal(f)
    ensures StrictValue(f.number, WireType(f.value), Payload(f.value) + rest) == Some(Got(f, rest))
  {
    match f.value
    case Num(v) => StrictNumRoundTrip(f.number, v, rest);
    case Sub(data) => StrictSubRoundTrip(f.number, data, rest);
    case Fixed64(data) => TakeAll(data, rest, 8);
    case Fixed32(data) => TakeAll(data, rest, 4);
  }

  lemma StrictFieldRoundTrip(f: Field, rest: Bytes)
    requires Legal(f)
    ensures StrictField(EncodeField(f) + rest) == Some(Got(f, rest))
  {
    assert EncodeField(f) + rest == Uvarint(Key(f)) + (Payload(f.value) + rest);
    StrictRoundTrip(Key(f), Payload(f.value) + rest);
    KeyParts(f);
    StrictValueRoundTrip(f, rest);
  }

  /** Decoding the encoding of any list of legal fields returns that list. */
  lemma {:induction false} StrictDecodesWhatIsEncoded(fs: seq<Field>)
    requires forall f | f in fs :: Legal(f)
    ensures StrictFields(EncodeAll(fs)) == Some(fs)
  {
    if fs != [] {
      var rest := EncodeAll(fs[1..]);
      StrictDecodesWhatIsEncoded(fs[1..]);
      StrictFieldRoundTrip(fs[0], rest);
      StrictGrows(EncodeField(fs[0]) + rest, Got(fs[0], rest), fs[1..]);
      assert fs == [fs[0]] + fs[1..];
    }
  }

  lemma StrictGrows(b: Bytes, got: Got, more: seq<Field>)
    requires StrictField(b) == Some(got) && StrictFields(got.rest) == Some(more)
    ensures StrictFields(b) == Some([got.field] + more)
  {
    StrictStep(b, got);
  }

  /** Appending behind a split does not move it. */
  lemma SplitAppend(b: Bytes, n: nat, tail: Bytes)
    requires n <= |b|
    ensures (b + tail)[..n] == b[..n] && (b + tail)[n..] == b[n..] + tail
  {
  }

  /** A value of an accepted field: legal, and read from its own bytes only. */
  lemma StrictValueFacts(number: nat, wt: nat, b: Bytes, tail: Bytes)
    requires StrictValue(number, wt, b).Some? && |b| < TWO64
    ensures Legal(StrictValue(number, wt, b).value.field)
    ensures LaxValue(number, wt, b) == StrictValue(number, wt, b)
    ensures StrictValue(number, wt, b + tail)
            == Some(StrictValue(number, wt, b).value.(rest := StrictValue(number, wt, b).value.rest + tail))
  {
    if wt == 0 || wt == 2 {
      StrictIsLaxWithin64Bits(b);
      StrictVarintAppend(b, 0, tail);
      if wt == 2 {
        var n := StrictVarint(b, 0).value;
        SplitAppend(n.rest, n.value, tail);
      }
    } else {
      SplitAppend(b, if wt == 5 then 4 else 8, tail);
    }
  }

  lemma StrictFieldFacts(b: Bytes, tail: Bytes)
    requires StrictField(b).Some? && |b| < TWO64
    ensures Legal(StrictField(b).value.field)
    ensures LaxField(b) == StrictField(b)
    ensures StrictField(b + tail) == Some(StrictField(b).value.(rest := StrictField(b).value.rest + tail))
  {
    var key := StrictVarint(b, 0).value;
    StrictIsLaxWithin64Bits(b);
    StrictVarintAppend(b, 0, tail);
    StrictValueFacts(key.value / 8, key.value % 8, key.rest, tail);
  }

  /**
    Accepted input is consumed exactly: every field is legal, the lax decoder agrees, and whatever is
    appended is decoded as if it stood alone.
   */
  lemma {:induction false} StrictConsumesExactly(b: Bytes, tail: Bytes)
    requires StrictFields(b).Some? && |b| < TWO64
    ensures forall f | f in StrictFields(b).value :: Legal(f)
    ensures LaxFields(b) == StrictFields(b)
    ensures StrictFields(b + tail) == After(StrictFields(b).value, StrictFields(tail))
    decreases |b|
  {
    if b == [] {
      assert b + tail == tail;
      AfterNothing(StrictFields(tail));
    } else {
      var got := StrictField(b).value;
      StrictFieldFacts(b, tail);
      StrictConsumesExactly(got.rest, tail);
      StrictStep(b, got);
      StrictStep(b + tail, got.(rest := got.rest + tail));
      LaxStep(b, got);
      AfterAfter([got.field], StrictFields(got.rest).value, StrictFields(tail));
    }
  }

  // ---- the lossless check ----

  /** `_try_fields`: fields only if encoding them again gives the same bytes. */
  function TryFields(data: Bytes): (r: Option<seq<Field>>)
    ensures r.Some? ==> EncodeAll(r.value) == data && forall f | f in r.value && f.value.Sub? :: |f.value.data| < |data|
  {
    if data == [] then None else
    var fs := LaxFields(data);
    if fs.Some? && EncodeAll(fs.value) == data then
      SubIsSmaller(fs.value);
      fs
    else None
  }

  method TryDecode(data: Bytes) returns (r: Option<seq<Field>>)
    ensures r == TryFields(data)
  {
    if data == [] { return None; }
    var fs := DecodeLax(data);
    if fs.None? { return None; }
    var check: Bytes := [];
    for i := 0 to |fs.value|
      invariant check + EncodeAll(fs.value[i..]) == EncodeAll(fs.value)
    {
      assert fs.value[i..][1..] == fs.value[i + 1..];
      check := check + EncodeField(fs.value[i]);
    }
    r := if check == data then fs else None;
  }

  /** What 64 bits leave of a field. */
  function Masked(f: Field): Field {
    Field(Key(f) % TWO64 / 8, if f.value.Num? then Num(f.value.v % TWO64) else f.value)
  }

  function MaskedAll(fs: seq<Field>): seq<Field> {
    seq(|fs|, i requires 0 <= i < |fs| => Masked(fs[i]))
  }

  predicate Full(v: Value) {
    (v.Fixed64? ==> |v.data| == 8) && (v.Fixed32? ==> |v.data| == 4)
  }

  predicate Short(v: Value) {
    (v.Fixed64? ==> |v.data| <= 8) && (v.Fixed32? ==> |v.data| <= 4) && (v.Sub? ==> |v.data| < TWO64)
  }

  /** Only the last fixed-width field may be cut off. */
  ghost predicate Shaped(fs: seq<Field>) {
    (forall i | 0 <= i < |fs| :: Short(fs[i].value)) && forall i | 0 <= i < |fs| - 1 :: Full(fs[i].value)
  }

  lemma LaxFieldShape(b: Bytes)
    requires LaxField(b).Some? && |b| < TWO64
    ensures Short(LaxField(b).value.field.value)
    ensures LaxField(b).value.rest != [] ==> Full(LaxField(b).value.field.value)
  {
  }

  lemma {:induction false} LaxShaped(b: Bytes)
    requires LaxFields(b).Some? && |b| < TWO64
    ensures Shaped(LaxFields(b).value)
    decreases |b|
  {
    if b != [] {
      LaxFieldShape(b);
      var rest := LaxField(b).value.rest;
      LaxShaped(rest);
      assert rest == [] ==> LaxFields(rest).value == [];
    }
  }

  lemma MaskKeepsType(f: Field)
    ensures Key(f) % TWO64 / 8 == Masked(f).number && Key(f) % TWO64 % 8 == WireType(f.value)
  {
  }

  lemma LaxSubAt(number: nat, b: Bytes, data: Bytes, rest: Bytes)
    requires Varint(b) == Some(Read(|data|, data + rest))
    ensures LaxValue(number, 2, b) == Some(Got(Field(number, Sub(data)), rest))
  {
    TakeAll(data, rest, |data|);
  }

  lemma LaxSubRoundTrip(number: nat, data: Bytes, rest: Bytes)
    requires |data| < TWO64
    ensures LaxValue(number, 2, Payload(Sub(data)) + rest) == Some(Got(Field(number, Sub(data)), rest))
  {
    SubPayload(data, rest);
    VarintRoundTrip(|data|, data + rest);
    LaxSubAt(number, Payload(Sub(data)) + rest, data, rest);
  }

  lemma LaxValueOfEncoded(number: nat, v: Value, rest: Bytes)
    requires Short(v) && (rest != [] ==> Full(v))
    ensures LaxValue(number, WireType(v), Payload(v) + rest)
            == Some(Got(Field(number, if v.Num? then Num(v.v % TWO64) else v), rest))
  {
    match v
    case Num(n) => VarintRoundTrip(n % TWO64, rest);
    case Sub(data) => LaxSubRoundTrip(number, data, rest);
    case Fixed64(data) => TakeAll(data, rest, 8);
    case Fixed32(data) => TakeAll(data, rest, 4);
  }

  /** A field encoded before `rest` reads back as what 64 bits leave of it. */
  lemma LaxFieldOfEncoded(f: Field, rest: Bytes)
    requires Short(f.value) && (rest != [] ==> Full(f.value))
    ensures LaxField(EncodeField(f) + rest) == Some(Got(Masked(f), rest))
  {
    assert EncodeField(f) + rest == Uvarint(Key(f) % TWO64) + (Payload(f.value) + rest);
    VarintRoundTrip(Key(f) % TWO64, Payload(f.value) + rest);
    MaskKeepsType(f);
    LaxValueOfEncoded(Masked(f).number, f.value, rest);
  }

  lemma TakeAll(data: Bytes, rest: Bytes, n: nat)
    requires |data| == n || (|data| <= n && rest == [])
    ensures Take(data + rest, n) == data && Skip(data + rest, n) == rest
  {
  }

  lemma MaskedSplit(fs: seq<Field>)
    requires fs != []
    ensures MaskedAll(fs) == [Masked(fs[0])] + MaskedAll(fs[1..])
  {
  }

  /** A decoded list grows at the front. */
  lemma LaxGrows(b: Bytes, got: Got, more: seq<Field>)
    requires LaxField(b) == Some(got) && LaxFields(got.rest) == Some(more)
    ensures LaxFields(b) == Some([got.field] + more)
  {
    LaxStep(b, got);
  }

  lemma {:induction false} LaxDecodesWhatIsEncoded(fs: seq<Field>)
    requires Shaped(fs)
    ensures LaxFields(EncodeAll(fs)) == Some(MaskedAll(fs))
  {
    if fs != [] {
      var rest := EncodeAll(fs[1..]);
      assert |fs| == 1 ==> rest == [];
      LaxDecodesWhatIsEncoded(fs[1..]);
      LaxFieldOfEncoded(fs[0], rest);
      LaxGrows(EncodeField(fs[0]) + rest, Got(Masked(fs[0]), rest), MaskedAll(fs[1..]));
      MaskedSplit(fs);
    } else {
      assert MaskedAll(fs) == [];
    }
  }

  ghost predicate InRange(fs: seq<Field>) {
    forall i | 0 <= i < |fs| :: Key(fs[i]) < TWO64 && (fs[i].value.Num? ==> fs[i].value.v < TWO64)
  }

  /** The bytes that pass the check are exactly the canonical encodings of non-empty field lists. */
  lemma LosslessIff(data: Bytes, fs: seq<Field>)
    requires |data| < TWO64
    ensures TryFields(data) == Some(fs) <==> data == EncodeAll(fs) && fs != [] && Shaped(fs) && InRange(fs)
  {
    if TryFields(data) == Some(fs) {
      LaxShaped(data);
      LaxDecodesWhatIsEncoded(fs);
      assert fs == MaskedAll(fs);
      forall i | 0 <= i < |fs| ensures Key(fs[i]) < TWO64 && (fs[i].value.Num? ==> fs[i].value.v < TWO64) {
        assert fs[i] == Masked(fs[i]);
        MaskKeepsType(fs[i]);
      }
    }
    if data == EncodeAll(fs) && fs != [] && Shaped(fs) && InRange(fs) {
      EncodedIsLossless(fs);
    }
  }

  lemma MaskedIsSame(f: Field)
    requires Key(f) < TWO64 && (f.value.Num? ==> f.value.v < TWO64)
    ensures Masked(f) == f
  {
  }

  lemma EncodedIsNotEmpty(fs: seq<Field>)
    requires fs != []
    ensures EncodeAll(fs) != []
  {
  }

  lemma EncodedIsLossless(fs: seq<Field>)
    requires fs != [] && Shaped(fs) && InRange(fs)
    ensures TryFields(EncodeAll(fs)) == Some(fs)
  {
    LaxDecodesWhatIsEncoded(fs);
    assert MaskedAll(fs) == fs by {
      forall i | 0 <= i < |fs| ensures Masked(fs[i]) == fs[i] {
        MaskedIsSame(fs[i]);
      }
    }
    EncodedIsNotEmpty(fs);
  }

  // ---- sizes ----

  lemma {:induction false} SubIsSmaller(fs: seq<Field>)
    ensures forall f | f in fs && f.value.Sub? :: |f.value.data| < |EncodeAll(fs)|
  {
    if fs != [] {
      SubIsSmaller(fs[1..]);
      assert |EncodeField(fs[0])| >= |Payload(fs[0].value)| + 1;
    }
  }

  lemma {:induction false} EncodeOneMore(fs: seq<Field>, f: Field)
    ensures EncodeAll(fs + [f]) == EncodeAll(fs) + EncodeField(f)
  {
    if fs == [] {
      assert [] + [f] == [f] && EncodeAll([f]) == EncodeField(f) + [];
    } else {
      assert (fs + [f])[1..] == fs[1..] + [f];
      EncodeOneMore(fs[1..], f);
    }
  }
}
