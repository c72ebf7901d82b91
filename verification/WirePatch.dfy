/** Rewriting the coordinates inside a message (deploy/bot/mitm_wloc.py `_patch_pb`), against a tree of fields. */
module WirePatch {
  import opened Common
  import opened Base128
  import opened Wire

  // ---- the patcher on bytes ----

  predicate HoldsNum(fs: seq<Field>, number: nat) {
    exists f | f in fs :: f.number == number && f.value.Num?
  }

  /** A location message holds varint fields 1 and 2. */
  predicate IsLocation(fs: seq<Field>) {
    HoldsNum(fs, 1) && HoldsNum(fs, 2)
  }

  /** One field of a message after patching. */
  function PatchField(f: Field, location: bool, lat: int, lon: int): (r: Field)
    ensures r.number == f.number && WireType(r.value) == WireType(f.value)
    decreases if f.value.Sub? then |f.value.data| else 0, 2
  {
    if f.value.Sub? then Field(f.number, Sub(Patch(f.value.data, lat, lon)))
    else if f.value.Num? && location && f.number == 1 then Field(1, Num(lat % TWO64))
    else if f.value.Num? && location && f.number == 2 then Field(2, Num(lon % TWO64))
    else f
  }

  function Patch(data: Bytes, lat: int, lon: int): Bytes
    decreases |data|, 1
  {
    var fs := TryFields(data);
    if fs.None? then data else
    EncodeAll(seq(|fs.value|, i requires 0 <= i < |fs.value| =>
      PatchField(fs.value[i], IsLocation(fs.value), lat, lon)))
  }

  function PatchFields(fs: seq<Field>, lat: int, lon: int): seq<Field> {
    seq(|fs|, i requires 0 <= i < |fs| => PatchField(fs[i], IsLocation(fs), lat, lon))
  }

  lemma PatchIsEncoded(data: Bytes, lat: int, lon: int)
    requires TryFields(data).Some?
    ensures Patch(data, lat, lon) == EncodeAll(PatchFields(TryFields(data).value, lat, lon))
  {
  }

  lemma PatchOneMore(fs: seq<Field>, i: nat, lat: int, lon: int)
    requires i < |fs|
    ensures EncodeAll(PatchFields(fs, lat, lon)[..i + 1])
            == EncodeAll(PatchFields(fs, lat, lon)[..i]) + EncodeField(PatchField(fs[i], IsLocation(fs), lat, lon))
  {
    var fs' := PatchFields(fs, lat, lon);
    assert fs'[..i + 1] == fs'[..i] + [fs'[i]];
    EncodeOneMore(fs'[..i], fs'[i]);
  }

  /** `_patch_pb`: bytes that are not a message stay, fields are re-encoded one by one. */
  method PatchMessage(data: Bytes, lat: int, lon: int) returns (out: Bytes)
    ensures out == Patch(data, lat, lon)
    decreases |data|
  {
    var parsed := TryDecode(data);
    if parsed.None? { return data; }
    var fs := parsed.value;
    var location := IsLocation(fs);
    out := [];
    for i := 0 to |fs|
      invariant out == EncodeAll(PatchFields(fs, lat, lon)[..i])
    {
      var f := fs[i];
      PatchOneMore(fs, i, lat, lon);
      if f.value.Num? && location && f.number == 1 {
        out := out + EncodeField(Field(1, Num(lat % TWO64)));
      } else if f.value.Num? && location && f.number == 2 {
        out := out + EncodeField(Field(2, Num(lon % TWO64)));
      } else if f.value.Sub? {
        var inner := PatchMessage(f.value.data, lat, lon);
        out := out + EncodeField(Field(f.number, Sub(inner)));
      } else {
        out := out + EncodeField(f);
      }
    }
    assert PatchFields(fs, lat, lon)[..|fs|] == PatchFields(fs, lat, lon);
    PatchIsEncoded(data, lat, lon);
  }

  /** `_has_loc`. */
  function HasLoc(data: Bytes): bool
    decreases |data|
  {
    var fs := TryFields(data);
    fs.Some? && (IsLocation(fs.value) || exists f | f in fs.value && f.value.Sub? :: HasLoc(f.value.data))
  }

  // ---- what the bytes mean ----

  datatype Tree = Opaque(data: Bytes) | Message(items: seq<Item>)

  datatype Item = Leaf(field: Field) | Nested(number: nat, tree: Tree)

  function ItemOf(f: Field): Item
    decreases if f.value.Sub? then |f.value.data| else 0, 2
  {
    if f.value.Sub? then Nested(f.number, TreeOf(f.value.data)) else Leaf(f)
  }

  /** The field tree: submessages where the bytes encode fields losslessly, opaque bytes elsewhere. */
  function TreeOf(data: Bytes): Tree
    decreases |data|, 1
  {
    var fs := TryFields(data);
    if fs.None? then Opaque(data)
    else Message(seq(|fs.value|, i requires 0 <= i < |fs.value| => ItemOf(fs.value[i])))
  }

  function FieldOf(item: Item): Field {
    match item
    case Leaf(f) => f
    case Nested(number, t) => Field(number, Sub(BytesOf(t)))
  }

  function BytesOf(t: Tree): Bytes {
    match t
    case Opaque(data) => data
    case Message(items) => EncodeAll(seq(|items|, i requires 0 <= i < |items| => FieldOf(items[i])))
  }

  predicate ItemsHold(items: seq<Item>, number: nat) {
    exists i | 0 <= i < |items| :: items[i].Leaf? && items[i].field.number == number && items[i].field.value.Num?
  }

  predicate Locates(items: seq<Item>) {
    ItemsHold(items, 1) && ItemsHold(items, 2)
  }

  /** The coordinates replaced in every location message, however deep; nothing else touched. */
  function Relocate(t: Tree, lat: int, lon: int): Tree {
    match t
    case Opaque(data) => t
    case Message(items) =>
      Message(seq(|items|, i requires 0 <= i < |items| => RelocateItem(items[i], Locates(items), lat, lon)))
  }

  function RelocateItem(item: Item, location: bool, lat: int, lon: int): Item {
    match item
    case Nested(number, t) => Nested(number, Relocate(t, lat, lon))
    case Leaf(f) =>
      if !location || !f.value.Num? then item
      else if f.number == 1 then Leaf(Field(1, Num(lat % TWO64)))
      else if f.number == 2 then Leaf(Field(2, Num(lon % TWO64)))
      else item
  }

  predicate TreeHasLoc(t: Tree) {
    t.Message?
    && (Locates(t.items) || exists i | 0 <= i < |t.items| :: t.items[i].Nested? && TreeHasLoc(t.items[i].tree))
  }

  /** Every location message of the tree says these coordinates. */
  predicate AllAt(t: Tree, lat: int, lon: int) {
    t.Message? ==> forall i | 0 <= i < |t.items| :: ItemAt(t.items[i], Locates(t.items), lat, lon)
  }

  predicate ItemAt(item: Item, location: bool, lat: int, lon: int) {
    match item
    case Nested(_, t) => AllAt(t, lat, lon)
    case Leaf(f) =>
      location && f.value.Num? ==>
        (f.number == 1 ==> f.value.v == lat % TWO64) && (f.number == 2 ==> f.value.v == lon % TWO64)
  }

  // ---- tree laws ----

  lemma {:induction false} RelocateItemTwice(item: Item, location: bool, x: int, y: int, lat: int, lon: int)
    ensures RelocateItem(RelocateItem(item, location, x, y), location, lat, lon)
            == RelocateItem(item, location, lat, lon)
  {
    if item.Nested? {
      RelocateTwice(item.tree, x, y, lat, lon);
    }
  }

  lemma {:induction false} RelocateTwice(t: Tree, x: int, y: int, lat: int, lon: int)
    ensures Relocate(Relocate(t, x, y), lat, lon) == Relocate(t, lat, lon)
  {
    if t.Message? {
      var items := t.items;
      var once := Relocate(t, x, y).items;
      SameLocates(items, x, y);
      forall i | 0 <= i < |items|
        ensures RelocateItem(once[i], Locates(once), lat, lon) == RelocateItem(items[i], Locates(items), lat, lon)
      {
        RelocateItemTwice(items[i], Locates(items), x, y, lat, lon);
      }
    }
  }

  lemma SameLocates(items: seq<Item>, lat: int, lon: int)
    ensures Locates(Relocate(Message(items), lat, lon).items) == Locates(items)
  {
    var moved := Relocate(Message(items), lat, lon).items;
    forall number ensures ItemsHold(moved, number) == ItemsHold(items, number) {
      forall i | 0 <= i < |items|
        ensures (items[i].Leaf? && items[i].field.number == number && items[i].field.value.Num?)
                == (moved[i].Leaf? && moved[i].field.number == number && moved[i].field.value.Num?)
      {
        assert moved[i] == RelocateItem(items[i], Locates(items), lat, lon);
      }
    }
  }

  lemma {:induction false} RelocateItemFixes(item: Item, location: bool, lat: int, lon: int)
    ensures ItemAt(RelocateItem(item, location, lat, lon), location, lat, lon)
    ensures RelocateItem(item, location, lat, lon) == item <==> ItemAt(item, location, lat, lon)
  {
    if item.Nested? {
      RelocateFixes(item.tree, lat, lon);
    }
  }

  /** Relocation puts every location there, and changes a tree exactly when some location was elsewhere. */
  lemma {:induction false} RelocateFixes(t: Tree, lat: int, lon: int)
    ensures AllAt(Relocate(t, lat, lon), lat, lon)
    ensures Relocate(t, lat, lon) == t <==> AllAt(t, lat, lon)
  {
    if t.Message? {
      var moved := Relocate(t, lat, lon).items;
      SameLocates(t.items, lat, lon);
      forall i | 0 <= i < |t.items|
        ensures moved[i] == RelocateItem(t.items[i], Locates(t.items), lat, lon)
        ensures ItemAt(moved[i], Locates(moved), lat, lon)
        ensures moved[i] == t.items[i] <==> ItemAt(t.items[i], Locates(t.items), lat, lon)
      {
        RelocateItemFixes(t.items[i], Locates(t.items), lat, lon);
      }
      assert (forall i | 0 <= i < |t.items| :: moved[i] == t.items[i]) <==> moved == t.items;
    }
  }

  lemma {:induction false} NoLocationIsAnywhere(t: Tree, lat: int, lon: int)
    requires !TreeHasLoc(t)
    ensures AllAt(t, lat, lon)
  {
    if t.Message? {
      forall i | 0 <= i < |t.items| ensures ItemAt(t.items[i], Locates(t.items), lat, lon) {
        if t.items[i].Nested? {
          NoLocationIsAnywhere(t.items[i].tree, lat, lon);
        }
      }
    }
  }

  // ---- bytes and trees ----

  lemma LocationsAgree(fs: seq<Field>, items: seq<Item>)
    requires |items| == |fs| && forall i | 0 <= i < |fs| :: items[i] == ItemOf(fs[i])
    ensures IsLocation(fs) == Locates(items)
  {
  }

  lemma {:induction false} TreeKeepsBytes(data: Bytes)
    ensures BytesOf(TreeOf(data)) == data
    decreases |data|
  {
    var parsed := TryFields(data);
    if parsed.Some? {
      var fs, items := parsed.value, TreeOf(data).items;
      var back := seq(|items|, i requires 0 <= i < |items| => FieldOf(items[i]));
      forall i | 0 <= i < |fs| ensures back[i] == fs[i] {
        assert fs[i] in fs && items[i] == ItemOf(fs[i]);
        if fs[i].value.Sub? { TreeKeepsBytes(fs[i].value.data); }
      }
      assert back == fs;
    }
  }

  /** The patcher on bytes is relocation on trees. */
  lemma {:induction false} PatchIsRelocation(data: Bytes, lat: int, lon: int)
    ensures Patch(data, lat, lon) == BytesOf(Relocate(TreeOf(data), lat, lon))
    decreases |data|
  {
    var parsed := TryFields(data);
    if parsed.Some? {
      var fs, items := parsed.value, TreeOf(data).items;
      LocationsAgree(fs, items);
      var moved := Relocate(TreeOf(data), lat, lon).items;
      var back := seq(|moved|, i requires 0 <= i < |moved| => FieldOf(moved[i]));
      forall i | 0 <= i < |fs| ensures back[i] == PatchField(fs[i], IsLocation(fs), lat, lon) {
        assert fs[i] in fs && moved[i] == RelocateItem(ItemOf(fs[i]), IsLocation(fs), lat, lon);
        if fs[i].value.Sub? { PatchIsRelocation(fs[i].value.data, lat, lon); }
      }
      PatchIsEncoded(data, lat, lon);
      assert back == PatchFields(fs, lat, lon);
    }
  }

  lemma {:induction false} HasLocIsTreeHasLoc(data: Bytes)
    ensures HasLoc(data) == TreeHasLoc(TreeOf(data))
    decreases |data|
  {
    var parsed := TryFields(data);
    if parsed.Some? {
      var fs, items := parsed.value, TreeOf(data).items;
      LocationsAgree(fs, items);
      forall f | f in fs && f.value.Sub? ensures HasLoc(f.value.data) == TreeHasLoc(TreeOf(f.value.data)) {
        HasLocIsTreeHasLoc(f.value.data);
      }
      if f :| f in fs && f.value.Sub? && HasLoc(f.value.data) {
        var i :| 0 <= i < |fs| && fs[i] == f;
        assert items[i] == ItemOf(f);
      }
      if i :| 0 <= i < |items| && items[i].Nested? && TreeHasLoc(items[i].tree) {
        assert fs[i] in fs && items[i] == ItemOf(fs[i]);
      }
    }
  }

  // ---- sizes ----

  lemma FieldGrowth(f: Field, f': Field)
    requires f'.number == f.number && WireType(f'.value) == WireType(f.value)
    requires f'.value.Sub? ==> |f'.value.data| <= 11 * |f.value.data|
    requires !f'.value.Sub? && !f'.value.Num? ==> f' == f
    ensures |EncodeField(f')| <= 11 * |EncodeField(f)|
  {
    if f'.value.Num? {
      VarintLimit(f'.value.v % TWO64);
    } else if f'.value.Sub? {
      VarintLimit(|f'.value.data| % TWO64);
    }
  }

  lemma VarintLimit(n: nat)
    requires n < TWO64
    ensures |Uvarint(n)| <= 10
  {
    TenBytesHold64Bits();
    UvarintLength(n, 9);
  }

  lemma {:induction false} FieldsGrowth(fs: seq<Field>, fs': seq<Field>)
    requires |fs'| == |fs| && forall i | 0 <= i < |fs| :: |EncodeField(fs'[i])| <= 11 * |EncodeField(fs[i])|
    ensures |EncodeAll(fs')| <= 11 * |EncodeAll(fs)|
  {
    if fs != [] {
      FieldsGrowth(fs[1..], fs'[1..]);
    }
  }

  /** Longer coordinates and the lengths around them at most multiply a message by eleven. */
  lemma {:induction false} PatchGrowth(data: Bytes, lat: int, lon: int)
    ensures |Patch(data, lat, lon)| <= 11 * |data|
    decreases |data|
  {
    var parsed := TryFields(data);
    if parsed.Some? {
      var fs := parsed.value;
      var fs' := PatchFields(fs, lat, lon);
      PatchIsEncoded(data, lat, lon);
      forall i | 0 <= i < |fs| ensures |EncodeField(fs'[i])| <= 11 * |EncodeField(fs[i])| {
        assert fs[i] in fs;
        if fs[i].value.Sub? { PatchGrowth(fs[i].value.data, lat, lon); }
        FieldGrowth(fs[i], fs'[i]);
      }
      FieldsGrowth(fs, fs');
    }
  }

  // ---- the theorems ----

  /** A patched message decodes again, to the patched fields. */
  lemma PatchedIsLossless(data: Bytes, lat: int, lon: int)
    requires TryFields(data).Some? && 11 * |data| < TWO64
    ensures TryFields(Patch(data, lat, lon)) == Some(PatchFields(TryFields(data).value, lat, lon))
  {
    var fs := TryFields(data).value;
    var fs' := PatchFields(fs, lat, lon);
    LosslessIff(data, fs);
    forall i | 0 <= i < |fs|
      ensures Short(fs'[i].value) && (Full(fs[i].value) ==> Full(fs'[i].value))
      ensures Key(fs'[i]) < TWO64 && (fs'[i].value.Num? ==> fs'[i].value.v < TWO64)
    {
      assert fs[i] in fs;
      if fs[i].value.Sub? { PatchGrowth(fs[i].value.data, lat, lon); }
    }
    PatchIsEncoded(data, lat, lon);
    EncodedIsLossless(fs');
  }

  /**
    The patched bytes have the same field tree with only the coordinates replaced, in exactly the
    messages that hold both, although varints and all enclosing lengths may change size.
   */
  lemma {:induction false} PatchKeepsTheTree(data: Bytes, lat: int, lon: int)
    requires 11 * |data| < TWO64
    ensures TreeOf(Patch(data, lat, lon)) == Relocate(TreeOf(data), lat, lon)
    decreases |data|
  {
    var parsed := TryFields(data);
    if parsed.Some? {
      var fs, items := parsed.value, TreeOf(data).items;
      var fs' := PatchFields(fs, lat, lon);
      PatchedIsLossless(data, lat, lon);
      LocationsAgree(fs, items);
      var moved := Relocate(TreeOf(data), lat, lon).items;
      forall i | 0 <= i < |fs| ensures ItemOf(fs'[i]) == moved[i] {
        assert fs[i] in fs && moved[i] == RelocateItem(ItemOf(fs[i]), IsLocation(fs), lat, lon);
        if fs[i].value.Sub? { PatchKeepsTheTree(fs[i].value.data, lat, lon); }
      }
      assert TreeOf(Patch(data, lat, lon)).items == moved;
    }
  }

  /** The last patch wins. */
  lemma PatchTwice(data: Bytes, x: int, y: int, lat: int, lon: int)
    requires 11 * |data| < TWO64
    ensures Patch(Patch(data, x, y), lat, lon) == Patch(data, lat, lon)
  {
    PatchIsRelocation(Patch(data, x, y), lat, lon);
    PatchKeepsTheTree(data, x, y);
    RelocateTwice(TreeOf(data), x, y, lat, lon);
    PatchIsRelocation(data, lat, lon);
  }

  /** Bytes without a location come back unchanged; in general, exactly those already at the target do. */
  lemma UnchangedIff(data: Bytes, lat: int, lon: int)
    requires 11 * |data| < TWO64
    ensures Patch(data, lat, lon) == data <==> AllAt(TreeOf(data), lat, lon)
    ensures !HasLoc(data) ==> Patch(data, lat, lon) == data
    ensures AllAt(TreeOf(Patch(data, lat, lon)), lat, lon)
  {
    PatchIsRelocation(data, lat, lon);
    PatchKeepsTheTree(data, lat, lon);
    TreeKeepsBytes(data);
    RelocateFixes(TreeOf(data), lat, lon);
    HasLocIsTreeHasLoc(data);
    if !HasLoc(data) {
      NoLocationIsAnywhere(TreeOf(data), lat, lon);
    }
  }
}
