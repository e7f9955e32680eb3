/** The D-Bus value an accepted JSON tree stands for: the reference the two passes of the coercer
    are held against. It is well typed and keeps the nesting limits of a message. */
module Values {
  import opened Wrappers
  import opened Json
  import opened Integers
  import opened Signatures
  import opened Wire
  import opened Coercer

  const INT32_MIN := -0x8000_0000
  const INT32_MAX := 0x7FFF_FFFF

  /** A scalar on its own picks its D-Bus type: of 'i', 'x' and 'd' the first that holds a number. */
  function NaturalLeaf(value: Json): Leaf
    requires value.Bool? || value.Number? || value.String?
  {
    match value
    case Bool(b) => Flag(b)
    case Number(r) =>
      if r.Floor as real == r && -TWO_63 <= r.Floor < TWO_63 then
        Int(if INT32_MIN <= r.Floor <= INT32_MAX then 'i' else 'x', r.Floor)
      else Real(r)
    case String(s) => Text(s)
  }

  function TextsOf(items: seq<Json>): (r: seq<string>)
    requires forall i | 0 <= i < |items| :: items[i].String?
    ensures |r| == |items| && forall i | 0 <= i < |items| :: r[i] == items[i].text
  {
    if items == [] then [] else [items[0].text] + TextsOf(items[1..])
  }

  function Value(p: Platform, value: Json, t: Type, depth: nat): Wire
    requires Accepts(p, value, t, depth)
    decreases value, 2
  {
    match t
    case Basic(c) => Leaf(CoerceBasic(value, c).value)
    case Variant => Boxed(ContentValue(p, value, depth + 1))
    case Array(Basic('y')) => BytesValue(CoerceBytes(value).value)
    case Array(Basic('s')) => TextsValue(TextsOf(value.items))
    case Array(e) => Sequence(e, ItemValues(p, value.items, e, depth + 1))
    case Dict(k, v) => Mapping(k, v, EntryValues(p, value.members, k, v, depth + 2))
    case Struct(fs) => Tuple(FieldValues(p, value.items, fs, depth + 1))
  }

  function ItemValues(p: Platform, items: seq<Json>, e: Type, depth: nat): (r: seq<Wire>)
    requires forall i | 0 <= i < |items| :: Accepts(p, items[i], e, depth)
    ensures |r| == |items|
    ensures forall i | 0 <= i < |items| :: r[i] == Value(p, items[i], e, depth)
    decreases items, 3
  {
    if items == [] then [] else [Value(p, items[0], e, depth)] + ItemValues(p, items[1..], e, depth)
  }

  function FieldValues(p: Platform, items: seq<Json>, fs: seq<Type>, depth: nat): (r: seq<Wire>)
    requires |items| == |fs| && forall i | 0 <= i < |fs| :: Accepts(p, items[i], fs[i], depth)
    ensures |r| == |items|
    ensures forall i | 0 <= i < |items| :: r[i] == Value(p, items[i], fs[i], depth)
    decreases items, 3
  {
    if items == [] then []
    else [Value(p, items[0], fs[0], depth)] + FieldValues(p, items[1..], fs[1..], depth)
  }

  function EntryValues(p: Platform, members: seq<(string, Json)>, k: char, v: Type, depth: nat)
    : (r: seq<(Wire, Wire)>)
    requires forall i | 0 <= i < |members| ::
               CoerceKey(p, members[i].0, k).Some? && Accepts(p, members[i].1, v, depth)
    ensures |r| == |members|
    ensures forall i | 0 <= i < |members| ::
              r[i] == (Leaf(CoerceKey(p, members[i].0, k).value), Value(p, ValueOf(members[i]), v, depth))
    decreases members, 3
  {
    if members == [] then []
    else
      var first := members[0];
      [(Leaf(CoerceKey(p, first.0, k).value), Value(p, ValueOf(first), v, depth))]
      + EntryValues(p, members[1..], k, v, depth)
  }

  /** What is inside the variant that `value` becomes. */
  function ContentValue(p: Platform, value: Json, depth: nat): Wire
    requires AcceptsVariant(p, value, depth)
    decreases value, 1
  {
    if IsExplicit(value) then
      ExplicitParts(p, value, depth);
      Value(p, ExplicitValue(p, value, depth), ExplicitType(p, value, depth), depth)
    else if value.List? then Sequence(Variant, NaturalItems(p, value.items, depth + 2))
    else if value.Object? then Mapping('s', Variant, NaturalEntries(p, value.members, depth + 3))
    else Leaf(NaturalLeaf(value))
  }

  function NaturalItems(p: Platform, items: seq<Json>, depth: nat): (r: seq<Wire>)
    requires forall i | 0 <= i < |items| :: AcceptsVariant(p, items[i], depth)
    ensures |r| == |items|
    ensures forall i | 0 <= i < |items| :: r[i] == Boxed(ContentValue(p, items[i], depth))
    decreases items, 3
  {
    if items == [] then [] else [Boxed(ContentValue(p, items[0], depth))] + NaturalItems(p, items[1..], depth)
  }

  function NaturalEntries(p: Platform, members: seq<(string, Json)>, depth: nat): (r: seq<(Wire, Wire)>)
    requires forall i | 0 <= i < |members| :: AcceptsVariant(p, members[i].1, depth)
    ensures |r| == |members|
    ensures forall i | 0 <= i < |members| ::
              r[i] == (Leaf(Text(members[i].0)), Boxed(ContentValue(p, ValueOf(members[i]), depth)))
    decreases members, 3
  {
    if members == [] then []
    else
      var first := members[0];
      [(Leaf(Text(first.0)), Boxed(ContentValue(p, ValueOf(first), depth)))] + NaturalEntries(p, members[1..], depth)
  }

  // ------------------------------------------------------------ types by name

  /** The value with its type by name. */
  function Box(declared: string, value: Json): Json {
    Object([("@dbus", String(declared)), ("value", value)])
  }

  /** `value` fits in a variant as what the signature `declared` names. */
  predicate FitsNamed(p: Platform, value: Json, declared: string) {
    && IsSingle(declared) && 1 + Depth(TypeOf(declared)) <= MAX_MESSAGE_DEPTH
    && Accepts(p, value, TypeOf(declared), 1)
  }

  lemma BoxAccepted(p: Platform, declared: string, value: Json)
    ensures Accepts(p, Box(declared, value), Variant, 0) <==> FitsNamed(p, value, declared)
    ensures Accepts(p, Box(declared, value), Variant, 0) ==>
              Value(p, Box(declared, value), Variant, 0) == Boxed(Value(p, value, TypeOf(declared), 1))
  {
    hide IsSingle, TypeOf, Lookup, Depth;
    BoxParts(declared, value);
    assert Accepts(p, Box(declared, value), Variant, 0) <==> AcceptsVariant(p, Box(declared, value), 1);
    assert AcceptsVariant(p, Box(declared, value), 1) <==> AcceptsExplicit(p, Box(declared, value), 1);
  }

  lemma BoxParts(declared: string, value: Json)
    ensures var box := Box(declared, value);
            && IsExplicit(box) && ExplicitText(box) == declared
            && Lookup(box.members, "value") == Some(value)
  {
    var members := [("@dbus", String(declared)), ("value", value)];
    assert members[1..] == [("value", value)];
  }

  // ------------------------------------------------------------ typing

  lemma StringsCase(p: Platform, value: Json, depth: nat)
    requires Accepts(p, value, Array(Basic('s')), depth)
    ensures value.List? && forall i | 0 <= i < |value.items| :: value.items[i].String?
    ensures Value(p, value, Array(Basic('s')), depth) == TextsValue(TextsOf(value.items))
  {
    hide CoerceBasic, CoerceBytes, CoerceKey, AcceptsVariant, AcceptsExplicit, Print;
  }

  lemma ArrayCase(p: Platform, value: Json, e: Type, depth: nat)
    requires Accepts(p, value, Array(e), depth) && e != Basic('y') && e != Basic('s')
    ensures p.Known(e) && value.List? && forall i | 0 <= i < |value.items| :: Accepts(p, value.items[i], e, depth + 1)
    ensures Value(p, value, Array(e), depth) == Sequence(e, ItemValues(p, value.items, e, depth + 1))
  {
    hide CoerceBasic, CoerceBytes, CoerceKey, AcceptsVariant, AcceptsExplicit, Print;
  }

  lemma DictCase(p: Platform, value: Json, k: char, v: Type, depth: nat)
    requires Accepts(p, value, Dict(k, v), depth)
    ensures k != 'h' && p.Known(v) && value.Object?
    ensures forall i | 0 <= i < |value.members| ::
              CoerceKey(p, value.members[i].0, k).Some? && Accepts(p, value.members[i].1, v, depth + 2)
    ensures Value(p, value, Dict(k, v), depth) == Mapping(k, v, EntryValues(p, value.members, k, v, depth + 2))
  {
    hide CoerceBasic, CoerceBytes, CoerceKey, AcceptsVariant, AcceptsExplicit, Print;
  }

  lemma StructCase(p: Platform, value: Json, fs: seq<Type>, depth: nat)
    requires Accepts(p, value, Struct(fs), depth)
    ensures value.List? && |value.items| == |fs|
    ensures forall i | 0 <= i < |fs| :: Accepts(p, value.items[i], fs[i], depth + 1)
    ensures Value(p, value, Struct(fs), depth) == Tuple(FieldValues(p, value.items, fs, depth + 1))
  {
    hide CoerceBasic, CoerceBytes, CoerceKey, AcceptsVariant, AcceptsExplicit, Print;
  }

  lemma CoercedLeaf(value: Json, code: char)
    requires CoerceBasic(value, code).Some?
    ensures var l := CoerceBasic(value, code).value;
            LeafCode(l) == code && LeafValid(l) && l != Fd && code != 'h'
  {
    if IsIntegerCode(code) { CoerceIntegerExact(value, code); }
  }

  /** An accepted tree stands for a value of the type it was accepted for. */
  lemma {:induction false} ValueTyped(p: Platform, value: Json, t: Type, depth: nat)
    requires Accepts(p, value, t, depth) && WellFormed(t)
    ensures HasType(Value(p, value, t, depth), t)
    decreases value, 4
  {
    hide CoerceBasic, CoerceBytes, CoerceKey, AcceptsExplicit;
    match t
    case Basic(c) => CoercedLeaf(value, c);
    case Variant => ContentTyped(p, value, depth + 1);
    case Array(_) => ArrayTyped(p, value, t, depth);
    case Dict(_, _) => DictTyped(p, value, t, depth);
    case Struct(_) => StructTyped(p, value, t, depth);
  }

  lemma {:induction false} ArrayTyped(p: Platform, value: Json, t: Type, depth: nat)
    requires Accepts(p, value, t, depth) && WellFormed(t) && t.Array?
    ensures HasType(Value(p, value, t, depth), t)
    decreases value, 3
  {
    hide CoerceBasic, CoerceBytes, CoerceKey, AcceptsVariant, AcceptsExplicit, ContentValue;
    if t.element == Basic('y') {
      FlatTyped(CoerceBytes(value).value, []);
    } else if t.element == Basic('s') {
      StringsCase(p, value, depth);
      FlatTyped([], TextsOf(value.items));
    } else {
      ArrayCase(p, value, t.element, depth);
      forall i | 0 <= i < |value.items|
        ensures HasType(Value(p, value.items[i], t.element, depth + 1), t.element)
      {
        ValueTyped(p, value.items[i], t.element, depth + 1);
      }
    }
  }

  lemma {:induction false} DictTyped(p: Platform, value: Json, t: Type, depth: nat)
    requires Accepts(p, value, t, depth) && WellFormed(t) && t.Dict?
    ensures HasType(Value(p, value, t, depth), t)
    decreases value, 3
  {
    hide Accepts, Value, CoerceBasic;
    DictCase(p, value, t.key, t.value, depth);
    forall i | 0 <= i < |value.members|
      ensures HasType(Leaf(CoerceKey(p, value.members[i].0, t.key).value), Basic(t.key))
      ensures HasType(Value(p, ValueOf(value.members[i]), t.value, depth + 2), t.value)
    {
      CoercedLeaf(KeyValue(p, value.members[i].0, t.key), t.key);
      ValueTyped(p, ValueOf(value.members[i]), t.value, depth + 2);
    }
  }

  lemma {:induction false} StructTyped(p: Platform, value: Json, t: Type, depth: nat)
    requires Accepts(p, value, t, depth) && WellFormed(t) && t.Struct?
    ensures HasType(Value(p, value, t, depth), t)
    decreases value, 3
  {
    hide Accepts, Value;
    StructCase(p, value, t.fields, depth);
    var fs := t.fields;
    forall i | 0 <= i < |fs| ensures HasType(Value(p, value.items[i], fs[i], depth + 1), fs[i]) {
      assert fs[i] in fs;
      ValueTyped(p, value.items[i], fs[i], depth + 1);
    }
    assert WireTypes(FieldValues(p, value.items, fs, depth + 1)) == fs;
  }

  lemma {:induction false} ContentTyped(p: Platform, value: Json, depth: nat)
    requires AcceptsVariant(p, value, depth)
    ensures WellTyped(ContentValue(p, value, depth))
    decreases value, 1
  {
    hide CoerceBasic, CoerceBytes, CoerceKey, AcceptsExplicit;
    if IsExplicit(value) {
      ExplicitParts(p, value, depth);
      ValueTyped(p, ExplicitValue(p, value, depth), ExplicitType(p, value, depth), depth);
    } else if value.List? {
      forall i | 0 <= i < |value.items| ensures WellTyped(ContentValue(p, value.items[i], depth + 2)) {
        ContentTyped(p, value.items[i], depth + 2);
      }
    } else if value.Object? {
      ObjectTyped(p, value, depth);
    }
  }

  lemma {:induction false} ObjectTyped(p: Platform, value: Json, depth: nat)
    requires AcceptsVariant(p, value, depth) && value.Object? && !IsExplicit(value)
    ensures WellTyped(ContentValue(p, value, depth))
    decreases value, 0
  {
    hide CoerceBasic, CoerceBytes, CoerceKey, AcceptsExplicit;
    var entries := NaturalEntries(p, value.members, depth + 3);
    forall i | 0 <= i < |entries| ensures HasType(entries[i].1, Variant) && HasType(entries[i].0, Basic('s')) {
      ContentTyped(p, ValueOf(value.members[i]), depth + 3);
      assert entries[i].0 == Leaf(Text(value.members[i].0));
    }
  }

  // ------------------------------------------------------------ the depth bound

  /** An accepted value keeps the limits of a message. The arrays 'ay' and 'as', which nothing
      checks dynamically, count with the depth of their type; an empty natural list or object
      at the limit opens one more container, but has no leaf. */
  lemma {:induction false} ValueWithin(p: Platform, value: Json, t: Type, depth: nat, arrays: nat, structs: nat)
    requires Accepts(p, value, t, depth) && depth + Depth(t) <= MAX_MESSAGE_DEPTH && Fits(t, arrays, structs)
    ensures Within(Value(p, value, t, depth), depth, arrays, structs)
    decreases value, 4
  {
    hide CoerceBasic, CoerceBytes, CoerceKey, AcceptsExplicit;
    match t
    case Basic(c) =>
    case Variant => ContentWithin(p, value, depth + 1);
    case Array(_) => ArrayWithin(p, value, t, depth, arrays, structs);
    case Dict(_, _) => DictWithin(p, value, t, depth, arrays, structs);
    case Struct(_) => StructWithin(p, value, t, depth, arrays, structs);
  }

  lemma {:induction false} ArrayWithin(p: Platform, value: Json, t: Type, depth: nat, arrays: nat, structs: nat)
    requires Accepts(p, value, t, depth) && depth + Depth(t) <= MAX_MESSAGE_DEPTH && Fits(t, arrays, structs)
    requires t.Array?
    ensures Within(Value(p, value, t, depth), depth, arrays, structs)
    decreases value, 3
  {
    hide CoerceBasic, CoerceBytes, CoerceKey, AcceptsVariant, AcceptsExplicit, ContentValue;
    if t.element == Basic('y') {
      FlatWithin(CoerceBytes(value).value, [], depth, arrays, structs);
    } else if t.element == Basic('s') {
      StringsCase(p, value, depth);
      FlatWithin([], TextsOf(value.items), depth, arrays, structs);
    } else {
      ItemsWithin(p, value, t.element, depth, arrays, structs);
    }
  }

  lemma {:induction false} ItemsWithin(p: Platform, value: Json, e: Type, depth: nat, arrays: nat, structs: nat)
    requires Accepts(p, value, Array(e), depth) && depth + Depth(Array(e)) <= MAX_MESSAGE_DEPTH
    requires Fits(Array(e), arrays, structs) && e != Basic('y') && e != Basic('s')
    ensures Within(Value(p, value, Array(e), depth), depth, arrays, structs)
    decreases value, 2
  {
    ArrayCase(p, value, e, depth);
    hide Accepts, Value;
    forall i | 0 <= i < |value.items|
      ensures Within(Value(p, value.items[i], e, depth + 1), depth + 1, arrays + 1, structs)
    {
      ValueWithin(p, value.items[i], e, depth + 1, arrays + 1, structs);
    }
  }

  lemma {:induction false} DictWithin(p: Platform, value: Json, t: Type, depth: nat, arrays: nat, structs: nat)
    requires Accepts(p, value, t, depth) && depth + Depth(t) <= MAX_MESSAGE_DEPTH && Fits(t, arrays, structs)
    requires t.Dict?
    ensures Within(Value(p, value, t, depth), depth, arrays, structs)
    decreases value, 3
  {
    hide Accepts, Value, CoerceKey;
    DictCase(p, value, t.key, t.value, depth);
    forall i | 0 <= i < |value.members|
      ensures Within(Value(p, ValueOf(value.members[i]), t.value, depth + 2), depth + 2, arrays + 1, structs + 1)
    {
      ValueWithin(p, ValueOf(value.members[i]), t.value, depth + 2, arrays + 1, structs + 1);
    }
  }

  lemma {:induction false} StructWithin(p: Platform, value: Json, t: Type, depth: nat, arrays: nat, structs: nat)
    requires Accepts(p, value, t, depth) && depth + Depth(t) <= MAX_MESSAGE_DEPTH && Fits(t, arrays, structs)
    requires t.Struct?
    ensures Within(Value(p, value, t, depth), depth, arrays, structs)
    decreases value, 3
  {
    hide Accepts, Value, WellFormed, ArrayNestingAll, StructNestingAll;
    StructCase(p, value, t.fields, depth);
    FieldsFit(t.fields, arrays, structs);
    forall i | 0 <= i < |t.fields|
      ensures Within(Value(p, value.items[i], t.fields[i], depth + 1), depth + 1, arrays, structs + 1)
    {
      NestingOfField(t.fields, i);
      ValueWithin(p, value.items[i], t.fields[i], depth + 1, arrays, structs + 1);
    }
  }

  lemma {:induction false} ContentWithin(p: Platform, value: Json, depth: nat)
    requires AcceptsVariant(p, value, depth)
    ensures Within(ContentValue(p, value, depth), depth, 0, 0)
    decreases value, 1
  {
    hide CoerceBasic, CoerceBytes, CoerceKey, AcceptsExplicit;
    if IsExplicit(value) {
      ExplicitParts(p, value, depth);
      ValueWithin(p, ExplicitValue(p, value, depth), ExplicitType(p, value, depth), depth, 0, 0);
    } else if value.List? {
      forall i | 0 <= i < |value.items|
        ensures Within(Boxed(ContentValue(p, value.items[i], depth + 2)), depth + 1, 1, 0)
      {
        ContentWithin(p, value.items[i], depth + 2);
      }
    } else if value.Object? {
      forall i | 0 <= i < |value.members|
        ensures Within(Boxed(ContentValue(p, ValueOf(value.members[i]), depth + 3)), depth + 2, 1, 1)
        ensures depth + 2 <= MAX_MESSAGE_DEPTH
      {
        ContentWithin(p, ValueOf(value.members[i]), depth + 3);
      }
    }
  }
}
