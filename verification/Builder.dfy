/** Pass 2 of the coercer (typecoercer.cpp:620-760): building what is sent.

The functions say which stream is written; the methods write it, step by step, as the source does.
The main result is that what was checked is always built into a stream that QtDBus reads back as
the value the JSON tree stands for. */
module Builder {
  import opened Wrappers
  import opened Json
  import opened Signatures
  import opened Scanner
  import opened Wire
  import opened Coercer
  import opened Values
  import opened Marshalling

  // ------------------------------------------------------------ what is built

  function BuiltVariant(p: Platform, value: Json, t: Type, depth: nat): QVariant
    requires Accepts(p, value, t, depth)
    decreases value, 4
  {
    match t
    case Basic(c) => QBasic(CoerceBasic(value, c).value)
    case Variant => QBoxed(Content(p, value, depth + 1))
    case Array(Basic('y')) => QByteArray(CoerceBytes(value).value)
    case Array(Basic('s')) => QStringList(TextsOf(value.items))
    case _ => QArgument(Ops(p, value, t, depth))
  }

  /** The operations write() appends for a value. */
  function Ops(p: Platform, value: Json, t: Type, depth: nat): seq<Op>
    requires Accepts(p, value, t, depth)
    decreases value, 3
  {
    match t
    case Basic(c) => [Put(CoerceBasic(value, c).value)]
    case Variant => [PutVariant(Content(p, value, depth + 1))]
    case Array(Basic('y')) => [PutBytes(CoerceBytes(value).value)]
    case Array(Basic('s')) => [BeginArray("s")] + OpsOfTexts(TextsOf(value.items)) + [EndArray]
    case Array(e) => [BeginArray(Print(e))] + OpsOfItems(p, value.items, e, depth + 1) + [EndArray]
    case Dict(k, v) => [BeginMap([k], Print(v))] + OpsOfEntries(p, value.members, k, v, depth + 2) + [EndMap]
    case Struct(fs) => [BeginStructure] + OpsOfFields(p, value.items, fs, depth + 1) + [EndStructure]
  }

  function OpsOfTexts(texts: seq<string>): seq<Op> {
    if texts == [] then [] else [Put(Text(texts[0]))] + OpsOfTexts(texts[1..])
  }

  function OpsOfItems(p: Platform, items: seq<Json>, e: Type, depth: nat): seq<Op>
    requires forall i | 0 <= i < |items| :: Accepts(p, items[i], e, depth)
    decreases items, 5
  {
    if items == [] then [] else Ops(p, items[0], e, depth) + OpsOfItems(p, items[1..], e, depth)
  }

  function OpsOfEntry(p: Platform, member: (string, Json), k: char, v: Type, depth: nat): seq<Op>
    requires CoerceKey(p, member.0, k).Some? && Accepts(p, member.1, v, depth)
    decreases member, 4
  {
    [BeginMapEntry] + ([Put(CoerceKey(p, member.0, k).value)] + Ops(p, ValueOf(member), v, depth)) + [EndMapEntry]
  }

  function OpsOfEntries(p: Platform, members: seq<(string, Json)>, k: char, v: Type, depth: nat): seq<Op>
    requires forall i | 0 <= i < |members| ::
               CoerceKey(p, members[i].0, k).Some? && Accepts(p, members[i].1, v, depth)
    decreases members, 5
  {
    if members == [] then []
    else OpsOfEntry(p, members[0], k, v, depth) + OpsOfEntries(p, members[1..], k, v, depth)
  }

  function OpsOfFields(p: Platform, items: seq<Json>, fs: seq<Type>, depth: nat): seq<Op>
    requires |items| == |fs| && forall i | 0 <= i < |fs| :: Accepts(p, items[i], fs[i], depth)
    decreases items, 5
  {
    if items == [] then []
    else Ops(p, items[0], fs[0], depth) + OpsOfFields(p, items[1..], fs[1..], depth)
  }

  /** The content variantContent() puts into a variant. */
  function Content(p: Platform, value: Json, depth: nat): QVariant
    requires AcceptsVariant(p, value, depth)
    decreases value, 1
  {
    if IsExplicit(value) then
      ExplicitParts(p, value, depth);
      BuiltVariant(p, ExplicitValue(p, value, depth), ExplicitType(p, value, depth), depth)
    else if value.List? then QVariantList(ContentOfItems(p, value.items, depth + 2))
    else if value.Object? then QVariantMap(ContentOfMembers(p, value.members, depth + 3))
    else QBasic(NaturalLeaf(value))
  }

  function ContentOfItems(p: Platform, items: seq<Json>, depth: nat): seq<QVariant>
    requires forall i | 0 <= i < |items| :: AcceptsVariant(p, items[i], depth)
    decreases items, 5
  {
    if items == [] then [] else [Content(p, items[0], depth)] + ContentOfItems(p, items[1..], depth)
  }

  function ContentOfMembers(p: Platform, members: seq<(string, Json)>, depth: nat): seq<(string, QVariant)>
    requires forall i | 0 <= i < |members| :: AcceptsVariant(p, members[i].1, depth)
    decreases members, 5
  {
    if members == [] then []
    else [(members[0].0, Content(p, ValueOf(members[0]), depth))] + ContentOfMembers(p, members[1..], depth)
  }

  // ------------------------------------------------------------ reading it back

  lemma {:induction false} TextsRead(p: Platform, texts: seq<string>, ops: seq<Op>, pos: nat)
    requires OpsAt(ops, pos, OpsOfTexts(texts))
    requires pos + |OpsOfTexts(texts)| < |ops| && ops[pos + |OpsOfTexts(texts)|] == EndArray
    ensures ReadItems(p, ops, pos, Basic('s')) == Some((TextsValue(texts).items, pos + |OpsOfTexts(texts)| + 1))
    decreases texts
  {
    hide OpsAt;
    if texts != [] {
      var first := Put(Text(texts[0]));
      OpsAtConcat(ops, pos, [first], OpsOfTexts(texts[1..]));
      OpAt(ops, pos, first);
      TextsRead(p, texts[1..], ops, pos + 1);
    }
  }

  lemma OpsStart(p: Platform, value: Json, t: Type, depth: nat)
    requires Accepts(p, value, t, depth)
    ensures var ops := Ops(p, value, t, depth);
            ops != [] && ops[0] != EndArray && ops[0] != EndMap && ops[0] != EndStructure
  {
    hide CoerceBasic, CoerceBytes, CoerceKey, AcceptsExplicit;
  }

  lemma {:induction false} ItemsRead(p: Platform, items: seq<Json>, e: Type, depth: nat, ops: seq<Op>, pos: nat)
    requires p.Native() && Valid(e) && forall i | 0 <= i < |items| :: Accepts(p, items[i], e, depth)
    requires OpsAt(ops, pos, OpsOfItems(p, items, e, depth))
    requires var end := pos + |OpsOfItems(p, items, e, depth)|; end < |ops| && ops[end] == EndArray
    ensures ReadItems(p, ops, pos, e) ==
            Some((ItemValues(p, items, e, depth), pos + |OpsOfItems(p, items, e, depth)| + 1))
    decreases items, 5
  {
    hide Accepts, AcceptsVariant, Ops, Value, WellTyped, WireType, OpsAt, Print, Read;
    if items != [] {
      var first, rest := Ops(p, items[0], e, depth), OpsOfItems(p, items[1..], e, depth);
      OpsAtConcat(ops, pos, first, rest);
      OpsStart(p, items[0], e, depth);
      FirstAt(ops, pos, first);
      OpsRead(p, items[0], e, depth, ops, pos);
      ValueTyped(p, items[0], e, depth);
      ItemsRead(p, items[1..], e, depth, ops, pos + |first|);
    }
  }

  lemma {:induction false} FieldsRead(p: Platform, items: seq<Json>, fs: seq<Type>, depth: nat,
                                      ops: seq<Op>, pos: nat)
    requires p.Native() && |items| == |fs| && forall i | 0 <= i < |fs| :: Accepts(p, items[i], fs[i], depth)
    requires forall i | 0 <= i < |fs| :: Valid(fs[i])
    requires OpsAt(ops, pos, OpsOfFields(p, items, fs, depth))
    requires var end := pos + |OpsOfFields(p, items, fs, depth)|; end < |ops| && ops[end] == EndStructure
    ensures ReadFields(p, ops, pos) ==
            Some((FieldValues(p, items, fs, depth), pos + |OpsOfFields(p, items, fs, depth)| + 1))
    decreases items, 5
  {
    hide Accepts, AcceptsVariant, Ops, Value, Valid, OpsAt, Read;
    if items != [] {
      var first, rest := Ops(p, items[0], fs[0], depth), OpsOfFields(p, items[1..], fs[1..], depth);
      OpsAtConcat(ops, pos, first, rest);
      OpsStart(p, items[0], fs[0], depth);
      FirstAt(ops, pos, first);
      OpsRead(p, items[0], fs[0], depth, ops, pos);
      FieldsRead(p, items[1..], fs[1..], depth, ops, pos + |first|);
    }
  }

  lemma {:induction false} EntriesRead(p: Platform, members: seq<(string, Json)>, k: char, v: Type, depth: nat,
                                       ops: seq<Op>, pos: nat)
    requires p.Native() && Valid(v)
    requires forall i | 0 <= i < |members| ::
               CoerceKey(p, members[i].0, k).Some? && Accepts(p, members[i].1, v, depth)
    requires OpsAt(ops, pos, OpsOfEntries(p, members, k, v, depth))
    requires var end := pos + |OpsOfEntries(p, members, k, v, depth)|; end < |ops| && ops[end] == EndMap
    ensures ReadEntries(p, ops, pos, k, v) ==
            Some((EntryValues(p, members, k, v, depth), pos + |OpsOfEntries(p, members, k, v, depth)| + 1))
    decreases members, 5
  {
    hide Accepts, AcceptsVariant, CoerceKey, OpsOfEntry, Value, Valid, OpsAt, WellTyped, WireType, Read;
    if members != [] {
      var first, rest := OpsOfEntry(p, members[0], k, v, depth), OpsOfEntries(p, members[1..], k, v, depth);
      OpsAtConcat(ops, pos, first, rest);
      EntryRead(p, members[0], k, v, depth, ops, pos);
      EntriesRead(p, members[1..], k, v, depth, ops, pos + |first|);
    }
  }

  lemma {:induction false} EntryRead(p: Platform, member: (string, Json), k: char, v: Type, depth: nat,
                                     ops: seq<Op>, pos: nat)
    requires p.Native() && Valid(v) && CoerceKey(p, member.0, k).Some? && Accepts(p, member.1, v, depth)
    requires OpsAt(ops, pos, OpsOfEntry(p, member, k, v, depth))
    ensures var key := Leaf(CoerceKey(p, member.0, k).value);
            var end := pos + |OpsOfEntry(p, member, k, v, depth)| - 1;
            && pos < end < |ops| && ops[pos] == BeginMapEntry && ops[end] == EndMapEntry
            && Read(p, ops, pos + 1) == Some((key, pos + 2)) && HasType(key, Basic(k))
            && Read(p, ops, pos + 2) == Some((Value(p, member.1, v, depth), end))
            && HasType(Value(p, member.1, v, depth), v)
    decreases member, 4
  {
    hide CoerceBasic, AcceptsExplicit, Accepts, AcceptsVariant, Ops, Value, OpsAt, Print;
    var key, middle := Put(CoerceKey(p, member.0, k).value), Ops(p, ValueOf(member), v, depth);
    Bracketed(ops, pos, BeginMapEntry, [key] + middle, EndMapEntry);
    OpsAtConcat(ops, pos + 1, [key], middle);
    OpAt(ops, pos + 1, key);
    OpsRead(p, ValueOf(member), v, depth, ops, pos + 2);
    CoercedLeaf(KeyValue(p, member.0, k), k);
    ValueTyped(p, ValueOf(member), v, depth);
  }

  lemma OpsCases(p: Platform, value: Json, t: Type, depth: nat)
    requires Accepts(p, value, t, depth)
    ensures t == Array(Basic('s')) ==>
              && value.List? && (forall i | 0 <= i < |value.items| :: value.items[i].String?)
              && Ops(p, value, t, depth) == [BeginArray("s")] + OpsOfTexts(TextsOf(value.items)) + [EndArray]
    ensures t.Array? && t.element != Basic('y') && t.element != Basic('s') ==>
              && value.List? && (forall i | 0 <= i < |value.items| :: Accepts(p, value.items[i], t.element, depth + 1))
              && Ops(p, value, t, depth) ==
                 [BeginArray(Print(t.element))] + OpsOfItems(p, value.items, t.element, depth + 1) + [EndArray]
    ensures t.Dict? ==>
              && value.Object?
              && (forall i | 0 <= i < |value.members| ::
                   CoerceKey(p, value.members[i].0, t.key).Some? && Accepts(p, value.members[i].1, t.value, depth + 2))
              && Ops(p, value, t, depth) ==
                 [BeginMap([t.key], Print(t.value))] + OpsOfEntries(p, value.members, t.key, t.value, depth + 2) + [EndMap]
    ensures t.Struct? ==>
              && value.List? && |value.items| == |t.fields|
              && (forall i | 0 <= i < |t.fields| :: Accepts(p, value.items[i], t.fields[i], depth + 1))
              && Ops(p, value, t, depth) ==
                 [BeginStructure] + OpsOfFields(p, value.items, t.fields, depth + 1) + [EndStructure]
  {
    hide CoerceBasic, CoerceBytes, CoerceKey, AcceptsVariant, AcceptsExplicit, Print;
  }

  lemma {:induction false} ArrayRead(p: Platform, value: Json, t: Type, depth: nat, ops: seq<Op>, pos: nat)
    requires p.Native() && Accepts(p, value, t, depth) && Valid(t) && t.Array?
    requires OpsAt(ops, pos, Ops(p, value, t, depth))
    ensures Read(p, ops, pos) == Some((Value(p, value, t, depth), pos + |Ops(p, value, t, depth)|))
    decreases value, 3
  {
    hide CoerceBasic, CoerceBytes, CoerceKey, AcceptsVariant, AcceptsExplicit, IsSingle, TypeOf, OpsAt, Valid, Print;
    var e := t.element;
    ArrayParts(e);
    SingleComplete(e);
    if e == Basic('y') {
      OpAt(ops, pos, PutBytes(CoerceBytes(value).value));
    } else if e == Basic('s') {
      StringElement();
      OpsCases(p, value, t, depth);
      StringsCase(p, value, depth);
      Bracketed(ops, pos, BeginArray("s"), OpsOfTexts(TextsOf(value.items)), EndArray);
      TextsRead(p, TextsOf(value.items), ops, pos + 1);
    } else {
      ItemArrayRead(p, value, e, depth, ops, pos);
    }
  }

  lemma StringElement()
    ensures Print(Basic('s')) == "s" && IsBasic('s')
  {
  }

  lemma {:induction false} ItemArrayRead(p: Platform, value: Json, e: Type, depth: nat, ops: seq<Op>, pos: nat)
    requires p.Native() && Accepts(p, value, Array(e), depth) && Valid(e) && e != Basic('y') && e != Basic('s')
    requires IsSingle(Print(e)) && TypeOf(Print(e)) == e
    requires OpsAt(ops, pos, Ops(p, value, Array(e), depth))
    ensures Read(p, ops, pos) ==
            Some((Value(p, value, Array(e), depth), pos + |Ops(p, value, Array(e), depth)|))
    decreases value, 2
  {
    hide Accepts, Ops, Value, IsSingle, TypeOf, Valid, OpsAt, Print;
    OpsCases(p, value, Array(e), depth);
    ArrayCase(p, value, e, depth);
    Bracketed(ops, pos, BeginArray(Print(e)), OpsOfItems(p, value.items, e, depth + 1), EndArray);
    ItemsRead(p, value.items, e, depth + 1, ops, pos + 1);
  }

  lemma {:induction false} DictRead(p: Platform, value: Json, t: Type, depth: nat, ops: seq<Op>, pos: nat)
    requires p.Native() && Accepts(p, value, t, depth) && Valid(t) && t.Dict?
    requires OpsAt(ops, pos, Ops(p, value, t, depth))
    ensures Read(p, ops, pos) == Some((Value(p, value, t, depth), pos + |Ops(p, value, t, depth)|))
    decreases value, 3
  {
    hide Accepts, Ops, Value, IsSingle, TypeOf, Valid, OpsAt, Print;
    var k, v := t.key, t.value;
    DictParts(k, v);
    SingleComplete(v);
    OpsCases(p, value, t, depth);
    DictCase(p, value, k, v, depth);
    Bracketed(ops, pos, BeginMap([k], Print(v)), OpsOfEntries(p, value.members, k, v, depth + 2), EndMap);
    EntriesRead(p, value.members, k, v, depth + 2, ops, pos + 1);
  }

  lemma {:induction false} StructRead(p: Platform, value: Json, t: Type, depth: nat, ops: seq<Op>, pos: nat)
    requires p.Native() && Accepts(p, value, t, depth) && Valid(t) && t.Struct?
    requires OpsAt(ops, pos, Ops(p, value, t, depth))
    ensures Read(p, ops, pos) == Some((Value(p, value, t, depth), pos + |Ops(p, value, t, depth)|))
    decreases value, 3
  {
    hide Accepts, Ops, Value, IsSingle, TypeOf, OpsAt, Print;
    OpsCases(p, value, t, depth);
    StructCase(p, value, t.fields, depth);
    StructParts(t.fields);
    Bracketed(ops, pos, BeginStructure, OpsOfFields(p, value.items, t.fields, depth + 1), EndStructure);
    FieldsRead(p, value.items, t.fields, depth + 1, ops, pos + 1);
  }

  /** Reading what write() appends gives back the value, and stops right behind it. */
  lemma {:induction false} OpsRead(p: Platform, value: Json, t: Type, depth: nat, ops: seq<Op>, pos: nat)
    requires p.Native() && Accepts(p, value, t, depth) && Valid(t)
    requires OpsAt(ops, pos, Ops(p, value, t, depth))
    ensures Read(p, ops, pos) == Some((Value(p, value, t, depth), pos + |Ops(p, value, t, depth)|))
    decreases value, 4
  {
    hide CoerceBasic, CoerceBytes, CoerceKey, AcceptsExplicit, IsSingle, TypeOf, OpsAt, Valid;
    match t
    case Basic(c) => OpAt(ops, pos, Put(CoerceBasic(value, c).value));
    case Variant =>
      OpAt(ops, pos, PutVariant(Content(p, value, depth + 1)));
      ContentDenotes(p, value, depth + 1);
    case Array(_) => ArrayRead(p, value, t, depth, ops, pos);
    case Dict(_, _) => DictRead(p, value, t, depth, ops, pos);
    case Struct(_) => StructRead(p, value, t, depth, ops, pos);
  }

  /** No variant is left empty, and its content is the value the JSON stands for. */
  lemma {:induction false} ContentDenotes(p: Platform, value: Json, depth: nat)
    requires p.Native() && AcceptsVariant(p, value, depth)
    ensures Denote(p, Content(p, value, depth)) == Some(ContentValue(p, value, depth))
    decreases value, 1
  {
    hide CoerceBasic, CoerceBytes, CoerceKey, AcceptsExplicit, IsSingle, TypeOf, OpsAt, Valid;
    if IsExplicit(value) {
      ExplicitParts(p, value, depth);
      BuiltDenotes(p, ExplicitValue(p, value, depth), ExplicitType(p, value, depth), depth);
    } else if value.List? {
      ContentItemsDenote(p, value.items, depth + 2);
    } else if value.Object? {
      ContentMembersDenote(p, value.members, depth + 3);
    }
  }

  lemma {:induction false} ContentItemsDenote(p: Platform, items: seq<Json>, depth: nat)
    requires p.Native() && forall i | 0 <= i < |items| :: AcceptsVariant(p, items[i], depth)
    ensures DenoteItems(p, ContentOfItems(p, items, depth)) == Some(NaturalItems(p, items, depth))
    decreases items, 5
  {
    hide Accepts, AcceptsVariant, Content, ContentValue;
    if items != [] {
      ContentDenotes(p, items[0], depth);
      ContentItemsDenote(p, items[1..], depth);
      assert ContentOfItems(p, items, depth)[1..] == ContentOfItems(p, items[1..], depth);
    }
  }

  lemma {:induction false} ContentMembersDenote(p: Platform, members: seq<(string, Json)>, depth: nat)
    requires p.Native() && forall i | 0 <= i < |members| :: AcceptsVariant(p, members[i].1, depth)
    ensures DenoteEntries(p, ContentOfMembers(p, members, depth)) == Some(NaturalEntries(p, members, depth))
    decreases members, 5
  {
    hide Accepts, AcceptsVariant, Content, ContentValue;
    if members != [] {
      ContentDenotes(p, ValueOf(members[0]), depth);
      ContentMembersDenote(p, members[1..], depth);
      assert ContentOfMembers(p, members, depth)[1..] == ContentOfMembers(p, members[1..], depth);
    }
  }

  /** Pass 2 is total: what pass 1 accepts is built into something QtDBus sends as that value,
      whether through a native type ('ay', 'as', ...) or a stream. */
  lemma {:induction false} BuiltDenotes(p: Platform, value: Json, t: Type, depth: nat)
    requires p.Native() && Accepts(p, value, t, depth) && Valid(t)
    ensures Denote(p, BuiltVariant(p, value, t, depth)) == Some(Value(p, value, t, depth))
    decreases value, 5
  {
    hide CoerceBasic, CoerceBytes, CoerceKey, AcceptsVariant, AcceptsExplicit, IsSingle, TypeOf, Valid, Content, ContentValue;
    if t.Variant? {
      ContentDenotes(p, value, depth + 1);
    } else if !t.Basic? && t != Array(Basic('y')) && t != Array(Basic('s')) {
      var ops := Ops(p, value, t, depth);
      OpsRead(p, value, t, depth, ops, 0);
    }
  }
}
