/** coerce() and its second pass as the source runs them: a writer object that is appended to, and
    the mutual recursion of write(), build() and variantContent() on the text of the signature. */
module TypeCoercer {
  import opened Wrappers
  import opened Json
  import opened Signatures
  import opened Scanner
  import opened Wire
  import opened Coercer
  import opened Values
  import opened Marshalling
  import opened Builder

  /** A QDBusArgument being written. */
  class ArgumentWriter {
    var ops: seq<Op>

    constructor ()
      ensures ops == []
    {
      ops := [];
    }

    method Append(op: Op)
      modifies this
      ensures ops == old(ops) + [op]
    {
      ops := ops + [op];
    }
  }

  /** write(): appends exactly the stream of the value. */
  method Write(argument: ArgumentWriter, p: Platform, value: Json, sig: string, ghost t: Type, ghost depth: nat)
    requires Valid(t) && sig == Print(t) && Accepts(p, value, t, depth)
    modifies argument
    ensures argument.ops == old(argument.ops) + Ops(p, value, t, depth)
    decreases value, 4
  {
    hide CoerceBasic, CoerceBytes, CoerceKey, AcceptsVariant, AcceptsExplicit, Valid;
    TextShowsShape(t);
    var c := sig[0];
    if |sig| == 1 && IsBasic(c) {
      argument.Append(Put(CoerceBasic(value, c).value));
    } else if sig == "v" {
      var content := VariantContent(p, value, depth + 1);
      argument.Append(PutVariant(content));
    } else if sig == "ay" {
      var bytes := CoerceByteArray(value);
      argument.Append(PutBytes(bytes.value));
    } else if IsDict(sig) {
      WriteDict(argument, p, value, sig, t, depth);
    } else if c == 'a' {
      WriteArray(argument, p, value, sig, t, depth);
    } else {
      WriteStruct(argument, p, value, sig, t, depth);
    }
  }

  /** The dict branch of write(). */
  method WriteDict(argument: ArgumentWriter, p: Platform, value: Json, sig: string, ghost t: Type, ghost depth: nat)
    requires Valid(t) && sig == Print(t) && t.Dict? && Accepts(p, value, t, depth)
    modifies argument
    ensures argument.ops == old(argument.ops) + Ops(p, value, t, depth)
    decreases value, 3
  {
    hide Accepts, CoerceKey, Ops, Valid, Print;
    OpsCases(p, value, t, depth);
    DictParts(t.key, t.value);
    var key, valueSig := DictKey(sig), DictValue(sig);
    argument.Append(BeginMap([key], valueSig));
    WriteEntries(argument, p, value.members, key, valueSig, t.value, depth + 2);
    argument.Append(EndMap);
  }

  /** The dict loop of write(). */
  method WriteEntries(argument: ArgumentWriter, p: Platform, members: seq<(string, Json)>, key: char,
                      valueSig: string, ghost v: Type, ghost depth: nat)
    requires Valid(v) && valueSig == Print(v)
    requires forall i | 0 <= i < |members| ::
               CoerceKey(p, members[i].0, key).Some? && Accepts(p, members[i].1, v, depth)
    modifies argument
    ensures argument.ops == old(argument.ops) + OpsOfEntries(p, members, key, v, depth)
    decreases members, 6
  {
    hide Accepts, CoerceKey, OpsOfEntry, Valid, Print;
    ghost var start := argument.ops;
    assert members[0..] == members;
    for i := 0 to |members|
      invariant argument.ops + OpsOfEntries(p, members[i..], key, v, depth) ==
                start + OpsOfEntries(p, members, key, v, depth)
    {
      ghost var before := argument.ops;
      assert members[i..][0] == members[i] && members[i..][1..] == members[i + 1..];
      WriteEntry(argument, p, members[i], key, valueSig, v, depth);
      assert argument.ops == before + OpsOfEntry(p, members[i], key, v, depth);
    }
  }

  /** One round of the dict loop of write(). */
  method WriteEntry(argument: ArgumentWriter, p: Platform, member: (string, Json), key: char, valueSig: string,
                    ghost v: Type, ghost depth: nat)
    requires Valid(v) && valueSig == Print(v)
    requires CoerceKey(p, member.0, key).Some? && Accepts(p, member.1, v, depth)
    modifies argument
    ensures argument.ops == old(argument.ops) + OpsOfEntry(p, member, key, v, depth)
    decreases member, 5
  {
    hide Accepts, CoerceKey, Ops, Valid;
    argument.Append(BeginMapEntry);
    argument.Append(Put(CoerceKey(p, member.0, key).value));
    Write(argument, p, ValueOf(member), valueSig, v, depth);
    argument.Append(EndMapEntry);
  }

  /** The strings of an 'as' are written like any other items. */
  lemma TextsAsItems(p: Platform, items: seq<Json>)
    requires forall i | 0 <= i < |items| :: items[i].String?
    ensures forall i | 0 <= i < |items| :: Accepts(p, items[i], Basic('s'), 0)
    ensures OpsOfItems(p, items, Basic('s'), 0) == OpsOfTexts(TextsOf(items))
  {
    if items != [] {
      TextsAsItems(p, items[1..]);
      assert TextsOf(items)[1..] == TextsOf(items[1..]);
    }
  }

  /** The array branch of write(). */
  method WriteArray(argument: ArgumentWriter, p: Platform, value: Json, sig: string, ghost t: Type, ghost depth: nat)
    requires Valid(t) && sig == Print(t) && t.Array? && t.element != Basic('y') && Accepts(p, value, t, depth)
    modifies argument
    ensures argument.ops == old(argument.ops) + Ops(p, value, t, depth)
    decreases value, 3
  {
    hide Accepts, Ops, Valid, Print;
    ghost var e := t.element;
    ArrayParts(e);
    var element := sig[1..];
    ghost var inner: nat := if e == Basic('s') then 0 else depth + 1;
    OpsCases(p, value, t, depth);
    if e == Basic('s') {
      TextsAsItems(p, value.items);
      StringElement();
    }
    argument.Append(BeginArray(element));
    WriteItems(argument, p, value.items, element, e, inner);
    argument.Append(EndArray);
  }

  /** The item loop of write(). */
  method WriteItems(argument: ArgumentWriter, p: Platform, items: seq<Json>, element: string, ghost e: Type,
                    ghost depth: nat)
    requires Valid(e) && element == Print(e) && forall i | 0 <= i < |items| :: Accepts(p, items[i], e, depth)
    modifies argument
    ensures argument.ops == old(argument.ops) + OpsOfItems(p, items, e, depth)
    decreases items, 5
  {
    hide Accepts, Ops, Valid;
    ghost var start := argument.ops;
    assert items[0..] == items;
    for i := 0 to |items|
      invariant argument.ops + OpsOfItems(p, items[i..], e, depth) == start + OpsOfItems(p, items, e, depth)
    {
      ghost var before := argument.ops;
      assert items[i..][0] == items[i] && items[i..][1..] == items[i + 1..];
      Write(argument, p, items[i], element, e, depth);
      assert argument.ops == before + Ops(p, items[i], e, depth);
    }
  }

  /** The struct branch of write(). */
  method WriteStruct(argument: ArgumentWriter, p: Platform, value: Json, sig: string, ghost t: Type,
                     ghost depth: nat)
    requires Valid(t) && sig == Print(t) && t.Struct? && Accepts(p, value, t, depth)
    modifies argument
    ensures argument.ops == old(argument.ops) + Ops(p, value, t, depth)
    decreases value, 3
  {
    hide Accepts, Ops, Valid, Print;
    OpsCases(p, value, t, depth);
    var fields := StructFields(sig, t.fields);
    StructParts(t.fields);
    argument.Append(BeginStructure);
    WriteFields(argument, p, value.items, fields, t.fields, depth + 1);
    argument.Append(EndStructure);
  }

  /** The field loop of write(). */
  method WriteFields(argument: ArgumentWriter, p: Platform, items: seq<Json>, fields: seq<string>,
                     ghost fs: seq<Type>, ghost depth: nat)
    requires |items| == |fields| == |fs|
    requires forall i | 0 <= i < |fs| ::
               Valid(fs[i]) && fields[i] == Print(fs[i]) && Accepts(p, items[i], fs[i], depth)
    modifies argument
    ensures argument.ops == old(argument.ops) + OpsOfFields(p, items, fs, depth)
    decreases items, 5
  {
    hide Accepts, Ops, Valid;
    ghost var start := argument.ops;
    assert items[0..] == items && fs[0..] == fs;
    for i := 0 to |fields|
      invariant argument.ops + OpsOfFields(p, items[i..], fs[i..], depth) == start + OpsOfFields(p, items, fs, depth)
    {
      ghost var before := argument.ops;
      assert items[i..][0] == items[i] && items[i..][1..] == items[i + 1..];
      assert fs[i..][0] == fs[i] && fs[i..][1..] == fs[i + 1..];
      Write(argument, p, items[i], fields[i], fs[i], depth);
      assert argument.ops == before + Ops(p, items[i], fs[i], depth);
    }
  }

  /** build(): types with a class of their own in Qt need no writer. */
  method Build(p: Platform, value: Json, sig: string, ghost t: Type, ghost depth: nat) returns (q: QVariant)
    requires Valid(t) && sig == Print(t) && Accepts(p, value, t, depth)
    ensures q == BuiltVariant(p, value, t, depth)
    decreases value, 5
  {
    hide CoerceBasic, CoerceBytes, CoerceKey, AcceptsVariant, AcceptsExplicit, Valid, Ops;
    TextShowsShape(t);
    var c := sig[0];
    if |sig| == 1 && IsBasic(c) {
      return QBasic(CoerceBasic(value, c).value);
    }
    if sig == "v" {
      var content := VariantContent(p, value, depth + 1);
      return QBoxed(content);
    }
    if sig == "ay" {
      var bytes := CoerceByteArray(value);
      return QByteArray(bytes.value);
    }
    if sig == "as" {
      var strings: seq<string> := [];
      for i := 0 to |value.items|
        invariant strings == TextsOf(value.items)[..i]
      {
        strings := strings + [value.items[i].text];
      }
      return QStringList(strings);
    }
    var argument := new ArgumentWriter();
    Write(argument, p, value, sig, t, depth);
    return QArgument(argument.ops);
  }

  /** variantContent(), the natural branch with its loops. */
  method VariantContent(p: Platform, value: Json, ghost depth: nat) returns (q: QVariant)
    requires AcceptsVariant(p, value, depth)
    ensures q == Content(p, value, depth)
    decreases value, 1
  {
    hide CoerceBasic, CoerceBytes, CoerceKey, AcceptsExplicit, IsSingle, TypeOf, Valid, BuiltVariant, NaturalLeaf, Lookup;
    if IsExplicit(value) {
      ExplicitParts(p, value, depth);
      var inner := Lookup(value.members, "value");
      q := Build(p, inner.value, ExplicitText(value), ExplicitType(p, value, depth), depth);
    } else if value.List? {
      var list: seq<QVariant> := [];
      var items := value.items;
      assert items[0..] == items;
      for i := 0 to |items|
        invariant list + ContentOfItems(p, items[i..], depth + 2) == ContentOfItems(p, items, depth + 2)
      {
        assert items[i..][0] == items[i] && items[i..][1..] == items[i + 1..];
        var content := VariantContent(p, items[i], depth + 2);
        list := list + [content];
      }
      q := QVariantList(list);
    } else if value.Object? {
      var entries: seq<(string, QVariant)> := [];
      var members := value.members;
      assert members[0..] == members;
      for i := 0 to |members|
        invariant entries + ContentOfMembers(p, members[i..], depth + 3) == ContentOfMembers(p, members, depth + 3)
      {
        assert members[i..][0] == members[i] && members[i..][1..] == members[i + 1..];
        var content := VariantContent(p, ValueOf(members[i]), depth + 3);
        entries := entries + [(members[i].0, content)];
      }
      q := QVariantMap(entries);
    } else {
      q := QBasic(NaturalLeaf(value));
    }
  }

  /** coerce(): succeeds on exactly the accepted trees, and what it returns is sent as one value of
      the type asked for, the one the tree stands for, within the limits of a message. */
  method Coerce(p: Platform, value: Json, signature: string) returns (out: Option<QVariant>)
    ensures out.Some? <==> IsSingle(signature) && Accepts(p, value, TypeOf(signature), 0)
    ensures out.Some? && p.Native() ==>
              var w := Denote(p, out.value);
              && w == Some(Value(p, value, TypeOf(signature), 0))
              && HasType(w.value, TypeOf(signature)) && Within(w.value, 0, 0, 0)
  {
    hide Accepts, Value, BuiltVariant, Denote, WellTyped, Within, Valid;
    var single := IsSingleCompleteType(signature);
    if !single {
      return None;
    }
    ghost var t := TypeOf(signature);
    SingleSound(signature);
    var ok := CheckValue(p, value, signature, t, 0);
    if !ok {
      return None;
    }
    var q := Build(p, value, signature, t, 0);
    CoercedValue(p, value, t);
    return Some(q);
  }

  lemma CoercedValue(p: Platform, value: Json, t: Type)
    requires Valid(t) && Accepts(p, value, t, 0)
    ensures p.Native() ==> Denote(p, BuiltVariant(p, value, t, 0)) == Some(Value(p, value, t, 0))
    ensures HasType(Value(p, value, t, 0), t)
    ensures Within(Value(p, value, t, 0), 0, 0, 0)
  {
    hide Accepts, Value, BuiltVariant, Denote, WellTyped, Within;
    DepthBound(t);
    if p.Native() { BuiltDenotes(p, value, t, 0); }
    ValueTyped(p, value, t, 0);
    ValueWithin(p, value, t, 0, 0, 0);
  }
}
