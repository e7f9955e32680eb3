/** How many containers a message really opens. The limit is checked on what containers hold, so an
    empty list or object of the natural mapping may open one more; nothing else does. */
module Depths {
  import opened Wrappers
  import opened Json
  import opened Signatures
  import opened Wire
  import opened Coercer
  import opened Values
  import opened Marshalling
  import opened Natural

  // ------------------------------------------------------------ counting

  /** The number of containers open at the deepest point of `w`, empty ones included, when `open` are
      open around it. */
  function Opened(w: Wire, open: nat): (r: nat)
    ensures r >= open
    decreases w, 1
  {
    match w
    case Leaf(_) => open
    case Sequence(_, items) => OpenedAll(items, open + 1)
    case Mapping(_, _, entries) => OpenedEntries(entries, open + 1)
    case Tuple(fs) => OpenedAll(fs, open + 1)
    case Boxed(c) => Opened(c, open + 1)
    case Opaque(_) => open
  }

  function OpenedAll(ws: seq<Wire>, open: nat): (r: nat)
    ensures r >= open
    decreases ws
  {
    if ws == [] then open else Max(Opened(ws[0], open), OpenedAll(ws[1..], open))
  }

  function First(entry: (Wire, Wire)): (w: Wire)
    ensures w < entry
  {
    entry.0
  }

  function Other(entry: (Wire, Wire)): (w: Wire)
    ensures w < entry
  {
    entry.1
  }

  /** Each entry is a container inside the one of the dict. */
  function OpenedEntries(es: seq<(Wire, Wire)>, open: nat): (r: nat)
    ensures r >= open
    decreases es
  {
    if es == [] then open
    else
      Max(Max(Opened(First(es[0]), open + 1), Opened(Other(es[0]), open + 1)), OpenedEntries(es[1..], open))
  }

  lemma OpenedAllIs(ws: seq<Wire>, open: nat, limit: nat)
    ensures OpenedAll(ws, open) <= limit <==> open <= limit && forall i | 0 <= i < |ws| :: Opened(ws[i], open) <= limit
  {
    hide Opened;
    if ws != [] {
      OpenedAllIs(ws[1..], open, limit);
      assert forall i | 1 <= i < |ws| :: ws[i] == ws[1..][i - 1];
    }
  }

  lemma OpenedEntriesIs(es: seq<(Wire, Wire)>, open: nat, limit: nat)
    ensures OpenedEntries(es, open) <= limit <==>
            open <= limit && forall i | 0 <= i < |es| ::
              Opened(es[i].0, open + 1) <= limit && Opened(es[i].1, open + 1) <= limit
  {
    hide Opened;
    if es != [] {
      OpenedEntriesIs(es[1..], open, limit);
      assert forall i | 1 <= i < |es| :: es[i] == es[1..][i - 1];
    }
  }

  // ------------------------------------------------------------ the coercer

  predicate AnyOf(flags: seq<bool>) {
    exists i | 0 <= i < |flags| :: flags[i]
  }

  /** An empty list or object mapped naturally stands where the limit is just reached. */
  predicate EmptyAtLimit(p: Platform, value: Json, t: Type, depth: nat)
    requires Accepts(p, value, t, depth)
    decreases value, 2
  {
    match t
    case Basic(_) => false
    case Variant => EmptyContentAtLimit(p, value, depth + 1)
    case Array(Basic('y')) => false
    case Array(Basic('s')) => false
    case Array(e) => AnyOf(EmptyItems(p, value.items, e, depth + 1))
    case Dict(_, v) => AnyOf(EmptyEntries(p, value.members, v, depth + 2))
    case Struct(fs) => AnyOf(EmptyFields(p, value.items, fs, depth + 1))
  }

  function EmptyItems(p: Platform, items: seq<Json>, e: Type, depth: nat): (r: seq<bool>)
    requires forall i | 0 <= i < |items| :: Accepts(p, items[i], e, depth)
    ensures |r| == |items| && forall i | 0 <= i < |items| :: r[i] == EmptyAtLimit(p, items[i], e, depth)
    decreases items, 3
  {
    if items == [] then [] else [EmptyAtLimit(p, items[0], e, depth)] + EmptyItems(p, items[1..], e, depth)
  }

  function EmptyFields(p: Platform, items: seq<Json>, fs: seq<Type>, depth: nat): (r: seq<bool>)
    requires |items| == |fs| && forall i | 0 <= i < |fs| :: Accepts(p, items[i], fs[i], depth)
    ensures |r| == |items| && forall i | 0 <= i < |items| :: r[i] == EmptyAtLimit(p, items[i], fs[i], depth)
    decreases items, 3
  {
    if items == [] then []
    else [EmptyAtLimit(p, items[0], fs[0], depth)] + EmptyFields(p, items[1..], fs[1..], depth)
  }

  function EmptyEntries(p: Platform, members: seq<(string, Json)>, v: Type, depth: nat): (r: seq<bool>)
    requires forall i | 0 <= i < |members| :: Accepts(p, members[i].1, v, depth)
    ensures |r| == |members|
    ensures forall i | 0 <= i < |members| :: r[i] == EmptyAtLimit(p, ValueOf(members[i]), v, depth)
    decreases members, 3
  {
    if members == [] then []
    else [EmptyAtLimit(p, ValueOf(members[0]), v, depth)] + EmptyEntries(p, members[1..], v, depth)
  }

  predicate EmptyContentAtLimit(p: Platform, value: Json, depth: nat)
    requires AcceptsVariant(p, value, depth)
    decreases value, 1
  {
    if IsExplicit(value) then
      ExplicitParts(p, value, depth);
      EmptyAtLimit(p, ExplicitValue(p, value, depth), ExplicitType(p, value, depth), depth)
    else
      match value
      case List(items) =>
        (items == [] && depth == MAX_MESSAGE_DEPTH) || AnyOf(EmptyContents(p, items, depth + 2))
      case Object(members) =>
        (members == [] && depth == MAX_MESSAGE_DEPTH) || AnyOf(EmptyMembers(p, members, depth + 3))
      case _ => false
  }

  function EmptyContents(p: Platform, items: seq<Json>, depth: nat): (r: seq<bool>)
    requires forall i | 0 <= i < |items| :: AcceptsVariant(p, items[i], depth)
    ensures |r| == |items| && forall i | 0 <= i < |items| :: r[i] == EmptyContentAtLimit(p, items[i], depth)
    decreases items, 3
  {
    if items == [] then [] else [EmptyContentAtLimit(p, items[0], depth)] + EmptyContents(p, items[1..], depth)
  }

  function EmptyMembers(p: Platform, members: seq<(string, Json)>, depth: nat): (r: seq<bool>)
    requires forall i | 0 <= i < |members| :: AcceptsVariant(p, members[i].1, depth)
    ensures |r| == |members|
    ensures forall i | 0 <= i < |members| :: r[i] == EmptyContentAtLimit(p, ValueOf(members[i]), depth)
    decreases members, 3
  {
    if members == [] then []
    else [EmptyContentAtLimit(p, ValueOf(members[0]), depth)] + EmptyMembers(p, members[1..], depth)
  }

  /** At most one container more than the limit is opened, and exactly there. */
  ghost predicate OneMore(w: Wire, open: nat, empty: bool) {
    Opened(w, open) <= MAX_MESSAGE_DEPTH + 1 && (Opened(w, open) <= MAX_MESSAGE_DEPTH <==> !empty)
  }

  /** A container that is not itself at the limit opens one more when one of its parts does. */
  lemma PartsOpen(ws: seq<Wire>, open: nat, empty: seq<bool>)
    requires |ws| == |empty| && open <= MAX_MESSAGE_DEPTH && forall i | 0 <= i < |ws| :: OneMore(ws[i], open, empty[i])
    ensures OpenedAll(ws, open) <= MAX_MESSAGE_DEPTH + 1
    ensures OpenedAll(ws, open) <= MAX_MESSAGE_DEPTH <==> !AnyOf(empty)
  {
    hide Opened, OpenedAll;
    OpenedAllIs(ws, open, MAX_MESSAGE_DEPTH);
    OpenedAllIs(ws, open, MAX_MESSAGE_DEPTH + 1);
  }

  lemma EntriesOpen(es: seq<(Wire, Wire)>, open: nat, empty: seq<bool>)
    requires |es| == |empty| && open <= MAX_MESSAGE_DEPTH
    requires forall i | 0 <= i < |es| ::
               open + 1 <= MAX_MESSAGE_DEPTH && es[i].0.Leaf? && OneMore(es[i].1, open + 1, empty[i])
    ensures OpenedEntries(es, open) <= MAX_MESSAGE_DEPTH + 1
    ensures OpenedEntries(es, open) <= MAX_MESSAGE_DEPTH <==> !AnyOf(empty)
  {
    assert forall i | 0 <= i < |es| :: Opened(es[i].0, open + 1) == open + 1;
    hide Opened, OpenedEntries;
    OpenedEntriesIs(es, open, MAX_MESSAGE_DEPTH);
    OpenedEntriesIs(es, open, MAX_MESSAGE_DEPTH + 1);
  }

  lemma {:induction false} ValueOpens(p: Platform, value: Json, t: Type, depth: nat)
    requires Accepts(p, value, t, depth) && depth + Depth(t) <= MAX_MESSAGE_DEPTH
    ensures OneMore(Value(p, value, t, depth), depth, EmptyAtLimit(p, value, t, depth))
    decreases value, 4
  {
    hide CoerceBasic, CoerceBytes, CoerceKey, AcceptsExplicit, EmptyContentAtLimit, ContentValue;
    match t
    case Basic(c) =>
    case Variant => ContentOpens(p, value, depth + 1);
    case Array(_) => ArrayOpens(p, value, t, depth);
    case Dict(_, _) => DictOpens(p, value, t, depth);
    case Struct(_) => StructOpens(p, value, t, depth);
  }

  lemma FlatOpens(ws: seq<Wire>, open: nat)
    requires forall i | 0 <= i < |ws| :: ws[i].Leaf?
    ensures OpenedAll(ws, open) == open
  {
    OpenedAllIs(ws, open, open);
  }

  lemma {:induction false} ArrayOpens(p: Platform, value: Json, t: Type, depth: nat)
    requires Accepts(p, value, t, depth) && depth + Depth(t) <= MAX_MESSAGE_DEPTH && t.Array?
    ensures OneMore(Value(p, value, t, depth), depth, EmptyAtLimit(p, value, t, depth))
    decreases value, 3
  {
    hide CoerceBasic, CoerceBytes, CoerceKey, AcceptsVariant, AcceptsExplicit, ContentValue, EmptyContentAtLimit;
    if t.element == Basic('y') {
      FlatOpens(BytesValue(CoerceBytes(value).value).items, depth + 1);
    } else if t.element == Basic('s') {
      StringsCase(p, value, depth);
      FlatOpens(TextLeaves(TextsOf(value.items)), depth + 1);
    } else {
      ItemArrayOpens(p, value, t.element, depth);
    }
  }

  lemma {:induction false} ItemArrayOpens(p: Platform, value: Json, e: Type, depth: nat)
    requires Accepts(p, value, Array(e), depth) && depth + Depth(e) < MAX_MESSAGE_DEPTH
    requires e != Basic('y') && e != Basic('s')
    ensures OneMore(Value(p, value, Array(e), depth), depth, EmptyAtLimit(p, value, Array(e), depth))
    decreases value, 2
  {
    hide CoerceBasic, CoerceBytes, CoerceKey, AcceptsVariant, AcceptsExplicit, ContentValue, EmptyContentAtLimit;
    ArrayCase(p, value, e, depth);
    var items := ItemValues(p, value.items, e, depth + 1);
    var empty := EmptyItems(p, value.items, e, depth + 1);
    assert EmptyAtLimit(p, value, Array(e), depth) == AnyOf(empty);
    hide Accepts, OneMore, EmptyAtLimit, Value, AnyOf, ItemValues, OpenedAll, EmptyItems;
    forall i | 0 <= i < |items| ensures OneMore(items[i], depth + 1, empty[i]) {
      ValueOpens(p, value.items[i], e, depth + 1);
    }
    PartsOpen(items, depth + 1, empty);
    FromParts(Value(p, value, Array(e), depth), items, depth, empty);
  }

  lemma FromParts(w: Wire, parts: seq<Wire>, open: nat, empty: seq<bool>)
    requires (w.Sequence? && w.items == parts) || (w.Tuple? && w.fields == parts)
    requires OpenedAll(parts, open + 1) <= MAX_MESSAGE_DEPTH + 1
    requires OpenedAll(parts, open + 1) <= MAX_MESSAGE_DEPTH <==> !AnyOf(empty)
    ensures OneMore(w, open, AnyOf(empty))
  {
  }

  lemma FromEntries(w: Wire, open: nat, empty: seq<bool>)
    requires w.Mapping?
    requires OpenedEntries(w.entries, open + 1) <= MAX_MESSAGE_DEPTH + 1
    requires OpenedEntries(w.entries, open + 1) <= MAX_MESSAGE_DEPTH <==> !AnyOf(empty)
    ensures OneMore(w, open, AnyOf(empty))
  {
  }

  lemma {:induction false} DictOpens(p: Platform, value: Json, t: Type, depth: nat)
    requires Accepts(p, value, t, depth) && depth + Depth(t) <= MAX_MESSAGE_DEPTH && t.Dict?
    ensures OneMore(Value(p, value, t, depth), depth, EmptyAtLimit(p, value, t, depth))
    decreases value, 3
  {
    hide CoerceKey, Accepts, OneMore, EmptyAtLimit, Value, AnyOf, EntryValues, OpenedEntries, EmptyEntries;
    DictCase(p, value, t.key, t.value, depth);
    EmptyInDict(p, value, t.key, t.value, depth);
    var entries := EntryValues(p, value.members, t.key, t.value, depth + 2);
    var empty := EmptyEntries(p, value.members, t.value, depth + 2);
    forall i | 0 <= i < |entries| ensures OneMore(entries[i].1, depth + 2, empty[i]) {
      ValueOpens(p, ValueOf(value.members[i]), t.value, depth + 2);
    }
    EntriesOpen(entries, depth + 1, empty);
    FromEntries(Value(p, value, t, depth), depth, empty);
  }

  lemma EmptyInDict(p: Platform, value: Json, k: char, v: Type, depth: nat)
    requires Accepts(p, value, Dict(k, v), depth) && value.Object?
    requires forall i | 0 <= i < |value.members| :: Accepts(p, value.members[i].1, v, depth + 2)
    ensures EmptyAtLimit(p, value, Dict(k, v), depth) == AnyOf(EmptyEntries(p, value.members, v, depth + 2))
  {
    hide Accepts, EmptyEntries, AnyOf;
  }

  lemma {:induction false} StructOpens(p: Platform, value: Json, t: Type, depth: nat)
    requires Accepts(p, value, t, depth) && depth + Depth(t) <= MAX_MESSAGE_DEPTH && t.Struct?
    ensures OneMore(Value(p, value, t, depth), depth, EmptyAtLimit(p, value, t, depth))
    decreases value, 3
  {
    hide Accepts, OneMore, EmptyAtLimit, Value, AnyOf, FieldValues, OpenedAll, EmptyFields;
    StructCase(p, value, t.fields, depth);
    EmptyInStruct(p, value, t.fields, depth);
    var fields := FieldValues(p, value.items, t.fields, depth + 1);
    var empty := EmptyFields(p, value.items, t.fields, depth + 1);
    forall i | 0 <= i < |fields| ensures OneMore(fields[i], depth + 1, empty[i]) {
      DepthOfField(t.fields, i);
      ValueOpens(p, value.items[i], t.fields[i], depth + 1);
    }
    PartsOpen(fields, depth + 1, empty);
    FromParts(Value(p, value, t, depth), fields, depth, empty);
  }

  lemma EmptyInStruct(p: Platform, value: Json, fs: seq<Type>, depth: nat)
    requires Accepts(p, value, Struct(fs), depth) && value.List? && |value.items| == |fs|
    requires forall i | 0 <= i < |fs| :: Accepts(p, value.items[i], fs[i], depth + 1)
    ensures EmptyAtLimit(p, value, Struct(fs), depth) == AnyOf(EmptyFields(p, value.items, fs, depth + 1))
  {
    hide Accepts, EmptyFields, AnyOf;
  }

  lemma DepthOfField(fs: seq<Type>, i: nat)
    requires i < |fs|
    ensures Depth(fs[i]) <= DepthAll(fs)
  {
    if i > 0 { DepthOfField(fs[1..], i - 1); }
  }

  lemma {:induction false} ContentOpens(p: Platform, value: Json, depth: nat)
    requires AcceptsVariant(p, value, depth)
    ensures OneMore(ContentValue(p, value, depth), depth, EmptyContentAtLimit(p, value, depth))
    decreases value, 1
  {
    if IsExplicit(value) {
      hide Accepts, AcceptsExplicit, EmptyAtLimit, Value, OneMore;
      ExplicitParts(p, value, depth);
      ValueOpens(p, ExplicitValue(p, value, depth), ExplicitType(p, value, depth), depth);
    } else if value.List? && value.items != [] {
      hide AcceptsVariant, EmptyContentAtLimit, ContentValue, OneMore;
      ListOpens(p, value, depth);
    } else if value.Object? && value.members != [] {
      hide AcceptsVariant, EmptyContentAtLimit, ContentValue, OneMore;
      ObjectOpens(p, value, depth);
    } else {
      EmptyOpens(p, value, depth);
    }
  }

  /** What holds nothing opens itself only. */
  lemma EmptyOpens(p: Platform, value: Json, depth: nat)
    requires AcceptsVariant(p, value, depth) && !IsExplicit(value)
    requires (value.List? ==> value.items == []) && (value.Object? ==> value.members == [])
    ensures OneMore(ContentValue(p, value, depth), depth, EmptyContentAtLimit(p, value, depth))
  {
    hide Accepts, AcceptsExplicit, EmptyAtLimit, IsExplicit;
    assert !AnyOf([]);
  }

  lemma {:induction false} ListOpens(p: Platform, value: Json, depth: nat)
    requires AcceptsVariant(p, value, depth) && !IsExplicit(value) && value.List? && value.items != []
    ensures OneMore(ContentValue(p, value, depth), depth, EmptyContentAtLimit(p, value, depth))
    decreases value, 0
  {
    hide AcceptsVariant, IsExplicit, AnyOf, OpenedAll, Opened, OneMore, EmptyContentAtLimit, EmptyContents, NaturalItems,
         ContentValue;
    ListParts(p, value, depth);
    var items, empty := NaturalItems(p, value.items, depth + 2), EmptyContents(p, value.items, depth + 2);
    forall i | 0 <= i < |items| ensures OneMore(items[i], depth + 1, empty[i]) {
      ContentOpens(p, value.items[i], depth + 2);
      InVariant(ContentValue(p, value.items[i], depth + 2), depth + 1, empty[i]);
    }
    PartsOpen(items, depth + 1, empty);
    FromParts(ContentValue(p, value, depth), items, depth, empty);
  }

  lemma ListParts(p: Platform, value: Json, depth: nat)
    requires AcceptsVariant(p, value, depth) && !IsExplicit(value) && value.List? && value.items != []
    ensures depth + 2 <= MAX_MESSAGE_DEPTH
    ensures forall i | 0 <= i < |value.items| :: AcceptsVariant(p, value.items[i], depth + 2)
    ensures ContentValue(p, value, depth) == Sequence(Variant, NaturalItems(p, value.items, depth + 2))
    ensures EmptyContentAtLimit(p, value, depth) == AnyOf(EmptyContents(p, value.items, depth + 2))
  {
    hide Accepts, AcceptsExplicit, IsExplicit, EmptyAtLimit, Value, AnyOf, NaturalItems, EmptyContents;
    assert AcceptsVariant(p, value.items[0], depth + 2);
  }

  lemma {:induction false} ObjectOpens(p: Platform, value: Json, depth: nat)
    requires AcceptsVariant(p, value, depth) && !IsExplicit(value) && value.Object? && value.members != []
    ensures OneMore(ContentValue(p, value, depth), depth, EmptyContentAtLimit(p, value, depth))
    decreases value, 0
  {
    hide AcceptsVariant, IsExplicit, AnyOf, OpenedEntries, Opened, OneMore, EmptyContentAtLimit, EmptyMembers,
         NaturalEntries, ContentValue;
    ObjectParts(p, value, depth);
    var entries, empty := NaturalEntries(p, value.members, depth + 3), EmptyMembers(p, value.members, depth + 3);
    forall i | 0 <= i < |entries| ensures OneMore(entries[i].1, depth + 2, empty[i]) {
      ContentOpens(p, ValueOf(value.members[i]), depth + 3);
      InVariant(ContentValue(p, ValueOf(value.members[i]), depth + 3), depth + 2, empty[i]);
    }
    EntriesOpen(entries, depth + 1, empty);
    FromEntries(ContentValue(p, value, depth), depth, empty);
  }

  lemma ObjectParts(p: Platform, value: Json, depth: nat)
    requires AcceptsVariant(p, value, depth) && !IsExplicit(value) && value.Object? && value.members != []
    ensures depth + 3 <= MAX_MESSAGE_DEPTH
    ensures forall i | 0 <= i < |value.members| :: AcceptsVariant(p, value.members[i].1, depth + 3)
    ensures ContentValue(p, value, depth) == Mapping('s', Variant, NaturalEntries(p, value.members, depth + 3))
    ensures EmptyContentAtLimit(p, value, depth) == AnyOf(EmptyMembers(p, value.members, depth + 3))
  {
    hide Accepts, AcceptsExplicit, IsExplicit, EmptyAtLimit, Value, AnyOf, NaturalEntries, EmptyMembers;
    assert AcceptsVariant(p, value.members[0].1, depth + 3);
  }

  lemma InVariant(content: Wire, open: nat, empty: bool)
    requires OneMore(content, open + 1, empty)
    ensures OneMore(Boxed(content), open, empty)
  {
  }

  /** A coerced argument opens at most 65 containers, and at most 64 if and only if no empty list or
      object of the natural mapping stands at depth 64. */
  lemma CoercedOpens(p: Platform, value: Json, signature: string)
    requires IsSingle(signature) && Accepts(p, value, TypeOf(signature), 0)
    ensures var w := Value(p, value, TypeOf(signature), 0);
            && Opened(w, 0) <= 65
            && (Opened(w, 0) <= 64 <==> !EmptyAtLimit(p, value, TypeOf(signature), 0))
  {
    hide Accepts, Value, EmptyAtLimit, Opened;
    SingleSound(signature);
    DepthBound(TypeOf(signature));
    ValueOpens(p, value, TypeOf(signature), 0);
  }

  // ------------------------------------------------------------ the loose mapping

  predicate EmptyNaturalAtLimit(value: Json, depth: nat)
    decreases value
  {
    match value
    case List(items) =>
      (items == [] && depth == MAX_MESSAGE_DEPTH) || AnyOf(EmptyNaturals(items, depth + 2))
    case Object(members) =>
      (members == [] && depth == MAX_MESSAGE_DEPTH) || AnyOf(EmptyNaturalMembers(members, depth + 3))
    case _ => false
  }

  function EmptyNaturals(items: seq<Json>, depth: nat): (r: seq<bool>)
    ensures |r| == |items| && forall i | 0 <= i < |items| :: r[i] == EmptyNaturalAtLimit(items[i], depth)
    decreases items
  {
    if items == [] then [] else [EmptyNaturalAtLimit(items[0], depth)] + EmptyNaturals(items[1..], depth)
  }

  function EmptyNaturalMembers(members: seq<(string, Json)>, depth: nat): (r: seq<bool>)
    ensures |r| == |members|
    ensures forall i | 0 <= i < |members| :: r[i] == EmptyNaturalAtLimit(ValueOf(members[i]), depth)
    decreases members
  {
    if members == [] then []
    else [EmptyNaturalAtLimit(ValueOf(members[0]), depth)] + EmptyNaturalMembers(members[1..], depth)
  }

  lemma {:induction false} ItemsDenoted(p: Platform, items: seq<Json>)
    requires DenoteItems(p, NaturalVariants(items)).Some?
    ensures var ws := DenoteItems(p, NaturalVariants(items)).value;
            && |ws| == |items|
            && forall i | 0 <= i < |items| :: ws[i].Boxed? && Denote(p, NaturalVariant(items[i])) == Some(ws[i].content)
    decreases items
  {
    hide Denote, NaturalVariant;
    if items != [] {
      assert NaturalVariants(items)[1..] == NaturalVariants(items[1..]);
      ItemsDenoted(p, items[1..]);
      assert forall i | 1 <= i < |items| :: items[i] == items[1..][i - 1];
    }
  }

  lemma {:induction false} MembersDenoted(p: Platform, members: seq<(string, Json)>)
    requires DenoteEntries(p, NaturalVariantEntries(members)).Some?
    ensures var es := DenoteEntries(p, NaturalVariantEntries(members)).value;
            && |es| == |members|
            && forall i | 0 <= i < |members| ::
                 && es[i].0.Leaf? && es[i].1.Boxed?
                 && Denote(p, NaturalVariant(members[i].1)) == Some(es[i].1.content)
    decreases members
  {
    hide Denote, NaturalVariant;
    if members != [] {
      assert NaturalVariantEntries(members)[1..] == NaturalVariantEntries(members[1..]);
      MembersDenoted(p, members[1..]);
      assert forall i | 1 <= i < |members| :: members[i] == members[1..][i - 1];
    }
  }

  /** The same for an argument mapped loosely. */
  lemma {:induction false} LooseOpens(p: Platform, value: Json, depth: nat)
    requires Denote(p, NaturalVariant(value)).Some? && FullDepth(value, depth) <= MAX_MESSAGE_DEPTH
    ensures OneMore(Denote(p, NaturalVariant(value)).value, depth, EmptyNaturalAtLimit(value, depth))
    decreases value, 1
  {
    hide OneMore, EmptyNaturalAtLimit, FullDepth;
    if value.List? && value.items != [] {
      LooseListOpens(p, value.items, depth);
    } else if value.Object? && value.members != [] {
      LooseObjectOpens(p, value.members, depth);
    } else {
      LooseEmptyOpens(p, value, depth);
    }
  }

  lemma LooseEmptyOpens(p: Platform, value: Json, depth: nat)
    requires Denote(p, NaturalVariant(value)).Some? && FullDepth(value, depth) <= MAX_MESSAGE_DEPTH
    requires (value.List? ==> value.items == []) && (value.Object? ==> value.members == [])
    ensures OneMore(Denote(p, NaturalVariant(value)).value, depth, EmptyNaturalAtLimit(value, depth))
  {
    hide Read, DeepestItem, DeepestMember, NaturalLeaf;
    match value
    case List(items) =>
      assert NaturalVariants([]) == [] && DenoteItems(p, []) == Some([]) && EmptyNaturals([], depth + 2) == [];
      assert Denote(p, NaturalVariant(value)) == Some(Sequence(Variant, []));
    case Object(members) =>
      assert NaturalVariantEntries([]) == [] && DenoteEntries(p, []) == Some([]);
      assert EmptyNaturalMembers([], depth + 3) == [];
      assert Denote(p, NaturalVariant(value)) == Some(Mapping('s', Variant, []));
    case _ =>
  }

  lemma {:induction false} LooseListOpens(p: Platform, items: seq<Json>, depth: nat)
    requires items != [] && DenoteItems(p, NaturalVariants(items)).Some?
    requires FullDepth(List(items), depth) <= MAX_MESSAGE_DEPTH
    ensures var ws := DenoteItems(p, NaturalVariants(items)).value;
            OneMore(Sequence(Variant, ws), depth, EmptyNaturalAtLimit(List(items), depth))
    decreases items, 0
  {
    hide Read, Denote, DenoteItems, NaturalVariants, NaturalVariant, AnyOf, OpenedAll, Opened, FullDepth, OneMore;
    ItemsDenoted(p, items);
    ItemsFit(items, depth);
    var ws := DenoteItems(p, NaturalVariants(items)).value;
    var empty := EmptyNaturals(items, depth + 2);
    hide EmptyNaturalAtLimit, EmptyNaturals;
    forall i | 0 <= i < |ws| ensures OneMore(ws[i], depth + 1, empty[i]) {
      LooseOpens(p, items[i], depth + 2);
      InVariant(ws[i].content, depth + 1, empty[i]);
    }
    PartsOpen(ws, depth + 1, empty);
    FromParts(Sequence(Variant, ws), ws, depth, empty);
  }

  lemma ItemsFit(items: seq<Json>, depth: nat)
    requires items != [] && FullDepth(List(items), depth) <= MAX_MESSAGE_DEPTH
    ensures forall i | 0 <= i < |items| :: FullDepth(items[i], depth + 2) <= MAX_MESSAGE_DEPTH
    ensures depth + 2 <= MAX_MESSAGE_DEPTH
    ensures EmptyNaturalAtLimit(List(items), depth) == AnyOf(EmptyNaturals(items, depth + 2))
  {
    DeepestItemIs(items, depth, depth + 2, MAX_MESSAGE_DEPTH);
    hide AnyOf, EmptyNaturals;
    assert FullDepth(items[0], depth + 2) <= MAX_MESSAGE_DEPTH;
  }

  lemma {:induction false} LooseObjectOpens(p: Platform, members: seq<(string, Json)>, depth: nat)
    requires members != [] && DenoteEntries(p, NaturalVariantEntries(members)).Some?
    requires FullDepth(Object(members), depth) <= MAX_MESSAGE_DEPTH
    ensures var es := DenoteEntries(p, NaturalVariantEntries(members)).value;
            OneMore(Mapping('s', Variant, es), depth, EmptyNaturalAtLimit(Object(members), depth))
    decreases members, 0
  {
    hide Read, Denote, DenoteEntries, NaturalVariantEntries, NaturalVariant, AnyOf, OpenedEntries, Opened, FullDepth,
         OneMore;
    MembersDenoted(p, members);
    MembersFit(members, depth);
    var es := DenoteEntries(p, NaturalVariantEntries(members)).value;
    var empty := EmptyNaturalMembers(members, depth + 3);
    hide EmptyNaturalAtLimit, EmptyNaturalMembers;
    forall i | 0 <= i < |es| ensures OneMore(es[i].1, depth + 2, empty[i]) {
      LooseOpens(p, ValueOf(members[i]), depth + 3);
      InVariant(es[i].1.content, depth + 2, empty[i]);
    }
    EntriesOpen(es, depth + 1, empty);
    FromEntries(Mapping('s', Variant, es), depth, empty);
  }

  lemma MembersFit(members: seq<(string, Json)>, depth: nat)
    requires members != [] && FullDepth(Object(members), depth) <= MAX_MESSAGE_DEPTH
    ensures forall i | 0 <= i < |members| :: FullDepth(ValueOf(members[i]), depth + 3) <= MAX_MESSAGE_DEPTH
    ensures depth + 3 <= MAX_MESSAGE_DEPTH
    ensures EmptyNaturalAtLimit(Object(members), depth) == AnyOf(EmptyNaturalMembers(members, depth + 3))
  {
    DeepestMemberIs(members, depth, depth + 3, MAX_MESSAGE_DEPTH);
    hide AnyOf, EmptyNaturalMembers;
    assert FullDepth(members[0].1, depth + 3) <= MAX_MESSAGE_DEPTH;
  }

  /** No loose argument is refused in vain: its message would open that many containers. */
  lemma {:induction false} DepthIsReached(p: Platform, value: Json, depth: nat)
    requires Denote(p, NaturalVariant(value)).Some?
    ensures FullDepth(value, depth) <= Opened(Denote(p, NaturalVariant(value)).value, depth)
    decreases value, 1
  {
    hide Read, NaturalLeaf, DeepestItem, DeepestMember, OpenedAll, OpenedEntries, NaturalVariants, NaturalVariantEntries;
    match value
    case List(items) => ListDepthIsReached(p, items, depth);
    case Object(members) => ObjectDepthIsReached(p, members, depth);
    case _ =>
  }

  lemma {:induction false} ListDepthIsReached(p: Platform, items: seq<Json>, depth: nat)
    requires DenoteItems(p, NaturalVariants(items)).Some?
    ensures DeepestItem(items, depth, depth + 2) <= OpenedAll(DenoteItems(p, NaturalVariants(items)).value, depth + 1)
    decreases items, 0
  {
    hide FullDepth, DenoteItems, NaturalVariants, NaturalVariant, DeepestItem, OpenedAll;
    var ws := DenoteItems(p, NaturalVariants(items)).value;
    ItemsDenoted(p, items);
    hide Denote;
    var limit := OpenedAll(ws, depth + 1);
    OpenedAllIs(ws, depth + 1, limit);
    DeepestItemIs(items, depth, depth + 2, limit);
    forall i | 0 <= i < |items| ensures FullDepth(items[i], depth + 2) <= limit {
      DepthIsReached(p, items[i], depth + 2);
      assert Opened(ws[i], depth + 1) == Opened(ws[i].content, depth + 2);
    }
  }

  lemma {:induction false} ObjectDepthIsReached(p: Platform, members: seq<(string, Json)>, depth: nat)
    requires DenoteEntries(p, NaturalVariantEntries(members)).Some?
    ensures DeepestMember(members, depth, depth + 3) <=
            OpenedEntries(DenoteEntries(p, NaturalVariantEntries(members)).value, depth + 1)
    decreases members, 0
  {
    hide FullDepth, DenoteEntries, NaturalVariantEntries, NaturalVariant, DeepestMember, OpenedEntries;
    var es := DenoteEntries(p, NaturalVariantEntries(members)).value;
    MembersDenoted(p, members);
    hide Denote;
    var limit := OpenedEntries(es, depth + 1);
    OpenedEntriesIs(es, depth + 1, limit);
    DeepestMemberIs(members, depth, depth + 3, limit);
    forall i | 0 <= i < |members| ensures FullDepth(members[i].1, depth + 3) <= limit {
      DepthIsReached(p, ValueOf(members[i]), depth + 3);
      assert Opened(es[i].1, depth + 2) == Opened(es[i].1.content, depth + 3);
    }
  }

  // ------------------------------------------------------------ the limit is passed

  /** Lists in lists, the innermost one empty. */
  function Nested(n: nat): Json {
    if n == 0 then List([]) else List([Nested(n - 1)])
  }

  /** An empty list at the limit is accepted in a variant, and opens the container beyond it. */
  lemma EmptyListPasses(p: Platform)
    ensures AcceptsVariant(p, List([]), 64)
    ensures ContentValue(p, List([]), 64) == Sequence(Variant, [])
    ensures Opened(ContentValue(p, List([]), 64), 64) == 65
  {
  }

  lemma {:induction false} NestedDepth(n: nat, depth: nat)
    ensures FullDepth(Nested(n), depth) == depth + 2 * n && NoNull(Nested(n)) && NothingExplicit(Nested(n))
    ensures EmptyNaturalAtLimit(Nested(n), depth) <==> depth + 2 * n == 64
    decreases n
  {
    if n > 0 {
      NestedDepth(n - 1, depth + 2);
      var items := [Nested(n - 1)];
      assert Nested(n) == List(items) && items[0] == Nested(n - 1) && items[1..] == [];
      assert DeepestItem(items[1..], depth, depth + 2) == depth;
      assert !IsExplicit(Nested(n));
    }
  }

  lemma {:induction false} NestedContent(p: Platform, n: nat, depth: nat)
    requires depth + 2 * n == 64
    ensures AcceptsVariant(p, Nested(n), depth) && EmptyContentAtLimit(p, Nested(n), depth)
    decreases n
  {
    if n > 0 {
      NestedContent(p, n - 1, depth + 2);
      var items := [Nested(n - 1)];
      assert Nested(n) == List(items) && items[0] == Nested(n - 1);
      assert !IsExplicit(Nested(n));
    }
  }

  /** Whole arguments that do so: 32 nested lists mapped loosely; and for the signature "v" an object
      around 30 of them. */
  lemma LimitIsPassed(p: Platform)
    ensures FullDepth(Nested(32), 0) <= MAX_MESSAGE_DEPTH && Denote(p, NaturalVariant(Nested(32))).Some?
    ensures Opened(Denote(p, NaturalVariant(Nested(32))).value, 0) == 65
    ensures var value := Object([("a", Nested(30))]);
            && IsSingle("v") && Accepts(p, value, TypeOf("v"), 0)
            && Opened(Value(p, value, TypeOf("v"), 0), 0) == 65
  {
    hide Accepts, Value, Opened, EmptyAtLimit, EmptyContentAtLimit, EmptyNaturalAtLimit, Nested, IsSingle, TypeOf,
         AcceptsVariant, Denote, NaturalVariant, FullDepth, NoNull, NothingExplicit, WellTyped, Within;
    NestedDepth(32, 0);
    NaturalSendable(p, Nested(32), 0);
    LooseOpens(p, Nested(32), 0);
    SingleComplete(Variant);
    NestedContent(p, 30, 4);
    InObject(p, Nested(30));
    CoercedOpens(p, Object([("a", Nested(30))]), "v");
  }

  lemma InObject(p: Platform, inner: Json)
    requires AcceptsVariant(p, inner, 4)
    ensures Accepts(p, Object([("a", inner)]), Variant, 0)
    ensures EmptyContentAtLimit(p, inner, 4) ==> EmptyAtLimit(p, Object([("a", inner)]), Variant, 0)
  {
    var members := [("a", inner)];
    assert members[1..] == [] && |"a"| == 1 && |"@dbus"| == 5;
    assert !IsExplicit(Object(members));
    assert members[0].1 == inner;
    assert AcceptsVariant(p, Object(members), 1);
  }
}
