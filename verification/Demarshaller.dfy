/** Replies to JSON (dbusbridge.cpp:234-445): the demarshaller with its cursor.

`Decoded` and `Readable` are the recursive specification. The reader is a cursor over the tree of a
reply; an element of unknown wire type does not move it, and the container that holds it stops. */
module Demarshaller {
  import opened Wrappers
  import opened Json
  import opened Integers
  import opened Texts
  import opened Signatures
  import opened Wire

  const EXACT_LIMIT := 0x20_0000_0000_0000
  const FD_MARKER := "<unix fd: not transferable over MCP>"
  const UNREPRESENTABLE := "<unrepresentable:>"
  const UNSUPPORTED_KEY := "<unsupported key>"

  function Unsupported(signature: string): Json {
    String("<unsupported D-Bus type '" + signature + "'>")
  }

  // ------------------------------------------------------------ what a reply means

  /** Large integers of the 64-bit types lose no digit, being given as texts. */
  function LeafToJson(l: Leaf): Json {
    match l
    case Int(c, i) =>
      if (c == 'x' || c == 't') && !(-EXACT_LIMIT <= i <= EXACT_LIMIT) then String(Decimal(i)) else Number(i as real)
    case Flag(b) => Bool(b)
    case Real(r) => Number(r)
    case Text(s) => String(s)
    case Path(s) => String(s)
    case Sig(s) => String(s)
    case Fd => String(FD_MARKER)
  }

  function KeyText(p: Platform, l: Leaf): string {
    match l
    case Int(_, i) => Decimal(i)
    case Flag(b) => if b then "true" else "false"
    case Real(r) => p.doubles.show(r)
    case Text(s) => s
    case Path(s) => s
    case Sig(s) => s
    case Fd => ""
  }

  /** The elements the reader says are basic; 'ay' and 'as' are among them. */
  predicate IsBasicElement(w: Wire) {
    w.Leaf? || (w.Sequence? && (w.element == Basic('y') || w.element == Basic('s')))
  }

  /** The text of a dict key; D-Bus has no array keys, so theirs is left empty. */
  function KeyTextOf(p: Platform, w: Wire): string {
    if w.Leaf? then KeyText(p, w.leaf) else ""
  }

  /** The bytes of an 'ay', whose items are byte leaves. */
  function BytesIn(items: seq<Wire>): seq<byte> {
    if items == [] then []
    else
      [if items[0].Leaf? && items[0].leaf.Int? && 0 <= items[0].leaf.value < 256 then items[0].leaf.value as byte else 0]
      + BytesIn(items[1..])
  }

  /** The strings of an 'as', whose items are string leaves. */
  function TextsIn(items: seq<Wire>): seq<Json> {
    if items == [] then []
    else
      [String(if items[0].Leaf? && items[0].leaf.Text? then items[0].leaf.text else "")] + TextsIn(items[1..])
  }

  /** Only an element of unknown type is not consumed. */
  predicate Readable(w: Wire) {
    !w.Opaque?
  }

  function Decoded(p: Platform, w: Wire): Json
    decreases w, 1
  {
    match w
    case Leaf(l) => LeafToJson(l)
    case Sequence(Basic('y'), items) => String(Encode(BytesIn(items)))
    case Sequence(Basic('s'), items) => List(TextsIn(items))
    case Sequence(_, items) => List(DecodedItems(p, items))
    case Mapping(_, _, entries) => Object(DecodedEntries(p, [], entries))
    case Tuple(fs) => List(DecodedItems(p, fs))
    case Boxed(c) => DecodedContent(p, c)
    case Opaque(s) => Unsupported(s)
  }

  function DecodedContent(p: Platform, c: Wire): Json
    decreases c, 2
  {
    if c.Opaque? then String(UNREPRESENTABLE) else Decoded(p, c)
  }

  /** A container stops behind its first unreadable element, for which it holds a marker. */
  function DecodedItems(p: Platform, items: seq<Wire>): seq<Json>
    decreases items
  {
    if items == [] then []
    else if !Readable(items[0]) then [Decoded(p, items[0])]
    else [Decoded(p, items[0])] + DecodedItems(p, items[1..])
  }

  function ItemOf(entry: (Wire, Wire)): (w: Wire)
    ensures w < entry
  {
    entry.1
  }

  function DecodedEntries(p: Platform, members: seq<(string, Json)>, entries: seq<(Wire, Wire)>)
    : seq<(string, Json)>
    decreases entries
  {
    if entries == [] then members
    else if !IsBasicElement(entries[0].0) then Insert(members, UNSUPPORTED_KEY, Null)
    else
      var value := Decoded(p, ItemOf(entries[0]));
      var inserted := Insert(members, KeyTextOf(p, entries[0].0), value);
      if Readable(entries[0].1) then DecodedEntries(p, inserted, entries[1..]) else inserted
  }

  // ------------------------------------------------------------ the cursor

  datatype ElementType = BasicType | VariantType | ArrayType | StructureType | MapType | UnknownType

  /** What is left of an open container. */
  datatype Frame = Elements(items: seq<Wire>) | Entries(entries: seq<(Wire, Wire)>)

  function Weight(w: Wire): (n: nat)
    ensures n > 0
  {
    match w
    case Sequence(_, items) => 1 + WeightAll(items)
    case Tuple(fs) => 1 + WeightAll(fs)
    case Mapping(_, _, entries) => 1 + WeightEntries(entries)
    case Boxed(c) => 1 + Weight(c)
    case _ => 1
  }

  function WeightAll(ws: seq<Wire>): nat {
    if ws == [] then 0 else Weight(ws[0]) + WeightAll(ws[1..])
  }

  function KeyOf(entry: (Wire, Wire)): (w: Wire)
    ensures w < entry
  {
    entry.0
  }

  function WeightEntries(es: seq<(Wire, Wire)>): nat {
    if es == [] then 0 else Weight(KeyOf(es[0])) + Weight(ItemOf(es[0])) + WeightEntries(es[1..])
  }

  /** A QDBusArgument being read: the open containers, innermost last. */
  class Reader {
    var frames: seq<Frame>

    constructor (w: Wire)
      ensures frames == [Elements([w])]
    {
      frames := [Elements([w])];
    }

    ghost predicate InElements()
      reads this
    {
      frames != [] && frames[|frames| - 1].Elements?
    }

    ghost predicate InEntries()
      reads this
    {
      frames != [] && frames[|frames| - 1].Entries?
    }

    function Rest(): seq<Wire>
      requires InElements()
      reads this
    {
      frames[|frames| - 1].items
    }

    function RestEntries(): seq<(Wire, Wire)>
      requires InEntries()
      reads this
    {
      frames[|frames| - 1].entries
    }

    function Outer(): seq<Frame>
      requires frames != []
      reads this
    {
      frames[..|frames| - 1]
    }

    function AtEnd(): bool
      requires frames != []
      reads this
    {
      var top := frames[|frames| - 1];
      if top.Elements? then top.items == [] else top.entries == []
    }

    /** currentType(), which knows no array in 'ay' and 'as'. */
    function CurrentType(): ElementType
      requires InElements()
      reads this
    {
      if Rest() == [] then UnknownType
      else
        match Rest()[0]
        case Leaf(_) => BasicType
        case Sequence(Basic('y'), _) => BasicType
        case Sequence(Basic('s'), _) => BasicType
        case Sequence(_, _) => ArrayType
        case Mapping(_, _, _) => MapType
        case Tuple(_) => StructureType
        case Boxed(_) => VariantType
        case Opaque(_) => UnknownType
    }

    function CurrentSignature(): string
      requires InElements()
      reads this
    {
      if Rest() == [] then "" else if Rest()[0].Opaque? then Rest()[0].signature else Print(WireType(Rest()[0]))
    }

    /** operator>>: hands out the current element and moves past it. */
    method Next() returns (w: Wire)
      requires InElements() && Rest() != []
      modifies this
      ensures w == old(Rest())[0]
      ensures frames == old(Outer()) + [Elements(old(Rest())[1..])]
    {
      w := Rest()[0];
      frames := Outer() + [Elements(Rest()[1..])];
    }

    /** beginArray(), beginStructure() and beginMap() move the parent past the container. */
    method Begin()
      requires InElements() && Rest() != []
      requires Rest()[0].Sequence? || Rest()[0].Tuple? || Rest()[0].Mapping?
      modifies this
      ensures var w := old(Rest())[0];
              frames == old(Outer()) + [Elements(old(Rest())[1..])] +
                        [if w.Sequence? then Elements(w.items)
                         else if w.Tuple? then Elements(w.fields) else Entries(w.entries)]
    {
      var w := Rest()[0];
      var inner := if w.Sequence? then Elements(w.items) else if w.Tuple? then Elements(w.fields) else Entries(w.entries);
      frames := Outer() + [Elements(Rest()[1..])] + [inner];
    }

    method BeginMapEntry()
      requires InEntries() && RestEntries() != []
      modifies this
      ensures var (k, v) := old(RestEntries())[0];
              frames == old(Outer()) + [Entries(old(RestEntries())[1..])] + [Elements([k, v])]
    {
      var (k, v) := RestEntries()[0];
      frames := Outer() + [Entries(RestEntries()[1..])] + [Elements([k, v])];
    }

    /** Leaves the innermost container, whatever is left of it. */
    method End()
      requires frames != []
      modifies this
      ensures frames == old(Outer())
    {
      frames := Outer();
    }
  }

  // ------------------------------------------------------------ the demarshaller

  /** extractBasic(): an opaque element gives nothing and stays where it is. */
  method ExtractBasic(reader: Reader) returns (w: Option<Wire>)
    requires reader.InElements()
    modifies reader
    ensures var rest := old(reader.Rest());
            if rest != [] && IsBasicElement(rest[0])
            then w == Some(rest[0]) && reader.frames == old(reader.Outer()) + [Elements(rest[1..])]
            else w == None && reader.frames == old(reader.frames)
  {
    if reader.CurrentType() == BasicType {
      var basic := reader.Next();
      return Some(basic);
    }
    return None;
  }

  /** variantToJson(): a value outside a reader; a container gets a reader of its own. */
  method VariantToJson(p: Platform, w: Wire) returns (out: Json)
    ensures out == DecodedContent(p, w)
    decreases Weight(w), 1
  {
    if IsBasicElement(w) {
      out := BasicToJson(p, w);
    } else if w.Boxed? {
      out := VariantToJson(p, w.content);
    } else if w.Opaque? {
      out := String(UNREPRESENTABLE);
    } else {
      var reader := new Reader(w);
      assert WeightAll([w]) == Weight(w) by { assert [w][1..] == []; }
      var consumed;
      out, consumed := DemarshallElement(p, reader);
    }
  }

  /** The last part of callMethod(): no value, one value, or a list of several. */
  method ReplyToJson(p: Platform, arguments: seq<Wire>) returns (out: Json)
    ensures arguments == [] ==> out == Null
    ensures |arguments| == 1 ==> out == DecodedContent(p, arguments[0])
    ensures |arguments| > 1 ==>
              && out.List? && |out.items| == |arguments|
              && forall i | 0 <= i < |arguments| :: out.items[i] == DecodedContent(p, arguments[i])
  {
    hide DecodedContent;
    if arguments == [] {
      return Null;
    }
    if |arguments| == 1 {
      out := VariantToJson(p, arguments[0]);
      return;
    }
    var values: seq<Json> := [];
    for i := 0 to |arguments|
      invariant |values| == i && forall k | 0 <= k < i :: values[k] == DecodedContent(p, arguments[k])
    {
      var value := VariantToJson(p, arguments[i]);
      values := values + [value];
    }
    out := List(values);
  }

  /** The part of variantToJson() that maps what extractBasic() hands out. */
  function BasicToJson(p: Platform, w: Wire): (out: Json)
    requires IsBasicElement(w)
    ensures out == Decoded(p, w)
  {
    if w.Leaf? then LeafToJson(w.leaf)
    else if w.element == Basic('y') then String(Encode(BytesIn(w.items)))
    else List(TextsIn(w.items))
  }

  /** What a step over the current element leaves: the element consumed, or nothing changed. */
  ghost predicate Stepped(before: seq<Frame>, after: seq<Frame>, consumed: bool)
    requires before != [] && before[|before| - 1].Elements? && before[|before| - 1].items != []
  {
    var n := |before| - 1;
    after == if consumed then before[..n] + [Elements(before[n].items[1..])] else before
  }

  lemma DecodedCases(p: Platform, w: Wire)
    ensures w.Boxed? ==> Decoded(p, w) == DecodedContent(p, w.content) && Weight(w.content) < Weight(w)
    ensures w.Sequence? && !IsBasicElement(w) ==>
              Decoded(p, w) == List(DecodedItems(p, w.items)) && WeightAll(w.items) < Weight(w)
    ensures w.Tuple? ==> Decoded(p, w) == List(DecodedItems(p, w.fields)) && WeightAll(w.fields) < Weight(w)
    ensures w.Mapping? ==>
              Decoded(p, w) == Object(DecodedEntries(p, [], w.entries)) && WeightEntries(w.entries) < Weight(w)
    ensures w.Opaque? ==> Decoded(p, w) == Unsupported(w.signature)
  {
  }

  /** demarshallElement(): the value of the current element, and whether the cursor moved past it.
      At the end of its container it behaves as for an unknown type. */
  method DemarshallElement(p: Platform, reader: Reader) returns (out: Json, consumed: bool)
    requires reader.InElements()
    modifies reader
    ensures var rest := old(reader.Rest());
            if rest == [] then !consumed && out == Unsupported("") && reader.frames == old(reader.frames)
            else
              && out == Decoded(p, rest[0]) && consumed == Readable(rest[0])
              && Stepped(old(reader.frames), reader.frames, consumed)
    decreases WeightAll(reader.Rest()), 0
  {
    hide Decoded;
    ghost var rest := reader.Rest();
    if rest != [] { DecodedCases(p, rest[0]); }
    match reader.CurrentType()
    case BasicType =>
      var value := ExtractBasic(reader);
      out := BasicToJson(p, value.value);
      consumed := true;
    case VariantType =>
      var variant := reader.Next();
      out := VariantToJson(p, variant.content);
      consumed := true;
    case ArrayType =>
      reader.Begin();
      var decoded := DemarshallItems(p, reader);
      reader.End();
      out, consumed := List(decoded), true;
    case StructureType =>
      reader.Begin();
      var decoded := DemarshallItems(p, reader);
      reader.End();
      out, consumed := List(decoded), true;
    case MapType =>
      reader.Begin();
      var members := DemarshallEntries(p, reader);
      reader.End();
      out, consumed := Object(members), true;
    case UnknownType =>
      out, consumed := Unsupported(reader.CurrentSignature()), false;
  }

  lemma ItemStep(p: Platform, items: seq<Wire>)
    requires items != []
    ensures DecodedItems(p, items) ==
            [Decoded(p, items[0])] + if Readable(items[0]) then DecodedItems(p, items[1..]) else []
    ensures WeightAll(items[1..]) < WeightAll(items)
  {
  }

  /** The loop over an open array or struct. */
  method DemarshallItems(p: Platform, reader: Reader) returns (decoded: seq<Json>)
    requires reader.InElements()
    modifies reader
    ensures decoded == DecodedItems(p, old(reader.Rest()))
    ensures reader.frames != [] && reader.Outer() == old(reader.Outer())
    decreases WeightAll(reader.Rest()), 1
  {
    ghost var whole := DecodedItems(p, reader.Rest());
    decoded := [];
    var more := true;
    while more && !reader.AtEnd()
      invariant reader.InElements() && reader.Outer() == old(reader.Outer())
      invariant WeightAll(reader.Rest()) <= WeightAll(old(reader.Rest()))
      invariant more ==> whole == decoded + DecodedItems(p, reader.Rest())
      invariant !more ==> whole == decoded
      decreases more, WeightAll(reader.Rest())
    {
      hide Decoded, Weight, DecodedItems, WeightAll;
      ghost var rest, done := reader.Rest(), decoded;
      ItemStep(p, rest);
      var element;
      element, more := DemarshallElement(p, reader);
      decoded := decoded + [element];
      assert more ==> reader.Rest() == rest[1..] && reader.Outer() == old(reader.Outer());
      assert more ==> whole == done + ([element] + DecodedItems(p, rest[1..]));
      assert !more ==> whole == done + ([element] + []);
    }
  }

  lemma EntryWeight(es: seq<(Wire, Wire)>)
    requires es != []
    ensures var (k, v) := es[0];
            && WeightAll([k, v]) == Weight(k) + Weight(v) && WeightAll([v]) == Weight(v)
            && WeightEntries(es) == Weight(k) + Weight(v) + WeightEntries(es[1..])
  {
    hide Weight;
    var (k, v) := es[0];
    assert [v][1..] == [];
    assert WeightAll([v]) == Weight(v);
    assert [k, v][1..] == [v] && [k, v][0] == k;
  }

  lemma EntryStep(p: Platform, members: seq<(string, Json)>, es: seq<(Wire, Wire)>)
    requires es != []
    ensures DecodedEntries(p, members, es) ==
            if !IsBasicElement(es[0].0) then Insert(members, UNSUPPORTED_KEY, Null)
            else
              var inserted := Insert(members, KeyTextOf(p, es[0].0), Decoded(p, es[0].1));
              if Readable(es[0].1) then DecodedEntries(p, inserted, es[1..]) else inserted
  {
    hide Decoded, Insert, KeyTextOf;
  }

  /** The loop over an open dict. */
  method DemarshallEntries(p: Platform, reader: Reader) returns (members: seq<(string, Json)>)
    requires reader.InEntries()
    modifies reader
    ensures members == DecodedEntries(p, [], old(reader.RestEntries()))
    ensures reader.frames != [] && reader.Outer() == old(reader.Outer())
    decreases WeightEntries(reader.RestEntries()), 1
  {
    members := [];
    var more := true;
    while more && !reader.AtEnd()
      invariant reader.InEntries() && reader.Outer() == old(reader.Outer())
      invariant WeightEntries(reader.RestEntries()) <= WeightEntries(old(reader.RestEntries()))
      invariant DecodedEntries(p, [], old(reader.RestEntries())) ==
                if more then DecodedEntries(p, members, reader.RestEntries()) else members
      decreases more, WeightEntries(reader.RestEntries())
    {
      hide Decoded, DecodedEntries, Weight, WeightEntries, WeightAll, Insert, KeyTextOf;
      EntryStep(p, members, reader.RestEntries());
      EntryWeight(reader.RestEntries());
      reader.BeginMapEntry();
      var key := ExtractBasic(reader);
      var value := Null;
      more := key.Some?;
      if more {
        value, more := DemarshallElement(p, reader);
      }
      members := Insert(members, if key.Some? then KeyTextOf(p, key.value) else UNSUPPORTED_KEY, value);
      reader.End();
    }
  }
}
