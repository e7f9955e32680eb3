/** D-Bus values as trees, their types, and the nesting limits of a message. */
module Wire {
  import opened Signatures
  import opened Integers
  import opened Texts

  const MAX_MESSAGE_DEPTH := 64

  datatype Leaf =
    | Int(code: char, value: int)
    | Flag(flag: bool)
    | Real(number: real)
    | Text(text: string)
    | Path(path: string)
    | Sig(signature: string)
    | Fd

  /** `Opaque` stands for what the bridge has no decoder for. */
  datatype Wire =
    | Leaf(leaf: Leaf)
    | Sequence(element: Type, items: seq<Wire>)
    | Mapping(key: char, value: Type, entries: seq<(Wire, Wire)>)
    | Tuple(fields: seq<Wire>)
    | Boxed(content: Wire)
    | Opaque(signature: string)

  function LeafCode(l: Leaf): char {
    match l
    case Int(c, _) => c
    case Flag(_) => 'b'
    case Real(_) => 'd'
    case Text(_) => 's'
    case Path(_) => 'o'
    case Sig(_) => 'g'
    case Fd => 'h'
  }

  predicate LeafValid(l: Leaf) {
    match l
    case Int(c, i) => IsIntegerCode(c) && Representable(c, i)
    case Path(s) => IsObjectPath(s)
    case Sig(s) => s == "" || Split(s) != []
    case _ => true
  }

  function WireType(w: Wire): Type {
    match w
    case Leaf(l) => Basic(LeafCode(l))
    case Sequence(e, _) => Array(e)
    case Mapping(k, v, _) => Dict(k, v)
    case Tuple(fs) => Struct(WireTypes(fs))
    case Boxed(_) => Variant
    case Opaque(_) => Basic('?')
  }

  function WireTypes(ws: seq<Wire>): (ts: seq<Type>)
    ensures |ts| == |ws|
    ensures forall i | 0 <= i < |ws| :: ts[i] == WireType(ws[i])
  {
    if ws == [] then [] else [WireType(ws[0])] + WireTypes(ws[1..])
  }

  /** Every part has the type its container announces. */
  predicate WellTyped(w: Wire) {
    match w
    case Leaf(l) => LeafValid(l)
    case Sequence(e, items) => forall i | 0 <= i < |items| :: WireType(items[i]) == e && WellTyped(items[i])
    case Mapping(k, v, entries) =>
      forall i | 0 <= i < |entries| ::
        && WireType(entries[i].0) == Basic(k) && entries[i].0.Leaf? && WellTyped(entries[i].0)
        && WireType(entries[i].1) == v && WellTyped(entries[i].1)
    case Tuple(fs) => fs != [] && forall i | 0 <= i < |fs| :: WellTyped(fs[i])
    case Boxed(c) => WellTyped(c)
    case Opaque(_) => false
  }

  predicate HasType(w: Wire, t: Type) {
    WellTyped(w) && WireType(w) == t
  }

  /** The limits of a message: every leaf lies under at most `MAX_MESSAGE_DEPTH` containers, and
      every typed part (up to the next variant) nests at most 32 arrays and 32 structs or dict
      entries. `open` containers, variants included, are around `w`; `arrays` and `structs` of them
      belong to its own typed part. */
  predicate Within(w: Wire, open: nat, arrays: nat, structs: nat) {
    && arrays <= MAX_ARRAY_DEPTH && structs <= MAX_STRUCT_DEPTH
    && match w
       case Leaf(_) => open <= MAX_MESSAGE_DEPTH
       case Sequence(_, items) =>
         && arrays < MAX_ARRAY_DEPTH
         && forall i | 0 <= i < |items| :: Within(items[i], open + 1, arrays + 1, structs)
       case Mapping(_, _, entries) =>
         && arrays < MAX_ARRAY_DEPTH && structs < MAX_STRUCT_DEPTH
         && forall i | 0 <= i < |entries| ::
              && Within(entries[i].0, open + 2, arrays + 1, structs + 1)
              && Within(entries[i].1, open + 2, arrays + 1, structs + 1)
       case Tuple(fs) =>
         && structs < MAX_STRUCT_DEPTH
         && forall i | 0 <= i < |fs| :: Within(fs[i], open + 1, arrays, structs + 1)
       case Boxed(c) => Within(c, open + 1, 0, 0)
       case Opaque(_) => open <= MAX_MESSAGE_DEPTH
  }

  function BytesValue(bytes: seq<byte>): Wire {
    Sequence(Basic('y'), seq(|bytes|, i requires 0 <= i < |bytes| => Leaf(Int('y', bytes[i] as int))))
  }

  function TextsValue(texts: seq<string>): Wire {
    Sequence(Basic('s'), TextLeaves(texts))
  }

  function TextLeaves(texts: seq<string>): (r: seq<Wire>)
    ensures |r| == |texts| && forall i | 0 <= i < |texts| :: r[i] == Leaf(Text(texts[i]))
  {
    if texts == [] then [] else [Leaf(Text(texts[0]))] + TextLeaves(texts[1..])
  }

  lemma FlatTyped(bytes: seq<byte>, texts: seq<string>)
    ensures HasType(BytesValue(bytes), Array(Basic('y')))
    ensures HasType(TextsValue(texts), Array(Basic('s')))
  {
  }

  lemma FlatWithin(bytes: seq<byte>, texts: seq<string>, depth: nat, arrays: nat, structs: nat)
    requires depth < MAX_MESSAGE_DEPTH && arrays < MAX_ARRAY_DEPTH && structs <= MAX_STRUCT_DEPTH
    ensures Within(BytesValue(bytes), depth, arrays, structs)
    ensures Within(TextsValue(texts), depth, arrays, structs)
  {
  }

  // ------------------------------------------------------------ what QtDBus provides

  /** The signatures beginArray() and beginMap() have an element type for, and the texts of
      doubles. */
  datatype Platform = Platform(elements: set<string>, doubles: DoubleText) {
    predicate Known(t: Type) {
      Print(t) in elements
    }

    /** The single-letter types are registered, unix descriptors excepted. */
    ghost predicate Native() {
      && (forall c | IsBasic(c) && c != 'h' :: [c] in elements)
      && "h" !in elements
      && "v" in elements
    }
  }

  /** The element table of the bridge. */
  const ELEMENT_TABLE: set<string> := {
    "y", "b", "n", "q", "i", "u", "x", "t", "d", "s", "o", "g", "v",
    "as", "ay", "av", "a{sv}", "ao", "ag", "ab", "an", "aq", "ai", "au", "ax", "at", "ad",
    "a{ss}", "aas", "aay", "aa{sv}", "a{sa{sv}}", "aai",
    "(si)", "(ss)", "(sss)", "(ii)", "(ai)", "(oa{sv})", "(iss)"}

  lemma TableIsNative(doubles: DoubleText)
    ensures Platform(ELEMENT_TABLE, doubles).Native()
  {
  }
}
