/** What the second pass hands to QtDBus, and how QtDBus reads it: typed variants, and argument
    streams whose brackets, element types and contents must fit (libdbus aborts otherwise). */
module Marshalling {
  import opened Wrappers
  import opened Texts
  import opened Signatures
  import opened Wire

  datatype QVariant =
    | QInvalid
    | QBasic(leaf: Leaf)
    | QBoxed(inner: QVariant)
    | QByteArray(bytes: seq<byte>)
    | QStringList(strings: seq<string>)
    | QVariantList(items: seq<QVariant>)
    | QVariantMap(entries: seq<(string, QVariant)>)
    | QArgument(ops: seq<Op>)

  /** The operations on a QDBusArgument being written. */
  datatype Op =
    | Put(leaf: Leaf)
    | PutBytes(bytes: seq<byte>)
    | PutVariant(content: QVariant)
    | BeginArray(element: string)
    | EndArray
    | BeginMap(key: string, value: string)
    | EndMap
    | BeginMapEntry
    | EndMapEntry
    | BeginStructure
    | EndStructure

  function Second(entry: (string, QVariant)): (q: QVariant)
    ensures q < entry
  {
    entry.1
  }

  function Carried(op: Op): (q: QVariant)
    requires op.PutVariant?
    ensures q < op
  {
    op.content
  }

  /** The value a variant is sent as; none for an invalid one or a broken stream. */
  function Denote(p: Platform, q: QVariant): Option<Wire>
    decreases q, 0, 0
  {
    match q
    case QInvalid => None
    case QBasic(l) => Some(Leaf(l))
    case QBoxed(inner) =>
      var w :- Denote(p, inner);
      Some(Boxed(w))
    case QByteArray(bytes) => Some(BytesValue(bytes))
    case QStringList(strings) => Some(TextsValue(strings))
    case QVariantList(items) =>
      var ws :- DenoteItems(p, items);
      Some(Sequence(Variant, ws))
    case QVariantMap(entries) =>
      var es :- DenoteEntries(p, entries);
      Some(Mapping('s', Variant, es))
    case QArgument(ops) =>
      var (w, end) :- Read(p, ops, 0);
      if end == |ops| then Some(w) else None
  }

  /** Each item of a list is sent as a variant. */
  function DenoteItems(p: Platform, items: seq<QVariant>): Option<seq<Wire>>
    decreases items, 0, 0
  {
    if items == [] then Some([])
    else
      var w :- Denote(p, items[0]);
      var ws :- DenoteItems(p, items[1..]);
      Some([Boxed(w)] + ws)
  }

  function DenoteEntries(p: Platform, entries: seq<(string, QVariant)>): Option<seq<(Wire, Wire)>>
    decreases entries, 0, 0
  {
    if entries == [] then Some([])
    else
      var w :- Denote(p, Second(entries[0]));
      var es :- DenoteEntries(p, entries[1..]);
      Some([(Leaf(Text(entries[0].0)), Boxed(w))] + es)
  }

  /** The value that starts at `pos` of a stream, and the position behind it. Brackets must match,
      an array or map must be opened with known element types, and hold only values of them. */
  function Read(p: Platform, ops: seq<Op>, pos: nat): (r: Option<(Wire, nat)>)
    ensures r.Some? ==> pos < r.value.1 <= |ops|
    decreases ops, |ops| - pos, 0
  {
    if pos >= |ops| then None
    else
      match ops[pos]
      case Put(l) => Some((Leaf(l), pos + 1))
      case PutBytes(bytes) => Some((BytesValue(bytes), pos + 1))
      case PutVariant(_) =>
        var w :- Denote(p, Carried(ops[pos]));
        Some((Boxed(w), pos + 1))
      case BeginArray(e) =>
        if e in p.elements && IsSingle(e) then
          var (items, end) :- ReadItems(p, ops, pos + 1, TypeOf(e));
          Some((Sequence(TypeOf(e), items), end))
        else None
      case BeginMap(k, v) =>
        if k in p.elements && |k| == 1 && v in p.elements && IsSingle(v) then
          var (entries, end) :- ReadEntries(p, ops, pos + 1, k[0], TypeOf(v));
          Some((Mapping(k[0], TypeOf(v), entries), end))
        else None
      case BeginStructure =>
        var (fields, end) :- ReadFields(p, ops, pos + 1);
        if fields == [] then None else Some((Tuple(fields), end))
      case _ => None
  }

  function ReadItems(p: Platform, ops: seq<Op>, pos: nat, e: Type): (r: Option<(seq<Wire>, nat)>)
    ensures r.Some? ==> pos < r.value.1 <= |ops|
    decreases ops, |ops| - pos, 1
  {
    if pos >= |ops| then None
    else if ops[pos] == EndArray then Some(([], pos + 1))
    else
      var (w, next) :- Read(p, ops, pos);
      var (ws, end) :- ReadItems(p, ops, next, e);
      if HasType(w, e) then Some(([w] + ws, end)) else None
  }

  function ReadEntries(p: Platform, ops: seq<Op>, pos: nat, k: char, v: Type): (r: Option<(seq<(Wire, Wire)>, nat)>)
    ensures r.Some? ==> pos < r.value.1 <= |ops|
    decreases ops, |ops| - pos, 1
  {
    if pos >= |ops| then None
    else if ops[pos] == EndMap then Some(([], pos + 1))
    else if ops[pos] != BeginMapEntry then None
    else
      var (key, afterKey) :- Read(p, ops, pos + 1);
      var (value, afterValue) :- Read(p, ops, afterKey);
      if afterValue >= |ops| || ops[afterValue] != EndMapEntry then None
      else
        var (rest, end) :- ReadEntries(p, ops, afterValue + 1, k, v);
        if HasType(key, Basic(k)) && HasType(value, v) then Some(([(key, value)] + rest, end)) else None
  }

  function ReadFields(p: Platform, ops: seq<Op>, pos: nat): (r: Option<(seq<Wire>, nat)>)
    ensures r.Some? ==> pos < r.value.1 <= |ops|
    decreases ops, |ops| - pos, 1
  {
    if pos >= |ops| then None
    else if ops[pos] == EndStructure then Some(([], pos + 1))
    else
      var (w, next) :- Read(p, ops, pos);
      var (ws, end) :- ReadFields(p, ops, next);
      Some(([w] + ws, end))
  }

  // ------------------------------------------------------------ parts of a stream

  /** `part` stands in `ops` at `pos`. */
  ghost predicate OpsAt(ops: seq<Op>, pos: nat, part: seq<Op>) {
    pos + |part| <= |ops| && forall k | 0 <= k < |part| :: ops[pos + k] == part[k]
  }

  lemma OpsAtConcat(ops: seq<Op>, pos: nat, a: seq<Op>, b: seq<Op>)
    requires OpsAt(ops, pos, a + b)
    ensures OpsAt(ops, pos, a) && OpsAt(ops, pos + |a|, b)
  {
    forall k | 0 <= k < |a| ensures ops[pos + k] == a[k] { assert (a + b)[k] == a[k]; }
    forall k | 0 <= k < |b| ensures ops[pos + |a| + k] == b[k] { assert (a + b)[|a| + k] == b[k]; }
  }

  lemma OpAt(ops: seq<Op>, pos: nat, op: Op)
    requires OpsAt(ops, pos, [op])
    ensures pos < |ops| && ops[pos] == op
  {
    assert ops[pos + 0] == [op][0];
  }

  lemma FirstAt(ops: seq<Op>, pos: nat, part: seq<Op>)
    requires OpsAt(ops, pos, part) && part != []
    ensures pos < |ops| && ops[pos] == part[0]
  {
    assert ops[pos + 0] == part[0];
  }

  lemma Bracketed(ops: seq<Op>, pos: nat, open: Op, inner: seq<Op>, close: Op)
    requires OpsAt(ops, pos, [open] + inner + [close])
    ensures pos < |ops| && ops[pos] == open && OpsAt(ops, pos + 1, inner)
    ensures pos + 1 + |inner| < |ops| && ops[pos + 1 + |inner|] == close
  {
    OpsAtConcat(ops, pos, [open] + inner, [close]);
    OpsAtConcat(ops, pos, [open], inner);
    OpAt(ops, pos, open);
    OpAt(ops, pos + 1 + |inner|, close);
  }
}
