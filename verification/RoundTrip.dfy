/** Replies and arguments undo each other: what a reply is shown as in JSON is accepted back as an
    argument of the same type, and stands for the same value. */
module RoundTrip {
  import opened Wrappers
  import opened Json
  import opened Integers
  import opened Texts
  import opened Signatures
  import opened Wire
  import opened Coercer
  import opened Values
  import opened Demarshaller

  /** A double used as a dict key is written as a text that reads back as it; other keys always do.
      The shortest text Qt writes has this property for each double. */
  predicate KeyReads(p: Platform, key: Leaf) {
    key.Real? ==> p.doubles.read(p.doubles.show(key.number)) == Some(key.number)
  }

  /** Values JSON keeps entirely, of types the element table knows: no variant, no descriptor, no
      unknown element. */
  predicate Plain(p: Platform, w: Wire) {
    match w
    case Leaf(l) => l != Fd
    case Sequence(e, items) =>
      && (e == Basic('y') || e == Basic('s') || p.Known(e))
      && forall i | 0 <= i < |items| :: Plain(p, items[i])
    case Mapping(k, v, entries) =>
      && k != 'h' && p.Known(v)
      && forall i | 0 <= i < |entries| ::
           && Plain(p, entries[i].0) && Plain(p, entries[i].1)
           && (entries[i].0.Leaf? ==> KeyReads(p, entries[i].0.leaf))
    case Tuple(fs) => forall i | 0 <= i < |fs| :: Plain(p, fs[i])
    case Boxed(_) => false
    case Opaque(_) => false
  }

  /** The same value with every dict in key order, as JSON keeps it; of two entries with one key
      the later one. */
  function Canonical(p: Platform, w: Wire): Wire
    decreases w, 1
  {
    match w
    case Leaf(_) => w
    case Sequence(e, items) => Sequence(e, CanonicalAll(p, items))
    case Mapping(k, v, entries) => Mapping(k, v, Seconds(CanonicalEntries(p, [], entries)))
    case Tuple(fs) => Tuple(CanonicalAll(p, fs))
    case Boxed(c) => Boxed(Canonical(p, c))
    case Opaque(_) => w
  }

  function CanonicalAll(p: Platform, ws: seq<Wire>): (r: seq<Wire>)
    ensures |r| == |ws| && forall i | 0 <= i < |ws| :: r[i] == Canonical(p, ws[i])
    decreases ws, 2
  {
    if ws == [] then [] else [Canonical(p, ws[0])] + CanonicalAll(p, ws[1..])
  }

  function CanonicalEntries(p: Platform, members: seq<(string, (Wire, Wire))>, entries: seq<(Wire, Wire)>)
    : seq<(string, (Wire, Wire))>
    decreases entries, 2
  {
    if entries == [] then members
    else
      var entry := (entries[0].0, Canonical(p, ItemOf(entries[0])));
      CanonicalEntries(p, Insert(members, KeyTextOf(p, entries[0].0), entry), entries[1..])
  }

  function Seconds(members: seq<(string, (Wire, Wire))>): (r: seq<(Wire, Wire)>)
    ensures |r| == |members| && forall i | 0 <= i < |members| :: r[i] == members[i].1
  {
    if members == [] then [] else [members[0].1] + Seconds(members[1..])
  }

  // ------------------------------------------------------------ leaves and keys

  lemma LeafBack(l: Leaf)
    requires LeafValid(l) && l != Fd
    ensures CoerceBasic(LeafToJson(l), LeafCode(l)) == Some(l)
  {
    if l.Int? {
      var json := LeafToJson(l);
      if json.String? { DecimalValue(l.value); }
      CoerceIntegerExact(json, l.code);
    }
  }

  /** The text of a dict key is read back as the key, so distinct keys have distinct texts. */
  lemma KeyBack(p: Platform, l: Leaf)
    requires KeyReads(p, l) && LeafValid(l) && l != Fd
    ensures CoerceKey(p, KeyText(p, l), LeafCode(l)) == Some(l)
  {
    if l.Int? { DecimalAccepted(l.code, l.value); }
  }

  // ------------------------------------------------------------ flat arrays

  lemma {:induction false} BytesBack(items: seq<Wire>)
    requires forall i | 0 <= i < |items| :: HasType(items[i], Basic('y'))
    ensures BytesValue(BytesIn(items)).items == items
    decreases items
  {
    if items != [] {
      BytesBack(items[1..]);
      var bytes := BytesIn(items);
      assert bytes[1..] == BytesIn(items[1..]);
      forall i | 0 <= i < |bytes| ensures Leaf(Int('y', bytes[i] as int)) == items[i] {
        if i > 0 { assert BytesValue(bytes[1..]).items[i - 1] == items[1..][i - 1]; }
      }
    }
  }

  lemma {:induction false} TextsBack(items: seq<Wire>)
    requires forall i | 0 <= i < |items| :: HasType(items[i], Basic('s'))
    ensures var texts := TextsIn(items);
            && |texts| == |items| && (forall i | 0 <= i < |texts| :: texts[i].String?)
            && TextLeaves(TextsOf(texts)) == items
    decreases items
  {
    if items != [] {
      TextsBack(items[1..]);
      assert TextsIn(items)[1..] == TextsIn(items[1..]);
      assert [items[0]] + items[1..] == items;
    }
  }

  lemma {:induction false} LeavesAreCanonical(p: Platform, items: seq<Wire>)
    requires forall i | 0 <= i < |items| :: items[i].Leaf?
    ensures CanonicalAll(p, items) == items
  {
  }

  // ------------------------------------------------------------ the round trip

  /** Coercing what a reply was decoded to, with the reply's own type, gives the reply back. */
  lemma {:induction false} ReplyBack(p: Platform, w: Wire, depth: nat)
    requires WellTyped(w) && Plain(p, w)
    requires depth + Depth(WireType(w)) <= MAX_MESSAGE_DEPTH
    ensures Accepts(p, Decoded(p, w), WireType(w), depth)
    ensures Value(p, Decoded(p, w), WireType(w), depth) == Canonical(p, w)
    decreases w, 3
  {
    match w
    case Leaf(l) => LeafBack(l);
    case Sequence(_, _) => SequenceBack(p, w, depth);
    case Mapping(_, _, _) => MappingBack(p, w, depth);
    case Tuple(_) => TupleBack(p, w, depth);
  }

  lemma {:induction false} SequenceBack(p: Platform, w: Wire, depth: nat)
    requires WellTyped(w) && Plain(p, w) && w.Sequence?
    requires depth + Depth(WireType(w)) <= MAX_MESSAGE_DEPTH
    ensures Accepts(p, Decoded(p, w), WireType(w), depth)
    ensures Value(p, Decoded(p, w), WireType(w), depth) == Canonical(p, w)
    decreases w, 2
  {
    hide CoerceBasic, CoerceKey, AcceptsVariant, AcceptsExplicit;
    if w.element == Basic('y') {
      BytesBack(w.items);
      Base64RoundTrip(BytesIn(w.items));
      LeavesAreCanonical(p, w.items);
    } else if w.element == Basic('s') {
      TextsBack(w.items);
      LeavesAreCanonical(p, w.items);
    } else {
      ItemsBack(p, w.items, w.element, depth + 1);
    }
  }

  lemma {:induction false} ItemsBack(p: Platform, items: seq<Wire>, e: Type, depth: nat)
    requires depth + Depth(e) <= MAX_MESSAGE_DEPTH
    requires forall i | 0 <= i < |items| :: HasType(items[i], e) && Plain(p, items[i])
    ensures var decoded := DecodedItems(p, items);
            && |decoded| == |items| && (forall i | 0 <= i < |items| :: Accepts(p, decoded[i], e, depth))
            && ItemValues(p, decoded, e, depth) == CanonicalAll(p, items)
    decreases items, 4
  {
    hide Accepts, Value, Canonical, Decoded;
    if items != [] {
      ReplyBack(p, items[0], depth);
      ItemsBack(p, items[1..], e, depth);
      assert DecodedItems(p, items)[1..] == DecodedItems(p, items[1..]);
    }
  }

  lemma {:induction false} TupleBack(p: Platform, w: Wire, depth: nat)
    requires WellTyped(w) && Plain(p, w) && w.Tuple?
    requires depth + Depth(WireType(w)) <= MAX_MESSAGE_DEPTH
    ensures Accepts(p, Decoded(p, w), WireType(w), depth)
    ensures Value(p, Decoded(p, w), WireType(w), depth) == Canonical(p, w)
    decreases w, 2
  {
    hide CoerceBasic, CoerceBytes, CoerceKey, AcceptsVariant, AcceptsExplicit;
    FieldsBack(p, w.fields, depth + 1);
  }

  lemma {:induction false} FieldsBack(p: Platform, ws: seq<Wire>, depth: nat)
    requires depth + DepthAll(WireTypes(ws)) <= MAX_MESSAGE_DEPTH
    requires forall i | 0 <= i < |ws| :: WellTyped(ws[i]) && Plain(p, ws[i])
    ensures var decoded := DecodedItems(p, ws);
            && |decoded| == |ws| && (forall i | 0 <= i < |ws| :: Accepts(p, decoded[i], WireTypes(ws)[i], depth))
            && FieldValues(p, decoded, WireTypes(ws), depth) == CanonicalAll(p, ws)
    decreases ws, 4
  {
    hide Accepts, Value, Canonical, Decoded;
    if ws != [] {
      assert WireTypes(ws)[1..] == WireTypes(ws[1..]);
      ReplyBack(p, ws[0], depth);
      FieldsBack(p, ws[1..], depth);
      assert DecodedItems(p, ws)[1..] == DecodedItems(p, ws[1..]);
    }
  }

  lemma {:induction false} MappingBack(p: Platform, w: Wire, depth: nat)
    requires WellTyped(w) && Plain(p, w) && w.Mapping?
    requires depth + Depth(WireType(w)) <= MAX_MESSAGE_DEPTH
    ensures Accepts(p, Decoded(p, w), WireType(w), depth)
    ensures Value(p, Decoded(p, w), WireType(w), depth) == Canonical(p, w)
    decreases w, 2
  {
    hide Accepts, Value, DecodedEntries, CanonicalEntries, EntryValues;
    EntriesBack(p, [], [], w.entries, w.key, w.value, depth + 2);
    ObjectAccepted(p, DecodedEntries(p, [], w.entries), CanonicalEntries(p, [], w.entries), w.key, w.value, depth);
  }

  lemma ObjectAccepted(p: Platform, members: seq<(string, Json)>, entries: seq<(string, (Wire, Wire))>,
                       k: char, v: Type, depth: nat)
    requires k != 'h' && p.Known(v) && depth <= MAX_MESSAGE_DEPTH && Matches(p, members, entries, k, v, depth + 2)
    ensures Accepts(p, Object(members), Dict(k, v), depth)
    ensures Value(p, Object(members), Dict(k, v), depth) == Mapping(k, v, Seconds(entries))
  {
    hide CoerceBasic, CoerceBytes, CoerceKey, AcceptsVariant, AcceptsExplicit, Print;
    forall i | 0 <= i < |members| ensures MemberMatches(p, members[i], entries[i], k, v, depth + 2) {}
    assert EntryValues(p, members, k, v, depth + 2) == Seconds(entries);
  }

  /** Member by member, the JSON object stands for the entries. */
  ghost predicate Matches(p: Platform, members: seq<(string, Json)>, entries: seq<(string, (Wire, Wire))>,
                          k: char, v: Type, depth: nat)
  {
    && |members| == |entries|
    && forall i | 0 <= i < |members| :: MemberMatches(p, members[i], entries[i], k, v, depth)
  }

  ghost predicate MemberMatches(p: Platform, member: (string, Json), entry: (string, (Wire, Wire)),
                                k: char, v: Type, depth: nat)
  {
    && member.0 == entry.0 && CoerceKey(p, member.0, k).Some? && Accepts(p, member.1, v, depth)
    && entry.1 == (Leaf(CoerceKey(p, member.0, k).value), Value(p, member.1, v, depth))
  }

  lemma {:induction false} InsertMatches(p: Platform, members: seq<(string, Json)>,
      entries: seq<(string, (Wire, Wire))>, k: char, v: Type, depth: nat,
      key: string, value: Json, entry: (Wire, Wire))
    requires Matches(p, members, entries, k, v, depth)
    requires MemberMatches(p, (key, value), (key, entry), k, v, depth)
    ensures Matches(p, Insert(members, key, value), Insert(entries, key, entry), k, v, depth)
    decreases members
  {
    hide MemberMatches, Less;
    if members != [] {
      SameKey(p, members[0], entries[0], k, v, depth);
      var r, q := Insert(members, key, value), Insert(entries, key, entry);
      if members[0].0 == key {
        assert r == [(key, value)] + members[1..] && q == [(key, entry)] + entries[1..];
      } else if Less(key, members[0].0) {
        assert r == [(key, value)] + members && q == [(key, entry)] + entries;
      } else {
        InsertMatches(p, members[1..], entries[1..], k, v, depth, key, value, entry);
        TailMatches(p, members[0], entries[0], Insert(members[1..], key, value), Insert(entries[1..], key, entry), k, v, depth);
      }
    }
  }

  lemma TailMatches(p: Platform, member: (string, Json), entry: (string, (Wire, Wire)),
      members: seq<(string, Json)>, entries: seq<(string, (Wire, Wire))>, k: char, v: Type, depth: nat)
    requires MemberMatches(p, member, entry, k, v, depth) && Matches(p, members, entries, k, v, depth)
    ensures Matches(p, [member] + members, [entry] + entries, k, v, depth)
  {
    hide MemberMatches;
  }

  lemma SameKey(p: Platform, member: (string, Json), entry: (string, (Wire, Wire)), k: char, v: Type, depth: nat)
    requires MemberMatches(p, member, entry, k, v, depth)
    ensures member.0 == entry.0
  {
  }

  lemma {:induction false} EntriesBack(p: Platform, members: seq<(string, Json)>,
      canonical: seq<(string, (Wire, Wire))>, entries: seq<(Wire, Wire)>, k: char, v: Type, depth: nat)
    requires depth + Depth(v) <= MAX_MESSAGE_DEPTH
    requires Matches(p, members, canonical, k, v, depth)
    requires forall i | 0 <= i < |entries| ::
               && HasType(entries[i].0, Basic(k)) && entries[i].0.Leaf? && Plain(p, entries[i].0)
               && KeyReads(p, entries[i].0.leaf)
               && HasType(entries[i].1, v) && Plain(p, entries[i].1)
    ensures Matches(p, DecodedEntries(p, members, entries), CanonicalEntries(p, canonical, entries), k, v, depth)
    decreases entries, 4
  {
    hide Accepts, Value, Canonical, Decoded, CoerceKey, KeyText, Insert, Matches;
    if entries != [] {
      var l, w := entries[0].0.leaf, ItemOf(entries[0]);
      KeyBack(p, l);
      ReplyBack(p, w, depth);
      var key := KeyText(p, l);
      var entry := (entries[0].0, Canonical(p, w));
      InsertMatches(p, members, canonical, k, v, depth, key, Decoded(p, w), entry);
      EntriesBack(p, Insert(members, key, Decoded(p, w)), Insert(canonical, key, entry), entries[1..], k, v, depth);
    }
  }

  /** The round trip at the root, on the text of the signature: what Coerce() takes. */
  lemma ReplyRoundTrip(p: Platform, w: Wire)
    requires WellTyped(w) && Plain(p, w) && Valid(WireType(w))
    ensures var sig := Print(WireType(w));
            && IsSingle(sig) && Accepts(p, Decoded(p, w), TypeOf(sig), 0)
            && Value(p, Decoded(p, w), TypeOf(sig), 0) == Canonical(p, w)
  {
    hide Accepts, Value, Canonical, Decoded, WellTyped;
    SingleComplete(WireType(w));
    DepthBound(WireType(w));
    ReplyBack(p, w, 0);
  }

  // ------------------------------------------------------------ dicts as maps

  ghost predicate DistinctKeys(entries: seq<(Wire, Wire)>) {
    forall i, j | 0 <= i < j < |entries| :: entries[i].0 != entries[j].0
  }

  lemma InsertFresh<V>(members: seq<(string, V)>, key: string, value: V)
    requires forall i | 0 <= i < |members| :: members[i].0 != key
    ensures multiset(Insert(members, key, value)) == multiset(members) + multiset{(key, value)}
  {
    if members != [] {
      assert members == [members[0]] + members[1..];
    }
  }

  function Keyed(p: Platform, entries: seq<(Wire, Wire)>): seq<(string, (Wire, Wire))> {
    if entries == [] then []
    else [(KeyTextOf(p, entries[0].0), (entries[0].0, Canonical(p, entries[0].1)))] + Keyed(p, entries[1..])
  }

  /** With distinct keys, the canonical form only reorders a dict: the same keys with the same
      (canonical) values. */
  lemma {:induction false} CanonicalKeepsEntries(p: Platform, members: seq<(string, (Wire, Wire))>,
                                                 entries: seq<(Wire, Wire)>, k: char)
    requires DistinctKeys(entries)
    requires forall i | 0 <= i < |entries| ::
               && HasType(entries[i].0, Basic(k)) && entries[i].0.Leaf? && entries[i].0.leaf != Fd
               && KeyReads(p, entries[i].0.leaf)
    requires forall i, j | 0 <= i < |members| && 0 <= j < |entries| ::
               members[i].0 != KeyTextOf(p, entries[j].0)
    ensures multiset(CanonicalEntries(p, members, entries)) == multiset(members) + multiset(Keyed(p, entries))
    decreases entries
  {
    if entries != [] {
      var key := KeyTextOf(p, entries[0].0);
      var entry := (entries[0].0, Canonical(p, entries[0].1));
      var inserted := Insert(members, key, entry);
      InsertKeys(members, key, entry);
      forall i, j | 0 <= i < |inserted| && 1 <= j < |entries| ensures inserted[i].0 != KeyTextOf(p, entries[j].0) {
        KeyBack(p, entries[0].0.leaf);
        KeyBack(p, entries[j].0.leaf);
        assert entries[0].0 != entries[j].0;
      }
      InsertFresh(members, key, entry);
      CanonicalKeepsEntries(p, inserted, entries[1..], k);
      assert multiset(Keyed(p, entries)) == multiset{(key, entry)} + multiset(Keyed(p, entries[1..]));
    }
  }
}
