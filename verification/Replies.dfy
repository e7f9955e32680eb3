/** What a reply is shown as, told part by part without the decoder: every value can be read back from
    its JSON, containers keep their elements up to the first one of unknown type, variants show what
    they hold. And what the natural mapping sends comes back as the JSON it was given. */
module Replies {
  import opened Wrappers
  import opened Json
  import opened Integers
  import opened Texts
  import opened Signatures
  import opened Wire
  import opened Coercer
  import opened Values
  import opened Demarshaller
  import opened RoundTrip
  import opened Marshalling
  import opened Natural

  // ------------------------------------------------------------ what is shown

  /** What D-Bus delivers: valid leaves, byte and string arrays of bytes and strings, basic dict keys.
      Any other element may be of unknown type. */
  predicate Received(w: Wire) {
    match w
    case Leaf(l) => LeafValid(l)
    case Sequence(e, items) =>
      && (e == Basic('y') || e == Basic('s') ==> forall i | 0 <= i < |items| :: HasType(items[i], e))
      && forall i | 0 <= i < |items| :: Received(items[i])
    case Mapping(k, _, entries) =>
      forall i | 0 <= i < |entries| ::
        entries[i].0.Leaf? && HasType(entries[i].0, Basic(k)) && Received(entries[i].1)
    case Tuple(fs) => forall i | 0 <= i < |fs| :: Received(fs[i])
    case Boxed(c) => Received(c)
    case Opaque(_) => true
  }

  /** How far a container is shown: up to its first element of unknown type, which is marked. */
  function Seen(ws: seq<Wire>): (n: nat)
    ensures n <= |ws| && (n < |ws| ==> n > 0 && ws[n - 1].Opaque?)
    ensures forall i | 0 <= i < n - 1 :: !ws[i].Opaque?
  {
    if ws == [] then 0 else if ws[0].Opaque? then 1 else 1 + Seen(ws[1..])
  }

  function SeenEntries(es: seq<(Wire, Wire)>): (n: nat)
    ensures n <= |es| && (n < |es| ==> n > 0 && es[n - 1].1.Opaque?)
    ensures forall i | 0 <= i < n - 1 :: !es[i].1.Opaque?
  {
    if es == [] then 0 else if es[0].1.Opaque? then 1 else 1 + SeenEntries(es[1..])
  }

  /** A leaf is read back from its JSON; integers that a double cannot hold are texts. */
  predicate LeafShown(j: Json, l: Leaf) {
    match l
    case Fd => j == String("<unix fd: not transferable over MCP>")
    case Int(c, i) =>
      && CoerceBasic(j, c) == Some(l)
      && (j.String? <==> (c == 'x' || c == 't') && !(-0x20_0000_0000_0000 <= i <= 0x20_0000_0000_0000))
    case _ => CoerceBasic(j, LeafCode(l)) == Some(l)
  }

  ghost predicate Shows(p: Platform, j: Json, w: Wire)
    decreases w, 1
  {
    match w
    case Leaf(l) => LeafShown(j, l)
    case Sequence(e, items) =>
      if e == Basic('y') then j.String? && Decode(j.text).Some? && BytesValue(Decode(j.text).value) == w
      else j.List? && ItemsShown(p, j.items, items)
    case Mapping(_, _, entries) => j.Object? && Sorted(j.members) && EntriesShown(p, j.members, entries)
    case Tuple(fs) => j.List? && ItemsShown(p, j.items, fs)
    case Boxed(c) => if c.Opaque? then j == String("<unrepresentable:>") else Shows(p, j, c)
    case Opaque(signature) => j == String("<unsupported D-Bus type '" + signature + "'>")
  }

  ghost predicate ItemsShown(p: Platform, js: seq<Json>, ws: seq<Wire>)
    decreases ws, 0
  {
    |js| == Seen(ws) && forall i | 0 <= i < |js| :: Shows(p, js[i], ws[i])
  }

  /** The keys of an object are those of the dict; of two entries with one text the later one is shown. */
  ghost predicate EntriesShown(p: Platform, members: seq<(string, Json)>, es: seq<(Wire, Wire)>)
    decreases es, 0
  {
    && (forall key :: Lookup(members, key).Some? <==> Occurs(p, es, key))
    && forall i | 0 <= i < SeenEntries(es) && IsLast(p, es, i) ::
         && Lookup(members, KeyTextOf(p, es[i].0)).Some?
         && Shows(p, Lookup(members, KeyTextOf(p, es[i].0)).value, ItemOf(es[i]))
  }

  ghost predicate Occurs(p: Platform, es: seq<(Wire, Wire)>, key: string) {
    exists i :: 0 <= i < SeenEntries(es) && KeyTextOf(p, es[i].0) == key
  }

  ghost predicate IsLast(p: Platform, es: seq<(Wire, Wire)>, i: nat)
    requires i < SeenEntries(es)
  {
    forall j | i < j < SeenEntries(es) :: KeyTextOf(p, es[j].0) != KeyTextOf(p, es[i].0)
  }

  // ------------------------------------------------------------ the decoder shows it

  lemma LeafIsShown(l: Leaf)
    requires LeafValid(l)
    ensures LeafShown(LeafToJson(l), l)
  {
    if l != Fd { LeafBack(l); }
  }

  /** Whatever is received is shown. */
  lemma {:induction false} DecodedShows(p: Platform, w: Wire)
    requires Received(w)
    ensures Shows(p, Decoded(p, w), w)
    decreases w, 1
  {
    hide LeafShown, LeafToJson;
    match w
    case Leaf(l) => LeafIsShown(l);
    case Sequence(e, items) =>
      if e == Basic('y') {
        BytesBack(items);
        Base64RoundTrip(BytesIn(items));
      } else if e == Basic('s') {
        TextsShown(p, items);
      } else {
        ItemsAreShown(p, items);
      }
    case Mapping(_, _, entries) =>
      EntriesKept(p, [], entries);
      forall i | 0 <= i < |entries| ensures Shows(p, Decoded(p, ItemOf(entries[i])), entries[i].1) {
        DecodedShows(p, ItemOf(entries[i]));
      }
      EntriesAreShown(p, DecodedEntries(p, [], entries), entries);
    case Tuple(fs) => ItemsAreShown(p, fs);
    case Boxed(c) => if !c.Opaque? { DecodedShows(p, c); }
    case Opaque(_) =>
  }

  lemma {:induction false} TextsShown(p: Platform, items: seq<Wire>)
    requires forall i | 0 <= i < |items| :: HasType(items[i], Basic('s'))
    ensures ItemsShown(p, TextsIn(items), items)
    decreases items
  {
    if items != [] {
      TextsShown(p, items[1..]);
      MoreShown(p, TextsIn(items)[0], items[0], TextsIn(items[1..]), items[1..]);
      assert [items[0]] + items[1..] == items;
    } else {
      assert ItemsShown(p, [], []);
    }
  }

  lemma MoreShown(p: Platform, j: Json, w: Wire, js: seq<Json>, ws: seq<Wire>)
    requires Shows(p, j, w) && (if w.Opaque? then js == [] else ItemsShown(p, js, ws))
    ensures ItemsShown(p, [j] + js, [w] + ws)
  {
    hide Shows;
    assert ([w] + ws)[1..] == ws;
  }

  lemma {:induction false} ItemsAreShown(p: Platform, items: seq<Wire>)
    requires forall i | 0 <= i < |items| :: Received(items[i])
    ensures ItemsShown(p, DecodedItems(p, items), items)
    decreases items, 0
  {
    hide Shows, Decoded, Received;
    if items != [] {
      DecodedShows(p, items[0]);
      if !items[0].Opaque? { ItemsAreShown(p, items[1..]); }
      MoreShown(p, Decoded(p, items[0]), items[0], if items[0].Opaque? then [] else DecodedItems(p, items[1..]), items[1..]);
      assert [items[0]] + items[1..] == items;
    } else {
      assert ItemsShown(p, [], []);
    }
  }

  ghost predicate EntriesIn(p: Platform, before: seq<(string, Json)>, after: seq<(string, Json)>, es: seq<(Wire, Wire)>) {
    && Sorted(after)
    && (forall key :: Occurs(p, es, key) || Lookup(after, key) == Lookup(before, key))
    && (forall key :: Occurs(p, es, key) ==> Lookup(after, key).Some?)
    && forall i | 0 <= i < SeenEntries(es) && IsLast(p, es, i) ::
         Lookup(after, KeyTextOf(p, es[i].0)) == Some(Decoded(p, es[i].1))
  }

  lemma {:induction false} EntriesKept(p: Platform, members: seq<(string, Json)>, es: seq<(Wire, Wire)>)
    requires Sorted(members) && forall i | 0 <= i < |es| :: es[i].0.Leaf?
    ensures EntriesIn(p, members, DecodedEntries(p, members, es), es)
    decreases es
  {
    hide Decoded, KeyTextOf, Insert, Sorted, Lookup;
    if es != [] {
      var key, value := KeyTextOf(p, es[0].0), Decoded(p, ItemOf(es[0]));
      var inserted := Insert(members, key, value);
      InsertKeepsObject(members, key, value);
      if es[0].1.Opaque? {
        OneEntry(p, es);
      } else {
        EntriesKept(p, inserted, es[1..]);
        MoreEntries(p, members, inserted, DecodedEntries(p, inserted, es[1..]), es);
      }
    }
  }

  lemma OneEntry(p: Platform, es: seq<(Wire, Wire)>)
    requires es != [] && es[0].1.Opaque?
    ensures SeenEntries(es) == 1 && forall key :: Occurs(p, es, key) <==> key == KeyTextOf(p, es[0].0)
  {
    hide KeyTextOf;
    assert 0 < SeenEntries(es);
  }

  lemma MoreEntries(p: Platform, members: seq<(string, Json)>, inserted: seq<(string, Json)>, after: seq<(string, Json)>,
                    es: seq<(Wire, Wire)>)
    requires es != [] && !es[0].1.Opaque? && EntriesIn(p, inserted, after, es[1..])
    requires var (key, value) := (KeyTextOf(p, es[0].0), Decoded(p, es[0].1));
             forall k :: Lookup(inserted, k) == if k == key then Some(value) else Lookup(members, k)
    ensures EntriesIn(p, members, after, es)
  {
    hide Decoded, KeyTextOf, Lookup, Sorted;
    var rest, first := es[1..], KeyTextOf(p, es[0].0);
    forall key ensures Occurs(p, es, key) <==> key == first || Occurs(p, rest, key) {
      if i :| 0 <= i < SeenEntries(rest) && KeyTextOf(p, rest[i].0) == key { assert es[i + 1] == rest[i]; }
      if i :| 0 <= i < SeenEntries(es) && KeyTextOf(p, es[i].0) == key {
        if i > 0 { assert rest[i - 1] == es[i]; }
      }
      if key == first { assert KeyTextOf(p, es[0].0) == key && 0 < SeenEntries(es); }
    }
    forall i | 0 <= i < SeenEntries(es) && IsLast(p, es, i)
      ensures Lookup(after, KeyTextOf(p, es[i].0)) == Some(Decoded(p, es[i].1))
    {
      if i > 0 {
        assert rest[i - 1] == es[i];
        assert forall j | i - 1 < j < SeenEntries(rest) :: rest[j] == es[j + 1];
        assert IsLast(p, rest, i - 1);
      } else {
        assert forall j | 0 <= j < SeenEntries(rest) :: rest[j] == es[j + 1];
        assert !Occurs(p, rest, first);
      }
    }
  }

  lemma EntriesAreShown(p: Platform, members: seq<(string, Json)>, es: seq<(Wire, Wire)>)
    requires EntriesIn(p, [], members, es)
    requires forall i | 0 <= i < |es| :: Shows(p, Decoded(p, es[i].1), es[i].1)
    ensures EntriesShown(p, members, es)
  {
    hide Decoded, KeyTextOf, Shows, Sorted;
    forall key ensures Lookup(members, key).Some? <==> Occurs(p, es, key) {
      var none: seq<(string, Json)> := [];
      assert Lookup(none, key) == None;
    }
  }

  // ------------------------------------------------------------ replies

  /** A variant is shown as what it holds, however often it is boxed. */
  lemma BoxIsTransparent(p: Platform, w: Wire)
    ensures DecodedContent(p, Boxed(w)) == DecodedContent(p, w)
  {
  }

  /** What callMethod() gives back of a value of the reply shows it, as it would show a variant of it. */
  lemma ContentShows(p: Platform, w: Wire)
    requires Received(w)
    ensures Shows(p, DecodedContent(p, w), Boxed(w))
  {
    hide Received, Decoded;
    if !w.Opaque? { DecodedShows(p, w); }
  }

  /** It is accepted as an argument of the value's type, and stands for the value. */
  lemma ContentBack(p: Platform, w: Wire)
    requires WellTyped(w) && Plain(p, w) && Valid(WireType(w))
    ensures var j, sig := DecodedContent(p, w), Print(WireType(w));
            && IsSingle(sig) && Accepts(p, j, TypeOf(sig), 0) && Value(p, j, TypeOf(sig), 0) == Canonical(p, w)
            && DecodedContent(p, Boxed(w)) == j
  {
    BoxIsTransparent(p, w);
    ReplyRoundTrip(p, w);
    assert !w.Opaque?;
    hide Accepts, Value, Canonical, Decoded, WellTyped;
  }

  /** A variant goes back as a variant when its type is named. */
  lemma VariantBack(p: Platform, w: Wire)
    requires WellTyped(w) && Plain(p, w) && Valid(WireType(w)) && 1 + Depth(WireType(w)) <= MAX_MESSAGE_DEPTH
    ensures var j := Box(Print(WireType(w)), DecodedContent(p, Boxed(w)));
            Accepts(p, j, Variant, 0) && Value(p, j, Variant, 0) == Canonical(p, Boxed(w))
  {
    BoxIsTransparent(p, w);
    SingleComplete(WireType(w));
    ReplyBack(p, w, 1);
    BoxAccepted(p, Print(WireType(w)), DecodedContent(p, Boxed(w)));
    assert !w.Opaque?;
    hide Accepts, Value, Decoded, WellTyped;
  }

  /** What is in all the boxes. */
  function Core(w: Wire): Wire {
    if w.Boxed? then Core(w.content) else w
  }

  /** The marker is the JSON of the elements of unknown type, and of the text that reads like it. */
  lemma {:induction false} MarkerExactly(p: Platform, w: Wire)
    requires Received(w)
    ensures DecodedContent(p, w) == String("<unrepresentable:>") <==>
            Core(w).Opaque? || Core(w) == Leaf(Text("<unrepresentable:>"))
  {
    match w
    case Boxed(c) =>
      BoxIsTransparent(p, c);
      MarkerExactly(p, c);
    case Opaque(_) =>
    case Leaf(l) =>
      LeafIsShown(l);
      MarkerIsNoValue(l);
    case Sequence(_, items) =>
      ContentShows(p, w);
      MarkerIsNoBase64();
    case Mapping(_, _, _) =>
    case Tuple(_) =>
  }

  lemma MarkerIsNoBase64()
    ensures Decode("<unrepresentable:>") == None
  {
    assert "<unrepresentable:>"[0] == '<';
  }

  lemma MarkerIsNoValue(l: Leaf)
    ensures LeafShown(String("<unrepresentable:>"), l) <==> l == Text("<unrepresentable:>")
  {
    hide MathValue, IsObjectPath, Split;
    MarkerIsNoNumber();
    MarkerIsNoName();
    if l.Int? && IsIntegerCode(l.code) { CoerceIntegerExact(String("<unrepresentable:>"), l.code); }
  }

  lemma MarkerIsNoName()
    ensures Split("<unrepresentable:>") == [] && !IsObjectPath("<unrepresentable:>")
    ensures "<unrepresentable:>" != "<unix fd: not transferable over MCP>"
  {
    var s := "<unrepresentable:>";
    assert ParseType(s, 0, 0, 0).None?;
    assert |s| == 18 && |"<unix fd: not transferable over MCP>"| == 36;
  }

  lemma MarkerIsNoNumber()
    ensures MathValue(String("<unrepresentable:>")) == None
  {
    var s := "<unrepresentable:>";
    assert s[0] == '<' && |s| == 18 && s[17] == '>';
    NothingToTrim(s);
    assert !AllDigits(s);
  }

  // ------------------------------------------------------------ the natural mapping read back

  /** An integer of JSON goes out in the smaller of the two signed types that holds it, any other number
      as a double. */
  lemma NaturalNumber(i: int, r: real)
    ensures NaturalLeaf(Number(i as real)) ==
            if -0x8000_0000 <= i < 0x8000_0000 then Int('i', i)
            else if -0x8000_0000_0000_0000 <= i < 0x8000_0000_0000_0000 then Int('x', i)
            else Real(i as real)
    ensures r != r.Floor as real ==> NaturalLeaf(Number(r)) == Real(r)
  {
    assert (i as real).Floor == i;
  }

  /** The JSON as a reply shows it: integers that a double cannot hold are texts. */
  function AsShown(value: Json): Json {
    match value
    case Number(r) =>
      if r == r.Floor as real && !(-0x20_0000_0000_0000 <= r.Floor <= 0x20_0000_0000_0000)
         && -0x8000_0000_0000_0000 <= r.Floor < 0x8000_0000_0000_0000
      then String(Decimal(r.Floor)) else value
    case List(items) => List(AllAsShown(items))
    case Object(members) => Object(MembersAsShown(members))
    case _ => value
  }

  function AllAsShown(items: seq<Json>): (r: seq<Json>)
    ensures |r| == |items| && forall i | 0 <= i < |items| :: r[i] == AsShown(items[i])
  {
    if items == [] then [] else [AsShown(items[0])] + AllAsShown(items[1..])
  }

  function MembersAsShown(members: seq<(string, Json)>): (r: seq<(string, Json)>)
    ensures |r| == |members|
    ensures forall i | 0 <= i < |members| :: r[i] == (members[i].0, AsShown(ValueOf(members[i])))
  {
    if members == [] then [] else [(members[0].0, AsShown(ValueOf(members[0])))] + MembersAsShown(members[1..])
  }

  /** Every object is as JSON keeps it. */
  ghost predicate InKeyOrder(value: Json) {
    match value
    case List(items) => forall i | 0 <= i < |items| :: InKeyOrder(items[i])
    case Object(members) => Sorted(members) && forall i | 0 <= i < |members| :: InKeyOrder(members[i].1)
    case _ => true
  }

  /** What the natural mapping sends is shown as the JSON it was made from. */
  lemma {:induction false} NaturalBack(p: Platform, value: Json)
    requires NoNull(value) && InKeyOrder(value)
    ensures var w := Denote(p, NaturalVariant(value));
            w.Some? && !w.value.Opaque? && Decoded(p, w.value) == AsShown(value)
    decreases value, 0
  {
    hide NaturalLeaf, LeafToJson;
    match value
    case List(items) => ItemsBackNaturally(p, items);
    case Object(members) => MembersBackNaturally(p, [], members);
    case _ => ScalarBack(value);
  }

  lemma ScalarBack(value: Json)
    requires value.Bool? || value.Number? || value.String?
    ensures LeafToJson(NaturalLeaf(value)) == AsShown(value)
  {
    if value.Number? && value.number == value.number.Floor as real { NaturalNumber(value.number.Floor, value.number); }
  }

  lemma {:induction false} ItemsBackNaturally(p: Platform, items: seq<Json>)
    requires forall i | 0 <= i < |items| :: NoNull(items[i]) && InKeyOrder(items[i])
    ensures var ws := DenoteItems(p, NaturalVariants(items));
            ws.Some? && DecodedItems(p, ws.value) == AllAsShown(items)
    decreases items, 1
  {
    hide NoNull, InKeyOrder, NaturalVariant, Denote, AsShown;
    if items != [] {
      NaturalBack(p, items[0]);
      ItemsBackNaturally(p, items[1..]);
      assert NaturalVariants(items)[1..] == NaturalVariants(items[1..]);
      var w, ws := Denote(p, NaturalVariant(items[0])).value, DenoteItems(p, NaturalVariants(items[1..])).value;
      assert ([Boxed(w)] + ws)[1..] == ws;
      assert Decoded(p, Boxed(w)) == Decoded(p, w);
      assert DecodedItems(p, [Boxed(w)] + ws) == [Decoded(p, Boxed(w))] + DecodedItems(p, ws);
    }
  }

  /** The highest key so far goes last. */
  lemma {:induction false} InsertLast<V>(members: seq<(string, V)>, key: string, value: V)
    requires forall i | 0 <= i < |members| :: Less(members[i].0, key)
    ensures Insert(members, key, value) == members + [(key, value)]
  {
    if members != [] {
      LessIsOrder(members[0].0, key, members[0].0);
      InsertLast(members[1..], key, value);
      assert members == [members[0]] + members[1..];
    }
  }

  lemma {:induction false} MembersBackNaturally(p: Platform, before: seq<(string, Json)>, members: seq<(string, Json)>)
    requires forall i | 0 <= i < |members| :: NoNull(members[i].1) && InKeyOrder(members[i].1)
    requires Sorted(before + members)
    ensures var es := DenoteEntries(p, NaturalVariantEntries(members));
            es.Some? && DecodedEntries(p, before, es.value) == before + MembersAsShown(members)
    decreases members, 1
  {
    hide NoNull, InKeyOrder, NaturalVariant, Denote, DecodedEntries, NaturalVariantEntries, DenoteEntries, AsShown, Less;
    if members == [] {
      NoMembers(p, before);
    } else {
      NaturalBack(p, ValueOf(members[0]));
      EntriesDenoted(p, members);
      StillSorted(before, members, AsShown(ValueOf(members[0])));
      hide Sorted;
      var w := Denote(p, NaturalVariant(ValueOf(members[0]))).value;
      var more := before + [(members[0].0, AsShown(ValueOf(members[0])))];
      MembersBackNaturally(p, more, members[1..]);
      MoreDecoded(p, before, members, w, DenoteEntries(p, NaturalVariantEntries(members[1..])).value);
      assert more + MembersAsShown(members[1..]) == before + MembersAsShown(members);
    }
  }

  lemma NoMembers(p: Platform, before: seq<(string, Json)>)
    ensures DenoteEntries(p, NaturalVariantEntries([])) == Some([])
    ensures DecodedEntries(p, before, []) == before == before + MembersAsShown([])
  {
  }

  lemma EntriesDenoted(p: Platform, members: seq<(string, Json)>)
    requires members != []
    ensures var w, es := Denote(p, NaturalVariant(ValueOf(members[0]))), DenoteEntries(p, NaturalVariantEntries(members[1..]));
            w.Some? && es.Some? ==>
              DenoteEntries(p, NaturalVariantEntries(members)) ==
              Some([(Leaf(Text(members[0].0)), Boxed(w.value))] + es.value)
  {
    hide NaturalVariant, Denote;
    assert NaturalVariantEntries(members)[1..] == NaturalVariantEntries(members[1..]);
  }

  lemma MoreDecoded(p: Platform, before: seq<(string, Json)>, members: seq<(string, Json)>, w: Wire, es: seq<(Wire, Wire)>)
    requires members != [] && Sorted(before + members)
    requires !w.Opaque? && Decoded(p, w) == AsShown(members[0].1)
    ensures DecodedEntries(p, before, [(Leaf(Text(members[0].0)), Boxed(w))] + es) ==
            DecodedEntries(p, before + [(members[0].0, AsShown(ValueOf(members[0])))], es)
  {
    hide AsShown, Insert, Less;
    assert forall i | 0 <= i < |before| :: (before + members)[i] == before[i];
    assert (before + members)[|before|] == members[0];
    InsertLast(before, members[0].0, AsShown(ValueOf(members[0])));
    hide Sorted;
    var entry := (Leaf(Text(members[0].0)), Boxed(w));
    assert ([entry] + es)[1..] == es && ([entry] + es)[0] == entry;
    assert Decoded(p, ItemOf(entry)) == Decoded(p, w);
    assert KeyTextOf(p, entry.0) == members[0].0;
  }

  lemma StillSorted(before: seq<(string, Json)>, members: seq<(string, Json)>, value: Json)
    requires members != [] && Sorted(before + members)
    ensures Sorted(before + [(members[0].0, value)] + members[1..])
  {
    hide Less;
    var a, b := before + members, before + [(members[0].0, value)] + members[1..];
    assert |a| == |b| && forall i | 0 <= i < |a| :: a[i].0 == b[i].0;
  }

  /** So is the content of a variant for which no type is named. */
  lemma NaturalContentBack(p: Platform, value: Json, depth: nat)
    requires NothingExplicit(value) && AcceptsVariant(p, value, depth) && InKeyOrder(value)
    ensures Denote(p, NaturalVariant(value)) == Some(ContentValue(p, value, depth))
    ensures Decoded(p, ContentValue(p, value, depth)) == AsShown(value)
  {
    NaturalDepthDecides(p, value, depth);
    NaturalBack(p, value);
    ContentIsNatural(p, value, depth);
    hide Denote, NaturalVariant, ContentValue, AcceptsVariant, Decoded, AsShown;
  }

  lemma {:induction false} ContentIsNatural(p: Platform, value: Json, depth: nat)
    requires NothingExplicit(value) && AcceptsVariant(p, value, depth)
    ensures Denote(p, NaturalVariant(value)) == Some(ContentValue(p, value, depth))
    decreases value, 0
  {
    hide Accepts, AcceptsExplicit, IsExplicit;
    match value
    case List(items) => ItemsAreNatural(p, items, depth + 2);
    case Object(members) => MembersAreNatural(p, members, depth + 3);
    case _ =>
  }

  lemma {:induction false} ItemsAreNatural(p: Platform, items: seq<Json>, depth: nat)
    requires forall i | 0 <= i < |items| :: NothingExplicit(items[i]) && AcceptsVariant(p, items[i], depth)
    ensures DenoteItems(p, NaturalVariants(items)) == Some(NaturalItems(p, items, depth))
    decreases items, 1
  {
    hide NothingExplicit, AcceptsVariant, Denote, NaturalVariant, ContentValue;
    if items != [] {
      ContentIsNatural(p, items[0], depth);
      ItemsAreNatural(p, items[1..], depth);
      assert NaturalVariants(items)[1..] == NaturalVariants(items[1..]);
    }
  }

  lemma {:induction false} MembersAreNatural(p: Platform, members: seq<(string, Json)>, depth: nat)
    requires forall i | 0 <= i < |members| :: NothingExplicit(members[i].1) && AcceptsVariant(p, members[i].1, depth)
    ensures DenoteEntries(p, NaturalVariantEntries(members)) == Some(NaturalEntries(p, members, depth))
    decreases members, 1
  {
    hide NothingExplicit, AcceptsVariant, Denote, NaturalVariant, ContentValue;
    if members != [] {
      ContentIsNatural(p, ValueOf(members[0]), depth);
      MembersAreNatural(p, members[1..], depth);
      assert NaturalVariantEntries(members)[1..] == NaturalVariantEntries(members[1..]);
    }
  }
}
