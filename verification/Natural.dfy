/** The natural mapping of DBusBridge (dbusbridge.cpp:37-52, 196-232), used when no signature is
    known, and its agreement with the one the coercer applies inside variants. */
module Natural {
  import opened Json
  import opened Wire
  import opened Coercer
  import opened Values
  import opened Marshalling
  import opened Builder

  // ------------------------------------------------------------ depth

  /** The deepest level that `value` reaches when mapped below `depth` open containers. */
  ghost function FullDepth(value: Json, depth: nat): (r: nat)
    ensures r >= depth
    decreases value
  {
    match value
    case List(items) => DeepestItem(items, depth, depth + 2)
    case Object(members) => DeepestMember(members, depth, depth + 3)
    case _ => depth
  }

  ghost function DeepestItem(items: seq<Json>, least: nat, depth: nat): (r: nat)
    ensures r >= least
    decreases items
  {
    if items == [] then least else Signatures.Max(FullDepth(items[0], depth), DeepestItem(items[1..], least, depth))
  }

  ghost function DeepestMember(members: seq<(string, Json)>, least: nat, depth: nat): (r: nat)
    ensures r >= least
    decreases members
  {
    if members == [] then least
    else Signatures.Max(FullDepth(ValueOf(members[0]), depth), DeepestMember(members[1..], least, depth))
  }

  lemma DeepestItemIs(items: seq<Json>, least: nat, depth: nat, bound: nat)
    ensures DeepestItem(items, least, depth) <= bound <==>
            least <= bound && forall i | 0 <= i < |items| :: FullDepth(items[i], depth) <= bound
  {
    if items != [] {
      DeepestItemIs(items[1..], least, depth, bound);
      assert forall i | 1 <= i < |items| :: items[i] == items[1..][i - 1];
    }
  }

  lemma DeepestMemberIs(members: seq<(string, Json)>, least: nat, depth: nat, bound: nat)
    ensures DeepestMember(members, least, depth) <= bound <==>
            least <= bound && forall i | 0 <= i < |members| :: FullDepth(members[i].1, depth) <= bound
  {
    if members != [] {
      DeepestMemberIs(members[1..], least, depth, bound);
      assert forall i | 1 <= i < |members| :: members[i] == members[1..][i - 1];
    }
  }

  /** naturalDepth(): the early return leaves open how deep a value is that is too deep. */
  method NaturalDepth(value: Json, depth: nat) returns (deepest: nat)
    ensures deepest <= MAX_MESSAGE_DEPTH <==> FullDepth(value, depth) <= MAX_MESSAGE_DEPTH
    ensures deepest <= MAX_MESSAGE_DEPTH ==> deepest == FullDepth(value, depth)
    decreases value
  {
    if depth > MAX_MESSAGE_DEPTH {
      return depth;
    }
    deepest := depth;
    if value.List? {
      var items := value.items;
      assert items[0..] == items;
      for i := 0 to |items|
        invariant Agree(Signatures.Max(deepest, DeepestItem(items[i..], depth, depth + 2)), FullDepth(value, depth))
        invariant deepest >= depth
      {
        assert items[i..][0] == items[i] && items[i..][1..] == items[i + 1..];
        var nested := NaturalDepth(items[i], depth + 2);
        deepest := Signatures.Max(deepest, nested);
      }
    } else if value.Object? {
      var members := value.members;
      assert members[0..] == members;
      for i := 0 to |members|
        invariant Agree(Signatures.Max(deepest, DeepestMember(members[i..], depth, depth + 3)), FullDepth(value, depth))
        invariant deepest >= depth
      {
        assert members[i..][0] == members[i] && members[i..][1..] == members[i + 1..];
        var nested := NaturalDepth(ValueOf(members[i]), depth + 3);
        deepest := Signatures.Max(deepest, nested);
      }
    }
  }

  ghost predicate Agree(counted: nat, full: nat) {
    counted == full || (counted > MAX_MESSAGE_DEPTH && full > MAX_MESSAGE_DEPTH)
  }

  // ------------------------------------------------------------ content

  function NaturalVariant(value: Json): QVariant
    decreases value
  {
    match value
    case Null => QInvalid
    case List(items) => QVariantList(NaturalVariants(items))
    case Object(members) => QVariantMap(NaturalVariantEntries(members))
    case _ => QBasic(NaturalLeaf(value))
  }

  function NaturalVariants(items: seq<Json>): seq<QVariant>
    decreases items
  {
    if items == [] then [] else [NaturalVariant(items[0])] + NaturalVariants(items[1..])
  }

  function NaturalVariantEntries(members: seq<(string, Json)>): seq<(string, QVariant)>
    decreases members
  {
    if members == [] then []
    else [(members[0].0, NaturalVariant(ValueOf(members[0])))] + NaturalVariantEntries(members[1..])
  }

  /** jsonToVariant(), with its loops. */
  method JsonToVariant(value: Json) returns (q: QVariant)
    ensures q == NaturalVariant(value)
    decreases value
  {
    match value
    case Null => q := QInvalid;
    case List(items) =>
      var list: seq<QVariant> := [];
      assert items[0..] == items;
      for i := 0 to |items|
        invariant list + NaturalVariants(items[i..]) == NaturalVariants(items)
      {
        assert items[i..][0] == items[i] && items[i..][1..] == items[i + 1..];
        var element := JsonToVariant(items[i]);
        list := list + [element];
      }
      q := QVariantList(list);
    case Object(members) =>
      var entries: seq<(string, QVariant)> := [];
      assert members[0..] == members;
      for i := 0 to |members|
        invariant entries + NaturalVariantEntries(members[i..]) == NaturalVariantEntries(members)
      {
        assert members[i..][0] == members[i] && members[i..][1..] == members[i + 1..];
        var element := JsonToVariant(ValueOf(members[i]));
        entries := entries + [(members[i].0, element)];
      }
      q := QVariantMap(entries);
    case _ => q := QBasic(NaturalLeaf(value));
  }

  // ------------------------------------------------------------ agreement with the coercer

  /** No part of `value` names its type with "@dbus". */
  predicate NothingExplicit(value: Json) {
    && !IsExplicit(value)
    && match value
       case List(items) => forall i | 0 <= i < |items| :: NothingExplicit(items[i])
       case Object(members) => forall i | 0 <= i < |members| :: NothingExplicit(members[i].1)
       case _ => true
  }

  predicate NoNull(value: Json) {
    match value
    case Null => false
    case List(items) => forall i | 0 <= i < |items| :: NoNull(items[i])
    case Object(members) => forall i | 0 <= i < |members| :: NoNull(members[i].1)
    case _ => true
  }

  /** Inside a variant the coercer accepts exactly what the natural depth allows, nulls aside. */
  lemma {:induction false} NaturalDepthDecides(p: Platform, value: Json, depth: nat)
    requires NothingExplicit(value)
    ensures AcceptsVariant(p, value, depth) <==> NoNull(value) && FullDepth(value, depth) <= MAX_MESSAGE_DEPTH
    decreases value
  {
    hide Accepts, AcceptsExplicit, IsExplicit;
    if value.List? {
      DeepestItemIs(value.items, depth, depth + 2, MAX_MESSAGE_DEPTH);
      forall i | 0 <= i < |value.items|
        ensures AcceptsVariant(p, value.items[i], depth + 2) <==>
                NoNull(value.items[i]) && FullDepth(value.items[i], depth + 2) <= MAX_MESSAGE_DEPTH
      {
        NaturalDepthDecides(p, value.items[i], depth + 2);
      }
    } else if value.Object? {
      DeepestMemberIs(value.members, depth, depth + 3, MAX_MESSAGE_DEPTH);
      forall i | 0 <= i < |value.members|
        ensures AcceptsVariant(p, value.members[i].1, depth + 3) <==>
                NoNull(value.members[i].1) && FullDepth(value.members[i].1, depth + 3) <= MAX_MESSAGE_DEPTH
      {
        NaturalDepthDecides(p, ValueOf(value.members[i]), depth + 3);
      }
    }
  }

  /** ... and builds the same content. */
  lemma {:induction false} NaturalContentAgrees(p: Platform, value: Json, depth: nat)
    requires NothingExplicit(value) && AcceptsVariant(p, value, depth)
    ensures Content(p, value, depth) == NaturalVariant(value)
    decreases value, 0
  {
    hide Accepts, AcceptsExplicit, IsExplicit;
    if value.List? {
      ItemsAgree(p, value.items, depth + 2);
    } else if value.Object? {
      MembersAgree(p, value.members, depth + 3);
    }
  }

  lemma {:induction false} ItemsAgree(p: Platform, items: seq<Json>, depth: nat)
    requires forall i | 0 <= i < |items| :: NothingExplicit(items[i]) && AcceptsVariant(p, items[i], depth)
    ensures ContentOfItems(p, items, depth) == NaturalVariants(items)
    decreases items, 1
  {
    if items != [] {
      NaturalContentAgrees(p, items[0], depth);
      ItemsAgree(p, items[1..], depth);
    }
  }

  lemma {:induction false} MembersAgree(p: Platform, members: seq<(string, Json)>, depth: nat)
    requires forall i | 0 <= i < |members| ::
               NothingExplicit(members[i].1) && AcceptsVariant(p, members[i].1, depth)
    ensures ContentOfMembers(p, members, depth) == NaturalVariantEntries(members)
    decreases members, 1
  {
    if members != [] {
      NaturalContentAgrees(p, ValueOf(members[0]), depth);
      MembersAgree(p, members[1..], depth);
    }
  }

  // ------------------------------------------------------------ what is sent

  /** An argument mapped naturally can be sent if and only if it holds no null; it then is well
      typed and, when its natural depth is allowed, within the limits of a message. */
  lemma {:induction false} NaturalSendable(p: Platform, value: Json, depth: nat)
    ensures var w := Denote(p, NaturalVariant(value));
            && (w.Some? <==> NoNull(value))
            && (w.Some? ==> WellTyped(w.value))
            && (w.Some? && FullDepth(value, depth) <= MAX_MESSAGE_DEPTH ==> Within(w.value, depth, 0, 0))
    decreases value, 0
  {
    if value.List? {
      ItemsSendable(p, value.items, depth, depth + 2);
    } else if value.Object? {
      MembersSendable(p, value.members, depth, depth + 3);
    }
  }

  lemma {:induction false} ItemsSendable(p: Platform, items: seq<Json>, least: nat, depth: nat)
    requires depth >= 2
    ensures var ws := DenoteItems(p, NaturalVariants(items));
            && (ws.Some? <==> forall i | 0 <= i < |items| :: NoNull(items[i]))
            && (ws.Some? ==> forall i | 0 <= i < |ws.value| :: HasType(ws.value[i], Signatures.Variant))
            && (ws.Some? && DeepestItem(items, least, depth) <= MAX_MESSAGE_DEPTH ==>
                 forall i | 0 <= i < |ws.value| :: Within(ws.value[i], depth - 1, 1, 0))
    decreases items, 1
  {
    if items != [] {
      NaturalSendable(p, items[0], depth);
      ItemsSendable(p, items[1..], least, depth);
      var first, rest := Denote(p, NaturalVariant(items[0])), DenoteItems(p, NaturalVariants(items[1..]));
      assert NaturalVariants(items)[1..] == NaturalVariants(items[1..]);
      assert forall i | 1 <= i < |items| :: items[i] == items[1..][i - 1];
      if first.Some? && rest.Some? {
        assert WellTyped(Boxed(first.value));
        if DeepestItem(items, least, depth) <= MAX_MESSAGE_DEPTH { assert Within(Boxed(first.value), depth - 1, 1, 0); }
      }
    }
  }

  lemma {:induction false} MembersSendable(p: Platform, members: seq<(string, Json)>, least: nat, depth: nat)
    requires depth >= 3
    ensures var es := DenoteEntries(p, NaturalVariantEntries(members));
            && (es.Some? <==> forall i | 0 <= i < |members| :: NoNull(members[i].1))
            && (es.Some? ==>
                 forall i | 0 <= i < |es.value| ::
                   es.value[i].0.Leaf? && es.value[i].0.leaf.Text? && HasType(es.value[i].1, Signatures.Variant))
            && (es.Some? && DeepestMember(members, least, depth) <= MAX_MESSAGE_DEPTH ==>
                 forall i | 0 <= i < |es.value| ::
                   Within(es.value[i].0, depth - 1, 1, 1) && Within(es.value[i].1, depth - 1, 1, 1))
    decreases members, 1
  {
    if members != [] {
      NaturalSendable(p, ValueOf(members[0]), depth);
      MembersSendable(p, members[1..], least, depth);
      var first := Denote(p, NaturalVariant(ValueOf(members[0])));
      var rest := DenoteEntries(p, NaturalVariantEntries(members[1..]));
      assert NaturalVariantEntries(members)[1..] == NaturalVariantEntries(members[1..]);
      assert forall i | 1 <= i < |members| :: members[i] == members[1..][i - 1];
      if first.Some? && rest.Some? {
        assert WellTyped(Boxed(first.value));
        if DeepestMember(members, least, depth) <= MAX_MESSAGE_DEPTH {
          assert Within(Boxed(first.value), depth - 1, 1, 1);
        }
      }
    }
  }
}
