/** Pass 1 of the coercer (typecoercer.cpp:416-618): which JSON trees a signature accepts.

`Accepts` states it on the parsed type; `CheckValue` and `CheckVariant` are the source's recursion
on the text of the signature, with its loops and early returns. */
module Coercer {
  import opened Wrappers
  import opened Json
  import opened Integers
  import opened Texts
  import opened Signatures
  import opened Scanner
  import opened Wire

  function CoerceBasic(value: Json, code: char): Option<Leaf> {
    if IsIntegerCode(code) then
      var i :- CoerceInteger(value, code);
      Some(Int(code, i))
    else
      match code
      case 'b' => if value.Bool? then Some(Flag(value.flag)) else None
      case 'd' => if value.Number? then Some(Real(value.number)) else None
      case 's' => if value.String? then Some(Text(value.text)) else None
      case 'o' => if value.String? && IsObjectPath(value.text) then Some(Path(value.text)) else None
      case 'g' =>
        if value.String? && (value.text == "" || Split(value.text) != []) then Some(Sig(value.text)) else None
      case _ => None
  }

  /** What a member's name is checked and built as, when it is to be a dict key of type `code`. */
  function KeyValue(p: Platform, key: string, code: char): Json {
    match code
    case 'd' => (match p.doubles.read(key) case Some(r) => Number(r) case None => String(key))
    case 'b' => if key == "true" then Bool(true) else if key == "false" then Bool(false) else String(key)
    case _ => String(key)
  }

  function CoerceKey(p: Platform, key: string, code: char): Option<Leaf> {
    CoerceBasic(KeyValue(p, key, code), code)
  }

  function CoerceByte(value: Json): Option<byte> {
    var b :- CoerceInteger(value, 'y');
    CoerceIntegerExact(value, 'y');
    Some(b as byte)
  }

  function BytesOf(items: seq<Json>): Option<seq<byte>> {
    if items == [] then Some([])
    else
      var b :- CoerceByte(items[0]);
      var rest :- BytesOf(items[1..]);
      Some([b] + rest)
  }

  function CoerceBytes(value: Json): Option<seq<byte>> {
    match value
    case String(s) => Decode(s)
    case List(items) => BytesOf(items)
    case _ => None
  }

  /** A list stands for bytes when each item is one; the bytes are theirs, in order. */
  lemma {:induction false} BytesOfItems(items: seq<Json>)
    ensures BytesOf(items).Some? <==> forall i | 0 <= i < |items| :: CoerceInteger(items[i], 'y').Some?
    ensures BytesOf(items).Some? ==>
              && |BytesOf(items).value| == |items|
              && forall i | 0 <= i < |items| :: CoerceInteger(items[i], 'y') == Some(BytesOf(items).value[i] as int)
  {
    hide CoerceInteger;
    if items != [] {
      BytesOfItems(items[1..]);
      assert forall i | 1 <= i < |items| :: items[i] == items[1..][i - 1];
    }
  }

  // ------------------------------------------------------------ what is accepted

  predicate IsExplicit(value: Json) {
    value.Object? && Lookup(value.members, "@dbus").Some?
  }

  function ExplicitText(value: Json): string
    requires IsExplicit(value)
  {
    var inner := Lookup(value.members, "@dbus").value;
    if inner.String? then inner.text else ""
  }

  /** `value` can be sent as a `t`, with `depth` containers open around it. */
  predicate Accepts(p: Platform, value: Json, t: Type, depth: nat)
    decreases value, 2
  {
    && depth <= MAX_MESSAGE_DEPTH
    && match t
       case Basic(c) => CoerceBasic(value, c).Some?
       case Variant => AcceptsVariant(p, value, depth + 1)
       case Array(Basic('y')) => CoerceBytes(value).Some?
       case Array(Basic('s')) => value.List? && forall i | 0 <= i < |value.items| :: value.items[i].String?
       case Array(e) =>
         && p.Known(e) && value.List?
         && forall i | 0 <= i < |value.items| :: Accepts(p, value.items[i], e, depth + 1)
       case Dict(k, v) =>
         && k != 'h' && p.Known(v) && value.Object?
         && forall i | 0 <= i < |value.members| ::
              CoerceKey(p, value.members[i].0, k).Some? && Accepts(p, value.members[i].1, v, depth + 2)
       case Struct(fs) =>
         && value.List? && |value.items| == |fs|
         && forall i | 0 <= i < |fs| :: Accepts(p, value.items[i], fs[i], depth + 1)
  }

  /** `value` fits in a variant that is itself the container number `depth`. */
  predicate AcceptsVariant(p: Platform, value: Json, depth: nat)
    decreases value, 1
  {
    && depth <= MAX_MESSAGE_DEPTH
    && if IsExplicit(value) then AcceptsExplicit(p, value, depth)
       else
         match value
         case List(items) => forall i | 0 <= i < |items| :: AcceptsVariant(p, items[i], depth + 2)
         case Object(members) => forall i | 0 <= i < |members| :: AcceptsVariant(p, members[i].1, depth + 3)
         case Null => false
         case _ => true
  }

  /** `value` names its type, which is one complete type that fits, and holds a value of it. */
  predicate AcceptsExplicit(p: Platform, value: Json, depth: nat)
    requires IsExplicit(value)
    decreases value, 0
  {
    && IsSingle(ExplicitText(value))
    && depth + Depth(TypeOf(ExplicitText(value))) <= MAX_MESSAGE_DEPTH
    && Lookup(value.members, "value").Some?
    && Accepts(p, Lookup(value.members, "value").value, TypeOf(ExplicitText(value)), depth)
  }

  function ExplicitValue(p: Platform, value: Json, depth: nat): Json
    requires IsExplicit(value) && AcceptsExplicit(p, value, depth)
  {
    Lookup(value.members, "value").value
  }

  function ExplicitType(p: Platform, value: Json, depth: nat): Type
    requires IsExplicit(value) && AcceptsExplicit(p, value, depth)
  {
    TypeOf(ExplicitText(value))
  }

  lemma ExplicitParts(p: Platform, value: Json, depth: nat)
    requires IsExplicit(value) && AcceptsExplicit(p, value, depth)
    ensures var t := ExplicitType(p, value, depth);
            && Valid(t) && Print(t) == ExplicitText(value) && depth + Depth(t) <= MAX_MESSAGE_DEPTH
            && Accepts(p, ExplicitValue(p, value, depth), t, depth)
    ensures Lookup(value.members, "value") == Some(ExplicitValue(p, value, depth))
    ensures ExplicitValue(p, value, depth) < value
  {
    SingleSound(ExplicitText(value));
  }

  lemma NullRejected(p: Platform, t: Type, depth: nat)
    ensures !Accepts(p, Null, t, depth)
  {
  }

  // ------------------------------------------------------------ the check itself

  function Weight(value: Json): nat {
    match value
    case List(items) => 1 + WeightItems(items)
    case Object(members) => 1 + WeightMembers(members)
    case _ => 1
  }

  function WeightItems(items: seq<Json>): nat {
    if items == [] then 0 else Weight(items[0]) + WeightItems(items[1..])
  }

  function WeightMembers(members: seq<(string, Json)>): nat {
    if members == [] then 0
    else Weight(ValueOf(members[0])) + WeightMembers(members[1..])
  }

  lemma ItemIsLighter(items: seq<Json>, i: nat)
    requires i < |items|
    ensures Weight(items[i]) <= WeightItems(items)
  {
    if i > 0 { ItemIsLighter(items[1..], i - 1); }
  }

  lemma MemberIsLighter(members: seq<(string, Json)>, i: nat)
    requires i < |members|
    ensures Weight(members[i].1) <= WeightMembers(members)
  {
    if i > 0 { MemberIsLighter(members[1..], i - 1); }
  }

  lemma LookupIsLighter(members: seq<(string, Json)>, key: string)
    ensures Lookup(members, key).Some? ==> Weight(Lookup(members, key).value) <= WeightMembers(members)
  {
  }

  lemma BytesOfAppended(items: seq<Json>, item: Json)
    ensures var b := CoerceByte(item);
            BytesOf(items + [item]) ==
            if BytesOf(items).None? || b.None? then None
            else Some(BytesOf(items).value + [b.value])
  {
    if items == [] {
      assert [item][1..] == [];
      assert items + [item] == [item];
      var b := CoerceByte(item);
      if b.Some? { assert [b.value] + [] == [b.value] == [] + [b.value]; }
    } else {
      BytesOfAppended(items[1..], item);
      assert (items + [item])[0] == items[0];
      var first, rest, last := CoerceByte(items[0]), BytesOf(items[1..]), CoerceByte(item);
      if first.Some? && rest.Some? && last.Some? {
        assert [first.value] + (rest.value + [last.value]) == ([first.value] + rest.value) + [last.value];
      }
      assert (items + [item])[1..] == items[1..] + [item];
    }
  }

  lemma BytesOfPrefix(items: seq<Json>, n: nat)
    requires n <= |items|
    ensures BytesOf(items[..n]).None? ==> BytesOf(items).None?
  {
    if n > 0 {
      BytesOfPrefix(items[1..], n - 1);
      assert items[..n][1..] == items[1..][..n - 1];
    }
  }

  /** coerceByteArray(): base64 text, or a list of byte numbers. */
  method CoerceByteArray(value: Json) returns (bytes: Option<seq<byte>>)
    ensures bytes == CoerceBytes(value)
  {
    if value.String? {
      return Decode(value.text);
    }
    if !value.List? {
      return None;
    }
    var appended: seq<byte> := [];
    var items := value.items;
    for i := 0 to |items|
      invariant BytesOf(items[..i]) == Some(appended)
    {
      var b := CoerceByte(items[i]);
      BytesOfAppended(items[..i], items[i]);
      assert items[..i] + [items[i]] == items[..i + 1];
      if b.None? {
        BytesOfPrefix(items, i + 1);
        return None;
      }
      appended := appended + [b.value];
    }
    assert items[..|items|] == items;
    return Some(appended);
  }

  method CheckVariant(p: Platform, value: Json, depth: nat) returns (ok: bool)
    ensures ok == AcceptsVariant(p, value, depth)
    decreases Weight(value), 1
  {
    hide CoerceBasic, CoerceBytes;
    if depth > MAX_MESSAGE_DEPTH {
      return false;
    }
    if IsExplicit(value) {
      ok := CheckExplicit(p, value, depth);
      return;
    }
    match value
    case List(items) =>
      for i := 0 to |items|
        invariant forall k | 0 <= k < i :: AcceptsVariant(p, items[k], depth + 2)
      {
        ItemIsLighter(items, i);
        ok := CheckVariant(p, items[i], depth + 2);
        if !ok {
          return;
        }
      }
      ok := true;
    case Object(members) =>
      for i := 0 to |members|
        invariant forall k | 0 <= k < i :: AcceptsVariant(p, members[k].1, depth + 3)
      {
        MemberIsLighter(members, i);
        ok := CheckVariant(p, members[i].1, depth + 3);
        if !ok {
          return;
        }
      }
      ok := true;
    case Null =>
      ok := false;
    case _ =>
      ok := true;
  }

  /** The "@dbus" branch of checkVariant(). */
  method CheckExplicit(p: Platform, value: Json, depth: nat) returns (ok: bool)
    requires IsExplicit(value) && depth <= MAX_MESSAGE_DEPTH
    ensures ok == AcceptsExplicit(p, value, depth)
    decreases Weight(value), 0
  {
    hide CoerceBasic, CoerceBytes;
    var text := ExplicitText(value);
    var single := IsSingleCompleteType(text);
    if !single {
      return false;
    }
    ghost var t := TypeOf(text);
    SingleSound(text);
    var nested := TypeDepth(text);
    if depth + nested > MAX_MESSAGE_DEPTH {
      return false;
    }
    LookupIsLighter(value.members, "@dbus");
    LookupIsLighter(value.members, "value");
    NullRejected(p, t, depth);
    var inner := Lookup(value.members, "value");
    ok := CheckValue(p, if inner.Some? then inner.value else Null, text, t, depth);
  }

  /** `t` is the type `sig` spells. */
  method CheckValue(p: Platform, value: Json, sig: string, ghost t: Type, depth: nat) returns (ok: bool)
    requires Valid(t) && sig == Print(t)
    ensures ok == Accepts(p, value, t, depth)
    decreases Weight(value), 3
  {
    hide CoerceBasic, CoerceBytes;
    if depth > MAX_MESSAGE_DEPTH {
      return false;
    }
    TextShowsShape(t);
    var c := sig[0];
    if |sig| == 1 && IsBasic(c) {
      return CoerceBasic(value, c).Some?;
    }
    if sig == "v" {
      ok := CheckVariant(p, value, depth + 1);
      return;
    }
    if sig == "ay" {
      var bytes := CoerceByteArray(value);
      return bytes.Some?;
    }
    if sig == "as" {
      if !value.List? {
        return false;
      }
      ok := true;
      for i := 0 to |value.items|
        invariant ok == forall k | 0 <= k < i :: value.items[k].String?
      {
        ok := ok && value.items[i].String?;
      }
      return;
    }
    if IsDict(sig) {
      ok := CheckDict(p, value, sig, t, depth);
    } else if c == 'a' {
      ok := CheckArray(p, value, sig, t, depth);
    } else {
      ok := CheckStruct(p, value, sig, t, depth);
    }
  }

  /** The dict branch of checkValue(). */
  method CheckDict(p: Platform, value: Json, sig: string, ghost t: Type, depth: nat) returns (ok: bool)
    requires Valid(t) && sig == Print(t) && t.Dict? && depth <= MAX_MESSAGE_DEPTH
    ensures ok == Accepts(p, value, t, depth)
    decreases Weight(value), 2
  {
    hide CoerceBasic, CoerceBytes;
    DictParts(t.key, t.value);
    var key, valueSig := DictKey(sig), DictValue(sig);
    if key == 'h' || valueSig !in p.elements || !value.Object? {
      return false;
    }
    var members := value.members;
    for i := 0 to |members|
      invariant forall k | 0 <= k < i ::
                  CoerceKey(p, members[k].0, key).Some? && Accepts(p, members[k].1, t.value, depth + 2)
    {
      if CoerceKey(p, members[i].0, key).None? {
        return false;
      }
      MemberIsLighter(members, i);
      ok := CheckValue(p, members[i].1, valueSig, t.value, depth + 2);
      if !ok {
        return;
      }
    }
    ok := true;
  }

  /** The array branch of checkValue(), without the two special element types. */
  method CheckArray(p: Platform, value: Json, sig: string, ghost t: Type, depth: nat) returns (ok: bool)
    requires Valid(t) && sig == Print(t) && depth <= MAX_MESSAGE_DEPTH
    requires t.Array? && t.element != Basic('y') && t.element != Basic('s')
    ensures ok == Accepts(p, value, t, depth)
    decreases Weight(value), 2
  {
    hide CoerceBasic, CoerceBytes;
    ArrayParts(t.element);
    var element := sig[1..];
    if element !in p.elements || !value.List? {
      return false;
    }
    for i := 0 to |value.items|
      invariant forall k | 0 <= k < i :: Accepts(p, value.items[k], t.element, depth + 1)
    {
      ItemIsLighter(value.items, i);
      ok := CheckValue(p, value.items[i], element, t.element, depth + 1);
      if !ok {
        return;
      }
    }
    ok := true;
  }

  /** The struct branch of checkValue(). */
  method CheckStruct(p: Platform, value: Json, sig: string, ghost t: Type, depth: nat) returns (ok: bool)
    requires Valid(t) && sig == Print(t) && t.Struct? && depth <= MAX_MESSAGE_DEPTH
    ensures ok == Accepts(p, value, t, depth)
    decreases Weight(value), 2
  {
    hide CoerceBasic, CoerceBytes;
    var fields := StructFields(sig, t.fields);
    StructParts(t.fields);
    if !value.List? || |value.items| != |fields| {
      return false;
    }
    ok := CheckFields(p, value.items, fields, t.fields, depth + 1);
  }

  /** The field loop of checkValue(). */
  method CheckFields(p: Platform, items: seq<Json>, fields: seq<string>, ghost fs: seq<Type>, depth: nat)
    returns (ok: bool)
    requires |items| == |fields| == |fs|
    requires forall i | 0 <= i < |fs| :: Valid(fs[i]) && fields[i] == Print(fs[i])
    ensures ok == forall i | 0 <= i < |fs| :: Accepts(p, items[i], fs[i], depth)
    decreases WeightItems(items), 4
  {
    hide CoerceBasic, CoerceBytes;
    for i := 0 to |fields|
      invariant forall k | 0 <= k < i :: Accepts(p, items[k], fs[k], depth)
    {
      ItemIsLighter(items, i);
      ok := CheckValue(p, items[i], fields[i], fs[i], depth);
      if !ok {
        return;
      }
    }
    ok := true;
  }
}
