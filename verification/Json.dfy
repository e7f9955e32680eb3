/** JSON values as the bridge holds them: parsed, with object members unique and sorted by key. */
module Json {
  import opened Wrappers

  /** An absent ("undefined") value behaves like Null in all the code modelled here. */
  datatype Json =
    | Null
    | Bool(flag: bool)
    | Number(number: real)
    | String(text: string)
    | List(items: seq<Json>)
    | Object(members: seq<(string, Json)>)

  function ValueOf(member: (string, Json)): (value: Json)
    ensures value < member
  {
    member.1
  }

  function Lookup<V>(members: seq<(string, V)>, key: string): (r: Option<V>)
    ensures r.Some? ==> (key, r.value) in members
  {
    if members == [] then None
    else if members[0].0 == key then Some(members[0].1)
    else Lookup(members[1..], key)
  }

  /** Key order: lexicographic by code unit. */
  predicate Less(a: string, b: string) {
    if b == "" then false
    else if a == "" then true
    else if a[0] != b[0] then a[0] < b[0]
    else Less(a[1..], b[1..])
  }

  /** Adds a member at its place, or replaces the one that has the key. */
  function Insert<V>(members: seq<(string, V)>, key: string, value: V): (r: seq<(string, V)>) {
    if members == [] then [(key, value)]
    else if members[0].0 == key then [(key, value)] + members[1..]
    else if Less(key, members[0].0) then [(key, value)] + members
    else [members[0]] + Insert(members[1..], key, value)
  }

  ghost predicate Sorted<V>(members: seq<(string, V)>) {
    forall i, j | 0 <= i < j < |members| :: Less(members[i].0, members[j].0)
  }

  lemma {:induction false} LessIsOrder(a: string, b: string, c: string)
    ensures !Less(a, a)
    ensures a != b ==> Less(a, b) || Less(b, a)
    ensures Less(a, b) && Less(b, c) ==> Less(a, c)
  {
    if a != "" && b != "" && c != "" {
      LessIsOrder(a[1..], b[1..], c[1..]);
      if a[0] == b[0] && a[1..] == b[1..] { assert a == [a[0]] + a[1..] == b; }
    } else if a != "" && b != "" {
      LessIsOrder(a[1..], b[1..], "");
      if a[0] == b[0] && a[1..] == b[1..] { assert a == [a[0]] + a[1..] == b; }
    } else if a != "" {
      LessIsOrder(a[1..], "", "");
    }
  }

  lemma InsertKeys<V>(members: seq<(string, V)>, key: string, value: V)
    ensures forall i | 0 <= i < |Insert(members, key, value)| ::
              Insert(members, key, value)[i] == (key, value) || Insert(members, key, value)[i] in members
  {
  }

  /** An object stays sorted, hence without duplicates, and changes at `key` only. */
  lemma {:induction false} InsertKeepsObject<V>(members: seq<(string, V)>, key: string, value: V)
    requires Sorted(members)
    ensures Sorted(Insert(members, key, value))
    ensures forall k :: Lookup(Insert(members, key, value), k) ==
                        if k == key then Some(value) else Lookup(members, k)
  {
    if members != [] {
      var r := Insert(members, key, value);
      LessIsOrder(key, members[0].0, key);
      if members[0].0 == key {
        forall k ensures Lookup(r, k) == if k == key then Some(value) else Lookup(members, k) {
          assert r[1..] == members[1..];
        }
      } else if Less(key, members[0].0) {
        assert r[1..] == members;
        forall i | 0 <= i < |members| ensures Less(key, members[i].0) {
          LessIsOrder(key, members[0].0, members[i].0);
        }
      } else {
        InsertKeepsObject(members[1..], key, value);
        InsertKeys(members[1..], key, value);
        assert r[1..] == Insert(members[1..], key, value);
      }
    }
  }
}
