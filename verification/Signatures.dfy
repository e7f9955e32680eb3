/** D-Bus type signatures: the scanner of typecoercer.cpp and the grammar it decides.

The grammar is the datatype `Type` with its printer; the limits are those of the section
"Valid Signatures" of the D-Bus Specification. `ParseType` is a reference parser that yields
trees; the methods are the scanner itself, which yields only an end position and a depth. */
module Signatures {
  import opened Wrappers

  const MAX_ARRAY_DEPTH := 32
  const MAX_STRUCT_DEPTH := 32
  const MAX_SIGNATURE_LENGTH := 255

  predicate IsBasic(c: char) {
    || c == 'y' || c == 'b' || c == 'n' || c == 'q' || c == 'i' || c == 'u' || c == 'x'
    || c == 't' || c == 'd' || c == 's' || c == 'o' || c == 'g' || c == 'h'
  }

  /** One complete type. A dict entry only exists as the element of an array, hence `Dict`. */
  datatype Type =
    | Basic(code: char)
    | Variant
    | Array(element: Type)
    | Dict(key: char, value: Type)
    | Struct(fields: seq<Type>)

  function Max(a: nat, b: nat): (m: nat) {
    if a < b then b else a
  }

  // ------------------------------------------------------------ grammar and limits

  predicate WellFormed(t: Type) {
    match t
    case Basic(c) => IsBasic(c)
    case Variant => true
    case Array(e) => WellFormed(e)
    case Dict(k, v) => IsBasic(k) && WellFormed(v)
    case Struct(fs) => fs != [] && forall f | f in fs :: WellFormed(f)
  }

  function Print(t: Type): (s: string)
    ensures |s| > 0
  {
    match t
    case Basic(c) => [c]
    case Variant => "v"
    case Array(e) => "a" + Print(e)
    case Dict(k, v) => "a{" + [k] + Print(v) + "}"
    case Struct(fs) => "(" + PrintAll(fs) + ")"
  }

  function PrintAll(ts: seq<Type>): string {
    if ts == [] then "" else Print(ts[0]) + PrintAll(ts[1..])
  }

  function PrintEach(ts: seq<Type>): (ss: seq<string>)
    ensures |ss| == |ts|
    ensures forall i | 0 <= i < |ts| :: ss[i] == Print(ts[i])
  {
    if ts == [] then [] else [Print(ts[0])] + PrintEach(ts[1..])
  }

  /** Containers nested by a type: arrays, structs and dict entries on the deepest branch. */
  function Depth(t: Type): nat {
    match t
    case Basic(_) => 0
    case Variant => 0
    case Array(e) => Depth(e) + 1
    case Dict(_, v) => Depth(v) + 2
    case Struct(fs) => DepthAll(fs) + 1
  }

  function DepthAll(ts: seq<Type>): nat {
    if ts == [] then 0 else Max(Depth(ts[0]), DepthAll(ts[1..]))
  }

  function ArrayNesting(t: Type): nat {
    match t
    case Basic(_) => 0
    case Variant => 0
    case Array(e) => ArrayNesting(e) + 1
    case Dict(_, v) => ArrayNesting(v) + 1
    case Struct(fs) => ArrayNestingAll(fs)
  }

  function ArrayNestingAll(ts: seq<Type>): nat {
    if ts == [] then 0 else Max(ArrayNesting(ts[0]), ArrayNestingAll(ts[1..]))
  }

  function StructNesting(t: Type): nat {
    match t
    case Basic(_) => 0
    case Variant => 0
    case Array(e) => StructNesting(e)
    case Dict(_, v) => StructNesting(v) + 1
    case Struct(fs) => StructNestingAll(fs) + 1
  }

  function StructNestingAll(ts: seq<Type>): nat {
    if ts == [] then 0 else Max(StructNesting(ts[0]), StructNestingAll(ts[1..]))
  }

  /** The grammar and the nesting limits, inside `arrays` arrays and `structs` structs. */
  predicate Fits(t: Type, arrays: nat, structs: nat) {
    && WellFormed(t)
    && arrays + ArrayNesting(t) <= MAX_ARRAY_DEPTH
    && structs + StructNesting(t) <= MAX_STRUCT_DEPTH
  }

  predicate AllFit(ts: seq<Type>, arrays: nat, structs: nat) {
    forall i | 0 <= i < |ts| :: Fits(ts[i], arrays, structs)
  }

  /** A type whose own signature is valid. */
  predicate Valid(t: Type) {
    Fits(t, 0, 0) && |Print(t)| <= MAX_SIGNATURE_LENGTH
  }

  // ------------------------------------------------------------ reference parser

  function ParseType(sig: string, pos: nat, arrays: nat, structs: nat): (r: Option<(Type, nat)>)
    ensures r.Some? ==> pos < r.value.1 <= |sig|
    decreases |sig| - pos, 0
  {
    if pos >= |sig| then None
    else if IsBasic(sig[pos]) then Some((Basic(sig[pos]), pos + 1))
    else if sig[pos] == 'v' then Some((Variant, pos + 1))
    else if sig[pos] == 'a' then
      if arrays + 1 > MAX_ARRAY_DEPTH then None
      else if pos + 1 < |sig| && sig[pos + 1] == '{' then
        if structs + 1 > MAX_STRUCT_DEPTH || pos + 2 >= |sig| || !IsBasic(sig[pos + 2]) then None
        else
          var (value, end) :- ParseType(sig, pos + 3, arrays + 1, structs + 1);
          if end >= |sig| || sig[end] != '}' then None
          else Some((Dict(sig[pos + 2], value), end + 1))
      else
        var (element, end) :- ParseType(sig, pos + 1, arrays + 1, structs);
        Some((Array(element), end))
    else if sig[pos] == '(' then
      if structs + 1 > MAX_STRUCT_DEPTH then None
      else
        var (fields, end) :- ParseFields(sig, pos + 1, arrays, structs + 1);
        if fields == [] then None else Some((Struct(fields), end + 1))
    else None
  }

  /** The fields of a struct up to its ')', whose position comes with them. */
  function ParseFields(sig: string, pos: nat, arrays: nat, structs: nat): (r: Option<(seq<Type>, nat)>)
    ensures r.Some? ==> pos <= r.value.1 < |sig| && sig[r.value.1] == ')'
    decreases |sig| - pos, 1
  {
    if pos >= |sig| then None
    else if sig[pos] == ')' then Some(([], pos))
    else
      var (first, next) :- ParseType(sig, pos, arrays, structs);
      var (rest, end) :- ParseFields(sig, next, arrays, structs);
      Some(([first] + rest, end))
  }

  /** The complete types from `pos` to the end. */
  function ParseTypes(sig: string, pos: nat): Option<seq<Type>>
    requires pos <= |sig|
    decreases |sig| - pos
  {
    if pos == |sig| then Some([])
    else
      var (first, next) :- ParseType(sig, pos, 0, 0);
      var rest :- ParseTypes(sig, next);
      Some([first] + rest)
  }

  /** What splitTypes() returns: the pieces, or nothing for a text that spells no list of types
      within the limits. */
  function Split(sig: string): seq<string> {
    if |sig| > MAX_SIGNATURE_LENGTH then []
    else
      match ParseTypes(sig, 0)
      case None => []
      case Some(ts) => PrintEach(ts)
  }

  predicate IsSingle(sig: string) {
    |Split(sig)| == 1
  }

  /** The type a single complete signature denotes. */
  function TypeOf(sig: string): Type
    requires IsSingle(sig)
  {
    ParseTypes(sig, 0).value[0]
  }

  // ------------------------------------------------------------ parser against grammar

  lemma FirstChar(t: Type)
    requires WellFormed(t)
    ensures IsBasic(Print(t)[0]) || Print(t)[0] in "va("
  {
  }

  lemma NestingOfField(ts: seq<Type>, i: nat)
    requires i < |ts|
    ensures ArrayNesting(ts[i]) <= ArrayNestingAll(ts)
    ensures StructNesting(ts[i]) <= StructNestingAll(ts)
    ensures Depth(ts[i]) <= DepthAll(ts)
  {
    if i > 0 { NestingOfField(ts[1..], i - 1); }
  }

  lemma NestingOfAll(ts: seq<Type>, arrays: nat, structs: nat)
    requires arrays <= MAX_ARRAY_DEPTH && structs <= MAX_STRUCT_DEPTH
    requires AllFit(ts, arrays, structs)
    ensures arrays + ArrayNestingAll(ts) <= MAX_ARRAY_DEPTH
    ensures structs + StructNestingAll(ts) <= MAX_STRUCT_DEPTH
  {
    if ts != [] { NestingOfAll(ts[1..], arrays, structs); }
  }

  lemma FieldsFit(fs: seq<Type>, arrays: nat, structs: nat)
    requires arrays <= MAX_ARRAY_DEPTH && structs <= MAX_STRUCT_DEPTH
    ensures Fits(Struct(fs), arrays, structs) <==>
            fs != [] && structs + 1 <= MAX_STRUCT_DEPTH && AllFit(fs, arrays, structs + 1)
  {
    if Fits(Struct(fs), arrays, structs) {
      forall i | 0 <= i < |fs| ensures Fits(fs[i], arrays, structs + 1) {
        NestingOfField(fs, i);
        assert fs[i] in fs;
      }
    }
    if structs + 1 <= MAX_STRUCT_DEPTH && AllFit(fs, arrays, structs + 1) {
      NestingOfAll(fs, arrays, structs + 1);
      forall f | f in fs ensures WellFormed(f) {
        var i :| 0 <= i < |fs| && fs[i] == f;
        assert Fits(fs[i], arrays, structs + 1);
      }
    }
  }

  /** `text` stands in `sig` at `pos`. */
  ghost predicate At(sig: string, pos: nat, text: string) {
    pos + |text| <= |sig| && forall k | 0 <= k < |text| :: sig[pos + k] == text[k]
  }

  lemma AtConcat(sig: string, pos: nat, a: string, b: string)
    ensures At(sig, pos, a + b) <==> At(sig, pos, a) && At(sig, pos + |a|, b)
  {
    if At(sig, pos, a + b) {
      forall k | 0 <= k < |a| ensures sig[pos + k] == a[k] { assert (a + b)[k] == a[k]; }
      forall k | 0 <= k < |b| ensures sig[pos + |a| + k] == b[k] { assert (a + b)[|a| + k] == b[k]; }
    }
  }

  lemma AtChar(sig: string, pos: nat, c: char)
    ensures At(sig, pos, [c]) <==> pos < |sig| && sig[pos] == c
  {
    if pos < |sig| && sig[pos] == c { assert sig[pos + 0] == [c][0]; }
    if At(sig, pos, [c]) { assert sig[pos + 0] == [c][0]; }
  }

  lemma AtDict(sig: string, pos: nat, k: char, v: string)
    ensures At(sig, pos, "a{" + [k] + v + "}") <==>
            && pos + |v| + 4 <= |sig| && sig[pos] == 'a' && sig[pos + 1] == '{' && sig[pos + 2] == k
            && At(sig, pos + 3, v) && sig[pos + 3 + |v|] == '}'
  {
    AtConcat(sig, pos, "a{" + [k] + v, "}");
    AtConcat(sig, pos, "a{" + [k], v);
    AtConcat(sig, pos, "a{", [k]);
    assert "a{" == ['a'] + ['{'];
    AtConcat(sig, pos, ['a'], ['{']);
    AtChar(sig, pos, 'a');
    AtChar(sig, pos + 1, '{');
    AtChar(sig, pos + 2, k);
    AtChar(sig, pos + 3 + |v|, '}');
  }

  lemma AtStruct(sig: string, pos: nat, fields: string)
    ensures At(sig, pos, "(" + fields + ")") <==>
            && pos + |fields| + 2 <= |sig| && sig[pos] == '('
            && At(sig, pos + 1, fields) && sig[pos + 1 + |fields|] == ')'
  {
    AtConcat(sig, pos, "(" + fields, ")");
    AtConcat(sig, pos, "(", fields);
    AtChar(sig, pos, '(');
    AtChar(sig, pos + 1 + |fields|, ')');
  }

  lemma WholeText(sig: string, text: string)
    ensures At(sig, 0, text) && |sig| == |text| <==> sig == text
  {
  }

  /** `r` is a type within the limits whose text stands at `pos`, with the position behind it. */
  ghost predicate Reads(sig: string, pos: nat, arrays: nat, structs: nat, r: (Type, nat)) {
    Fits(r.0, arrays, structs) && At(sig, pos, Print(r.0)) && r.1 == pos + |Print(r.0)|
  }

  /** Everything accepted is in the grammar, within the limits, and is exactly the text read. */
  lemma {:induction false} ParseSound(sig: string, pos: nat, arrays: nat, structs: nat)
    requires arrays <= MAX_ARRAY_DEPTH && structs <= MAX_STRUCT_DEPTH
    requires ParseType(sig, pos, arrays, structs).Some?
    ensures Reads(sig, pos, arrays, structs, ParseType(sig, pos, arrays, structs).value)
    decreases |sig| - pos, 2
  {
    if IsBasic(sig[pos]) || sig[pos] == 'v' {
      AtChar(sig, pos, sig[pos]);
    } else if sig[pos] == 'a' {
      ParseArraySound(sig, pos, arrays, structs);
    } else {
      ParseFieldsSound(sig, pos + 1, arrays, structs + 1);
      var fields := ParseFields(sig, pos + 1, arrays, structs + 1).value.0;
      FieldsFit(fields, arrays, structs);
      AtStruct(sig, pos, PrintAll(fields));
    }
  }

  lemma {:induction false} ParseArraySound(sig: string, pos: nat, arrays: nat, structs: nat)
    requires arrays <= MAX_ARRAY_DEPTH && structs <= MAX_STRUCT_DEPTH
    requires pos < |sig| && sig[pos] == 'a' && ParseType(sig, pos, arrays, structs).Some?
    ensures Reads(sig, pos, arrays, structs, ParseType(sig, pos, arrays, structs).value)
    decreases |sig| - pos, 1
  {
    hide At;
    if pos + 1 < |sig| && sig[pos + 1] == '{' {
      ParseSound(sig, pos + 3, arrays + 1, structs + 1);
      var r := ParseType(sig, pos + 3, arrays + 1, structs + 1).value;
      AtDict(sig, pos, sig[pos + 2], Print(r.0));
      DictReads(sig, pos, arrays, structs, sig[pos + 2], r);
    } else {
      ParseSound(sig, pos + 1, arrays + 1, structs);
      var r := ParseType(sig, pos + 1, arrays + 1, structs).value;
      AtConcat(sig, pos, "a", Print(r.0));
      AtChar(sig, pos, 'a');
    }
  }

  lemma DictReads(sig: string, pos: nat, arrays: nat, structs: nat, k: char, r: (Type, nat))
    requires Reads(sig, pos + 3, arrays + 1, structs + 1, r) && IsBasic(k)
    requires At(sig, pos, "a{" + [k] + Print(r.0) + "}")
    ensures Reads(sig, pos, arrays, structs, (Dict(k, r.0), r.1 + 1))
  {
    hide At;
  }

  lemma {:induction false} ParseFieldsSound(sig: string, pos: nat, arrays: nat, structs: nat)
    requires arrays <= MAX_ARRAY_DEPTH && structs <= MAX_STRUCT_DEPTH
    requires ParseFields(sig, pos, arrays, structs).Some?
    ensures var r := ParseFields(sig, pos, arrays, structs).value;
            AllFit(r.0, arrays, structs) && At(sig, pos, PrintAll(r.0)) && r.1 == pos + |PrintAll(r.0)|
    decreases |sig| - pos, 3
  {
    if sig[pos] != ')' {
      ParseSound(sig, pos, arrays, structs);
      var (first, next) := ParseType(sig, pos, arrays, structs).value;
      ParseFieldsSound(sig, next, arrays, structs);
      var rest := ParseFields(sig, next, arrays, structs).value.0;
      assert ([first] + rest)[1..] == rest;
      AtConcat(sig, pos, Print(first), PrintAll(rest));
    }
  }

  lemma ReadArray(e: Type, sig: string, pos: nat, arrays: nat, structs: nat)
    requires arrays + 1 <= MAX_ARRAY_DEPTH && WellFormed(e) && At(sig, pos, "a" + Print(e))
    requires ParseType(sig, pos + 1, arrays + 1, structs) == Some((e, pos + 1 + |Print(e)|))
    ensures ParseType(sig, pos, arrays, structs) == Some((Array(e), pos + 1 + |Print(e)|))
  {
    AtConcat(sig, pos, "a", Print(e));
    AtChar(sig, pos, 'a');
    FirstChar(e);
    assert sig[pos + 1 + 0] == Print(e)[0];
  }

  lemma ReadDict(k: char, v: Type, sig: string, pos: nat, arrays: nat, structs: nat)
    requires arrays + 1 <= MAX_ARRAY_DEPTH && structs + 1 <= MAX_STRUCT_DEPTH && IsBasic(k)
    requires At(sig, pos, Print(Dict(k, v)))
    requires ParseType(sig, pos + 3, arrays + 1, structs + 1) == Some((v, pos + 3 + |Print(v)|))
    ensures ParseType(sig, pos, arrays, structs) == Some((Dict(k, v), pos + 4 + |Print(v)|))
  {
    AtDict(sig, pos, k, Print(v));
  }

  /** Every type within the limits is accepted wherever its text stands. */
  lemma {:induction false} ParseComplete(t: Type, sig: string, pos: nat, arrays: nat, structs: nat)
    requires arrays <= MAX_ARRAY_DEPTH && structs <= MAX_STRUCT_DEPTH
    requires Fits(t, arrays, structs) && At(sig, pos, Print(t))
    ensures ParseType(sig, pos, arrays, structs) == Some((t, pos + |Print(t)|))
    decreases t, 2
  {
    match t
    case Basic(c) => AtChar(sig, pos, c);
    case Variant => AtChar(sig, pos, 'v');
    case Array(e) =>
      AtConcat(sig, pos, "a", Print(e));
      ParseComplete(e, sig, pos + 1, arrays + 1, structs);
      ReadArray(e, sig, pos, arrays, structs);
    case Dict(_, _) => ParseDictComplete(t, sig, pos, arrays, structs);
    case Struct(_) => ParseStructComplete(t, sig, pos, arrays, structs);
  }

  lemma {:induction false} ParseDictComplete(t: Type, sig: string, pos: nat, arrays: nat, structs: nat)
    requires arrays <= MAX_ARRAY_DEPTH && structs <= MAX_STRUCT_DEPTH
    requires t.Dict? && Fits(t, arrays, structs) && At(sig, pos, Print(t))
    ensures ParseType(sig, pos, arrays, structs) == Some((t, pos + |Print(t)|))
    decreases t, 1
  {
    AtDict(sig, pos, t.key, Print(t.value));
    ParseComplete(t.value, sig, pos + 3, arrays + 1, structs + 1);
    ReadDict(t.key, t.value, sig, pos, arrays, structs);
  }

  lemma {:induction false} ParseStructComplete(t: Type, sig: string, pos: nat, arrays: nat, structs: nat)
    requires arrays <= MAX_ARRAY_DEPTH && structs <= MAX_STRUCT_DEPTH
    requires t.Struct? && Fits(t, arrays, structs) && At(sig, pos, Print(t))
    ensures ParseType(sig, pos, arrays, structs) == Some((t, pos + |Print(t)|))
    decreases t, 1
  {
    FieldsFit(t.fields, arrays, structs);
    AtStruct(sig, pos, PrintAll(t.fields));
    ParseFieldsComplete(t.fields, sig, pos + 1, arrays, structs + 1);
  }

  lemma {:induction false} ParseFieldsComplete(fs: seq<Type>, sig: string, pos: nat, arrays: nat, structs: nat)
    requires arrays <= MAX_ARRAY_DEPTH && structs <= MAX_STRUCT_DEPTH
    requires AllFit(fs, arrays, structs) && At(sig, pos, PrintAll(fs))
    requires pos + |PrintAll(fs)| < |sig| && sig[pos + |PrintAll(fs)|] == ')'
    ensures ParseFields(sig, pos, arrays, structs) == Some((fs, pos + |PrintAll(fs)|))
    decreases fs, 1
  {
    if fs != [] {
      var n := |Print(fs[0])|;
      AtConcat(sig, pos, Print(fs[0]), PrintAll(fs[1..]));
      assert sig[pos] == Print(fs[0])[0];
      FirstChar(fs[0]);
      ParseComplete(fs[0], sig, pos, arrays, structs);
      ParseFieldsComplete(fs[1..], sig, pos + n, arrays, structs);
      assert [fs[0]] + fs[1..] == fs;
    }
  }

  lemma {:induction false} ParseTypesSound(sig: string, pos: nat)
    requires pos <= |sig|
    requires ParseTypes(sig, pos).Some?
    ensures var ts := ParseTypes(sig, pos).value;
            AllFit(ts, 0, 0) && At(sig, pos, PrintAll(ts)) && |sig| == pos + |PrintAll(ts)|
    decreases |sig| - pos
  {
    if pos < |sig| {
      ParseSound(sig, pos, 0, 0);
      var (first, next) := ParseType(sig, pos, 0, 0).value;
      ParseTypesSound(sig, next);
      var rest := ParseTypes(sig, next).value;
      assert ([first] + rest)[1..] == rest;
      AtConcat(sig, pos, Print(first), PrintAll(rest));
    }
  }

  lemma {:induction false} ParseTypesComplete(ts: seq<Type>, sig: string, pos: nat)
    requires AllFit(ts, 0, 0) && At(sig, pos, PrintAll(ts)) && |sig| == pos + |PrintAll(ts)|
    ensures ParseTypes(sig, pos) == Some(ts)
    decreases ts
  {
    if ts != [] {
      AtConcat(sig, pos, Print(ts[0]), PrintAll(ts[1..]));
      ParseComplete(ts[0], sig, pos, 0, 0);
      ParseTypesComplete(ts[1..], sig, pos + |Print(ts[0])|);
      assert [ts[0]] + ts[1..] == ts;
    }
  }

  // ------------------------------------------------------------ main results

  /** Splitting undoes printing, for every list of types within the limits. */
  lemma SplitUndoesPrint(ts: seq<Type>)
    requires AllFit(ts, 0, 0) && |PrintAll(ts)| <= MAX_SIGNATURE_LENGTH
    ensures Split(PrintAll(ts)) == PrintEach(ts)
  {
    ParseTypesComplete(ts, PrintAll(ts), 0);
  }

  /** What is accepted is exactly the grammar plus the limits; the pieces make up the signature. */
  lemma SplitDecidesGrammar(sig: string)
    ensures Split(sig) != [] <==>
            |sig| <= MAX_SIGNATURE_LENGTH && exists ts :: ts != [] && AllFit(ts, 0, 0) && PrintAll(ts) == sig
    ensures Split(sig) != [] ==> Concat(Split(sig)) == sig
    ensures forall i | 0 <= i < |Split(sig)| :: IsSingle(Split(sig)[i])
  {
    if Split(sig) != [] {
      ParseTypesSound(sig, 0);
      var ts := ParseTypes(sig, 0).value;
      WholeText(sig, PrintAll(ts));
      ConcatPrints(ts);
      forall i | 0 <= i < |ts| ensures IsSingle(PrintEach(ts)[i]) {
        PieceLength(ts, i);
        SingleComplete(ts[i]);
      }
    }
    if |sig| <= MAX_SIGNATURE_LENGTH && exists ts :: ts != [] && AllFit(ts, 0, 0) && PrintAll(ts) == sig {
      var ts :| ts != [] && AllFit(ts, 0, 0) && PrintAll(ts) == sig;
      SplitUndoesPrint(ts);
    }
  }

  function Concat(ss: seq<string>): string {
    if ss == [] then "" else ss[0] + Concat(ss[1..])
  }

  lemma ConcatPrints(ts: seq<Type>)
    ensures Concat(PrintEach(ts)) == PrintAll(ts)
  {
    if ts != [] {
      ConcatPrints(ts[1..]);
      assert PrintEach(ts)[1..] == PrintEach(ts[1..]);
    }
  }

  lemma PieceLength(ts: seq<Type>, i: nat)
    requires i < |ts|
    ensures |Print(ts[i])| <= |PrintAll(ts)|
  {
    if i > 0 { PieceLength(ts[1..], i - 1); }
  }

  lemma {:induction false} SingleComplete(t: Type)
    requires Valid(t)
    ensures IsSingle(Print(t)) && TypeOf(Print(t)) == t
  {
    assert PrintAll([t]) == Print(t) by { assert [t][1..] == []; }
    ParseTypesComplete([t], Print(t), 0);
  }

  lemma SingleSound(sig: string)
    requires IsSingle(sig)
    ensures Valid(TypeOf(sig)) && Print(TypeOf(sig)) == sig
  {
    ParseTypesSound(sig, 0);
    var ts := ParseTypes(sig, 0).value;
    assert ts == [TypeOf(sig)] && ts[1..] == [];
    assert Fits(ts[0], 0, 0);
    WholeText(sig, PrintAll(ts));
  }

  /** A type within the limits nests at most 64 containers. */
  lemma {:induction false} DepthBound(t: Type)
    ensures Depth(t) <= ArrayNesting(t) + StructNesting(t)
    ensures Fits(t, 0, 0) ==> Depth(t) <= 64
    decreases t, 0
  {
    match t
    case Basic(_) =>
    case Variant =>
    case Array(e) => DepthBound(e);
    case Dict(_, v) => DepthBound(v);
    case Struct(fs) => DepthBoundAll(fs);
  }

  lemma {:induction false} DepthBoundAll(ts: seq<Type>)
    ensures DepthAll(ts) <= ArrayNestingAll(ts) + StructNestingAll(ts)
    decreases ts, 1
  {
    if ts != [] {
      DepthBound(ts[0]);
      DepthBoundAll(ts[1..]);
    }
  }
}
