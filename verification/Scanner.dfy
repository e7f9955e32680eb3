/** The signature scanner of typecoercer.cpp, in its own imperative form, and the accessors that
    take a complete type apart on its text. */
module Scanner {
  import opened Wrappers
  import opened Signatures

  /** The complete type at `pos`: where it ends (-1 when there is none) and how many containers it
      nests. Same branches and the same field loop as scanType(). */
  method ScanType(sig: string, pos: nat, arrays: nat, structs: nat) returns (end: int, depth: nat)
    ensures var r := ParseType(sig, pos, arrays, structs);
            if r.None? then end == -1 && depth == 0
            else end == r.value.1 && depth == Depth(r.value.0)
    decreases |sig| - pos, 1
  {
    end, depth := -1, 0;
    if pos >= |sig| {
      return;
    }
    var c := sig[pos];
    if IsBasic(c) || c == 'v' {
      return pos + 1, 0;
    }
    if c == 'a' {
      if arrays + 1 > MAX_ARRAY_DEPTH {
        return;
      }
      if pos + 1 < |sig| && sig[pos + 1] == '{' {
        var key := pos + 2;
        if structs + 1 > MAX_STRUCT_DEPTH || key >= |sig| || !IsBasic(sig[key]) {
          return;
        }
        var valueEnd, valueDepth := ScanType(sig, key + 1, arrays + 1, structs + 1);
        if valueEnd < 0 || valueEnd >= |sig| || sig[valueEnd] != '}' {
          return;
        }
        return valueEnd + 1, valueDepth + 2;
      }
      var elementEnd, elementDepth := ScanType(sig, pos + 1, arrays + 1, structs);
      if elementEnd < 0 {
        return;
      }
      return elementEnd, elementDepth + 1;
    }
    if c == '(' {
      end, depth := ScanStruct(sig, pos, arrays, structs);
    }
  }

  /** The struct branch of scanType(), with its field loop. */
  method ScanStruct(sig: string, pos: nat, arrays: nat, structs: nat) returns (end: int, depth: nat)
    requires pos < |sig| && sig[pos] == '('
    ensures var r := ParseType(sig, pos, arrays, structs);
            if r.None? then end == -1 && depth == 0
            else end == r.value.1 && depth == Depth(r.value.0)
    decreases |sig| - pos, 0
  {
    if structs + 1 > MAX_STRUCT_DEPTH {
      return -1, 0;
    }
    var p := pos + 1;
    var fields, deepest := 0, 0;
    ghost var seen: seq<Type> := [];
    ghost var whole := ParseFields(sig, pos + 1, arrays, structs + 1);
    while p < |sig| && sig[p] != ')'
      invariant pos < p <= |sig| && fields == |seen| && deepest == DepthAll(seen)
      invariant whole == AfterFields(seen, ParseFields(sig, p, arrays, structs + 1))
    {
      var fieldEnd, fieldDepth := ScanType(sig, p, arrays, structs + 1);
      if fieldEnd < 0 {
        return -1, 0;
      }
      ghost var field := ParseType(sig, p, arrays, structs + 1).value.0;
      AfterOneField(seen, sig, p, arrays, structs + 1);
      DepthOfAppended(seen, field);
      p, deepest, fields := fieldEnd, Max(deepest, fieldDepth), fields + 1;
      seen := seen + [field];
    }
    if p >= |sig| || fields == 0 {
      return -1, 0;
    }
    assert seen + [] == seen;
    return p + 1, deepest + 1;
  }

  /** The outcome of a field loop that has read `seen` and still has to read `rest`. */
  ghost function AfterFields(seen: seq<Type>, rest: Option<(seq<Type>, nat)>): Option<(seq<Type>, nat)> {
    if rest.None? then None
    else if seen == [] then rest
    else Some((seen + rest.value.0, rest.value.1))
  }

  ghost function AfterTypes(seen: seq<Type>, rest: Option<seq<Type>>): Option<seq<Type>> {
    if rest.None? then None else if seen == [] then rest else Some(seen + rest.value)
  }

  lemma AfterOneField(seen: seq<Type>, sig: string, p: nat, arrays: nat, structs: nat)
    requires p < |sig| && sig[p] != ')' && ParseType(sig, p, arrays, structs).Some?
    ensures var (field, end) := ParseType(sig, p, arrays, structs).value;
            AfterFields(seen, ParseFields(sig, p, arrays, structs)) ==
            AfterFields(seen + [field], ParseFields(sig, end, arrays, structs))
  {
    var (field, end) := ParseType(sig, p, arrays, structs).value;
    var rest := ParseFields(sig, end, arrays, structs);
    if rest.Some? {
      assert seen + ([field] + rest.value.0) == (seen + [field]) + rest.value.0;
      if seen == [] { assert seen + [field] == [field]; }
    }
  }

  /** One more piece: it is the text of the type read, and the rest is still to come. */
  lemma AfterOneType(seen: seq<Type>, sig: string, p: nat)
    requires p < |sig| && ParseType(sig, p, 0, 0).Some?
    ensures var (t, end) := ParseType(sig, p, 0, 0).value;
            && AfterTypes(seen, ParseTypes(sig, p)) == AfterTypes(seen + [t], ParseTypes(sig, end))
            && PrintEach(seen + [t]) == PrintEach(seen) + [sig[p..end]]
  {
    var (t, end) := ParseType(sig, p, 0, 0).value;
    var rest := ParseTypes(sig, end);
    if rest.Some? {
      assert seen + ([t] + rest.value) == (seen + [t]) + rest.value;
      if seen == [] { assert seen + [t] == [t]; }
    }
    ParseSound(sig, p, 0, 0);
    assert sig[p..end] == Print(t);
  }

  lemma DepthOfAppended(ts: seq<Type>, t: Type)
    ensures DepthAll(ts + [t]) == Max(DepthAll(ts), Depth(t))
  {
    if ts == [] {
      assert [t][1..] == [];
    } else {
      assert (ts + [t])[1..] == ts[1..] + [t];
    }
  }

  /** splitTypes(): the pieces of a signature. */
  method SplitTypes(sig: string) returns (types: seq<string>)
    ensures types == Split(sig)
  {
    if |sig| > MAX_SIGNATURE_LENGTH {
      return [];
    }
    types := [];
    var p := 0;
    ghost var seen: seq<Type> := [];
    while p < |sig|
      invariant p <= |sig| && types == PrintEach(seen)
      invariant ParseTypes(sig, 0) == AfterTypes(seen, ParseTypes(sig, p))
    {
      var end, depth := ScanType(sig, p, 0, 0);
      if end < 0 {
        return [];
      }
      AfterOneType(seen, sig, p);
      types := types + [sig[p..end]];
      seen := seen + [ParseType(sig, p, 0, 0).value.0];
      p := end;
    }
  }

  method TypeDepth(sig: string) returns (depth: nat)
    requires IsSingle(sig)
    ensures depth == Depth(TypeOf(sig))
  {
    var end;
    end, depth := ScanType(sig, 0, 0, 0);
    SingleSound(sig);
    WholeText(sig, Print(TypeOf(sig)));
    ParseComplete(TypeOf(sig), sig, 0, 0, 0);
  }

  method IsSingleCompleteType(sig: string) returns (single: bool)
    ensures single == IsSingle(sig)
  {
    var types := SplitTypes(sig);
    single := |types| == 1;
  }

  // ------------------------------------------------------------ taking a type apart

  predicate IsDict(sig: string) {
    |sig| >= 2 && sig[0] == 'a' && sig[1] == '{'
  }

  function DictKey(sig: string): char
    requires |sig| > 2
  {
    sig[2]
  }

  function DictValue(sig: string): string
    requires |sig| >= 4
  {
    sig[3..|sig| - 1]
  }

  /** The tests the coercer makes on the text of a complete type tell its tree apart. */
  lemma TextShowsShape(t: Type)
    requires Valid(t)
    ensures var sig := Print(t);
            && (t.Basic? <==> |sig| == 1 && IsBasic(sig[0]))
            && (t.Basic? ==> t == Basic(sig[0]))
            && (t.Variant? <==> sig == "v")
            && (t.Dict? <==> IsDict(sig))
            && (t.Array? ==> sig[0] == 'a')
            && (t.Struct? ==> sig[0] == '(')
            && (t == Array(Basic('y')) <==> sig == "ay")
            && (t == Array(Basic('s')) <==> sig == "as")
  {
    var sig := Print(t);
    match t
    case Basic(c) => assert sig == [c];
    case Variant =>
    case Dict(k, v) => assert sig == "a{" + [k] + Print(v) + "}"; assert sig[1] == '{';
    case Array(e) =>
      FirstChar(e);
      assert sig == "a" + Print(e);
      assert sig[1] == Print(e)[0];
      ShortText(e);
    case Struct(fs) => assert sig == "(" + PrintAll(fs) + ")";
  }

  lemma ShortText(e: Type)
    requires WellFormed(e)
    ensures "a" + Print(e) == "ay" <==> e == Basic('y')
    ensures "a" + Print(e) == "as" <==> e == Basic('s')
  {
    var text := "a" + Print(e);
    if text == "ay" { assert text[1] == Print(e)[0] == 'y'; }
    if text == "as" { assert text[1] == Print(e)[0] == 's'; }
  }

  lemma ArrayParts(e: Type)
    requires Valid(Array(e))
    ensures Print(Array(e))[1..] == Print(e) && Valid(e)
  {
  }

  lemma DictParts(k: char, v: Type)
    requires Valid(Dict(k, v))
    ensures var sig := Print(Dict(k, v));
            |sig| >= 4 && DictKey(sig) == k && IsBasic(k) && DictValue(sig) == Print(v) && Valid(v)
  {
    assert Print(Dict(k, v)) == "a{" + [k] + Print(v) + "}";
  }

  lemma StructText(fs: seq<Type>)
    requires Valid(Struct(fs))
    ensures var sig := Print(Struct(fs));
            |sig| >= 2 && Split(sig[1..|sig| - 1]) == PrintEach(fs)
  {
    FieldsFit(fs, 0, 0);
    var sig := Print(Struct(fs));
    assert sig[1..|sig| - 1] == PrintAll(fs);
    FieldsFitAtRoot(fs);
    SplitUndoesPrint(fs);
  }

  lemma StructParts(fs: seq<Type>)
    requires Valid(Struct(fs))
    ensures forall i | 0 <= i < |fs| :: Valid(fs[i])
  {
    FieldsFit(fs, 0, 0);
    FieldsFitAtRoot(fs);
    forall i | 0 <= i < |fs| ensures Valid(fs[i]) {
      PieceLength(fs, i);
    }
  }

  /** structFields(), on the text of a struct type with the fields `fs`. */
  method StructFields(sig: string, ghost fs: seq<Type>) returns (fields: seq<string>)
    requires Valid(Struct(fs)) && sig == Print(Struct(fs))
    ensures fields == PrintEach(fs)
  {
    StructText(fs);
    fields := SplitTypes(sig[1..|sig| - 1]);
  }

  /** Array elements, dict values and struct fields of a single complete type are single complete
      types again: structFields() and dictValue() never meet a malformed text. */
  lemma PartsAreSingle(sig: string)
    requires IsSingle(sig)
    ensures var t := TypeOf(sig);
            match t
            case Basic(_) => true
            case Variant => true
            case Array(e) => IsSingle(sig[1..]) && TypeOf(sig[1..]) == e
            case Dict(k, v) =>
              |sig| >= 4 && DictKey(sig) == k && IsBasic(k) && IsSingle(DictValue(sig)) && TypeOf(DictValue(sig)) == v
            case Struct(fs) =>
              && |sig| >= 2 && |Split(sig[1..|sig| - 1])| == |fs|
              && forall i | 0 <= i < |fs| ::
                   IsSingle(Split(sig[1..|sig| - 1])[i]) && TypeOf(Split(sig[1..|sig| - 1])[i]) == fs[i]
  {
    SingleSound(sig);
    match TypeOf(sig)
    case Basic(_) =>
    case Variant =>
    case Array(e) =>
      ArrayParts(e);
      SingleComplete(e);
    case Dict(k, v) =>
      DictParts(k, v);
      SingleComplete(v);
    case Struct(fs) =>
      StructText(fs);
      StructParts(fs);
      forall i | 0 <= i < |fs| ensures IsSingle(Print(fs[i])) && TypeOf(Print(fs[i])) == fs[i] {
        SingleComplete(fs[i]);
      }
  }

  lemma FieldsFitAtRoot(fs: seq<Type>)
    requires AllFit(fs, 0, 1)
    ensures AllFit(fs, 0, 0)
  {
    forall i | 0 <= i < |fs| ensures Fits(fs[i], 0, 0) { assert Fits(fs[i], 0, 1); }
  }
}
