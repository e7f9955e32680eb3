/** The path of one dbus_call (dbustools.cpp, DBusCallTool::call, and dbusbridge.cpp, callMethod):
    name check, introspection, judgement, introspection again, argument conversion, message. */
module CallPath {
  import opened Wrappers
  import opened Json
  import opened Signatures
  import opened Wire
  import opened Coercer
  import opened Values
  import opened Marshalling
  import opened TypeCoercer
  import opened Natural
  import opened Audit
  import R = Resolver
  import P = CallPolicy

  /** What the Introspect call brings back; `hasError` is that of the XML reader. */
  datatype Reply = Failed(errorName: string) | Empty | Xml(events: seq<R.Event>, hasError: bool)

  /** A method call as handed to the bus. */
  datatype Message = Message(bus: string, service: string, path: string, interface: string, member: string,
                             arguments: seq<QVariant>)

  predicate TimedOut(reply: Reply) {
    reply.Failed? && reply.errorName in ["org.freedesktop.DBus.Error.NoReply", "org.freedesktop.DBus.Error.Timeout"]
  }

  function EventsOf(reply: Reply): seq<R.Event> {
    if reply.Xml? then reply.events else []
  }

  /** resolveMethod(). */
  function Resolved(reply: Reply, interface: string, method_: string): R.Resolution {
    if reply.Xml? then R.Resolve(reply.events, reply.hasError, interface, method_)
    else R.Resolution(R.Unavailable, interface, [])
  }

  method ResolveMethod(reply: Reply, interface: string, method_: string) returns (resolution: R.Resolution)
    ensures resolution == Resolved(reply, interface, method_)
  {
    if reply.Xml? {
      resolution := R.ResolveMethodFromXml(reply.events, reply.hasError, interface, method_);
    } else {
      resolution := R.Resolution(R.Unavailable, interface, []);
    }
  }

  // ------------------------------------------------------------ names

  method NameCharactersOnly(text: string, extra: string) returns (ok: bool)
    requires forall c | c in extra :: '\0' < c < 128 as char
    ensures ok <==> forall c | c in text :: IsNameChar(c) || c in extra
  {
    for i := 0 to |text|
      invariant forall k | 0 <= k < i :: IsNameChar(text[k]) || text[k] in extra
    {
      var c := text[i];
      assert c in text;
      if c >= 128 as char {
        return false;
      }
      if c == '\0' {
        return false;
      }
      if !IsNameChar(c) && c !in extra {
        return false;
      }
    }
    ok := true;
  }

  // ------------------------------------------------------------ arguments

  predicate IsTyped(resolution: R.Resolution, args: seq<Json>) {
    resolution.state == R.Unique && |resolution.inSignature| == |args|
  }

  function TextOf(value: Json): string {
    if value.String? then value.text else ""
  }

  predicate SetsProperty(resolution: R.Resolution, method_: string, args: seq<Json>) {
    && IsTyped(resolution, args)
    && resolution.interface == "org.freedesktop.DBus.Properties" && method_ == "Set"
    && resolution.inSignature == ["s", "s", "v"]
    && !IsExplicit(args[2])
  }

  /** The type that is declared for the property a Properties.Set is about; "" when this is no such
      call, when nothing is declared, or when the caller has named a type. */
  function DeclaredType(reply: Reply, resolution: R.Resolution, method_: string, args: seq<Json>): string {
    if SetsProperty(resolution, method_, args) then
      R.PropertyType(EventsOf(reply), TextOf(args[0]), TextOf(args[1]))
    else ""
  }

  /** Whether one argument can be converted. */
  ghost predicate Convertible(p: Platform, typed: bool, value: Json, signature: string) {
    if typed then IsSingle(signature) && Accepts(p, value, TypeOf(signature), 0)
    else FullDepth(value, 0) <= MAX_MESSAGE_DEPTH
  }

  /** What one converted argument is sent as. */
  ghost predicate Converts(p: Platform, typed: bool, value: Json, signature: string, q: QVariant)
    requires Convertible(p, typed, value, signature)
  {
    if typed then
      p.Native() ==>
        var w := Denote(p, q);
        && w == Some(Value(p, value, TypeOf(signature), 0))
        && HasType(w.value, TypeOf(signature)) && Within(w.value, 0, 0, 0)
    else q == NaturalVariant(value)
  }

  function SignatureAt(resolution: R.Resolution, i: nat): string {
    if i < |resolution.inSignature| then resolution.inSignature[i] else ""
  }

  method ConvertArgument(p: Platform, typed: bool, value: Json, signature: string) returns (q: Option<QVariant>)
    ensures q.Some? <==> Convertible(p, typed, value, signature)
    ensures q.Some? ==> Converts(p, typed, value, signature, q.value)
  {
    hide Accepts, Value, Denote, WellTyped, Within, IsSingle, TypeOf, FullDepth;
    if typed {
      q := Coerce(p, value, signature);
    } else {
      var depth := NaturalDepth(value, 0);
      if depth > MAX_MESSAGE_DEPTH {
        return None;
      }
      var loose := JsonToVariant(value);
      q := Some(loose);
    }
  }

  ghost predicate SentAsDeclared(p: Platform, value: Json, declared: string, q: QVariant)
    requires FitsNamed(p, value, declared)
  {
    p.Native() ==>
      var w := Value(p, value, TypeOf(declared), 1);
      Denote(p, q) == Some(Boxed(w)) && HasType(w, TypeOf(declared)) && Within(Boxed(w), 0, 0, 0)
  }

  /** Argument `i` can be sent: as the type declared for the property that is set, or else as what its
      place in the signature asks for. */
  ghost predicate Takes(p: Platform, resolution: R.Resolution, declared: string, args: seq<Json>, i: nat)
    requires i < |args|
  {
    if declared != "" && i == 2 then FitsNamed(p, args[i], declared)
    else Convertible(p, IsTyped(resolution, args), args[i], SignatureAt(resolution, i))
  }

  ghost predicate Sends(p: Platform, resolution: R.Resolution, declared: string, args: seq<Json>, i: nat, q: QVariant)
    requires i < |args| && Takes(p, resolution, declared, args, i)
  {
    if declared != "" && i == 2 then SentAsDeclared(p, args[i], declared, q)
    else Converts(p, IsTyped(resolution, args), args[i], SignatureAt(resolution, i), q)
  }

  /** Every argument can be sent, and their signature is not too long. */
  ghost predicate TakesAll(p: Platform, resolution: R.Resolution, declared: string, args: seq<Json>) {
    && (IsTyped(resolution, args) ==> |Concat(resolution.inSignature)| <= MAX_SIGNATURE_LENGTH)
    && forall i | 0 <= i < |args| :: Takes(p, resolution, declared, args, i)
  }

  /** The arguments are sent in their places, none left out or added. */
  ghost predicate SendsAll(p: Platform, resolution: R.Resolution, declared: string, args: seq<Json>, qs: seq<QVariant>)
    requires TakesAll(p, resolution, declared, args)
  {
    |qs| == |args| && forall i | 0 <= i < |args| :: Sends(p, resolution, declared, args, i, qs[i])
  }

  /** callMethod(), up to the message it sends. */
  method CallMethod(p: Platform, connected: bool, reply: Reply, bus: string, service: string, path: string,
                    interface: string, method_: string, args: seq<Json>) returns (sent: Option<Message>)
    ensures var resolution := Resolved(reply, interface, method_);
            var declared := DeclaredType(reply, resolution, method_, args);
            && (sent.Some? <==> connected && !TimedOut(reply) && TakesAll(p, resolution, declared, args))
            && (sent.Some? ==>
                 && sent.value.(arguments := []) == Message(bus, service, path, resolution.interface, method_, [])
                 && SendsAll(p, resolution, declared, args, sent.value.arguments))
  {
    hide Convertible, Converts, FitsNamed, SentAsDeclared, R.Resolve, R.PropertyType;
    if !connected {
      return None;
    }
    var resolution := ResolveMethod(reply, interface, method_);
    if TimedOut(reply) {
      return None;
    }
    var typed := resolution.state == R.Unique && |resolution.inSignature| == |args|;
    var callArgs := args;
    ghost var boxed := "";
    if typed && resolution.interface == "org.freedesktop.DBus.Properties" && method_ == "Set"
       && resolution.inSignature == ["s", "s", "v"] && !IsExplicit(args[2]) {
      var declared := R.PropertyTypeFromXml(EventsOf(reply), TextOf(args[0]), TextOf(args[1]));
      if declared != "" {
        callArgs := callArgs[2 := Box(declared, args[2])];
      }
      boxed := declared;
    }
    assert boxed == DeclaredType(reply, resolution, method_, args);
    if typed && |Concat(resolution.inSignature)| > MAX_SIGNATURE_LENGTH {
      return None;
    }
    var arguments: seq<QVariant> := [];
    for i := 0 to |args|
      invariant |arguments| == i
      invariant forall k | 0 <= k < i ::
                  Takes(p, resolution, boxed, args, k) && Sends(p, resolution, boxed, args, k, arguments[k])
    {
      var q := ConvertArgument(p, typed, callArgs[i], SignatureAt(resolution, i));
      if boxed != "" && i == 2 { BoxConverts(p, boxed, args[2], q); }
      if q.None? {
        assert !Takes(p, resolution, boxed, args, i);
        return None;
      }
      arguments := arguments + [q.value];
    }
    sent := Some(Message(bus, service, path, resolution.interface, method_, arguments));
  }

  lemma BoxConverts(p: Platform, declared: string, value: Json, q: Option<QVariant>)
    ensures Convertible(p, true, Box(declared, value), "v") <==> FitsNamed(p, value, declared)
    ensures q.Some? && FitsNamed(p, value, declared) && Converts(p, true, Box(declared, value), "v", q.value) ==>
              SentAsDeclared(p, value, declared, q.value)
  {
    BoxAccepted(p, declared, value);
    TheVariantSignature();
    hide HasType, Within, Accepts, IsSingle, TypeOf, Value, Denote;
    if FitsNamed(p, value, declared) {
      SingleSound(declared);
      ValueTyped(p, value, TypeOf(declared), 1);
    }
  }

  lemma TheVariantSignature()
    ensures IsSingle("v") && TypeOf("v") == Variant
  {
    SingleComplete(Variant);
  }

  /** The signature of a typed message is one D-Bus accepts, and it reads as the declared types. */
  lemma TypedMessageSignature(p: Platform, reply: Reply, resolution: R.Resolution, method_: string, args: seq<Json>)
    requires IsTyped(resolution, args)
    requires TakesAll(p, resolution, DeclaredType(reply, resolution, method_, args), args)
    ensures Split(Concat(resolution.inSignature)) == resolution.inSignature
  {
    hide Accepts, Split, R.PropertyType;
    var sigs, declared := resolution.inSignature, DeclaredType(reply, resolution, method_, args);
    TheVariantSignature();
    forall i | 0 <= i < |sigs| ensures IsSingle(sigs[i]) {
      assert Takes(p, resolution, declared, args, i);
    }
    var ts := TypesOf(sigs);
    assert PrintEach(ts) == sigs;
    AllSinglesFit(ts);
    ConcatPrints(ts);
    SplitUndoesPrint(ts);
  }

  function TypesOf(sigs: seq<string>): (ts: seq<Type>)
    requires forall i | 0 <= i < |sigs| :: IsSingle(sigs[i])
    ensures |ts| == |sigs|
    ensures forall i | 0 <= i < |sigs| :: Valid(ts[i]) && Print(ts[i]) == sigs[i]
  {
    if sigs == [] then []
    else
      SingleSound(sigs[0]);
      [TypeOf(sigs[0])] + TypesOf(sigs[1..])
  }

  lemma AllSinglesFit(ts: seq<Type>)
    requires forall i | 0 <= i < |ts| :: Valid(ts[i])
    ensures AllFit(ts, 0, 0)
  {
  }

  /** A Properties.Set without "@dbus" sends its value as a variant of the type declared for the property,
      if it fits in one, and is not sent otherwise; the interface and the property go as they are. */
  lemma SetSendsDeclaredType(p: Platform, reply: Reply, interface: string, property: string, value: Json,
                             qs: seq<QVariant>)
    requires p.Native() && !IsExplicit(value) && R.PropertyType(EventsOf(reply), interface, property) != ""
    ensures var resolution := R.Resolution(R.Unique, "org.freedesktop.DBus.Properties", ["s", "s", "v"]);
            var args := [String(interface), String(property), value];
            var type_ := R.PropertyType(EventsOf(reply), interface, property);
            var declared := DeclaredType(reply, resolution, "Set", args);
            && (TakesAll(p, resolution, declared, args) <==> FitsNamed(p, value, type_))
            && (FitsNamed(p, value, type_) && SendsAll(p, resolution, declared, args, qs) ==>
                 && |qs| == 3 && Denote(p, qs[0]) == Some(Leaf(Text(interface)))
                 && Denote(p, qs[1]) == Some(Leaf(Text(property)))
                 && Denote(p, qs[2]) == Some(Boxed(Value(p, value, TypeOf(type_), 1))))
  {
    hide R.PropertyType, Within, Depth, Denote, FitsNamed;
    var resolution := R.Resolution(R.Unique, "org.freedesktop.DBus.Properties", ["s", "s", "v"]);
    var args := [String(interface), String(property), value];
    var type_ := R.PropertyType(EventsOf(reply), interface, property);
    assert SetsProperty(resolution, "Set", args);
    TheTextSignature(p, interface);
    TheTextSignature(p, property);
    assert |Concat(["s", "s", "v"])| == 3 by { ShortSignature(); }
    hide Accepts, Value, IsSingle, TypeOf, Concat, Convertible, Converts;
    assert DeclaredType(reply, resolution, "Set", args) == type_;
    assert Takes(p, resolution, type_, args, 0) && Takes(p, resolution, type_, args, 1);
    assert Takes(p, resolution, type_, args, 2) <==> FitsNamed(p, value, type_);
    if FitsNamed(p, value, type_) && SendsAll(p, resolution, type_, args, qs) {
      assert Sends(p, resolution, type_, args, 0, qs[0]) && Sends(p, resolution, type_, args, 1, qs[1]);
      assert Sends(p, resolution, type_, args, 2, qs[2]);
    }
  }

  /** In every other call, typed or not, argument `i` is sent as what is given at place `i`. */
  lemma ArgumentsAsGiven(p: Platform, reply: Reply, resolution: R.Resolution, method_: string, args: seq<Json>,
                         qs: seq<QVariant>)
    requires resolution != R.Resolution(R.Unique, "org.freedesktop.DBus.Properties", ["s", "s", "v"])
             || method_ != "Set" || |args| != 3 || IsExplicit(args[2])
             || R.PropertyType(EventsOf(reply), TextOf(args[0]), TextOf(args[1])) == ""
    ensures var declared := DeclaredType(reply, resolution, method_, args);
            TakesAll(p, resolution, declared, args) && SendsAll(p, resolution, declared, args, qs) ==>
              && |qs| == |args|
              && forall i | 0 <= i < |args| ::
                   if resolution.state == R.Unique && |resolution.inSignature| == |args| then
                     && Convertible(p, true, args[i], resolution.inSignature[i])
                     && Converts(p, true, args[i], resolution.inSignature[i], qs[i])
                   else FullDepth(args[i], 0) <= MAX_MESSAGE_DEPTH && qs[i] == NaturalVariant(args[i])
  {
    hide R.PropertyType, Accepts, Value, Denote, IsSingle, TypeOf, HasType, Within, FitsNamed, IsExplicit, FullDepth,
         NaturalVariant;
    var declared := DeclaredType(reply, resolution, method_, args);
    assert declared == "";
    if TakesAll(p, resolution, declared, args) && SendsAll(p, resolution, declared, args, qs) {
      forall i | 0 <= i < |args|
        ensures Convertible(p, IsTyped(resolution, args), args[i], SignatureAt(resolution, i))
        ensures Converts(p, IsTyped(resolution, args), args[i], SignatureAt(resolution, i), qs[i])
      {
        assert Takes(p, resolution, declared, args, i) && Sends(p, resolution, declared, args, i, qs[i]);
      }
    }
  }

  lemma ShortSignature()
    ensures |Concat(["s", "s", "v"])| == 3
  {
    assert ["s", "s", "v"][1..] == ["s", "v"] && ["s", "v"][1..] == ["v"] && ["v"][1..] == [];
  }

  lemma TheTextSignature(p: Platform, text: string)
    requires p.Native()
    ensures Convertible(p, true, String(text), "s")
    ensures forall q | Converts(p, true, String(text), "s", q) :: Denote(p, q) == Some(Leaf(Text(text)))
  {
    SingleComplete(Basic('s'));
    hide Denote, IsSingle, TypeOf, HasType, Within;
  }

  // ------------------------------------------------------------ judged covers sent

  /** Whatever the second introspection says, the interface sent is one the judgement covers. */
  lemma JudgedCoversSent(rules: P.Rules, judged: P.Target, owner: P.Lookup, reply: Reply)
    requires P.Decide(rules, judged, owner).allowed
    ensures var resolution := Resolved(reply, judged.interface, judged.method_);
            P.Decide(rules, judged.(interface := resolution.interface), owner).allowed
  {
    hide P.Decide;
    if reply.Xml? {
      R.KeepsInterface(reply.events, reply.hasError, judged.interface, judged.method_);
    }
    var interface := Resolved(reply, judged.interface, judged.method_).interface;
    assert judged.(interface := judged.interface) == judged;
    if judged.interface == "" { P.UnknownCoversAll(rules, judged, interface, owner); }
  }

  // ------------------------------------------------------------ the tool

  function Member(arguments: seq<(string, Json)>, key: string): Json {
    var value := Lookup(arguments, key);
    if value.Some? then value.value else Null
  }

  function BusArgument(value: Json): Option<string> {
    if value.Null? then Some("session")
    else if TextOf(value) in ["session", "system"] then Some(TextOf(value))
    else None
  }

  predicate TimeoutValid(value: Json) {
    value.Null? || (value.Number? && 1.0 <= value.number <= 2147483647.0 && value.number.Floor as real == value.number)
  }

  /** Refused before the policy is asked; or judged, then sent or not. */
  datatype Outcome = Rejected | Judged(target: P.Target, decision: P.Decision, audit: string, sent: Option<Message>)

  /** What the caller asks for; `None` when an argument is missing, of the wrong kind or holds a
      character no D-Bus name has. */
  ghost function Asked(arguments: seq<(string, Json)>): Option<P.Target> {
    var bus := BusArgument(Member(arguments, "bus"));
    var service, path := TextOf(Member(arguments, "service")), TextOf(Member(arguments, "path"));
    var interface, method_ := TextOf(Member(arguments, "interface")), TextOf(Member(arguments, "method"));
    if && bus.Some? && TimeoutValid(Member(arguments, "timeout_ms"))
       && service != "" && path != "" && method_ != ""
       && NamesOnly(service, ".-:") && NamesOnly(path, "/") && NamesOnly(interface, ".") && NamesOnly(method_, "")
    then Some(P.Target(bus.value, service, path, interface, method_))
    else None
  }

  function Args(arguments: seq<(string, Json)>): seq<Json> {
    var list := Member(arguments, "args");
    if list.List? then list.items else []
  }

  ghost predicate MayAsk(rules: P.Rules, bus: string, service: string) {
    (bus == "system" ==> rules.allowSystemBus) && (P.IsUnique(service) ==> rules.allowUniqueNames)
  }

  /** The target the policy is asked about: without an interface, the one the introspection data
      names, if the destination may be introspected at all; `None` when it does not answer. */
  ghost function ToJudge(rules: P.Rules, asked: P.Target, first: Reply): Option<P.Target> {
    if asked.interface == "" && MayAsk(rules, asked.bus, asked.service) then
      var found := Resolved(first, "", asked.method_);
      if TimedOut(first) then None
      else Some(asked.(interface := if found.state == R.Unique then found.interface else ""))
    else Some(asked)
  }

  method ReadArguments(arguments: seq<(string, Json)>) returns (asked: Option<P.Target>)
    ensures asked == Asked(arguments)
  {
    hide Member;
    var bus := BusArgument(Member(arguments, "bus"));
    if bus.None? {
      return None;
    }
    if !TimeoutValid(Member(arguments, "timeout_ms")) {
      return None;
    }
    var service, path := TextOf(Member(arguments, "service")), TextOf(Member(arguments, "path"));
    var interface, method_ := TextOf(Member(arguments, "interface")), TextOf(Member(arguments, "method"));
    if service == "" || path == "" || method_ == "" {
      return None;
    }
    var serviceOk := NameCharactersOnly(service, ".-:");
    var pathOk := NameCharactersOnly(path, "/");
    var interfaceOk := NameCharactersOnly(interface, ".");
    var methodOk := NameCharactersOnly(method_, "");
    if !serviceOk || !pathOk || !interfaceOk || !methodOk {
      return None;
    }
    asked := Some(P.Target(bus.value, service, path, interface, method_));
  }

  /** `text` is what an argument gives as a text; "" stands for anything else. */
  ghost predicate Gives(arguments: seq<(string, Json)>, key: string, text: string) {
    if text != "" then Lookup(arguments, key) == Some(String(text))
    else forall other | Lookup(arguments, key) == Some(String(other)) :: other == ""
  }

  /** The bus is "session" or "system", and "session" when it is not given. */
  ghost predicate GivesBus(arguments: seq<(string, Json)>, bus: string) {
    || (bus == "session" && Lookup(arguments, "bus") in [None, Some(Null)])
    || ((bus == "session" || bus == "system") && Lookup(arguments, "bus") == Some(String(bus)))
  }

  ghost predicate GivesTimeout(arguments: seq<(string, Json)>) {
    || Lookup(arguments, "timeout_ms") in [None, Some(Null)]
    || exists ms :: && Lookup(arguments, "timeout_ms") == Some(Number(ms))
                    && 1.0 <= ms <= 2147483647.0 && ms.Floor as real == ms
  }

  /** Which argument says what, and when the call goes on. */
  lemma AskedExactly(arguments: seq<(string, Json)>, t: P.Target)
    ensures Asked(arguments) == Some(t) <==>
            && GivesBus(arguments, t.bus) && GivesTimeout(arguments)
            && Gives(arguments, "service", t.service) && t.service != "" && NamesOnly(t.service, ".-:")
            && Gives(arguments, "path", t.path) && t.path != "" && NamesOnly(t.path, "/")
            && Gives(arguments, "interface", t.interface) && NamesOnly(t.interface, ".")
            && Gives(arguments, "method", t.method_) && t.method_ != "" && NamesOnly(t.method_, "")
    ensures forall items :: Lookup(arguments, "args") == Some(List(items)) ==> Args(arguments) == items
    ensures (forall items :: Lookup(arguments, "args") != Some(List(items))) ==> Args(arguments) == []
  {
    hide Lookup, NamesOnly;
    var list := Member(arguments, "args");
    assert list.List? ==> list == List(list.items);
    var timeout := Member(arguments, "timeout_ms");
    assert TimeoutValid(timeout) <==> GivesTimeout(arguments);
    assert BusArgument(Member(arguments, "bus")) == Some(t.bus) <==> GivesBus(arguments, t.bus);
    assert TextOf(Member(arguments, "service")) == t.service <==> Gives(arguments, "service", t.service);
    assert TextOf(Member(arguments, "path")) == t.path <==> Gives(arguments, "path", t.path);
    assert TextOf(Member(arguments, "interface")) == t.interface <==> Gives(arguments, "interface", t.interface);
    assert TextOf(Member(arguments, "method")) == t.method_ <==> Gives(arguments, "method", t.method_);
    hide Gives, GivesBus, GivesTimeout, TimeoutValid, BusArgument, TextOf, Member;
  }

  /** What is judged: the call as asked for, but with the interface of the one declaration that stands
      in the introspection data, when none was given and the destination is not refused by itself. */
  lemma JudgedTarget(rules: P.Rules, asked: P.Target, first: Reply, before: nat, root: R.Xml, after: nat)
    requires R.IsIntrospection(root)
    ensures var judged := ToJudge(rules, asked, first);
            var declared := R.Methods(root.children, "", asked.method_);
            if asked.interface != "" || (asked.bus == "system" && !rules.allowSystemBus)
               || (P.IsUnique(asked.service) && !rules.allowUniqueNames) then judged == Some(asked)
            else if first == Failed("org.freedesktop.DBus.Error.NoReply")
                    || first == Failed("org.freedesktop.DBus.Error.Timeout") then judged == None
            else if first == Xml(R.Document(before, root, after), false) && |declared| == 1 then
              judged == Some(asked.(interface := declared[0].interface))
            else first == Xml(R.Document(before, root, after), false) || !first.Xml? || first.hasError ==>
                   judged == Some(asked)
  {
    R.ResolvesTree(before, root, after, "", asked.method_);
    hide R.Resolve, R.Methods, R.Document, R.IsIntrospection;
  }

  method FindTarget(policy: P.CallPolicy, asked: P.Target, first: Reply) returns (target: Option<P.Target>)
    ensures target == ToJudge(policy.View(), asked, first)
  {
    hide P.Decide, Resolved;
    target := Some(asked);
    var mayAsk := policy.DestinationAllowed(asked.bus, asked.service);
    if asked.interface == "" && mayAsk {
      var resolution := ResolveMethod(first, "", asked.method_);
      if TimedOut(first) {
        return None;
      }
      if resolution.state == R.Unique {
        target := Some(asked.(interface := resolution.interface));
      }
    }
  }

  /** DBusCallTool::call. `first` answers the introspection before the judgement, `second` the one
      of callMethod: the two need not agree. What is sent is the judged call, with an interface the
      policy allows. */
  method Call(policy: P.CallPolicy, p: Platform, arguments: seq<(string, Json)>, bus: P.Bus,
              connected: bool, first: Reply, second: Reply) returns (outcome: Outcome)
    modifies bus
    ensures outcome.Judged? <==>
            Asked(arguments).Some? && ToJudge(policy.View(), Asked(arguments).value, first).Some?
    ensures outcome.Judged? ==>
              var t := outcome.target;
              && Some(t) == ToJudge(policy.View(), Asked(arguments).value, first)
              && outcome.decision == P.Decide(policy.View(), t, Some(bus.owner))
              && outcome.audit == AuditLine(t, outcome.decision)
              && (outcome.sent.Some? <==>
                   && outcome.decision.allowed && connected && !TimedOut(second)
                   && var resolution := Resolved(second, t.interface, t.method_);
                      TakesAll(p, resolution, DeclaredType(second, resolution, t.method_, Args(arguments)), Args(arguments)))
    ensures outcome.Judged? && outcome.sent.Some? ==>
              var t, message := outcome.target, outcome.sent.value;
              && message.bus == t.bus && message.service == t.service && message.path == t.path
              && message.member == t.method_
              && (t.interface != "" ==> message.interface == t.interface)
              && P.Decide(policy.View(), t.(interface := message.interface), Some(bus.owner)).allowed
              && var resolution := Resolved(second, t.interface, t.method_);
                 SendsAll(p, resolution, DeclaredType(second, resolution, t.method_, Args(arguments)), Args(arguments),
                          message.arguments)
  {
    hide P.Decide, Resolved, DeclaredType, TakesAll, SendsAll, Asked, ToJudge, AuditLine;
    var asked := ReadArguments(arguments);
    if asked.None? {
      return Rejected;
    }
    var found := FindTarget(policy, asked.value, first);
    if found.None? {
      return Rejected;
    }
    var target := found.value;
    var decision, _ := policy.Evaluate(target, bus);
    var audit := AuditLine(target, decision);
    if !decision.allowed {
      return Judged(target, decision, audit, None);
    }
    var sent := CallMethod(p, connected, second, target.bus, target.service, target.path, target.interface,
                           target.method_, Args(arguments));
    JudgedCoversSent(policy.View(), target, Some(bus.owner), second);
    KeptInterface(second, target.interface, target.method_);
    outcome := Judged(target, decision, audit, sent);
  }

  lemma KeptInterface(reply: Reply, interface: string, method_: string)
    ensures interface != "" ==> Resolved(reply, interface, method_).interface == interface
  {
    if reply.Xml? { R.KeepsInterface(reply.events, reply.hasError, interface, method_); }
  }

  /** A judged call has checked names; only an interface the caller did not give is not checked. */
  lemma JudgedNames(rules: P.Rules, arguments: seq<(string, Json)>, first: Reply)
    requires Asked(arguments).Some? && ToJudge(rules, Asked(arguments).value, first).Some?
    ensures var t := ToJudge(rules, Asked(arguments).value, first).value;
            && Addressed(t)
            && (TextOf(Member(arguments, "interface")) != "" || first.Failed? || first.Empty? ==> Plain(t.interface))
  {
    hide Member, R.Resolve;
  }
}
