/** What each kind of message does, told from the members of its JSON object: which calls are accepted,
    which subscriptions opened, what is answered at once and with what, and what a cancellation
    reaches. */
module EngineRequests {
  import opened Wrappers
  import opened Json
  import opened Engine
  import opened RunnerInvariant

  // ------------------------------------------------------------ messages by their members

  ghost predicate Has(object_: Json, key: string, value: Json) {
    object_.Object? && Lookup(object_.members, key) == Some(value)
  }

  ghost predicate Lacks(object_: Json, key: string) {
    object_.Object? ==> Lookup(object_.members, key) == None
  }

  /** A request: an id that is text or number, the name of a method, and parameters if any. */
  ghost predicate IsRequest(message: Json, id: Id, name: string, params: Json) {
    && Has(message, "id", id) && (id.String? || id.Number?)
    && Has(message, "method", String(name)) && name != ""
    && (Has(message, "params", params) || (Lacks(message, "params") && params == Null))
  }

  ghost predicate IsNotification(message: Json, name: string, params: Json) {
    && Lacks(message, "id") && Has(message, "method", String(name)) && name != ""
    && (Has(message, "params", params) || (Lacks(message, "params") && params == Null))
  }

  /** A response, to a request this server never made. */
  ghost predicate IsResponse(message: Json) {
    Lacks(message, "method") && !(Lacks(message, "result") && Lacks(message, "error"))
  }

  /** The name of a method, which is never empty. */
  ghost predicate Names(message: Json) {
    exists name :: name != "" && Has(message, "method", String(name))
  }

  /** The id a message can be answered with. */
  ghost predicate Identified(message: Json, id: Id) {
    Has(message, "id", id) && (id.String? || id.Number?)
  }

  /** Under "_meta", `params` has `value` for `key`. */
  ghost predicate HasMeta(params: Json, key: string, value: Json) {
    exists meta :: Has(params, "_meta", meta) && Has(meta, key, value)
  }

  /** The 2026-07-28 era: a request that names its protocol version. */
  ghost predicate Versioned(params: Json) {
    exists version :: HasMeta(params, "io.modelcontextprotocol/protocolVersion", version)
  }

  ghost predicate Capable(params: Json) {
    exists members :: HasMeta(params, "io.modelcontextprotocol/clientCapabilities", Object(members))
  }

  /** A version that is served, and capabilities. */
  ghost predicate InOrder(params: Json) {
    HasMeta(params, "io.modelcontextprotocol/protocolVersion", String("2026-07-28")) && Capable(params)
  }

  /** A known tool by name, and arguments that are an object, null or absent. */
  ghost predicate CallsTool(params: Json, tool: string, c: Config) {
    && Has(params, "name", String(tool)) && tool in c.tools
    && (Lacks(params, "arguments") || Has(params, "arguments", Null)
        || exists members :: Has(params, "arguments", Object(members)))
  }

  // ------------------------------------------------------------ how the code reads them

  lemma Read(object_: Json, key: string)
    ensures Lacks(object_, key) <==> Member(object_, key) == None
    ensures forall value :: Has(object_, key, value) <==> Member(object_, key) == Some(value)
  {
    hide Lookup;
  }

  lemma RequestRead(message: Json, id: Id, name: string, params: Json)
    requires IsRequest(message, id, name, params)
    ensures forall s: State, c: Config, slot: nat ::
              OnMessage(s, c, message, slot) == HandleRequest(s, c, id, name, params, slot)
  {
    Read(message, "id");
    Read(message, "method");
    Read(message, "params");
    hide Member, Has, Lacks, HandleRequest, Reject, HandleNotification;
  }

  lemma NotificationRead(message: Json, name: string, params: Json)
    requires IsNotification(message, name, params)
    ensures forall s: State, c: Config, slot: nat ::
              OnMessage(s, c, message, slot) == HandleNotification(s, name, params)
  {
    Read(message, "id");
    Read(message, "method");
    Read(message, "params");
    hide Member, Has, Lacks, HandleRequest, Reject, HandleNotification;
  }

  lemma MetaRead(params: Json, key: string)
    ensures forall value :: HasMeta(params, key, value) <==> Member(Meta(params), key) == Some(value)
  {
    Read(params, "_meta");
    hide Lookup;
    if Member(params, "_meta").Some? {
      var meta := Member(params, "_meta").value;
      Read(meta, key);
      hide Member, Has;
      assert forall value :: HasMeta(params, key, value) <==> Has(meta, key, value);
    } else {
      hide Has;
      assert forall value :: !HasMeta(params, key, value);
      assert Meta(params) == Null;
    }
  }

  lemma EraRead(name: string, params: Json)
    ensures IsModernRequest(name, params) <==> name != "initialize" && Versioned(params)
    ensures Versioned(params) <==> Member(Meta(params), PROTOCOL_VERSION).Some?
    ensures Capable(params) <==> OrNull(Member(Meta(params), CLIENT_CAPABILITIES)).Object?
    ensures InOrder(params) <==> Member(Meta(params), PROTOCOL_VERSION) == Some(String("2026-07-28")) && Capable(params)
  {
    MetaRead(params, PROTOCOL_VERSION);
    MetaRead(params, CLIENT_CAPABILITIES);
    hide HasMeta, Member, Meta;
  }

  // ------------------------------------------------------------ calls

  /** What else happens when the write of a message is the first to fail. */
  function Fallout(s: State): seq<Event> {
    if s.closing || !Trips(s.output) then [] else Farewells(s.listens) + FinishedIf(s.runner)
  }

  lemma ToolRead(params: Json, c: Config)
    ensures var name, arguments := OrNull(Member(params, "name")), OrNull(Member(params, "arguments"));
            (exists tool :: CallsTool(params, tool, c)) <==>
            params.Object? && name.String? && (arguments.Null? || arguments.Object?) && name.text in c.tools
    ensures forall tool :: CallsTool(params, tool, c) ==> Member(params, "name") == Some(String(tool))
  {
    Read(params, "name");
    Read(params, "arguments");
    hide Member, Lookup;
    var name, arguments := OrNull(Member(params, "name")), OrNull(Member(params, "arguments"));
    if params.Object? && name.String? && (arguments.Null? || arguments.Object?) && name.text in c.tools {
      if arguments.Object? { assert Has(params, "arguments", Object(arguments.members)); }
      assert CallsTool(params, name.text, c);
    }
    if tool :| CallsTool(params, tool, c) {
      assert name == String(tool) && (arguments.Null? || arguments.Object?);
    }
  }

  /** The call under `id` is the latest of the runner: flag, table, task and queue are new for it. */
  ghost predicate Submitted(r: Runner, t: Runner, id: Id, serialized: bool) {
    var flag := r.nextFlag;
    && t.inFlight == r.inFlight[id := flag] && t.tasks == r.tasks[flag := Task(id, serialized)]
    && t.cancelled == r.cancelled && t.ran == r.ran && t.posted == r.posted
    && PoolOf(t, serialized) == PoolOf(r, serialized).(queue := PoolOf(r, serialized).queue + [flag])
    && PoolOf(t, !serialized) == PoolOf(r, !serialized)
  }

  /** A call of a tool with an unused id: it is accepted, under a new flag, in the era of its request. */
  ghost predicate Taken(s: State, t: State, id: Id, modern: bool, serialized: bool) {
    && t.history == s.history + [Received(id), Accepted(id, s.runner.nextFlag, modern)]
    && t.output == s.output && t.listens == s.listens && t.closing == s.closing
    && t.modernCalls == (if modern then s.modernCalls + {id} else s.modernCalls)
    && Submitted(s.runner, t.runner, id, serialized)
  }

  /** One message is handed out for the id, and nothing else is done. */
  ghost predicate Answered(s: State, t: State, id: Id, out: Out) {
    && t.history == s.history + [Received(id), Issued(out)] + Fallout(s)
    && t.runner == s.runner && t.modernCalls == s.modernCalls
  }

  lemma SendAnswers(s: State, id: Id, out: Out)
    ensures Answered(s, Send(Log(s, Received(id)), out), id, out)
  {
    SendIs(Log(s, Received(id)), out);
    hide Send, Farewells, FinishedIf;
    var h := s.history;
    assert h + [Received(id)] + [Issued(out)] == h + [Received(id), Issued(out)];
    assert h + [Received(id), Issued(out)] + [] == h + [Received(id), Issued(out)];
    var a, b := Farewells(s.listens), FinishedIf(s.runner);
    assert h + [Received(id), Issued(out)] + a + b == h + [Received(id), Issued(out)] + (a + b);
  }

  /** A call with an unused id is accepted if and only if its parameters are an object that names a
      known tool and has no arguments but an object; otherwise it is refused, once. */
  lemma CallIsDecided(s: State, c: Config, message: Json, id: Id, params: Json, slot: nat)
    requires IsRequest(message, id, "tools/call", params) && id !in s.runner.inFlight && id !in s.listens
    requires !s.closing && (Versioned(params) ==> InOrder(params))
    ensures var t := OnMessage(s, c, message, slot);
            && ((exists tool :: CallsTool(params, tool, c)) || Answered(s, t, id, Error(id, InvalidParams)))
            && forall tool | CallsTool(params, tool, c) :: Taken(s, t, id, Versioned(params), tool in c.serialized)
    ensures RunnerInv(s.runner) ==>
              s.runner.nextFlag !in s.runner.tasks && s.runner.nextFlag !in s.runner.cancelled + s.runner.ran
  {
    RequestRead(message, id, "tools/call", params);
    var received := Log(s, Received(id));
    CallRouted(received, c, id, params, slot);
    ToolsCallDecided(s, c, id, params, Versioned(params));
    hide Send, OnMessage, CallsTool, IsRequest, Versioned, InOrder, HandleModernRequest, HandleLegacyRequest,
         IsModernRequest, RunnerInv, HandleToolsCall, Answered, Taken;
    if RunnerInv(s.runner) { NewFlag(s.runner); }
  }

  lemma ToolsCallDecided(s: State, c: Config, id: Id, params: Json, modern: bool)
    requires !s.closing && id !in s.runner.inFlight
    ensures var t := HandleToolsCall(Log(s, Received(id)), c, id, params, modern);
            && ((exists tool :: CallsTool(params, tool, c)) || Answered(s, t, id, Error(id, InvalidParams)))
            && forall tool | CallsTool(params, tool, c) :: Taken(s, t, id, modern, tool in c.serialized)
  {
    ToolRead(params, c);
    SendAnswers(s, id, Error(id, InvalidParams));
    hide Send, Member, CallsTool, Answered, Submit, Submitted;
    if exists tool :: CallsTool(params, tool, c) {
      var tool :| CallsTool(params, tool, c);
      SubmittedAnew(s.runner, id, tool in c.serialized);
      var flag := s.runner.nextFlag;
      assert s.history + [Received(id)] + [Accepted(id, flag, modern)] == s.history + [Received(id), Accepted(id, flag, modern)];
    }
  }

  lemma CallRouted(s: State, c: Config, id: Id, params: Json, slot: nat)
    requires Versioned(params) ==> InOrder(params)
    ensures (if IsModernRequest("tools/call", params) then HandleModernRequest(s, c, id, "tools/call", params, slot)
             else HandleLegacyRequest(s, c, id, "tools/call", params)) ==
            HandleToolsCall(s, c, id, params, Versioned(params))
  {
    EraRead("tools/call", params);
    hide Send, HandleToolsCall, HandleListen, HandleModernToolsList, Versioned, InOrder, Member, Capable;
    var name := "tools/call";
    assert |name| == 10 && name[6] == 'c' && "tools/list"[6] == 'l' && |"initialize"| == 10 && "initialize"[0] == 'i';
    assert |"ping"| == 4 && |"server/discover"| == 15;
  }

  lemma SubmittedAnew(r: Runner, id: Id, serialized: bool)
    requires id !in r.inFlight
    ensures Submitted(r, Submit(r, id, serialized), id, serialized)
  {
  }

  lemma NewFlag(r: Runner)
    requires RunnerInv(r)
    ensures r.nextFlag !in r.tasks && r.nextFlag !in r.cancelled + r.ran
  {
    hide PoolInv, Placed, SerialOrder, Distinct;
  }

  // ------------------------------------------------------------ requests answered at once

  ghost predicate Modern(name: string, params: Json) {
    name != "initialize" && Versioned(params)
  }

  /** A request of the modern era is looked at only when version and capabilities are in order; the
      error says which is not. */
  lemma OutOfOrderIsRefused(s: State, c: Config, message: Json, id: Id, name: string, params: Json, slot: nat)
    requires IsRequest(message, id, name, params) && id !in s.runner.inFlight && id !in s.listens
    requires Modern(name, params) && !InOrder(params)
    ensures var t := OnMessage(s, c, message, slot);
            if exists version :: HasMeta(params, "io.modelcontextprotocol/protocolVersion", String(version))
                                 && version != "2026-07-28"
            then Answered(s, t, id, Error(id, UnsupportedProtocolVersion))
            else Answered(s, t, id, Error(id, InvalidParams))
  {
    RequestRead(message, id, name, params);
    EraRead(name, params);
    MetaRead(params, PROTOCOL_VERSION);
    SendAnswers(s, id, Error(id, UnsupportedProtocolVersion));
    SendAnswers(s, id, Error(id, InvalidParams));
    hide Send, OnMessage, IsRequest, Versioned, InOrder, Capable, Answered, Meta, Member, IsModernRequest, HasMeta;
    var version := OrNull(Member(Meta(params), PROTOCOL_VERSION));
    if version.String? && version.text != "2026-07-28" {
      assert HasMeta(params, "io.modelcontextprotocol/protocolVersion", String(version.text));
    }
  }

  /** What is answered at once, and with what: every request that is neither a call nor, in the modern
      era, a subscription. */
  function Payload(name: string, modern: bool): Option<Engine.Payload> {
    if modern then
      if name == "server/discover" then Some(Discovery) else if name == "tools/list" then Some(ModernTools) else None
    else if name == "initialize" then Some(Initialized)
    else if name == "ping" then Some(Pong)
    else if name == "tools/list" then Some(Tools)
    else None
  }

  lemma AnsweredAtOnce(s: State, c: Config, message: Json, id: Id, name: string, params: Json, slot: nat)
    requires IsRequest(message, id, name, params) && id !in s.runner.inFlight && id !in s.listens
    requires Modern(name, params) ==> InOrder(params) && name != "subscriptions/listen"
    requires name != "tools/call"
    ensures var t, payload := OnMessage(s, c, message, slot), Payload(name, Modern(name, params));
            if payload.None? then Answered(s, t, id, Error(id, MethodNotFound))
            else if payload == Some(ModernTools) && !Lacks(params, "cursor") then Answered(s, t, id, Error(id, InvalidParams))
            else Answered(s, t, id, Result(id, payload.value))
  {
    RequestRead(message, id, name, params);
    EraRead(name, params);
    Read(params, "cursor");
    forall out ensures Answered(s, Send(Log(s, Received(id)), out), id, out) { SendAnswers(s, id, out); }
    hide Send, OnMessage, IsRequest, Versioned, InOrder, Capable, Answered, Meta, Member, IsModernRequest, Lacks;
  }

  // ------------------------------------------------------------ requests that wait

  /** Nothing comes of a request whose id is in use, nor of a call while the server is closing. */
  lemma DroppedInSilence(s: State, c: Config, message: Json, id: Id, name: string, params: Json, slot: nat)
    requires IsRequest(message, id, name, params)
    requires || id in s.runner.inFlight || id in s.listens
             || (s.closing && name == "tools/call" && (Versioned(params) ==> InOrder(params)))
             || (s.closing && name == "subscriptions/listen" && InOrder(params))
    ensures OnMessage(s, c, message, slot) == s.(history := s.history + [Received(id), Dropped(id)])
  {
    RequestRead(message, id, name, params);
    assert s.history + [Received(id)] + [Dropped(id)] == s.history + [Received(id), Dropped(id)];
    hide OnMessage, IsRequest;
    if id !in s.runner.inFlight && id !in s.listens {
      if name == "tools/call" {
        CallRouted(Log(s, Received(id)), c, id, params, slot);
        hide IsModernRequest, HandleModernRequest, HandleLegacyRequest, Versioned, InOrder, Send, Member;
      } else {
        ListenRouted(Log(s, Received(id)), c, id, params, slot);
        hide IsModernRequest, HandleModernRequest, HandleLegacyRequest, Versioned, InOrder, Send, Member;
      }
    }
  }

  lemma ListenRouted(s: State, c: Config, id: Id, params: Json, slot: nat)
    requires InOrder(params)
    ensures IsModernRequest("subscriptions/listen", params)
    ensures HandleModernRequest(s, c, id, "subscriptions/listen", params, slot) == HandleListen(s, id, slot)
  {
    EraRead("subscriptions/listen", params);
    hide Send, HandleToolsCall, HandleListen, HandleModernToolsList, Versioned, InOrder, Member, Capable;
    assert |"subscriptions/listen"| == 20 && |"tools/list"| == |"tools/call"| == 10 && |"server/discover"| == 15;
    assert |"initialize"| == 10;
  }

  /** A subscription with an unused id is opened and then acknowledged; when that very write is the first
      to fail, it is closed again with all the others. */
  lemma ListenIsOpened(s: State, c: Config, message: Json, id: Id, params: Json, slot: nat)
    requires IsRequest(message, id, "subscriptions/listen", params) && id !in s.runner.inFlight && id !in s.listens
    requires InOrder(params) && !s.closing
    ensures var t, more := OnMessage(s, c, message, slot), Placing(s.listens, id, slot);
            && t.history == s.history + [Received(id), Opened(id), Issued(Acknowledged(id))] + Fallout(s.(listens := more))
            && t.runner == s.runner && t.modernCalls == s.modernCalls
            && t.listens == (if Trips(s.output) then [] else more)
            && forall other :: other in more <==> other in s.listens || other == id
  {
    RequestRead(message, id, "subscriptions/listen", params);
    ListenRouted(Log(s, Received(id)), c, id, params, slot);
    var more := Placing(s.listens, id, slot);
    var opened_ := Log(Log(s, Received(id)), Opened(id)).(listens := more);
    SendIs(opened_, Acknowledged(id));
    PlacingHolds(s.listens, id, slot);
    hide OnMessage, IsRequest, Send, InOrder, HandleModernRequest, Placing, Farewells, FinishedIf;
    var h := s.history;
    var k := h + [Received(id), Opened(id), Issued(Acknowledged(id))];
    assert h + [Received(id)] + [Opened(id)] + [Issued(Acknowledged(id))] == k && k + [] == k;
    var a, b := Farewells(more), FinishedIf(s.runner);
    assert k + a + b == k + (a + b);
  }

  lemma PlacingHolds(ids: seq<Id>, id: Id, slot: nat)
    ensures forall other :: other in Placing(ids, id, slot) <==> other in ids || other == id
  {
    var at := if slot <= |ids| then slot else |ids|;
    assert ids == ids[..at] + ids[at..];
  }

  // ------------------------------------------------------------ notifications

  /** A cancellation closes the subscription with its id; sets the flag of the call with its id, and
      forgets its era; does nothing when there is neither. */
  lemma CancellationReaches(s: State, c: Config, message: Json, params: Json, id: Id, slot: nat)
    requires IsNotification(message, "notifications/cancelled", params) && Has(params, "requestId", id)
    requires NoDuplicates(s.listens)
    ensures var t := OnMessage(s, c, message, slot);
            if id in s.listens then
              && t == s.(listens := t.listens, history := s.history + [Unlistened(id)])
              && NoDuplicates(t.listens) && forall other :: other in t.listens <==> other in s.listens && other != id
            else if id in s.runner.inFlight then
              && t == s.(runner := t.runner, modernCalls := s.modernCalls - {id}, history := t.history)
              && t.runner == s.runner.(cancelled := s.runner.cancelled + {s.runner.inFlight[id]})
              && t.history == s.history + if s.runner.inFlight[id] in s.runner.cancelled then [] else [Cancelled(id)]
            else t == s
  {
    NotificationRead(message, "notifications/cancelled", params);
    Read(params, "requestId");
    hide OnMessage, IsNotification, Member, Has, NoDuplicates;
    if id in s.listens { Removed(s.listens, id); }
    assert s.history + [] == s.history;
  }

  lemma {:induction false} Removed(ids: seq<Id>, id: Id)
    requires NoDuplicates(ids)
    ensures NoDuplicates(Remove(ids, id)) && forall other :: other in Remove(ids, id) <==> other in ids && other != id
  {
    if ids != [] {
      var rest := ids[1..];
      assert ids == [ids[0]] + rest;
      assert forall i | 0 <= i < |rest| :: rest[i] == ids[i + 1];
      if ids[0] == id {
        assert id !in rest;
      } else {
        Removed(rest, id);
        var less := Remove(rest, id);
        var all := [ids[0]] + less;
        assert ids[0] !in less;
        assert forall i | 1 <= i < |all| :: all[i] == less[i - 1];
      }
    }
  }

  /** Other notifications, cancellations of nothing, and responses of the client change nothing. */
  lemma IgnoredInSilence(s: State, c: Config, message: Json, slot: nat)
    requires || (exists name, params :: IsNotification(message, name, params) && name != "notifications/cancelled")
             || (exists params :: && IsNotification(message, "notifications/cancelled", params)
                                  && Lacks(params, "requestId") && Null !in s.listens && Null !in s.runner.inFlight)
             || IsResponse(message)
    ensures OnMessage(s, c, message, slot) == s
  {
    if name, params :| IsNotification(message, name, params) && name != "notifications/cancelled" {
      NotificationRead(message, name, params);
      hide OnMessage;
    } else if params :| IsNotification(message, "notifications/cancelled", params) && Lacks(params, "requestId") {
      NotificationRead(message, "notifications/cancelled", params);
      Read(params, "requestId");
      hide OnMessage, Member;
    } else {
      Read(message, "method");
      Read(message, "result");
      Read(message, "error");
    }
  }

  // ------------------------------------------------------------ what is neither

  lemma MalformedRead(message: Json)
    ensures IsStray(message) <==> IsResponse(message)
    ensures IsMalformed(message) <==> !Names(message) || !(Lacks(message, "id") || exists id :: Identified(message, id))
    ensures var id := OrNull(Member(message, "id"));
            && (IsId(id) ==> Identified(message, id)) && forall other :: Identified(message, other) ==> other == id && IsId(id)
  {
    Read(message, "method");
    Read(message, "result");
    Read(message, "error");
    Read(message, "id");
    hide Member, Has, Lacks;
    var name, id := OrNull(Member(message, "method")), OrNull(Member(message, "id"));
    if name.String? && name.text != "" { assert Has(message, "method", String(name.text)); }
    if IsId(id) { assert Identified(message, id); }
  }

  /** Any other message gets one error, under its id if it has one. */
  lemma MalformedIsRefused(s: State, c: Config, message: Json, slot: nat) returns (id: Id)
    requires !IsResponse(message)
    requires !Names(message) || !(Lacks(message, "id") || exists id :: Identified(message, id))
    ensures Identified(message, id) || (id == Null && forall other :: !Identified(message, other))
    ensures var t := OnMessage(s, c, message, slot);
            && t.history == s.history + [Rejected(id), Issued(Malformed(id))] + Fallout(s)
            && t.runner == s.runner && t.modernCalls == s.modernCalls
  {
    MalformedRead(message);
    hide Send, Member, IsResponse, Names, Identified, Lacks, IsStray, IsMalformed, Farewells, FinishedIf;
    id := OrNull(Member(message, "id"));
    if !IsId(id) { id := Null; }
    SendIs(Log(s, Rejected(id)), Malformed(id));
    var h := s.history;
    var k := h + [Rejected(id), Issued(Malformed(id))];
    assert h + [Rejected(id)] + [Issued(Malformed(id))] == k && k + [] == k;
    var a, b := Farewells(s.listens), FinishedIf(s.runner);
    assert k + a + b == k + (a + b);
  }

  /** A frame that is no JSON object gets the error of its kind, without an id; the end of the input, like a
      write that fails for the first time, shuts the server down. */
  lemma FrameIsRefused(s: State, c: Config, code: Framing.Code)
    ensures var t := Step(s, c, BadFrame(code));
            t.history == s.history + [Issued(InvalidFrame(code))] + Fallout(s) && t.runner == s.runner
    ensures var t := Step(s, c, EndOfInput);
            && t.closing && t.runner == s.runner && t.modernCalls == s.modernCalls
            && t.history == s.history + if s.closing then [] else Farewells(s.listens) + FinishedIf(s.runner)
  {
    SendIs(s, InvalidFrame(code));
    ShutdownIs(s);
    hide Send, Shutdown, Farewells, FinishedIf;
    var h := s.history + [Issued(InvalidFrame(code))];
    assert h + [] == h && s.history + [] == s.history;
    var a, b := Farewells(s.listens), FinishedIf(s.runner);
    assert h + a + b == h + (a + b) && s.history + a + b == s.history + (a + b);
  }
}
