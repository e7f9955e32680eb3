/** The concurrent request engine (server.cpp, toolrunner.cpp, and send of stdiotransport.cpp) as a
    transition system: the frames of the client, the cancellations, the end of the input and the
    results posted by the workers are handled one at a time by the main thread, while the workers of
    two pools start, load their cancel flag and return at any moment in between.

    This module holds the states and what each step does to them; ToolRunner and Server hold the
    objects. */
module Engine {
  import opened Wrappers
  import opened Json
  import Framing

  // ------------------------------------------------------------ states

  /** An id is its own key: distinct ids have distinct texts. */
  type Id = Json

  /** The number of a cancel flag; a new call gets the next one. */
  type Flag = int

  const CAPACITY := 4
  const SERIAL_CAPACITY := 1

  datatype ErrorCode = MethodNotFound | InvalidParams | UnsupportedProtocolVersion
  datatype Payload = Initialized | Pong | Tools | Discovery | ModernTools

  /** What the server hands to the transport. */
  datatype Out =
    | InvalidFrame(code: Framing.Code)
    | Malformed(id: Id)
    | Result(id: Id, payload: Payload)
    | Error(id: Id, error: ErrorCode)
    | ToolResult(id: Id, text: string, modern: bool)
    | Acknowledged(id: Id)
    | Completion(id: Id)
    | CancelledNote(id: Id)

  /** What happened, in order: a frame that is no request, a well-formed request, and so on. `Finished`
      keeps the calls in flight at that moment. */
  datatype Event =
    | Rejected(id: Id)
    | Received(id: Id)
    | Dropped(id: Id)
    | Accepted(id: Id, flag: Flag, modern: bool)
    | Returned(flag: Flag, text: string)
    | Cancelled(id: Id)
    | Opened(id: Id)
    | Unlistened(id: Id)
    | Issued(out: Out)
    | Finished(inFlight: set<Id>)

  /** What a worker captures, its cancel flag (a number) being the key it is stored under. */
  datatype Task = Task(id: Id, serial: bool)
  /** A thread pool: calls waiting, workers before and after they load their flag. */
  datatype Pool = Pool(queue: seq<Flag>, started: set<Flag>, calling: set<Flag>)
  /** A finish() posted to the main thread. */
  datatype Done = Done(flag: Flag, text: string)

  /** Flags are shared: `inFlight` and the record of the worker hold the same number, and `cancelled`
      those that are set. `ran` remembers the flags whose worker called its tool. */
  datatype Runner = Runner(inFlight: map<Id, Flag>, cancelled: set<Flag>, nextFlag: Flag, tasks: map<Flag, Task>,
                           general: Pool, serial: Pool, posted: seq<Done>, ran: set<Flag>)

  /** `writable` is the number of writes to stdout that still succeed. */
  datatype Output = Output(broken: bool, writable: nat, written: seq<Out>)

  /** `eras` and `history` only record: which era a flag's request came from, and what happened. */
  datatype State = State(runner: Runner, modernCalls: set<Id>, listens: seq<Id>, closing: bool, output: Output,
                         eras: map<Flag, bool>, history: seq<Event>)

  datatype Config = Config(tools: set<string>, serialized: set<string>)

  const NO_POOL := Pool([], {}, {})

  function Initial(writable: nat): State {
    State(Runner(map[], {}, 0, map[], NO_POOL, NO_POOL, [], {}), {}, [], false, Output(false, writable, []), map[], [])
  }

  function Log(s: State, e: Event): State {
    s.(history := s.history + [e])
  }

  // ------------------------------------------------------------ sending and shutting down

  /** send(): the first write that fails closes the transport, which shuts the server down. */
  function Send(s: State, out: Out): (t: State)
    ensures s.closing ==> t.closing
    decreases !s.closing, 1, 0
  {
    var logged := Log(s, Issued(out));
    if s.output.broken then logged
    else if s.output.writable > 0 then
      logged.(output := Output(false, s.output.writable - 1, s.output.written + [out]))
    else Shutdown(logged.(output := s.output.(broken := true)))
  }

  /** shutdown() */
  function Shutdown(s: State): (t: State)
    ensures t.closing
    decreases !s.closing, 0, 0
  {
    if s.closing then s
    else
      var t := CloseSubscriptions(s.(closing := true), s.listens).(listens := []);
      if t.runner.inFlight == map[] then Log(t, Finished(t.runner.inFlight.Keys)) else t
  }

  /** The loop of closeSubscriptions(). */
  function CloseSubscriptions(s: State, ids: seq<Id>): (t: State)
    requires s.closing
    ensures t.closing
    decreases !s.closing, 2, |ids|
  {
    if ids == [] then s
    else CloseSubscriptions(Send(Send(s, Completion(ids[0])), CancelledNote(ids[0])), ids[1..])
  }

  // ------------------------------------------------------------ the tool runner

  /** submit() */
  function Submit(r: Runner, id: Id, serialized: bool): Runner {
    if id in r.inFlight then r
    else
      var flag := r.nextFlag;
      var queued := r.(inFlight := r.inFlight[id := flag], nextFlag := flag + 1,
                       tasks := r.tasks[flag := Task(id, serialized)]);
      if serialized then queued.(serial := r.serial.(queue := r.serial.queue + [flag]))
      else queued.(general := r.general.(queue := r.general.queue + [flag]))
  }

  /** cancel(), for an id in flight. */
  function Cancel(r: Runner, id: Id): Runner
    requires id in r.inFlight
  {
    r.(cancelled := r.cancelled + {r.inFlight[id]})
  }

  function PoolOf(r: Runner, serialized: bool): Pool {
    if serialized then r.serial else r.general
  }

  function WithPool(r: Runner, serialized: bool, pool: Pool): Runner {
    if serialized then r.(serial := pool) else r.(general := pool)
  }

  function Capacity(serialized: bool): nat {
    if serialized then SERIAL_CAPACITY else CAPACITY
  }

  /** A free worker takes the call that waits longest. */
  predicate CanStart(r: Runner, serialized: bool) {
    var pool := PoolOf(r, serialized);
    pool.queue != [] && |pool.started| + |pool.calling| < Capacity(serialized)
  }

  function Start(r: Runner, serialized: bool): Runner
    requires CanStart(r, serialized)
  {
    var pool := PoolOf(r, serialized);
    WithPool(r, serialized, pool.(queue := pool.queue[1..], started := pool.started + {pool.queue[0]}))
  }

  /** The worker loads its flag, and calls the tool unless it is set. */
  function Load(r: Runner, serialized: bool, flag: Flag): Runner
    requires flag in PoolOf(r, serialized).started
  {
    var pool := PoolOf(r, serialized);
    var moved := pool.(started := pool.started - {flag}, calling := pool.calling + {flag});
    WithPool(r, serialized, moved).(ran := if flag in r.cancelled then r.ran else r.ran + {flag})
  }

  /** The text a worker posts: what the tool gave, or nothing when it was not called. */
  function Outcome(r: Runner, flag: Flag, text: string): string {
    if flag in r.ran then text else ""
  }

  /** The worker posts its result and is free again. */
  function Return(r: Runner, serialized: bool, flag: Flag, text: string): Runner
    requires flag in PoolOf(r, serialized).calling
  {
    var pool := PoolOf(r, serialized);
    WithPool(r, serialized, pool.(calling := pool.calling - {flag}))
      .(posted := r.posted + [Done(flag, Outcome(r, flag, text))])
  }

  /** The id whose finish() comes next, as its worker captured it. */
  function NextId(r: Runner): Id
    requires r.posted != [] && r.posted[0].flag in r.tasks
  {
    r.tasks[r.posted[0].flag].id
  }

  function Take(r: Runner): Runner
    requires r.posted != [] && r.posted[0].flag in r.tasks
  {
    r.(inFlight := r.inFlight - {NextId(r)}, tasks := r.tasks - {r.posted[0].flag}, posted := r.posted[1..])
  }

  // ------------------------------------------------------------ the server

  /** sendToolResult() */
  function SendToolResult(s: State, id: Id, text: string): State {
    Send(s.(modernCalls := s.modernCalls - {id}), ToolResult(id, text, id in s.modernCalls))
  }

  /** What idle() is connected to. */
  function Idle(s: State): State {
    if s.closing then Log(s, Finished(s.runner.inFlight.Keys)) else s
  }

  /** finish(), with the flag found under the id, if any. */
  function Finish(s: State): State
    requires s.runner.posted != [] && s.runner.posted[0].flag in s.runner.tasks
  {
    var r, id := s.runner, NextId(s.runner);
    var taken := s.(runner := Take(r));
    var sent := if id in r.inFlight && r.inFlight[id] !in r.cancelled
                then SendToolResult(taken, id, r.posted[0].text) else taken;
    if sent.runner.inFlight == map[] then Idle(sent) else sent
  }

  function Member(value: Json, key: string): Option<Json> {
    if value.Object? then Lookup(value.members, key) else None
  }

  function OrNull(value: Option<Json>): Json {
    if value.Some? then value.value else Null
  }

  /** The call is submitted, and its era remembered. */
  function Accept(s: State, id: Id, serialized: bool, modern: bool): State {
    var flag := s.runner.nextFlag;
    Log(s, Accepted(id, flag, modern)).(runner := Submit(s.runner, id, serialized), eras := s.eras[flag := modern],
      modernCalls := if modern then s.modernCalls + {id} else s.modernCalls)
  }

  /** handleToolsCall() */
  function HandleToolsCall(s: State, c: Config, id: Id, params: Json, modern: bool): State {
    var name, arguments := OrNull(Member(params, "name")), OrNull(Member(params, "arguments"));
    if s.closing then Log(s, Dropped(id))
    else if !params.Object? || !name.String? || !(arguments.Null? || arguments.Object?) then
      Send(s, Error(id, InvalidParams))
    else if name.text !in c.tools then Send(s, Error(id, InvalidParams))
    else if id in s.runner.inFlight then Log(s, Dropped(id))
    else Accept(s, id, name.text in c.serialized, modern)
  }

  /** Where a new subscription lands among the others is up to the hash that holds them. */
  function Placing(ids: seq<Id>, id: Id, slot: nat): seq<Id> {
    var at := if slot <= |ids| then slot else |ids|;
    ids[..at] + [id] + ids[at..]
  }

  /** handleListen() */
  function HandleListen(s: State, id: Id, slot: nat): State {
    if s.closing then Log(s, Dropped(id))
    else Send(Log(s, Opened(id)).(listens := Placing(s.listens, id, slot)), Acknowledged(id))
  }

  const PROTOCOL_VERSION := "io.modelcontextprotocol/protocolVersion"
  const CLIENT_CAPABILITIES := "io.modelcontextprotocol/clientCapabilities"
  const MODERN_VERSIONS: set<string> := {"2026-07-28"}

  function Meta(params: Json): Json {
    OrNull(Member(params, "_meta"))
  }

  predicate IsModernRequest(name: string, params: Json) {
    name != "initialize" && Member(Meta(params), PROTOCOL_VERSION).Some?
  }

  /** handleModernToolsList() */
  function HandleModernToolsList(s: State, id: Id, params: Json): State {
    Send(s, if Member(params, "cursor").Some? then Error(id, InvalidParams) else Result(id, ModernTools))
  }

  /** handleModernRequest(): version, capabilities, method, then the parameters of the method. */
  function HandleModernRequest(s: State, c: Config, id: Id, name: string, params: Json, slot: nat): State {
    var version := OrNull(Member(Meta(params), PROTOCOL_VERSION));
    if !version.String? then Send(s, Error(id, InvalidParams))
    else if version.text !in MODERN_VERSIONS then Send(s, Error(id, UnsupportedProtocolVersion))
    else if !OrNull(Member(Meta(params), CLIENT_CAPABILITIES)).Object? then Send(s, Error(id, InvalidParams))
    else if name == "server/discover" then Send(s, Result(id, Discovery))
    else if name == "tools/list" then HandleModernToolsList(s, id, params)
    else if name == "tools/call" then HandleToolsCall(s, c, id, params, true)
    else if name == "subscriptions/listen" then HandleListen(s, id, slot)
    else Send(s, Error(id, MethodNotFound))
  }

  function HandleLegacyRequest(s: State, c: Config, id: Id, name: string, params: Json): State {
    if name == "initialize" then Send(s, Result(id, Initialized))
    else if name == "ping" then Send(s, Result(id, Pong))
    else if name == "tools/list" then Send(s, Result(id, Tools))
    else if name == "tools/call" then HandleToolsCall(s, c, id, params, false)
    else Send(s, Error(id, MethodNotFound))
  }

  function Remove(ids: seq<Id>, id: Id): seq<Id> {
    if ids == [] then []
    else if ids[0] == id then ids[1..]
    else [ids[0]] + Remove(ids[1..], id)
  }

  /** The flag is set, and the era forgotten. */
  function Cancelling(s: State, id: Id): State
    requires id in s.runner.inFlight
  {
    var known := if s.runner.inFlight[id] in s.runner.cancelled then s else Log(s, Cancelled(id));
    known.(runner := Cancel(s.runner, id), modernCalls := s.modernCalls - {id})
  }

  /** handleNotification() */
  function HandleNotification(s: State, name: string, params: Json): State {
    var id := OrNull(Member(params, "requestId"));
    if name != "notifications/cancelled" then s
    else if id in s.listens then Log(s, Unlistened(id)).(listens := Remove(s.listens, id))
    else if id in s.runner.inFlight then
      Cancelling(s, id)
    else s
  }

  /** A request that got past the checks of onMessage(). */
  function HandleRequest(s: State, c: Config, id: Id, name: string, params: Json, slot: nat): State {
    var received := Log(s, Received(id));
    if id in s.runner.inFlight || id in s.listens then Log(received, Dropped(id))
    else if IsModernRequest(name, params) then HandleModernRequest(received, c, id, name, params, slot)
    else HandleLegacyRequest(received, c, id, name, params)
  }

  /** A response of the client, to a request this server never made. */
  predicate IsStray(message: Json) {
    Member(message, "method").None? && (Member(message, "result").Some? || Member(message, "error").Some?)
  }

  predicate IsId(id: Json) {
    id.String? || id.Number?
  }

  /** Neither request nor notification: no usable method, or an id of the wrong kind. */
  predicate IsMalformed(message: Json) {
    var name, id := OrNull(Member(message, "method")), Member(message, "id");
    !name.String? || name.text == "" || (id.Some? && !IsId(id.value))
  }

  /** The error for it carries its id where it has one. */
  function Reject(s: State, message: Json): State {
    var id := OrNull(Member(message, "id"));
    var named := if IsId(id) then id else Null;
    Send(Log(s, Rejected(named)), Malformed(named))
  }

  /** onMessage() */
  function OnMessage(s: State, c: Config, message: Json, slot: nat): State {
    var params := OrNull(Member(message, "params"));
    if IsStray(message) then s
    else if IsMalformed(message) then Reject(s, message)
    else
      var name := Member(message, "method").value.text;
      match Member(message, "id")
      case None => HandleNotification(s, name, params)
      case Some(id) => HandleRequest(s, c, id, name, params, slot)
  }

  // ------------------------------------------------------------ steps and runs

  /** One step: of the main thread, of the hash of subscriptions, or of a worker. */
  datatype Input =
    | Frame(message: Json, slot: nat)
    | BadFrame(code: Framing.Code)
    | EndOfInput
    | FinishNext
    | Rehash(ids: seq<Id>)
    | StartNext(serialized: bool)
    | LoadFlag(serialized: bool, flag: Flag)
    | ReturnResult(serialized: bool, flag: Flag, text: string)

  /** The steps that take a submitted call further. */
  predicate IsInternal(i: Input) {
    i.FinishNext? || i.StartNext? || i.LoadFlag? || i.ReturnResult?
  }

  ghost predicate NoDuplicates(ids: seq<Id>) {
    forall i, j | 0 <= i < j < |ids| :: ids[i] != ids[j]
  }

  /** The same ids in any order. */
  ghost predicate Reordered(ids: seq<Id>, others: seq<Id>) {
    NoDuplicates(ids) && forall id :: id in ids <==> id in others
  }

  ghost predicate Enabled(s: State, i: Input) {
    match i
    case Rehash(ids) => Reordered(ids, s.listens)
    case FinishNext => s.runner.posted != [] && s.runner.posted[0].flag in s.runner.tasks
    case StartNext(serialized) => CanStart(s.runner, serialized)
    case LoadFlag(serialized, flag) => flag in PoolOf(s.runner, serialized).started
    case ReturnResult(serialized, flag, _) => flag in PoolOf(s.runner, serialized).calling
    case _ => true
  }

  ghost function Step(s: State, c: Config, i: Input): State
    requires Enabled(s, i)
  {
    match i
    case Frame(message, slot) => OnMessage(s, c, message, slot)
    case Rehash(ids) => s.(listens := ids)
    case BadFrame(code) => Send(s, InvalidFrame(code))
    case EndOfInput => Shutdown(s)
    case FinishNext => Finish(s)
    case StartNext(serialized) => s.(runner := Start(s.runner, serialized))
    case LoadFlag(serialized, flag) => s.(runner := Load(s.runner, serialized, flag))
    case ReturnResult(serialized, flag, text) =>
      Log(s, Returned(flag, Outcome(s.runner, flag, text))).(runner := Return(s.runner, serialized, flag, text))
  }

  /** An interleaving: steps that are not possible are passed over. */
  ghost function Run(s: State, c: Config, inputs: seq<Input>): State {
    if inputs == [] then s
    else
      var before := Run(s, c, inputs[..|inputs| - 1]);
      var last := inputs[|inputs| - 1];
      if Enabled(before, last) then Step(before, c, last) else before
  }

  // ------------------------------------------------------------ what sending changes

  /** The messages that close the subscriptions: a completion, then a cancellation, for each. */
  function Farewells(ids: seq<Id>): seq<Event> {
    if ids == [] then []
    else [Issued(Completion(ids[0])), Issued(CancelledNote(ids[0]))] + Farewells(ids[1..])
  }

  function FinishedIf(r: Runner): seq<Event> {
    if r.inFlight == map[] then [Finished({})] else []
  }

  /** Whether sending now fails for the first time. */
  predicate Trips(o: Output) {
    !o.broken && o.writable == 0
  }

  lemma SendWhenClosing(s: State, out: Out)
    requires s.closing
    ensures Send(s, out) == s.(output := Send(s, out).output, history := s.history + [Issued(out)])
  {
  }

  lemma {:induction false} ClosingSubscriptions(s: State, ids: seq<Id>)
    requires s.closing
    ensures CloseSubscriptions(s, ids) ==
            s.(output := CloseSubscriptions(s, ids).output, history := s.history + Farewells(ids))
    decreases ids
  {
    if ids == [] {
      assert s.history + [] == s.history;
    } else {
      SendWhenClosing(s, Completion(ids[0]));
      var one := Send(s, Completion(ids[0]));
      SendWhenClosing(one, CancelledNote(ids[0]));
      var two := Send(one, CancelledNote(ids[0]));
      ClosingSubscriptions(two, ids[1..]);
      assert two.history + Farewells(ids[1..]) == s.history + Farewells(ids);
    }
  }

  /** Shutting down says farewell to every subscription once, also when a write fails meanwhile. */
  lemma ShutdownIs(s: State)
    ensures var t := Shutdown(s);
            t == if s.closing then s
                 else s.(closing := true, listens := [], output := t.output,
                         history := s.history + Farewells(s.listens) + FinishedIf(s.runner))
  {
    if !s.closing {
      ClosingSubscriptions(s.(closing := true), s.listens);
      hide CloseSubscriptions;
      if s.runner.inFlight != map[] {
        var h := s.history + Farewells(s.listens);
        assert h + [] == h;
      } else {
        assert s.runner.inFlight.Keys == {};
      }
    }
  }

  /** What the server does not keep of a message sent: everything but the output and, when the write
      fails for the first time, the shutdown that follows. */
  lemma SendIs(s: State, out: Out)
    ensures var t := Send(s, out);
            t == if s.closing || !Trips(s.output) then s.(output := t.output, history := s.history + [Issued(out)])
                 else s.(closing := true, listens := [], output := t.output,
                         history := s.history + [Issued(out)] + Farewells(s.listens) + FinishedIf(s.runner))
  {
    if s.closing {
      SendWhenClosing(s, out);
    } else if Trips(s.output) {
      ShutdownIs(Log(s, Issued(out)).(output := s.output.(broken := true)));
    }
  }
}
