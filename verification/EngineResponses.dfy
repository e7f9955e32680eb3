/** What one frame hands out, and how often the end is announced. */
module EngineResponses {
  import opened Wrappers
  import opened Json
  import opened Engine
  import opened RunnerInvariant
  import opened EngineInvariant
  import opened EngineShutdown
  import Q = EngineRequests

  // ------------------------------------------------------------ what a step adds to the history

  /** The id a message answers with, malformed frames included. */
  function Carrier(out: Out): Option<Id> {
    if out.Malformed? then Some(out.id) else Answers(out)
  }

  /** A response for `id`, the completions of a shutdown counted apart. */
  predicate Hands(e: Event, id: Id) {
    e.Issued? && !e.out.Completion? && Carrier(e.out) == Some(id)
  }

  /** No response for an id other than `own`. */
  ghost predicate Only(e: Event, own: Option<Id>) {
    forall id :: Hands(e, id) ==> own == Some(id)
  }

  /** The history goes on, with no response for another id, and with at most one announcement of the
      end; none when closing had begun. */
  ghost predicate Small(s: State, t: State, own: Option<Id>) {
    && s.history <= t.history
    && (forall k | |s.history| <= k < |t.history| :: Only(t.history[k], own))
    && Endings(t.history) <= Endings(s.history) + 1
    && (s.closing ==> Endings(t.history) == Endings(s.history))
  }

  lemma SmallNothing(s: State, own: Option<Id>)
    ensures Small(s, s, own)
  {
  }

  /** An event that is no response is put before the rest. */
  lemma SmallAfter(s: State, e: Event, t: State, own: Option<Id>)
    requires Small(Log(s, e), t, own) && !e.Issued? && !e.Finished?
    ensures Small(s, t, own)
  {
    hide Endings, Only;
    EndingLogged(s.history, e);
    var h := s.history + [e];
    assert Only(e, own) by { OnlyOther(e, own); }
    assert t.history[|s.history|] == h[|s.history|] == e;
    assert s.history <= h;
  }

  lemma OnlyOther(e: Event, own: Option<Id>)
    requires !e.Issued?
    ensures Only(e, own)
  {
  }

  lemma SmallLogged(s: State, e: Event, t: State, own: Option<Id>)
    requires !e.Issued? && !e.Finished? && t.history == s.history + [e]
    ensures Small(s, t, own)
  {
    hide Endings, Only;
    EndingLogged(s.history, e);
    OnlyOther(e, own);
  }

  lemma {:induction false} FarewellsOnly(ids: seq<Id>, own: Option<Id>)
    ensures forall e | e in Farewells(ids) :: Only(e, own)
  {
    if ids != [] { FarewellsOnly(ids[1..], own); }
  }

  lemma SmallSend(s: State, out: Out, own: Option<Id>)
    requires Only(Issued(out), own)
    ensures Small(s, Send(s, out), own)
  {
    hide Send, Trips, Endings, Only;
    SendIs(s, out);
    EndingLogged(s.history, Issued(out));
    var h := s.history + [Issued(out)];
    if !s.closing && Trips(s.output) {
      FarewellsOnly(s.listens, own);
      FarewellsIssue(s.listens);
      hide Farewells;
      NoEndings(h, Farewells(s.listens));
      EndingLogged(h + Farewells(s.listens), Finished({}));
      OnlyOther(Finished({}), own);
      assert h + Farewells(s.listens) + [] == h + Farewells(s.listens);
      Suffix(s.history, [Issued(out)] + Farewells(s.listens) + FinishedIf(s.runner), Send(s, out).history, own);
    }
  }

  lemma Suffix(h: seq<Event>, es: seq<Event>, k: seq<Event>, own: Option<Id>)
    requires k == h + es && forall e | e in es :: Only(e, own)
    ensures h <= k && forall i | |h| <= i < |k| :: Only(k[i], own)
  {
    hide Only;
    assert forall i | |h| <= i < |k| :: k[i] == es[i - |h|];
  }

  // ------------------------------------------------------------ handlers

  lemma ToolsCallSmall(s: State, c: Config, id: Id, params: Json, modern: bool)
    ensures Small(s, HandleToolsCall(s, c, id, params, modern), Some(id))
  {
    hide Small, Send, Member;
    var own := Some(id);
    SmallSend(s, Error(id, InvalidParams), own);
    forall t: State | t.history == s.history + [Dropped(id)] ensures Small(s, t, own) { SmallLogged(s, Dropped(id), t, own); }
    var e := Accepted(id, s.runner.nextFlag, modern);
    forall t: State | t.history == s.history + [e] ensures Small(s, t, own) { SmallLogged(s, e, t, own); }
  }

  lemma ListenSmall(s: State, id: Id, slot: nat)
    ensures Small(s, HandleListen(s, id, slot), Some(id))
  {
    hide Small, Send, Placing;
    var own := Some(id);
    if s.closing {
      SmallLogged(s, Dropped(id), Log(s, Dropped(id)), own);
    } else {
      var opened_ := Log(s, Opened(id)).(listens := Placing(s.listens, id, slot));
      SmallSend(opened_, Acknowledged(id), own);
      SmallOther(Log(s, Opened(id)), opened_, Send(opened_, Acknowledged(id)), own);
      SmallAfter(s, Opened(id), Send(opened_, Acknowledged(id)), own);
    }
  }

  /** Only history and closing matter. */
  lemma SmallOther(r: State, s: State, t: State, own: Option<Id>)
    requires Small(s, t, own) && r.history == s.history && r.closing == s.closing
    ensures Small(r, t, own)
  {
    hide Endings, Only;
  }

  lemma RespondsSmall(s: State, id: Id)
    ensures forall payload :: Small(s, Send(s, Result(id, payload)), Some(id))
    ensures forall error :: Small(s, Send(s, Error(id, error)), Some(id))
  {
    hide Small, Send;
    forall payload ensures Small(s, Send(s, Result(id, payload)), Some(id)) { SmallSend(s, Result(id, payload), Some(id)); }
    forall error ensures Small(s, Send(s, Error(id, error)), Some(id)) { SmallSend(s, Error(id, error), Some(id)); }
  }

  lemma RequestSmall(s: State, c: Config, id: Id, name: string, params: Json, slot: nat)
    ensures Small(s, HandleRequest(s, c, id, name, params, slot), Some(id))
    ensures id in s.runner.inFlight || id in s.listens ==> Small(s, HandleRequest(s, c, id, name, params, slot), None)
  {
    hide Small, Send, HandleToolsCall, HandleListen, Member, MODERN_VERSIONS, IsModernRequest;
    var received := Log(s, Received(id));
    var t := HandleRequest(s, c, id, name, params, slot);
    if id in s.runner.inFlight || id in s.listens {
      SmallLogged(received, Dropped(id), t, None);
      SmallAfter(s, Received(id), t, None);
      SmallLogged(received, Dropped(id), t, Some(id));
    } else {
      RespondsSmall(received, id);
      ToolsCallSmall(received, c, id, params, true);
      ToolsCallSmall(received, c, id, params, false);
      ListenSmall(received, id, slot);
    }
    SmallAfter(s, Received(id), t, Some(id));
  }

  lemma NotificationSmall(s: State, name: string, params: Json)
    ensures Small(s, HandleNotification(s, name, params), None)
  {
    hide Small, Member, Remove;
    var id := OrNull(Member(params, "requestId"));
    var t := HandleNotification(s, name, params);
    if t.history == s.history {
      SmallNothing(s, None);
      SmallTo(s, s, t, None);
    } else if t.history == s.history + [Unlistened(id)] {
      SmallLogged(s, Unlistened(id), t, None);
    } else {
      SmallLogged(s, Cancelled(id), t, None);
    }
  }

  lemma SmallTo(r: State, s: State, t: State, own: Option<Id>)
    requires Small(r, s, own) && s.history == t.history
    ensures Small(r, t, own)
  {
    hide Endings, Only;
  }

  /** The id a frame is answered with, if it is. */
  function Named(message: Json): Json {
    var id := OrNull(Member(message, "id"));
    if IsId(id) then id else Null
  }

  lemma RejectSmall(s: State, message: Json)
    ensures Small(s, Reject(s, message), Some(Named(message)))
  {
    hide Small, Send, Member;
    var id := Named(message);
    SmallSend(Log(s, Rejected(id)), Malformed(id), Some(id));
    SmallAfter(s, Rejected(id), Reject(s, message), Some(id));
  }

  lemma MessageEndings(s: State, c: Config, message: Json, slot: nat)
    ensures var t := OnMessage(s, c, message, slot);
            && Endings(t.history) <= Endings(s.history) + 1
            && (s.closing ==> Endings(t.history) == Endings(s.history))
  {
    hide Member, Reject, HandleRequest, HandleNotification, Endings, Only;
    var params := OrNull(Member(message, "params"));
    RejectSmall(s, message);
    if !IsMalformed(message) {
      var name := Member(message, "method").value.text;
      match Member(message, "id")
      case None => NotificationSmall(s, name, params);
      case Some(id) => RequestSmall(s, c, id, name, params, slot);
    }
  }

  // ------------------------------------------------------------ more than one response for an id

  /** A frame that carries an id, is no response and names no method. */
  ghost predicate Misnamed(message: Json, id: Id) {
    !Q.IsResponse(message) && Q.Identified(message, id) && !Q.Names(message)
  }

  ghost predicate HandsSince(h: seq<Event>, from: nat, id: Id) {
    exists k :: from <= k < |h| && Hands(h[k], id)
  }

  lemma NoneHanded(s: State, t: State, own: Option<Id>, id: Id)
    requires Small(s, t, own) && own != Some(id)
    ensures s.history <= t.history && !HandsSince(t.history, |s.history|, id)
  {
    hide Endings, Hands;
  }

  /** While a call or subscription is open, a frame is answered with its id if and only if it is
      malformed and carries that id: requests that repeat it are dropped. */
  lemma ResponseInUse(s: State, c: Config, message: Json, slot: nat, id: Id)
    requires Reachable(s, c) && (id in s.runner.inFlight || id in s.listens)
    ensures var t := OnMessage(s, c, message, slot);
            s.history <= t.history && (HandsSince(t.history, |s.history|, id) <==> Misnamed(message, id))
  {
    UsedIds(s, c, id);
    hide Reachable, Member, Reject, HandleRequest, HandleNotification, Small, HandsSince;
    var t, params := OnMessage(s, c, message, slot), OrNull(Member(message, "params"));
    if IsStray(message) {
      SmallNothing(s, None);
      NoneHanded(s, t, None, id);
    } else if IsMalformed(message) {
      if Named(message) == id {
        RefusedInUse(s, message, id);
      } else {
        RejectSmall(s, message);
        NoneHanded(s, t, Some(Named(message)), id);
      }
    } else {
      var name := Member(message, "method").value.text;
      match Member(message, "id")
      case None =>
        NotificationSmall(s, name, params);
        NoneHanded(s, t, None, id);
      case Some(other) =>
        RequestSmall(s, c, other, name, params, slot);
        NoneHanded(s, t, if other == id then None else Some(other), id);
    }
  }

  lemma UsedIds(s: State, c: Config, id: Id)
    requires Reachable(s, c) && (id in s.runner.inFlight || id in s.listens)
    ensures IsId(id)
  {
    ReachableInv(s, c);
    hide Reachable, Onward, RunnerInv, ErasKept, Story, PostedReturned, NoDuplicates;
  }

  lemma RefusedInUse(s: State, message: Json, id: Id)
    requires Named(message) == id && IsId(id)
    ensures var t := Reject(s, message);
            s.history <= t.history && HandsSince(t.history, |s.history|, id)
  {
    hide Send, Farewells, FinishedIf, Member;
    SendIs(Log(s, Rejected(id)), Malformed(id));
    var t := Reject(s, message);
    assert t.history[|s.history| + 1] == Issued(Malformed(id));
    assert Hands(t.history[|s.history| + 1], id);
  }

  /** Such a frame: the id alone. It is answered with the id and leaves the call open. */
  lemma BareId(s: State, c: Config, id: Id, slot: nat)
    requires IsId(id)
    ensures var message := Object([("id", id)]);
            && Misnamed(message, id)
            && OnMessage(s, c, message, slot) == Send(Log(s, Rejected(id)), Malformed(id))
            && OnMessage(s, c, message, slot).runner == s.runner
  {
    hide Send;
    var members := [("id", id)];
    assert members[1..] == [] && |"id"| == 2 && |"method"| == 6 && |"result"| == 6 && |"error"| == 5;
    assert Lookup(members, "id") == Some(id) && Lookup(members, "method") == None;
    assert Lookup(members, "result") == None && Lookup(members, "error") == None;
    SendIs(Log(s, Rejected(id)), Malformed(id));
  }

  // ------------------------------------------------------------ how often the end is announced

  /** The last call in flight ends, and the write of its result is the first to fail. */
  ghost predicate LastResultFails(s: State, i: Input) {
    && i.FinishNext? && Enabled(s, i) && Take(s.runner).inFlight == map[]
    && s.runner.posted[0].flag !in s.runner.cancelled && !s.closing && Trips(s.output)
  }

  ghost predicate Ended(s: State) {
    s.closing && s.runner.inFlight == map[]
  }

  lemma {:induction false} SomeEnding(h: seq<Event>)
    ensures Endings(h) > 0 <==> exists e | e in h :: e.Finished?
  {
    if h != [] {
      SomeEnding(h[..|h| - 1]);
      assert h == h[..|h| - 1] + [h[|h| - 1]];
    }
  }

  /** An announcement only where the end is reached, and then one, but for that last result. */
  lemma StepEndings(s: State, c: Config, i: Input)
    requires Reachable(s, c) && Enabled(s, i)
    ensures var before, after := Endings(s.history), Endings(Step(s, c, i).history);
            && (Ended(s) <==> before > 0)
            && (Ended(s) ==> after == before && !LastResultFails(s, i))
            && (!Ended(s) ==> if LastResultFails(s, i) then after == 2 else after <= 1)
  {
    FinishedExactly(s, c);
    SomeEnding(s.history);
    hide Reachable, Endings, Send, OnMessage, Shutdown, Finish;
    match i
    case Frame(message, slot) => MessageEndings(s, c, message, slot);
    case BadFrame(code) =>
      hide Small;
      SmallSend(s, InvalidFrame(code), None);
      SmallEndings(s, Send(s, InvalidFrame(code)), None);
    case EndOfInput => ShutdownEndings(s);
    case FinishNext => FinishEndings(s, c);
    case Rehash(_) =>
    case StartNext(_) =>
    case LoadFlag(_, _) =>
    case ReturnResult(serialized, flag, text) => EndingLogged(s.history, Returned(flag, Outcome(s.runner, flag, text)));
  }

  lemma SmallEndings(s: State, t: State, own: Option<Id>)
    requires Small(s, t, own)
    ensures Endings(t.history) <= Endings(s.history) + 1
    ensures s.closing ==> Endings(t.history) == Endings(s.history)
  {
    hide Only, Endings;
  }

  lemma ShutdownEndings(s: State)
    ensures var t := Shutdown(s);
            && Endings(t.history) <= Endings(s.history) + 1
            && (s.closing ==> Endings(t.history) == Endings(s.history))
  {
    hide Shutdown, Endings;
    ShutdownIs(s);
    FarewellsIssue(s.listens);
    NoEndings(s.history, Farewells(s.listens));
    EndingLogged(s.history + Farewells(s.listens), Finished({}));
    assert s.history + Farewells(s.listens) + [] == s.history + Farewells(s.listens);
  }

  lemma FinishEndings(s: State, c: Config)
    requires Reachable(s, c) && Enabled(s, FinishNext)
    ensures s.runner.inFlight != map[]
    ensures var more := Endings(Finish(s).history) - Endings(s.history);
            if LastResultFails(s, FinishNext) then more == 2 else more <= 1
  {
    ReachableInv(s, c);
    OwnFlagTaken(s);
    if Take(s.runner).inFlight == map[] {
      hide Inv, Onward, Endings, Finish;
      LastFinishAnnounces(s, c);
    } else {
      hide Inv, Onward, Reachable, Send, Endings, Small, Take;
      var id := NextId(s.runner);
      var taken := s.(runner := Take(s.runner));
      var left := taken.(modernCalls := s.modernCalls - {id});
      var out := ToolResult(id, s.runner.posted[0].text, id in s.modernCalls);
      SmallSend(left, out, Some(id));
      SmallEndings(left, Send(left, out), Some(id));
      SendIs(left, out);
    }
  }

  /** In every run the end is announced at most twice, and twice exactly when the result of the last
      call was the message whose write failed first. */
  lemma {:induction false} EndingsAtMostTwo(writable: nat, c: Config, inputs: seq<Input>)
    ensures var s := Initial(writable);
            && Endings(Run(s, c, inputs).history) <= 2
            && (Endings(Run(s, c, inputs).history) == 2 <==>
                 exists n | 0 <= n < |inputs| :: LastResultFails(Run(s, c, inputs[..n]), inputs[n]))
  {
    hide Endings, LastResultFails, Step, Enabled, Reachable, Ended;
    var s := Initial(writable);
    if inputs == [] {
      assert Endings([]) == 0 by { SomeEnding([]); }
    } else {
      var init, last := inputs[..|inputs| - 1], inputs[|inputs| - 1];
      var before := Run(s, c, init);
      EndingsAtMostTwo(writable, c, init);
      assert forall n | 0 <= n < |init| :: init[..n] == inputs[..n] && init[n] == inputs[n];
      assert Reachable(before, c) by { RunIsReachable(writable, c, init); }
      if Enabled(before, last) {
        StepEndings(before, c, last);
        if exists n | 0 <= n < |init| :: LastResultFails(Run(s, c, init[..n]), init[n]) {
          assert Ended(before);
        }
        Splits(s, c, inputs);
      } else {
        assert !LastResultFails(before, last) by { NotEnabled(before, last); }
        Splits(s, c, inputs);
      }
    }
  }

  lemma NotEnabled(s: State, i: Input)
    requires !Enabled(s, i)
    ensures !LastResultFails(s, i)
  {
  }

  lemma RunIsReachable(writable: nat, c: Config, inputs: seq<Input>)
    ensures Reachable(Run(Initial(writable), c, inputs), c)
  {
    hide Run;
  }

  /** It was the last step, or one before. */
  lemma Splits(s: State, c: Config, inputs: seq<Input>)
    requires inputs != []
    ensures var init, last := inputs[..|inputs| - 1], inputs[|inputs| - 1];
            (exists n | 0 <= n < |inputs| :: LastResultFails(Run(s, c, inputs[..n]), inputs[n])) <==>
            || LastResultFails(Run(s, c, init), last)
            || exists n | 0 <= n < |init| :: LastResultFails(Run(s, c, init[..n]), init[n])
  {
    hide LastResultFails, Run;
    var init, last := inputs[..|inputs| - 1], inputs[|inputs| - 1];
    assert forall n | 0 <= n < |init| :: init[..n] == inputs[..n] && init[n] == inputs[n];
    if n :| 0 <= n < |inputs| && LastResultFails(Run(s, c, inputs[..n]), inputs[n]) {
      if n < |init| { assert LastResultFails(Run(s, c, init[..n]), init[n]); }
    }
    if LastResultFails(Run(s, c, init), last) {
      assert LastResultFails(Run(s, c, inputs[..|inputs| - 1]), inputs[|inputs| - 1]);
    }
    if n :| 0 <= n < |init| && LastResultFails(Run(s, c, init[..n]), init[n]) {
      assert LastResultFails(Run(s, c, inputs[..n]), inputs[n]);
    }
  }

  // ------------------------------------------------------------ runs that show it

  lemma RunMore(s: State, c: Config, inputs: seq<Input>, next: Input)
    requires Enabled(Run(s, c, inputs), next)
    ensures Run(s, c, inputs + [next]) == Step(Run(s, c, inputs), c, next)
  {
    var all := inputs + [next];
    assert all[..|all| - 1] == inputs && all[|all| - 1] == next;
  }

  /** A call of `tool`, and a frame that carries an id and nothing else. */
  function CallFrame(id: Id, tool: string): Input {
    var params := Object([("name", String(tool))]);
    Frame(Object([("id", id), ("method", String("tools/call")), ("params", params)]), 0)
  }

  function IdFrame(id: Id): Input {
    Frame(Object([("id", id)]), 0)
  }

  lemma CallFrameReads(id: Id, tool: string)
    ensures var m, params := CallFrame(id, tool).message, Object([("name", String(tool))]);
            && Member(m, "method") == Some(String("tools/call")) && Member(m, "id") == Some(id)
            && Member(m, "params") == Some(params) && Member(params, "_meta") == None
            && Member(params, "name") == Some(String(tool)) && Member(params, "arguments") == None
  {
    assert |"id"| == 2 && |"method"| == 6 && |"params"| == 6 && "method"[0] != "params"[0];
    assert |"name"| == 4 && |"_meta"| == 5 && |"arguments"| == 9;
    var p := [("name", String(tool))];
    var members := [("id", id), ("method", String("tools/call")), ("params", Object(p))];
    assert members[1..] == [("method", String("tools/call")), ("params", Object(p))];
    assert members[1..][1..] == [("params", Object(p))];
    assert p[1..] == [];
    assert Lookup(members[1..], "method") == Some(String("tools/call"));
    assert Lookup(members[1..][1..], "params") == Some(Object(p)) == Lookup(members[1..], "params");
  }

  lemma CallIsAccepted(writable: nat, c: Config, id: Id, tool: string)
    requires IsId(id) && tool in c.tools
    ensures var s := Initial(writable);
            Step(s, c, CallFrame(id, tool)) == Accept(Log(s, Received(id)), id, tool in c.serialized, false)
  {
    CallFrameReads(id, tool);
    hide Member, Accept, Send;
    var s, params, name := Initial(writable), Object([("name", String(tool))]), "tools/call";
    assert |name| == 10 && name[0] == 't' && name[6] == 'c' && "initialize"[0] == 'i' && |"ping"| == 4;
    assert "tools/list"[6] == 'l';
    assert Meta(params) == Json.Null && !IsModernRequest(name, params) by { NoMeta(); }
    assert HandleRequest(s, c, id, name, params, 0) == HandleToolsCall(Log(s, Received(id)), c, id, params, false);
  }

  lemma NoMeta()
    ensures Member(Json.Null, PROTOCOL_VERSION) == None
  {
  }

  /** The way of one call through the runner. */
  lemma OneCall(id: Id, serialized: bool, text: string)
    ensures var r := Submit(Initial(0).runner, id, serialized);
            CanStart(r, serialized) && 0 in PoolOf(Start(r, serialized), serialized).started
    ensures var r := Load(Start(Submit(Initial(0).runner, id, serialized), serialized), serialized, 0);
            && 0 in PoolOf(r, serialized).calling
            && var t := Return(r, serialized, 0, text);
               && t.posted == [Done(0, text)] && t.tasks == map[0 := Task(id, serialized)]
               && t.inFlight == map[id := 0] && t.cancelled == {} && t.ran == {0}
  {
    var r := Submit(Initial(0).runner, id, serialized);
    assert PoolOf(r, serialized).queue == [0];
  }

  lemma FiveSteps(s: State, c: Config, a: Input, b: Input, d: Input, e: Input, f: Input)
    requires Enabled(s, a) && Enabled(Step(s, c, a), b) && Enabled(Step(Step(s, c, a), c, b), d)
    requires var t := Step(Step(Step(s, c, a), c, b), c, d); Enabled(t, e) && Enabled(Step(t, c, e), f)
    ensures Run(s, c, [a, b, d, e]) == Step(Step(Step(Step(s, c, a), c, b), c, d), c, e)
    ensures Run(s, c, [a, b, d, e, f]) == Step(Step(Step(Step(Step(s, c, a), c, b), c, d), c, e), c, f)
  {
    hide Step, Enabled, Run;
    FirstStep(s, c, a);
    RunMore(s, c, [a], b);
    assert [a] + [b] == [a, b];
    RunMore(s, c, [a, b], d);
    assert [a, b] + [d] == [a, b, d];
    RunMore(s, c, [a, b, d], e);
    assert [a, b, d] + [e] == [a, b, d, e];
    RunMore(s, c, [a, b, d, e], f);
    assert [a, b, d, e] + [f] == [a, b, d, e, f];
  }

  /** The worker's part. */
  lemma ThreeSteps(s: State, c: Config, id: Id, serialized: bool, text: string) returns (t: State)
    requires s.runner == Submit(Initial(0).runner, id, serialized)
    ensures var b, d, e := StartNext(serialized), LoadFlag(serialized, 0), ReturnResult(serialized, 0, text);
            && Enabled(s, b) && Enabled(Step(s, c, b), d) && Enabled(Step(Step(s, c, b), c, d), e)
            && t == Step(Step(Step(s, c, b), c, d), c, e) && Enabled(t, FinishNext)
    ensures t == s.(runner := t.runner, history := t.history)
    ensures t.runner.posted == [Done(0, text)] && t.runner.tasks == map[0 := Task(id, serialized)]
    ensures t.runner.inFlight == map[id := 0] && t.runner.cancelled == {} && t.runner.ran == {0}
  {
    OneCall(id, serialized, text);
    hide Submit, Start, Load, Return, CanStart, PoolOf, Initial;
    t := Step(Step(Step(s, c, StartNext(serialized)), c, LoadFlag(serialized, 0)), c, ReturnResult(serialized, 0, text));
  }

  lemma AcceptedState(s: State, id: Id, serialized: bool)
    requires s == Initial(s.output.writable)
    ensures var t := Accept(Log(s, Received(id)), id, serialized, false);
            && t.runner == Submit(Initial(0).runner, id, serialized) && !t.closing && t.modernCalls == {}
            && !t.output.broken && t.output.writable == s.output.writable && t.output.written == []
  {
  }

  lemma FirstStep(s: State, c: Config, first: Input)
    requires Enabled(s, first)
    ensures Run(s, c, [first]) == Step(s, c, first)
  {
    assert Run(s, c, []) == s && [] + [first] == [first];
    RunMore(s, c, [], first);
  }

  /** A call is answered, with its id, and still open. */
  lemma AnsweredWhileOpen(c: Config, id: Id, tool: string, writable: nat)
    requires IsId(id) && tool in c.tools
    ensures var t := Run(Initial(writable), c, [CallFrame(id, tool), IdFrame(id)]);
            && Issued(Malformed(id)) in t.history
            && Live(t.runner.inFlight, t.runner.cancelled, id)
  {
    var s := Initial(writable);
    CallIsAccepted(writable, c, id, tool);
    var s1 := Step(s, c, CallFrame(id, tool));
    assert Live(s1.runner.inFlight, s1.runner.cancelled, id);
    hide Initial, OnMessage, CallFrame, Accept, Run, Send, Misnamed;
    FirstStep(s, c, CallFrame(id, tool));
    RunMore(s, c, [CallFrame(id, tool)], IdFrame(id));
    assert [CallFrame(id, tool)] + [IdFrame(id)] == [CallFrame(id, tool), IdFrame(id)];
    BareId(s1, c, id, 0);
    SendIs(Log(s1, Rejected(id)), Malformed(id));
    var h := s1.history + [Rejected(id)] + [Issued(Malformed(id))];
    assert h[|s1.history| + 1] == Issued(Malformed(id));
    hide Farewells, FinishedIf;
    assert h <= Step(s1, c, IdFrame(id)).history;
  }

  /** The end is announced twice: one call, and a client that reads nothing. */
  lemma AnnouncedTwice(c: Config, id: Id, tool: string, text: string)
    requires IsId(id) && tool in c.tools
    ensures var serialized := tool in c.serialized;
            Endings(Run(Initial(0), c, [CallFrame(id, tool), StartNext(serialized), LoadFlag(serialized, 0),
                                        ReturnResult(serialized, 0, text), FinishNext]).history) == 2
  {
    var s, serialized := Initial(0), tool in c.serialized;
    var b, d, e := StartNext(serialized), LoadFlag(serialized, 0), ReturnResult(serialized, 0, text);
    CallIsAccepted(0, c, id, tool);
    AcceptedState(s, id, serialized);
    hide Initial, Step, CallFrame, Accept, Run, Submit, Reachable, Endings;
    var s1 := Step(s, c, CallFrame(id, tool));
    var s4 := ThreeSteps(s1, c, id, serialized, text);
    FiveSteps(s, c, CallFrame(id, tool), b, d, e, FinishNext);
    RunIsReachable(0, c, [CallFrame(id, tool), b, d, e]);
    StepEndings(s4, c, FinishNext);
  }
}
