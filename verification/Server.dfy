/** The server as the code has it (server.cpp, and send of stdiotransport.cpp): one object that calls
    itself back when a write fails, and a hash of subscriptions it walks in whatever order comes. A
    ghost model says which state of Engine the objects are in, and ghost steps how they got there. */
module Server {
  import opened Json
  import F = Framing
  import E = Engine
  import I = RunnerInvariant
  import V = EngineInvariant
  import D = EngineShutdown
  import R = EngineResponses
  import Q = EngineRequests
  import T = ToolRunner

  // ------------------------------------------------------------ the order of a hash

  ghost predicate Lists(ids: seq<E.Id>, held: set<E.Id>) {
    E.NoDuplicates(ids) && forall id :: id in ids <==> id in held
  }

  lemma Listed(ids: seq<E.Id>, others: seq<E.Id>, held: set<E.Id>)
    requires Lists(others, held)
    ensures Lists(ids, held) <==> E.Reordered(ids, others)
    ensures E.Reordered(others, others)
  {
    hide E.NoDuplicates;
  }

  lemma ListsMore(ids: seq<E.Id>, held: set<E.Id>, id: E.Id)
    requires Lists(ids, held) && id !in held
    ensures Lists(ids + [id], held + {id})
  {
  }

  lemma ListsFewer(ids: seq<E.Id>, held: set<E.Id>, id: E.Id)
    requires Lists(ids, held) && id in held
    ensures Lists(E.Remove(ids, id), held - {id})
  {
    Q.Removed(ids, id);
    hide E.NoDuplicates;
  }

  /** However a hash of one more id is ordered, the others are in some order and the new one among them. */
  lemma Without(all: seq<E.Id>, others: seq<E.Id>, id: E.Id) returns (ids: seq<E.Id>, slot: nat)
    requires E.Reordered(all, others + [id]) && id !in others
    ensures E.Reordered(ids, others) && E.Placing(ids, id, slot) == all
  {
    slot, ids := Found(all, id);
    hide E.NoDuplicates;
    assert forall other :: other in others + [id] <==> other in others || other == id;
  }

  lemma Found(all: seq<E.Id>, id: E.Id) returns (slot: nat, ids: seq<E.Id>)
    requires E.NoDuplicates(all) && id in all
    ensures E.Placing(ids, id, slot) == all && E.NoDuplicates(ids)
    ensures forall other :: other in ids <==> other in all && other != id
  {
    slot :| slot < |all| && all[slot] == id;
    var a, b := all[..slot], all[slot + 1..];
    ids := a + b;
    assert all == a + [id] + b;
    Dropped(a, id, b);
    hide E.NoDuplicates;
    assert ids[..slot] == a && ids[slot..] == b;
  }

  lemma Dropped(a: seq<E.Id>, id: E.Id, b: seq<E.Id>)
    requires E.NoDuplicates(a + [id] + b)
    ensures E.NoDuplicates(a + b) && id !in a && id !in b
  {
    var all, ids := a + [id] + b, a + b;
    assert all[|a|] == id;
    forall i, j | 0 <= i < j < |ids| ensures ids[i] != ids[j] {
      var k, m := if i < |a| then i else i + 1, if j < |a| then j else j + 1;
      assert ids[i] == all[k] && ids[j] == all[m];
    }
    forall i | 0 <= i < |a| ensures a[i] != id { assert all[i] == a[i]; }
    forall i | 0 <= i < |b| ensures b[i] != id { assert all[|a| + 1 + i] == b[i]; }
  }

  // ------------------------------------------------------------ farewells in that order

  lemma SendElsewhere(s: E.State, out: E.Out, ids: seq<E.Id>)
    requires s.closing
    ensures E.Send(s.(listens := ids), out) == E.Send(s, out).(listens := ids)
    ensures E.Send(s, out).closing
  {
  }

  lemma {:induction false} ClosingElsewhere(s: E.State, gone: seq<E.Id>, ids: seq<E.Id>)
    requires s.closing
    ensures E.CloseSubscriptions(s.(listens := ids), gone) == E.CloseSubscriptions(s, gone).(listens := ids)
    decreases gone
  {
    if gone != [] {
      var one := E.Send(s, E.Completion(gone[0]));
      SendElsewhere(s, E.Completion(gone[0]), ids);
      SendElsewhere(one, E.CancelledNote(gone[0]), ids);
      hide E.Send;
      ClosingElsewhere(E.Send(one, E.CancelledNote(gone[0])), gone[1..], ids);
    }
  }

  lemma {:induction false} OneMoreFarewell(s: E.State, gone: seq<E.Id>, id: E.Id)
    requires s.closing
    ensures E.CloseSubscriptions(s, gone + [id]) ==
            E.Send(E.Send(E.CloseSubscriptions(s, gone), E.Completion(id)), E.CancelledNote(id))
    decreases gone
  {
    hide E.Send;
    if gone == [] {
      assert gone + [id] == [id];
    } else {
      assert (gone + [id])[1..] == gone[1..] + [id];
      OneMoreFarewell(E.Send(E.Send(s, E.Completion(gone[0])), E.CancelledNote(gone[0])), gone[1..], id);
    }
  }

  lemma NoFarewells(s: E.State)
    requires s.closing
    ensures E.CloseSubscriptions(s, []) == s && Lists([], {})
  {
  }

  // ------------------------------------------------------------ steps of a run

  /** The hash gives its ids in some order, and then something is done with them. */
  lemma TwoSteps(s: E.State, c: E.Config, steps: seq<E.Input>, ids: seq<E.Id>, next: E.Input)
    requires E.Reordered(ids, E.Run(s, c, steps).listens) && E.Enabled(E.Run(s, c, steps).(listens := ids), next)
    ensures E.Run(s, c, steps + [E.Rehash(ids), next]) ==
            E.Step(E.Run(s, c, steps).(listens := ids), c, next)
  {
    hide E.Run, E.Reordered;
    R.RunMore(s, c, steps, E.Rehash(ids));
    R.RunMore(s, c, steps + [E.Rehash(ids)], next);
    assert steps + [E.Rehash(ids)] + [next] == steps + [E.Rehash(ids), next];
  }

  // ------------------------------------------------------------ the server

  twostate predicate NewFlags(before: seq<T.CancelFlag>, new after: seq<T.CancelFlag>) {
    before <= after && forall n | |before| <= n < |after| :: fresh(after[n])
  }

  class Server {
    const runner: T.ToolRunner
    const config: E.Config
    var modernCalls: set<E.Id>
    /** A hash: its ids come in no particular order. */
    var listens: set<E.Id>
    var closing: bool
    var broken: bool
    /** How many writes to stdout still succeed, and what they wrote. */
    var writable: nat
    var written: seq<E.Out>
    ghost var model: E.State
    ghost var steps: seq<E.Input>
    ghost const start: nat

    ghost predicate Valid()
      reads this, runner, runner.flags
    {
      && runner.Valid() && runner.model == model.runner
      && modernCalls == model.modernCalls && closing == model.closing
      && Lists(model.listens, listens)
      && model.output == E.Output(broken, writable, written)
    }

    /** The objects are where some run of the transition system leads. */
    ghost predicate Running()
      reads this, runner, runner.flags
    {
      Valid() && model == E.Run(E.Initial(start), config, steps)
    }

    constructor (config: E.Config, writable: nat)
      ensures Running() && start == writable && steps == [] && this.config == config
      ensures fresh(runner) && runner.flags == []
    {
      this.runner := new T.ToolRunner();
      this.config, this.writable, start := config, writable, writable;
      modernCalls, listens, closing, broken, written := {}, {}, false, false, [];
      model, steps := E.Initial(writable), [];
    }

    // ---------------------------------------------------------- sending and shutting down

    /** send(), closed() being connected to shutdown(). */
    method Send(out: E.Out) returns (ghost ids: seq<E.Id>)
      requires Valid()
      modifies this
      ensures Valid() && steps == old(steps)
      ensures E.Reordered(ids, old(model).listens) && model == E.Send(old(model).(listens := ids), out)
      ensures old(closing) ==> ids == old(model).listens && closing && listens == old(listens)
      decreases !closing, 1
    {
      hide T.ToolRunner.Valid, E.NoDuplicates, E.CloseSubscriptions;
      Listed(model.listens, model.listens, listens);
      ids := model.listens;
      model := E.Log(model, E.Issued(out));
      if broken {
        return;
      }
      if writable == 0 {
        broken := true;
        model := model.(output := model.output.(broken := true));
        ids := Shutdown();
      } else {
        writable, written := writable - 1, written + [out];
        model := model.(output := E.Output(false, writable, written));
      }
    }

    method Shutdown() returns (ghost ids: seq<E.Id>)
      requires Valid()
      modifies this
      ensures Valid() && steps == old(steps)
      ensures E.Reordered(ids, old(model).listens) && model == E.Shutdown(old(model).(listens := ids))
      ensures old(closing) ==> ids == old(model).listens && listens == old(listens)
      ensures closing
      decreases !closing, 0
    {
      hide T.ToolRunner.Valid, E.NoDuplicates, E.CloseSubscriptions;
      Listed(model.listens, model.listens, listens);
      ids := model.listens;
      if closing {
        return;
      }
      closing, model := true, model.(closing := true);
      ghost var before := model;
      ids := CloseSubscriptions();
      ClosingElsewhere(before, ids, ids);
      if runner.InFlight() == 0 {
        model := E.Log(model, E.Finished({}));
      }
    }

    /** The subscriptions are closed in the order in which the hash gives them. */
    method CloseSubscriptions() returns (ghost ids: seq<E.Id>)
      requires Valid() && closing
      modifies this
      ensures Valid() && steps == old(steps) && closing
      ensures E.Reordered(ids, old(model).listens)
      ensures model == E.CloseSubscriptions(old(model), ids).(listens := [])
      decreases !closing, 2
    {
      hide T.ToolRunner.Valid, Lists, E.Reordered, E.Send, E.CloseSubscriptions;
      var rest := listens;
      ids := [];
      NoFarewells(model);
      assert listens - rest == {};
      while rest != {}
        invariant Valid() && closing && steps == old(steps) && listens == old(listens)
        invariant rest <= listens && Lists(ids, listens - rest)
        invariant model == E.CloseSubscriptions(old(model), ids)
        invariant runner.model == old(runner.model)
      {
        var id :| id in rest;
        ghost var one := Send(E.Completion(id));
        ghost var two := Send(E.CancelledNote(id));
        OneMoreFarewell(old(model), ids, id);
        ListsMore(ids, listens - rest, id);
        assert listens - (rest - {id}) == listens - rest + {id};
        rest, ids := rest - {id}, ids + [id];
      }
      assert listens - rest == listens;
      Listed(ids, old(model).listens, listens);
      listens, model := {}, model.(listens := []);
    }

    // ---------------------------------------------------------- messages

    /** onInvalidFrame() */
    method OnInvalidFrame(code: F.Code) returns (ghost ids: seq<E.Id>)
      requires Running()
      modifies this
      ensures Running() && steps == old(steps) + [E.Rehash(ids), E.BadFrame(code)]
    {
      hide T.ToolRunner.Valid, Lists, E.Send, E.Run, E.Reordered;
      ids := Send(E.InvalidFrame(code));
      TwoSteps(E.Initial(start), config, steps, ids, E.BadFrame(code));
      steps := steps + [E.Rehash(ids), E.BadFrame(code)];
    }

    /** closed(), at the end of the input. */
    method OnClosed() returns (ghost ids: seq<E.Id>)
      requires Running()
      modifies this
      ensures Running() && closing && steps == old(steps) + [E.Rehash(ids), E.EndOfInput]
    {
      hide T.ToolRunner.Valid, Lists, E.Shutdown, E.Run, E.Reordered;
      ids := Shutdown();
      TwoSteps(E.Initial(start), config, steps, ids, E.EndOfInput);
      steps := steps + [E.Rehash(ids), E.EndOfInput];
    }

    /** onMessage() */
    method OnMessage(message: Json) returns (ghost ids: seq<E.Id>, ghost slot: nat)
      requires Running()
      modifies this, runner, runner.flags
      ensures Running() && steps == old(steps) + [E.Rehash(ids), E.Frame(message, slot)]
      ensures NewFlags(old(runner.flags), runner.flags)
    {
      hide T.ToolRunner.Valid, Lists, E.OnMessage, E.Run, E.Reordered;
      ids, slot := Read(message);
      TwoSteps(E.Initial(start), config, steps, ids, E.Frame(message, slot));
      steps := steps + [E.Rehash(ids), E.Frame(message, slot)];
    }

    /** What onMessage() does: stray responses, malformed frames, notifications, requests. */
    method Read(message: Json) returns (ghost ids: seq<E.Id>, ghost slot: nat)
      requires Valid()
      modifies this, runner, runner.flags
      ensures Valid() && steps == old(steps)
      ensures E.Reordered(ids, old(model).listens)
      ensures model == E.OnMessage(old(model).(listens := ids), config, message, slot)
      ensures NewFlags(old(runner.flags), runner.flags)
    {
      hide T.ToolRunner.Valid, Lists, E.Member, E.Reject, E.HandleNotification, E.HandleRequest;
      Listed(model.listens, model.listens, listens);
      hide E.Reordered;
      ids, slot := model.listens, 0;
      var name, id := E.OrNull(E.Member(message, "method")), E.OrNull(E.Member(message, "id"));
      if E.Member(message, "method").None?
         && (E.Member(message, "result").Some? || E.Member(message, "error").Some?) {
        return;
      }
      var hasId, validId := E.Member(message, "id").Some?, id.String? || id.Number?;
      if !name.String? || name.text == "" || (hasId && !validId) {
        ids := Reject(message);
        return;
      }
      var params := E.OrNull(E.Member(message, "params"));
      if !hasId {
        HandleNotification(name.text, params);
      } else {
        ids, slot := HandleRequest(id, name.text, params);
      }
    }

    /** The error for a malformed frame, under its id if that is one. */
    method Reject(message: Json) returns (ghost ids: seq<E.Id>)
      requires Valid()
      modifies this
      ensures Valid() && steps == old(steps)
      ensures E.Reordered(ids, old(model).listens)
      ensures model == E.Reject(old(model).(listens := ids), message)
    {
      hide T.ToolRunner.Valid, Lists, E.Member, E.Send, E.Reordered;
      var id := E.OrNull(E.Member(message, "id"));
      var validId := id.String? || id.Number?;
      model := E.Log(model, E.Rejected(if validId then id else Null));
      ids := Send(E.Malformed(if validId then id else Null));
    }

    /** The rest of onMessage(): an id in use keeps its request to itself. */
    method HandleRequest(id: E.Id, name: string, params: Json) returns (ghost ids: seq<E.Id>, ghost slot: nat)
      requires Valid()
      modifies this, runner
      ensures Valid() && steps == old(steps)
      ensures E.Reordered(ids, old(model).listens)
      ensures model == E.HandleRequest(old(model).(listens := ids), config, id, name, params, slot)
      ensures NewFlags(old(runner.flags), runner.flags)
    {
      hide T.ToolRunner.Valid, E.HandleModernRequest, E.HandleLegacyRequest, E.IsModernRequest;
      Listed(model.listens, model.listens, listens);
      hide E.Reordered, E.NoDuplicates;
      ids, slot := model.listens, 0;
      model := E.Log(model, E.Received(id));
      if runner.IsInFlight(id) || id in listens {
        model := E.Log(model, E.Dropped(id));
        return;
      }
      if E.IsModernRequest(name, params) {
        ids, slot := HandleModernRequest(id, name, params);
      } else {
        ids := HandleLegacyRequest(id, name, params);
      }
    }

    method HandleLegacyRequest(id: E.Id, name: string, params: Json) returns (ghost ids: seq<E.Id>)
      requires Valid()
      modifies this, runner
      ensures Valid() && steps == old(steps)
      ensures E.Reordered(ids, old(model).listens)
      ensures model == E.HandleLegacyRequest(old(model).(listens := ids), config, id, name, params)
      ensures NewFlags(old(runner.flags), runner.flags)
    {
      hide T.ToolRunner.Valid, Lists, E.Send, E.HandleToolsCall, E.Reordered;
      if name == "initialize" {
        ids := Send(E.Result(id, E.Initialized));
      } else if name == "ping" {
        ids := Send(E.Result(id, E.Pong));
      } else if name == "tools/list" {
        ids := Send(E.Result(id, E.Tools));
      } else if name == "tools/call" {
        ids := HandleToolsCall(id, params, false);
      } else {
        ids := Send(E.Error(id, E.MethodNotFound));
      }
    }

    method HandleNotification(name: string, params: Json)
      requires Valid()
      modifies this, runner, runner.flags
      ensures Valid() && steps == old(steps)
      ensures model == E.HandleNotification(old(model), name, params)
      ensures runner.flags == old(runner.flags)
    {
      hide T.ToolRunner.Valid, E.Member, E.NoDuplicates;
      if name != "notifications/cancelled" {
        return;
      }
      var id := E.OrNull(E.Member(params, "requestId"));
      if id in listens {
        ListsFewer(model.listens, listens, id);
        listens := listens - {id};
        model := E.Log(model, E.Unlistened(id)).(listens := E.Remove(model.listens, id));
        return;
      }
      var found := runner.Cancel(id);
      if found {
        modernCalls, model := modernCalls - {id}, E.Cancelling(model, id);
      }
    }

    method HandleModernRequest(id: E.Id, name: string, params: Json) returns (ghost ids: seq<E.Id>, ghost slot: nat)
      requires Valid() && id !in listens
      modifies this, runner
      ensures Valid() && steps == old(steps)
      ensures E.Reordered(ids, old(model).listens)
      ensures model == E.HandleModernRequest(old(model).(listens := ids), config, id, name, params, slot)
      ensures NewFlags(old(runner.flags), runner.flags)
    {
      hide T.ToolRunner.Valid, Lists, E.Send, E.HandleToolsCall, E.HandleListen, E.Reordered, E.Member, E.MODERN_VERSIONS;
      slot := 0;
      var meta := E.Meta(params);
      var version := E.OrNull(E.Member(meta, E.PROTOCOL_VERSION));
      if !version.String? {
        ids := Send(E.Error(id, E.InvalidParams));
        return;
      }
      if version.text !in E.MODERN_VERSIONS {
        ids := Send(E.Error(id, E.UnsupportedProtocolVersion));
        return;
      }
      if !E.OrNull(E.Member(meta, E.CLIENT_CAPABILITIES)).Object? {
        ids := Send(E.Error(id, E.InvalidParams));
        return;
      }
      if name == "server/discover" {
        ids := Send(E.Result(id, E.Discovery));
      } else if name == "tools/list" {
        ids := HandleModernToolsList(id, params);
      } else if name == "tools/call" {
        ids := HandleToolsCall(id, params, true);
      } else if name == "subscriptions/listen" {
        ids, slot := HandleListen(id);
      } else {
        ids := Send(E.Error(id, E.MethodNotFound));
      }
    }

    method HandleModernToolsList(id: E.Id, params: Json) returns (ghost ids: seq<E.Id>)
      requires Valid()
      modifies this
      ensures Valid() && steps == old(steps)
      ensures E.Reordered(ids, old(model).listens)
      ensures model == E.HandleModernToolsList(old(model).(listens := ids), id, params)
    {
      hide T.ToolRunner.Valid, Lists, E.Send, E.Member;
      if E.Member(params, "cursor").Some? {
        ids := Send(E.Error(id, E.InvalidParams));
      } else {
        ids := Send(E.Result(id, E.ModernTools));
      }
    }

    /** The hash puts the new subscription where it likes. */
    method HandleListen(id: E.Id) returns (ghost ids: seq<E.Id>, ghost slot: nat)
      requires Valid() && id !in listens
      modifies this
      ensures Valid() && steps == old(steps)
      ensures E.Reordered(ids, old(model).listens)
      ensures model == E.HandleListen(old(model).(listens := ids), id, slot)
    {
      hide T.ToolRunner.Valid, E.Send, E.NoDuplicates;
      Listed(model.listens, model.listens, listens);
      if closing {
        ids, slot, model := model.listens, 0, E.Log(model, E.Dropped(id));
        return;
      }
      ListsMore(model.listens, listens, id);
      ghost var others := model.listens;
      listens := listens + {id};
      model := E.Log(model, E.Opened(id)).(listens := others + [id]);
      ghost var all := Send(E.Acknowledged(id));
      ids, slot := Without(all, others, id);
    }

    method HandleToolsCall(id: E.Id, params: Json, modern: bool) returns (ghost ids: seq<E.Id>)
      requires Valid()
      modifies this, runner
      ensures Valid() && steps == old(steps)
      ensures E.Reordered(ids, old(model).listens)
      ensures model == E.HandleToolsCall(old(model).(listens := ids), config, id, params, modern)
      ensures NewFlags(old(runner.flags), runner.flags)
    {
      hide T.ToolRunner.Valid, E.Send, E.Member, E.Submit;
      Listed(model.listens, model.listens, listens);
      hide E.Reordered, Lists;
      ids := model.listens;
      if closing {
        model := E.Log(model, E.Dropped(id));
        return;
      }
      var name, arguments := E.OrNull(E.Member(params, "name")), E.OrNull(E.Member(params, "arguments"));
      if !params.Object? || !name.String? || !(arguments.Null? || arguments.Object?) {
        ids := Send(E.Error(id, E.InvalidParams));
        return;
      }
      if name.text !in config.tools {
        ids := Send(E.Error(id, E.InvalidParams));
        return;
      }
      T.Submitted(model.runner, id, name.text in config.serialized);
      var submitted := runner.Submit(id, name.text in config.serialized);
      if submitted && modern {
        modernCalls := modernCalls + {id};
      }
      model := if submitted then E.Accept(model, id, name.text in config.serialized, modern)
               else E.Log(model.(runner := runner.model), E.Dropped(id));
    }

    // ---------------------------------------------------------- results

    method SendToolResult(id: E.Id, text: string) returns (ghost ids: seq<E.Id>)
      requires Valid()
      modifies this
      ensures Valid() && steps == old(steps)
      ensures E.Reordered(ids, old(model).listens)
      ensures model == E.SendToolResult(old(model).(listens := ids), id, text)
    {
      hide T.ToolRunner.Valid, Lists, E.Send;
      var modern := id in modernCalls;
      modernCalls := modernCalls - {id};
      model := model.(modernCalls := modernCalls);
      ids := Send(E.ToolResult(id, text, modern));
    }

    /** finish(), resultReady() and idle() being connected to the server. */
    method Finish() returns (ghost ids: seq<E.Id>)
      requires Running() && runner.posted != []
      modifies this, runner
      ensures Running() && steps == old(steps) + [E.Rehash(ids), E.FinishNext]
      ensures runner.flags == old(runner.flags)
    {
      hide T.ToolRunner.Valid, Lists, E.Send, E.SendToolResult, E.Run, E.Reordered;
      ids := FinishNext();
      TwoSteps(E.Initial(start), config, steps, ids, E.FinishNext);
      steps := steps + [E.Rehash(ids), E.FinishNext];
    }

    method FinishNext() returns (ghost ids: seq<E.Id>)
      requires Valid() && runner.posted != []
      modifies this, runner
      ensures E.Enabled(old(model), E.FinishNext) && E.Reordered(ids, old(model).listens)
      ensures Valid() && steps == old(steps) && model == E.Finish(old(model).(listens := ids))
      ensures runner.flags == old(runner.flags)
    {
      hide T.ToolRunner.Valid, E.SendToolResult, E.Take, E.NoDuplicates;
      Listed(model.listens, model.listens, listens);
      hide Lists, E.Reordered;
      ids := model.listens;
      var id, text, live := runner.Take();
      model := model.(runner := runner.model);
      if live {
        ids := SendToolResult(id, text);
      }
      if runner.InFlight() == 0 && closing {
        model := E.Log(model, E.Finished({}));
      }
    }

    // ---------------------------------------------------------- the threads

    /** A free thread of a pool takes a call. */
    method ThreadStarts(serialized: bool)
      requires Running() && runner.PoolOf(serialized).queue != [] && runner.PoolOf(serialized).idle > 0
      modifies this, runner
      ensures Running() && steps == old(steps) + [E.StartNext(serialized)] && runner.flags == old(runner.flags)
    {
      hide T.ToolRunner.Valid, Lists, E.Run, E.Start, E.CanStart;
      runner.StartNext(serialized);
      R.RunMore(E.Initial(start), config, steps, E.StartNext(serialized));
      model, steps := model.(runner := runner.model), steps + [E.StartNext(serialized)];
    }

    /** It looks at the flag of its call. */
    method ThreadLoads(serialized: bool, call: T.Call) returns (ran: bool)
      requires Running() && call in runner.PoolOf(serialized).started
      modifies this, runner
      ensures Running() && steps == old(steps) + [E.LoadFlag(serialized, call.flag.number)]
      ensures T.Worker(call, ran) in runner.PoolOf(serialized).calling && runner.flags == old(runner.flags)
    {
      hide T.ToolRunner.Valid, Lists, E.Run, E.Load;
      ran := runner.LoadFlag(serialized, call);
      R.RunMore(E.Initial(start), config, steps, E.LoadFlag(serialized, call.flag.number));
      model, steps := model.(runner := runner.model), steps + [E.LoadFlag(serialized, call.flag.number)];
    }

    /** It posts what the tool gave. */
    method ThreadReturns(serialized: bool, worker: T.Worker, text: string)
      requires Running() && worker in runner.PoolOf(serialized).calling
      modifies this, runner
      ensures Running() && steps == old(steps) + [E.ReturnResult(serialized, worker.call.flag.number, text)]
      ensures runner.flags == old(runner.flags)
    {
      hide T.ToolRunner.Valid, Lists, E.Run, E.Return, E.Outcome;
      runner.ReturnResult(serialized, worker, text);
      ghost var flag := worker.call.flag.number;
      R.RunMore(E.Initial(start), config, steps, E.ReturnResult(serialized, flag, text));
      model := E.Log(model, E.Returned(flag, E.Outcome(model.runner, flag, text))).(runner := runner.model);
      steps := steps + [E.ReturnResult(serialized, flag, text)];
    }
  }

  /** The objects obey the laws of the runs they took: an era is kept only for a call whose flag is
      unset, no id is both a call and a subscription, and stdout holds what was handed out, in order. */
  lemma ObjectsObey(server: Server)
    requires server.Running()
    ensures forall id | id in server.modernCalls ::
              id in server.runner.inFlight && !server.runner.inFlight[id].cancelled
    ensures forall id | id in server.listens :: id !in server.runner.inFlight
    ensures server.closing ==> server.listens == {}
    ensures server.written <= D.IssuedOf(server.model.history)
    ensures !server.broken ==> server.written == D.IssuedOf(server.model.history)
  {
    hide E.Run, T.PoolsAre, T.PostedIs, I.RunnerInv, D.IssuedOf, E.NoDuplicates;
    R.RunIsReachable(server.start, server.config, server.steps);
    D.WrittenIsIssued(server.model, server.config);
    Kept(server.model, server.config);
  }

  lemma Kept(s: E.State, c: E.Config)
    requires D.Reachable(s, c)
    ensures forall id | id in s.modernCalls :: id in s.runner.inFlight && s.runner.inFlight[id] !in s.runner.cancelled
    ensures forall id | id in s.listens :: id !in s.runner.inFlight
    ensures s.closing ==> s.listens == []
  {
    D.ReachableInv(s, c);
    hide D.Reachable, D.Onward, I.RunnerInv, V.Story, V.PostedReturned, E.NoDuplicates;
  }
}
