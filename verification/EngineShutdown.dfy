/** What never goes back, over every interleaving: once closing nothing is added and the calls in
    flight drain until the end is announced; a cancelled call that has not started never runs; what
    was written is what was issued, up to the first failing write. */
module EngineShutdown {
  import opened Wrappers
  import opened Json
  import opened Engine
  import opened RunnerInvariant
  import opened EngineInvariant

  // ------------------------------------------------------------ what is held against a base state

  /** The messages handed to the transport, in order. */
  function IssuedOf(h: seq<Event>): seq<Out> {
    if h == [] then []
    else
      var last := h[|h| - 1];
      IssuedOf(h[..|h| - 1]) + if last.Issued? then [last.out] else []
  }

  /** Everything issued is written, until a write fails; nothing is after that. */
  ghost predicate Wrote(o: Output, h: seq<Event>) {
    o.written <= IssuedOf(h) && (!o.broken ==> o.written == IssuedOf(h))
  }

  /** The end is announced only when closing with nothing in flight, and then it has been. */
  ghost predicate Announced(h: seq<Event>, closing: bool, inFlight: map<Id, Flag>) {
    && (forall e | e in h && e.Finished? :: e == Finished({}) && closing && inFlight == map[])
    && (closing && inFlight == map[] ==> Finished({}) in h)
  }

  /** Nothing was added since `base`. */
  ghost predicate Drained(base: State, closing: bool, listens: seq<Id>, inFlight: map<Id, Flag>, nextFlag: Flag) {
    base.closing ==>
      && closing && listens == [] && nextFlag == base.runner.nextFlag
      && forall id | id in inFlight :: id in base.runner.inFlight && inFlight[id] == base.runner.inFlight[id]
  }

  /** Flags stay set, and what was cancelled before it ran does not run. */
  ghost predicate Unstarted(base: State, cancelled: set<Flag>, ran: set<Flag>) {
    && base.runner.cancelled <= cancelled
    && forall f | f in base.runner.cancelled && f in ran :: f in base.runner.ran
  }

  ghost predicate Onward(base: State, s: State) {
    && Wrote(s.output, s.history)
    && Announced(s.history, s.closing, s.runner.inFlight)
    && Drained(base, s.closing, s.listens, s.runner.inFlight, s.runner.nextFlag)
    && Unstarted(base, s.runner.cancelled, s.runner.ran)
  }

  lemma IssuedLogged(h: seq<Event>, e: Event)
    ensures IssuedOf(h + [e]) == IssuedOf(h) + if e.Issued? then [e.out] else []
  {
    assert (h + [e])[..|h|] == h && (h + [e])[|h|] == e;
  }

  lemma LogOnward(base: State, s: State, e: Event)
    requires Onward(base, s) && !e.Issued? && !e.Finished?
    ensures Onward(base, Log(s, e))
  {
    hide Drained, Unstarted, IssuedOf;
    IssuedLogged(s.history, e);
    var before, after := IssuedOf(s.history), IssuedOf(s.history + [e]);
    assert before + [] == before;
    assert forall d :: d in s.history + [e] <==> d in s.history || d == e;
  }

  // ------------------------------------------------------------ sending

  lemma SendWrites(s: State, out: Out)
    requires s.closing && Wrote(s.output, s.history)
    ensures var t := Send(s, out);
            Wrote(t.output, t.history)
  {
    IssuedLogged(s.history, Issued(out));
    hide IssuedOf;
  }

  lemma {:induction false} FarewellsWritten(s: State, ids: seq<Id>)
    requires s.closing && Wrote(s.output, s.history)
    ensures var t := CloseSubscriptions(s, ids);
            Wrote(t.output, t.history)
    decreases ids
  {
    hide Wrote, Send;
    if ids != [] {
      SendWrites(s, Completion(ids[0]));
      var one := Send(s, Completion(ids[0]));
      SendWrites(one, CancelledNote(ids[0]));
      FarewellsWritten(Send(one, CancelledNote(ids[0])), ids[1..]);
    }
  }

  lemma ShutdownWrites(s: State)
    requires Wrote(s.output, s.history)
    ensures var t := Shutdown(s);
            Wrote(t.output, t.history)
  {
    hide CloseSubscriptions;
    if !s.closing {
      FarewellsWritten(s.(closing := true), s.listens);
      var t := CloseSubscriptions(s.(closing := true), s.listens);
      IssuedLogged(t.history, Finished(t.runner.inFlight.Keys));
      hide IssuedOf;
      assert IssuedOf(t.history) + [] == IssuedOf(t.history);
    }
  }

  lemma TripWrites(s: State, out: Out)
    requires Wrote(s.output, s.history)
    ensures var t := Send(s, out);
            Wrote(t.output, t.history)
  {
    hide Shutdown, IssuedOf;
    IssuedLogged(s.history, Issued(out));
    var logged := Log(s, Issued(out));
    if Trips(s.output) { ShutdownWrites(logged.(output := s.output.(broken := true))); }
  }

  /** Farewells and the announcement keep the announcement right. */
  lemma ShutAnnounces(h: seq<Event>, listens: seq<Id>, r: Runner)
    requires Announced(h, false, r.inFlight)
    ensures Announced(h + Farewells(listens) + FinishedIf(r), true, r.inFlight)
  {
    FarewellsIssue(listens);
    hide Farewells;
    var k := h + Farewells(listens) + FinishedIf(r);
    assert forall e :: e in k <==> e in h || e in Farewells(listens) || e in FinishedIf(r);
    if r.inFlight == map[] { assert Finished({}) in FinishedIf(r); }
  }

  lemma {:induction false} FarewellsIssue(ids: seq<Id>)
    ensures forall e | e in Farewells(ids) :: e.Issued?
  {
    if ids != [] { FarewellsIssue(ids[1..]); }
  }

  lemma IssueAnnounces(h: seq<Event>, out: Out, closing: bool, inFlight: map<Id, Flag>)
    requires Announced(h, closing, inFlight)
    ensures Announced(h + [Issued(out)], closing, inFlight)
  {
    assert forall e :: e in h + [Issued(out)] <==> e in h || e == Issued(out);
  }

  lemma ShutdownOnward(base: State, s: State)
    requires Onward(base, s)
    ensures Onward(base, Shutdown(s))
  {
    hide Wrote, Announced, Shutdown, Unstarted;
    ShutdownIs(s);
    ShutdownWrites(s);
    if !s.closing { ShutAnnounces(s.history, s.listens, s.runner); }
  }

  lemma SendOnward(base: State, s: State, out: Out)
    requires Onward(base, s)
    ensures Onward(base, Send(s, out))
  {
    hide Wrote, Announced, Send, Unstarted;
    SendIs(s, out);
    TripWrites(s, out);
    IssueAnnounces(s.history, out, s.closing, s.runner.inFlight);
    if !s.closing && Trips(s.output) {
      ShutAnnounces(s.history + [Issued(out)], s.listens, s.runner);
    }
  }

  // ------------------------------------------------------------ the tables

  lemma AcceptOnward(base: State, s: State, id: Id, serialized: bool, modern: bool)
    requires Onward(base, s) && !s.closing
    ensures Onward(base, Accept(s, id, serialized, modern))
  {
    var e := Accepted(id, s.runner.nextFlag, modern);
    LogOnward(base, s, e);
    hide Wrote, Submit;
    SubmitAside(s.runner, id, serialized);
    assert forall d | d in s.history + [e] :: !d.Finished?;
  }

  lemma SubmitAside(r: Runner, id: Id, serialized: bool)
    ensures var t := Submit(r, id, serialized);
            t.cancelled == r.cancelled && t.ran == r.ran
  {
  }

  lemma CancelOnward(base: State, s: State, id: Id)
    requires Onward(base, s) && id in s.runner.inFlight
    ensures Onward(base, Cancelling(s, id))
  {
    hide Wrote, Announced, Drained;
    LogOnward(base, s, Cancelled(id));
  }

  lemma UnlistenOnward(base: State, s: State, id: Id)
    requires Onward(base, s) && id in s.listens
    ensures Onward(base, Log(s, Unlistened(id)).(listens := Remove(s.listens, id)))
  {
    hide Wrote, Announced, Unstarted;
    LogOnward(base, s, Unlistened(id));
  }

  lemma ListenOnward(base: State, s: State, id: Id, slot: nat)
    requires Onward(base, s)
    ensures Onward(base, HandleListen(s, id, slot))
  {
    hide Onward, Send;
    if s.closing {
      LogOnward(base, s, Dropped(id));
    } else {
      OpenOnward(base, s, id, slot);
      SendOnward(base, Log(s, Opened(id)).(listens := Placing(s.listens, id, slot)), Acknowledged(id));
    }
  }

  lemma OpenOnward(base: State, s: State, id: Id, slot: nat)
    requires Onward(base, s) && !s.closing
    ensures Onward(base, Log(s, Opened(id)).(listens := Placing(s.listens, id, slot)))
  {
    hide Wrote, Announced, Unstarted;
    LogOnward(base, s, Opened(id));
  }

  // ------------------------------------------------------------ workers and results

  lemma WorkersOnward(base: State, s: State, i: Input)
    requires Onward(base, s) && Enabled(s, i) && (i.StartNext? || i.LoadFlag?)
    ensures forall c :: Onward(base, Step(s, c, i))
  {
    hide Wrote, Announced, Drained, CanStart;
  }

  lemma ReturnOnward(base: State, s: State, serialized: bool, flag: Flag, text: string)
    requires Onward(base, s) && flag in PoolOf(s.runner, serialized).calling
    ensures var e := Returned(flag, Outcome(s.runner, flag, text));
            Onward(base, Log(s, e).(runner := Return(s.runner, serialized, flag, text)))
  {
    var e := Returned(flag, Outcome(s.runner, flag, text));
    hide Wrote, Announced, Drained, Outcome;
    LogOnward(base, s, e);
  }

  lemma {:induction false} FinishOnward(base: State, s: State)
    requires Onward(base, s) && Inv(s, None) && Enabled(s, FinishNext)
    ensures Onward(base, Finish(s))
  {
    hide Inv, Onward, Send;
    OwnFlagTaken(s);
    var r, id := s.runner, NextId(s.runner);
    var text := r.posted[0].text;
    var taken := s.(runner := Take(r));
    var live := r.inFlight[id] !in r.cancelled;
    var out := ToolResult(id, text, id in s.modernCalls);
    var left := if live then taken.(modernCalls := s.modernCalls - {id}) else taken;
    NotYetFinished(base, s, id);
    SendIs(left, out);
    if taken.runner.inFlight != map[] {
      TakeOnward(base, s, left);
      SendOnward(base, left, out);
    } else {
      LastFinish(base, s, left, live, out);
    }
  }

  lemma NotYetFinished(base: State, s: State, id: Id)
    requires Onward(base, s) && id in s.runner.inFlight
    ensures forall e | e in s.history :: !e.Finished?
  {
    hide Wrote, Drained, Unstarted;
  }

  lemma TakeOnward(base: State, s: State, t: State)
    requires Onward(base, s) && Enabled(s, FinishNext) && (forall e | e in s.history :: !e.Finished?)
    requires t == s.(runner := Take(s.runner), modernCalls := t.modernCalls) && t.runner.inFlight != map[]
    ensures Onward(base, t)
  {
    hide Wrote;
  }

  /** The call that ends last: whether the result can be written or not, the end is announced after
      it when the server is closing, be it because of that very write. */
  lemma LastFinish(base: State, s: State, left: State, live: bool, out: Out)
    requires Onward(base, s) && Enabled(s, FinishNext) && (forall e | e in s.history :: !e.Finished?)
    requires left == s.(runner := Take(s.runner), modernCalls := left.modernCalls) && left.runner.inFlight == map[]
    ensures var sent := if live then Send(left, out) else left;
            Onward(base, if sent.closing then Log(sent, Finished(sent.runner.inFlight.Keys)) else sent)
  {
    hide Wrote, Send, Trips;
    SendIs(left, out);
    TripWrites(left, out);
    var sent := if live then Send(left, out) else left;
    FarewellsIssue(s.listens);
    hide Farewells, FinishedIf;
    FinishedEvents(left.runner);
    assert sent.runner == left.runner && sent.runner.inFlight.Keys == {};
    assert forall e | e in sent.history :: !e.Finished? || (e == Finished({}) && sent.closing);
    if sent.closing {
      FinishLogged(sent.output, sent.history, Finished({}));
    }
  }

  lemma FinishedEvents(r: Runner)
    ensures forall e | e in FinishedIf(r) :: e == Finished({})
  {
  }

  lemma FinishLogged(o: Output, h: seq<Event>, e: Event)
    requires Wrote(o, h) && !e.Issued?
    ensures Wrote(o, h + [e])
  {
    IssuedLogged(h, e);
    assert IssuedOf(h) + [] == IssuedOf(h);
  }

  // ------------------------------------------------------------ every step, every run

  lemma ToolsCallOnward(base: State, s: State, c: Config, id: Id, params: Json, modern: bool)
    requires Onward(base, s)
    ensures Onward(base, HandleToolsCall(s, c, id, params, modern))
  {
    hide Onward, Send, Member, Accept;
    var name := OrNull(Member(params, "name"));
    LogOnward(base, s, Dropped(id));
    SendOnward(base, s, Error(id, InvalidParams));
    if !s.closing && name.String? { AcceptOnward(base, s, id, name.text in c.serialized, modern); }
  }

  lemma SendAnyOnward(base: State, s: State)
    requires Onward(base, s)
    ensures forall out :: Onward(base, Send(s, out))
  {
    hide Onward, Send;
    forall out ensures Onward(base, Send(s, out)) { SendOnward(base, s, out); }
  }

  lemma RequestOnward(base: State, s: State, c: Config, id: Id, name: string, params: Json, slot: nat)
    requires Onward(base, s)
    ensures Onward(base, HandleRequest(s, c, id, name, params, slot))
  {
    hide Onward, Send, HandleToolsCall, HandleListen, Member, MODERN_VERSIONS, IsModernRequest;
    var received := Log(s, Received(id));
    LogOnward(base, s, Received(id));
    LogOnward(base, received, Dropped(id));
    SendAnyOnward(base, received);
    ToolsCallOnward(base, received, c, id, params, true);
    ToolsCallOnward(base, received, c, id, params, false);
    ListenOnward(base, received, id, slot);
  }

  lemma NotificationOnward(base: State, s: State, name: string, params: Json)
    requires Onward(base, s)
    ensures Onward(base, HandleNotification(s, name, params))
  {
    hide Onward, Member, Cancelling, Remove;
    var id := OrNull(Member(params, "requestId"));
    if id in s.listens { UnlistenOnward(base, s, id); }
    if id in s.runner.inFlight { CancelOnward(base, s, id); }
  }

  lemma RejectOnward(base: State, s: State, message: Json)
    requires Onward(base, s)
    ensures Onward(base, Reject(s, message))
  {
    hide Onward, Send;
    var id := OrNull(Member(message, "id"));
    var named := if IsId(id) then id else Json.Null;
    LogOnward(base, s, Rejected(named));
    SendOnward(base, Log(s, Rejected(named)), Malformed(named));
  }

  lemma MessageOnward(base: State, s: State, c: Config, message: Json, slot: nat)
    requires Onward(base, s)
    ensures Onward(base, OnMessage(s, c, message, slot))
  {
    hide Onward, Reject, Member, HandleRequest, HandleNotification;
    var params := OrNull(Member(message, "params"));
    RejectOnward(base, s, message);
    if !IsMalformed(message) {
      var name := Member(message, "method").value.text;
      match Member(message, "id")
      case None => NotificationOnward(base, s, name, params);
      case Some(id) => RequestOnward(base, s, c, id, name, params, slot);
    }
  }

  lemma RehashOnward(base: State, s: State, ids: seq<Id>)
    requires Onward(base, s) && Reordered(ids, s.listens)
    ensures Onward(base, s.(listens := ids))
  {
    hide Wrote, Announced, Unstarted, NoDuplicates;
    assert s.listens == [] ==> ids == [] by { if ids != [] { assert ids[0] in ids; } }
  }

  lemma {:induction false} StepOnward(base: State, s: State, c: Config, i: Input)
    requires Onward(base, s) && Inv(s, None) && Enabled(s, i)
    ensures Onward(base, Step(s, c, i))
  {
    hide Inv, Onward, Send, Shutdown, OnMessage, Finish, Start, Load, Return, PoolOf, CanStart, Reordered;
    match i
    case Frame(message, slot) => MessageOnward(base, s, c, message, slot);
    case BadFrame(code) => SendOnward(base, s, InvalidFrame(code));
    case EndOfInput => ShutdownOnward(base, s);
    case FinishNext => FinishOnward(base, s);
    case Rehash(ids) => RehashOnward(base, s, ids);
    case StartNext(_) => WorkersOnward(base, s, i);
    case LoadFlag(_, _) => WorkersOnward(base, s, i);
    case ReturnResult(serialized, flag, text) => ReturnOnward(base, s, serialized, flag, text);
  }

  lemma {:induction false} RunOnward(base: State, c: Config, inputs: seq<Input>)
    requires Inv(base, None) && Onward(base, base)
    ensures var s := Run(base, c, inputs);
            Inv(s, None) && Onward(base, s)
  {
    hide Inv, Onward, Step, Enabled;
    if inputs != [] {
      var before, last := Run(base, c, inputs[..|inputs| - 1]), inputs[|inputs| - 1];
      RunOnward(base, c, inputs[..|inputs| - 1]);
      if Enabled(before, last) {
        StepKeeps(before, c, last);
        StepOnward(base, before, c, last);
      }
    }
  }

  lemma InitialOnward(writable: nat)
    ensures Onward(Initial(writable), Initial(writable))
  {
  }

  /** The states a run can lead to. */
  ghost predicate Reachable(s: State, c: Config) {
    exists writable: nat, inputs :: s == Run(Initial(writable), c, inputs)
  }

  lemma ReachableInv(s: State, c: Config)
    requires Reachable(s, c)
    ensures Inv(s, None) && Onward(s, s)
  {
    hide Inv, Onward;
    var writable: nat, inputs :| s == Run(Initial(writable), c, inputs);
    InitialInv(writable);
    InitialOnward(writable);
    RunOnward(Initial(writable), c, inputs);
    Rebased(Initial(writable), s);
  }

  lemma Rebased(base: State, s: State)
    requires Onward(base, s) && Inv(s, None)
    ensures Onward(s, s)
  {
    hide Wrote, Announced, RunnerInv, ErasKept, Story, PostedReturned;
  }

  lemma {:induction false} RunContinues(s: State, c: Config, a: seq<Input>, b: seq<Input>)
    ensures Run(Run(s, c, a), c, b) == Run(s, c, a + b)
    decreases |b|
  {
    hide Step, Enabled;
    if b == [] {
      assert a + b == a;
    } else {
      RunContinues(s, c, a, b[..|b| - 1]);
      assert (a + b)[..|a + b| - 1] == a + b[..|b| - 1] && (a + b)[|a + b| - 1] == b[|b| - 1];
    }
  }

  lemma RunReachable(s: State, c: Config, inputs: seq<Input>)
    requires Reachable(s, c)
    ensures Reachable(Run(s, c, inputs), c)
  {
    var writable: nat, before :| s == Run(Initial(writable), c, before);
    RunContinues(Initial(writable), c, before, inputs);
    hide Run;
  }

  // ------------------------------------------------------------ main results

  /** Once closing, whatever comes: no call and no subscription is added, and the calls in flight
      only go. */
  lemma {:induction false} ClosingOnlyDrains(s: State, c: Config, inputs: seq<Input>)
    requires Reachable(s, c) && s.closing
    ensures var t := Run(s, c, inputs);
            && t.closing && t.listens == [] && t.runner.nextFlag == s.runner.nextFlag
            && (forall id | id in t.runner.inFlight ::
                  id in s.runner.inFlight && t.runner.inFlight[id] == s.runner.inFlight[id])
  {
    ReachableInv(s, c);
    RunOnward(s, c, inputs);
    hide Run, Inv, Reachable;
  }

  /** The end is announced only when closing with nothing in flight; and whenever that is so, it has
      been announced. It can be announced twice. */
  lemma {:induction false} FinishedExactly(s: State, c: Config)
    requires Reachable(s, c)
    ensures forall e | e in s.history && e.Finished? :: e.inFlight == {}
    ensures (exists e | e in s.history :: e.Finished?) <==> s.closing && s.runner.inFlight == map[]
  {
    ReachableInv(s, c);
    hide Inv, Reachable;
  }

  /** How often the end was announced. */
  function Endings(h: seq<Event>): nat {
    if h == [] then 0 else Endings(h[..|h| - 1]) + if h[|h| - 1].Finished? then 1 else 0
  }

  lemma EndingLogged(h: seq<Event>, e: Event)
    ensures Endings(h + [e]) == Endings(h) + if e.Finished? then 1 else 0
  {
    assert (h + [e])[..|h|] == h && (h + [e])[|h|] == e;
  }

  lemma {:induction false} NoEndings(h: seq<Event>, es: seq<Event>)
    requires forall e | e in es :: !e.Finished?
    ensures Endings(h + es) == Endings(h)
    decreases |es|
  {
    if es == [] {
      assert h + es == h;
    } else {
      var init, last := es[..|es| - 1], es[|es| - 1];
      assert h + es == (h + init) + [last] && last in es;
      NoEndings(h, init);
      EndingLogged(h + init, last);
    }
  }

  /** The last call to end announces the end twice when the write of its own result is the one that
      fails: the shutdown that follows finds nothing in flight, and so does finish() after it. */
  lemma {:induction false} LastFinishAnnounces(s: State, c: Config)
    requires Reachable(s, c) && Enabled(s, FinishNext) && Take(s.runner).inFlight == map[]
    ensures var live := s.runner.posted[0].flag !in s.runner.cancelled;
            Endings(Finish(s).history) ==
            Endings(s.history) + (if s.closing then 1 else if live && Trips(s.output) then 2 else 0)
  {
    ReachableInv(s, c);
    OwnFlagTaken(s);
    var r, id := s.runner, NextId(s.runner);
    var live := r.inFlight[id] !in r.cancelled;
    var out := ToolResult(id, r.posted[0].text, id in s.modernCalls);
    var taken := s.(runner := Take(r));
    var left := if live then taken.(modernCalls := s.modernCalls - {id}) else taken;
    hide Inv, Onward, Reachable, Send, Trips, Take, Endings;
    SendIs(left, out);
    AnswerEndings(left, out);
    var sent := if live then Send(left, out) else left;
    EndingLogged(sent.history, Finished(sent.runner.inFlight.Keys));
  }

  lemma AnswerEndings(s: State, out: Out)
    requires s.runner.inFlight == map[]
    ensures Endings(Send(s, out).history) == Endings(s.history) + if !s.closing && Trips(s.output) then 1 else 0
  {
    hide Send, Trips, Endings;
    SendIs(s, out);
    FarewellsIssue(s.listens);
    var h := s.history + [Issued(out)];
    EndingLogged(s.history, Issued(out));
    NoEndings(h, Farewells(s.listens));
    EndingLogged(h + Farewells(s.listens), Finished({}));
  }

  /** A call cancelled before its worker loads the flag never runs its tool. */
  lemma {:induction false} CancelledNeverRuns(s: State, c: Config, inputs: seq<Input>, serialized: bool, flag: Flag)
    requires Reachable(s, c) && flag in s.runner.cancelled
    requires flag in PoolOf(s.runner, serialized).queue || flag in PoolOf(s.runner, serialized).started
    ensures flag !in Run(s, c, inputs).runner.ran
  {
    ReachableInv(s, c);
    RunOnward(s, c, inputs);
    NotRunYet(s, serialized, flag);
    hide Run, Inv, Reachable, PoolOf;
  }

  lemma NotRunYet(s: State, serialized: bool, flag: Flag)
    requires Inv(s, None)
    requires flag in PoolOf(s.runner, serialized).queue || flag in PoolOf(s.runner, serialized).started
    ensures flag !in s.runner.ran
  {
    hide Story, Listening, ErasKept, PostedReturned, OwnFlags, Ordered, OwnTasks;
  }

  /** stdout holds what was issued, in order: all of it as long as no write failed. */
  lemma {:induction false} WrittenIsIssued(s: State, c: Config)
    requires Reachable(s, c)
    ensures s.output.written <= IssuedOf(s.history)
    ensures !s.output.broken ==> s.output.written == IssuedOf(s.history)
  {
    ReachableInv(s, c);
    hide Inv, Reachable, IssuedOf;
  }

  // ------------------------------------------------------------ the end is reached

  function PoolWork(p: Pool): nat {
    4 * |p.queue| + 3 * |p.started| + 2 * |p.calling|
  }

  /** Steps still to be made for the calls in flight. */
  function Work(r: Runner): nat {
    PoolWork(r.general) + PoolWork(r.serial) + |r.posted|
  }

  lemma PoolWorks(p: Pool, flag: Flag)
    requires Ordered(p)
    ensures p.queue != [] ==>
              PoolWork(p.(queue := p.queue[1..], started := p.started + {p.queue[0]})) == PoolWork(p) - 1
    ensures flag in p.started ==>
              PoolWork(p.(started := p.started - {flag}, calling := p.calling + {flag})) == PoolWork(p) - 1
    ensures flag in p.calling ==> PoolWork(p.(calling := p.calling - {flag})) == PoolWork(p) - 2
  {
    hide Increasing;
    if p.queue != [] {
      var first := p.queue[0];
      assert first in p.queue;
      assert first in p.started ==> first < first;
    }
  }

  lemma {:induction false} InternalStepWorks(s: State, c: Config, i: Input)
    requires Inv(s, None) && IsInternal(i) && Enabled(s, i)
    ensures Work(Step(s, c, i).runner) == Work(s.runner) - 1
  {
    var r := s.runner;
    if i.FinishNext? {
      hide Inv, Finish, PoolWork;
      FinishWorks(s);
    } else {
      hide Story, Listening, ErasKept, PostedReturned, OwnFlags, OwnTasks, Unrun, Placed, SerialOrder, Distinct, PoolWork,
           Ordered;
      PoolWorks(PoolOf(r, i.serialized), if i.LoadFlag? || i.ReturnResult? then i.flag else 0);
    }
  }

  lemma {:induction false} FinishWorks(s: State)
    requires Inv(s, None) && Enabled(s, FinishNext)
    ensures Finish(s).runner == Take(s.runner)
  {
    OwnFlagTaken(s);
    hide Inv, Send;
    var r, id := s.runner, NextId(s.runner);
    SendIs(s.(runner := Take(r), modernCalls := s.modernCalls - {id}), ToolResult(id, r.posted[0].text, id in s.modernCalls));
  }

  lemma {:induction false} SomePlace(r: Runner, id: Id) returns (serialized: bool)
    requires RunnerInv(r) && id in r.inFlight && r.posted == []
    ensures r.inFlight[id] in Flags(PoolOf(r, serialized))
  {
    hide PoolInv, SerialOrder, Distinct, Flags;
    assert r.inFlight[id] in r.tasks && PostedFlags(r.posted) == {};
    serialized := r.inFlight[id] in Flags(r.serial);
  }

  /** As long as a call is in flight, some step takes one further. */
  lemma {:induction false} NeverStuck(s: State, c: Config) returns (i: Input)
    requires Reachable(s, c) && s.runner.inFlight != map[]
    ensures IsInternal(i) && Enabled(s, i)
  {
    ReachableInv(s, c);
    hide Reachable, Onward, Story, Listening, ErasKept, PostedReturned, RunnerInv;
    var r := s.runner;
    if r.posted != [] {
      OwnFlagTaken(s);
      return FinishNext;
    }
    var id :| id in r.inFlight;
    var serialized := SomePlace(r, id);
    hide Inv, PoolOf, Flags;
    i := PoolGoesOn(s, serialized, r.inFlight[id]);
  }

  lemma Nothing(flags: set<Flag>)
    requires forall f :: f !in flags
    ensures flags == {}
  {
    assert forall f: Flag | f in flags :: false;
  }

  lemma PoolGoesOn(s: State, serialized: bool, flag: Flag) returns (i: Input)
    requires flag in Flags(PoolOf(s.runner, serialized))
    ensures IsInternal(i) && Enabled(s, i)
  {
    var p := PoolOf(s.runner, serialized);
    if f :| f in p.calling {
      return ReturnResult(serialized, f, "");
    }
    if f :| f in p.started {
      return LoadFlag(serialized, f);
    }
    Nothing(p.calling);
    Nothing(p.started);
    i := StartNext(serialized);
  }

  predicate SamePlaces(r: Runner, t: Runner) {
    r.general == t.general && r.serial == t.serial && r.posted == t.posted
  }

  lemma ToolsCallPlaces(s: State, c: Config, id: Id, params: Json, modern: bool)
    requires s.closing
    ensures HandleToolsCall(s, c, id, params, modern).runner == s.runner
  {
  }

  lemma RequestPlaces(s: State, c: Config, id: Id, name: string, params: Json, slot: nat)
    requires s.closing
    ensures HandleRequest(s, c, id, name, params, slot).runner == s.runner
  {
    hide Send, Member, MODERN_VERSIONS, IsModernRequest, HandleToolsCall;
    SendRunner();
    ToolsCallPlaces(Log(s, Received(id)), c, id, params, true);
    ToolsCallPlaces(Log(s, Received(id)), c, id, params, false);
  }

  lemma MessagePlaces(s: State, c: Config, message: Json, slot: nat)
    requires s.closing
    ensures SamePlaces(s.runner, OnMessage(s, c, message, slot).runner)
  {
    hide Send, Member, HandleRequest, Remove;
    SendRunner();
    if !IsMalformed(message) && Member(message, "id").Some? {
      RequestPlaces(s, c, Member(message, "id").value, Member(message, "method").value.text,
                    OrNull(Member(message, "params")), slot);
    }
  }

  lemma SendRunner()
    ensures forall s, out :: Send(s, out).runner == s.runner
  {
    hide Send;
    forall s, out ensures Send(s, out).runner == s.runner { SendIs(s, out); }
  }

  lemma OtherStepsKeepWork(s: State, c: Config, i: Input)
    requires s.closing && !IsInternal(i) && Enabled(s, i)
    ensures Work(Step(s, c, i).runner) == Work(s.runner)
  {
    hide Send, OnMessage, Shutdown;
    SendRunner();
    ShutdownIs(s);
    if i.Frame? { MessagePlaces(s, c, i.message, i.slot); }
  }

  /** How many steps of `inputs` took a call further. */
  ghost function Taken(s: State, c: Config, inputs: seq<Input>): nat {
    if inputs == [] then 0
    else
      var before, last := Run(s, c, inputs[..|inputs| - 1]), inputs[|inputs| - 1];
      Taken(s, c, inputs[..|inputs| - 1]) + if IsInternal(last) && Enabled(before, last) then 1 else 0
  }

  lemma {:induction false} WorkIsTaken(s: State, c: Config, inputs: seq<Input>)
    requires Inv(s, None) && s.closing
    ensures var t := Run(s, c, inputs);
            t.closing && Inv(t, None) && Taken(s, c, inputs) + Work(t.runner) == Work(s.runner)
  {
    hide Inv, Step, Enabled, Work;
    if inputs != [] {
      var before, last := Run(s, c, inputs[..|inputs| - 1]), inputs[|inputs| - 1];
      WorkIsTaken(s, c, inputs[..|inputs| - 1]);
      if Enabled(before, last) {
        StepKeeps(before, c, last);
        StaysClosing(before, c, last);
        if IsInternal(last) { InternalStepWorks(before, c, last); } else { OtherStepsKeepWork(before, c, last); }
      }
    }
  }

  lemma StaysClosing(s: State, c: Config, i: Input)
    requires s.closing && Enabled(s, i)
    ensures Step(s, c, i).closing
  {
    hide Send, Member, MODERN_VERSIONS, IsModernRequest, CanStart, PoolOf;
    assert forall t: State, out :: t.closing ==> Send(t, out).closing;
  }

  /** Once closing, every run that keeps taking calls further announces the end: only as many such
      steps as `Work` says are left, one is possible as long as a call is in flight, and when none is
      the end has been announced. */
  lemma {:induction false} EndIsReached(s: State, c: Config, inputs: seq<Input>) returns (next: Input)
    requires Reachable(s, c) && s.closing
    ensures var t := Run(s, c, inputs);
            && Taken(s, c, inputs) + Work(t.runner) == Work(s.runner)
            && (t.runner.inFlight != map[] ==> IsInternal(next) && Enabled(t, next))
            && (t.runner.inFlight == map[] ==> Finished({}) in t.history)
  {
    ReachableInv(s, c);
    WorkIsTaken(s, c, inputs);
    RunReachable(s, c, inputs);
    var t := Run(s, c, inputs);
    hide Run, Inv, Taken, Work, Enabled;
    if t.runner.inFlight != map[] {
      next := NeverStuck(t, c);
    } else {
      next := FinishNext;
      FinishedExactly(t, c);
    }
  }
}
