/** What holds after any interleaving: requests are conserved, results follow accepted calls, eras are
    remembered exactly for the calls that can still be answered, and the end is announced. */
module EngineInvariant {
  import opened Wrappers
  import opened Engine
  import opened Json
  import opened RunnerInvariant

  // ------------------------------------------------------------ reading the history

  /** The response to request `id`, if `out` is one. */
  function Answers(out: Out): Option<Id> {
    match out
    case Result(id, _) => Some(id)
    case Error(id, _) => Some(id)
    case ToolResult(id, _, _) => Some(id)
    case Completion(id) => Some(id)
    case _ => None
  }

  /** What is counted: requests to be accounted for, subscriptions that are open, completions whose
      cancellation has not followed, and malformed frames without their error. */
  datatype Account = Requests | Subscriptions | Completions | Rejections

  function RequestWeight(e: Event, id: Id): int {
    match e
    case Received(i) => if i == id then 1 else 0
    case Dropped(i) => if i == id then -1 else 0
    case Cancelled(i) => if i == id then -1 else 0
    case Unlistened(i) => if i == id then -1 else 0
    case Issued(out) => if Answers(out) == Some(id) then -1 else 0
    case _ => 0
  }

  function SubscriptionWeight(e: Event, id: Id): int {
    match e
    case Opened(i) => if i == id then 1 else 0
    case Unlistened(i) => if i == id then -1 else 0
    case Issued(Completion(i)) => if i == id then -1 else 0
    case _ => 0
  }

  function CompletionWeight(e: Event, id: Id): int {
    match e
    case Issued(Completion(i)) => if i == id then 1 else 0
    case Issued(CancelledNote(i)) => if i == id then -1 else 0
    case _ => 0
  }

  function RejectionWeight(e: Event, id: Id): int {
    match e
    case Rejected(i) => if i == id then 1 else 0
    case Issued(Malformed(i)) => if i == id then -1 else 0
    case _ => 0
  }

  /** What an event changes in an account of `id`. */
  function Weight(e: Event, id: Id, account: Account): int {
    match account
    case Requests => RequestWeight(e, id)
    case Subscriptions => SubscriptionWeight(e, id)
    case Completions => CompletionWeight(e, id)
    case Rejections => RejectionWeight(e, id)
  }

  /** For Requests: those received, less those answered, dropped, cancelled or closed by the client. */
  function Balance(h: seq<Event>, id: Id, account: Account): int {
    if h == [] then 0 else Balance(h[..|h| - 1], id, account) + Weight(h[|h| - 1], id, account)
  }

  /** The call with this id that can still be answered: accepted, not cancelled, not answered. */
  datatype Status = NoCall | Call(flag: Flag, modern: bool)

  function StatusAfter(before: Status, e: Event, id: Id): Status {
    match e
    case Accepted(i, flag, modern) => if i == id then Call(flag, modern) else before
    case Cancelled(i) => if i == id then NoCall else before
    case Issued(ToolResult(i, _, _)) => if i == id then NoCall else before
    case _ => before
  }

  function CallOf(h: seq<Event>, id: Id): Status {
    if h == [] then NoCall else StatusAfter(CallOf(h[..|h| - 1], id), h[|h| - 1], id)
  }

  /** A result is sent for a call that was accepted, and neither cancelled nor answered since; it
      carries what the worker of this very call returned, in the form of the era of its request. */
  ghost predicate Follows(h: seq<Event>, e: Event) {
    match e
    case Accepted(id, _, _) => CallOf(h, id) == NoCall
    case Cancelled(id) => CallOf(h, id) != NoCall
    case Issued(ToolResult(id, text, modern)) =>
      CallOf(h, id).Call? && CallOf(h, id).modern == modern && Returned(CallOf(h, id).flag, text) in h
    case _ => true
  }

  ghost predicate Sequenced(h: seq<Event>) {
    h == [] || (Sequenced(h[..|h| - 1]) && Follows(h[..|h| - 1], h[|h| - 1]))
  }

  lemma Logged(h: seq<Event>, e: Event, id: Id, account: Account)
    ensures Balance(h + [e], id, account) == Balance(h, id, account) + Weight(e, id, account)
    ensures CallOf(h + [e], id) == StatusAfter(CallOf(h, id), e, id)
    ensures Sequenced(h + [e]) <==> Sequenced(h) && Follows(h, e)
  {
    var k := h + [e];
    assert k[..|k| - 1] == h && k[|k| - 1] == e;
  }

  /** Events that say nothing about calls. */
  predicate IsQuiet(e: Event) {
    match e
    case Accepted(_, _, _) => false
    case Cancelled(_) => false
    case Issued(out) => !out.ToolResult?
    case _ => true
  }

  lemma {:induction false} QuietLogged(h: seq<Event>, es: seq<Event>, id: Id)
    requires forall e | e in es :: IsQuiet(e)
    ensures CallOf(h + es, id) == CallOf(h, id)
    ensures Sequenced(h + es) <==> Sequenced(h)
    decreases |es|
  {
    hide Sequenced, CallOf, Balance;
    if es == [] {
      assert h + es == h;
    } else {
      var init, last := es[..|es| - 1], es[|es| - 1];
      assert h + es == (h + init) + [last];
      assert last in es && forall e | e in init :: e in es;
      QuietLogged(h, init, id);
      Logged(h + init, last, id, Requests);
    }
  }

  lemma {:induction false} BalanceAppend(h: seq<Event>, es: seq<Event>, id: Id, account: Account)
    ensures Balance(h + es, id, account) == Balance(h, id, account) + Balance(es, id, account)
    decreases |es|
  {
    if es == [] {
      assert h + es == h;
    } else {
      var init, last := es[..|es| - 1], es[|es| - 1];
      assert h + es == (h + init) + [last];
      BalanceAppend(h, init, id, account);
      Logged(h + init, last, id, account);
    }
  }

  /** The accounts a farewell settles. */
  predicate Farewelled(account: Account) {
    account == Requests || account == Subscriptions
  }

  lemma {:induction false} FarewellsBalance(ids: seq<Id>, id: Id, account: Account)
    requires NoDuplicates(ids)
    ensures Balance(Farewells(ids), id, account) == if id in ids && Farewelled(account) then -1 else 0
    ensures forall e | e in Farewells(ids) :: IsQuiet(e)
  {
    if ids != [] {
      var a, b := Issued(Completion(ids[0])), Issued(CancelledNote(ids[0]));
      RestOf(ids);
      hide NoDuplicates, Balance;
      FarewellsBalance(ids[1..], id, account);
      BalanceAppend([a, b], Farewells(ids[1..]), id, account);
      BalancePair(a, b, id, account);
    } else {
      assert Farewells(ids) == [];
    }
  }

  lemma BalancePair(a: Event, b: Event, id: Id, account: Account)
    ensures Balance([a, b], id, account) == Weight(a, id, account) + Weight(b, id, account)
  {
    hide Weight, CallOf, Sequenced;
    var none: seq<Event> := [];
    assert [a, b] == (none + [a]) + [b];
    Logged(none + [a], b, id, account);
    Logged(none, a, id, account);
    assert Balance(none, id, account) == 0;
    hide Balance;
  }

  // ------------------------------------------------------------ the invariant

  predicate Live(inFlight: map<Id, Flag>, cancelled: set<Flag>, id: Id) {
    id in inFlight && inFlight[id] !in cancelled
  }

  ghost predicate Listening(listens: seq<Id>, inFlight: map<Id, Flag>, closing: bool) {
    && NoDuplicates(listens)
    && (forall id | id in listens :: id !in inFlight)
    && (forall id | id in listens || id in inFlight :: IsId(id))
    && (closing ==> listens == [])
  }

  /** The modern calls are those in flight, not cancelled, whose own request was routed as modern. */
  ghost predicate ErasKept(tasks: map<Flag, Task>, inFlight: map<Id, Flag>, cancelled: set<Flag>,
                           eras: map<Flag, bool>, modernCalls: set<Id>)
  {
    && (forall f | f in tasks :: f in eras)
    && (forall id :: id in modernCalls <==>
          Live(inFlight, cancelled, id) && inFlight[id] in eras && eras[inFlight[id]])
  }

  ghost predicate PostedReturned(posted: seq<Done>, h: seq<Event>) {
    forall d | d in posted :: Returned(d.flag, d.text) in h
  }

  function Expected(inFlight: map<Id, Flag>, cancelled: set<Flag>, eras: map<Flag, bool>, id: Id): Status {
    if Live(inFlight, cancelled, id) && inFlight[id] in eras then Call(inFlight[id], eras[inFlight[id]]) else NoCall
  }

  /** Requests still open: a call that can be answered, a subscription, one being handled. */
  function Open(inFlight: map<Id, Flag>, cancelled: set<Flag>, listens: seq<Id>, handled: Option<Id>, id: Id,
                account: Account): int
  {
    match account
    case Requests =>
      (if Live(inFlight, cancelled, id) then 1 else 0) + (if id in listens then 1 else 0)
      + (if handled == Some(id) then 1 else 0)
    case Subscriptions => if id in listens then 1 else 0
    case Completions => 0
    case Rejections => 0
  }

  ghost predicate Story(h: seq<Event>, inFlight: map<Id, Flag>, cancelled: set<Flag>, eras: map<Flag, bool>,
                        listens: seq<Id>, handled: Option<Id>)
  {
    && (forall id, account :: Balance(h, id, account) == Open(inFlight, cancelled, listens, handled, id, account))
    && (forall id :: CallOf(h, id) == Expected(inFlight, cancelled, eras, id))
    && Sequenced(h)
  }

  /** Between steps nothing is being handled. */
  ghost predicate Inv(s: State, handled: Option<Id>) {
    var r := s.runner;
    && RunnerInv(r)
    && Listening(s.listens, r.inFlight, s.closing)
    && ErasKept(r.tasks, r.inFlight, r.cancelled, s.eras, s.modernCalls)
    && PostedReturned(r.posted, s.history)
    && Story(s.history, r.inFlight, r.cancelled, s.eras, s.listens, handled)
  }

  lemma InitialInv(writable: nat)
    ensures Inv(Initial(writable), None)
  {
    InitialRunner(writable);
    hide RunnerInv;
  }

  /** One more event: what is to be shown of each id. */
  lemma StoryGrows(h: seq<Event>, e: Event, inFlight: map<Id, Flag>, cancelled: set<Flag>, eras: map<Flag, bool>,
                   listens: seq<Id>, before: Option<Id>, inFlight': map<Id, Flag>, cancelled': set<Flag>,
                   eras': map<Flag, bool>, listens': seq<Id>, after: Option<Id>)
    requires Story(h, inFlight, cancelled, eras, listens, before) && Follows(h, e)
    requires forall id, account :: Open(inFlight', cancelled', listens', after, id, account) ==
                                   Open(inFlight, cancelled, listens, before, id, account) + Weight(e, id, account)
    requires forall id :: Expected(inFlight', cancelled', eras', id) ==
                          StatusAfter(Expected(inFlight, cancelled, eras, id), e, id)
    ensures Story(h + [e], inFlight', cancelled', eras', listens', after)
  {
    hide Balance, CallOf, Sequenced, Open, Expected, StatusAfter, Weight, Follows;
    forall id, account
      ensures Balance(h + [e], id, account) == Open(inFlight', cancelled', listens', after, id, account)
    {
      Logged(h, e, id, account);
    }
    forall id ensures CallOf(h + [e], id) == Expected(inFlight', cancelled', eras', id) {
      Logged(h, e, id, Requests);
    }
    Logged(h, e, Json.Null, Requests);
  }

  function Handling(handled: Option<Id>, id: Id, account: Account): int {
    if account == Requests && handled == Some(id) then 1 else 0
  }

  /** An event that concerns no call, and settles what is handled or not. */
  lemma LogKeeps(s: State, e: Event, before: Option<Id>, after: Option<Id>)
    requires Inv(s, before) && IsQuiet(e)
    requires forall id, account :: Weight(e, id, account) == Handling(after, id, account) - Handling(before, id, account)
    ensures Inv(Log(s, e), after)
  {
    hide RunnerInv, Listening, ErasKept, Story, Weight;
    var r := s.runner;
    StoryGrows(s.history, e, r.inFlight, r.cancelled, s.eras, s.listens, before,
               r.inFlight, r.cancelled, s.eras, s.listens, after);
  }

  // ------------------------------------------------------------ sending and shutting down

  lemma ShutKeeps(s: State, t: State, handled: Option<Id>)
    requires Inv(s, handled)
    requires t == s.(closing := true, listens := [], output := t.output,
                     history := s.history + Farewells(s.listens) + FinishedIf(s.runner))
    ensures Inv(t, handled)
  {
    hide RunnerInv, ErasKept, Story, Farewells, FinishedIf, PostedReturned;
    var r := s.runner;
    StoryEnds(s.history, r, s.eras, s.listens, handled);
    StillReturned(r.posted, s.history, Farewells(s.listens) + FinishedIf(r));
    assert t.history == s.history + (Farewells(s.listens) + FinishedIf(r));
  }

  lemma StillReturned(posted: seq<Done>, h: seq<Event>, es: seq<Event>)
    requires PostedReturned(posted, h)
    ensures PostedReturned(posted, h + es)
  {
  }

  lemma StoryEnds(h: seq<Event>, r: Runner, eras: map<Flag, bool>, listens: seq<Id>, handled: Option<Id>)
    requires Story(h, r.inFlight, r.cancelled, eras, listens, handled) && NoDuplicates(listens)
    ensures Story(h + (Farewells(listens) + FinishedIf(r)), r.inFlight, r.cancelled, eras, [], handled)
  {
    hide Sequenced, CallOf, Balance, Farewells, FinishedIf, NoDuplicates, Expected;
    var k := h + (Farewells(listens) + FinishedIf(r));
    forall id, account ensures Balance(k, id, account) == Open(r.inFlight, r.cancelled, [], handled, id, account) {
      HistoryEnds(h, r, listens, id, account);
    }
    forall id ensures CallOf(k, id) == Expected(r.inFlight, r.cancelled, eras, id) {
      HistoryEnds(h, r, listens, id, Requests);
    }
    HistoryEnds(h, r, listens, Json.Null, Requests);
  }

  lemma HistoryEnds(h: seq<Event>, r: Runner, listens: seq<Id>, id: Id, account: Account)
    requires NoDuplicates(listens)
    ensures var k := h + (Farewells(listens) + FinishedIf(r));
            && Balance(k, id, account) == Balance(h, id, account) - (if id in listens && Farewelled(account) then 1 else 0)
            && CallOf(k, id) == CallOf(h, id)
            && (Sequenced(k) <==> Sequenced(h))
  {
    var es := Farewells(listens) + FinishedIf(r);
    FarewellsBalance(listens, id, account);
    BalanceAppend(Farewells(listens), FinishedIf(r), id, account);
    BalanceAppend(h, es, id, account);
    FinishedWeighsNothing(r, id, account);
    hide Balance, CallOf, Sequenced;
    QuietLogged(h, es, id);
  }

  lemma FinishedWeighsNothing(r: Runner, id: Id, account: Account)
    ensures Balance(FinishedIf(r), id, account) == 0
  {
  }

  lemma {:induction false} ShutdownKeeps(s: State, handled: Option<Id>)
    requires Inv(s, handled)
    ensures Inv(Shutdown(s), handled)
  {
    hide Inv, Shutdown;
    ShutdownIs(s);
    if !s.closing { ShutKeeps(s, Shutdown(s), handled); }
  }

  lemma OutputAside(s: State, t: State, handled: Option<Id>)
    requires Inv(s, handled) && t == s.(output := t.output)
    ensures Inv(t, handled)
  {
    hide RunnerInv, Listening, ErasKept, Story, PostedReturned;
  }

  lemma {:induction false} SendKeeps(s: State, out: Out, handled: Option<Id>)
    requires Inv(Log(s, Issued(out)), handled)
    ensures Inv(Send(s, out), handled)
  {
    hide Inv, Send;
    SendIs(s, out);
    if s.closing || !Trips(s.output) {
      OutputAside(Log(s, Issued(out)), Send(s, out), handled);
    } else {
      ShutKeeps(Log(s, Issued(out)), Send(s, out), handled);
    }
  }

  /** A response settles the request being handled. */
  lemma Respond(s: State, out: Out, id: Id)
    requires Inv(s, Some(id)) && Answers(out) == Some(id) && (out.Result? || out.Error?)
    ensures Inv(Send(s, out), None)
  {
    hide Inv, Send;
    LogKeeps(s, Issued(out), Some(id), None);
    SendKeeps(s, out, None);
  }

  lemma {:induction false} Notify(s: State, out: Out, handled: Option<Id>)
    requires Inv(s, handled) && Answers(out) == None && !out.CancelledNote? && !out.Malformed?
    ensures Inv(Send(s, out), handled)
  {
    hide Inv, Send;
    LogKeeps(s, Issued(out), handled, handled);
    SendKeeps(s, out, handled);
  }

  lemma Drop(s: State, id: Id)
    requires Inv(s, Some(id))
    ensures Inv(Log(s, Dropped(id)), None)
  {
    hide Inv;
    LogKeeps(s, Dropped(id), Some(id), None);
  }

  // ------------------------------------------------------------ calls

  /** The next flag is nobody's, and not set. */
  lemma NewFlag(r: Runner)
    requires RunnerInv(r)
    ensures r.nextFlag !in r.tasks && r.nextFlag !in r.cancelled
    ensures forall id | id in r.inFlight :: r.inFlight[id] in r.tasks && r.inFlight[id] != r.nextFlag
  {
    hide PoolInv, Placed, SerialOrder, Distinct;
  }

  lemma OneFlagEach(r: Runner, id: Id)
    requires RunnerInv(r) && id in r.inFlight
    ensures forall i | i in r.inFlight && i != id :: r.inFlight[i] != r.inFlight[id]
    ensures forall i | i in r.inFlight :: r.inFlight[i] in r.tasks
  {
    hide PoolInv, Placed, SerialOrder, Distinct;
    assert r.tasks[r.inFlight[id]].id == id;
  }

  lemma {:induction false} AcceptKeeps(s: State, id: Id, serialized: bool, modern: bool)
    requires Inv(s, Some(id)) && id !in s.runner.inFlight && id !in s.listens && !s.closing && IsId(id)
    ensures Inv(Accept(s, id, serialized, modern), None)
  {
    hide RunnerInv, ErasKept, Story, NoDuplicates;
    var r, flag := s.runner, s.runner.nextFlag;
    SubmitKeeps(r, id, serialized);
    NewFlag(r);
    AcceptEras(r.tasks, r.inFlight, r.cancelled, s.eras, s.modernCalls, id, flag, Task(id, serialized), modern);
    AcceptStory(s.history, r.tasks, r.inFlight, r.cancelled, s.eras, s.modernCalls, s.listens, id, flag, modern);
  }

  lemma AcceptEras(tasks: map<Flag, Task>, inFlight: map<Id, Flag>, cancelled: set<Flag>, eras: map<Flag, bool>,
                   modernCalls: set<Id>, id: Id, flag: Flag, task: Task, modern: bool)
    requires ErasKept(tasks, inFlight, cancelled, eras, modernCalls)
    requires id !in inFlight && flag !in tasks && flag !in cancelled
    requires forall i | i in inFlight :: inFlight[i] in tasks && inFlight[i] != flag
    ensures ErasKept(tasks[flag := task], inFlight[id := flag], cancelled, eras[flag := modern],
                     if modern then modernCalls + {id} else modernCalls)
  {
  }

  lemma AcceptStory(h: seq<Event>, tasks: map<Flag, Task>, inFlight: map<Id, Flag>, cancelled: set<Flag>,
                    eras: map<Flag, bool>, modernCalls: set<Id>, listens: seq<Id>, id: Id, flag: Flag, modern: bool)
    requires ErasKept(tasks, inFlight, cancelled, eras, modernCalls)
    requires Story(h, inFlight, cancelled, eras, listens, Some(id))
    requires id !in inFlight && flag !in cancelled
    requires forall i | i in inFlight :: inFlight[i] in tasks && inFlight[i] != flag
    ensures Story(h + [Accepted(id, flag, modern)], inFlight[id := flag], cancelled, eras[flag := modern], listens, None)
  {
    hide Balance, Sequenced;
    StoryGrows(h, Accepted(id, flag, modern), inFlight, cancelled, eras, listens, Some(id),
               inFlight[id := flag], cancelled, eras[flag := modern], listens, None);
  }

  lemma {:induction false} CancelCallKeeps(s: State, id: Id)
    requires Inv(s, None) && id in s.runner.inFlight
    ensures Inv(Cancelling(s, id), None)
  {
    hide RunnerInv, Listening, ErasKept, Story;
    var r := s.runner;
    CancelKeeps(r, id);
    OneFlagEach(r, id);
    CancelEras(r.tasks, r.inFlight, r.cancelled, s.eras, s.modernCalls, id);
    CancelStory(s.history, r.tasks, r.inFlight, r.cancelled, s.eras, s.modernCalls, s.listens, id);
  }

  lemma CancelEras(tasks: map<Flag, Task>, inFlight: map<Id, Flag>, cancelled: set<Flag>, eras: map<Flag, bool>,
                   modernCalls: set<Id>, id: Id)
    requires ErasKept(tasks, inFlight, cancelled, eras, modernCalls) && id in inFlight
    requires forall i | i in inFlight && i != id :: inFlight[i] != inFlight[id]
    ensures ErasKept(tasks, inFlight, cancelled + {inFlight[id]}, eras, modernCalls - {id})
  {
  }

  lemma CancelStory(h: seq<Event>, tasks: map<Flag, Task>, inFlight: map<Id, Flag>, cancelled: set<Flag>,
                    eras: map<Flag, bool>, modernCalls: set<Id>, listens: seq<Id>, id: Id)
    requires ErasKept(tasks, inFlight, cancelled, eras, modernCalls)
    requires Story(h, inFlight, cancelled, eras, listens, None) && id in inFlight
    requires forall i | i in inFlight && i != id :: inFlight[i] != inFlight[id]
    requires forall i | i in inFlight :: inFlight[i] in tasks
    ensures Story(if inFlight[id] in cancelled then h else h + [Cancelled(id)],
                  inFlight, cancelled + {inFlight[id]}, eras, listens, None)
  {
    hide Balance, Sequenced;
    if inFlight[id] in cancelled {
      assert cancelled + {inFlight[id]} == cancelled;
    } else {
      var more := cancelled + {inFlight[id]};
      assert forall i :: Live(inFlight, more, i) <==> i != id && Live(inFlight, cancelled, i);
      assert Expected(inFlight, cancelled, eras, id).Call?;
      assert Follows(h, Cancelled(id));
      hide Story, ErasKept, CallOf, Live;
      StoryGrows(h, Cancelled(id), inFlight, cancelled, eras, listens, None, inFlight, more, eras, listens, None);
    }
  }

  // ------------------------------------------------------------ subscriptions

  lemma PlacingIs(ids: seq<Id>, id: Id, slot: nat)
    requires NoDuplicates(ids) && id !in ids
    ensures NoDuplicates(Placing(ids, id, slot))
    ensures forall i :: i in Placing(ids, id, slot) <==> i in ids || i == id
  {
    var at := if slot <= |ids| then slot else |ids|;
    var placed := Placing(ids, id, slot);
    assert ids == ids[..at] + ids[at..];
    assert forall k | 0 <= k < |placed| :: placed[k] == if k < at then ids[k] else if k == at then id else ids[k - 1];
    assert forall k | 0 <= k < |ids| :: ids[k] in ids;
  }

  lemma ListenKeeps(s: State, id: Id, slot: nat)
    requires Inv(s, Some(id)) && id !in s.runner.inFlight && id !in s.listens && !s.closing && IsId(id)
    ensures Inv(Log(s, Opened(id)).(listens := Placing(s.listens, id, slot)), None)
  {
    hide RunnerInv, ErasKept, Story, NoDuplicates, Placing, Listening;
    ListenTable(s.listens, s.runner.inFlight, id, slot);
    ListenStory(s.history, s.runner.inFlight, s.runner.cancelled, s.eras, s.listens, id, Placing(s.listens, id, slot));
  }

  lemma ListenTable(listens: seq<Id>, inFlight: map<Id, Flag>, id: Id, slot: nat)
    requires Listening(listens, inFlight, false) && id !in inFlight && id !in listens && IsId(id)
    ensures Listening(Placing(listens, id, slot), inFlight, false)
    ensures forall i :: i in Placing(listens, id, slot) <==> i in listens || i == id
  {
    hide NoDuplicates, Placing;
    PlacingIs(listens, id, slot);
  }

  lemma ListenStory(h: seq<Event>, inFlight: map<Id, Flag>, cancelled: set<Flag>, eras: map<Flag, bool>,
                    listens: seq<Id>, id: Id, more: seq<Id>)
    requires Story(h, inFlight, cancelled, eras, listens, Some(id)) && id !in listens
    requires forall i :: i in more <==> i in listens || i == id
    ensures Story(h + [Opened(id)], inFlight, cancelled, eras, more, None)
  {
    hide Balance, Sequenced, CallOf, Story, Expected, Live;
    StoryGrows(h, Opened(id), inFlight, cancelled, eras, listens, Some(id), inFlight, cancelled, eras, more, None);
  }

  /** The order of the subscriptions is nobody's business. */
  lemma RehashKeeps(s: State, ids: seq<Id>)
    requires Inv(s, None) && Reordered(ids, s.listens)
    ensures Inv(s.(listens := ids), None)
  {
    hide RunnerInv, ErasKept, Story, NoDuplicates;
    assert s.listens == [] ==> ids == [] by { if ids != [] { assert ids[0] in ids; } }
    RehashStory(s.history, s.runner.inFlight, s.runner.cancelled, s.eras, s.listens, ids);
  }

  lemma RehashStory(h: seq<Event>, inFlight: map<Id, Flag>, cancelled: set<Flag>, eras: map<Flag, bool>,
                    listens: seq<Id>, ids: seq<Id>)
    requires Story(h, inFlight, cancelled, eras, listens, None) && forall id :: id in ids <==> id in listens
    ensures Story(h, inFlight, cancelled, eras, ids, None)
  {
    hide Balance, Sequenced, CallOf, Expected, Live;
  }

  /** A malformed frame is answered at once. */
  lemma RejectKeeps(s: State, message: Json)
    requires Inv(s, None)
    ensures Inv(Reject(s, message), None)
  {
    var id := OrNull(Member(message, "id"));
    var named := if IsId(id) then id else Json.Null;
    RejectLogged(s, named);
    hide Inv, Send;
    SendKeeps(Log(s, Rejected(named)), Malformed(named), None);
  }

  lemma RejectLogged(s: State, id: Id)
    requires Inv(s, None)
    ensures Inv(Log(Log(s, Rejected(id)), Issued(Malformed(id))), None)
  {
    hide RunnerInv, Listening, ErasKept, Story;
    RejectStory(s.history, s.runner.inFlight, s.runner.cancelled, s.eras, s.listens, id);
  }

  lemma RejectStory(h: seq<Event>, inFlight: map<Id, Flag>, cancelled: set<Flag>, eras: map<Flag, bool>,
                    listens: seq<Id>, id: Id)
    requires Story(h, inFlight, cancelled, eras, listens, None)
    ensures Story(h + [Rejected(id)] + [Issued(Malformed(id))], inFlight, cancelled, eras, listens, None)
  {
    var a, b := Rejected(id), Issued(Malformed(id));
    var k := h + [a] + [b];
    assert forall i, account :: Weight(a, i, account) + Weight(b, i, account) == 0;
    assert forall i, before :: StatusAfter(StatusAfter(before, a, i), b, i) == before;
    assert Follows(h, a) && Follows(h + [a], b);
    hide Balance, CallOf, Sequenced, Weight, StatusAfter, Follows, Open, Expected;
    forall i, account ensures Balance(k, i, account) == Balance(h, i, account) {
      Logged(h, a, i, account);
      Logged(h + [a], b, i, account);
    }
    forall i ensures CallOf(k, i) == CallOf(h, i) {
      Logged(h, a, i, Requests);
      Logged(h + [a], b, i, Requests);
    }
    Logged(h, a, id, Requests);
    Logged(h + [a], b, id, Requests);
  }

  lemma RestOf(ids: seq<Id>)
    requires NoDuplicates(ids) && ids != []
    ensures NoDuplicates(ids[1..])
    ensures forall i :: i in ids <==> i == ids[0] || i in ids[1..]
    ensures ids[0] !in ids[1..]
  {
    assert ids == [ids[0]] + ids[1..];
    assert forall i | 0 <= i < |ids[1..]| :: ids[1..][i] == ids[i + 1];
  }

  lemma ConsDistinct(id: Id, ids: seq<Id>)
    requires NoDuplicates(ids) && id !in ids
    ensures NoDuplicates([id] + ids)
  {
    assert forall i | 0 <= i < |ids| :: ([id] + ids)[i + 1] == ids[i];
  }

  lemma {:induction false} RemoveIs(ids: seq<Id>, id: Id)
    requires NoDuplicates(ids)
    ensures NoDuplicates(Remove(ids, id))
    ensures forall i :: i in Remove(ids, id) <==> i in ids && i != id
  {
    if ids != [] {
      RestOf(ids);
      hide NoDuplicates;
      RemoveIs(ids[1..], id);
      if ids[0] != id {
        ConsDistinct(ids[0], Remove(ids[1..], id));
      }
    }
  }

  lemma UnlistenKeeps(s: State, id: Id)
    requires Inv(s, None) && id in s.listens
    ensures Inv(Log(s, Unlistened(id)).(listens := Remove(s.listens, id)), None)
  {
    hide RunnerInv, ErasKept, Story, Remove, Listening;
    UnlistenTable(s.listens, s.runner.inFlight, s.closing, id);
    UnlistenStory(s.history, s.runner.inFlight, s.runner.cancelled, s.eras, s.listens, id);
  }

  lemma UnlistenTable(listens: seq<Id>, inFlight: map<Id, Flag>, closing: bool, id: Id)
    requires Listening(listens, inFlight, closing) && id in listens
    ensures Listening(Remove(listens, id), inFlight, closing) && NoDuplicates(listens)
  {
    hide NoDuplicates, Remove;
    RemoveIs(listens, id);
    assert forall i | i in Remove(listens, id) :: i in listens;
  }

  lemma UnlistenStory(h: seq<Event>, inFlight: map<Id, Flag>, cancelled: set<Flag>, eras: map<Flag, bool>,
                      listens: seq<Id>, id: Id)
    requires Story(h, inFlight, cancelled, eras, listens, None) && NoDuplicates(listens) && id in listens
    ensures Story(h + [Unlistened(id)], inFlight, cancelled, eras, Remove(listens, id), None)
  {
    hide Balance, Sequenced, CallOf, Story, Expected, Live, Remove, NoDuplicates;
    var rest := Remove(listens, id);
    RemoveIs(listens, id);
    forall i, account
      ensures Open(inFlight, cancelled, rest, None, i, account) ==
              Open(inFlight, cancelled, listens, None, i, account) + Weight(Unlistened(id), i, account)
    {
      assert i in rest <==> i in listens && i != id;
    }
    hide Open, Weight;
    StoryGrows(h, Unlistened(id), inFlight, cancelled, eras, listens, None, inFlight, cancelled, eras, rest, None);
  }

  // ------------------------------------------------------------ the end of a call

  lemma StartInv(s: State, serialized: bool)
    requires Inv(s, None) && CanStart(s.runner, serialized)
    ensures Inv(s.(runner := Start(s.runner, serialized)), None)
  {
    hide RunnerInv, Listening, ErasKept, Story, PostedReturned, CanStart;
    StartKeeps(s.runner, serialized);
  }

  lemma LoadInv(s: State, serialized: bool, flag: Flag)
    requires Inv(s, None) && flag in PoolOf(s.runner, serialized).started
    ensures Inv(s.(runner := Load(s.runner, serialized, flag)), None)
  {
    hide RunnerInv, Listening, ErasKept, Story, PostedReturned;
    LoadKeeps(s.runner, serialized, flag);
  }

  lemma ReturnInv(s: State, serialized: bool, flag: Flag, text: string)
    requires Inv(s, None) && flag in PoolOf(s.runner, serialized).calling
    ensures var e := Returned(flag, Outcome(s.runner, flag, text));
            Inv(Log(s, e).(runner := Return(s.runner, serialized, flag, text)), None)
  {
    hide Inv;
    var e := Returned(flag, Outcome(s.runner, flag, text));
    LogKeeps(s, e, None, None);
    ReturnLogged(Log(s, e), serialized, flag, text);
  }

  lemma ReturnLogged(s: State, serialized: bool, flag: Flag, text: string)
    requires Inv(s, None) && flag in PoolOf(s.runner, serialized).calling
    requires Returned(flag, Outcome(s.runner, flag, text)) in s.history
    ensures Inv(s.(runner := Return(s.runner, serialized, flag, text)), None)
  {
    hide RunnerInv, Listening, ErasKept, Story;
    ReturnKeeps(s.runner, serialized, flag, text);
  }

  /** finish() takes the flag its own worker captured. */
  lemma OwnFlagTaken(s: State)
    requires Inv(s, None) && s.runner.posted != []
    ensures s.runner.posted[0].flag in s.runner.tasks
    ensures var r := s.runner;
            NextId(r) in r.inFlight && r.inFlight[NextId(r)] == r.posted[0].flag
  {
    hide Listening, ErasKept, Story, PoolInv, Flags, SerialOrder, Distinct;
    PostedAreTasks(s.runner);
    assert s.runner.posted[0] in s.runner.posted;
  }

  lemma {:induction false} FinishKeeps(s: State)
    requires Inv(s, None) && Enabled(s, FinishNext)
    ensures Inv(Finish(s), None)
  {
    hide Inv, Send;
    OwnFlagTaken(s);
    var r, id := s.runner, NextId(s.runner);
    var taken := s.(runner := Take(r));
    var sent := taken;
    if r.inFlight[id] in r.cancelled {
      TakeCancelled(s);
    } else {
      var out := ToolResult(id, r.posted[0].text, id in s.modernCalls);
      TakeLive(s);
      SendKeeps(taken.(modernCalls := s.modernCalls - {id}), out, None);
      sent := SendToolResult(taken, id, r.posted[0].text);
    }
    if sent.runner.inFlight == map[] && sent.closing {
      LogKeeps(sent, Finished(sent.runner.inFlight.Keys), None, None);
    }
  }

  lemma TakeCancelled(s: State)
    requires Inv(s, None) && Enabled(s, FinishNext)
    requires NextId(s.runner) in s.runner.inFlight && s.runner.inFlight[NextId(s.runner)] in s.runner.cancelled
    ensures Inv(s.(runner := Take(s.runner)), None)
  {
    hide RunnerInv, ErasKept, Story, Listening, PostedReturned;
    var r := s.runner;
    TakeKeeps(r);
    LeaveTables(s.listens, r.inFlight, s.closing, r.posted, s.history, NextId(r));
    LeaveEras(r.tasks, r.inFlight, r.cancelled, s.eras, s.modernCalls, NextId(r), r.posted[0].flag);
    LeaveStory(s.history, r.inFlight, r.cancelled, s.eras, s.listens, NextId(r));
  }

  lemma LeaveTables(listens: seq<Id>, inFlight: map<Id, Flag>, closing: bool, posted: seq<Done>, h: seq<Event>, id: Id)
    requires Listening(listens, inFlight, closing) && PostedReturned(posted, h) && posted != []
    ensures Listening(listens, inFlight - {id}, closing) && PostedReturned(posted[1..], h)
    ensures Returned(posted[0].flag, posted[0].text) in h
  {
    hide NoDuplicates;
    assert posted[0] in posted && forall d | d in posted[1..] :: d in posted;
  }

  lemma LeaveEras(tasks: map<Flag, Task>, inFlight: map<Id, Flag>, cancelled: set<Flag>, eras: map<Flag, bool>,
                  modernCalls: set<Id>, id: Id, flag: Flag)
    requires ErasKept(tasks, inFlight, cancelled, eras, modernCalls)
    ensures ErasKept(tasks - {flag}, inFlight - {id}, cancelled, eras, modernCalls - {id})
    ensures !Live(inFlight, cancelled, id) ==> modernCalls - {id} == modernCalls
  {
  }

  lemma LeaveStory(h: seq<Event>, inFlight: map<Id, Flag>, cancelled: set<Flag>, eras: map<Flag, bool>,
                   listens: seq<Id>, id: Id)
    requires Story(h, inFlight, cancelled, eras, listens, None) && !Live(inFlight, cancelled, id)
    ensures Story(h, inFlight - {id}, cancelled, eras, listens, None)
  {
    hide Balance, CallOf, Sequenced;
    assert forall i :: Live(inFlight - {id}, cancelled, i) <==> Live(inFlight, cancelled, i);
  }

  lemma TakeLive(s: State)
    requires Inv(s, None) && Enabled(s, FinishNext)
    requires NextId(s.runner) in s.runner.inFlight && s.runner.inFlight[NextId(s.runner)] == s.runner.posted[0].flag
    requires s.runner.posted[0].flag !in s.runner.cancelled
    ensures var id := NextId(s.runner);
            var out := ToolResult(id, s.runner.posted[0].text, id in s.modernCalls);
            Inv(Log(s.(runner := Take(s.runner), modernCalls := s.modernCalls - {id}), Issued(out)), None)
  {
    var r, id := s.runner, NextId(s.runner);
    hide RunnerInv, ErasKept, Story, Listening, PostedReturned;
    var out := ToolResult(id, r.posted[0].text, id in s.modernCalls);
    TakeKeeps(r);
    LeaveTables(s.listens, r.inFlight, s.closing, r.posted, s.history, id);
    StillReturned(r.posted[1..], s.history, [Issued(out)]);
    LeaveEras(r.tasks, r.inFlight, r.cancelled, s.eras, s.modernCalls, id, r.posted[0].flag);
    EraOf(r.tasks, r.inFlight, r.cancelled, s.eras, s.modernCalls, id, r.posted[0].flag);
    AnswerStory(s.history, r.inFlight, r.cancelled, s.eras, s.listens, id, out);
  }

  lemma EraOf(tasks: map<Flag, Task>, inFlight: map<Id, Flag>, cancelled: set<Flag>, eras: map<Flag, bool>,
              modernCalls: set<Id>, id: Id, flag: Flag)
    requires ErasKept(tasks, inFlight, cancelled, eras, modernCalls)
    requires Live(inFlight, cancelled, id) && inFlight[id] == flag && flag in tasks
    ensures Expected(inFlight, cancelled, eras, id) == Call(flag, id in modernCalls)
  {
  }

  lemma AnswerStory(h: seq<Event>, inFlight: map<Id, Flag>, cancelled: set<Flag>, eras: map<Flag, bool>,
                    listens: seq<Id>, id: Id, out: Out)
    requires Story(h, inFlight, cancelled, eras, listens, None) && Live(inFlight, cancelled, id)
    requires out.ToolResult? && out.id == id && Returned(inFlight[id], out.text) in h
    requires Expected(inFlight, cancelled, eras, id) == Call(inFlight[id], out.modern)
    ensures Story(h + [Issued(out)], inFlight - {id}, cancelled, eras, listens, None)
  {
    hide Balance, Sequenced;
    assert forall i :: Live(inFlight - {id}, cancelled, i) <==> i != id && Live(inFlight, cancelled, i);
    StoryGrows(h, Issued(out), inFlight, cancelled, eras, listens, None, inFlight - {id}, cancelled, eras, listens, None);
  }

  // ------------------------------------------------------------ every step, every run

  lemma {:induction false} RequestKeeps(s: State, c: Config, id: Id, name: string, params: Json, slot: nat)
    requires Inv(s, None) && IsId(id)
    ensures Inv(HandleRequest(s, c, id, name, params, slot), None)
  {
    hide Inv, Send, HandleToolsCall, HandleListen, Member;
    var received := Log(s, Received(id));
    LogKeeps(s, Received(id), None, Some(id));
    if id in s.runner.inFlight || id in s.listens {
      Drop(received, id);
    } else if IsModernRequest(name, params) {
      ModernKeeps(received, c, id, name, params, slot);
    } else {
      LegacyKeeps(received, c, id, name, params);
    }
  }

  lemma ToolsCallKeeps(s: State, c: Config, id: Id, params: Json, modern: bool)
    requires Inv(s, Some(id)) && id !in s.runner.inFlight && id !in s.listens && IsId(id)
    ensures Inv(HandleToolsCall(s, c, id, params, modern), None)
  {
    hide Inv, Send, Member, Accept;
    var name := OrNull(Member(params, "name"));
    if s.closing {
      Drop(s, id);
    } else {
      Respond(s, Error(id, InvalidParams), id);
      if name.String? { AcceptKeeps(s, id, name.text in c.serialized, modern); }
    }
  }

  lemma ListenRequestKeeps(s: State, id: Id, slot: nat)
    requires Inv(s, Some(id)) && id !in s.runner.inFlight && id !in s.listens && IsId(id)
    ensures Inv(HandleListen(s, id, slot), None)
  {
    hide Inv, Send;
    if s.closing {
      Drop(s, id);
    } else {
      ListenKeeps(s, id, slot);
      Notify(Log(s, Opened(id)).(listens := Placing(s.listens, id, slot)), Acknowledged(id), None);
    }
  }

  lemma RespondAny(s: State, id: Id)
    requires Inv(s, Some(id))
    ensures forall payload :: Inv(Send(s, Result(id, payload)), None)
    ensures forall error :: Inv(Send(s, Error(id, error)), None)
  {
    hide Inv, Send;
    forall payload ensures Inv(Send(s, Result(id, payload)), None) { Respond(s, Result(id, payload), id); }
    forall error ensures Inv(Send(s, Error(id, error)), None) { Respond(s, Error(id, error), id); }
  }

  lemma ModernKeeps(s: State, c: Config, id: Id, name: string, params: Json, slot: nat)
    requires Inv(s, Some(id)) && id !in s.runner.inFlight && id !in s.listens && IsId(id)
    ensures Inv(HandleModernRequest(s, c, id, name, params, slot), None)
  {
    hide Inv, Send, HandleToolsCall, HandleListen, Member, MODERN_VERSIONS;
    RespondAny(s, id);
    ToolsCallKeeps(s, c, id, params, true);
    ListenRequestKeeps(s, id, slot);
  }

  lemma LegacyKeeps(s: State, c: Config, id: Id, name: string, params: Json)
    requires Inv(s, Some(id)) && id !in s.runner.inFlight && id !in s.listens && IsId(id)
    ensures Inv(HandleLegacyRequest(s, c, id, name, params), None)
  {
    hide Inv, Send, HandleToolsCall;
    RespondAny(s, id);
    ToolsCallKeeps(s, c, id, params, false);
  }

  lemma NotificationKeeps(s: State, name: string, params: Json)
    requires Inv(s, None)
    ensures Inv(HandleNotification(s, name, params), None)
  {
    hide Inv, Member, Cancelling, Remove;
    var id := OrNull(Member(params, "requestId"));
    if id in s.listens { UnlistenKeeps(s, id); }
    if id in s.runner.inFlight { CancelCallKeeps(s, id); }
  }

  lemma MessageKeeps(s: State, c: Config, message: Json, slot: nat)
    requires Inv(s, None)
    ensures Inv(OnMessage(s, c, message, slot), None)
  {
    hide Inv, Reject, Member, HandleRequest, HandleNotification;
    var params := OrNull(Member(message, "params"));
    RejectKeeps(s, message);
    if !IsMalformed(message) {
      var name := Member(message, "method").value.text;
      match Member(message, "id")
      case None => NotificationKeeps(s, name, params);
      case Some(id) => RequestKeeps(s, c, id, name, params, slot);
    }
  }

  lemma {:induction false} StepKeeps(s: State, c: Config, i: Input)
    requires Inv(s, None) && Enabled(s, i)
    ensures Inv(Step(s, c, i), None)
  {
    hide Inv, Send, Shutdown, OnMessage, Finish, Start, Load, Return, PoolOf, CanStart, Reordered;
    match i
    case Frame(message, slot) => MessageKeeps(s, c, message, slot);
    case BadFrame(code) => Notify(s, InvalidFrame(code), None);
    case EndOfInput => ShutdownKeeps(s, None);
    case FinishNext => FinishKeeps(s);
    case Rehash(ids) => RehashKeeps(s, ids);
    case StartNext(serialized) => StartInv(s, serialized);
    case LoadFlag(serialized, flag) => LoadInv(s, serialized, flag);
    case ReturnResult(serialized, flag, text) => ReturnInv(s, serialized, flag, text);
  }

  /** Every interleaving of the main thread and the workers keeps the invariant. */
  lemma {:induction false} RunKeeps(writable: nat, c: Config, inputs: seq<Input>)
    ensures Inv(Run(Initial(writable), c, inputs), None)
  {
    hide Inv, Step, Enabled;
    if inputs == [] {
      InitialInv(writable);
    } else {
      var before := Run(Initial(writable), c, inputs[..|inputs| - 1]);
      RunKeeps(writable, c, inputs[..|inputs| - 1]);
      if Enabled(before, inputs[|inputs| - 1]) { StepKeeps(before, c, inputs[|inputs| - 1]); }
    }
  }
}
