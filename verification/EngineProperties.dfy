/** The laws of the engine, over every interleaving. */
module EngineProperties {
  import opened Wrappers
  import opened Engine
  import opened RunnerInvariant
  import opened EngineInvariant

  // ------------------------------------------------------------ conservation

  datatype Kind =
    | WasReceived | WasAnswered | WasDropped | WasCancelled | WasUnlistened
    | WasOpened | WasCompleted | WasNoted | WasRejected | WasRefused

  predicate Is(e: Event, id: Id, kind: Kind) {
    match kind
    case WasReceived => e == Received(id)
    case WasAnswered => e.Issued? && Answers(e.out) == Some(id)
    case WasDropped => e == Dropped(id)
    case WasCancelled => e == Cancelled(id)
    case WasUnlistened => e == Unlistened(id)
    case WasOpened => e == Opened(id)
    case WasCompleted => e == Issued(Completion(id))
    case WasNoted => e == Issued(CancelledNote(id))
    case WasRejected => e == Rejected(id)
    case WasRefused => e == Issued(Malformed(id))
  }

  function Count(e: Event, id: Id, kind: Kind): nat {
    if Is(e, id, kind) then 1 else 0
  }

  function Times(h: seq<Event>, id: Id, kind: Kind): nat {
    if h == [] then 0 else Times(h[..|h| - 1], id, kind) + Count(h[|h| - 1], id, kind)
  }

  lemma EventCounts(e: Event, id: Id)
    ensures RequestWeight(e, id) ==
            Count(e, id, WasReceived) - Count(e, id, WasAnswered) - Count(e, id, WasDropped)
            - Count(e, id, WasCancelled) - Count(e, id, WasUnlistened)
    ensures SubscriptionWeight(e, id) ==
            Count(e, id, WasOpened) - Count(e, id, WasUnlistened) - Count(e, id, WasCompleted)
    ensures CompletionWeight(e, id) == Count(e, id, WasCompleted) - Count(e, id, WasNoted)
    ensures RejectionWeight(e, id) == Count(e, id, WasRejected) - Count(e, id, WasRefused)
  {
  }

  lemma {:induction false} BalanceCounts(h: seq<Event>, id: Id)
    ensures Balance(h, id, Requests) ==
            Times(h, id, WasReceived) - Times(h, id, WasAnswered) - Times(h, id, WasDropped)
            - Times(h, id, WasCancelled) - Times(h, id, WasUnlistened)
    ensures Balance(h, id, Subscriptions) ==
            Times(h, id, WasOpened) - Times(h, id, WasUnlistened) - Times(h, id, WasCompleted)
    ensures Balance(h, id, Completions) == Times(h, id, WasCompleted) - Times(h, id, WasNoted)
    ensures Balance(h, id, Rejections) == Times(h, id, WasRejected) - Times(h, id, WasRefused)
  {
    hide Count, RequestWeight, SubscriptionWeight, CompletionWeight, RejectionWeight;
    if h != [] {
      var last := h[|h| - 1];
      BalanceCounts(h[..|h| - 1], id);
      EventCounts(last, id);
      assert Weight(last, id, Requests) == RequestWeight(last, id);
      assert Weight(last, id, Subscriptions) == SubscriptionWeight(last, id);
      assert Weight(last, id, Completions) == CompletionWeight(last, id);
      assert Weight(last, id, Rejections) == RejectionWeight(last, id);
      hide Weight;
    }
  }

  /** Every well-formed request is accounted for, in every interleaving: answered, silently dropped
      (its id was in use, or the server was closing), cancelled, closed by the client, or still open
      as a call that can be answered or a subscription, never both. Every frame that is no request
      but carries the id is answered with it too, once, and does not enter that account. */
  lemma {:induction false} RequestsConserved(writable: nat, c: Config, inputs: seq<Input>, id: Id)
    ensures var s := Run(Initial(writable), c, inputs);
            var h := s.history;
            && Times(h, id, WasReceived) ==
               Times(h, id, WasAnswered) + Times(h, id, WasDropped) + Times(h, id, WasCancelled)
               + Times(h, id, WasUnlistened)
               + (if Live(s.runner.inFlight, s.runner.cancelled, id) then 1 else 0) + (if id in s.listens then 1 else 0)
            && !(id in s.runner.inFlight && id in s.listens)
            && Times(h, id, WasRejected) == Times(h, id, WasRefused)
  {
    var s := Run(Initial(writable), c, inputs);
    RunKeeps(writable, c, inputs);
    BalanceCounts(s.history, id);
    hide Run, RunnerInv, ErasKept, Balance, CallOf, Sequenced, NoDuplicates, Times;
    var r := s.runner;
    assert Balance(s.history, id, Requests) == Open(r.inFlight, r.cancelled, s.listens, None, id, Requests);
    assert Balance(s.history, id, Rejections) == Open(r.inFlight, r.cancelled, s.listens, None, id, Rejections);
  }

  /** Every subscription opened is closed by the client, or completed once by the server, and each
      completion has been followed by its cancellation; once closing none is left open. */
  lemma {:induction false} SubscriptionsConserved(writable: nat, c: Config, inputs: seq<Input>, id: Id)
    ensures var s := Run(Initial(writable), c, inputs);
            var h := s.history;
            && Times(h, id, WasOpened) ==
               Times(h, id, WasUnlistened) + Times(h, id, WasCompleted) + (if id in s.listens then 1 else 0)
            && Times(h, id, WasNoted) == Times(h, id, WasCompleted)
            && (s.closing ==> s.listens == [])
  {
    var s := Run(Initial(writable), c, inputs);
    RunKeeps(writable, c, inputs);
    BalanceCounts(s.history, id);
    hide Run, RunnerInv, ErasKept, Balance, CallOf, Sequenced, NoDuplicates, Times;
    var r := s.runner;
    assert Balance(s.history, id, Subscriptions) == Open(r.inFlight, r.cancelled, s.listens, None, id, Subscriptions);
    assert Balance(s.history, id, Completions) == Open(r.inFlight, r.cancelled, s.listens, None, id, Completions);
  }

  /** The era table holds exactly the modern calls that can still be answered. */
  lemma {:induction false} ModernCallsExact(writable: nat, c: Config, inputs: seq<Input>, id: Id)
    ensures var s := Run(Initial(writable), c, inputs);
            var r := s.runner;
            && (forall f | f in r.tasks :: f in s.eras)
            && (forall i | i in r.inFlight :: r.inFlight[i] in r.tasks)
            && (id in s.modernCalls <==>
                 Live(r.inFlight, r.cancelled, id) && r.inFlight[id] in s.eras && s.eras[r.inFlight[id]])
  {
    RunKeeps(writable, c, inputs);
    var s := Run(Initial(writable), c, inputs);
    hide Run, Story, PoolInv, Placed, SerialOrder, Distinct, Listening, PostedReturned;
  }

  // ------------------------------------------------------------ results and cancellation

  lemma {:induction false} PrefixSequenced(h: seq<Event>, n: nat)
    requires Sequenced(h) && n <= |h|
    ensures Sequenced(h[..n])
    ensures n < |h| ==> Follows(h[..n], h[n])
    decreases |h|
  {
    hide Follows;
    if n == |h| {
      assert h[..n] == h;
    } else {
      var init := h[..|h| - 1];
      if n < |init| {
        PrefixSequenced(init, n);
        assert init[..n] == h[..n] && init[n] == h[n];
      }
    }
  }

  predicate Concerns(e: Event, id: Id) {
    (e.Accepted? && e.id == id) || e == Cancelled(id) || (e.Issued? && e.out.ToolResult? && e.out.id == id)
  }

  lemma {:induction false} LastAccepted(h: seq<Event>, id: Id) returns (k: nat)
    requires CallOf(h, id).Call?
    ensures k < |h| && h[k] == Accepted(id, CallOf(h, id).flag, CallOf(h, id).modern)
    ensures forall m | k < m < |h| :: !Concerns(h[m], id)
    decreases |h|
  {
    var last := h[|h| - 1];
    if last.Accepted? && last.id == id {
      k := |h| - 1;
    } else {
      k := LastAccepted(h[..|h| - 1], id);
    }
  }

  /** A result in the history belongs to a call accepted before, with nothing about its id in
      between: no cancellation, no other result, no other call. It carries what the worker of that
      call returned, marked with the era of that call's request. */
  lemma {:induction false} ResultsFollowCalls(writable: nat, c: Config, inputs: seq<Input>, j: nat) returns (k: nat)
    requires var h := Run(Initial(writable), c, inputs).history;
             j < |h| && h[j].Issued? && h[j].out.ToolResult?
    ensures var h := Run(Initial(writable), c, inputs).history;
            var out := h[j].out;
            && k < j && h[k].Accepted? && h[k].id == out.id && h[k].modern == out.modern
            && (forall m | k < m < j :: !Concerns(h[m], out.id))
            && Returned(h[k].flag, out.text) in h[..j]
  {
    RunKeeps(writable, c, inputs);
    var h := Run(Initial(writable), c, inputs).history;
    hide Run, RunnerInv, Listening, ErasKept, PostedReturned, CallOf, Balance;
    PrefixSequenced(h, j);
    hide Sequenced;
    k := LastAccepted(h[..j], h[j].out.id);
  }

  lemma NextConcern(h: seq<Event>, id: Id, from: nat) returns (j: nat)
    requires from <= |h|
    ensures from <= j <= |h| && (j < |h| ==> Concerns(h[j], id))
    ensures forall m | from <= m < j :: !Concerns(h[m], id)
    decreases |h| - from
  {
    if from == |h| || Concerns(h[from], id) {
      j := from;
    } else {
      j := NextConcern(h, id, from + 1);
    }
  }

  /** Nothing about the id, nothing changed about its call. */
  lemma {:induction false} CallOfSteady(h: seq<Event>, id: Id, from: nat, until: nat)
    requires from <= until <= |h| && forall m | from <= m < until :: !Concerns(h[m], id)
    ensures CallOf(h[..until], id) == CallOf(h[..from], id)
    decreases until
  {
    hide CallOf, Sequenced, Balance;
    if from < until {
      CallOfSteady(h, id, from, until - 1);
      assert h[..until] == h[..until - 1] + [h[until - 1]];
      Logged(h[..until - 1], h[until - 1], id, Requests);
      assert !Concerns(h[until - 1], id);
    }
  }

  lemma CallAfter(h: seq<Event>, k: nat, id: Id)
    requires k < |h|
    ensures CallOf(h[..k + 1], id) == StatusAfter(CallOf(h[..k], id), h[k], id)
  {
    hide CallOf, Sequenced, Balance, StatusAfter;
    assert h[..k + 1] == h[..k] + [h[k]];
    Logged(h[..k], h[k], id, Requests);
  }

  /** Every accepted call that is no longer with the runner has ended, and once: the first event
      about its id is its cancellation or its result, which carries what the worker of this call
      returned in the form of the call's own era; the next one, if any, is another call. */
  lemma {:induction false} EachCallEnds(writable: nat, c: Config, inputs: seq<Input>, k: nat) returns (j: nat)
    requires var s := Run(Initial(writable), c, inputs);
             k < |s.history| && s.history[k].Accepted? && s.history[k].flag !in s.runner.tasks
    ensures var h := Run(Initial(writable), c, inputs).history;
            var id := h[k].id;
            && k < j < |h| && (forall m | k < m < j :: !Concerns(h[m], id))
            && (|| h[j] == Cancelled(id)
                || (&& h[j].Issued? && h[j].out.ToolResult? && h[j].out.id == id && h[j].out.modern == h[k].modern
                    && Returned(h[k].flag, h[j].out.text) in h[..j]))
            && forall m | j < m < |h| && Concerns(h[m], id) :: exists n | j < n <= m :: h[n].Accepted? && h[n].id == id
  {
    RunKeeps(writable, c, inputs);
    var s := Run(Initial(writable), c, inputs);
    hide Run;
    j := EndsInHistory(s, k);
    forall m | j < m < |s.history| && Concerns(s.history[m], s.history[k].id)
      ensures exists n | j < n <= m :: s.history[n].Accepted? && s.history[n].id == s.history[k].id
    {
      var n := NextIsAnotherCall(s.history, s.history[k].id, j, m);
    }
  }

  lemma EndsInHistory(s: State, k: nat) returns (j: nat)
    requires Inv(s, None)
    requires k < |s.history| && s.history[k].Accepted? && s.history[k].flag !in s.runner.tasks
    ensures var h := s.history;
            var id := h[k].id;
            && Sequenced(h) && k < j < |h| && (forall m | k < m < j :: !Concerns(h[m], id))
            && (|| h[j] == Cancelled(id)
                || (&& h[j].Issued? && h[j].out.ToolResult? && h[j].out.id == id && h[j].out.modern == h[k].modern
                    && Returned(h[k].flag, h[j].out.text) in h[..j]))
  {
    var h, id := s.history, s.history[k].id;
    j := NextConcern(h, id, k + 1);
    CallAfter(h, k, id);
    CallOfSteady(h, id, k + 1, j);
    assert CallOf(h[..j], id) == Call(h[k].flag, h[k].modern);
    if j == |h| {
      assert h[..j] == h;
      CallStillThere(s, id);
    } else {
      PrefixSequenced(h, j);
    }
  }

  lemma CallStillThere(s: State, id: Id)
    requires Inv(s, None) && CallOf(s.history, id).Call?
    ensures CallOf(s.history, id).flag in s.runner.tasks
  {
    hide Balance, CallOf, Sequenced, Listening, PostedReturned, PoolInv, Placed, SerialOrder, Distinct;
    var r := s.runner;
    assert Expected(r.inFlight, r.cancelled, s.eras, id) == CallOf(s.history, id);
    assert r.inFlight[id] in r.tasks;
  }

  lemma NextIsAnotherCall(h: seq<Event>, id: Id, j: nat, m: nat) returns (n: nat)
    requires Sequenced(h) && j < m < |h| && Concerns(h[m], id) && Concerns(h[j], id) && !h[j].Accepted?
    ensures j < n <= m && h[n].Accepted? && h[n].id == id
  {
    n := NextConcern(h, id, j + 1);
    CallAfter(h, j, id);
    CallOfSteady(h, id, j + 1, n);
    PrefixSequenced(h, n);
    assert CallOf(h[..n], id) == NoCall;
  }

  /** After a cancellation no result is sent for the id until another request with it is accepted. */
  lemma {:induction false} CancelledNotAnswered(writable: nat, c: Config, inputs: seq<Input>, i: nat, j: nat)
    returns (k: nat)
    requires var h := Run(Initial(writable), c, inputs).history;
             i < j < |h| && h[j].Issued? && h[j].out.ToolResult? && h[i] == Cancelled(h[j].out.id)
    ensures var h := Run(Initial(writable), c, inputs).history;
            i < k < j && h[k].Accepted? && h[k].id == h[j].out.id
  {
    hide Run;
    k := ResultsFollowCalls(writable, c, inputs, j);
    var h := Run(Initial(writable), c, inputs).history;
    assert Concerns(h[i], h[j].out.id);
  }

  /** So is a second result. */
  lemma {:induction false} OneResultPerCall(writable: nat, c: Config, inputs: seq<Input>, i: nat, j: nat)
    returns (k: nat)
    requires var h := Run(Initial(writable), c, inputs).history;
             && i < j < |h| && h[j].Issued? && h[j].out.ToolResult?
             && h[i].Issued? && h[i].out.ToolResult? && h[i].out.id == h[j].out.id
    ensures var h := Run(Initial(writable), c, inputs).history;
            i < k < j && h[k].Accepted? && h[k].id == h[j].out.id
  {
    hide Run;
    k := ResultsFollowCalls(writable, c, inputs, j);
    var h := Run(Initial(writable), c, inputs).history;
    assert Concerns(h[i], h[j].out.id);
  }

  /** finish() always takes the flag its own worker captured, whatever ids were reused. */
  lemma {:induction false} FinishTakesOwnFlag(writable: nat, c: Config, inputs: seq<Input>)
    ensures var r := Run(Initial(writable), c, inputs).runner;
            r.posted != [] ==>
              && r.posted[0].flag in r.tasks && NextId(r) in r.inFlight
              && r.inFlight[NextId(r)] == r.posted[0].flag
  {
    RunKeeps(writable, c, inputs);
    var s := Run(Initial(writable), c, inputs);
    hide Run, Inv;
    if s.runner.posted != [] { OwnFlagTaken(s); }
  }

  /** The pools run four calls and one; serialized calls are taken and end in arrival order. */
  lemma {:induction false} PoolsKeepOrder(writable: nat, c: Config, inputs: seq<Input>)
    ensures var r := Run(Initial(writable), c, inputs).runner;
            && |r.general.started| + |r.general.calling| <= 4 && |r.serial.started| + |r.serial.calling| <= 1
            && (forall f, g | (f in r.serial.started || f in r.serial.calling) && g in r.serial.queue :: f < g)
            && (forall i, j | 0 <= i < j < |r.serial.queue| :: r.serial.queue[i] < r.serial.queue[j])
            && (forall i, j | 0 <= i < j < |r.posted| && IsSerial(r.tasks, r.posted[i]) && IsSerial(r.tasks, r.posted[j]) ::
                  r.posted[i].flag < r.posted[j].flag)
            && (forall i, f | 0 <= i < |r.posted| && IsSerial(r.tasks, r.posted[i]) && f in Flags(r.serial) ::
                  r.posted[i].flag < f)
  {
    RunKeeps(writable, c, inputs);
    hide Run, Story, Listening, ErasKept, PostedReturned, OwnFlags, OwnTasks, Unrun, Flags, IsSerial;
  }
}
