/** The tool runner as the code has it (toolrunner.cpp): the cancel flag of a call is an object that
    the table of calls in flight and the worker share. A ghost model says which state of Engine the
    objects are in; what is posted to the main thread holds no flag at all. */
module ToolRunner {
  import E = Engine
  import I = RunnerInvariant

  /** An atomic boolean; its number only serves the model. */
  class CancelFlag {
    var cancelled: bool
    ghost const number: E.Flag

    constructor (ghost number: E.Flag)
      ensures !cancelled && this.number == number
    {
      cancelled := false;
      this.number := number;
    }
  }

  /** What the function given to a pool captures, and what it knows once it has loaded the flag. */
  datatype Call = Call(id: E.Id, flag: CancelFlag)
  datatype Worker = Worker(call: Call, ran: bool)
  /** What the function posted to the main thread captures. */
  datatype Answer = Answer(id: E.Id, text: string)

  /** A thread pool: calls not started, threads without work, and workers before and after the load. */
  datatype WorkPool = WorkPool(queue: seq<Call>, idle: int, started: set<Call>, calling: set<Worker>)

  // ------------------------------------------------------------ objects and model

  /** The call of flag number `n`. */
  ghost predicate CallIs(c: Call, n: E.Flag, flags: seq<CancelFlag>, tasks: map<E.Flag, E.Task>, serialized: bool) {
    0 <= n < |flags| && c.flag == flags[n] && c.flag.number == n && n in tasks && tasks[n] == E.Task(c.id, serialized)
  }

  ghost predicate QueueIs(queue: seq<Call>, ns: seq<E.Flag>, flags: seq<CancelFlag>, tasks: map<E.Flag, E.Task>,
                          serialized: bool)
  {
    |queue| == |ns| && forall i | 0 <= i < |ns| :: CallIs(queue[i], ns[i], flags, tasks, serialized)
  }

  ghost predicate StartedIs(started: set<Call>, ns: set<E.Flag>, flags: seq<CancelFlag>, tasks: map<E.Flag, E.Task>,
                            serialized: bool)
  {
    && (forall c | c in started :: CallIs(c, c.flag.number, flags, tasks, serialized) && c.flag.number in ns)
    && (forall n | n in ns :: n in tasks && 0 <= n < |flags| && Call(tasks[n].id, flags[n]) in started)
  }

  ghost predicate CallingIs(calling: set<Worker>, ns: set<E.Flag>, flags: seq<CancelFlag>, tasks: map<E.Flag, E.Task>,
                            ran: set<E.Flag>, serialized: bool)
  {
    && (forall w | w in calling ::
          && CallIs(w.call, w.call.flag.number, flags, tasks, serialized) && w.call.flag.number in ns
          && (w.ran <==> w.call.flag.number in ran))
    && (forall n | n in ns ::
          n in tasks && 0 <= n < |flags| && Worker(Call(tasks[n].id, flags[n]), n in ran) in calling)
  }

  ghost predicate PoolIs(p: WorkPool, m: E.Pool, flags: seq<CancelFlag>, tasks: map<E.Flag, E.Task>, ran: set<E.Flag>,
                         serialized: bool)
  {
    && QueueIs(p.queue, m.queue, flags, tasks, serialized)
    && StartedIs(p.started, m.started, flags, tasks, serialized)
    && CallingIs(p.calling, m.calling, flags, tasks, ran, serialized)
    && p.idle == E.Capacity(serialized) - |m.started| - |m.calling|
  }

  ghost predicate PoolsAre(general: WorkPool, serial: WorkPool, r: E.Runner, flags: seq<CancelFlag>) {
    && PoolIs(general, r.general, flags, r.tasks, r.ran, false)
    && PoolIs(serial, r.serial, flags, r.tasks, r.ran, true)
  }

  // ------------------------------------------------------------ what happens to a pool

  function Queues(p: WorkPool, call: Call): WorkPool {
    p.(queue := p.queue + [call])
  }

  function Starts(p: WorkPool): WorkPool
    requires p.queue != []
  {
    WorkPool(p.queue[1..], p.idle - 1, p.started + {p.queue[0]}, p.calling)
  }

  function Loads(p: WorkPool, call: Call, ran: bool): WorkPool {
    p.(started := p.started - {call}, calling := p.calling + {Worker(call, ran)})
  }

  function Returns(p: WorkPool, worker: Worker): WorkPool {
    p.(idle := p.idle + 1, calling := p.calling - {worker})
  }

  ghost predicate PostedIs(posted: seq<Answer>, ms: seq<E.Done>, tasks: map<E.Flag, E.Task>) {
    && |posted| == |ms|
    && forall i | 0 <= i < |ms| ::
         ms[i].flag in tasks && posted[i] == Answer(tasks[ms[i].flag].id, ms[i].text)
  }

  ghost predicate TableIs(inFlight: map<E.Id, CancelFlag>, m: map<E.Id, E.Flag>, flags: seq<CancelFlag>) {
    && (forall id :: id in inFlight <==> id in m)
    && (forall id | id in m :: 0 <= m[id] < |flags| && inFlight[id] == flags[m[id]])
  }

  ghost predicate Numbered(flags: seq<CancelFlag>) {
    forall n | 0 <= n < |flags| :: flags[n].number == n
  }

  // ------------------------------------------------------------ the runner

  class ToolRunner {
    var inFlight: map<E.Id, CancelFlag>
    var general: WorkPool
    var serial: WorkPool
    var posted: seq<Answer>
    /** Every flag there was, in order, and the state of the model. */
    ghost var flags: seq<CancelFlag>
    ghost var model: E.Runner

    ghost predicate Valid()
      reads this, flags
    {
      && I.RunnerInv(model)
      && |flags| == model.nextFlag && Numbered(flags)
      && (forall n | 0 <= n < |flags| :: flags[n].cancelled <==> n in model.cancelled)
      && TableIs(inFlight, model.inFlight, flags)
      && PoolsAre(general, serial, model, flags)
      && PostedIs(posted, model.posted, model.tasks)
    }

    constructor ()
      ensures Valid() && model == E.Initial(0).runner && flags == []
    {
      inFlight, posted, flags := map[], [], [];
      general, serial := WorkPool([], E.CAPACITY, {}, {}), WorkPool([], E.SERIAL_CAPACITY, {}, {});
      model := E.Initial(0).runner;
      I.InitialRunner(0);
    }

    function PoolOf(serialized: bool): WorkPool
      reads this
    {
      if serialized then serial else general
    }

    function IsInFlight(id: E.Id): (b: bool)
      requires Valid()
      reads this, flags
      ensures b <==> id in model.inFlight
    {
      hide I.RunnerInv, PoolsAre, PostedIs, Numbered;
      id in inFlight
    }

    function InFlight(): (n: nat)
      requires Valid()
      reads this, flags
      ensures n == |model.inFlight|
    {
      hide I.RunnerInv, PoolsAre, PostedIs, Numbered;
      assert inFlight.Keys == model.inFlight.Keys;
      |inFlight|
    }

    /** False, and nothing is queued, for an id in flight. */
    method Submit(id: E.Id, serialized: bool) returns (submitted: bool)
      requires Valid()
      modifies this
      ensures Valid() && model == E.Submit(old(model), id, serialized)
      ensures submitted == (id !in old(model).inFlight)
      ensures old(flags) <= flags && forall n | |old(flags)| <= n < |flags| :: fresh(flags[n])
    {
      hide I.RunnerInv, PoolsAre, PostedIs, Numbered;
      if id in inFlight {
        return false;
      }
      var flag := new CancelFlag(model.nextFlag);
      Enqueue(id, flag, serialized);
      submitted := true;
    }

    /** The entry in the table and the function in the queue, with the flag they share. */
    method Enqueue(id: E.Id, flag: CancelFlag, serialized: bool)
      requires Valid() && id !in model.inFlight && flag.number == |flags| && !flag.cancelled
      modifies this
      ensures Valid() && model == E.Submit(old(model), id, serialized) && flags == old(flags) + [flag]
    {
      hide I.RunnerInv, PoolsAre, PostedIs, TableIs, Numbered, E.Submit;
      Submitted(model, id, serialized);
      I.SubmitKeeps(model, id, serialized);
      TasksBelow(model);
      var call := Call(id, flag);
      PoolsQueue(general, serial, model, flags, call, serialized);
      TableGrows(inFlight, model.inFlight, flags, id, flag);
      PostedGrows(posted, model.posted, model.tasks, |flags|, E.Task(id, serialized));
      inFlight := inFlight[id := flag];
      if serialized {
        serial := Queues(serial, call);
      } else {
        general := Queues(general, call);
      }
      flags := flags + [flag];
      model := E.Submit(model, id, serialized);
    }

    /** Sets the flag that the worker of the call looks at. */
    method Cancel(id: E.Id) returns (found: bool)
      requires Valid()
      modifies this, flags
      ensures Valid() && found == (id in old(model).inFlight)
      ensures model == if found then E.Cancel(old(model), id) else old(model)
      ensures flags == old(flags) && inFlight == old(inFlight) && posted == old(posted)
      ensures found ==> inFlight[id].cancelled
    {
      hide I.RunnerInv, PoolsAre, PostedIs, Numbered;
      if id !in inFlight {
        return false;
      }
      I.CancelKeeps(model, id);
      PoolsCancel(general, serial, model, flags, id);
      inFlight[id].cancelled := true;
      NumbersApart(flags, model.inFlight[id]);
      model := E.Cancel(model, id);
      found := true;
    }

    /** A free thread takes the call that waits longest. */
    method StartNext(serialized: bool)
      requires Valid() && PoolOf(serialized).queue != [] && PoolOf(serialized).idle > 0
      modifies this
      ensures E.CanStart(old(model), serialized)
      ensures Valid() && model == E.Start(old(model), serialized) && flags == old(flags)
    {
      hide I.RunnerInv, PostedIs, TableIs, Numbered, PoolsAre;
      PoolsStart(general, serial, model, flags, serialized);
      I.StartKeeps(model, serialized);
      if serialized {
        serial := Starts(serial);
      } else {
        general := Starts(general);
      }
      model := E.Start(model, serialized);
    }

    /** The thread looks at the flag it shares, and calls the tool unless it is set. */
    method LoadFlag(serialized: bool, call: Call) returns (ran: bool)
      requires Valid() && call in PoolOf(serialized).started
      modifies this
      ensures call.flag.number in E.PoolOf(old(model), serialized).started
      ensures Valid() && model == E.Load(old(model), serialized, call.flag.number) && flags == old(flags)
      ensures ran == !call.flag.cancelled && Worker(call, ran) in PoolOf(serialized).calling
    {
      hide I.RunnerInv, PostedIs, TableIs, Numbered, PoolsAre;
      ghost var n := call.flag.number;
      PoolsFlag(general, serial, model, flags, call, serialized);
      ran := !call.flag.cancelled;
      PoolsLoad(general, serial, model, flags, call, serialized, ran);
      I.LoadKeeps(model, serialized, n);
      if serialized {
        serial := Loads(serial, call, ran);
      } else {
        general := Loads(general, call, ran);
      }
      model := E.Load(model, serialized, n);
    }

    /** The thread posts what the tool gave, or nothing, for the id; the flag is not passed on. */
    method ReturnResult(serialized: bool, worker: Worker, text: string)
      requires Valid() && worker in PoolOf(serialized).calling
      modifies this
      ensures worker.call.flag.number in E.PoolOf(old(model), serialized).calling
      ensures Valid() && model == E.Return(old(model), serialized, worker.call.flag.number, text) && flags == old(flags)
      ensures posted == old(posted) + [Answer(worker.call.id, if worker.ran then text else "")]
    {
      hide I.RunnerInv, PostedIs, TableIs, Numbered, PoolsAre;
      ghost var n := worker.call.flag.number;
      PoolsReturn(general, serial, model, flags, worker, serialized);
      I.ReturnKeeps(model, serialized, n, text);
      var answer := Answer(worker.call.id, if worker.ran then text else "");
      PostedReturns(posted, model.posted, model.tasks, answer, E.Done(n, E.Outcome(model, n, text)));
      posted := posted + [answer];
      if serialized {
        serial := Returns(serial, worker);
      } else {
        general := Returns(general, worker);
      }
      model := E.Return(model, serialized, n, text);
    }

    /** The first half of finish(): the flag found under the id decides whether the result is sent. */
    method Take() returns (id: E.Id, text: string, live: bool)
      requires Valid() && posted != []
      modifies this
      ensures E.Enabled(E.Initial(0).(runner := old(model)), E.FinishNext)
      ensures Valid() && model == E.Take(old(model)) && flags == old(flags)
      ensures id == E.NextId(old(model)) && text == old(model).posted[0].text
      ensures live == (id in old(model).inFlight && old(model).inFlight[id] !in old(model).cancelled)
    {
      hide I.RunnerInv, PoolsAre, Numbered;
      id, text := posted[0].id, posted[0].text;
      I.TakeKeeps(model);
      live := id in inFlight && !inFlight[id].cancelled;
      Taken(model);
      PoolsForget(general, serial, model, flags);
      PostedForgets(posted, model.posted, model.tasks);
      inFlight, posted := inFlight - {id}, posted[1..];
      model := E.Take(model);
    }
  }

  /** A call waits, or a worker has it. */
  ghost predicate Holds(p: WorkPool, call: Call) {
    call in p.queue || call in p.started || exists w :: w in p.calling && w.call == call
  }

  /** The flag that a call carries is the one that cancel() finds under its id. */
  lemma SharedFlag(runner: ToolRunner, serialized: bool, call: Call)
    requires runner.Valid() && Holds(runner.PoolOf(serialized), call)
    ensures call.id in runner.inFlight && runner.inFlight[call.id] == call.flag
  {
    hide I.RunnerInv, PostedIs, Numbered;
    OwnFlagsOf(runner.model);
    var ns := E.PoolOf(runner.model, serialized);
    assert exists n :: CallIs(call, n, runner.flags, runner.model.tasks, serialized);
  }

  lemma OwnFlagsOf(r: E.Runner)
    requires I.RunnerInv(r)
    ensures forall f | f in r.tasks :: r.tasks[f].id in r.inFlight && r.inFlight[r.tasks[f].id] == f
  {
    hide I.PoolInv, I.Placed, I.SerialOrder, I.Distinct;
  }

  lemma TasksBelow(r: E.Runner)
    requires I.RunnerInv(r)
    ensures forall f | f in r.tasks :: f < r.nextFlag
    ensures r.nextFlag !in r.cancelled && r.nextFlag !in r.ran
  {
    hide I.PoolInv, I.Placed, I.SerialOrder, I.Distinct;
  }

  lemma Submitted(r: E.Runner, id: E.Id, serialized: bool)
    ensures var t := E.Submit(r, id, serialized);
            if id in r.inFlight then t == r
            else
              && t.inFlight == r.inFlight[id := r.nextFlag] && t.tasks == r.tasks[r.nextFlag := E.Task(id, serialized)]
              && t.nextFlag == r.nextFlag + 1 && t.cancelled == r.cancelled && t.posted == r.posted
  {
  }

  lemma TableKeys(inFlight: map<E.Id, CancelFlag>, m: map<E.Id, E.Flag>, flags: seq<CancelFlag>)
    requires TableIs(inFlight, m, flags)
    ensures forall id :: id in inFlight <==> id in m
  {
  }

  /** A new flag and a new task leave a pool what it is, and its queue may take the new call. */
  lemma PoolGrows(p: WorkPool, m: E.Pool, flags: seq<CancelFlag>, tasks: map<E.Flag, E.Task>, ran: set<E.Flag>,
                  serialized: bool, call: Call, task: E.Task)
    requires PoolIs(p, m, flags, tasks, ran, serialized)
    requires |flags| !in tasks && call.flag.number == |flags| && call.id == task.id
    ensures var more, ts := flags + [call.flag], tasks[|flags| := task];
            && PoolIs(p, m, more, ts, ran, serialized)
            && (task.serial == serialized ==>
                 PoolIs(Queues(p, call), m.(queue := m.queue + [|flags|]), more, ts, ran, serialized))
  {
  }

  lemma TableGrows(inFlight: map<E.Id, CancelFlag>, m: map<E.Id, E.Flag>, flags: seq<CancelFlag>, id: E.Id,
                   flag: CancelFlag)
    requires TableIs(inFlight, m, flags) && Numbered(flags) && flag.number == |flags|
    ensures TableIs(inFlight[id := flag], m[id := |flags|], flags + [flag]) && Numbered(flags + [flag])
  {
  }

  lemma PostedGrows(posted: seq<Answer>, ms: seq<E.Done>, tasks: map<E.Flag, E.Task>, n: E.Flag, task: E.Task)
    requires PostedIs(posted, ms, tasks) && n !in tasks
    ensures PostedIs(posted, ms, tasks[n := task])
  {
  }

  /** A flag has one number. */
  lemma NumbersApart(flags: seq<CancelFlag>, n: E.Flag)
    requires Numbered(flags) && 0 <= n < |flags|
    ensures forall k | 0 <= k < |flags| && k != n :: flags[k] != flags[n]
  {
  }

  lemma NotStarted(r: E.Runner, serialized: bool)
    requires I.RunnerInv(r) && E.CanStart(r, serialized)
    ensures var m := E.PoolOf(r, serialized);
            m.queue[0] !in m.started && m.queue[0] !in m.calling
  {
    hide I.OwnFlags, I.Placed, I.SerialOrder, I.Distinct, I.OwnTasks, I.Increasing, I.Unrun;
    var m := E.PoolOf(r, serialized);
    var first := m.queue[0];
    assert first in m.queue;
    assert first in m.started || first in m.calling ==> first < first;
  }

  lemma PoolStarts(p: WorkPool, m: E.Pool, flags: seq<CancelFlag>, tasks: map<E.Flag, E.Task>, ran: set<E.Flag>,
                   serialized: bool)
    requires PoolIs(p, m, flags, tasks, ran, serialized) && m.queue != []
    requires m.queue[0] !in m.started && m.queue[0] !in m.calling
    ensures p.queue != []
    ensures PoolIs(Starts(p), m.(queue := m.queue[1..], started := m.started + {m.queue[0]}), flags, tasks, ran, serialized)
  {
    assert forall i | 0 <= i < |m.queue[1..]| :: m.queue[1..][i] == m.queue[i + 1] && p.queue[1..][i] == p.queue[i + 1];
    assert CallIs(p.queue[0], m.queue[0], flags, tasks, serialized);
    assert p.queue[0] == Call(tasks[m.queue[0]].id, flags[m.queue[0]]);
  }

  lemma StartedFlag(p: WorkPool, m: E.Pool, flags: seq<CancelFlag>, tasks: map<E.Flag, E.Task>, ran: set<E.Flag>,
                    serialized: bool, call: Call)
    requires PoolIs(p, m, flags, tasks, ran, serialized) && call in p.started
    ensures var n := call.flag.number;
            n in m.started && 0 <= n < |flags| && call.flag == flags[n]
  {
  }

  lemma CallingFlag(p: WorkPool, m: E.Pool, flags: seq<CancelFlag>, tasks: map<E.Flag, E.Task>, ran: set<E.Flag>,
                    serialized: bool, worker: Worker)
    requires PoolIs(p, m, flags, tasks, ran, serialized) && worker in p.calling
    ensures var n := worker.call.flag.number;
            && n in m.calling && (worker.ran <==> n in ran)
            && n in tasks && tasks[n].id == worker.call.id
  {
  }

  lemma Unloaded(r: E.Runner, serialized: bool, n: E.Flag)
    requires I.RunnerInv(r) && n in E.PoolOf(r, serialized).started
    ensures n !in r.ran && n !in E.PoolOf(r, serialized).calling
    ensures n !in E.PoolOf(r, !serialized).calling
  {
    hide I.OwnFlags, I.SerialOrder, I.Distinct, I.OwnTasks, I.Increasing;
    assert n in I.Flags(E.PoolOf(r, serialized));
  }

  lemma PoolLoads(p: WorkPool, m: E.Pool, flags: seq<CancelFlag>, tasks: map<E.Flag, E.Task>, ran: set<E.Flag>,
                  serialized: bool, call: Call, now: bool, after: set<E.Flag>)
    requires PoolIs(p, m, flags, tasks, ran, serialized) && call in p.started && Numbered(flags)
    requires call.flag.number !in ran && call.flag.number !in m.calling
    requires after == if now then ran + {call.flag.number} else ran
    ensures var n := call.flag.number;
            PoolIs(Loads(p, call, now), m.(started := m.started - {n}, calling := m.calling + {n}), flags, tasks, after, serialized)
  {
    var n := call.flag.number;
    assert CallIs(call, n, flags, tasks, serialized) && call == Call(tasks[n].id, flags[n]);
  }

  lemma OtherLoads(p: WorkPool, m: E.Pool, flags: seq<CancelFlag>, tasks: map<E.Flag, E.Task>, ran: set<E.Flag>,
                   serialized: bool, n: E.Flag, after: set<E.Flag>)
    requires PoolIs(p, m, flags, tasks, ran, serialized) && n !in m.calling && ran <= after <= ran + {n}
    ensures PoolIs(p, m, flags, tasks, after, serialized)
  {
  }

  lemma PoolReturns(p: WorkPool, m: E.Pool, flags: seq<CancelFlag>, tasks: map<E.Flag, E.Task>, ran: set<E.Flag>,
                    serialized: bool, worker: Worker)
    requires PoolIs(p, m, flags, tasks, ran, serialized) && worker in p.calling && Numbered(flags)
    ensures var n := worker.call.flag.number;
            PoolIs(Returns(p, worker), m.(calling := m.calling - {n}),
                   flags, tasks, ran, serialized)
  {
    var n := worker.call.flag.number;
    assert worker == Worker(Call(tasks[n].id, flags[n]), n in ran);
  }

  /** The posted call is nowhere else, and the flag under its id is its own. */
  lemma Taken(r: E.Runner)
    requires I.RunnerInv(r) && r.posted != []
    ensures r.posted[0].flag in r.tasks
    ensures r.posted[0].flag !in I.Flags(r.general) && r.posted[0].flag !in I.Flags(r.serial)
    ensures forall i | 0 < i < |r.posted| :: r.posted[i].flag != r.posted[0].flag
  {
    hide I.OwnFlags, I.SerialOrder, I.PoolInv, I.Flags;
    I.PostedFirst(r.posted);
  }

  lemma PoolForgets(p: WorkPool, m: E.Pool, flags: seq<CancelFlag>, tasks: map<E.Flag, E.Task>, ran: set<E.Flag>,
                    serialized: bool, n: E.Flag)
    requires PoolIs(p, m, flags, tasks, ran, serialized) && n !in I.Flags(m)
    ensures PoolIs(p, m, flags, tasks - {n}, ran, serialized)
  {
    assert n !in m.queue by {
      assert forall i | 0 <= i < |m.queue| :: m.queue[i] in I.Elements(m.queue);
    }
    assert n !in m.started && n !in m.calling;
    QueueForgets(p.queue, m.queue, flags, tasks, serialized, n);
    StartedForgets(p.started, m.started, flags, tasks, serialized, n);
    CallingForgets(p.calling, m.calling, flags, tasks, ran, serialized, n);
    hide QueueIs, StartedIs, CallingIs, I.Elements;
  }

  lemma QueueForgets(queue: seq<Call>, ns: seq<E.Flag>, flags: seq<CancelFlag>, tasks: map<E.Flag, E.Task>,
                     serialized: bool, n: E.Flag)
    requires QueueIs(queue, ns, flags, tasks, serialized) && n !in ns
    ensures QueueIs(queue, ns, flags, tasks - {n}, serialized)
  {
  }

  lemma StartedForgets(started: set<Call>, ns: set<E.Flag>, flags: seq<CancelFlag>, tasks: map<E.Flag, E.Task>,
                       serialized: bool, n: E.Flag)
    requires StartedIs(started, ns, flags, tasks, serialized) && n !in ns
    ensures StartedIs(started, ns, flags, tasks - {n}, serialized)
  {
  }

  lemma CallingForgets(calling: set<Worker>, ns: set<E.Flag>, flags: seq<CancelFlag>, tasks: map<E.Flag, E.Task>,
                       ran: set<E.Flag>, serialized: bool, n: E.Flag)
    requires CallingIs(calling, ns, flags, tasks, ran, serialized) && n !in ns
    ensures CallingIs(calling, ns, flags, tasks - {n}, ran, serialized)
  {
  }

  lemma PostedForgets(posted: seq<Answer>, ms: seq<E.Done>, tasks: map<E.Flag, E.Task>)
    requires PostedIs(posted, ms, tasks) && ms != []
    requires forall i | 0 < i < |ms| :: ms[i].flag != ms[0].flag
    ensures PostedIs(posted[1..], ms[1..], tasks - {ms[0].flag})
  {
  }

  lemma PostedReturns(posted: seq<Answer>, ms: seq<E.Done>, tasks: map<E.Flag, E.Task>, answer: Answer, done: E.Done)
    requires PostedIs(posted, ms, tasks) && done.flag in tasks && answer == Answer(tasks[done.flag].id, done.text)
    ensures PostedIs(posted + [answer], ms + [done], tasks)
  {
  }

  // ------------------------------------------------------------ both pools

  lemma PoolsQueue(general: WorkPool, serial: WorkPool, r: E.Runner, flags: seq<CancelFlag>, call: Call, serialized: bool)
    requires PoolsAre(general, serial, r, flags) && r.nextFlag == |flags| == call.flag.number
    requires |flags| !in r.tasks && call.id !in r.inFlight
    ensures PoolsAre(if serialized then general else Queues(general, call),
                     if serialized then Queues(serial, call) else serial,
                     E.Submit(r, call.id, serialized), flags + [call.flag])
  {
    hide PoolIs;
    PoolGrows(general, r.general, flags, r.tasks, r.ran, false, call, E.Task(call.id, serialized));
    PoolGrows(serial, r.serial, flags, r.tasks, r.ran, true, call, E.Task(call.id, serialized));
  }

  lemma PoolsStart(general: WorkPool, serial: WorkPool, r: E.Runner, flags: seq<CancelFlag>, serialized: bool)
    requires PoolsAre(general, serial, r, flags) && I.RunnerInv(r)
    requires var p := if serialized then serial else general; p.queue != [] && p.idle > 0
    ensures E.CanStart(r, serialized)
    ensures PoolsAre(if serialized then general else Starts(general), if serialized then Starts(serial) else serial,
                     E.Start(r, serialized), flags)
  {
    hide I.RunnerInv;
    assert E.CanStart(r, serialized);
    hide PoolIs;
    NotStarted(r, serialized);
    if serialized {
      PoolStarts(serial, r.serial, flags, r.tasks, r.ran, true);
    } else {
      PoolStarts(general, r.general, flags, r.tasks, r.ran, false);
    }
  }

  lemma PoolsFlag(general: WorkPool, serial: WorkPool, r: E.Runner, flags: seq<CancelFlag>, call: Call,
                  serialized: bool)
    requires PoolsAre(general, serial, r, flags) && call in (if serialized then serial else general).started
    ensures 0 <= call.flag.number < |flags| && call.flag == flags[call.flag.number]
  {
    hide PoolIs;
    StartedFlag(if serialized then serial else general, E.PoolOf(r, serialized), flags, r.tasks, r.ran, serialized, call);
  }

  lemma PoolsCancel(general: WorkPool, serial: WorkPool, r: E.Runner, flags: seq<CancelFlag>, id: E.Id)
    requires PoolsAre(general, serial, r, flags) && id in r.inFlight
    ensures PoolsAre(general, serial, E.Cancel(r, id), flags)
  {
    hide PoolIs;
  }

  lemma PoolsLoad(general: WorkPool, serial: WorkPool, r: E.Runner, flags: seq<CancelFlag>, call: Call,
                  serialized: bool, ran: bool)
    requires PoolsAre(general, serial, r, flags) && I.RunnerInv(r) && Numbered(flags)
    requires call in (if serialized then serial else general).started
    requires ran <==> call.flag.number !in r.cancelled
    ensures call.flag.number in E.PoolOf(r, serialized).started
    ensures PoolsAre(if serialized then general else Loads(general, call, ran),
                     if serialized then Loads(serial, call, ran) else serial,
                     E.Load(r, serialized, call.flag.number), flags)
  {
    hide PoolIs, I.RunnerInv, Numbered;
    var n := call.flag.number;
    StartedFlag(if serialized then serial else general, E.PoolOf(r, serialized), flags, r.tasks, r.ran, serialized, call);
    Unloaded(r, serialized, n);
    var after := if ran then r.ran + {n} else r.ran;
    if serialized {
      PoolLoads(serial, r.serial, flags, r.tasks, r.ran, true, call, ran, after);
      OtherLoads(general, r.general, flags, r.tasks, r.ran, false, n, after);
    } else {
      PoolLoads(general, r.general, flags, r.tasks, r.ran, false, call, ran, after);
      OtherLoads(serial, r.serial, flags, r.tasks, r.ran, true, n, after);
    }
  }

  lemma PoolsReturn(general: WorkPool, serial: WorkPool, r: E.Runner, flags: seq<CancelFlag>, worker: Worker,
                    serialized: bool)
    requires PoolsAre(general, serial, r, flags) && Numbered(flags)
    requires worker in (if serialized then serial else general).calling
    ensures var n := worker.call.flag.number;
            && n in E.PoolOf(r, serialized).calling && (worker.ran <==> n in r.ran)
            && n in r.tasks && r.tasks[n].id == worker.call.id
    ensures forall text ::
              PoolsAre(if serialized then general else Returns(general, worker),
                       if serialized then Returns(serial, worker) else serial,
                       E.Return(r, serialized, worker.call.flag.number, text), flags)
  {
    hide PoolIs, Numbered;
    CallingFlag(if serialized then serial else general, E.PoolOf(r, serialized), flags, r.tasks, r.ran, serialized, worker);
    if serialized {
      PoolReturns(serial, r.serial, flags, r.tasks, r.ran, true, worker);
    } else {
      PoolReturns(general, r.general, flags, r.tasks, r.ran, false, worker);
    }
  }

  lemma PoolsForget(general: WorkPool, serial: WorkPool, r: E.Runner, flags: seq<CancelFlag>)
    requires PoolsAre(general, serial, r, flags) && r.posted != [] && r.posted[0].flag in r.tasks
    requires r.posted[0].flag !in I.Flags(r.general) && r.posted[0].flag !in I.Flags(r.serial)
    ensures PoolsAre(general, serial, E.Take(r), flags)
  {
    hide PoolIs, I.Flags;
    PoolForgets(general, r.general, flags, r.tasks, r.ran, false, r.posted[0].flag);
    PoolForgets(serial, r.serial, flags, r.tasks, r.ran, true, r.posted[0].flag);
  }
}
