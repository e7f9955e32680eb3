/** What every step keeps of the tool runner: calls in flight and tasks correspond one to one, each
    task is at exactly one place, the pools keep their size and their order. */
module RunnerInvariant {
  import opened Engine

  function Elements(queue: seq<Flag>): set<Flag> {
    set f | f in queue
  }

  function Flags(p: Pool): set<Flag> {
    Elements(p.queue) + p.started + p.calling
  }

  function PostedFlags(posted: seq<Done>): set<Flag> {
    set d | d in posted :: d.flag
  }

  ghost predicate Increasing(queue: seq<Flag>) {
    forall i, j | 0 <= i < j < |queue| :: queue[i] < queue[j]
  }

  /** The flag stored under an id is the one the worker of its call captured. */
  ghost predicate OwnFlags(r: Runner) {
    && (forall f | f in r.tasks :: f < r.nextFlag && r.tasks[f].id in r.inFlight && r.inFlight[r.tasks[f].id] == f)
    && (forall id | id in r.inFlight :: r.inFlight[id] in r.tasks && r.tasks[r.inFlight[id]].id == id)
    && (forall f | f in r.cancelled || f in r.ran :: f < r.nextFlag)
  }

  ghost predicate OwnTasks(flags: set<Flag>, tasks: map<Flag, Task>, serialized: bool) {
    forall f | f in flags :: f in tasks && tasks[f].serial == serialized
  }

  /** Calls wait in arrival order, and the workers hold earlier ones. */
  ghost predicate Ordered(p: Pool) {
    && p.started !! p.calling
    && Increasing(p.queue)
    && (forall f, g | (f in p.started || f in p.calling) && g in p.queue :: f < g)
  }

  /** No call has run before its flag was loaded. */
  ghost predicate Unrun(p: Pool, ran: set<Flag>) {
    forall f | f in p.queue || f in p.started :: f !in ran
  }

  ghost predicate PoolInv(p: Pool, tasks: map<Flag, Task>, ran: set<Flag>, serialized: bool) {
    && OwnTasks(Flags(p), tasks, serialized) && Ordered(p) && Unrun(p, ran)
    && |p.started| + |p.calling| <= Capacity(serialized)
  }

  ghost predicate Distinct(posted: seq<Done>) {
    forall i, j | 0 <= i < j < |posted| :: posted[i].flag != posted[j].flag
  }

  /** Every task is at one place. */
  ghost predicate Placed(tasks: set<Flag>, a: set<Flag>, b: set<Flag>, c: set<Flag>) {
    tasks == a + b + c && a !! b && a !! c && b !! c
  }

  /** Serialized calls end in arrival order. */
  ghost predicate SerialOrder(posted: seq<Done>, tasks: map<Flag, Task>, held: set<Flag>) {
    && (forall i, j | 0 <= i < j < |posted| && IsSerial(tasks, posted[i]) && IsSerial(tasks, posted[j]) ::
          posted[i].flag < posted[j].flag)
    && (forall i, f | 0 <= i < |posted| && IsSerial(tasks, posted[i]) && f in held :: posted[i].flag < f)
  }

  predicate IsSerial(tasks: map<Flag, Task>, d: Done) {
    d.flag in tasks && tasks[d.flag].serial
  }

  ghost predicate RunnerInv(r: Runner) {
    && OwnFlags(r)
    && PoolInv(r.general, r.tasks, r.ran, false) && PoolInv(r.serial, r.tasks, r.ran, true)
    && Distinct(r.posted)
    && Placed(r.tasks.Keys, Flags(r.general), Flags(r.serial), PostedFlags(r.posted))
    && SerialOrder(r.posted, r.tasks, Flags(r.serial))
  }

  lemma InitialRunner(writable: nat)
    ensures RunnerInv(Initial(writable).runner)
  {
  }

  // ------------------------------------------------------------ one pool

  lemma QueueAppend(queue: seq<Flag>, flag: Flag)
    requires Increasing(queue) && forall f | f in queue :: f < flag
    ensures Increasing(queue + [flag]) && Elements(queue + [flag]) == Elements(queue) + {flag}
    ensures forall f :: f in queue + [flag] <==> f in queue || f == flag
  {
    assert forall i | 0 <= i < |queue| :: queue[i] in queue;
  }

  lemma QueueFirst(queue: seq<Flag>)
    requires Increasing(queue) && queue != []
    ensures Increasing(queue[1..]) && Elements(queue) == {queue[0]} + Elements(queue[1..])
    ensures forall f :: f in queue <==> f == queue[0] || f in queue[1..]
    ensures forall f | f in queue[1..] :: queue[0] < f
  {
    assert queue == [queue[0]] + queue[1..];
  }

  lemma QueuedOrdered(p: Pool, flag: Flag)
    requires Ordered(p) && forall f | f in Flags(p) :: f < flag
    ensures var q := p.(queue := p.queue + [flag]);
            Ordered(q) && Flags(q) == Flags(p) + {flag} && forall f :: f in q.queue <==> f in p.queue || f == flag
  {
    assert forall f | f in p.queue :: f in Flags(p);
    hide Increasing;
    QueueAppend(p.queue, flag);
    hide Elements;
    assert Flags(p.(queue := p.queue + [flag])) == Flags(p) + {flag};
  }

  lemma StartedOrdered(p: Pool)
    requires Ordered(p) && p.queue != []
    ensures var q := p.(queue := p.queue[1..], started := p.started + {p.queue[0]});
            Ordered(q) && Flags(q) == Flags(p) && forall f :: f in p.queue <==> f == p.queue[0] || f in q.queue
  {
    hide Increasing;
    QueueFirst(p.queue);
    hide Elements;
    assert Flags(p.(queue := p.queue[1..], started := p.started + {p.queue[0]})) == Flags(p);
  }

  lemma LoadedOrdered(p: Pool, flag: Flag)
    requires Ordered(p) && flag in p.started
    ensures var q := p.(started := p.started - {flag}, calling := p.calling + {flag});
            && Ordered(q) && Flags(q) == Flags(p) && flag !in p.queue
            && |q.started| + |q.calling| == |p.started| + |p.calling|
  {
    hide Increasing, Elements;
    assert Flags(p.(started := p.started - {flag}, calling := p.calling + {flag})) == Flags(p);
  }

  lemma LeftOrdered(p: Pool, flag: Flag)
    requires Ordered(p) && flag in p.calling
    ensures var q := p.(calling := p.calling - {flag});
            && Ordered(q) && Flags(q) == Flags(p) - {flag}
            && |q.started| + |q.calling| + 1 == |p.started| + |p.calling|
  {
    hide Increasing;
    assert flag !in p.queue && flag !in p.started;
    assert Flags(p.(calling := p.calling - {flag})) == Flags(p) - {flag};
  }

  lemma Queued(p: Pool, tasks: map<Flag, Task>, ran: set<Flag>, serialized: bool, flag: Flag, task: Task)
    requires PoolInv(p, tasks, ran, serialized) && flag !in ran && task.serial == serialized
    requires forall f | f in tasks :: f < flag
    ensures var q := p.(queue := p.queue + [flag]);
            PoolInv(q, tasks[flag := task], ran, serialized) && Flags(q) == Flags(p) + {flag}
  {
    hide Ordered, Capacity, Flags;
    QueuedOrdered(p, flag);
  }

  lemma OtherTasks(p: Pool, tasks: map<Flag, Task>, more: map<Flag, Task>, ran: set<Flag>, serialized: bool)
    requires PoolInv(p, tasks, ran, serialized)
    requires forall f | f in Flags(p) :: f in more && more[f] == tasks[f]
    ensures PoolInv(p, more, ran, serialized)
  {
  }

  lemma Started(p: Pool, tasks: map<Flag, Task>, ran: set<Flag>, serialized: bool)
    requires PoolInv(p, tasks, ran, serialized)
    requires p.queue != [] && |p.started| + |p.calling| < Capacity(serialized)
    ensures var q := p.(queue := p.queue[1..], started := p.started + {p.queue[0]});
            PoolInv(q, tasks, ran, serialized) && Flags(q) == Flags(p)
  {
    hide Ordered, Capacity, Flags, OwnTasks;
    StartedOrdered(p);
  }

  lemma Loaded(p: Pool, tasks: map<Flag, Task>, ran: set<Flag>, serialized: bool, flag: Flag, more: set<Flag>)
    requires PoolInv(p, tasks, ran, serialized) && flag in p.started && ran <= more <= ran + {flag}
    ensures var q := p.(started := p.started - {flag}, calling := p.calling + {flag});
            PoolInv(q, tasks, more, serialized) && Flags(q) == Flags(p)
  {
    hide Ordered, Capacity, Flags, OwnTasks;
    LoadedOrdered(p, flag);
  }

  lemma OthersLoaded(p: Pool, tasks: map<Flag, Task>, ran: set<Flag>, serialized: bool, flag: Flag, more: set<Flag>)
    requires PoolInv(p, tasks, ran, serialized) && flag !in Flags(p) && ran <= more <= ran + {flag}
    ensures PoolInv(p, tasks, more, serialized)
  {
    hide Ordered, Capacity, OwnTasks;
  }

  lemma Left(p: Pool, tasks: map<Flag, Task>, ran: set<Flag>, serialized: bool, flag: Flag)
    requires PoolInv(p, tasks, ran, serialized) && flag in p.calling
    ensures var q := p.(calling := p.calling - {flag});
            PoolInv(q, tasks, ran, serialized) && Flags(q) == Flags(p) - {flag}
  {
    hide Ordered, Capacity, Flags;
    LeftOrdered(p, flag);
  }

  /** A pool of one: the worker holds the earliest call. */
  lemma OnlyWorker(p: Pool, tasks: map<Flag, Task>, ran: set<Flag>, flag: Flag)
    requires PoolInv(p, tasks, ran, true) && flag in p.calling
    ensures forall f | f in Flags(p) && f != flag :: flag < f
  {
    assert {flag} <= p.calling && |{flag}| == 1;
    assert p.calling == {flag} by { Bounded({flag}, p.calling); }
    assert p.started == {};
  }

  lemma Bounded(a: set<Flag>, b: set<Flag>)
    requires a <= b && |b| <= |a|
    ensures a == b
  {
    assert |b - a| == |b| - |a|;
  }

  lemma PostedAppend(posted: seq<Done>, d: Done)
    ensures PostedFlags(posted + [d]) == PostedFlags(posted) + {d.flag}
  {
    assert forall e :: e in posted + [d] <==> e in posted || e == d;
  }

  lemma PostedFirst(posted: seq<Done>)
    requires posted != [] && Distinct(posted)
    ensures PostedFlags(posted[1..]) == PostedFlags(posted) - {posted[0].flag}
    ensures posted[0].flag in PostedFlags(posted) && Distinct(posted[1..])
  {
    assert forall i | 0 <= i < |posted[1..]| :: posted[1..][i] == posted[i + 1];
    assert posted == [posted[0]] + posted[1..];
    assert forall e :: e in posted <==> e == posted[0] || e in posted[1..];
  }

  lemma PlacedMoves(tasks: set<Flag>, a: set<Flag>, b: set<Flag>, c: set<Flag>, f: Flag)
    requires Placed(tasks, a, b, c)
    ensures f in a ==> Placed(tasks, a - {f}, b, c + {f})
    ensures f in b ==> Placed(tasks, a, b - {f}, c + {f})
  {
  }

  lemma PlacedLeaves(tasks: set<Flag>, a: set<Flag>, b: set<Flag>, c: set<Flag>, f: Flag)
    requires Placed(tasks, a, b, c) && f in c
    ensures f !in a && f !in b && a <= tasks && b <= tasks && Placed(tasks - {f}, a, b, c - {f})
  {
  }

  // ------------------------------------------------------------ the steps

  lemma {:induction false} SubmitKeeps(r: Runner, id: Id, serialized: bool)
    requires RunnerInv(r)
    ensures RunnerInv(Submit(r, id, serialized))
  {
    hide PoolInv, Flags, PostedFlags, Capacity, SerialOrder;
    if id !in r.inFlight {
      var flag, task := r.nextFlag, Task(id, serialized);
      var t := Submit(r, id, serialized);
      SubmitOwns(r, id, serialized);
      assert flag !in r.ran && flag !in r.tasks && forall f | f in r.tasks :: f < flag;
      PostedAreTasks(r);
      hide OwnFlags;
      if serialized {
        Queued(r.serial, r.tasks, r.ran, true, flag, task);
        Arrived(r.posted, r.tasks, Flags(r.serial), flag, task, Flags(r.serial) + {flag});
        OtherTasksOf(r.general, r.tasks, flag, task, r.ran, false);
      } else {
        Queued(r.general, r.tasks, r.ran, false, flag, task);
        Arrived(r.posted, r.tasks, Flags(r.serial), flag, task, Flags(r.serial));
        OtherTasksOf(r.serial, r.tasks, flag, task, r.ran, true);
      }
    }
  }

  lemma SubmitOwns(r: Runner, id: Id, serialized: bool)
    requires OwnFlags(r) && id !in r.inFlight
    ensures OwnFlags(Submit(r, id, serialized))
  {
  }

  lemma PostedAreTasks(r: Runner)
    requires Placed(r.tasks.Keys, Flags(r.general), Flags(r.serial), PostedFlags(r.posted))
    ensures forall d | d in r.posted :: d.flag in r.tasks
  {
    hide Flags;
    assert forall d | d in r.posted :: d.flag in PostedFlags(r.posted);
  }

  lemma OtherTasksOf(p: Pool, tasks: map<Flag, Task>, flag: Flag, task: Task, ran: set<Flag>, serialized: bool)
    requires PoolInv(p, tasks, ran, serialized) && flag !in tasks
    ensures PoolInv(p, tasks[flag := task], ran, serialized)
  {
  }

  lemma Arrived(posted: seq<Done>, tasks: map<Flag, Task>, held: set<Flag>, flag: Flag, task: Task, now: set<Flag>)
    requires SerialOrder(posted, tasks, held) && held <= now <= held + {flag}
    requires forall f | f in tasks :: f < flag
    requires forall d | d in posted :: d.flag in tasks
    ensures SerialOrder(posted, tasks[flag := task], now)
  {
  }

  lemma SameFlags(r: Runner, t: Runner)
    requires OwnFlags(r)
    requires t.inFlight == r.inFlight && t.tasks == r.tasks && t.nextFlag == r.nextFlag
    requires t.cancelled == r.cancelled && forall f | f in t.ran :: f in r.ran || f in r.tasks
    ensures OwnFlags(t)
  {
  }

  lemma {:induction false} CancelKeeps(r: Runner, id: Id)
    requires RunnerInv(r) && id in r.inFlight
    ensures RunnerInv(Cancel(r, id))
  {
    hide PoolInv, Flags, PostedFlags, Placed, SerialOrder;
  }

  lemma {:induction false} StartKeeps(r: Runner, serialized: bool)
    requires RunnerInv(r) && CanStart(r, serialized)
    ensures RunnerInv(Start(r, serialized))
  {
    hide PoolInv, Flags, PostedFlags, Placed, SerialOrder, OwnFlags, Distinct, Capacity;
    Started(PoolOf(r, serialized), r.tasks, r.ran, serialized);
    var t := Start(r, serialized);
    assert OwnFlags(t) by { SameFlags(r, t); }
  }

  lemma {:induction false} LoadKeeps(r: Runner, serialized: bool, flag: Flag)
    requires RunnerInv(r) && flag in PoolOf(r, serialized).started
    ensures RunnerInv(Load(r, serialized, flag))
  {
    var t, p := Load(r, serialized, flag), PoolOf(r, serialized);
    hide PoolInv, PostedFlags, SerialOrder, OwnFlags, Distinct, Capacity;
    assert flag in Flags(p) && flag in r.tasks;
    assert flag !in Flags(PoolOf(r, !serialized));
    hide Flags;
    Loaded(p, r.tasks, r.ran, serialized, flag, t.ran);
    OthersLoaded(PoolOf(r, !serialized), r.tasks, r.ran, !serialized, flag, t.ran);
    SameFlags(r, t);
  }

  lemma {:induction false} ReturnKeeps(r: Runner, serialized: bool, flag: Flag, text: string)
    requires RunnerInv(r) && flag in PoolOf(r, serialized).calling
    ensures RunnerInv(Return(r, serialized, flag, text))
  {
    var t, p, d := Return(r, serialized, flag, text), PoolOf(r, serialized), Done(flag, Outcome(r, flag, text));
    hide PoolInv, PostedFlags, SerialOrder, OwnFlags, Distinct, Capacity;
    assert flag in Flags(p);
    assert flag !in PostedFlags(r.posted);
    PlacedMoves(r.tasks.Keys, Flags(r.general), Flags(r.serial), PostedFlags(r.posted), flag);
    hide Flags, Placed;
    StillDistinct(r.posted, d);
    PostedAppend(r.posted, d);
    Left(p, r.tasks, r.ran, serialized, flag);
    SameFlags(r, t);
    if serialized {
      OnlyWorker(p, r.tasks, r.ran, flag);
      Ended(r.posted, r.tasks, Flags(p), d);
    } else {
      NotSerial(p, r.tasks, r.ran, flag);
      EndedElsewhere(r.posted, r.tasks, Flags(r.serial), d);
    }
  }

  lemma StillDistinct(posted: seq<Done>, d: Done)
    requires Distinct(posted) && d.flag !in PostedFlags(posted)
    ensures Distinct(posted + [d])
  {
    assert forall i | 0 <= i < |posted| :: posted[i].flag in PostedFlags(posted);
  }

  lemma NotSerial(p: Pool, tasks: map<Flag, Task>, ran: set<Flag>, flag: Flag)
    requires PoolInv(p, tasks, ran, false) && flag in Flags(p)
    ensures flag in tasks && !tasks[flag].serial
  {
  }

  lemma EndedElsewhere(posted: seq<Done>, tasks: map<Flag, Task>, held: set<Flag>, d: Done)
    requires SerialOrder(posted, tasks, held) && !IsSerial(tasks, d)
    ensures SerialOrder(posted + [d], tasks, held)
  {
  }

  lemma Ended(posted: seq<Done>, tasks: map<Flag, Task>, held: set<Flag>, d: Done)
    requires SerialOrder(posted, tasks, held) && d.flag in held
    requires forall f | f in held && f != d.flag :: d.flag < f
    ensures SerialOrder(posted + [d], tasks, held - {d.flag})
  {
  }

  lemma {:induction false} TakeKeeps(r: Runner)
    requires RunnerInv(r) && r.posted != [] && r.posted[0].flag in r.tasks
    ensures RunnerInv(Take(r))
    ensures NextId(r) in r.inFlight && r.inFlight[NextId(r)] == r.posted[0].flag
  {
    var flag, t := r.posted[0].flag, Take(r);
    hide PoolInv, Flags, PostedFlags, SerialOrder, Capacity, OwnFlags, Placed, Distinct;
    TakeOwns(r);
    PostedFirst(r.posted);
    PlacedLeaves(r.tasks.Keys, Flags(r.general), Flags(r.serial), PostedFlags(r.posted), flag);
    assert t.tasks.Keys == r.tasks.Keys - {flag};
    OtherTasks(r.general, r.tasks, t.tasks, r.ran, false);
    OtherTasks(r.serial, r.tasks, t.tasks, r.ran, true);
    Taken(r.posted, r.tasks, t.tasks, Flags(r.serial));
  }

  lemma TakeOwns(r: Runner)
    requires OwnFlags(r) && r.posted != [] && r.posted[0].flag in r.tasks
    ensures OwnFlags(Take(r))
    ensures NextId(r) in r.inFlight && r.inFlight[NextId(r)] == r.posted[0].flag
  {
    var flag, id, t := r.posted[0].flag, NextId(r), Take(r);
    forall f | f in t.tasks ensures t.tasks[f].id in t.inFlight && t.inFlight[t.tasks[f].id] == f {
      assert r.inFlight[r.tasks[f].id] == f && r.inFlight[id] == flag;
    }
    forall i | i in t.inFlight ensures t.inFlight[i] in t.tasks && t.tasks[t.inFlight[i]].id == i {
      assert r.tasks[r.inFlight[i]].id == i && r.tasks[flag].id == id;
    }
  }

  lemma Taken(posted: seq<Done>, tasks: map<Flag, Task>, fewer: map<Flag, Task>, held: set<Flag>)
    requires posted != [] && SerialOrder(posted, tasks, held)
    requires forall f | f in fewer :: f in tasks && fewer[f] == tasks[f]
    ensures SerialOrder(posted[1..], fewer, held)
  {
    assert forall i | 0 <= i < |posted[1..]| :: posted[1..][i] == posted[i + 1];
  }
}
