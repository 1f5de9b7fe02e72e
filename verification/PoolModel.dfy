/** The sandbox pool as a concurrent step system.

    The pool shares a stack of warm handles and a map of active allocations
    under one mutex; the backend's Boot and Destroy run outside the lock. One
    step is therefore one critical section, or one backend call, of one thread.
    Threads are API calls (Allocate, Release, Shutdown, Execute, Status) and the
    replenishers that a warm Allocate spawns; there may be any number of them. */
module PoolModel {
  import opened Options

  type Id = string

  /** `serial` is the identity of the handle object, `id` the text of its ID(). */
  datatype Handle = Handle(serial: nat, id: Id)

  datatype AllocRequest = AllocRequest(
    memoryMB: int,
    vcpus: int,
    timeout: int,
    networkAccess: bool,
    controlPlaneAccess: bool,
    env: map<string, string>)

  datatype Allocation = Allocation(handle: Handle, req: AllocRequest)

  datatype Config = Config(
    poolSize: int,
    defaultMemoryMB: int,
    defaultVCPUs: int,
    defaultTimeout: int)

  /** The request an Allocate works with: zero fields take the pool's defaults. */
  function Effective(c: Config, req: AllocRequest): AllocRequest {
    req.(timeout := if req.timeout == 0 then c.defaultTimeout else req.timeout,
         memoryMB := if req.memoryMB == 0 then c.defaultMemoryMB else req.memoryMB,
         vcpus := if req.vcpus == 0 then c.defaultVCPUs else req.vcpus)
  }

  /** What a caller asked for, and what an allocation holds: a field that was given is
      kept, a zero timeout, memory or CPU count is the pool's default, and the rest is as
      asked. */
  predicate Defaulted(c: Config, asked: AllocRequest, held: AllocRequest) {
    && (asked.timeout != 0 ==> held.timeout == asked.timeout)
    && (asked.timeout == 0 ==> held.timeout == c.defaultTimeout)
    && (asked.memoryMB != 0 ==> held.memoryMB == asked.memoryMB)
    && (asked.memoryMB == 0 ==> held.memoryMB == c.defaultMemoryMB)
    && (asked.vcpus != 0 ==> held.vcpus == asked.vcpus)
    && (asked.vcpus == 0 ==> held.vcpus == c.defaultVCPUs)
    && held.networkAccess == asked.networkAccess
    && held.controlPlaneAccess == asked.controlPlaneAccess
    && held.env == asked.env
  }

  /** How many iterations `range PoolSize` makes. */
  function Target(c: Config): nat {
    if c.poolSize < 0 then 0 else c.poolSize
  }

  /** What the mutex protects. */
  datatype Shared = Shared(warm: seq<Handle>, active: map<Id, Allocation>)

  /** A thread: its program counter and its locals. */
  datatype Thread =
    | AllocStart(req: AllocRequest)
    | AllocBoot(req: AllocRequest)
    | AllocPublish(req: AllocRequest, h: Handle)
    | AllocSpawn(h: Handle)
    | AllocDone(got: Option<Id>)
    | ReplStart
    | ReplBoot(left: nat)
    | ReplPublish(left: nat, h: Handle)
    | ReplDone
    | RelStart(id: Id)
    | RelDestroy(id: Id, h: Handle)
    | RelDone(id: Id, found: bool)
    | ShutStart
    | ShutDrain(active: map<Id, Allocation>, warm: seq<Handle>)
    | ShutDone
    | ExecStart(id: Id)
    | ExecRun(id: Id, a: Allocation)
    | ExecDone(id: Id, used: Option<Allocation>)
    | StatusStart
    | StatusDone(warmSize: nat, activeCount: nat)

  datatype Call =
    | Allocate(req: AllocRequest)
    | Release(id: Id)
    | Shutdown
    | Execute(id: Id)
    | Status

  datatype Action =
    | Invoke(call: Call)
    | Lock(t: nat)
    | BootOk(t: nat, h: Handle)
    | BootFail(t: nat)
    | Spawn(t: nat)
    | Destroy(t: nat, h: Handle)
    | ExecReturn(t: nat)

  /** The pool, its threads, and history: the handles ever booted, the calls of
      Destroy in order, the Boot attempts, and how many Allocates found the warm
      pool filled (`hits`) or empty (`misses`). */
  datatype State = State(
    shared: Shared,
    threads: seq<Thread>,
    booted: set<Handle>,
    destroyed: seq<Handle>,
    attempts: nat,
    hits: nat,
    misses: nat)

  function Enter(c: Config, call: Call): Thread {
    match call
    case Allocate(req) => AllocStart(Effective(c, req))
    case Release(id) => RelStart(id)
    case Shutdown => ShutStart
    case Execute(id) => ExecStart(id)
    case Status => StatusStart
  }

  /** A replenisher with `needed` iterations to go. */
  function Refilling(needed: int): Thread {
    if needed <= 0 then ReplDone else ReplBoot(needed)
  }

  /** A Shutdown with these handles still to destroy: the map first, in any
      order, then the warm handles front to back. */
  function Draining(active: map<Id, Allocation>, warm: seq<Handle>): Thread {
    if active == map[] && warm == [] then ShutDone else ShutDrain(active, warm)
  }

  /** Is the thread about to take the mutex? */
  predicate Locks(th: Thread) {
    th.AllocStart? || th.AllocPublish? || th.ReplStart? || th.ReplPublish? ||
    th.RelStart? || th.ShutStart? || th.ExecStart? || th.StatusStart?
  }

  function Pop(sh: Shared, req: AllocRequest): Shared
    requires |sh.warm| > 0
  {
    var h := sh.warm[|sh.warm| - 1];
    Shared(sh.warm[..|sh.warm| - 1], sh.active[h.id := Allocation(h, req)])
  }

  /** One critical section: the new shared state and where the thread goes on. */
  function Section(c: Config, sh: Shared, th: Thread): (Shared, Thread)
    requires Locks(th)
  {
    match th
    case AllocStart(req) =>
      if |sh.warm| > 0 then (Pop(sh, req), AllocSpawn(sh.warm[|sh.warm| - 1]))
      else (sh, AllocBoot(req))
    case AllocPublish(req, h) =>
      (sh.(active := sh.active[h.id := Allocation(h, req)]), AllocDone(Some(h.id)))
    case ReplStart =>
      (sh, Refilling(c.poolSize - |sh.warm|))
    case ReplPublish(left, h) =>
      (sh.(warm := sh.warm + [h]), Refilling(left - 1))
    case RelStart(id) =>
      if id in sh.active then (sh.(active := sh.active - {id}), RelDestroy(id, sh.active[id].handle))
      else (sh, RelDone(id, false))
    case ShutStart =>
      (Shared([], map[]), Draining(sh.active, sh.warm))
    case ExecStart(id) =>
      (sh, if id in sh.active then ExecRun(id, sh.active[id]) else ExecDone(id, None))
    case StatusStart =>
      (sh, StatusDone(|sh.warm|, |sh.active|))
  }

  /** The hypothesis on Boot: the handle is a new object with a new ID. */
  ghost predicate Fresh(s: State, h: Handle) {
    forall b :: b in s.booted ==> b.serial != h.serial && b.id != h.id
  }

  predicate Boots(th: Thread) {
    th.AllocBoot? || th.ReplBoot?
  }

  function AfterBoot(th: Thread, h: Handle): Thread
    requires Boots(th)
  {
    match th
    case AllocBoot(req) => AllocPublish(req, h)
    case ReplBoot(left) => ReplPublish(left, h)
  }

  function AfterFail(th: Thread): Thread
    requires Boots(th)
  {
    if th.AllocBoot? then AllocDone(None) else ReplDone
  }

  /** May the thread call Destroy on this handle next? */
  predicate Destroys(th: Thread, h: Handle) {
    match th
    case RelDestroy(_, k) => k == h
    case ShutDrain(active, warm) =>
      if active != map[] then h.id in active && active[h.id].handle == h
      else |warm| > 0 && warm[0] == h
    case _ => false
  }

  function AfterDestroy(th: Thread, h: Handle): Thread
    requires Destroys(th, h)
  {
    match th
    case RelDestroy(id, _) => RelDone(id, true)
    case ShutDrain(active, warm) =>
      if active != map[] then Draining(active - {h.id}, warm) else Draining(active, warm[1..])
  }

  ghost predicate Enabled(s: State, a: Action) {
    match a
    case Invoke(_) => true
    case Lock(t) => t < |s.threads| && Locks(s.threads[t])
    case BootOk(t, h) => t < |s.threads| && Boots(s.threads[t]) && Fresh(s, h)
    case BootFail(t) => t < |s.threads| && Boots(s.threads[t])
    case Spawn(t) => t < |s.threads| && s.threads[t].AllocSpawn?
    case Destroy(t, h) => t < |s.threads| && Destroys(s.threads[t], h)
    case ExecReturn(t) => t < |s.threads| && s.threads[t].ExecRun?
  }

  ghost function Apply(c: Config, s: State, a: Action): State
    requires Enabled(s, a)
  {
    match a
    case Invoke(call) =>
      s.(threads := s.threads + [Enter(c, call)])
    case Lock(t) =>
      var (sh, th) := Section(c, s.shared, s.threads[t]);
      s.(shared := sh, threads := s.threads[t := th],
         hits := s.hits + (if th.AllocSpawn? then 1 else 0),
         misses := s.misses + (if th.AllocBoot? then 1 else 0))
    case BootOk(t, h) =>
      s.(threads := s.threads[t := AfterBoot(s.threads[t], h)],
         booted := s.booted + {h}, attempts := s.attempts + 1)
    case BootFail(t) =>
      s.(threads := s.threads[t := AfterFail(s.threads[t])], attempts := s.attempts + 1)
    case Spawn(t) =>
      s.(threads := s.threads[t := AllocDone(Some(s.threads[t].h.id))] + [ReplStart])
    case Destroy(t, h) =>
      s.(threads := s.threads[t := AfterDestroy(s.threads[t], h)], destroyed := s.destroyed + [h])
    case ExecReturn(t) =>
      s.(threads := s.threads[t := ExecDone(s.threads[t].id, Some(s.threads[t].a))])
  }

  /** What New leaves behind: of Target boots some succeeded, each with a fresh
      handle, and nothing else has happened. */
  ghost predicate Init(c: Config, s: State) {
    && |s.shared.warm| <= Target(c)
    && (forall i, j :: 0 <= i < j < |s.shared.warm| ==>
          s.shared.warm[i].serial != s.shared.warm[j].serial && s.shared.warm[i].id != s.shared.warm[j].id)
    && s == State(Shared(s.shared.warm, map[]), [], set h | h in s.shared.warm, [], Target(c), 0, 0)
  }

  ghost predicate Runs(c: Config, s: State, acts: seq<Action>)
    decreases |acts|
  {
    |acts| == 0 || (Enabled(s, acts[0]) && Runs(c, Apply(c, s, acts[0]), acts[1..]))
  }

  ghost function Final(c: Config, s: State, acts: seq<Action>): State
    requires Runs(c, s, acts)
    decreases |acts|
  {
    if |acts| == 0 then s else Final(c, Apply(c, s, acts[0]), acts[1..])
  }

  lemma {:induction false} RunsAppend(c: Config, s: State, a: seq<Action>, b: seq<Action>)
    requires Runs(c, s, a) && Runs(c, Final(c, s, a), b)
    ensures Runs(c, s, a + b) && Final(c, s, a + b) == Final(c, Final(c, s, a), b)
    decreases |a|
  {
    if |a| == 0 {
      assert a + b == b;
    } else {
      assert (a + b)[1..] == a[1..] + b;
      RunsAppend(c, Apply(c, s, a[0]), a[1..], b);
    }
  }
}
