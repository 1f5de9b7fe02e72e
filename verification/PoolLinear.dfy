/** Linearisation: the concurrent pool refines an atomic pool, a bag of warm
    handles and a map of live allocations, with the critical sections as
    linearisation points. Every finished call returned what the atomic pool
    answered at its linearisation point. */
module PoolLinear {
  import opened Options
  import opened Sums
  import opened PoolModel
  import opened PoolOwnership

  /** The atomic pool. */
  datatype Atomic = Atomic(bag: multiset<Handle>, live: map<Id, Allocation>)

  /** Its operations, with their results. */
  datatype Op =
    | Take(req: AllocRequest, h: Handle)
    | Miss
    | Adopt(req: AllocRequest, h: Handle)
    | Need(missing: int)
    | Restock(h: Handle)
    | Drop(id: Id, got: Option<Allocation>)
    | Clear(all: Atomic)
    | Find(id: Id, got: Option<Allocation>)
    | Size(warm: nat, active: nat)

  function Get(m: map<Id, Allocation>, id: Id): Option<Allocation> {
    if id in m then Some(m[id]) else None
  }

  /** The meaning of each operation on the atomic pool. A handle is only ever given
      out, or adopted, under an ID that is not live. */
  ghost predicate AtomicStep(c: Config, p: Atomic, op: Op, p': Atomic) {
    match op
    case Take(req, h) =>
      h in p.bag && h.id !in p.live && p' == Atomic(p.bag - multiset{h}, p.live[h.id := Allocation(h, req)])
    case Miss => |p.bag| == 0 && p' == p
    case Adopt(req, h) => h.id !in p.live && p' == p.(live := p.live[h.id := Allocation(h, req)])
    case Need(missing) => missing == c.poolSize - |p.bag| && p' == p
    case Restock(h) => h !in p.bag && h.id !in p.live && p' == p.(bag := p.bag + multiset{h})
    case Drop(id, got) => got == Get(p.live, id) && p' == p.(live := p.live - {id})
    case Clear(all) => all == p && p' == Atomic(multiset{}, map[])
    case Find(id, got) => got == Get(p.live, id) && p' == p
    case Size(warm, active) => warm == |p.bag| && active == |p.live| && p' == p
  }

  ghost function View(sh: Shared): Atomic { Atomic(multiset(sh.warm), sh.active) }

  /** The operation a critical section performs. */
  ghost function OpOf(c: Config, sh: Shared, th: Thread): Op
    requires Locks(th)
  {
    match th
    case AllocStart(req) => if |sh.warm| > 0 then Take(req, sh.warm[|sh.warm| - 1]) else Miss
    case AllocPublish(req, h) => Adopt(req, h)
    case ReplStart => Need(c.poolSize - |sh.warm|)
    case ReplPublish(_, h) => Restock(h)
    case RelStart(id) => Drop(id, Get(sh.active, id))
    case ShutStart => Clear(View(sh))
    case ExecStart(id) => Find(id, Get(sh.active, id))
    case StatusStart => Size(|sh.warm|, |sh.active|)
  }

  lemma TakeRefines(c: Config, sh: Shared, req: AllocRequest)
    requires |sh.warm| > 0 && sh.warm[|sh.warm| - 1].id !in sh.active
    ensures AtomicStep(c, View(sh), Take(req, sh.warm[|sh.warm| - 1]), View(Pop(sh, req)))
  {
    var h := sh.warm[|sh.warm| - 1];
    assert sh.warm == sh.warm[..|sh.warm| - 1] + [h];
    assert multiset(sh.warm) == multiset(sh.warm[..|sh.warm| - 1]) + multiset{h};
  }

  lemma RestockRefines(c: Config, s: State, t: nat)
    requires Inv(s) && t < |s.threads| && s.threads[t].ReplPublish?
    ensures var h := s.threads[t].h;
      AtomicStep(c, View(s.shared), Restock(h), View(s.shared.(warm := s.shared.warm + [h])))
  {
    var h := s.threads[t].h;
    SumAtLeast(s.threads, t, UnpublishedFn(h));
    HeldIsNotActive(s, h);
    assert Places(s, h) <= 1;
  }

  /** Forward simulation, one critical section. */
  lemma SectionRefines(c: Config, s: State, t: nat)
    requires Inv(s) && Enabled(s, Lock(t))
    ensures AtomicStep(c, View(s.shared), OpOf(c, s.shared, s.threads[t]), View(Apply(c, s, Lock(t)).shared))
  {
    var sh, th := s.shared, s.threads[t];
    LockReady(s, t);
    if th.AllocStart? && |sh.warm| > 0 {
      TakeRefines(c, sh, th.req);
    } else if th.ReplPublish? {
      RestockRefines(c, s, t);
    } else if th.RelStart? && th.id !in sh.active {
      assert sh.active - {th.id} == sh.active;
    }
  }

  /** Steps outside the lock are invisible to the atomic pool. */
  lemma OutsideStutters(c: Config, s: State, a: Action)
    requires Enabled(s, a) && !a.Lock?
    ensures Apply(c, s, a).shared == s.shared
  {
  }

  /** One entry of the linearisation: who, and what. */
  datatype Entry = Entry(t: nat, op: Op)

  ghost function Emits(c: Config, s: State, a: Action): seq<Entry>
    requires Enabled(s, a)
  {
    if a.Lock? then [Entry(a.t, OpOf(c, s.shared, s.threads[a.t]))] else []
  }

  /** The linearisation of a run. */
  ghost function Log(c: Config, s: State, acts: seq<Action>): seq<Entry>
    requires Runs(c, s, acts)
    decreases |acts|
  {
    if |acts| == 0 then [] else Emits(c, s, acts[0]) + Log(c, Apply(c, s, acts[0]), acts[1..])
  }

  /** `log` is a legal sequential history of the atomic pool from `p` to `q`. */
  ghost predicate History(c: Config, p: Atomic, log: seq<Entry>, q: Atomic)
    decreases |log|
  {
    if |log| == 0 then p == q
    else exists m :: AtomicStep(c, p, log[0].op, m) && History(c, m, log[1..], q)
  }

  lemma HistoryCons(c: Config, p: Atomic, e: Entry, m: Atomic, log: seq<Entry>, q: Atomic)
    requires AtomicStep(c, p, e.op, m) && History(c, m, log, q)
    ensures History(c, p, [e] + log, q)
  {
    assert ([e] + log)[1..] == log && ([e] + log)[0] == e;
  }

  lemma {:induction false} LogIsHistory(c: Config, s: State, acts: seq<Action>)
    requires Inv(s) && Runs(c, s, acts)
    ensures History(c, View(s.shared), Log(c, s, acts), View(Final(c, s, acts).shared))
    decreases |acts|
  {
    if |acts| > 0 {
      var s' := Apply(c, s, acts[0]);
      var rest := Log(c, s', acts[1..]);
      StepInv(c, s, acts[0]);
      LogIsHistory(c, s', acts[1..]);
      if acts[0].Lock? {
        SectionRefines(c, s, acts[0].t);
        HistoryCons(c, View(s.shared), Emits(c, s, acts[0])[0], View(s'.shared), rest, View(Final(c, s, acts).shared));
      } else {
        OutsideStutters(c, s, acts[0]);
        assert [] + rest == rest;
      }
    }
  }

  /** The operations of one thread, in order. */
  function Of(log: seq<Entry>, t: nat): seq<Op> {
    if |log| == 0 then [] else (if log[0].t == t then [log[0].op] else []) + Of(log[1..], t)
  }

  /** What a thread has done to the atomic pool so far, given where it is: nothing
      before its linearisation point, and from then on exactly the operation whose
      result it carries or has returned. A replenisher has restocked what it counted as
      missing, up to what it has still to do. */
  ghost predicate Accounts(th: Thread, ops: seq<Op>) {
    match th
    case AllocStart(_) => ops == []
    case AllocBoot(_) => ops == [Miss]
    case AllocPublish(_, _) => ops == [Miss]
    case AllocSpawn(h) => |ops| == 1 && ops[0].Take? && ops[0].h == h
    case AllocDone(got) =>
      match got {
        case None => ops == [Miss]
        case Some(id) =>
          || (|ops| == 1 && ops[0].Take? && ops[0].h.id == id)
          || (|ops| == 2 && ops[0] == Miss && ops[1].Adopt? && ops[1].h.id == id)
      }
    case RelStart(_) => ops == []
    case RelDestroy(id, h) =>
      |ops| == 1 && ops[0].Drop? && ops[0].id == id && ops[0].got.Some? && ops[0].got.value.handle == h
    case RelDone(id, found) => |ops| == 1 && ops[0].Drop? && ops[0].id == id && ops[0].got.Some? == found
    case ShutStart => ops == []
    case ShutDrain(_, _) => |ops| == 1 && ops[0].Clear?
    case ShutDone => |ops| == 1 && ops[0].Clear?
    case ExecStart(_) => ops == []
    case ExecRun(id, a) => ops == [Find(id, Some(a))]
    case ExecDone(id, used) => ops == [Find(id, used)]
    case StatusStart => ops == []
    case StatusDone(warm, active) => ops == [Size(warm, active)]
    case ReplStart => ops == []
    case ReplBoot(left) => Refills(ops) && left > 0 && |ops| - 1 + left == ops[0].missing
    case ReplPublish(left, _) => Refills(ops) && left > 0 && |ops| - 1 + left == ops[0].missing
    case ReplDone => Refills(ops) && (|ops| == 1 || |ops| - 1 <= ops[0].missing)
  }

  /** One count of what is missing, then one restock after the other. */
  ghost predicate Refills(ops: seq<Op>) {
    |ops| >= 1 && ops[0].Need? && forall i :: 1 <= i < |ops| ==> ops[i].Restock?
  }

  lemma {:induction false} OfAppend(a: seq<Entry>, b: seq<Entry>, t: nat)
    ensures Of(a + b, t) == Of(a, t) + Of(b, t)
  {
    if |a| == 0 {
      assert a + b == b;
    } else {
      var first := if a[0].t == t then [a[0].op] else [];
      assert (a + b)[1..] == a[1..] + b;
      OfAppend(a[1..], b, t);
      assert first + (Of(a[1..], t) + Of(b, t)) == (first + Of(a[1..], t)) + Of(b, t);
    }
  }

  /** A thread accounts for its entries; one that does not exist yet has none, so every
      linearisation point lies between the call and the return. */
  ghost predicate AccountsAt(s: State, t: nat, ops: seq<Op>) {
    if t < |s.threads| then Accounts(s.threads[t], ops) else ops == []
  }

  lemma SectionAccounts(c: Config, sh: Shared, th: Thread, ops: seq<Op>)
    requires Locks(th) && Accounts(th, ops)
    ensures Accounts(Section(c, sh, th).1, ops + [OpOf(c, sh, th)])
  {
  }

  lemma OutsideAccounts(c: Config, s: State, a: Action, t: nat, ops: seq<Op>)
    requires Enabled(s, a) && !a.Lock? && AccountsAt(s, t, ops)
    ensures AccountsAt(Apply(c, s, a), t, ops)
  {
  }

  /** How one action changes the account of one thread. */
  lemma StepAccounts(c: Config, s: State, a: Action, t: nat, ops: seq<Op>)
    requires Enabled(s, a) && AccountsAt(s, t, ops)
    ensures AccountsAt(Apply(c, s, a), t, ops + Of(Emits(c, s, a), t))
  {
    assert ops + [] == ops;
    if !a.Lock? {
      OutsideAccounts(c, s, a, t, ops);
    } else if a.t == t {
      SectionAccounts(c, s.shared, s.threads[t], ops);
    }
  }

  lemma {:induction false} RunAccounts(c: Config, s: State, acts: seq<Action>, t: nat, ops: seq<Op>)
    requires Runs(c, s, acts) && AccountsAt(s, t, ops)
    ensures AccountsAt(Final(c, s, acts), t, ops + Of(Log(c, s, acts), t))
    decreases |acts|
  {
    if |acts| == 0 {
      assert ops + [] == ops;
    } else {
      StepAccounts(c, s, acts[0], t, ops);
      RunAccounts(c, Apply(c, s, acts[0]), acts[1..], t, ops + Of(Emits(c, s, acts[0]), t));
      LogSplits(c, s, acts, t, ops);
    }
  }

  lemma LogSplits(c: Config, s: State, acts: seq<Action>, t: nat, ops: seq<Op>)
    requires Runs(c, s, acts) && |acts| > 0
    ensures ops + Of(Log(c, s, acts), t) ==
      (ops + Of(Emits(c, s, acts[0]), t)) + Of(Log(c, Apply(c, s, acts[0]), acts[1..]), t)
  {
    OfAppend(Emits(c, s, acts[0]), Log(c, Apply(c, s, acts[0]), acts[1..]), t);
  }

  /* ---------- what a Shutdown drains ---------- */

  function AtomicCount(p: Atomic, h: Handle): nat {
    p.bag[h] + ActiveCount(p.live, h)
  }

  /** How often the thread calls Destroy on the handle. */
  function DestroyedBy(acts: seq<Action>, t: nat, h: Handle): nat {
    if |acts| == 0 then 0 else (if acts[0] == Destroy(t, h) then 1 else 0) + DestroyedBy(acts[1..], t, h)
  }

  /** Of the handles in a Shutdown's Clear, the ones it has destroyed, `n` times `h`, and
      those it still holds are all. */
  ghost predicate Drains(th: Thread, ops: seq<Op>, n: nat, h: Handle) {
    && (th.ShutStart? ==> ops == [] && n == 0)
    && (th.ShutDrain? || th.ShutDone? ==>
          |ops| == 1 && ops[0].Clear? && n + Claimed(th, h) == AtomicCount(ops[0].all, h))
  }

  ghost predicate DrainsAt(s: State, t: nat, ops: seq<Op>, n: nat, h: Handle) {
    if t < |s.threads| then Drains(s.threads[t], ops, n, h) else ops == [] && n == 0
  }

  lemma SectionDrains(c: Config, sh: Shared, th: Thread, ops: seq<Op>, n: nat, h: Handle)
    requires Locks(th) && Keyed(sh.active) && Drains(th, ops, n, h)
    ensures Drains(Section(c, sh, th).1, ops + [OpOf(c, sh, th)], n, h)
  {
    if th.ShutStart? {
      assert [] + [OpOf(c, sh, th)] == [Clear(View(sh))];
    }
  }

  lemma DestroyDrains(th: Thread, d: Handle, ops: seq<Op>, n: nat, h: Handle)
    requires ThreadOk(th) && Destroys(th, d) && Drains(th, ops, n, h)
    ensures Drains(AfterDestroy(th, d), ops, n + if d == h then 1 else 0, h)
  {
    DestroyMovesOne(th, d, h);
  }

  lemma OtherDrains(c: Config, s: State, a: Action, t: nat, ops: seq<Op>, n: nat, h: Handle)
    requires Enabled(s, a) && (a.Lock? || a.Destroy? ==> a.t != t) && DrainsAt(s, t, ops, n, h)
    ensures DrainsAt(Apply(c, s, a), t, ops, n, h)
  {
  }

  lemma StepDrains(c: Config, s: State, a: Action, t: nat, ops: seq<Op>, n: nat, h: Handle)
    requires Inv(s) && Enabled(s, a) && DrainsAt(s, t, ops, n, h)
    ensures DrainsAt(Apply(c, s, a), t, ops + Of(Emits(c, s, a), t), n + if a == Destroy(t, h) then 1 else 0, h)
  {
    assert ops + [] == ops;
    if a.Lock? && a.t == t {
      SectionDrains(c, s.shared, s.threads[t], ops, n, h);
    } else if a.Destroy? && a.t == t {
      DestroyDrains(s.threads[t], a.h, ops, n, h);
    } else {
      OtherDrains(c, s, a, t, ops, n, h);
    }
  }

  lemma {:induction false} RunDrains(c: Config, s: State, acts: seq<Action>, t: nat, ops: seq<Op>, n: nat, h: Handle)
    requires Inv(s) && Runs(c, s, acts) && DrainsAt(s, t, ops, n, h)
    ensures DrainsAt(Final(c, s, acts), t, ops + Of(Log(c, s, acts), t), n + DestroyedBy(acts, t, h), h)
    decreases |acts|
  {
    if |acts| == 0 {
      assert ops + [] == ops;
    } else {
      var now, m := Of(Emits(c, s, acts[0]), t), if acts[0] == Destroy(t, h) then 1 else 0;
      StepDrains(c, s, acts[0], t, ops, n, h);
      StepInv(c, s, acts[0]);
      RunDrains(c, Apply(c, s, acts[0]), acts[1..], t, ops + now, n + m, h);
      LogSplits(c, s, acts, t, ops);
    }
  }

  /** A Shutdown destroys what its Clear returned: at any time, the handles it has
      destroyed and those it has still to destroy are exactly the bag and the live
      handles of the atomic pool at its linearisation point. */
  lemma ShutdownDrainsClear(c: Config, s0: State, acts: seq<Action>, t: nat, h: Handle)
    requires Init(c, s0) && Runs(c, s0, acts) && t < |Final(c, s0, acts).threads|
    requires Final(c, s0, acts).threads[t].ShutDrain? || Final(c, s0, acts).threads[t].ShutDone?
    ensures var ops := Of(Log(c, s0, acts), t);
      && |ops| == 1 && ops[0].Clear?
      && DestroyedBy(acts, t, h) + Claimed(Final(c, s0, acts).threads[t], h) == AtomicCount(ops[0].all, h)
  {
    InitInv(c, s0);
    RunDrains(c, s0, acts, t, [], 0, h);
    assert [] + Of(Log(c, s0, acts), t) == Of(Log(c, s0, acts), t);
  }

  lemma InitView(c: Config, s: State)
    requires Init(c, s)
    ensures View(s.shared) == Atomic(multiset(s.booted), map[])
  {
    forall h ensures multiset(s.shared.warm)[h] == multiset(s.booted)[h] {
      DistinctCount(s.shared.warm, h);
    }
  }

  /** Linearisability: the log of any run is a legal history of the atomic pool
      from the empty map and the initial bag to the final view, and every thread,
      finished or not, is accounted for by its own entries in that log. */
  lemma Linearizable(c: Config, s0: State, acts: seq<Action>)
    requires Init(c, s0) && Runs(c, s0, acts)
    ensures var s, log := Final(c, s0, acts), Log(c, s0, acts);
      && History(c, Atomic(multiset(s0.booted), map[]), log, View(s.shared))
      && (forall t :: 0 <= t < |s.threads| ==> Accounts(s.threads[t], Of(log, t)))
  {
    InitInv(c, s0);
    InitView(c, s0);
    LogIsHistory(c, s0, acts);
    forall t | 0 <= t < |Final(c, s0, acts).threads|
      ensures Accounts(Final(c, s0, acts).threads[t], Of(Log(c, s0, acts), t))
    {
      RunAccounts(c, s0, acts, t, []);
      assert [] + Of(Log(c, s0, acts), t) == Of(Log(c, s0, acts), t);
    }
  }

  /* ---------- no two Allocates return the same ID ---------- */

  /** The ID this thread has returned, or is bound to return, to its caller, or the
      handle of which it still holds unpublished. */
  function Ticket(th: Thread, id: Id): nat {
    match th
    case AllocSpawn(h) => if h.id == id then 1 else 0
    case AllocDone(got) => if got == Some(id) then 1 else 0
    case AllocPublish(_, h) => if h.id == id then 1 else 0
    case ReplPublish(_, h) => if h.id == id then 1 else 0
    case _ => 0
  }

  function TicketFn(id: Id): Thread -> nat { th => Ticket(th, id) }

  function Named(h: Handle, id: Id): nat { if h.id == id then 1 else 0 }

  function NamedFn(id: Id): Handle -> nat { h => Named(h, id) }

  /** IDs that were given out or may still be, in warm handles. */
  ghost function Tickets(s: State, id: Id): nat {
    Sum(s.threads, TicketFn(id)) + Sum(s.shared.warm, NamedFn(id))
  }

  ghost predicate OneTicket(s: State, id: Id) {
    Tickets(s, id) <= if exists h :: h in s.booted && h.id == id then 1 else 0
  }

  lemma SectionTickets(c: Config, sh: Shared, th: Thread, id: Id)
    requires Locks(th)
    ensures var (sh', th') := Section(c, sh, th);
      Ticket(th', id) + Sum(sh'.warm, NamedFn(id)) <= Ticket(th, id) + Sum(sh.warm, NamedFn(id))
  {
    if th.ReplPublish? {
      SumAppend(sh.warm, th.h, NamedFn(id));
    }
  }

  lemma LockTickets(c: Config, s: State, t: nat, id: Id)
    requires Enabled(s, Lock(t))
    ensures Tickets(Apply(c, s, Lock(t)), id) <= Tickets(s, id)
  {
    SectionTickets(c, s.shared, s.threads[t], id);
    SumUpdate(s.threads, t, Section(c, s.shared, s.threads[t]).1, TicketFn(id));
  }

  lemma SpawnTickets(c: Config, s: State, t: nat, id: Id)
    requires Enabled(s, Spawn(t))
    ensures Tickets(Apply(c, s, Spawn(t)), id) == Tickets(s, id)
  {
    var th := AllocDone(Some(s.threads[t].h.id));
    SumUpdate(s.threads, t, th, TicketFn(id));
    SumAppend(s.threads[t := th], ReplStart, TicketFn(id));
  }

  lemma MoveTickets(c: Config, s: State, a: Action, id: Id)
    requires Enabled(s, a) && (a.BootOk? || a.BootFail? || a.Destroy? || a.ExecReturn?)
    ensures Tickets(Apply(c, s, a), id) <= Tickets(s, id) + if a.BootOk? && a.h.id == id then 1 else 0
  {
    var th' := Apply(c, s, a).threads[a.t];
    assert Ticket(th', id) <= Ticket(s.threads[a.t], id) + if a.BootOk? && a.h.id == id then 1 else 0;
    SumUpdate(s.threads, a.t, th', TicketFn(id));
  }

  lemma StepTickets(c: Config, s: State, a: Action, id: Id)
    requires Enabled(s, a)
    ensures Tickets(Apply(c, s, a), id) <= Tickets(s, id) + if a.BootOk? && a.h.id == id then 1 else 0
  {
    match a
    case Invoke(call) => SumAppend(s.threads, Enter(c, call), TicketFn(id));
    case Lock(t) => LockTickets(c, s, t, id);
    case Spawn(t) => SpawnTickets(c, s, t, id);
    case _ => MoveTickets(c, s, a, id);
  }

  lemma {:induction false} RunTickets(c: Config, s: State, acts: seq<Action>, id: Id)
    requires Runs(c, s, acts) && OneTicket(s, id)
    ensures OneTicket(Final(c, s, acts), id)
    decreases |acts|
  {
    if |acts| > 0 {
      var s' := Apply(c, s, acts[0]);
      StepTickets(c, s, acts[0], id);
      assert acts[0].BootOk? ==> acts[0].h in s'.booted;
      assert s.booted <= s'.booted;
      RunTickets(c, s', acts[1..], id);
    }
  }

  lemma {:induction false} InitTickets(w: seq<Handle>, id: Id)
    requires forall i, j :: 0 <= i < j < |w| ==> w[i].id != w[j].id
    ensures Sum(w, NamedFn(id)) <= if exists i :: 0 <= i < |w| && w[i].id == id then 1 else 0
  {
    if |w| > 0 {
      var n := |w| - 1;
      InitTickets(w[..n], id);
      if w[n].id == id {
        assert !exists i :: 0 <= i < n && w[..n][i].id == id;
      } else if i :| 0 <= i < n && w[..n][i].id == id {
        assert w[i].id == id;
      }
    }
  }

  /** No two Allocates, however they interleave, ever return the same ID. */
  lemma AllocatedIdsDistinct(c: Config, s0: State, acts: seq<Action>, t: nat, u: nat)
    requires Init(c, s0) && Runs(c, s0, acts)
    requires t < u < |Final(c, s0, acts).threads|
    requires Final(c, s0, acts).threads[t].AllocDone? && Final(c, s0, acts).threads[t].got.Some?
    ensures Final(c, s0, acts).threads[u] != Final(c, s0, acts).threads[t]
  {
    var s := Final(c, s0, acts);
    var id := s.threads[t].got.value;
    InitTickets(s0.shared.warm, id);
    RunTickets(c, s0, acts, id);
    SumAtLeastTwo(s.threads, t, u, TicketFn(id));
  }
}
