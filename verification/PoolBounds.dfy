/** How far the warm pool can overshoot, when it is refilled, and how many Boots
    that takes. */
module PoolBounds {
  import opened Options
  import opened Sums
  import opened PoolModel

  /* ---------- the quantities ---------- */

  /** Handles this replenisher will still add, counting one booted but unpublished. */
  function Left(th: Thread): nat {
    match th
    case ReplBoot(left) => left
    case ReplPublish(left, _) => left
    case _ => 0
  }

  /** A replenisher between its snapshot and its exit. */
  function Snapped(th: Thread): nat {
    if th.ReplBoot? || th.ReplPublish? then 1 else 0
  }

  /** A replenisher that has not read the pool yet, spawned or about to be. */
  function Unsnapped(th: Thread): nat {
    if th.AllocSpawn? || th.ReplStart? then 1 else 0
  }

  ghost function Pending(s: State): nat { Sum(s.threads, Left) }

  ghost function ActiveReplenishers(s: State): nat { Sum(s.threads, Snapped) }

  ghost function Waiting(s: State): nat { Sum(s.threads, Unsnapped) }

  function Max(a: nat, b: nat): nat { if a < b then b else a }

  /** The most replenishers ever between snapshot and exit during the run. */
  ghost function Peak(c: Config, s: State, acts: seq<Action>): nat
    requires Runs(c, s, acts)
    decreases |acts|
  {
    if |acts| == 0 then ActiveReplenishers(s)
    else Max(ActiveReplenishers(s), Peak(c, Apply(c, s, acts[0]), acts[1..]))
  }

  /** No replenisher has more than Target iterations to go, nor none. */
  ghost predicate InRange(c: Config, s: State) {
    forall t :: 0 <= t < |s.threads| ==>
      Left(s.threads[t]) <= Target(c) * Snapped(s.threads[t]) && Snapped(s.threads[t]) <= Left(s.threads[t])
  }

  /* ---------- how a step changes them ---------- */

  lemma Replaced(ts: seq<Thread>, t: nat, th: Thread)
    requires t < |ts|
    ensures Sum(ts[t := th], Left) + Left(ts[t]) == Sum(ts, Left) + Left(th)
    ensures Sum(ts[t := th], Snapped) + Snapped(ts[t]) == Sum(ts, Snapped) + Snapped(th)
    ensures Sum(ts[t := th], Unsnapped) + Unsnapped(ts[t]) == Sum(ts, Unsnapped) + Unsnapped(th)
  {
    SumUpdate(ts, t, th, Left);
    SumUpdate(ts, t, th, Snapped);
    SumUpdate(ts, t, th, Unsnapped);
  }

  lemma Added(ts: seq<Thread>, th: Thread)
    ensures Sum(ts + [th], Left) == Sum(ts, Left) + Left(th)
    ensures Sum(ts + [th], Snapped) == Sum(ts, Snapped) + Snapped(th)
    ensures Sum(ts + [th], Unsnapped) == Sum(ts, Unsnapped) + Unsnapped(th)
  {
    SumAppend(ts, th, Left);
    SumAppend(ts, th, Snapped);
    SumAppend(ts, th, Unsnapped);
  }

  /** The exact effect of a critical section. */
  lemma LockEffect(c: Config, s: State, t: nat)
    requires Enabled(s, Lock(t))
    ensures var s' := Apply(c, s, Lock(t));
      var th, w := s.threads[t], |s.shared.warm|;
      && (th.ReplStart? ==>
            && |s'.shared.warm| == w && Waiting(s') + 1 == Waiting(s)
            && (if c.poolSize > w then
                  Pending(s') == Pending(s) + Target(c) - w && ActiveReplenishers(s') == ActiveReplenishers(s) + 1
                else Pending(s') == Pending(s) && ActiveReplenishers(s') == ActiveReplenishers(s)))
      && (th.ReplPublish? && th.left >= 1 ==>
            && |s'.shared.warm| == w + 1 && Pending(s') + 1 == Pending(s)
            && Waiting(s') == Waiting(s) && ActiveReplenishers(s') <= ActiveReplenishers(s))
      && (th.AllocStart? && w > 0 ==>
            && |s'.shared.warm| == w - 1 && Pending(s') == Pending(s)
            && Waiting(s') == Waiting(s) + 1 && ActiveReplenishers(s') == ActiveReplenishers(s))
      && (!th.ReplStart? && !th.ReplPublish? && !(th.AllocStart? && w > 0) ==>
            && |s'.shared.warm| <= w && Pending(s') == Pending(s)
            && (th.ShutStart? || s'.shared.warm == s.shared.warm)
            && Waiting(s') == Waiting(s) && ActiveReplenishers(s') == ActiveReplenishers(s))
  {
    Replaced(s.threads, t, Section(c, s.shared, s.threads[t]).1);
  }

  lemma InvokeEffect(c: Config, s: State, call: Call)
    ensures var s' := Apply(c, s, Invoke(call));
      Pending(s') == Pending(s) && ActiveReplenishers(s') == ActiveReplenishers(s) && Waiting(s') == Waiting(s)
  {
    Added(s.threads, Enter(c, call));
  }

  lemma SpawnEffect(c: Config, s: State, t: nat)
    requires Enabled(s, Spawn(t))
    ensures var s' := Apply(c, s, Spawn(t));
      Pending(s') == Pending(s) && ActiveReplenishers(s') == ActiveReplenishers(s) && Waiting(s') == Waiting(s)
  {
    var th := AllocDone(Some(s.threads[t].h.id));
    Replaced(s.threads, t, th);
    Added(s.threads[t := th], ReplStart);
  }

  lemma BootEffect(c: Config, s: State, t: nat, h: Handle)
    requires Enabled(s, BootOk(t, h))
    ensures var s' := Apply(c, s, BootOk(t, h));
      Pending(s') == Pending(s) && ActiveReplenishers(s') == ActiveReplenishers(s) && Waiting(s') == Waiting(s)
  {
    Replaced(s.threads, t, AfterBoot(s.threads[t], h));
  }

  lemma FailEffect(c: Config, s: State, t: nat)
    requires Enabled(s, BootFail(t))
    ensures var s' := Apply(c, s, BootFail(t));
      && Pending(s') + Left(s.threads[t]) == Pending(s)
      && ActiveReplenishers(s') + Snapped(s.threads[t]) == ActiveReplenishers(s)
      && Waiting(s') == Waiting(s)
  {
    Replaced(s.threads, t, AfterFail(s.threads[t]));
  }

  lemma DestroyEffect(c: Config, s: State, t: nat, h: Handle)
    requires Enabled(s, Destroy(t, h))
    ensures var s' := Apply(c, s, Destroy(t, h));
      Pending(s') == Pending(s) && ActiveReplenishers(s') == ActiveReplenishers(s) && Waiting(s') == Waiting(s)
  {
    Replaced(s.threads, t, AfterDestroy(s.threads[t], h));
  }

  /** Steps outside the lock leave the warm pool alone and add no pending work. */
  lemma OutsideEffect(c: Config, s: State, a: Action)
    requires Enabled(s, a) && !a.Lock?
    ensures var s' := Apply(c, s, a);
      && s'.shared == s.shared
      && Pending(s') <= Pending(s) && ActiveReplenishers(s') <= ActiveReplenishers(s)
      && Waiting(s') == Waiting(s)
      && (!(a.BootFail? && s.threads[a.t].ReplBoot?) ==>
            Pending(s') == Pending(s) && ActiveReplenishers(s') == ActiveReplenishers(s))
  {
    match a
    case Invoke(call) => InvokeEffect(c, s, call);
    case Spawn(t) => SpawnEffect(c, s, t);
    case BootOk(t, h) => BootEffect(c, s, t, h);
    case BootFail(t) => FailEffect(c, s, t);
    case Destroy(t, h) => DestroyEffect(c, s, t, h);
    case ExecReturn(t) => Replaced(s.threads, t, Apply(c, s, a).threads[t]);
  }

  lemma StepInRange(c: Config, s: State, a: Action)
    requires InRange(c, s) && Enabled(s, a)
    ensures InRange(c, Apply(c, s, a))
  {
    var s' := Apply(c, s, a);
    if a.Lock? {
      assert Left(s.threads[a.t]) <= Target(c) * Snapped(s.threads[a.t]);
    }
  }

  lemma {:induction false} RunInRange(c: Config, s: State, acts: seq<Action>)
    requires InRange(c, s) && Runs(c, s, acts)
    ensures InRange(c, Final(c, s, acts))
    decreases |acts|
  {
    if |acts| > 0 {
      StepInRange(c, s, acts[0]);
      RunInRange(c, Apply(c, s, acts[0]), acts[1..]);
    }
  }

  lemma PendingPerReplenisher(c: Config, s: State)
    requires InRange(c, s)
    ensures ActiveReplenishers(s) <= Pending(s) <= Target(c) * ActiveReplenishers(s)
  {
    SumScaled(s.threads, Left, Snapped, Target(c));
    SumScaled(s.threads, Snapped, Left, 1);
  }

  /* ---------- the overshoot bound ---------- */

  lemma MulMono(n: nat, a: nat, b: nat)
    requires a <= b
    ensures n * a <= n * b
  {
  }

  lemma MulSucc(n: nat, k: nat)
    ensures n * (k + 1) == n * k + n
  {
  }

  lemma StepOvershoot(c: Config, s: State, a: Action, k: nat)
    requires InRange(c, s) && Enabled(s, a)
    requires |s.shared.warm| + Pending(s) <= Target(c) * k
    requires ActiveReplenishers(Apply(c, s, a)) <= k
    ensures var s' := Apply(c, s, a); |s'.shared.warm| + Pending(s') <= Target(c) * k
  {
    if a.Lock? {
      LockEffect(c, s, a.t);
      assert Snapped(s.threads[a.t]) <= Left(s.threads[a.t]);
      if s.threads[a.t].ReplStart? && c.poolSize > |s.shared.warm| {
        PendingPerReplenisher(c, s);
        MulMono(Target(c), ActiveReplenishers(s) + 1, k);
        MulSucc(Target(c), ActiveReplenishers(s));
      }
    } else {
      OutsideEffect(c, s, a);
    }
  }

  lemma {:induction false} RunOvershoot(c: Config, s: State, acts: seq<Action>, k: nat)
    requires InRange(c, s) && Runs(c, s, acts)
    requires |s.shared.warm| + Pending(s) <= Target(c) * k
    requires Peak(c, s, acts) <= k
    ensures var s' := Final(c, s, acts); |s'.shared.warm| + Pending(s') <= Target(c) * k
    decreases |acts|
  {
    if |acts| > 0 {
      StepOvershoot(c, s, acts[0], k);
      StepInRange(c, s, acts[0]);
      RunOvershoot(c, Apply(c, s, acts[0]), acts[1..], k);
    }
  }

  /** The overshoot bound: whatever the interleaving, warm handles and handles still
      to come together never exceed PoolSize times the peak number of
      simultaneously active replenishers (or PoolSize, if there were none). */
  lemma OvershootBound(c: Config, s0: State, acts: seq<Action>)
    requires Init(c, s0) && Runs(c, s0, acts)
    ensures var s := Final(c, s0, acts);
      |s.shared.warm| + Pending(s) <= Target(c) * Max(1, Peak(c, s0, acts))
  {
    MulMono(Target(c), 1, Max(1, Peak(c, s0, acts)));
    RunOvershoot(c, s0, acts, Max(1, Peak(c, s0, acts)));
  }

  /* ---------- PoolSize 0 and 1 never overshoot ---------- */

  lemma {:induction false} RunSmallPool(c: Config, s: State, acts: seq<Action>)
    requires Target(c) <= 1 && InRange(c, s) && Runs(c, s, acts)
    requires |s.shared.warm| + Pending(s) + Target(c) * Waiting(s) <= Target(c)
    ensures var s' := Final(c, s, acts); |s'.shared.warm| + Pending(s') + Target(c) * Waiting(s') <= Target(c)
    decreases |acts|
  {
    if |acts| > 0 {
      var a := acts[0];
      if a.Lock? {
        LockEffect(c, s, a.t);
        assert Snapped(s.threads[a.t]) <= Left(s.threads[a.t]);
      } else {
        OutsideEffect(c, s, a);
      }
      StepInRange(c, s, a);
      RunSmallPool(c, Apply(c, s, a), acts[1..]);
    }
  }

  /* ---------- refill completeness ---------- */

  /** No Boot of a replenisher fails and no Shutdown takes the pool. */
  ghost predicate Steady(c: Config, s: State, acts: seq<Action>)
    requires Runs(c, s, acts)
    decreases |acts|
  {
    |acts| > 0 ==>
      && !(acts[0].BootFail? && s.threads[acts[0].t].ReplBoot?)
      && !(acts[0].Lock? && s.threads[acts[0].t].ShutStart?)
      && Steady(c, Apply(c, s, acts[0]), acts[1..])
  }

  /** Somebody will see the pool as it is now, or has already promised enough. */
  ghost predicate WillRefill(c: Config, s: State) {
    || |s.shared.warm| >= Target(c)
    || (exists t :: 0 <= t < |s.threads| && Unsnapped(s.threads[t]) > 0)
    || (exists t :: 0 <= t < |s.threads| &&
          Snapped(s.threads[t]) > 0 && |s.shared.warm| + Left(s.threads[t]) >= Target(c))
  }

  lemma LockRefills(c: Config, s: State, t: nat)
    requires WillRefill(c, s) && InRange(c, s) && Enabled(s, Lock(t)) && !s.threads[t].ShutStart?
    ensures WillRefill(c, Apply(c, s, Lock(t)))
  {
    var s' := Apply(c, s, Lock(t));
    var th, th' := s.threads[t], s'.threads[t];
    assert Snapped(th) <= Left(th);
    if th.AllocStart? && |s.shared.warm| > 0 {
      assert Unsnapped(th') > 0;
    } else if th.ReplStart? {
      assert |s'.shared.warm| + Left(th') >= Target(c);
    } else if |s.shared.warm| < Target(c) {
      if u :| 0 <= u < |s.threads| && Unsnapped(s.threads[u]) > 0 {
        assert Unsnapped(s'.threads[u]) > 0;
      } else {
        var u :| 0 <= u < |s.threads| && Snapped(s.threads[u]) > 0 && |s.shared.warm| + Left(s.threads[u]) >= Target(c);
        if u == t {
          assert |s'.shared.warm| + Left(th') == |s.shared.warm| + Left(th);
        } else {
          assert s'.threads[u] == s.threads[u];
        }
      }
    }
  }

  lemma OutsideRefills(c: Config, s: State, a: Action)
    requires WillRefill(c, s) && Enabled(s, a) && !a.Lock? && !(a.BootFail? && s.threads[a.t].ReplBoot?)
    ensures WillRefill(c, Apply(c, s, a))
  {
    var s' := Apply(c, s, a);
    if |s.shared.warm| < Target(c) {
      if u :| 0 <= u < |s.threads| && Unsnapped(s.threads[u]) > 0 {
        if a.Spawn? {
          assert s'.threads[|s.threads|] == ReplStart;
          assert Unsnapped(s'.threads[|s.threads|]) > 0;
        } else {
          assert Unsnapped(s'.threads[u]) > 0;
        }
      } else {
        var u :| 0 <= u < |s.threads| && Snapped(s.threads[u]) > 0 && |s.shared.warm| + Left(s.threads[u]) >= Target(c);
        assert Snapped(s'.threads[u]) > 0 && Left(s'.threads[u]) == Left(s.threads[u]);
      }
    }
  }

  lemma {:induction false} RunRefills(c: Config, s: State, acts: seq<Action>)
    requires WillRefill(c, s) && InRange(c, s) && Runs(c, s, acts) && Steady(c, s, acts)
    ensures WillRefill(c, Final(c, s, acts))
    decreases |acts|
  {
    if |acts| > 0 {
      if acts[0].Lock? { LockRefills(c, s, acts[0].t); } else { OutsideRefills(c, s, acts[0]); }
      StepInRange(c, s, acts[0]);
      RunRefills(c, Apply(c, s, acts[0]), acts[1..]);
    }
  }

  /** No replenisher is running, waiting or about to be spawned. */
  ghost predicate ReplenishersDone(s: State) {
    forall t :: 0 <= t < |s.threads| ==> Unsnapped(s.threads[t]) == 0 && Snapped(s.threads[t]) == 0
  }

  /** Refill completeness: if every warm Boot succeeded and no Shutdown ran, then
      whenever all replenishers have finished the pool holds at least PoolSize warm
      handles, and exactly PoolSize if they were serialised. */
  lemma RefillComplete(c: Config, s0: State, acts: seq<Action>)
    requires Init(c, s0) && |s0.shared.warm| == Target(c)
    requires Runs(c, s0, acts) && Steady(c, s0, acts) && ReplenishersDone(Final(c, s0, acts))
    ensures var s := Final(c, s0, acts);
      && |s.shared.warm| >= Target(c)
      && (Peak(c, s0, acts) <= 1 ==> |s.shared.warm| == Target(c))
  {
    RunRefills(c, s0, acts);
    OvershootBound(c, s0, acts);
  }

  /* ---------- the Boot budget ---------- */

  /** Boots a thread may still attempt. */
  function Owes(c: Config, th: Thread): nat {
    match th
    case AllocBoot(_) => 1
    case AllocSpawn(_) => Target(c)
    case ReplStart => Target(c)
    case ReplBoot(left) => left
    case ReplPublish(left, _) => if left == 0 then 0 else left - 1
    case _ => 0
  }

  function OwesFn(c: Config): Thread -> nat { th => Owes(c, th) }

  ghost predicate WithinBudget(c: Config, s: State) {
    s.attempts + Sum(s.threads, OwesFn(c)) <= Target(c) + s.misses + Target(c) * s.hits
  }

  /** What a critical section adds to the boots its thread may still attempt. */
  lemma SectionOwes(c: Config, sh: Shared, th: Thread)
    requires Locks(th) && (th.ReplPublish? ==> th.left >= 1)
    ensures var th' := Section(c, sh, th).1;
      Owes(c, th') <= Owes(c, th) + (if th'.AllocBoot? then 1 else 0) + (if th'.AllocSpawn? then Target(c) else 0)
  {
  }

  lemma LockOwes(c: Config, s: State, t: nat)
    requires InRange(c, s) && Enabled(s, Lock(t))
    ensures var s' := Apply(c, s, Lock(t));
      && s'.attempts == s.attempts
      && (s'.hits == s.hits + 1 ==>
            s'.misses == s.misses && Sum(s'.threads, OwesFn(c)) <= Sum(s.threads, OwesFn(c)) + Target(c))
      && (s'.hits != s.hits + 1 ==>
            s'.hits == s.hits && Sum(s'.threads, OwesFn(c)) + s.misses <= Sum(s.threads, OwesFn(c)) + s'.misses)
  {
    assert Snapped(s.threads[t]) <= Left(s.threads[t]);
    SectionOwes(c, s.shared, s.threads[t]);
    SumUpdate(s.threads, t, Section(c, s.shared, s.threads[t]).1, OwesFn(c));
  }

  lemma LockBudget(c: Config, s: State, t: nat)
    requires WithinBudget(c, s) && InRange(c, s) && Enabled(s, Lock(t))
    ensures WithinBudget(c, Apply(c, s, Lock(t)))
  {
    LockOwes(c, s, t);
    MulSucc(Target(c), s.hits);
  }

  /** Outside the lock only an attempted Boot counts, and it was owed. */
  lemma MoveOwes(c: Config, s: State, a: Action)
    requires InRange(c, s) && Enabled(s, a) && (a.BootOk? || a.BootFail? || a.Destroy? || a.ExecReturn?)
    ensures var s' := Apply(c, s, a);
      && s'.threads == s.threads[a.t := s'.threads[a.t]] && s'.hits == s.hits && s'.misses == s.misses
      && s'.attempts + Owes(c, s'.threads[a.t]) <= s.attempts + Owes(c, s.threads[a.t])
  {
    assert Snapped(s.threads[a.t]) <= Left(s.threads[a.t]);
  }

  lemma SpawnBudget(c: Config, s: State, t: nat)
    requires WithinBudget(c, s) && Enabled(s, Spawn(t))
    ensures WithinBudget(c, Apply(c, s, Spawn(t)))
  {
    var th := AllocDone(Some(s.threads[t].h.id));
    SumUpdate(s.threads, t, th, OwesFn(c));
    SumAppend(s.threads[t := th], ReplStart, OwesFn(c));
  }

  lemma BudgetKept(c: Config, s: State, s': State)
    requires WithinBudget(c, s) && s'.hits == s.hits && s'.misses == s.misses
    requires s'.attempts + Sum(s'.threads, OwesFn(c)) <= s.attempts + Sum(s.threads, OwesFn(c))
    ensures WithinBudget(c, s')
  {
  }

  lemma InvokeBudget(c: Config, s: State, call: Call)
    requires WithinBudget(c, s)
    ensures WithinBudget(c, Apply(c, s, Invoke(call)))
  {
    SumAppend(s.threads, Enter(c, call), OwesFn(c));
    BudgetKept(c, s, Apply(c, s, Invoke(call)));
  }

  lemma MoveBudget(c: Config, s: State, a: Action)
    requires WithinBudget(c, s) && InRange(c, s) && Enabled(s, a)
    requires a.BootOk? || a.BootFail? || a.Destroy? || a.ExecReturn?
    ensures WithinBudget(c, Apply(c, s, a))
  {
    MoveOwes(c, s, a);
    SumUpdate(s.threads, a.t, Apply(c, s, a).threads[a.t], OwesFn(c));
    BudgetKept(c, s, Apply(c, s, a));
  }

  lemma StepBudget(c: Config, s: State, a: Action)
    requires WithinBudget(c, s) && InRange(c, s) && Enabled(s, a)
    ensures WithinBudget(c, Apply(c, s, a))
  {
    if a.Invoke? {
      InvokeBudget(c, s, a.call);
    } else if a.Lock? {
      LockBudget(c, s, a.t);
    } else if a.Spawn? {
      SpawnBudget(c, s, a.t);
    } else {
      MoveBudget(c, s, a);
    }
  }

  lemma {:induction false} RunBudget(c: Config, s: State, acts: seq<Action>)
    requires WithinBudget(c, s) && InRange(c, s) && Runs(c, s, acts)
    ensures WithinBudget(c, Final(c, s, acts))
    decreases |acts|
  {
    if |acts| > 0 {
      StepBudget(c, s, acts[0]);
      StepInRange(c, s, acts[0]);
      RunBudget(c, Apply(c, s, acts[0]), acts[1..]);
    }
  }

  /** The Boots and the calls of Allocate in a run. */
  function BootsIn(acts: seq<Action>): nat {
    if |acts| == 0 then 0 else (if acts[0].BootOk? || acts[0].BootFail? then 1 else 0) + BootsIn(acts[1..])
  }

  function AllocatesIn(acts: seq<Action>): nat {
    if |acts| == 0 then 0
    else (if acts[0].Invoke? && acts[0].call.Allocate? then 1 else 0) + AllocatesIn(acts[1..])
  }

  function AtStart(th: Thread): nat { if th.AllocStart? then 1 else 0 }

  lemma LockCounted(c: Config, s: State, t: nat)
    requires Enabled(s, Lock(t))
    ensures var s' := Apply(c, s, Lock(t));
      s'.hits + s'.misses + Sum(s'.threads, AtStart) == s.hits + s.misses + Sum(s.threads, AtStart)
  {
    SumUpdate(s.threads, t, Section(c, s.shared, s.threads[t]).1, AtStart);
  }

  lemma StepCounted(c: Config, s: State, a: Action)
    requires Enabled(s, a)
    ensures var s' := Apply(c, s, a);
      && s'.attempts == s.attempts + (if a.BootOk? || a.BootFail? then 1 else 0)
      && s'.hits + s'.misses + Sum(s'.threads, AtStart) ==
           s.hits + s.misses + Sum(s.threads, AtStart) + (if a.Invoke? && a.call.Allocate? then 1 else 0)
  {
    match a
    case Invoke(call) => SumAppend(s.threads, Enter(c, call), AtStart);
    case Lock(t) => LockCounted(c, s, t);
    case Spawn(t) =>
      var th := AllocDone(Some(s.threads[t].h.id));
      SumUpdate(s.threads, t, th, AtStart);
      SumAppend(s.threads[t := th], ReplStart, AtStart);
    case _ => SumUpdate(s.threads, a.t, Apply(c, s, a).threads[a.t], AtStart);
  }

  /** Every Boot of a run is counted, and every Allocate that has looked into the pool is
      a hit or a miss. */
  lemma {:induction false} RunCounted(c: Config, s: State, acts: seq<Action>)
    requires Runs(c, s, acts)
    ensures var s' := Final(c, s, acts);
      && s'.attempts == s.attempts + BootsIn(acts)
      && s'.hits + s'.misses + Sum(s'.threads, AtStart) ==
           s.hits + s.misses + Sum(s.threads, AtStart) + AllocatesIn(acts)
    decreases |acts|
  {
    if |acts| > 0 {
      StepCounted(c, s, acts[0]);
      RunCounted(c, Apply(c, s, acts[0]), acts[1..]);
    }
  }

  /** The Boot budget: PoolSize at start-up, one for each Allocate that found the
      pool empty, PoolSize for each that did not; never more, in any run. */
  lemma BootBudget(c: Config, s0: State, acts: seq<Action>)
    requires Init(c, s0) && Runs(c, s0, acts)
    ensures var s := Final(c, s0, acts);
      && Target(c) + BootsIn(acts) == s.attempts <= Target(c) + s.misses + Target(c) * s.hits
      && s.misses + s.hits <= AllocatesIn(acts)
  {
    RunBudget(c, s0, acts);
    RunCounted(c, s0, acts);
  }
}
