/** The overshoot bound is attained: for every PoolSize N >= 2 and every K there is
    a run with K replenishers at once that ends with K * N warm handles. Hence the
    warm pool stays within PoolSize in all runs exactly when PoolSize is at most 1. */
module PoolOvershoot {
  import opened Options
  import opened Sums
  import opened PoolModel
  import opened PoolBounds

  /** A replenisher that has been spawned and has not read the pool yet. */
  function Spawned(th: Thread): nat {
    if th.ReplStart? then 1 else 0
  }

  ghost function Idle(s: State): nat { Sum(s.threads, Spawned) }

  function Name(n: nat): Id { seq(n, _ => 'x') }

  /** From any finite set of handles there is a number above all serials and IDs. */
  lemma Above(b: set<Handle>) returns (n: nat)
    ensures forall h :: h in b ==> h.serial < n && |h.id| < n
  {
    if b == {} {
      n := 0;
    } else {
      var k :| k in b;
      var m := Above(b - {k});
      n := Max(m, Max(k.serial, |k.id|) + 1);
    }
  }

  /** `acts` leads from `s` to a state with `w` warm handles, `idle` unread
      replenishers and `pending` handles to come, and never has more than `k`
      replenishers active. */
  ghost predicate Leads(c: Config, s: State, acts: seq<Action>, k: nat, w: nat, idle: nat, pending: nat) {
    && Runs(c, s, acts)
    && Peak(c, s, acts) <= k
    && var e := Final(c, s, acts);
      && InRange(c, e) && |e.shared.warm| == w && Idle(e) == idle && Pending(e) == pending
  }

  lemma {:induction false} PeakAppend(c: Config, s: State, a: seq<Action>, b: seq<Action>)
    requires Runs(c, s, a) && Runs(c, Final(c, s, a), b)
    ensures Runs(c, s, a + b)
    ensures Peak(c, s, a + b) == Max(Peak(c, s, a), Peak(c, Final(c, s, a), b))
    decreases |a|
  {
    RunsAppend(c, s, a, b);
    if |a| == 0 {
      assert a + b == b;
    } else {
      assert (a + b)[1..] == a[1..] + b;
      PeakAppend(c, Apply(c, s, a[0]), a[1..], b);
    }
  }

  lemma Join(c: Config, s: State, a: seq<Action>, b: seq<Action>, k: nat, w: nat, idle: nat, pending: nat)
    requires Runs(c, s, a) && Peak(c, s, a) <= k && Leads(c, Final(c, s, a), b, k, w, idle, pending)
    ensures Leads(c, s, a + b, k, w, idle, pending)
  {
    PeakAppend(c, s, a, b);
    RunsAppend(c, s, a, b);
  }

  /** One step, as a run. */
  lemma Single(c: Config, s: State, a: Action)
    requires Enabled(s, a)
    ensures Runs(c, s, [a]) && Final(c, s, [a]) == Apply(c, s, a)
    ensures Peak(c, s, [a]) == Max(ActiveReplenishers(s), ActiveReplenishers(Apply(c, s, a)))
  {
    assert [a][1..] == [];
  }

  lemma IdleReplaced(ts: seq<Thread>, t: nat, th: Thread)
    requires t < |ts|
    ensures Sum(ts[t := th], Spawned) + Spawned(ts[t]) == Sum(ts, Spawned) + Spawned(th)
  {
    SumUpdate(ts, t, th, Spawned);
  }

  lemma InvokeOne(c: Config, s: State, call: Call)
    requires InRange(c, s)
    ensures Leads(c, s, [Invoke(call)], ActiveReplenishers(s), |s.shared.warm|, Idle(s), Pending(s))
    ensures Final(c, s, [Invoke(call)]) == Apply(c, s, Invoke(call))
    ensures ActiveReplenishers(Apply(c, s, Invoke(call))) == ActiveReplenishers(s)
  {
    InvokeEffect(c, s, call);
    SumAppend(s.threads, Enter(c, call), Spawned);
    StepInRange(c, s, Invoke(call));
    Single(c, s, Invoke(call));
  }

  lemma TakeOne(c: Config, s: State, t: nat)
    requires InRange(c, s) && |s.shared.warm| > 0 && t < |s.threads| && s.threads[t].AllocStart?
    ensures Leads(c, s, [Lock(t)], ActiveReplenishers(s), |s.shared.warm| - 1, Idle(s), Pending(s))
    ensures Final(c, s, [Lock(t)]) == Apply(c, s, Lock(t))
    ensures ActiveReplenishers(Apply(c, s, Lock(t))) == ActiveReplenishers(s)
    ensures Apply(c, s, Lock(t)).threads[t].AllocSpawn?
  {
    LockEffect(c, s, t);
    IdleReplaced(s.threads, t, Apply(c, s, Lock(t)).threads[t]);
    StepInRange(c, s, Lock(t));
    Single(c, s, Lock(t));
  }

  lemma SpawnOne(c: Config, s: State, t: nat)
    requires InRange(c, s) && t < |s.threads| && s.threads[t].AllocSpawn?
    ensures Leads(c, s, [Spawn(t)], ActiveReplenishers(s), |s.shared.warm|, Idle(s) + 1, Pending(s))
    ensures Final(c, s, [Spawn(t)]) == Apply(c, s, Spawn(t))
    ensures ActiveReplenishers(Apply(c, s, Spawn(t))) == ActiveReplenishers(s)
  {
    SpawnEffect(c, s, t);
    var th := AllocDone(Some(s.threads[t].h.id));
    IdleReplaced(s.threads, t, th);
    SumAppend(s.threads[t := th], ReplStart, Spawned);
    StepInRange(c, s, Spawn(t));
    Single(c, s, Spawn(t));
  }

  /** A warm Allocate, run to its end, takes one handle and leaves one replenisher. */
  lemma PopOne(c: Config, s: State) returns (acts: seq<Action>)
    requires InRange(c, s) && |s.shared.warm| > 0
    ensures Leads(c, s, acts, ActiveReplenishers(s), |s.shared.warm| - 1, Idle(s) + 1, Pending(s))
    ensures ActiveReplenishers(Final(c, s, acts)) == ActiveReplenishers(s)
  {
    var k, t := ActiveReplenishers(s), |s.threads|;
    var call := Allocate(AllocRequest(0, 0, 0, false, false, map[]));
    InvokeOne(c, s, call);
    var s1 := Apply(c, s, Invoke(call));
    TakeOne(c, s1, t);
    var s2 := Apply(c, s1, Lock(t));
    SpawnOne(c, s2, t);
    Join(c, s1, [Lock(t)], [Spawn(t)], k, |s.shared.warm| - 1, Idle(s) + 1, Pending(s));
    Join(c, s, [Invoke(call)], [Lock(t)] + [Spawn(t)], k, |s.shared.warm| - 1, Idle(s) + 1, Pending(s));
    RunsAppend(c, s1, [Lock(t)], [Spawn(t)]);
    RunsAppend(c, s, [Invoke(call)], [Lock(t)] + [Spawn(t)]);
    acts := [Invoke(call)] + ([Lock(t)] + [Spawn(t)]);
  }

  lemma {:induction false} PopAll(c: Config, s: State) returns (acts: seq<Action>)
    requires InRange(c, s) && ActiveReplenishers(s) == 0
    ensures Leads(c, s, acts, 0, 0, Idle(s) + |s.shared.warm|, Pending(s))
    decreases |s.shared.warm|
  {
    if |s.shared.warm| == 0 {
      acts := [];
    } else {
      var one := PopOne(c, s);
      var s' := Final(c, s, one);
      var rest := PopAll(c, s');
      Join(c, s, one, rest, 0, 0, Idle(s) + |s.shared.warm|, Pending(s));
      acts := one + rest;
    }
  }

  /** With the warm pool empty, one waiting replenisher takes its snapshot. */
  lemma SnapOne(c: Config, s: State) returns (acts: seq<Action>)
    requires InRange(c, s) && |s.shared.warm| == 0 && Idle(s) > 0 && Target(c) > 0
    ensures Leads(c, s, acts, ActiveReplenishers(s) + 1, 0, Idle(s) - 1, Pending(s) + Target(c))
    ensures ActiveReplenishers(Final(c, s, acts)) == ActiveReplenishers(s) + 1
  {
    var t := SumWitness(s.threads, Spawned);
    var s' := Apply(c, s, Lock(t));
    LockEffect(c, s, t);
    IdleReplaced(s.threads, t, s'.threads[t]);
    StepInRange(c, s, Lock(t));
    Single(c, s, Lock(t));
    acts := [Lock(t)];
  }

  lemma {:induction false} SnapMany(c: Config, s: State, n: nat) returns (acts: seq<Action>)
    requires InRange(c, s) && |s.shared.warm| == 0 && Idle(s) >= n && Target(c) > 0
    ensures Leads(c, s, acts, ActiveReplenishers(s) + n, 0, Idle(s) - n, Pending(s) + n * Target(c))
    ensures ActiveReplenishers(Final(c, s, acts)) == ActiveReplenishers(s) + n
    decreases n
  {
    if n == 0 {
      acts := [];
    } else {
      var one := SnapOne(c, s);
      var s' := Final(c, s, one);
      var rest := SnapMany(c, s', n - 1);
      assert Pending(s) + Target(c) + (n - 1) * Target(c) == Pending(s) + n * Target(c);
      Join(c, s, one, rest, ActiveReplenishers(s) + n, 0, Idle(s) - n, Pending(s) + n * Target(c));
      RunsAppend(c, s, one, rest);
      acts := one + rest;
    }
  }

  /** One replenisher with work left boots, if it has to. */
  lemma BootOne(c: Config, s: State, t: nat) returns (acts: seq<Action>)
    requires InRange(c, s) && t < |s.threads| && Left(s.threads[t]) > 0
    ensures Leads(c, s, acts, ActiveReplenishers(s), |s.shared.warm|, Idle(s), Pending(s))
    ensures ActiveReplenishers(Final(c, s, acts)) == ActiveReplenishers(s)
    ensures t < |Final(c, s, acts).threads| && Final(c, s, acts).threads[t].ReplPublish?
    ensures Final(c, s, acts).threads[t].left > 0
  {
    if s.threads[t].ReplPublish? {
      acts := [];
    } else {
      var n := Above(s.booted);
      var a := BootOk(t, Handle(n, Name(n)));
      BootEffect(c, s, t, a.h);
      IdleReplaced(s.threads, t, AfterBoot(s.threads[t], a.h));
      StepInRange(c, s, a);
      Single(c, s, a);
      acts := [a];
    }
  }

  lemma FillOne(c: Config, s: State) returns (acts: seq<Action>)
    requires InRange(c, s) && Pending(s) > 0
    ensures Leads(c, s, acts, ActiveReplenishers(s), |s.shared.warm| + 1, Idle(s), Pending(s) - 1)
    ensures ActiveReplenishers(Final(c, s, acts)) <= ActiveReplenishers(s)
  {
    var t := SumWitness(s.threads, Left);
    var boot := BootOne(c, s, t);
    var s1 := Final(c, s, boot);
    var s2 := Apply(c, s1, Lock(t));
    LockEffect(c, s1, t);
    IdleReplaced(s1.threads, t, s2.threads[t]);
    StepInRange(c, s1, Lock(t));
    Single(c, s1, Lock(t));
    Join(c, s, boot, [Lock(t)], ActiveReplenishers(s), |s.shared.warm| + 1, Idle(s), Pending(s) - 1);
    RunsAppend(c, s, boot, [Lock(t)]);
    acts := boot + [Lock(t)];
  }

  lemma {:induction false} FillAll(c: Config, s: State) returns (acts: seq<Action>)
    requires InRange(c, s)
    ensures Leads(c, s, acts, ActiveReplenishers(s), |s.shared.warm| + Pending(s), Idle(s), 0)
    decreases Pending(s)
  {
    if Pending(s) == 0 {
      acts := [];
    } else {
      var one := FillOne(c, s);
      var s' := Final(c, s, one);
      var rest := FillAll(c, s');
      Join(c, s, one, rest, ActiveReplenishers(s), |s.shared.warm| + Pending(s), Idle(s), 0);
      acts := one + rest;
    }
  }

  /** Empty the pool, let `n` replenishers read it, let them all fill it. */
  lemma Round(c: Config, s: State, n: nat) returns (acts: seq<Action>)
    requires InRange(c, s) && Pending(s) == 0 && Target(c) > 0
    requires n <= Idle(s) + |s.shared.warm|
    ensures Leads(c, s, acts, n, n * Target(c), Idle(s) + |s.shared.warm| - n, 0)
  {
    PendingPerReplenisher(c, s);
    var pops := PopAll(c, s);
    var s1 := Final(c, s, pops);
    PendingPerReplenisher(c, s1);
    var snaps := SnapMany(c, s1, n);
    var s2 := Final(c, s1, snaps);
    var fills := FillAll(c, s2);
    Join(c, s1, snaps, fills, n, n * Target(c), Idle(s) + |s.shared.warm| - n, 0);
    Join(c, s, pops, snaps + fills, n, n * Target(c), Idle(s) + |s.shared.warm| - n, 0);
    acts := pops + (snaps + fills);
  }

  /** Rounds with one replenisher each leave more and more of them unread. */
  lemma {:induction false} Gather(c: Config, s: State, n: nat) returns (acts: seq<Action>, idle: nat)
    requires InRange(c, s) && Pending(s) == 0 && Target(c) >= 2 && |s.shared.warm| == Target(c)
    ensures idle >= n && Leads(c, s, acts, 1, Target(c), idle, 0)
    decreases n - Idle(s)
  {
    if Idle(s) >= n {
      PendingPerReplenisher(c, s);
      acts, idle := [], Idle(s);
    } else {
      var one := Round(c, s, 1);
      var rest;
      rest, idle := Gather(c, Final(c, s, one), n);
      Join(c, s, one, rest, 1, Target(c), idle, 0);
      acts := one + rest;
    }
  }

  function Full(c: Config): State {
    var warm := seq(Target(c), i requires 0 <= i => Handle(i, Name(i)));
    State(Shared(warm, map[]), [], set h | h in warm, [], Target(c), 0, 0)
  }

  lemma FullIsInit(c: Config)
    ensures Init(c, Full(c)) && |Full(c).shared.warm| == Target(c)
  {
    var warm := Full(c).shared.warm;
    assert |warm| == Target(c);
    forall i, j | 0 <= i < j < |warm| ensures warm[i].serial != warm[j].serial && warm[i].id != warm[j].id {
      assert |warm[i].id| == i && |warm[j].id| == j;
    }
  }

  /** Tightness: for PoolSize N >= 2 and any K >= 1 some run has at most K active
      replenishers at a time and ends with exactly K * N warm handles. */
  lemma OvershootIsTight(c: Config, k: nat)
    requires c.poolSize >= 2 && k >= 1
    ensures exists s0, acts ::
      (Init(c, s0) && Runs(c, s0, acts) && Peak(c, s0, acts) <= k
       && |Final(c, s0, acts).shared.warm| == Target(c) * k)
  {
    FullIsInit(c);
    var s0 := Full(c);
    var gather, idle := Gather(c, s0, k);
    var s1 := Final(c, s0, gather);
    var round := Round(c, s1, k);
    Join(c, s0, gather, round, k, k * Target(c), idle + Target(c) - k, 0);
    var acts := gather + round;
    assert Init(c, s0) && Runs(c, s0, acts) && Peak(c, s0, acts) <= k;
  }

  /** The pool's promise of at most PoolSize warm handles holds in every run of
      every interleaving exactly when PoolSize is at most 1. */
  lemma WithinPoolSizeIff(c: Config)
    ensures (forall s0, acts :: Init(c, s0) && Runs(c, s0, acts) ==> |Final(c, s0, acts).shared.warm| <= Target(c))
      <==> c.poolSize <= 1
  {
    if c.poolSize <= 1 {
      forall s0, acts | Init(c, s0) && Runs(c, s0, acts) ensures |Final(c, s0, acts).shared.warm| <= Target(c) {
        RunSmallPool(c, s0, acts);
      }
    } else {
      OvershootIsTight(c, 2);
    }
  }
}
