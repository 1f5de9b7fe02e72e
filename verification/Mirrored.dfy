/** The Firecracker backend's code as steps of the system: what Boot and Destroy do to
    the resources of a VM, stage by stage, is what a run of the system does. */
module Mirrored {
  import opened Options
  import opened PoolModel
  import E = EndToEnd
  import F = Firecracker

  /** The change to the ledger that an action stands for. */
  ghost function Label(s: E.Sys, a: E.SysAction): seq<F.LedgerOp>
    requires E.Enabled(s, a)
  {
    match a
    case Acquire(n) => [F.Gains(s.boots[n].level + 1)]
    case GiveBack(n) => [F.Loses(s.boots[n].level)]
    case TearDown(h) => [F.Loses(s.tears[h].level)]
    case _ => []
  }

  ghost function Trace(c: Config, s: E.Sys, acts: seq<E.SysAction>): seq<F.LedgerOp>
    requires E.Runs(c, s, acts)
    decreases |acts|
  {
    if |acts| == 0 then [] else Label(s, acts[0]) + Trace(c, E.Apply(c, s, acts[0]), acts[1..])
  }

  /** `acts` leads from `s` to `end`, changing the ledger by `ops`. */
  ghost predicate Leads(c: Config, s: E.Sys, acts: seq<E.SysAction>, ops: seq<F.LedgerOp>, end: E.Sys) {
    E.Runs(c, s, acts) && E.Final(c, s, acts) == end && Trace(c, s, acts) == ops
  }

  lemma LeadsNowhere(c: Config, s: E.Sys)
    ensures Leads(c, s, [], [], s)
  {
  }

  lemma LeadsFirst(c: Config, s: E.Sys, a: E.SysAction, rest: seq<E.SysAction>, ops: seq<F.LedgerOp>, end: E.Sys)
    requires E.Enabled(s, a) && Leads(c, E.Apply(c, s, a), rest, ops, end)
    ensures Leads(c, s, [a] + rest, Label(s, a) + ops, end)
  {
    assert ([a] + rest)[0] == a && ([a] + rest)[1..] == rest;
  }

  lemma Regroup<T>(a: seq<T>, b: seq<T>, c: seq<T>)
    ensures a + (b + c) == (a + b) + c
  {
  }

  lemma {:induction false} LeadsOn(
    c: Config, s: E.Sys, a: seq<E.SysAction>, x: seq<F.LedgerOp>, mid: E.Sys,
    b: seq<E.SysAction>, y: seq<F.LedgerOp>, end: E.Sys)
    requires Leads(c, s, a, x, mid) && Leads(c, mid, b, y, end)
    ensures Leads(c, s, a + b, x + y, end)
    decreases |a|
  {
    if |a| == 0 {
      assert a + b == b && x + y == y;
    } else {
      var s', x' := E.Apply(c, s, a[0]), Trace(c, E.Apply(c, s, a[0]), a[1..]);
      LeadsOn(c, s', a[1..], x', mid, b, y, end);
      LeadsFirst(c, s, a[0], a[1..] + b, x' + y, end);
      Regroup([a[0]], a[1..], b);
      Regroup(Label(s, a[0]), x', y);
      assert [a[0]] + a[1..] == a;
    }
  }

  lemma LeadsLast(c: Config, s: E.Sys, before: seq<E.SysAction>, ops: seq<F.LedgerOp>, mid: E.Sys, a: E.SysAction)
    requires Leads(c, s, before, ops, mid) && E.Enabled(mid, a)
    ensures Leads(c, s, before + [a], ops + Label(mid, a), E.Apply(c, mid, a))
  {
    var end := E.Apply(c, mid, a);
    LeadsNowhere(c, end);
    LeadsFirst(c, mid, a, [], [], end);
    assert [a] + [] == [a] && Label(mid, a) + [] == Label(mid, a);
    LeadsOn(c, s, before, ops, mid, [a], Label(mid, a), end);
  }

  /** Boot `n` of thread `t` stands here, with the pool as in `s`. */
  ghost predicate BootAt(s: E.Sys, e: E.Sys, n: nat, t: nat, level: nat, failed: bool) {
    e.pool == s.pool && e.tears == s.tears && n in e.boots && e.boots[n] == E.Boot(t, level, failed)
  }

  lemma {:induction false} ClimbRun(c: Config, s: E.Sys, n: nat, t: nat, k: nat)
    returns (acts: seq<E.SysAction>, e: E.Sys)
    requires k <= 3 && n in s.boots && s.boots[n] == E.Boot(t, 0, false)
    ensures Leads(c, s, acts, F.Climb(k), e) && BootAt(s, e, n, t, k, false)
  {
    if k == 0 {
      acts, e := [], s;
      LeadsNowhere(c, s);
    } else {
      var before, m := ClimbRun(c, s, n, t, k - 1);
      e := E.Apply(c, m, E.Acquire(n));
      acts := before + [E.Acquire(n)];
      LeadsLast(c, s, before, F.Climb(k - 1), m, E.Acquire(n));
    }
  }

  lemma {:induction false} DescendRun(c: Config, s: E.Sys, n: nat, t: nat, k: nat)
    returns (acts: seq<E.SysAction>, e: E.Sys)
    requires n in s.boots && s.boots[n] == E.Boot(t, k, true)
    ensures Leads(c, s, acts, F.Descend(k), e) && BootAt(s, e, n, t, 0, true)
    decreases k
  {
    if k == 0 {
      acts, e := [], s;
      LeadsNowhere(c, s);
    } else {
      var a := E.GiveBack(n);
      var rest;
      rest, e := DescendRun(c, E.Apply(c, s, a), n, t, k - 1);
      LeadsFirst(c, s, a, rest, F.Descend(k - 1), e);
      acts := [a] + rest;
    }
  }

  /** A Boot that fails at level k, and one that succeeds, at level 3. */
  lemma BootRun(c: Config, s: E.Sys, t: nat, n: nat, k: nat, ok: bool)
    returns (acts: seq<E.SysAction>, e: E.Sys)
    requires E.Enabled(s, E.BeginBoot(t, n)) && k <= 3 && (ok ==> k == 3)
    ensures Leads(c, s, acts, F.Climb(k) + (if ok then [] else F.Descend(k)), e)
    ensures BootAt(s, e, n, t, if ok then 3 else 0, !ok)
  {
    var s1 := E.Apply(c, s, E.BeginBoot(t, n));
    acts, e := ClimbRun(c, s1, n, t, k);
    if ok {
      assert F.Climb(k) + [] == F.Climb(k);
    } else {
      var a := E.Fail(n);
      var rest, f := DescendRun(c, E.Apply(c, e, a), n, t, k);
      LeadsFirst(c, e, a, rest, F.Descend(k), f);
      assert Label(e, a) + F.Descend(k) == F.Descend(k);
      LeadsOn(c, s1, acts, F.Climb(k), e, [a] + rest, F.Descend(k), f);
      acts, e := acts + ([a] + rest), f;
    }
    var ops := F.Climb(k) + if ok then [] else F.Descend(k);
    LeadsFirst(c, s, E.BeginBoot(t, n), acts, ops, e);
    assert Label(s, E.BeginBoot(t, n)) + ops == ops;
    acts := [E.BeginBoot(t, n)] + acts;
  }

  /** Boot, mirrored: whatever stage fails, the changes that the code makes to the ledger
      are, in order, those of a run of the system, which ends where the Boot can hand over
      its handle, if the code returns one, and otherwise where it can give up. */
  method BootMirrored(
    c: Config, b: F.FirecrackerBackend, memoryMB: int, vcpus: int, script: F.Script,
    ghost s: E.Sys, ghost t: nat, ghost n: nat)
    returns (r: Result<F.Handle, F.BootError>, vmm: F.Vmm, ghost acts: seq<E.SysAction>, ghost e: E.Sys)
    requires b.os.Valid() && E.Enabled(s, E.BeginBoot(t, n))
    modifies b.os
    ensures E.Runs(c, s, acts) && E.Final(c, s, acts) == e
    ensures b.os.ops == old(b.os.ops) + Trace(c, s, acts)
    ensures BootAt(s, e, n, t, if r.Ok? then 3 else 0, r.Err?)
    ensures r.Err? ==> E.Enabled(e, E.BootGivesUp(n))
    ensures r.Ok? ==> forall h: Handle :: h.serial == n && Fresh(s.pool, h) ==> E.Enabled(e, E.BootDone(n, h))
  {
    ghost var before := b.os.ops;
    r, vmm := b.Boot(memoryMB, vcpus, script);
    ghost var k: nat :|
      k <= 3 && (r.Ok? ==> k == 3) && b.os.ops == before + (F.Climb(k) + if r.Ok? then [] else F.Descend(k));
    acts, e := BootRun(c, s, t, n, k, r.Ok?);
  }

  lemma {:induction false} TearRun(c: Config, s: E.Sys, h: Handle, t: nat, k: nat)
    returns (acts: seq<E.SysAction>, e: E.Sys)
    requires h in s.tears && s.tears[h] == E.Tear(t, k)
    ensures Leads(c, s, acts, F.Descend(k), e)
    ensures e.pool == s.pool && h in e.tears && e.tears[h] == E.Tear(t, 0)
    decreases k
  {
    if k == 0 {
      acts, e := [], s;
      LeadsNowhere(c, s);
    } else {
      var a := E.TearDown(h);
      var rest;
      rest, e := TearRun(c, E.Apply(c, s, a), h, t, k - 1);
      LeadsFirst(c, s, a, rest, F.Descend(k - 1), e);
      acts := [a] + rest;
    }
  }

  /** Destroy, mirrored: the first Destroy of a VM makes the changes of a run of the
      system that ends where the Destroy is done. */
  method DestroyMirrored(
    c: Config, b: F.FirecrackerBackend, vm: F.Handle, ghost s: E.Sys, ghost t: nat, ghost h: Handle)
    returns (ghost acts: seq<E.SysAction>, ghost e: E.Sys)
    requires !vm.stopped && E.Enabled(s, E.BeginDestroy(t, h))
    modifies b.os, vm`stopped
    ensures E.Runs(c, s, acts) && E.Final(c, s, acts) == e && e.pool == s.pool
    ensures b.os.ops == old(b.os.ops) + Trace(c, s, acts)
    ensures E.Enabled(e, E.DestroyDone(h))
  {
    b.DestroyHandle(vm);
    acts, e := TearRun(c, E.Apply(c, s, E.BeginDestroy(t, h)), h, t, 3);
    LeadsFirst(c, s, E.BeginDestroy(t, h), acts, F.Descend(3), e);
    assert Label(s, E.BeginDestroy(t, h)) + F.Descend(3) == F.Descend(3);
    acts := [E.BeginDestroy(t, h)] + acts;
  }
}
