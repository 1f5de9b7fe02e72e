/** The pool as code: a class whose methods change the warm stack and the active
    map, called one after the other. Each critical section and each backend call
    is mirrored by one action of the step system, so every state such a program
    reaches is a reachable state of that system and inherits its theorems. */
module PoolClass {
  import opened Options
  import opened PoolModel
  import opened PoolOwnership

  /** `s` is reached by some run from some outcome of New. */
  ghost predicate Reachable(c: Config, s: State) {
    exists s0, acts :: Init(c, s0) && Runs(c, s0, acts) && Final(c, s0, acts) == s
  }

  lemma ReachableStep(c: Config, s: State, a: Action)
    requires Reachable(c, s) && Enabled(s, a)
    ensures Reachable(c, Apply(c, s, a))
  {
    var s0, acts :| Init(c, s0) && Runs(c, s0, acts) && Final(c, s0, acts) == s;
    var one := [a];
    assert one[1..] == [] && one[0] == a;
    assert Runs(c, Apply(c, s, a), []) && Final(c, Apply(c, s, a), []) == Apply(c, s, a);
    assert Runs(c, s, one) && Final(c, s, one) == Final(c, Apply(c, s, a), one[1..]);
    RunsAppend(c, s0, acts, one);
  }

  lemma ReachableInv(c: Config, s: State)
    requires Reachable(c, s)
    ensures Inv(s)
  {
    var s0, acts :| Init(c, s0) && Runs(c, s0, acts) && Final(c, s0, acts) == s;
    InitInv(c, s0);
    RunInv(c, s0, acts);
  }

  /** A backend: `script` holds the outcomes of the Boots to come, a handle or a
      failure each (and failures after that); Destroy is recorded. */
  class Backend {
    var script: seq<Option<Handle>>
    var destroyed: seq<Handle>
    ghost var booted: set<Handle>

    /** Boot's hypothesis: handles to come are new, to the past and to each other. */
    ghost predicate Valid()
      reads `script, `booted
    {
      && (forall i, b :: 0 <= i < |script| && script[i].Some? && b in booted ==>
            b.serial != script[i].value.serial && b.id != script[i].value.id)
      && (forall i, j :: 0 <= i < j < |script| && script[i].Some? && script[j].Some? ==>
            script[i].value.serial != script[j].value.serial && script[i].value.id != script[j].value.id)
    }

    constructor (script: seq<Option<Handle>>)
      requires forall i, j :: 0 <= i < j < |script| && script[i].Some? && script[j].Some? ==>
        script[i].value.serial != script[j].value.serial && script[i].value.id != script[j].value.id
      ensures Valid() && this.script == script && destroyed == [] && booted == {}
    {
      this.script := script;
      destroyed := [];
      booted := {};
    }

    method Boot() returns (r: Option<Handle>)
      requires Valid()
      modifies this
      ensures Valid() && destroyed == old(destroyed)
      ensures r == NextBoot(old(script)) && script == AfterBoots(old(script), 1)
      ensures r.Some? ==> forall b :: b in old(booted) ==> b.serial != r.value.serial && b.id != r.value.id
      ensures booted == old(booted) + if r.Some? then {r.value} else {}
    {
      if |script| == 0 {
        return None;
      }
      r := script[0];
      script := script[1..];
      if r.Some? {
        booted := booted + {r.value};
      }
    }

    method Destroy(h: Handle)
      modifies this`destroyed
      ensures destroyed == old(destroyed) + [h]
    {
      destroyed := destroyed + [h];
    }
  }

  function NextBoot(script: seq<Option<Handle>>): Option<Handle> {
    if |script| == 0 then None else script[0]
  }

  function AfterBoots(script: seq<Option<Handle>>, n: nat): seq<Option<Handle>> {
    if n <= |script| then script[n..] else []
  }

  /** The handles that `n` boots yield when failures are skipped, as New does. */
  function Successes(script: seq<Option<Handle>>, n: nat): seq<Handle> {
    if n == 0 then []
    else
      var r := NextBoot(AfterBoots(script, n - 1));
      Successes(script, n - 1) + (if r.Some? then [r.value] else [])
  }

  /** The warm handles after up to `n` boots when the first failure ends it, as in
      a replenisher. */
  function Refilled(warm: seq<Handle>, script: seq<Option<Handle>>, n: nat): seq<Handle>
    decreases n
  {
    if n == 0 || NextBoot(script).None? then warm
    else Refilled(warm + [NextBoot(script).value], AfterBoots(script, 1), n - 1)
  }

  /** These are the handles of the first `n` boots, in the order in which they came. */
  ghost predicate BootedInOrder(script: seq<Option<Handle>>, n: int, warm: seq<Handle>) {
    && (forall h :: h in warm ==> exists i :: 0 <= i < n && i < |script| && script[i] == Some(h))
    && (forall i :: 0 <= i < n && i < |script| && script[i].Some? ==> script[i].value in warm)
    && (forall i, j :: 0 <= i < j < n && j < |script| && script[i].Some? && script[j].Some? ==>
          InOrder(warm, script[i].value, script[j].value))
  }

  ghost predicate InOrder(warm: seq<Handle>, h: Handle, k: Handle) {
    exists a, b :: 0 <= a < b < |warm| && warm[a] == h && warm[b] == k
  }

  lemma InOrderGrows(warm: seq<Handle>, x: seq<Handle>, h: Handle, k: Handle)
    requires InOrder(warm, h, k)
    ensures InOrder(warm + x, h, k)
  {
    var a, b :| 0 <= a < b < |warm| && warm[a] == h && warm[b] == k;
    assert (warm + x)[a] == h && (warm + x)[b] == k;
  }

  lemma LastInOrder(warm: seq<Handle>, h: Handle, k: Handle)
    requires h in warm
    ensures InOrder(warm + [k], h, k)
  {
    var a :| 0 <= a < |warm| && warm[a] == h;
    assert (warm + [k])[a] == h && (warm + [k])[|warm|] == k;
  }

  lemma NthBoot(script: seq<Option<Handle>>, n: nat)
    requires n > 0
    ensures NextBoot(AfterBoots(script, n - 1)) == if n <= |script| then script[n - 1] else None
  {
  }

  lemma {:induction false} SuccessesInOrder(script: seq<Option<Handle>>, n: nat)
    ensures BootedInOrder(script, n, Successes(script, n))
  {
    if n > 0 {
      SuccessesInOrder(script, n - 1);
      NthBoot(script, n);
      OneMoreInOrder(script, n, Successes(script, n - 1));
    }
  }

  lemma OneMoreInOrder(script: seq<Option<Handle>>, n: nat, warm: seq<Handle>)
    requires n > 0 && BootedInOrder(script, n - 1, warm)
    ensures var r := if n <= |script| then script[n - 1] else None;
      BootedInOrder(script, n, warm + if r.Some? then [r.value] else [])
  {
    if n <= |script| && script[n - 1].Some? {
      var k := script[n - 1].value;
      forall h | h in warm + [k] ensures exists i :: 0 <= i < n && i < |script| && script[i] == Some(h) {
        if h !in warm {
          assert script[n - 1] == Some(h);
        }
      }
      forall i, j | 0 <= i < j < n && j < |script| && script[i].Some? && script[j].Some?
        ensures InOrder(warm + [k], script[i].value, script[j].value)
      {
        if j < n - 1 {
          InOrderGrows(warm, [k], script[i].value, script[j].value);
        } else {
          LastInOrder(warm, script[i].value, k);
        }
      }
    } else {
      assert warm + [] == warm;
    }
  }

  /** The handles behind the old ones are those of the boots to come, in order, until
      there are `goal` in all or a boot fails. */
  ghost predicate AddsBoots(before: seq<Handle>, script: seq<Option<Handle>>, goal: int, after: seq<Handle>) {
    && before <= after && (|after| == |before| || |after| <= goal)
    && |after| - |before| <= |script|
    && (forall k :: 0 <= k < |after| - |before| ==> script[k] == Some(after[|before| + k]))
    && (|after| < goal ==> |after| - |before| == |script| || script[|after| - |before|].None?)
  }

  lemma {:induction false} RefilledAdds(warm: seq<Handle>, script: seq<Option<Handle>>, n: nat)
    ensures AddsBoots(warm, script, |warm| + n, Refilled(warm, script, n))
    decreases n
  {
    if n > 0 && |script| > 0 && script[0].Some? {
      var h := script[0].value;
      RefilledAdds(warm + [h], script[1..], n - 1);
      OneMoreAdded(warm, h, script[1..], |warm| + n, Refilled(warm + [h], script[1..], n - 1));
      assert [Some(h)] + script[1..] == script;
    }
  }

  lemma OneMoreAdded(warm: seq<Handle>, h: Handle, rest: seq<Option<Handle>>, goal: int, after: seq<Handle>)
    requires |warm| < goal && AddsBoots(warm + [h], rest, goal, after)
    ensures AddsBoots(warm, [Some(h)] + rest, goal, after)
  {
    var script := [Some(h)] + rest;
    assert after[|warm|] == (warm + [h])[|warm|] == h;
    forall k | 0 <= k < |after| - |warm| ensures script[k] == Some(after[|warm| + k]) {
      if k > 0 {
        assert rest[k - 1] == Some(after[|warm + [h]| + (k - 1)]);
      }
    }
  }

  lemma ReplenishMeans(c: Config, warm: seq<Handle>, script: seq<Option<Handle>>)
    ensures AddsBoots(warm, script, c.poolSize, Refilled(warm, script, Missing(c, |warm|)))
  {
    RefilledAdds(warm, script, Missing(c, |warm|));
  }

  ghost predicate AllDistinct(hs: seq<Handle>) {
    forall i, j :: 0 <= i < j < |hs| ==> hs[i].serial != hs[j].serial && hs[i].id != hs[j].id
  }

  /* ---------- walking a map ---------- */

  /** What is left of the map after its keys in `order` are removed. */
  function Minus(all: map<Id, Allocation>, order: seq<Id>): map<Id, Allocation> {
    if |order| == 0 then all else Minus(all, order[..|order| - 1]) - {order[|order| - 1]}
  }

  /** Each key of `order` was still there when it was picked. */
  ghost predicate IsWalk(all: map<Id, Allocation>, order: seq<Id>) {
    |order| == 0 ||
    (IsWalk(all, order[..|order| - 1]) && order[|order| - 1] in Minus(all, order[..|order| - 1]))
  }

  /** The handles of these keys. */
  function Handles(all: map<Id, Allocation>, order: seq<Id>): seq<Handle> {
    if |order| == 0 then []
    else
      var id := order[|order| - 1];
      Handles(all, order[..|order| - 1]) + (if id in all then [all[id].handle] else [])
  }

  lemma {:induction false} MinusKeys(all: map<Id, Allocation>, order: seq<Id>)
    ensures forall id :: id in Minus(all, order) <==> id in all && id !in order
    ensures forall id :: id in Minus(all, order) ==> Minus(all, order)[id] == all[id]
  {
    if |order| > 0 {
      MinusKeys(all, order[..|order| - 1]);
      assert order == order[..|order| - 1] + [order[|order| - 1]];
    }
  }

  lemma WalkOn(all: map<Id, Allocation>, order: seq<Id>, id: Id)
    requires IsWalk(all, order) && id in Minus(all, order)
    ensures IsWalk(all, order + [id]) && Minus(all, order + [id]) == Minus(all, order) - {id}
    ensures |Minus(all, order) - {id}| < |Minus(all, order)|
    ensures id in all && Minus(all, order)[id] == all[id]
    ensures Handles(all, order + [id]) == Handles(all, order) + [all[id].handle]
  {
    MinusKeys(all, order);
    assert (order + [id])[..|order|] == order;
    assert (Minus(all, order) - {id}).Keys == Minus(all, order).Keys - {id};
  }

  /** A walk that leaves nothing has met every key exactly once. */
  lemma {:induction false} WalkSize(all: map<Id, Allocation>, order: seq<Id>)
    requires IsWalk(all, order)
    ensures |order| + |Minus(all, order)| == |all|
  {
    if |order| > 0 {
      var prefix, id := order[..|order| - 1], order[|order| - 1];
      WalkSize(all, prefix);
      assert (Minus(all, prefix) - {id}).Keys == Minus(all, prefix).Keys - {id};
    }
  }

  ghost predicate FullWalk(all: map<Id, Allocation>, order: seq<Id>) {
    IsWalk(all, order) && Minus(all, order) == map[]
  }

  lemma FullWalkKeys(all: map<Id, Allocation>, order: seq<Id>)
    requires FullWalk(all, order)
    ensures |order| == |all| && forall id :: id in order <==> id in all
  {
    WalkSize(all, order);
    MinusKeys(all, order);
    WalkIn(all, order);
  }

  lemma {:induction false} WalkIn(all: map<Id, Allocation>, order: seq<Id>)
    requires IsWalk(all, order)
    ensures forall id :: id in order ==> id in all
  {
    if |order| > 0 {
      var prefix := order[..|order| - 1];
      WalkIn(all, prefix);
      MinusKeys(all, prefix);
      assert order == prefix + [order[|order| - 1]];
    }
  }

  /* ---------- the runs of the step system that mirror the methods ---------- */

  /** The steps have brought the pool to rest again, with this much in it. */
  ghost predicate Rested(c: Config, s: State, shared: Shared, booted: set<Handle>, destroyed: seq<Handle>) {
    Reachable(c, s) && AtRest(s) && s.shared == shared && s.booted == booted && s.destroyed == destroyed
  }

  /** One thread has moved on, and destroyed these handles. */
  function Moved(s: State, t: nat, th: Thread, gone: seq<Handle>): State
    requires t < |s.threads|
  {
    s.(threads := s.threads[t := th], destroyed := s.destroyed + gone)
  }

  lemma MovedTwice(s: State, t: nat, a: Thread, x: seq<Handle>, b: Thread, y: seq<Handle>)
    requires t < |s.threads|
    ensures Moved(Moved(s, t, a, x), t, b, y) == Moved(s, t, b, x + y)
  {
    assert (s.destroyed + x) + y == s.destroyed + (x + y);
  }

  /** Start a call, as a new thread, and pass its first critical section. */
  lemma StartRun(c: Config, s: State, call: Call) returns (s': State)
    requires Reachable(c, s)
    ensures Reachable(c, s') && Keyed(s.shared.active)
    ensures |s'.threads| == |s.threads| + 1 && s'.threads[..|s.threads|] == s.threads
    ensures (s'.shared, s'.threads[|s.threads|]) == Section(c, s.shared, Enter(c, call))
    ensures s'.booted == s.booted && s'.destroyed == s.destroyed
    ensures call.Allocate? && |s.shared.warm| > 0 ==>
      s.shared.warm[|s.shared.warm| - 1].id !in s.shared.active
  {
    var t := |s.threads|;
    ReachableInv(c, s);
    ReachableStep(c, s, Invoke(call));
    var s1 := Apply(c, s, Invoke(call));
    ReachableInv(c, s1);
    LockReady(s1, t);
    ReachableStep(c, s1, Lock(t));
    s' := Apply(c, s1, Lock(t));
  }

  /** A call that only looks. */
  lemma LookRun(c: Config, s: State, call: Call) returns (s': State)
    requires Reachable(c, s) && AtRest(s) && (call.Execute? || call.Status?)
    ensures Rested(c, s', s.shared, s.booted, s.destroyed)
  {
    s' := StartRun(c, s, call);
    RestGrows(s, s');
  }

  lemma RestGrows(s: State, s': State)
    requires AtRest(s) && |s'.threads| == |s.threads| + 1 && s'.threads[..|s.threads|] == s.threads
    requires var th := s'.threads[|s.threads|];
      !th.AllocPublish? && !th.ReplPublish? && !th.RelDestroy? && !th.ShutDrain?
    ensures AtRest(s')
  {
    forall t | 0 <= t < |s.threads| ensures s'.threads[t] == s.threads[t] {
      assert s'.threads[..|s.threads|][t] == s'.threads[t];
    }
  }

  /** A Release. */
  lemma ReleaseRun(c: Config, s: State, id: Id) returns (s': State)
    requires Reachable(c, s) && AtRest(s)
    ensures Rested(c, s', s.shared.(active := s.shared.active - {id}), s.booted,
      s.destroyed + if id in s.shared.active then [s.shared.active[id].handle] else [])
  {
    var t := |s.threads|;
    s' := StartRun(c, s, PoolModel.Release(id));
    if id in s.shared.active {
      var h := s.shared.active[id].handle;
      var s1 := s';
      ReachableStep(c, s1, Destroy(t, h));
      s' := Apply(c, s1, Destroy(t, h));
      assert s' == Moved(s1, t, RelDone(id, true), [h]);
      assert s'.threads[..t] == s1.threads[..t];
    } else {
      assert s.shared.active - {id} == s.shared.active;
    }
    RestGrows(s, s');
  }

  /** An Allocate that finds a warm handle, and its replenisher, the last thread. */
  lemma TakeRun(c: Config, s: State, request: AllocRequest) returns (s': State)
    requires Reachable(c, s) && AtRest(s) && |s.shared.warm| > 0
    ensures Rested(c, s', Pop(s.shared, Effective(c, request)), s.booted, s.destroyed)
    ensures |s'.threads| > 0 && s'.threads[|s'.threads| - 1] == ReplStart
    ensures s.shared.warm[|s.shared.warm| - 1].id !in s.shared.active
  {
    var t := |s.threads|;
    var s1 := StartRun(c, s, PoolModel.Allocate(request));
    RestGrows(s, s1);
    ReachableStep(c, s1, Spawn(t));
    s' := Apply(c, s1, Spawn(t));
    var done := s1.(threads := s1.threads[t := AllocDone(Some(s1.threads[t].h.id))]);
    assert AtRest(done);
    assert s'.threads[..|s1.threads|] == done.threads;
    RestGrows(done, s');
  }

  /** An Allocate that finds none, up to its boot. */
  lemma MissRun(c: Config, s: State, request: AllocRequest) returns (s': State)
    requires Reachable(c, s) && AtRest(s) && |s.shared.warm| == 0
    ensures Rested(c, s', s.shared, s.booted, s.destroyed)
    ensures |s'.threads| > 0 && s'.threads[|s'.threads| - 1] == AllocBoot(Effective(c, request))
  {
    s' := StartRun(c, s, PoolModel.Allocate(request));
    RestGrows(s, s');
  }

  ghost predicate IsNew(s: State, r: Option<Handle>) {
    r.Some? ==> forall b :: b in s.booted ==> b.serial != r.value.serial && b.id != r.value.id
  }

  /** The boot of an Allocate and, if it succeeds, its publication. */
  lemma ColdRun(c: Config, s: State, t: nat, req: AllocRequest, r: Option<Handle>) returns (s': State)
    requires Reachable(c, s) && AtRest(s) && t < |s.threads| && s.threads[t] == AllocBoot(req) && IsNew(s, r)
    ensures match r
      case None => Rested(c, s', s.shared, s.booted, s.destroyed)
      case Some(h) =>
        && h.id !in s.shared.active
        && Rested(c, s', s.shared.(active := s.shared.active[h.id := Allocation(h, req)]),
             s.booted + {h}, s.destroyed)
  {
    if r.None? {
      ReachableStep(c, s, BootFail(t));
      s' := Apply(c, s, BootFail(t));
    } else {
      ReachableStep(c, s, BootOk(t, r.value));
      var s1 := Apply(c, s, BootOk(t, r.value));
      ReachableInv(c, s1);
      LockReady(s1, t);
      ReachableStep(c, s1, Lock(t));
      s' := Apply(c, s1, Lock(t));
      assert s'.threads == s.threads[t := AllocDone(Some(r.value.id))];
    }
  }

  /** The first critical section of a replenisher. */
  lemma SnapshotRun(c: Config, s: State, t: nat) returns (s': State)
    requires Reachable(c, s) && AtRest(s) && t < |s.threads| && s.threads[t] == ReplStart
    ensures Rested(c, s', s.shared, s.booted, s.destroyed)
    ensures t < |s'.threads| && s'.threads[t] == Refilling(c.poolSize - |s.shared.warm|)
  {
    ReachableStep(c, s, Lock(t));
    s' := Apply(c, s, Lock(t));
  }

  /** One boot of a replenisher and, if it succeeds, its publication. */
  lemma RefillRun(c: Config, s: State, t: nat, left: nat, r: Option<Handle>) returns (s': State)
    requires Reachable(c, s) && AtRest(s) && t < |s.threads| && s.threads[t] == ReplBoot(left) && IsNew(s, r)
    ensures match r
      case None => Rested(c, s', s.shared, s.booted, s.destroyed)
      case Some(h) =>
        && Rested(c, s', s.shared.(warm := s.shared.warm + [h]), s.booted + {h}, s.destroyed)
        && t < |s'.threads| && s'.threads[t] == Refilling(left - 1)
  {
    if r.None? {
      ReachableStep(c, s, BootFail(t));
      s' := Apply(c, s, BootFail(t));
    } else {
      ReachableStep(c, s, BootOk(t, r.value));
      var s1 := Apply(c, s, BootOk(t, r.value));
      ReachableStep(c, s1, Lock(t));
      s' := Apply(c, s1, Lock(t));
      assert s'.threads == s.threads[t := Refilling(left - 1)];
    }
  }

  /** One Destroy of a draining Shutdown. */
  lemma DrainStep(c: Config, s: State, t: nat, left: map<Id, Allocation>, rest: seq<Handle>, h: Handle)
    requires Reachable(c, s) && t < |s.threads| && s.threads[t] == Draining(left, rest)
    requires if left != map[] then h.id in left && left[h.id].handle == h else |rest| > 0 && rest[0] == h
    ensures var th := if left != map[] then Draining(left - {h.id}, rest) else Draining(left, rest[1..]);
      Reachable(c, Moved(s, t, th, [h]))
  {
    ReachableStep(c, s, Destroy(t, h));
  }

  /** A Shutdown's walk over the map. */
  lemma {:induction false} DrainRun(
    c: Config, s: State, t: nat, all: map<Id, Allocation>, order: seq<Id>, rest: seq<Handle>)
    requires Reachable(c, s) && t < |s.threads| && s.threads[t] == Draining(all, rest)
    requires Keyed(all) && IsWalk(all, order)
    ensures Reachable(c, Moved(s, t, Draining(Minus(all, order), rest), Handles(all, order)))
  {
    if |order| == 0 {
      assert Moved(s, t, Draining(all, rest), []) == s;
    } else {
      var prefix, id := order[..|order| - 1], order[|order| - 1];
      var left := Minus(all, prefix);
      DrainRun(c, s, t, all, prefix, rest);
      MinusKeys(all, prefix);
      var s1 := Moved(s, t, Draining(left, rest), Handles(all, prefix));
      DrainStep(c, s1, t, left, rest, all[id].handle);
      MovedTwice(s, t, Draining(left, rest), Handles(all, prefix), Draining(left - {id}, rest), [all[id].handle]);
    }
  }

  /** And over the warm handles. */
  lemma {:induction false} DrainWarmRun(c: Config, s: State, t: nat, rest: seq<Handle>, n: nat)
    requires Reachable(c, s) && t < |s.threads| && s.threads[t] == Draining(map[], rest) && n <= |rest|
    ensures Reachable(c, Moved(s, t, Draining(map[], rest[n..]), rest[..n]))
  {
    if n == 0 {
      assert Moved(s, t, Draining(map[], rest), []) == s;
    } else {
      DrainWarmRun(c, s, t, rest, n - 1);
      var s1 := Moved(s, t, Draining(map[], rest[n - 1..]), rest[..n - 1]);
      DrainStep(c, s1, t, map[], rest[n - 1..], rest[n - 1]);
      assert rest[n - 1..][1..] == rest[n..] && rest[..n - 1] + [rest[n - 1]] == rest[..n];
      MovedTwice(s, t, Draining(map[], rest[n - 1..]), rest[..n - 1], Draining(map[], rest[n..]), [rest[n - 1]]);
    }
  }

  /** A whole Shutdown that walks the map in this order. */
  lemma ShutdownRun(c: Config, s: State, order: seq<Id>) returns (s': State)
    requires Reachable(c, s) && AtRest(s) && FullWalk(s.shared.active, order)
    ensures Rested(c, s', Shared([], map[]), s.booted,
      s.destroyed + Handles(s.shared.active, order) + s.shared.warm)
  {
    var t, all, rest := |s.threads|, s.shared.active, s.shared.warm;
    var s1 := StartRun(c, s, PoolModel.Shutdown);
    DrainRun(c, s1, t, all, order, rest);
    var s2 := Moved(s1, t, Draining(map[], rest), Handles(all, order));
    DrainWarmRun(c, s2, t, rest, |rest|);
    assert rest[..|rest|] == rest && rest[|rest|..] == [];
    s' := Moved(s2, t, ShutDone, rest);
    assert s'.threads[..t] == s1.threads[..t];
    RestGrows(s, s');
  }

  class Pool {
    const cfg: Config
    const backend: Backend
    var warm: seq<Handle>
    var active: map<Id, Allocation>
    ghost var model: State

    ghost predicate Valid()
      reads this, backend
    {
      backend.Valid() && Linked()
    }

    /** The model state is reachable, at rest, and agrees with the fields. */
    ghost predicate Linked()
      reads this, backend`booted, backend`destroyed
    {
      && Reachable(cfg, model) && AtRest(model)
      && model.shared == Shared(warm, active)
      && model.booted == backend.booted
      && model.destroyed == backend.destroyed
    }

    /** New: PoolSize boots, failures skipped. */
    constructor (cfg: Config, backend: Backend)
      requires backend.Valid() && backend.booted == {} && backend.destroyed == []
      modifies backend
      ensures Valid() && this.cfg == cfg && this.backend == backend
      ensures warm == Successes(old(backend.script), Target(cfg)) && active == map[]
      ensures BootedInOrder(old(backend.script), cfg.poolSize, warm) && AllDistinct(warm)
      ensures Init(cfg, model)
      ensures backend.script == AfterBoots(old(backend.script), Target(cfg))
    {
      this.cfg := cfg;
      this.backend := backend;
      active := map[];
      SuccessesInOrder(backend.script, Target(cfg));
      var booted := PreBoot(backend, cfg.poolSize);
      warm := booted;
      model := State(Shared(booted, map[]), [], set h | h in booted, [], Target(cfg), 0, 0);
      new;
      assert Runs(cfg, model, []) && Final(cfg, model, []) == model;
    }

    /** New's loop. */
    static method PreBoot(backend: Backend, poolSize: int) returns (booted: seq<Handle>)
      requires backend.Valid() && backend.booted == {} && backend.destroyed == []
      modifies backend
      ensures var n := if poolSize < 0 then 0 else poolSize;
        && booted == Successes(old(backend.script), n) && |booted| <= n
        && backend.script == AfterBoots(old(backend.script), n)
      ensures backend.Valid() && backend.destroyed == [] && backend.booted == set h | h in booted
      ensures AllDistinct(booted)
    {
      booted := [];
      var i := 0;
      while i < poolSize
        invariant 0 <= i && (i <= poolSize || i == 0)
        invariant backend.Valid() && backend.destroyed == []
        invariant backend.script == AfterBoots(old(backend.script), i)
        invariant booted == Successes(old(backend.script), i) && |booted| <= i
        invariant backend.booted == set h | h in booted
        invariant AllDistinct(booted)
      {
        var r := backend.Boot();
        if r.Some? {
          booted := booted + [r.value];
        }
        i := i + 1;
      }
    }

    /** Allocate. `spawned` tells whether a replenisher is started, and `thread`
        which thread of the model it is. */
    method Allocate(request: AllocRequest) returns (id: Option<Id>, spawned: bool, ghost thread: nat)
      requires Valid()
      modifies this, backend
      ensures Valid()
      ensures spawned == (|old(warm)| > 0)
      ensures id.Some? ==> id.value in active && Defaulted(cfg, request, active[id.value].req)
      ensures spawned ==>
        var h := old(warm)[|old(warm)| - 1];
        && id == Some(h.id)
        && h.id !in old(active)
        && warm == old(warm)[..|old(warm)| - 1]
        && active == old(active)[h.id := Allocation(h, Effective(cfg, request))]
        && backend.script == old(backend.script)
        && thread < |model.threads| && model.threads[thread] == ReplStart
      ensures !spawned ==>
        && warm == []
        && backend.script == AfterBoots(old(backend.script), 1)
        && match NextBoot(old(backend.script))
           case None => id == None && active == old(active)
           case Some(h) =>
             && id == Some(h.id)
             && h.id !in old(active)
             && active == old(active)[h.id := Allocation(h, Effective(cfg, request))]
      ensures backend.destroyed == old(backend.destroyed)
    {
      var req := Effective(cfg, request);
      if |warm| > 0 {
        model := TakeRun(cfg, model, request);
        var h := warm[|warm| - 1];
        warm := warm[..|warm| - 1];
        active := active[h.id := Allocation(h, req)];
        return Some(h.id), true, |model.threads| - 1;
      }
      model := MissRun(cfg, model, request);
      spawned, thread := false, |model.threads| - 1;
      id := AllocateCold(req, thread);
    }

    /** The second half of an Allocate that found the pool empty. */
    method AllocateCold(req: AllocRequest, ghost t: nat) returns (id: Option<Id>)
      requires Valid() && t < |model.threads| && model.threads[t] == AllocBoot(req)
      modifies this`active, this`model, backend
      ensures Valid() && backend.destroyed == old(backend.destroyed)
      ensures backend.script == AfterBoots(old(backend.script), 1)
      ensures match NextBoot(old(backend.script))
        case None => id == None && active == old(active)
        case Some(h) =>
          && id == Some(h.id)
          && h.id !in old(active)
          && active == old(active)[h.id := Allocation(h, req)]
    {
      var r := backend.Boot();
      model := ColdRun(cfg, model, t, req, r);
      if r.None? {
        return None;
      }
      active := active[r.value.id := Allocation(r.value, req)];
      id := Some(r.value.id);
    }

    /** The lookup of Execute. What it finds is live, and nobody else's; when it finds
        nothing, every handle with this ID is still warm or has been destroyed. */
    method Lookup(id: Id) returns (a: Option<Allocation>)
      requires Valid()
      modifies this`model
      ensures Valid()
      ensures match a
        case Some(x) =>
          && id in active && x == active[id]
          && x.handle.id == id
          && x.handle in backend.booted && x.handle !in backend.destroyed && x.handle !in warm
        case None =>
          forall h :: h in backend.booted && h.id == id ==> h in warm || h in backend.destroyed
    {
      ReachableInv(cfg, model);
      RestLookup(model, id);
      model := LookRun(cfg, model, Execute(id));
      a := if id in active then Some(active[id]) else None;
    }

    /** Release: the allocation goes, and its handle is destroyed, if there is one. */
    method Release(id: Id)
      requires Valid()
      modifies this, backend`destroyed
      ensures Valid() && warm == old(warm) && active == old(active) - {id}
      ensures backend.destroyed == old(backend.destroyed) + if id in old(active) then [old(active)[id].handle] else []
    {
      model := ReleaseRun(cfg, model, id);
      if id !in active {
        assert active - {id} == active;
        return;
      }
      var a := active[id];
      active := active - {id};
      backend.Destroy(a.handle);
    }

    /** Shutdown: the pool is emptied; every active handle is destroyed, in the
        order `order` in which the map happened to be walked, then every warm one. */
    method Shutdown() returns (ghost order: seq<Id>)
      requires Valid()
      modifies this, backend`destroyed
      ensures Valid() && warm == [] && active == map[]
      ensures |order| == |old(active)| && forall id :: id in order <==> id in old(active)
      ensures backend.destroyed ==
        old(backend.destroyed) + Handles(old(active), order) + old(warm)
    {
      var left, rest := active, warm;
      active := map[];
      warm := [];
      order := DrainActive(left);
      DrainWarm(rest);
      FullWalkKeys(left, order);
      model := ShutdownRun(cfg, model, order);
    }

    /** Shutdown's first loop, over the map. */
    method DrainActive(all: map<Id, Allocation>) returns (ghost order: seq<Id>)
      modifies backend`destroyed
      ensures FullWalk(all, order)
      ensures backend.destroyed == old(backend.destroyed) + Handles(all, order)
    {
      var left := all;
      order := [];
      while left != map[]
        invariant IsWalk(all, order) && left == Minus(all, order)
        invariant backend.destroyed == old(backend.destroyed) + Handles(all, order)
        decreases |left|
      {
        var id :| id in left;
        WalkOn(all, order, id);
        backend.Destroy(left[id].handle);
        left := left - {id};
        order := order + [id];
      }
    }

    /** Shutdown's second loop, over the warm handles. */
    method DrainWarm(rest: seq<Handle>)
      modifies backend`destroyed
      ensures backend.destroyed == old(backend.destroyed) + rest
    {
      var i := 0;
      while i < |rest|
        invariant 0 <= i <= |rest|
        invariant backend.destroyed == old(backend.destroyed) + rest[..i]
      {
        backend.Destroy(rest[i]);
        i := i + 1;
      }
      assert rest[..|rest|] == rest;
    }

    /** Status: the two numbers, and the calls of Destroy, account for every handle that
        was ever booted. */
    method Status() returns (warmSize: nat, activeCount: nat)
      requires Valid()
      modifies this`model
      ensures Valid() && warmSize == |warm| && activeCount == |active|
      ensures warmSize + activeCount + |backend.destroyed| == |backend.booted|
    {
      ReachableInv(cfg, model);
      RestSizes(model);
      model := LookRun(cfg, model, PoolModel.Status);
      return |warm|, |active|;
    }

    /** The replenisher: boots until the pool is full or a Boot fails. */
    method Replenish(ghost t: nat)
      requires Valid() && t < |model.threads| && model.threads[t] == ReplStart
      modifies this, backend
      ensures Valid() && active == old(active) && backend.destroyed == old(backend.destroyed)
      ensures warm == Refilled(old(warm), old(backend.script), Missing(cfg, |old(warm)|))
      ensures AddsBoots(old(warm), old(backend.script), cfg.poolSize, warm)
    {
      ReplenishMeans(cfg, warm, backend.script);
      var needed := Snapshot(t);
      var i := 0;
      ghost var n := Missing(cfg, |warm|);
      ghost var goal := Refilled(warm, backend.script, n);
      while i < needed
        invariant 0 <= i <= n
        invariant Valid() && active == old(active) && backend.destroyed == old(backend.destroyed)
        invariant t < |model.threads| && model.threads[t] == Refilling(n - i)
        invariant Refilled(warm, backend.script, n - i) == goal
      {
        var ok := AddOne(t, n - i);
        if !ok {
          return;
        }
        i := i + 1;
      }
    }

    /** The replenisher's first critical section: how many handles are missing? */
    method Snapshot(ghost t: nat) returns (needed: int)
      requires Valid() && t < |model.threads| && model.threads[t] == ReplStart
      modifies this`model
      ensures Valid() && needed == cfg.poolSize - |warm|
      ensures t < |model.threads| && model.threads[t] == Refilling(needed)
    {
      needed := cfg.poolSize - |warm|;
      model := SnapshotRun(cfg, model, t);
    }

    /** One iteration of the replenisher. */
    method AddOne(ghost t: nat, ghost left: nat) returns (ok: bool)
      requires Valid() && left > 0 && t < |model.threads| && model.threads[t] == ReplBoot(left)
      modifies this`warm, this`model, backend
      ensures Valid() && backend.destroyed == old(backend.destroyed)
      ensures ok == NextBoot(old(backend.script)).Some?
      ensures if ok then Refilled(warm, backend.script, left - 1) == Refilled(old(warm), old(backend.script), left)
        else warm == Refilled(old(warm), old(backend.script), left)
      ensures backend.script == AfterBoots(old(backend.script), 1)
      ensures warm == if ok then old(warm) + [NextBoot(old(backend.script)).value] else old(warm)
      ensures ok ==> t < |model.threads| && model.threads[t] == Refilling(left - 1)
    {
      var r := backend.Boot();
      model := RefillRun(cfg, model, t, left, r);
      if r.None? {
        return false;
      }
      warm := warm + [r.value];
      return true;
    }
  }

  /** How many handles a replenisher sets out to boot. */
  function Missing(c: Config, warmSize: nat): nat {
    if c.poolSize <= warmSize then 0 else c.poolSize - warmSize
  }

  /** A replenisher adds at most what was missing, on top of what was there, and
      all of it exactly when none of its boots fails. */
  lemma {:induction false} RefilledExactly(warm: seq<Handle>, script: seq<Option<Handle>>, n: nat)
    ensures var w := Refilled(warm, script, n);
      && warm <= w && |w| <= |warm| + n
      && (|w| == |warm| + n <==> n <= |script| && forall i :: 0 <= i < n ==> script[i].Some?)
    decreases n
  {
    if n > 0 && |script| > 0 && script[0].Some? {
      RefilledExactly(warm + [script[0].value], script[1..], n - 1);
      assert forall i :: 1 <= i < |script| ==> script[i] == script[1..][i - 1];
    }
  }
}
