/** Who owns a handle: exact conservation over every interleaving, Destroy at
    most once, and what a Shutdown leaves behind. */
module PoolOwnership {
  import opened Options
  import opened Sums
  import opened PoolModel

  /* ---------- counting the places that hold a handle ---------- */

  function ActiveCount(active: map<Id, Allocation>, h: Handle): nat {
    if h.id in active && active[h.id].handle == h then 1 else 0
  }

  function SharedCount(sh: Shared, h: Handle): nat {
    multiset(sh.warm)[h] + ActiveCount(sh.active, h)
  }

  /** Booted, but not published yet. */
  function Unpublished(th: Thread, h: Handle): nat {
    if (th.AllocPublish? || th.ReplPublish?) && th.h == h then 1 else 0
  }

  /** Taken out of the pool in order to be destroyed. */
  function Claimed(th: Thread, h: Handle): nat {
    match th
    case RelDestroy(_, k) => if k == h then 1 else 0
    case ShutDrain(active, warm) => ActiveCount(active, h) + multiset(warm)[h]
    case _ => 0
  }

  function UnpublishedFn(h: Handle): Thread -> nat { th => Unpublished(th, h) }

  function ClaimedFn(h: Handle): Thread -> nat { th => Claimed(th, h) }

  /** Claimed for destruction, or already destroyed. */
  ghost function GoneCount(s: State, h: Handle): nat {
    Sum(s.threads, ClaimedFn(h)) + multiset(s.destroyed)[h]
  }

  /** In how many places is the handle? */
  ghost function Places(s: State, h: Handle): nat {
    SharedCount(s.shared, h) + Sum(s.threads, UnpublishedFn(h)) + GoneCount(s, h)
  }

  /* ---------- the invariant ---------- */

  ghost predicate Keyed(active: map<Id, Allocation>) {
    forall id :: id in active ==> active[id].handle.id == id
  }

  ghost predicate ThreadOk(th: Thread) {
    && (th.ShutDrain? ==> Keyed(th.active))
    && (th.RelDestroy? ==> th.h.id == th.id)
  }

  ghost predicate DistinctIds(booted: set<Handle>) {
    forall a, b :: a in booted && b in booted && (a.id == b.id || a.serial == b.serial) ==> a == b
  }

  ghost predicate Conserved(s: State) {
    forall h :: Places(s, h) == if h in s.booted then 1 else 0
  }

  ghost predicate Inv(s: State) {
    && Keyed(s.shared.active)
    && DistinctIds(s.booted)
    && (forall t :: 0 <= t < |s.threads| ==> ThreadOk(s.threads[t]))
    && Conserved(s)
  }

  lemma {:induction false} DistinctCount(w: seq<Handle>, h: Handle)
    requires forall i, j :: 0 <= i < j < |w| ==> w[i] != w[j]
    ensures multiset(w)[h] == if h in w then 1 else 0
  {
    if |w| > 0 {
      var n := |w| - 1;
      assert w == w[..n] + [w[n]];
      DistinctCount(w[..n], h);
    }
  }

  lemma InitInv(c: Config, s: State)
    requires Init(c, s)
    ensures Inv(s)
  {
    forall h ensures Places(s, h) == if h in s.booted then 1 else 0 {
      DistinctCount(s.shared.warm, h);
    }
  }

  /* ---------- every step keeps it ---------- */

  lemma ActiveAreBooted(s: State)
    requires Inv(s)
    ensures forall id :: id in s.shared.active ==>
      var h := s.shared.active[id].handle;
      && h in s.booted && h.id == id
      && multiset(s.shared.warm)[h] + Sum(s.threads, UnpublishedFn(h)) + GoneCount(s, h) == 0
  {
    forall id | id in s.shared.active
      ensures var h := s.shared.active[id].handle;
        && h in s.booted && h.id == id
        && multiset(s.shared.warm)[h] + Sum(s.threads, UnpublishedFn(h)) + GoneCount(s, h) == 0
    {
      var h := s.shared.active[id].handle;
      assert Places(s, h) <= 1 && ActiveCount(s.shared.active, h) == 1;
    }
  }

  /** A handle that is anywhere else has an ID that no active entry has. */
  lemma HeldIsNotActive(s: State, h: Handle)
    requires Inv(s)
    requires multiset(s.shared.warm)[h] + Sum(s.threads, UnpublishedFn(h)) + GoneCount(s, h) > 0
    ensures h.id !in s.shared.active && h in s.booted
  {
    assert Places(s, h) > 0;
    ActiveAreBooted(s);
  }

  lemma LastInWarm(w: seq<Handle>, h: Handle)
    requires |w| > 0
    ensures multiset(w)[h] == multiset(w[..|w| - 1])[h] + if w[|w| - 1] == h then 1 else 0
  {
    assert w == w[..|w| - 1] + [w[|w| - 1]];
  }

  /** What the thread and the pool hold together is the same before and after a
      critical section, and a claim is never given up. */
  ghost predicate SectionKeeps(c: Config, sh: Shared, th: Thread, h: Handle)
    requires Locks(th)
  {
    var (sh', th') := Section(c, sh, th);
    && SharedCount(sh', h) + Unpublished(th', h) + Claimed(th', h)
       == SharedCount(sh, h) + Unpublished(th, h) + Claimed(th, h)
    && Claimed(th, h) == 0
    && Keyed(sh'.active) && ThreadOk(th')
  }

  lemma TakeKeeps(c: Config, sh: Shared, req: AllocRequest, h: Handle)
    requires Keyed(sh.active) && (|sh.warm| > 0 ==> sh.warm[|sh.warm| - 1].id !in sh.active)
    ensures SectionKeeps(c, sh, AllocStart(req), h)
  {
    if |sh.warm| > 0 {
      LastInWarm(sh.warm, h);
    }
  }

  lemma PublishKeeps(c: Config, sh: Shared, req: AllocRequest, k: Handle, h: Handle)
    requires Keyed(sh.active) && k.id !in sh.active
    ensures SectionKeeps(c, sh, AllocPublish(req, k), h)
  {
  }

  lemma ReleaseKeeps(c: Config, sh: Shared, id: Id, h: Handle)
    requires Keyed(sh.active)
    ensures SectionKeeps(c, sh, RelStart(id), h)
  {
  }

  lemma SwapKeeps(c: Config, sh: Shared, h: Handle)
    requires Keyed(sh.active)
    ensures SectionKeeps(c, sh, ShutStart, h)
  {
  }

  lemma SectionConserves(c: Config, sh: Shared, th: Thread, h: Handle)
    requires Locks(th) && Keyed(sh.active)
    requires th.AllocStart? && |sh.warm| > 0 ==> sh.warm[|sh.warm| - 1].id !in sh.active
    requires th.AllocPublish? ==> th.h.id !in sh.active
    ensures SectionKeeps(c, sh, th, h)
  {
    match th
    case AllocStart(req) => TakeKeeps(c, sh, req, h);
    case AllocPublish(req, k) => PublishKeeps(c, sh, req, k, h);
    case RelStart(id) => ReleaseKeeps(c, sh, id, h);
    case ShutStart => SwapKeeps(c, sh, h);
    case _ =>
  }

  lemma DestroyMovesOne(th: Thread, d: Handle, h: Handle)
    requires Destroys(th, d) && ThreadOk(th)
    ensures Claimed(AfterDestroy(th, d), h) + (if d == h then 1 else 0) == Claimed(th, h)
    ensures Unpublished(th, h) == Unpublished(AfterDestroy(th, d), h) == 0
    ensures ThreadOk(AfterDestroy(th, d))
  {
    if th.ShutDrain? {
      if th.active == map[] {
        assert th.warm == [th.warm[0]] + th.warm[1..];
        assert multiset(th.warm)[h] == multiset([th.warm[0]])[h] + multiset(th.warm[1..])[h];
      } else {
        assert ActiveCount(th.active - {d.id}, h) + (if d == h then 1 else 0) == ActiveCount(th.active, h);
      }
    }
  }

  /** The handle a thread is about to publish is not active under any request. */
  lemma LockReady(s: State, t: nat)
    requires Inv(s) && t < |s.threads| && Locks(s.threads[t])
    ensures s.threads[t].AllocStart? && |s.shared.warm| > 0 ==>
      s.shared.warm[|s.shared.warm| - 1].id !in s.shared.active
    ensures s.threads[t].AllocPublish? ==> s.threads[t].h.id !in s.shared.active
  {
    var th := s.threads[t];
    if th.AllocStart? && |s.shared.warm| > 0 {
      LastInWarm(s.shared.warm, s.shared.warm[|s.shared.warm| - 1]);
      HeldIsNotActive(s, s.shared.warm[|s.shared.warm| - 1]);
    }
    if th.AllocPublish? {
      SumAtLeast(s.threads, t, UnpublishedFn(th.h));
      HeldIsNotActive(s, th.h);
    }
  }

  lemma Replaced(ts: seq<Thread>, t: nat, th: Thread, h: Handle)
    requires t < |ts|
    ensures Sum(ts[t := th], UnpublishedFn(h)) + Unpublished(ts[t], h) == Sum(ts, UnpublishedFn(h)) + Unpublished(th, h)
    ensures Sum(ts[t := th], ClaimedFn(h)) + Claimed(ts[t], h) == Sum(ts, ClaimedFn(h)) + Claimed(th, h)
  {
    SumUpdate(ts, t, th, UnpublishedFn(h));
    SumUpdate(ts, t, th, ClaimedFn(h));
  }

  lemma Added(ts: seq<Thread>, th: Thread, h: Handle)
    requires Unpublished(th, h) == Claimed(th, h) == 0
    ensures Sum(ts + [th], UnpublishedFn(h)) == Sum(ts, UnpublishedFn(h))
    ensures Sum(ts + [th], ClaimedFn(h)) == Sum(ts, ClaimedFn(h))
  {
    SumAppend(ts, th, UnpublishedFn(h));
    SumAppend(ts, th, ClaimedFn(h));
  }

  lemma LockCounts(c: Config, s: State, t: nat, h: Handle)
    requires Inv(s) && Enabled(s, Lock(t))
    ensures var s' := Apply(c, s, Lock(t));
      && Places(s', h) == Places(s, h)
      && GoneCount(s', h) >= GoneCount(s, h)
      && Keyed(s'.shared.active) && ThreadOk(s'.threads[t])
  {
    LockReady(s, t);
    SectionConserves(c, s.shared, s.threads[t], h);
    Replaced(s.threads, t, Section(c, s.shared, s.threads[t]).1, h);
  }

  lemma DestroyCounts(c: Config, s: State, t: nat, d: Handle, h: Handle)
    requires Inv(s) && Enabled(s, Destroy(t, d))
    ensures var s' := Apply(c, s, Destroy(t, d));
      Places(s', h) == Places(s, h) && GoneCount(s', h) == GoneCount(s, h) && ThreadOk(s'.threads[t])
  {
    DestroyMovesOne(s.threads[t], d, h);
    Replaced(s.threads, t, AfterDestroy(s.threads[t], d), h);
  }

  lemma InvokeCounts(c: Config, s: State, call: Call, h: Handle)
    ensures var s' := Apply(c, s, Invoke(call));
      Places(s', h) == Places(s, h) && GoneCount(s', h) == GoneCount(s, h)
  {
    Added(s.threads, Enter(c, call), h);
  }

  lemma SpawnCounts(c: Config, s: State, t: nat, h: Handle)
    requires Enabled(s, Spawn(t))
    ensures var s' := Apply(c, s, Spawn(t));
      Places(s', h) == Places(s, h) && GoneCount(s', h) == GoneCount(s, h)
  {
    var th := AllocDone(Some(s.threads[t].h.id));
    Replaced(s.threads, t, th, h);
    Added(s.threads[t := th], ReplStart, h);
  }

  lemma BootCounts(c: Config, s: State, t: nat, k: Handle, h: Handle)
    requires Enabled(s, BootOk(t, k))
    ensures var s' := Apply(c, s, BootOk(t, k));
      Places(s', h) == Places(s, h) + (if k == h then 1 else 0) && GoneCount(s', h) == GoneCount(s, h)
  {
    Replaced(s.threads, t, AfterBoot(s.threads[t], k), h);
  }

  lemma IdleCounts(c: Config, s: State, a: Action, h: Handle)
    requires Enabled(s, a) && (a.BootFail? || a.ExecReturn?)
    ensures var s' := Apply(c, s, a);
      Places(s', h) == Places(s, h) && GoneCount(s', h) == GoneCount(s, h)
  {
    Replaced(s.threads, a.t, Apply(c, s, a).threads[a.t], h);
  }

  /** How one action changes the counts of one handle: only a successful Boot adds
      to them, and only for the handle it returns. */
  lemma StepCounts(c: Config, s: State, a: Action, h: Handle)
    requires Inv(s) && Enabled(s, a)
    ensures var s' := Apply(c, s, a);
      && Places(s', h) == Places(s, h) + (if a.BootOk? && a.h == h then 1 else 0)
      && GoneCount(s', h) >= GoneCount(s, h)
  {
    match a
    case Invoke(call) => InvokeCounts(c, s, call, h);
    case Lock(t) => LockCounts(c, s, t, h);
    case BootOk(t, k) => BootCounts(c, s, t, k, h);
    case BootFail(_) => IdleCounts(c, s, a, h);
    case Spawn(t) => SpawnCounts(c, s, t, h);
    case Destroy(t, k) => DestroyCounts(c, s, t, k, h);
    case ExecReturn(_) => IdleCounts(c, s, a, h);
  }

  lemma StepThreads(c: Config, s: State, a: Action)
    requires Inv(s) && Enabled(s, a)
    ensures var s' := Apply(c, s, a);
      && Keyed(s'.shared.active)
      && forall t :: 0 <= t < |s'.threads| ==> ThreadOk(s'.threads[t])
  {
    match a
    case Lock(t) => LockCounts(c, s, t, Handle(0, ""));
    case Destroy(t, k) => DestroyCounts(c, s, t, k, k);
    case _ =>
  }

  lemma StepBooted(c: Config, s: State, a: Action)
    requires DistinctIds(s.booted) && Enabled(s, a)
    ensures Apply(c, s, a).booted == s.booted + if a.BootOk? then {a.h} else {}
    ensures a.BootOk? ==> a.h !in s.booted
    ensures DistinctIds(Apply(c, s, a).booted)
  {
  }

  lemma StepConserved(c: Config, s: State, a: Action)
    requires Inv(s) && Enabled(s, a)
    ensures Conserved(Apply(c, s, a))
  {
    StepBooted(c, s, a);
    forall h ensures Places(Apply(c, s, a), h) == if h in Apply(c, s, a).booted then 1 else 0 {
      StepCounts(c, s, a, h);
      assert Places(s, h) == if h in s.booted then 1 else 0;
    }
  }

  lemma StepInv(c: Config, s: State, a: Action)
    requires Inv(s) && Enabled(s, a)
    ensures Inv(Apply(c, s, a))
  {
    StepThreads(c, s, a);
    StepBooted(c, s, a);
    StepConserved(c, s, a);
  }

  lemma {:induction false} RunInv(c: Config, s: State, acts: seq<Action>)
    requires Inv(s) && Runs(c, s, acts)
    ensures Inv(Final(c, s, acts))
    decreases |acts|
  {
    if |acts| > 0 {
      StepInv(c, s, acts[0]);
      RunInv(c, Apply(c, s, acts[0]), acts[1..]);
    }
  }

  /* ---------- exactly one owner ---------- */

  /** Where a handle can be. */
  datatype Place =
    | InWarm(index: nat)
    | InActive(key: Id)
    | AwaitsPublishing(thread: nat)
    | ClaimedBy(thread: nat)
    | WasDestroyed(call: nat)

  ghost predicate At(s: State, h: Handle, p: Place) {
    match p
    case InWarm(i) => i < |s.shared.warm| && s.shared.warm[i] == h
    case InActive(k) => k in s.shared.active && s.shared.active[k].handle == h
    case AwaitsPublishing(t) => t < |s.threads| && Unpublished(s.threads[t], h) > 0
    case ClaimedBy(t) => t < |s.threads| && Claimed(s.threads[t], h) > 0
    case WasDestroyed(k) => k < |s.destroyed| && s.destroyed[k] == h
  }

  lemma {:induction false} CountTwo(w: seq<Handle>, i: nat, j: nat)
    requires i < j < |w| && w[i] == w[j]
    ensures multiset(w)[w[i]] >= 2
  {
    assert w == w[..j] + [w[j]] + w[j + 1..];
    assert w[i] in w[..j];
  }

  lemma CountIn(w: seq<Handle>, h: Handle)
    ensures multiset(w)[h] > 0 <==> h in w
  {
    assert h in multiset(w) <==> h in w;
  }

  /** What each place contributes to the count. */
  lemma PlaceCounts(s: State, h: Handle, p: Place)
    requires Inv(s) && At(s, h, p)
    ensures match p
      case InWarm(_) => multiset(s.shared.warm)[h] >= 1
      case InActive(k) => k == h.id && ActiveCount(s.shared.active, h) == 1
      case AwaitsPublishing(_) => Sum(s.threads, UnpublishedFn(h)) >= 1
      case ClaimedBy(_) => Sum(s.threads, ClaimedFn(h)) >= 1
      case WasDestroyed(_) => multiset(s.destroyed)[h] >= 1
  {
    match p
    case InWarm(i) => CountIn(s.shared.warm, h);
    case InActive(k) =>
    case AwaitsPublishing(t) => SumAtLeast(s.threads, t, UnpublishedFn(h));
    case ClaimedBy(t) => SumAtLeast(s.threads, t, ClaimedFn(h));
    case WasDestroyed(k) => CountIn(s.destroyed, h);
  }

  lemma PlaceUnique(s: State, h: Handle, p: Place, q: Place)
    requires Inv(s) && At(s, h, p) && At(s, h, q)
    ensures p == q
  {
    PlaceCounts(s, h, p);
    PlaceCounts(s, h, q);
    assert Places(s, h) <= 1;
    match (p, q)
    case (InWarm(i), InWarm(j)) =>
      if i < j { CountTwo(s.shared.warm, i, j); } else if j < i { CountTwo(s.shared.warm, j, i); }
    case (WasDestroyed(i), WasDestroyed(j)) =>
      if i < j { CountTwo(s.destroyed, i, j); } else if j < i { CountTwo(s.destroyed, j, i); }
    case (AwaitsPublishing(i), AwaitsPublishing(j)) =>
      if i < j { SumAtLeastTwo(s.threads, i, j, UnpublishedFn(h)); }
      else if j < i { SumAtLeastTwo(s.threads, j, i, UnpublishedFn(h)); }
    case (ClaimedBy(i), ClaimedBy(j)) =>
      if i < j { SumAtLeastTwo(s.threads, i, j, ClaimedFn(h)); }
      else if j < i { SumAtLeastTwo(s.threads, j, i, ClaimedFn(h)); }
    case _ =>
  }

  lemma PlaceExists(s: State, h: Handle) returns (p: Place)
    requires Inv(s) && h in s.booted
    ensures At(s, h, p)
  {
    assert Places(s, h) == 1;
    if multiset(s.shared.warm)[h] > 0 {
      CountIn(s.shared.warm, h);
      var i :| 0 <= i < |s.shared.warm| && s.shared.warm[i] == h;
      p := InWarm(i);
    } else if ActiveCount(s.shared.active, h) > 0 {
      p := InActive(h.id);
    } else if Sum(s.threads, UnpublishedFn(h)) > 0 {
      var t := SumWitness(s.threads, UnpublishedFn(h));
      p := AwaitsPublishing(t);
    } else if Sum(s.threads, ClaimedFn(h)) > 0 {
      var t := SumWitness(s.threads, ClaimedFn(h));
      p := ClaimedBy(t);
    } else {
      CountIn(s.destroyed, h);
      var i :| 0 <= i < |s.destroyed| && s.destroyed[i] == h;
      p := WasDestroyed(i);
    }
  }

  /** Ownership conservation: in every reachable state of every interleaving a
      handle that was ever booted is in exactly one place, and a handle that was
      not is nowhere. */
  lemma ExactlyOneOwner(c: Config, s0: State, acts: seq<Action>, h: Handle)
    requires Init(c, s0) && Runs(c, s0, acts)
    ensures var s := Final(c, s0, acts);
      && (h in s.booted <==> exists p :: At(s, h, p))
      && (forall p, q :: At(s, h, p) && At(s, h, q) ==> p == q)
  {
    InitInv(c, s0);
    RunInv(c, s0, acts);
    var s := Final(c, s0, acts);
    if h in s.booted {
      var p := PlaceExists(s, h);
    }
    forall p | At(s, h, p) ensures h in s.booted {
      PlaceCounts(s, h, p);
    }
    forall p, q | At(s, h, p) && At(s, h, q) ensures p == q {
      PlaceUnique(s, h, p, q);
    }
  }

  /** Under any racing Releases and Shutdowns Destroy is called at most once for
      a handle, only for a handle that was booted, and the active map is keyed by
      handle ID. */
  lemma DestroyedAtMostOnce(c: Config, s0: State, acts: seq<Action>)
    requires Init(c, s0) && Runs(c, s0, acts)
    ensures var s := Final(c, s0, acts);
      && (forall i, j :: 0 <= i < j < |s.destroyed| ==> s.destroyed[i] != s.destroyed[j])
      && (forall i :: 0 <= i < |s.destroyed| ==> s.destroyed[i] in s.booted)
      && Keyed(s.shared.active)
  {
    InitInv(c, s0);
    RunInv(c, s0, acts);
    var s := Final(c, s0, acts);
    forall i, j | 0 <= i < j < |s.destroyed| ensures s.destroyed[i] != s.destroyed[j] {
      assert Places(s, s.destroyed[i]) <= 1;
      if s.destroyed[i] == s.destroyed[j] {
        CountTwo(s.destroyed, i, j);
      }
    }
    forall i | 0 <= i < |s.destroyed| ensures s.destroyed[i] in s.booted {
      CountIn(s.destroyed, s.destroyed[i]);
      assert Places(s, s.destroyed[i]) >= 1;
    }
  }

  /** Freshness is needed. Storing an allocation keeps every active handle, and
      adds the new one, exactly when no other handle is active under its ID: on a
      collision the old sandbox can no longer be reached, so never destroyed. */
  lemma PublishKeepsHandles(sh: Shared, req: AllocRequest, h: Handle)
    requires Keyed(sh.active)
    ensures
      (forall k ::
        ActiveCount(sh.active[h.id := Allocation(h, req)], k) == if k == h then 1 else ActiveCount(sh.active, k))
      <==> (h.id !in sh.active || sh.active[h.id].handle == h)
  {
    if h.id in sh.active && sh.active[h.id].handle != h {
      var k := sh.active[h.id].handle;
      assert ActiveCount(sh.active[h.id := Allocation(h, req)], k) == 0 && ActiveCount(sh.active, k) == 1;
    }
  }

  /* ---------- what is gone stays gone ---------- */

  lemma {:induction false} GoneForever(c: Config, s: State, acts: seq<Action>, h: Handle)
    requires Inv(s) && Runs(c, s, acts)
    ensures Inv(Final(c, s, acts)) && GoneCount(Final(c, s, acts), h) >= GoneCount(s, h)
    ensures s.booted <= Final(c, s, acts).booted
    decreases |acts|
  {
    if |acts| > 0 {
      StepCounts(c, s, acts[0], h);
      StepInv(c, s, acts[0]);
      GoneForever(c, Apply(c, s, acts[0]), acts[1..], h);
    }
  }

  /** Once a Release has found an ID, that ID is not found by anyone, in any
      later state of any run: every later lookup, by Execute or by Release,
      reports "not found". */
  lemma ReleasedNeverFound(c: Config, s: State, t: nat, acts: seq<Action>)
    requires Inv(s) && t < |s.threads| && s.threads[t].RelStart? && s.threads[t].id in s.shared.active
    requires Runs(c, Apply(c, s, Lock(t)), acts)
    ensures var id := s.threads[t].id;
      var sh := Final(c, Apply(c, s, Lock(t)), acts).shared;
      && id !in sh.active
      && Section(c, sh, ExecStart(id)).1 == ExecDone(id, None)
      && Section(c, sh, RelStart(id)).1 == RelDone(id, false)
  {
    var id := s.threads[t].id;
    var h := s.shared.active[id].handle;
    var s' := Apply(c, s, Lock(t));
    StepInv(c, s, Lock(t));
    assert s'.threads[t] == RelDestroy(id, h);
    SumAtLeast(s'.threads, t, ClaimedFn(h));
    GoneForever(c, s', acts, h);
    HeldIsNotActive(Final(c, s', acts), h);
  }

  /* ---------- Shutdown ---------- */

  /** No Release or Shutdown is between its critical section and its last Destroy. */
  ghost predicate NoDestroyerRuns(s: State) {
    forall t :: 0 <= t < |s.threads| ==> !s.threads[t].RelDestroy? && !s.threads[t].ShutDrain?
  }

  lemma IdleMeansDestroyed(s: State, h: Handle)
    requires NoDestroyerRuns(s)
    ensures GoneCount(s, h) == multiset(s.destroyed)[h]
  {
    SumZero(s.threads, ClaimedFn(h));
  }

  /** Right after the swap the booted handles that are neither destroyed nor
      claimed are exactly those that were unpublished at the swap. */
  lemma SwapClaimsPublished(c: Config, s: State, t: nat, h: Handle)
    requires Inv(s) && t < |s.threads| && s.threads[t].ShutStart? && h in s.booted
    ensures GoneCount(Apply(c, s, Lock(t)), h) == 0 <==> Sum(s.threads, UnpublishedFn(h)) > 0
  {
    var s' := Apply(c, s, Lock(t));
    StepInv(c, s, Lock(t));
    assert Places(s', h) == 1;
    SumUpdate(s.threads, t, s'.threads[t], UnpublishedFn(h));
    assert SharedCount(s'.shared, h) == 0;
  }

  /** Shutdown accounting, over any continuation: when no Release and no Shutdown
      is still destroying, every handle that was booted before the swap and not
      unpublished at it has been destroyed. */
  lemma ShutdownDestroysPublished(c: Config, s: State, t: nat, acts: seq<Action>, h: Handle)
    requires Inv(s) && t < |s.threads| && s.threads[t].ShutStart?
    requires Runs(c, Apply(c, s, Lock(t)), acts)
    requires NoDestroyerRuns(Final(c, Apply(c, s, Lock(t)), acts))
    requires h in s.booted && Sum(s.threads, UnpublishedFn(h)) == 0
    ensures h in Final(c, Apply(c, s, Lock(t)), acts).destroyed
  {
    var s' := Apply(c, s, Lock(t));
    SwapClaimsPublished(c, s, t, h);
    StepInv(c, s, Lock(t));
    GoneForever(c, s', acts, h);
    IdleMeansDestroyed(Final(c, s', acts), h);
    CountIn(Final(c, s', acts).destroyed, h);
  }

  /** Is the critical section one that takes handles out of the pool in order to destroy
      them? A Release that finds nothing, or a Shutdown of an empty pool, is not. */
  predicate Takes(sh: Shared, th: Thread) {
    (th.RelStart? && th.id in sh.active) || (th.ShutStart? && sh != Shared([], map[]))
  }

  /** No Release or Shutdown takes a handle out of the pool on this run. */
  ghost predicate NoneTakes(c: Config, s: State, acts: seq<Action>)
    requires Runs(c, s, acts)
    decreases |acts|
  {
    |acts| > 0 ==>
      && (acts[0].Lock? ==> !Takes(s.shared, s.threads[acts[0].t]))
      && NoneTakes(c, Apply(c, s, acts[0]), acts[1..])
  }

  lemma NoTakeKeeps(c: Config, s: State, a: Action, h: Handle)
    requires Inv(s) && Enabled(s, a) && (a.Lock? ==> !Takes(s.shared, s.threads[a.t]))
    ensures GoneCount(Apply(c, s, a), h) == GoneCount(s, h)
  {
    match a
    case Invoke(call) => InvokeCounts(c, s, call, h);
    case Lock(t) =>
      LockReady(s, t);
      SectionConserves(c, s.shared, s.threads[t], h);
      Replaced(s.threads, t, Section(c, s.shared, s.threads[t]).1, h);
    case BootOk(t, k) => BootCounts(c, s, t, k, h);
    case BootFail(_) => IdleCounts(c, s, a, h);
    case Spawn(t) => SpawnCounts(c, s, t, h);
    case Destroy(t, k) => DestroyCounts(c, s, t, k, h);
    case ExecReturn(_) => IdleCounts(c, s, a, h);
  }

  lemma {:induction false} NoneTakesGone(c: Config, s: State, acts: seq<Action>, h: Handle)
    requires Inv(s) && Runs(c, s, acts) && NoneTakes(c, s, acts)
    ensures GoneCount(Final(c, s, acts), h) == GoneCount(s, h)
    decreases |acts|
  {
    if |acts| > 0 {
      NoTakeKeeps(c, s, acts[0], h);
      StepInv(c, s, acts[0]);
      NoneTakesGone(c, Apply(c, s, acts[0]), acts[1..], h);
    }
  }

  /** A section that takes something claims a handle that was in the pool. */
  lemma SectionClaims(c: Config, sh: Shared, th: Thread) returns (h: Handle)
    requires Keyed(sh.active) && Locks(th) && Takes(sh, th)
    ensures SharedCount(sh, h) > 0 && Claimed(Section(c, sh, th).1, h) > 0
  {
    if th.RelStart? {
      h := sh.active[th.id].handle;
    } else if sh.active != map[] {
      var id :| id in sh.active;
      h := sh.active[id].handle;
    } else {
      h := sh.warm[0];
      CountIn(sh.warm, h);
    }
  }

  lemma TakeClaims(c: Config, s: State, t: nat) returns (h: Handle)
    requires Inv(s) && Enabled(s, Lock(t)) && Takes(s.shared, s.threads[t])
    ensures GoneCount(s, h) == 0 < GoneCount(Apply(c, s, Lock(t)), h)
  {
    h := SectionClaims(c, s.shared, s.threads[t]);
    assert Places(s, h) <= 1;
    SumAtLeast(Apply(c, s, Lock(t)).threads, t, ClaimedFn(h));
  }

  lemma {:induction false} SomeTakeClaims(c: Config, s: State, acts: seq<Action>) returns (h: Handle)
    requires Inv(s) && Runs(c, s, acts) && !NoneTakes(c, s, acts)
    ensures GoneCount(s, h) == 0 < GoneCount(Final(c, s, acts), h)
    decreases |acts|
  {
    var a := acts[0];
    var s' := Apply(c, s, a);
    StepInv(c, s, a);
    if a.Lock? && Takes(s.shared, s.threads[a.t]) {
      h := TakeClaims(c, s, a.t);
      GoneForever(c, s', acts[1..], h);
    } else {
      h := SomeTakeClaims(c, s', acts[1..]);
      NoTakeKeeps(c, s, a, h);
    }
  }

  /** At `end` the handle was left alone exactly if it was unpublished at the swap, in
      state `s`, or booted after it. */
  ghost predicate Accounted(s: State, end: State, h: Handle) {
    h in end.booted ==> (h !in end.destroyed <==> Sum(s.threads, UnpublishedFn(h)) > 0 || h !in s.booted)
  }

  lemma GoneMeansDestroyed(s: State, h: Handle)
    requires Inv(s) && NoDestroyerRuns(s)
    ensures h in s.destroyed <==> GoneCount(s, h) > 0
    ensures h in s.destroyed ==> h in s.booted
  {
    IdleMeansDestroyed(s, h);
    CountIn(s.destroyed, h);
    assert Places(s, h) <= 1;
  }

  /** Right after the swap: gone, unless unpublished at it or not booted yet. */
  lemma GoneAtSwap(c: Config, s: State, t: nat, h: Handle)
    requires Inv(s) && t < |s.threads| && s.threads[t].ShutStart?
    ensures GoneCount(Apply(c, s, Lock(t)), h) == 0 <==> Sum(s.threads, UnpublishedFn(h)) > 0 || h !in s.booted
  {
    StepInv(c, s, Lock(t));
    if h in s.booted {
      SwapClaimsPublished(c, s, t, h);
    } else {
      assert Places(Apply(c, s, Lock(t)), h) == 0;
    }
  }

  /** The same account in both directions, and exactly when it holds: at the end the
      booted handles that were not destroyed are those unpublished at the swap or booted
      after it, if and only if no Release or Shutdown took a handle after the swap. A
      Release or Shutdown that comes too late to find anything does no harm. */
  lemma ShutdownAccountingIff(c: Config, s: State, t: nat, acts: seq<Action>)
    requires Inv(s) && t < |s.threads| && s.threads[t].ShutStart?
    requires Runs(c, Apply(c, s, Lock(t)), acts)
    requires NoDestroyerRuns(Final(c, Apply(c, s, Lock(t)), acts))
    ensures var s' := Apply(c, s, Lock(t));
      (forall h :: Accounted(s, Final(c, s', acts), h)) <==> NoneTakes(c, s', acts)
  {
    var s' := Apply(c, s, Lock(t));
    var end := Final(c, s', acts);
    StepInv(c, s, Lock(t));
    RunInv(c, s', acts);
    if NoneTakes(c, s', acts) {
      forall h ensures Accounted(s, end, h) {
        NoneTakesGone(c, s', acts, h);
        GoneMeansDestroyed(end, h);
        GoneAtSwap(c, s, t, h);
      }
    } else {
      var h := SomeTakeClaims(c, s', acts);
      GoneMeansDestroyed(end, h);
      GoneAtSwap(c, s, t, h);
      assert !Accounted(s, end, h);
    }
  }

  /** No boot is running or awaiting publication, and none can start without a new
      call. */
  ghost predicate NoBootPending(s: State) {
    forall t :: 0 <= t < |s.threads| ==>
      var th := s.threads[t];
      !th.AllocStart? && !th.AllocBoot? && !th.AllocPublish? && !th.AllocSpawn? &&
      !th.ReplStart? && !th.ReplBoot? && !th.ReplPublish?
  }

  predicate NoAllocate(acts: seq<Action>) {
    forall i :: 0 <= i < |acts| ==> !(acts[i].Invoke? && acts[i].call.Allocate?)
  }

  lemma {:induction false} NoBootStaysSo(c: Config, s: State, acts: seq<Action>)
    requires NoBootPending(s) && NoAllocate(acts) && Runs(c, s, acts)
    ensures NoBootPending(Final(c, s, acts)) && Final(c, s, acts).booted == s.booted
    decreases |acts|
  {
    if |acts| > 0 {
      var s' := Apply(c, s, acts[0]);
      assert NoBootPending(s') && s'.booted == s.booted;
      NoBootStaysSo(c, s', acts[1..]);
    }
  }

  /** A Shutdown with no Allocate or replenisher in flight, and none called
      afterwards, destroys every handle ever booted, each exactly once. */
  lemma QuietShutdownDestroysAll(c: Config, s0: State, before: seq<Action>, t: nat, after: seq<Action>)
    requires Init(c, s0) && Runs(c, s0, before)
    requires var s := Final(c, s0, before);
      && t < |s.threads| && s.threads[t].ShutStart? && NoBootPending(s)
      && Runs(c, Apply(c, s, Lock(t)), after)
      && NoAllocate(after)
      && NoDestroyerRuns(Final(c, Apply(c, s, Lock(t)), after))
    ensures var s := Final(c, Apply(c, Final(c, s0, before), Lock(t)), after);
      multiset(s.destroyed) == multiset(s.booted)
  {
    InitInv(c, s0);
    RunInv(c, s0, before);
    QuietSwap(c, Final(c, s0, before), t, after);
  }

  lemma QuietSwap(c: Config, s: State, t: nat, after: seq<Action>)
    requires Inv(s) && t < |s.threads| && s.threads[t].ShutStart? && NoBootPending(s)
    requires Runs(c, Apply(c, s, Lock(t)), after) && NoAllocate(after)
    requires NoDestroyerRuns(Final(c, Apply(c, s, Lock(t)), after))
    ensures var end := Final(c, Apply(c, s, Lock(t)), after);
      multiset(end.destroyed) == multiset(end.booted)
  {
    var s1 := Apply(c, s, Lock(t));
    StepInv(c, s, Lock(t));
    RunInv(c, s1, after);
    NoBootStaysSo(c, s1, after);
    forall h ensures multiset(Final(c, s1, after).destroyed)[h] == multiset(Final(c, s1, after).booted)[h] {
      QuietHandle(c, s, t, after, h);
    }
  }

  lemma QuietHandle(c: Config, s: State, t: nat, after: seq<Action>, h: Handle)
    requires Inv(s) && t < |s.threads| && s.threads[t].ShutStart? && NoBootPending(s)
    requires Runs(c, Apply(c, s, Lock(t)), after)
    requires NoDestroyerRuns(Final(c, Apply(c, s, Lock(t)), after))
    requires var end := Final(c, Apply(c, s, Lock(t)), after);
      Inv(end) && end.booted == s.booted
    ensures var end := Final(c, Apply(c, s, Lock(t)), after);
      multiset(end.destroyed)[h] == if h in end.booted then 1 else 0
  {
    var end := Final(c, Apply(c, s, Lock(t)), after);
    assert Places(end, h) == if h in end.booted then 1 else 0;
    if h in end.booted {
      SumZero(s.threads, UnpublishedFn(h));
      ShutdownDestroysPublished(c, s, t, after, h);
      CountIn(end.destroyed, h);
    }
  }

  /* ---------- the pool at rest ---------- */

  /** No thread holds a handle: none awaits publication, none is claimed. */
  ghost predicate AtRest(s: State) {
    forall t :: 0 <= t < |s.threads| ==>
      var th := s.threads[t];
      !th.AllocPublish? && !th.ReplPublish? && !th.RelDestroy? && !th.ShutDrain?
  }

  lemma RestCounts(s: State, h: Handle)
    requires Inv(s) && AtRest(s)
    ensures SharedCount(s.shared, h) + multiset(s.destroyed)[h] == if h in s.booted then 1 else 0
  {
    SumZero(s.threads, UnpublishedFn(h));
    SumZero(s.threads, ClaimedFn(h));
    assert Places(s, h) == if h in s.booted then 1 else 0;
  }

  ghost function ActiveHandles(active: map<Id, Allocation>): set<Handle> {
    set id | id in active :: active[id].handle
  }

  lemma ActiveMember(active: map<Id, Allocation>, h: Handle)
    requires Keyed(active)
    ensures h in ActiveHandles(active) <==> ActiveCount(active, h) == 1
  {
    if h in ActiveHandles(active) {
      var id :| id in active && active[id].handle == h;
    }
  }

  lemma {:induction false} ActiveSize(active: map<Id, Allocation>)
    requires Keyed(active)
    ensures |ActiveHandles(active)| == |active|
    decreases |active|
  {
    if active != map[] {
      var id :| id in active;
      OneMoreActive(active, id);
      ActiveSize(active - {id});
    }
  }

  lemma OneMoreActive(active: map<Id, Allocation>, id: Id)
    requires Keyed(active) && id in active
    ensures |active| == |active - {id}| + 1
    ensures |ActiveHandles(active)| == |ActiveHandles(active - {id})| + 1
  {
    var rest, h := active - {id}, active[id].handle;
    assert rest.Keys == active.Keys - {id};
    assert h !in ActiveHandles(rest);
    forall k ensures k in ActiveHandles(active) <==> k in ActiveHandles(rest) + {h} {
      ActiveMember(active, k);
      ActiveMember(rest, k);
    }
    assert ActiveHandles(active) == ActiveHandles(rest) + {h};
  }

  /** Conservation in numbers: at rest, warm, active and destroyed handles make up the
      booted ones. */
  lemma RestSizes(s: State)
    requires Inv(s) && AtRest(s)
    ensures |s.shared.warm| + |s.shared.active| + |s.destroyed| == |s.booted|
  {
    var warm, live, gone := multiset(s.shared.warm), ActiveHandles(s.shared.active), multiset(s.destroyed);
    ActiveSize(s.shared.active);
    forall h ensures (warm + multiset(live) + gone)[h] == multiset(s.booted)[h] {
      RestCounts(s, h);
      ActiveMember(s.shared.active, h);
    }
    assert warm + multiset(live) + gone == multiset(s.booted);
    assert |warm| == |s.shared.warm| && |gone| == |s.destroyed|;
    assert |multiset(live)| == |live| && |multiset(s.booted)| == |s.booted|;
  }

  /** What a lookup tells: the handle it finds is live, and if it finds none then every
      handle with that ID is warm or has been destroyed. */
  lemma RestLookup(s: State, id: Id)
    requires Inv(s) && AtRest(s)
    ensures id in s.shared.active ==>
      var h := s.shared.active[id].handle;
      h.id == id && h in s.booted && h !in s.destroyed && h !in s.shared.warm
    ensures id !in s.shared.active ==>
      forall h :: h in s.booted && h.id == id ==> h in s.shared.warm || h in s.destroyed
  {
    forall h ensures (h in s.shared.warm <==> multiset(s.shared.warm)[h] > 0)
      && (h in s.destroyed <==> multiset(s.destroyed)[h] > 0)
    {
      CountIn(s.shared.warm, h);
      CountIn(s.destroyed, h);
    }
    if id in s.shared.active {
      RestCounts(s, s.shared.active[id].handle);
    } else {
      forall h | h in s.booted && h.id == id ensures h in s.shared.warm || h in s.destroyed {
        RestCounts(s, h);
      }
    }
  }
}
