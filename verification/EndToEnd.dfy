/** The pool over the Firecracker backend: no directory, log file or process is ever
    lost track of. Boots acquire their three resources one at a time, and give back
    what they hold when they fail; Destroys release them one at a time. Both
    interleave with each other and with everything the pool does. */
module EndToEnd {
  import opened Sums
  import opened PoolModel
  import opened PoolOwnership

  /** A Boot in progress in thread `t`: it holds its directory from level 1, its log
      file from level 2, its process at level 3. */
  datatype Boot = Boot(t: nat, level: nat, failed: bool)

  /** A Destroy in progress in thread `t`: what is still there. */
  datatype Tear = Tear(t: nat, level: nat)

  /** Boots are named by the serial that their handle will have. */
  datatype Sys = Sys(
    pool: State,
    boots: map<nat, Boot>,
    tears: map<Handle, Tear>,
    dirs: set<nat>,
    logs: set<nat>,
    procs: set<nat>)

  datatype SysAction =
    | Plain(a: Action)
    | BeginBoot(t: nat, serial: nat)
    | Acquire(serial: nat)
    | Fail(serial: nat)
    | GiveBack(serial: nat)
    | BootDone(serial: nat, h: Handle)
    | BootGivesUp(serial: nat)
    | BeginDestroy(t: nat, h: Handle)
    | TearDown(h: Handle)
    | DestroyDone(h: Handle)

  /** No handle and no Boot has this serial. */
  ghost predicate Unused(s: Sys, serial: nat) {
    serial !in s.boots && forall h :: h in s.pool.booted ==> h.serial != serial
  }

  ghost predicate Enabled(s: Sys, a: SysAction) {
    match a
    case Plain(p) => !p.BootOk? && !p.BootFail? && !p.Destroy? && PoolModel.Enabled(s.pool, p)
    case BeginBoot(t, n) =>
      && t < |s.pool.threads| && Boots(s.pool.threads[t]) && Unused(s, n)
      && forall k :: k in s.boots ==> s.boots[k].t != t
    case Acquire(n) => n in s.boots && !s.boots[n].failed && s.boots[n].level < 3
    case Fail(n) => n in s.boots && !s.boots[n].failed
    case GiveBack(n) => n in s.boots && s.boots[n].failed && s.boots[n].level > 0
    case BootDone(n, h) =>
      && n in s.boots && !s.boots[n].failed && s.boots[n].level == 3
      && h.serial == n && PoolModel.Enabled(s.pool, BootOk(s.boots[n].t, h))
    case BootGivesUp(n) =>
      && n in s.boots && s.boots[n].failed && s.boots[n].level == 0
      && PoolModel.Enabled(s.pool, BootFail(s.boots[n].t))
    case BeginDestroy(t, h) =>
      && PoolModel.Enabled(s.pool, Destroy(t, h)) && h !in s.tears
      && forall k :: k in s.tears ==> s.tears[k].t != t
    case TearDown(h) => h in s.tears && s.tears[h].level > 0
    case DestroyDone(h) =>
      h in s.tears && s.tears[h].level == 0 && PoolModel.Enabled(s.pool, Destroy(s.tears[h].t, h))
  }

  /** The pool's part of an action. */
  ghost function PoolPart(s: Sys, a: SysAction): seq<Action>
    requires Enabled(s, a)
  {
    match a
    case Plain(p) => [p]
    case BootDone(n, h) => [BootOk(s.boots[n].t, h)]
    case BootGivesUp(n) => [BootFail(s.boots[n].t)]
    case DestroyDone(h) => [Destroy(s.tears[h].t, h)]
    case _ => []
  }

  ghost function NextPool(c: Config, s: Sys, a: SysAction): State
    requires Enabled(s, a)
  {
    var p := PoolPart(s, a);
    if |p| == 0 then s.pool else PoolModel.Apply(c, s.pool, p[0])
  }

  /** Acquire takes directory, log file, process in this order; GiveBack and TearDown
      let go of them in the opposite order. */
  ghost function Apply(c: Config, s: Sys, a: SysAction): Sys
    requires Enabled(s, a)
  {
    var s' := s.(pool := NextPool(c, s, a));
    match a
    case Plain(_) => s'
    case BeginBoot(t, n) => s'.(boots := s.boots[n := Boot(t, 0, false)])
    case Acquire(n) =>
      var level := s.boots[n].level + 1;
      Gain(s'.(boots := s.boots[n := s.boots[n].(level := level)]), n, level)
    case Fail(n) => s'.(boots := s.boots[n := s.boots[n].(failed := true)])
    case GiveBack(n) =>
      var level := s.boots[n].level;
      Lose(s'.(boots := s.boots[n := s.boots[n].(level := level - 1)]), n, level)
    case BootDone(n, _) => s'.(boots := s.boots - {n})
    case BootGivesUp(n) => s'.(boots := s.boots - {n})
    case BeginDestroy(t, h) => s'.(tears := s.tears[h := Tear(t, 3)])
    case TearDown(h) => Torn(s, h)
    case DestroyDone(h) => s'.(tears := s.tears - {h})
  }

  function Gain(s: Sys, n: nat, level: nat): Sys {
    if level == 1 then s.(dirs := s.dirs + {n})
    else if level == 2 then s.(logs := s.logs + {n})
    else s.(procs := s.procs + {n})
  }

  function Lose(s: Sys, n: nat, level: nat): Sys {
    if level == 1 then s.(dirs := s.dirs - {n})
    else if level == 2 then s.(logs := s.logs - {n})
    else s.(procs := s.procs - {n})
  }

  /** One resource of a VM that is being destroyed is released. */
  function Torn(s: Sys, h: Handle): Sys
    requires h in s.tears && s.tears[h].level > 0
  {
    var tear := s.tears[h];
    Lose(s.(tears := s.tears[h := Tear(tear.t, tear.level - 1)]), h.serial, tear.level)
  }

  /* ---------- the invariant ---------- */

  /** How many of its resources a handle still has. */
  ghost function HandleLevel(s: Sys, h: Handle): nat {
    if h !in s.pool.booted || h in s.pool.destroyed then 0
    else if h in s.tears then s.tears[h].level
    else 3
  }

  /** Somebody accounts for the resource of level `k` named `n`. */
  ghost predicate Held(s: Sys, n: nat, k: nat) {
    || (n in s.boots && s.boots[n].level >= k)
    || (exists h :: h in s.pool.booted && h.serial == n && HandleLevel(s, h) >= k)
  }

  ghost predicate Ledger(s: Sys) {
    && (forall n :: n in s.dirs <==> Held(s, n, 1))
    && (forall n :: n in s.logs <==> Held(s, n, 2))
    && (forall n :: n in s.procs <==> Held(s, n, 3))
  }

  ghost predicate Wired(s: Sys) {
    && (forall n :: n in s.boots ==>
          && s.boots[n].t < |s.pool.threads| && Boots(s.pool.threads[s.boots[n].t])
          && s.boots[n].level <= 3
          && forall h :: h in s.pool.booted ==> h.serial != n)
    && (forall n, m :: n in s.boots && m in s.boots && n != m ==> s.boots[n].t != s.boots[m].t)
    && (forall h :: h in s.tears ==>
          && s.tears[h].t < |s.pool.threads| && Destroys(s.pool.threads[s.tears[h].t], h)
          && s.tears[h].level <= 3
          && h in s.pool.booted && h !in s.pool.destroyed)
    && (forall h, k :: h in s.tears && k in s.tears && h != k ==> s.tears[h].t != s.tears[k].t)
  }

  ghost predicate SysInv(s: Sys) {
    Inv(s.pool) && Wired(s) && Ledger(s)
  }

  /** After New: every warm handle has its three resources, and nothing else exists. */
  ghost predicate SysInit(c: Config, s: Sys) {
    && Init(c, s.pool)
    && s.boots == map[] && s.tears == map[]
    && s.dirs == s.logs == s.procs == set h | h in s.pool.booted :: h.serial
  }

  lemma SysInitInv(c: Config, s: Sys)
    requires SysInit(c, s)
    ensures SysInv(s)
  {
    InitInv(c, s.pool);
  }

  /* ---------- the pool's steps, seen from the ledger ---------- */

  lemma PoolPartInv(c: Config, s: Sys, a: SysAction)
    requires Inv(s.pool) && Enabled(s, a)
    ensures Inv(NextPool(c, s, a))
  {
    if |PoolPart(s, a)| > 0 {
      StepInv(c, s.pool, PoolPart(s, a)[0]);
    }
  }

  /** A pool step leaves threads that boot or destroy where they are, unless it is
      their own Boot or Destroy returning. */
  lemma StepKeepsBackendThreads(c: Config, p: State, a: Action, t: nat)
    requires PoolModel.Enabled(p, a) && t < |p.threads|
    requires (a.BootOk? || a.BootFail? || a.Destroy?) ==> a.t != t
    ensures var p' := PoolModel.Apply(c, p, a);
      && t < |p'.threads|
      && (Boots(p.threads[t]) ==> p'.threads[t] == p.threads[t])
      && (p.threads[t].RelDestroy? || p.threads[t].ShutDrain? ==> p'.threads[t] == p.threads[t])
  {
  }

  /** A handle about to be destroyed was booted, has not been destroyed, and no other
      thread is about to destroy it. */
  lemma DestroyTarget(p: State, t: nat, h: Handle)
    requires Inv(p) && PoolModel.Enabled(p, Destroy(t, h))
    ensures h in p.booted && h !in p.destroyed
    ensures forall u :: 0 <= u < |p.threads| && Destroys(p.threads[u], h) ==> u == t
  {
    DestroysClaims(p, t, h);
    SumAtLeast(p.threads, t, ClaimedFn(h));
    assert Places(p, h) == 1;
    CountIn(p.destroyed, h);
    forall u | 0 <= u < |p.threads| && Destroys(p.threads[u], h) ensures u == t {
      DestroysClaims(p, u, h);
      if u < t {
        SumAtLeastTwo(p.threads, u, t, ClaimedFn(h));
      } else if t < u {
        SumAtLeastTwo(p.threads, t, u, ClaimedFn(h));
      }
    }
  }

  lemma DestroysClaims(p: State, t: nat, h: Handle)
    requires Inv(p) && t < |p.threads| && Destroys(p.threads[t], h)
    ensures Claimed(p.threads[t], h) > 0
  {
    assert ThreadOk(p.threads[t]);
    if p.threads[t].ShutDrain? && p.threads[t].active == map[] {
      CountIn(p.threads[t].warm, h);
    }
  }

  /* ---------- threads stay wired to their Boots and Destroys ---------- */

  lemma PlainWired(c: Config, s: Sys, p: Action)
    requires SysInv(s) && Enabled(s, Plain(p))
    ensures Wired(Apply(c, s, Plain(p)))
  {
    var s' := Apply(c, s, Plain(p));
    assert s'.pool.booted == s.pool.booted && s'.pool.destroyed == s.pool.destroyed;
    forall n | n in s'.boots ensures s'.boots[n].t < |s'.pool.threads| && Boots(s'.pool.threads[s'.boots[n].t]) {
      StepKeepsBackendThreads(c, s.pool, p, s.boots[n].t);
    }
    forall h | h in s'.tears ensures s'.tears[h].t < |s'.pool.threads| && Destroys(s'.pool.threads[s'.tears[h].t], h) {
      StepKeepsBackendThreads(c, s.pool, p, s.tears[h].t);
    }
  }

  /** The end of a Boot, either way: only its own thread moves. */
  lemma BootEndWired(c: Config, s: Sys, a: SysAction, n: nat)
    requires SysInv(s) && Enabled(s, a) && (a.BootDone? || a.BootGivesUp?) && a.serial == n
    ensures Wired(Apply(c, s, a))
  {
    var s' := Apply(c, s, a);
    var p := PoolPart(s, a)[0];
    assert s'.pool.destroyed == s.pool.destroyed;
    forall m | m in s'.boots
      ensures s'.boots[m].t < |s'.pool.threads| && Boots(s'.pool.threads[s'.boots[m].t])
    {
      assert m in s.boots && m != n;
      StepKeepsBackendThreads(c, s.pool, p, s.boots[m].t);
    }
    forall h | h in s'.tears ensures s'.tears[h].t < |s'.pool.threads| && Destroys(s'.pool.threads[s'.tears[h].t], h) {
      assert s.tears[h].t != s.boots[n].t;
      StepKeepsBackendThreads(c, s.pool, p, s.tears[h].t);
    }
  }

  lemma DestroyDoneWired(c: Config, s: Sys, h: Handle)
    requires SysInv(s) && Enabled(s, DestroyDone(h))
    ensures Wired(Apply(c, s, DestroyDone(h)))
  {
    var s' := Apply(c, s, DestroyDone(h));
    var p := Destroy(s.tears[h].t, h);
    assert s'.pool.booted == s.pool.booted && s'.pool.destroyed == s.pool.destroyed + [h];
    forall m | m in s'.boots
      ensures s'.boots[m].t < |s'.pool.threads| && Boots(s'.pool.threads[s'.boots[m].t])
    {
      assert s.boots[m].t != s.tears[h].t;
      StepKeepsBackendThreads(c, s.pool, p, s.boots[m].t);
    }
    forall k | k in s'.tears ensures s'.tears[k].t < |s'.pool.threads| && Destroys(s'.pool.threads[s'.tears[k].t], k) {
      assert k in s.tears && k != h;
      StepKeepsBackendThreads(c, s.pool, p, s.tears[k].t);
    }
  }

  lemma OneBootWired(s: Sys, s': Sys, n: nat)
    requires Wired(s) && n in s.boots && s'.pool == s.pool && s'.tears == s.tears
    requires n in s'.boots && s'.boots == s.boots[n := s'.boots[n]]
    requires s'.boots[n].t == s.boots[n].t && s'.boots[n].level <= 3
    ensures Wired(s')
  {
    assert forall m :: m in s'.boots <==> m in s.boots;
    assert forall m :: m in s.boots ==> s'.boots[m].t == s.boots[m].t && s'.boots[m].level <= 3;
  }

  /** Actions that leave the pool alone and change one Boot. */
  lemma BootWired(c: Config, s: Sys, a: SysAction)
    requires Wired(s) && Enabled(s, a) && (a.Acquire? || a.Fail? || a.GiveBack?)
    ensures Wired(Apply(c, s, a))
  {
    assert s.boots[a.serial].level <= 3;
    OneBootWired(s, Apply(c, s, a), a.serial);
  }

  lemma BeginBootWired(c: Config, s: Sys, t: nat, n: nat)
    requires Wired(s) && Enabled(s, BeginBoot(t, n))
    ensures Wired(Apply(c, s, BeginBoot(t, n)))
  {
  }

  lemma BeginDestroyWired(c: Config, s: Sys, t: nat, h: Handle)
    requires Wired(s) && Enabled(s, BeginDestroy(t, h)) && h in s.pool.booted && h !in s.pool.destroyed
    ensures Wired(Apply(c, s, BeginDestroy(t, h)))
  {
  }

  lemma OneTearWired(s: Sys, s': Sys, h: Handle)
    requires Wired(s) && h in s.tears && s'.pool == s.pool && s'.boots == s.boots
    requires h in s'.tears && s'.tears == s.tears[h := s'.tears[h]]
    requires s'.tears[h].t == s.tears[h].t && s'.tears[h].level <= 3
    ensures Wired(s')
  {
    assert forall k :: k in s'.tears <==> k in s.tears;
    assert forall k :: k in s.tears ==> s'.tears[k].t == s.tears[k].t && s'.tears[k].level <= 3;
  }

  lemma TearDownWired(c: Config, s: Sys, h: Handle)
    requires Wired(s) && Enabled(s, TearDown(h))
    ensures Wired(Apply(c, s, TearDown(h)))
  {
    assert s.tears[h].level <= 3;
    OneTearWired(s, Apply(c, s, TearDown(h)), h);
  }

  /* ---------- the ledger stays exact ---------- */

  /** The resources named after a Boot in progress are those it holds. */
  lemma HeldByBoot(s: Sys, n: nat, k: nat)
    requires Wired(s) && n in s.boots
    ensures Held(s, n, k) <==> s.boots[n].level >= k
  {
  }

  /** The resources named after a handle are those it still has. */
  lemma HeldByHandle(s: Sys, h: Handle, k: nat)
    requires Wired(s) && DistinctIds(s.pool.booted) && h in s.pool.booted
    ensures Held(s, h.serial, k) <==> HandleLevel(s, h) >= k
  {
  }

  /** Of the three resources named `n`, those up to the level exist. */
  ghost predicate StandsAt(s: Sys, n: nat, level: int) {
    (n in s.dirs <==> level >= 1) && (n in s.logs <==> level >= 2) && (n in s.procs <==> level >= 3)
  }

  ghost predicate HeldTo(s: Sys, n: nat, level: int) {
    (Held(s, n, 1) <==> level >= 1) && (Held(s, n, 2) <==> level >= 2) && (Held(s, n, 3) <==> level >= 3)
  }

  lemma BootHeldTo(s: Sys, n: nat)
    requires Wired(s) && n in s.boots
    ensures HeldTo(s, n, s.boots[n].level)
  {
    HeldByBoot(s, n, 1);
    HeldByBoot(s, n, 2);
    HeldByBoot(s, n, 3);
  }

  lemma HandleHeldTo(s: Sys, h: Handle)
    requires Wired(s) && DistinctIds(s.pool.booted) && h in s.pool.booted
    ensures HeldTo(s, h.serial, HandleLevel(s, h))
  {
    HeldByHandle(s, h, 1);
    HeldByHandle(s, h, 2);
    HeldByHandle(s, h, 3);
  }

  /** Nobody's account changes for names other than `n`. */
  ghost predicate SameElsewhere(s: Sys, s': Sys, n: nat) {
    && (forall m :: m != n ==>
          (m in s.boots <==> m in s'.boots) && (m in s.boots ==> s'.boots[m].level == s.boots[m].level))
    && (forall h: Handle :: h.serial != n ==>
          (h in s.pool.booted <==> h in s'.pool.booted) && HandleLevel(s', h) == HandleLevel(s, h))
  }

  /** Nothing named otherwise comes or goes. */
  ghost predicate SameStock(s: Sys, s': Sys, n: nat) {
    forall m :: m != n ==>
      (m in s'.dirs <==> m in s.dirs) && (m in s'.logs <==> m in s.logs) && (m in s'.procs <==> m in s.procs)
  }

  lemma HeldElsewhere(s: Sys, s': Sys, n: nat, m: nat, k: nat)
    requires SameElsewhere(s, s', n) && m != n
    ensures Held(s', m, k) <==> Held(s, m, k)
  {
    if h :| h in s.pool.booted && h.serial == m && HandleLevel(s, h) >= k {
      assert h in s'.pool.booted && HandleLevel(s', h) >= k;
    }
    if h :| h in s'.pool.booted && h.serial == m && HandleLevel(s', h) >= k {
      assert h in s.pool.booted && HandleLevel(s, h) >= k;
    }
  }

  /** The ledger is exact again if it is for `n`. */
  lemma LedgerAt(s: Sys, s': Sys, n: nat, level: int)
    requires Ledger(s) && SameElsewhere(s, s', n) && SameStock(s, s', n)
    requires StandsAt(s', n, level) && HeldTo(s', n, level)
    ensures Ledger(s')
  {
    forall m
      ensures (m in s'.dirs <==> Held(s', m, 1)) && (m in s'.logs <==> Held(s', m, 2))
        && (m in s'.procs <==> Held(s', m, 3))
    {
      if m != n {
        HeldElsewhere(s, s', n, m, 1);
        HeldElsewhere(s, s', n, m, 2);
        HeldElsewhere(s, s', n, m, 3);
      }
    }
  }

  /** One resource more, or one less. */
  lemma GainStands(s: Sys, n: nat, level: nat)
    requires StandsAt(s, n, level) && level < 3
    ensures StandsAt(Gain(s, n, level + 1), n, level + 1) && SameStock(s, Gain(s, n, level + 1), n)
  {
  }

  lemma LoseStands(s: Sys, n: nat, level: nat)
    requires StandsAt(s, n, level) && 0 < level <= 3
    ensures StandsAt(Lose(s, n, level), n, level - 1) && SameStock(s, Lose(s, n, level), n)
  {
  }

  ghost predicate SysInvPool(s: Sys) {
    Inv(s.pool) && Wired(s)
  }

  /** What the ledger lemmas need of a state. */
  ghost predicate Core(s: Sys) {
    DistinctIds(s.pool.booted) && Wired(s) && Ledger(s)
  }

  lemma BootStands(s: Sys, n: nat)
    requires Core(s) && n in s.boots
    ensures StandsAt(s, n, s.boots[n].level)
  {
    BootHeldTo(s, n);
  }

  lemma HandleStands(s: Sys, h: Handle)
    requires Core(s) && h in s.pool.booted
    ensures StandsAt(s, h.serial, HandleLevel(s, h))
  {
    HandleHeldTo(s, h);
  }

  lemma PlainLedger(s: Sys, s': Sys)
    requires Ledger(s) && s' == s.(pool := s'.pool)
    requires s'.pool.booted == s.pool.booted && s'.pool.destroyed == s.pool.destroyed
    ensures Ledger(s')
  {
    assert forall h :: HandleLevel(s', h) == HandleLevel(s, h);
    forall n: nat
      ensures (Held(s', n, 1) <==> Held(s, n, 1)) && (Held(s', n, 2) <==> Held(s, n, 2))
        && (Held(s', n, 3) <==> Held(s, n, 3))
    {
      HeldElsewhere(s, s', n + 1, n, 1);
      HeldElsewhere(s, s', n + 1, n, 2);
      HeldElsewhere(s, s', n + 1, n, 3);
    }
  }

  /** Only the Boot `n` changed, or began, and its resources stand at its level. */
  lemma OneBootLedger(s: Sys, s': Sys, n: nat)
    requires Core(s) && Wired(s') && n in s'.boots
    requires s'.pool == s.pool && s'.tears == s.tears && s'.boots == s.boots[n := s'.boots[n]]
    requires SameStock(s, s', n) && StandsAt(s', n, s'.boots[n].level)
    ensures Ledger(s')
  {
    assert forall h :: HandleLevel(s', h) == HandleLevel(s, h);
    assert SameElsewhere(s, s', n);
    BootHeldTo(s', n);
    LedgerAt(s, s', n, s'.boots[n].level);
  }

  lemma BeginBootLedger(s: Sys, s': Sys, t: nat, n: nat)
    requires Core(s) && Wired(s') && Unused(s, n) && s' == s.(boots := s.boots[n := Boot(t, 0, false)])
    ensures Ledger(s')
  {
    assert !Held(s, n, 1) && !Held(s, n, 2) && !Held(s, n, 3);
    OneBootLedger(s, s', n);
  }

  lemma AcquireLedger(c: Config, s: Sys, n: nat)
    requires Core(s) && Enabled(s, Acquire(n)) && Wired(Apply(c, s, Acquire(n)))
    ensures Ledger(Apply(c, s, Acquire(n)))
  {
    BootStands(s, n);
    GainStands(s, n, s.boots[n].level);
    OneBootLedger(s, Apply(c, s, Acquire(n)), n);
  }

  lemma FailLedger(c: Config, s: Sys, n: nat)
    requires Core(s) && Enabled(s, Fail(n)) && Wired(Apply(c, s, Fail(n)))
    ensures Ledger(Apply(c, s, Fail(n)))
  {
    BootStands(s, n);
    OneBootLedger(s, Apply(c, s, Fail(n)), n);
  }

  lemma GiveBackLedger(c: Config, s: Sys, n: nat)
    requires Core(s) && Enabled(s, GiveBack(n)) && Wired(Apply(c, s, GiveBack(n)))
    ensures Ledger(Apply(c, s, GiveBack(n)))
  {
    BootStands(s, n);
    LoseStands(s, n, s.boots[n].level);
    OneBootLedger(s, Apply(c, s, GiveBack(n)), n);
  }

  /** The Boot `n` has become the handle h. */
  lemma BootDoneLedger(s: Sys, s': Sys, n: nat, h: Handle)
    requires Core(s) && DistinctIds(s'.pool.booted) && Wired(s')
    requires n in s.boots && s.boots[n].level == 3 && h.serial == n
    requires h !in s.pool.booted && h !in s.pool.destroyed
    requires s' == s.(pool := s'.pool, boots := s.boots - {n})
    requires s'.pool.booted == s.pool.booted + {h} && s'.pool.destroyed == s.pool.destroyed
    ensures Ledger(s')
  {
    assert HandleLevel(s', h) == 3;
    assert forall k: Handle :: k != h ==> HandleLevel(s', k) == HandleLevel(s, k);
    assert SameElsewhere(s, s', n);
    BootStands(s, n);
    HandleHeldTo(s', h);
    LedgerAt(s, s', n, 3);
  }

  lemma FreshNotDestroyed(p: State, h: Handle)
    requires Inv(p) && h !in p.booted
    ensures h !in p.destroyed
  {
    assert Places(p, h) == 0;
    CountIn(p.destroyed, h);
  }

  /** The Boot `n` has given up. */
  lemma BootGivesUpLedger(s: Sys, s': Sys, n: nat)
    requires Core(s) && n in s.boots && s.boots[n].level == 0
    requires s' == s.(pool := s'.pool, boots := s.boots - {n})
    requires s'.pool.booted == s.pool.booted && s'.pool.destroyed == s.pool.destroyed
    ensures Ledger(s')
  {
    assert forall h :: HandleLevel(s', h) == HandleLevel(s, h);
    assert SameElsewhere(s, s', n);
    BootStands(s, n);
    assert !Held(s', n, 1) && !Held(s', n, 2) && !Held(s', n, 3);
    LedgerAt(s, s', n, 0);
  }

  /** Only the handle `h` changed, and its resources stand at its level. */
  lemma OneHandleLedger(s: Sys, s': Sys, h: Handle)
    requires Core(s) && Wired(s') && h in s.pool.booted
    requires s'.pool.booted == s.pool.booted && s'.boots == s.boots
    requires forall k: Handle :: k != h ==> HandleLevel(s', k) == HandleLevel(s, k)
    requires SameStock(s, s', h.serial) && StandsAt(s', h.serial, HandleLevel(s', h))
    ensures Ledger(s')
  {
    assert SameElsewhere(s, s', h.serial);
    HandleHeldTo(s', h);
    LedgerAt(s, s', h.serial, HandleLevel(s', h));
  }

  /** A handle that is being destroyed now stands at this level. */
  lemma TearLedger(s: Sys, s': Sys, h: Handle, t: nat, level: nat)
    requires Core(s) && Wired(s') && h in s.pool.booted && h !in s.pool.destroyed
    requires s'.pool == s.pool && s'.boots == s.boots && s'.tears == s.tears[h := Tear(t, level)]
    requires SameStock(s, s', h.serial) && StandsAt(s', h.serial, level)
    ensures Ledger(s')
  {
    assert HandleLevel(s', h) == level;
    OneHandleLedger(s, s', h);
  }

  lemma BeginDestroyLedger(c: Config, s: Sys, t: nat, h: Handle)
    requires Core(s) && Enabled(s, BeginDestroy(t, h)) && Wired(Apply(c, s, BeginDestroy(t, h)))
    requires h in s.pool.booted && h !in s.pool.destroyed
    ensures Ledger(Apply(c, s, BeginDestroy(t, h)))
  {
    HandleStands(s, h);
    TearLedger(s, Apply(c, s, BeginDestroy(t, h)), h, t, 3);
  }

  lemma TornStands(s: Sys, h: Handle)
    requires h in s.tears && 0 < s.tears[h].level <= 3 && StandsAt(s, h.serial, s.tears[h].level)
    ensures var s', tear := Torn(s, h), s.tears[h];
      && s'.pool == s.pool && s'.boots == s.boots
      && s'.tears == s.tears[h := Tear(tear.t, tear.level - 1)]
      && SameStock(s, s', h.serial) && StandsAt(s', h.serial, tear.level - 1)
  {
  }

  lemma TearFacts(s: Sys, h: Handle)
    requires Wired(s) && h in s.tears
    ensures h in s.pool.booted && h !in s.pool.destroyed
    ensures s.tears[h].level <= 3 && HandleLevel(s, h) == s.tears[h].level
  {
  }

  lemma TearDownLedger(s: Sys, s': Sys, h: Handle)
    requires Core(s) && h in s.tears && s.tears[h].level > 0 && s' == Torn(s, h) && Wired(s')
    ensures Ledger(s')
  {
    TearFacts(s, h);
    HandleStands(s, h);
    TornStands(s, h);
    TearLedger(s, s', h, s.tears[h].t, s.tears[h].level - 1);
  }

  /** The handle h has become destroyed. */
  lemma DestroyDoneLedger(s: Sys, s': Sys, h: Handle)
    requires Core(s) && Wired(s') && h in s.tears && s.tears[h].level == 0
    requires s' == s.(pool := s'.pool, tears := s.tears - {h})
    requires s'.pool.booted == s.pool.booted && s'.pool.destroyed == s.pool.destroyed + [h]
    ensures Ledger(s')
  {
    HandleStands(s, h);
    OneHandleLedger(s, s', h);
  }

  lemma SysStepWired(c: Config, s: Sys, a: SysAction)
    requires SysInv(s) && Enabled(s, a)
    ensures SysInvPool(Apply(c, s, a))
  {
    PoolPartInv(c, s, a);
    match a
    case Plain(p) => PlainWired(c, s, p);
    case BeginBoot(t, n) => BeginBootWired(c, s, t, n);
    case Acquire(_) => BootWired(c, s, a);
    case Fail(_) => BootWired(c, s, a);
    case GiveBack(_) => BootWired(c, s, a);
    case BootDone(n, _) => BootEndWired(c, s, a, n);
    case BootGivesUp(n) => BootEndWired(c, s, a, n);
    case BeginDestroy(t, h) =>
      DestroyTarget(s.pool, t, h);
      BeginDestroyWired(c, s, t, h);
    case TearDown(h) => TearDownWired(c, s, h);
    case DestroyDone(h) => DestroyDoneWired(c, s, h);
  }

  lemma PlainApplied(c: Config, s: Sys, p: Action)
    requires Ledger(s) && Enabled(s, Plain(p))
    ensures Ledger(Apply(c, s, Plain(p)))
  {
    PlainLedger(s, Apply(c, s, Plain(p)));
  }

  lemma DestroyDoneApplied(c: Config, s: Sys, h: Handle)
    requires Core(s) && Enabled(s, DestroyDone(h)) && Wired(Apply(c, s, DestroyDone(h)))
    ensures Ledger(Apply(c, s, DestroyDone(h)))
  {
    DestroyDoneLedger(s, Apply(c, s, DestroyDone(h)), h);
  }

  predicate OfBoot(a: SysAction) {
    a.BeginBoot? || a.Acquire? || a.Fail? || a.GiveBack? || a.BootDone? || a.BootGivesUp?
  }

  lemma BootStepLedger(c: Config, s: Sys, a: SysAction)
    requires SysInv(s) && Enabled(s, a) && OfBoot(a) && SysInvPool(Apply(c, s, a))
    ensures Ledger(Apply(c, s, a))
  {
    var s' := Apply(c, s, a);
    match a
    case BeginBoot(t, n) => BeginBootLedger(s, s', t, n);
    case Acquire(n) => AcquireLedger(c, s, n);
    case Fail(n) => FailLedger(c, s, n);
    case GiveBack(n) => GiveBackLedger(c, s, n);
    case BootDone(n, h) =>
      FreshNotDestroyed(s.pool, h);
      BootDoneLedger(s, s', n, h);
    case BootGivesUp(n) => BootGivesUpLedger(s, s', n);
  }

  lemma OtherStepLedger(c: Config, s: Sys, a: SysAction)
    requires SysInv(s) && Enabled(s, a) && !OfBoot(a) && SysInvPool(Apply(c, s, a))
    ensures Ledger(Apply(c, s, a))
  {
    match a
    case Plain(p) => PlainApplied(c, s, p);
    case BeginDestroy(t, h) =>
      DestroyTarget(s.pool, t, h);
      BeginDestroyLedger(c, s, t, h);
    case TearDown(h) => TearDownLedger(s, Apply(c, s, a), h);
    case DestroyDone(h) => DestroyDoneApplied(c, s, h);
  }

  lemma SysStepInv(c: Config, s: Sys, a: SysAction)
    requires SysInv(s) && Enabled(s, a)
    ensures SysInv(Apply(c, s, a))
  {
    SysStepWired(c, s, a);
    if OfBoot(a) {
      BootStepLedger(c, s, a);
    } else {
      OtherStepLedger(c, s, a);
    }
  }

  /* ---------- runs ---------- */

  ghost predicate Runs(c: Config, s: Sys, acts: seq<SysAction>)
    decreases |acts|
  {
    |acts| == 0 || (Enabled(s, acts[0]) && Runs(c, Apply(c, s, acts[0]), acts[1..]))
  }

  ghost function Final(c: Config, s: Sys, acts: seq<SysAction>): Sys
    requires Runs(c, s, acts)
    decreases |acts|
  {
    if |acts| == 0 then s else Final(c, Apply(c, s, acts[0]), acts[1..])
  }

  /** The run of the pool inside a run of the system. */
  ghost function PoolRun(c: Config, s: Sys, acts: seq<SysAction>): seq<Action>
    requires Runs(c, s, acts)
    decreases |acts|
  {
    if |acts| == 0 then [] else PoolPart(s, acts[0]) + PoolRun(c, Apply(c, s, acts[0]), acts[1..])
  }

  lemma {:induction false} SysRunInv(c: Config, s: Sys, acts: seq<SysAction>)
    requires SysInv(s) && Runs(c, s, acts)
    ensures SysInv(Final(c, s, acts))
    decreases |acts|
  {
    if |acts| > 0 {
      SysStepInv(c, s, acts[0]);
      SysRunInv(c, Apply(c, s, acts[0]), acts[1..]);
    }
  }

  /** At most one step in front of a run of the pool. */
  lemma InFront(c: Config, p: State, part: seq<Action>, p': State, rest: seq<Action>)
    requires |part| <= 1 && PoolModel.Runs(c, p', rest)
    requires if |part| == 0 then p' == p
      else PoolModel.Enabled(p, part[0]) && p' == PoolModel.Apply(c, p, part[0])
    ensures PoolModel.Runs(c, p, part + rest)
    ensures PoolModel.Final(c, p, part + rest) == PoolModel.Final(c, p', rest)
  {
    if |part| > 0 {
      assert (part + rest)[0] == part[0] && (part + rest)[1..] == rest;
    } else {
      assert part + rest == rest;
    }
  }

  lemma PoolPartEnabled(c: Config, s: Sys, a: SysAction)
    requires Enabled(s, a)
    ensures |PoolPart(s, a)| <= 1 && Apply(c, s, a).pool == NextPool(c, s, a)
    ensures |PoolPart(s, a)| > 0 ==> PoolModel.Enabled(s.pool, PoolPart(s, a)[0])
  {
  }

  /** The system refines the pool: every theorem about pool runs applies to it. */
  lemma {:induction false} ProjectsToPool(c: Config, s: Sys, acts: seq<SysAction>)
    requires Runs(c, s, acts)
    ensures PoolModel.Runs(c, s.pool, PoolRun(c, s, acts))
    ensures PoolModel.Final(c, s.pool, PoolRun(c, s, acts)) == Final(c, s, acts).pool
    decreases |acts|
  {
    if |acts| > 0 {
      var s' := Apply(c, s, acts[0]);
      ProjectsToPool(c, s', acts[1..]);
      PoolPartEnabled(c, s, acts[0]);
      InFront(c, s.pool, PoolPart(s, acts[0]), s'.pool, PoolRun(c, s', acts[1..]));
    }
  }

  /** No leak, in every reachable state: a directory, log file or process exists
      exactly when a Boot in progress has acquired it and not given it back, or it
      belongs to a handle that was booted, was not destroyed, and whose teardown, if
      it has begun, has not reached it. */
  lemma LedgerExact(c: Config, s0: Sys, acts: seq<SysAction>)
    requires SysInit(c, s0) && Runs(c, s0, acts)
    ensures Ledger(Final(c, s0, acts))
  {
    SysInitInv(c, s0);
    SysRunInv(c, s0, acts);
  }

  /** With no Boot and no Destroy in progress the ledger is exactly the resources of
      the handles booted and not destroyed, one of each kind for each. */
  lemma LedgerAtRest(c: Config, s0: Sys, acts: seq<SysAction>, n: nat)
    requires SysInit(c, s0) && Runs(c, s0, acts)
    requires Final(c, s0, acts).boots == map[] && Final(c, s0, acts).tears == map[]
    ensures var s := Final(c, s0, acts);
      && (n in s.dirs <==> exists h :: h in s.pool.booted && h !in s.pool.destroyed && h.serial == n)
      && s.dirs == s.logs == s.procs
  {
    LedgerExact(c, s0, acts);
    var s := Final(c, s0, acts);
    forall m, k: nat | 1 <= k <= 3
      ensures Held(s, m, k) <==> exists h :: h in s.pool.booted && h !in s.pool.destroyed && h.serial == m
    {
      if h :| h in s.pool.booted && h.serial == m && HandleLevel(s, h) >= k {
        assert h !in s.pool.destroyed;
      }
      if h :| h in s.pool.booted && h !in s.pool.destroyed && h.serial == m {
        assert HandleLevel(s, h) == 3;
      }
    }
    assert forall m :: (m in s.dirs <==> m in s.logs) && (m in s.logs <==> m in s.procs);
  }

  /** End to end: a Shutdown with no Allocate or replenisher in flight, and none called
      afterwards, leaves no directory, no log file and no process behind once its
      Destroys are done. */
  lemma QuietShutdownLeavesNothing(c: Config, s0: Sys, before: seq<SysAction>, t: nat, after: seq<SysAction>)
    requires SysInit(c, s0) && Runs(c, s0, before)
    requires var s := Final(c, s0, before);
      && t < |s.pool.threads| && s.pool.threads[t].ShutStart? && NoBootPending(s.pool)
      && Runs(c, Apply(c, s, Plain(Lock(t))), after)
      && NoAllocate(PoolRun(c, Apply(c, s, Plain(Lock(t))), after))
      && NoDestroyerRuns(Final(c, Apply(c, s, Plain(Lock(t))), after).pool)
    ensures var end := Final(c, Apply(c, Final(c, s0, before), Plain(Lock(t))), after);
      end.dirs == {} && end.logs == {} && end.procs == {}
  {
    var s := Final(c, s0, before);
    ProjectsToPool(c, s0, before);
    ProjectsToPool(c, Apply(c, s, Plain(Lock(t))), after);
    QuietShutdownDestroysAll(c, s0.pool, PoolRun(c, s0, before), t, PoolRun(c, Apply(c, s, Plain(Lock(t))), after));
    SysInitInv(c, s0);
    SysRunInv(c, s0, before);
    QuietEnd(c, s, t, after);
  }

  lemma QuietEnd(c: Config, s: Sys, t: nat, after: seq<SysAction>)
    requires SysInv(s) && t < |s.pool.threads| && s.pool.threads[t].ShutStart? && NoBootPending(s.pool)
    requires Runs(c, Apply(c, s, Plain(Lock(t))), after)
    requires NoAllocate(PoolRun(c, Apply(c, s, Plain(Lock(t))), after))
    requires var end := Final(c, Apply(c, s, Plain(Lock(t))), after);
      multiset(end.pool.destroyed) == multiset(end.pool.booted)
    ensures var end := Final(c, Apply(c, s, Plain(Lock(t))), after);
      end.dirs == {} && end.logs == {} && end.procs == {}
  {
    var s1 := Apply(c, s, Plain(Lock(t)));
    SysStepInv(c, s, Plain(Lock(t)));
    SysRunInv(c, s1, after);
    ProjectsToPool(c, s1, after);
    assert NoBootPending(s1.pool);
    NoBootStaysSo(c, s1.pool, PoolRun(c, s1, after));
    NothingHeld(Final(c, s1, after));
  }

  lemma NothingHeld(s: Sys)
    requires SysInv(s) && NoBootPending(s.pool) && multiset(s.pool.destroyed) == multiset(s.pool.booted)
    ensures s.dirs == {} && s.logs == {} && s.procs == {}
  {
    forall h | h in s.pool.booted ensures h in s.pool.destroyed {
      assert h in multiset(s.pool.booted);
      CountIn(s.pool.destroyed, h);
    }
    assert forall t :: 0 <= t < |s.pool.threads| ==> !Boots(s.pool.threads[t]);
    assert forall n :: n !in s.boots;
    assert forall n :: !Held(s, n, 1) && !Held(s, n, 2) && !Held(s, n, 3);
  }
}
