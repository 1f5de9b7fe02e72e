/** Every run with finitely many calls ends: a measure over thread positions,
    remaining replenisher iterations and published handles goes down with every
    step that is not a new call. */
module PoolTermination {
  import opened Options
  import opened Sums
  import opened PoolModel

  /** The steps a thread can still cause, itself or through what it publishes. */
  function Weight(c: Config, th: Thread): nat {
    match th
    case AllocStart(_) => 4 + 3 * Target(c)
    case AllocBoot(_) => 3
    case AllocPublish(_, _) => 2
    case AllocSpawn(_) => 2 + 3 * Target(c)
    case ReplStart => 1 + 3 * Target(c)
    case ReplBoot(left) => 3 * left
    case ReplPublish(left, _) => if left == 0 then 2 else 3 * left - 1
    case RelStart(_) => 1
    case RelDestroy(_, _) => 1
    case ShutStart => 1
    case ShutDrain(active, warm) => |active| + |warm|
    case ExecStart(_) => 2
    case ExecRun(_, _) => 1
    case StatusStart => 1
    case _ => 0
  }

  function WeightFn(c: Config): Thread -> nat { th => Weight(c, th) }

  /** A published handle may yet be destroyed, by a Release or a Shutdown. */
  function Stored(sh: Shared): nat { |sh.warm| + |sh.active| }

  ghost function Measure(c: Config, s: State): nat {
    Sum(s.threads, WeightFn(c)) + Stored(s.shared)
  }

  predicate Working(th: Thread) {
    (th.ReplBoot? ==> th.left > 0) && (th.ShutDrain? ==> th.active != map[] || th.warm != [])
  }

  ghost predicate AllWorking(s: State) {
    forall t :: 0 <= t < |s.threads| ==> Working(s.threads[t])
  }

  lemma UpdateSize(m: map<Id, Allocation>, id: Id, a: Allocation)
    ensures |m[id := a]| <= |m| + 1
  {
    assert m[id := a].Keys == m.Keys + {id};
  }

  lemma RemoveSize(m: map<Id, Allocation>, id: Id)
    requires id in m
    ensures |m - {id}| == |m| - 1
  {
    assert (m - {id}).Keys == m.Keys - {id};
  }

  /** A critical section leaves less to do than it found. */
  ghost predicate Decreases(c: Config, sh: Shared, th: Thread)
    requires Locks(th)
  {
    var (sh', th') := Section(c, sh, th);
    Weight(c, th') + Stored(sh') < Weight(c, th) + Stored(sh) && Working(th')
  }

  lemma TakeDecreases(c: Config, sh: Shared, req: AllocRequest)
    ensures Decreases(c, sh, AllocStart(req))
  {
    if |sh.warm| > 0 {
      var h := sh.warm[|sh.warm| - 1];
      UpdateSize(sh.active, h.id, Allocation(h, req));
    }
  }

  lemma PublishDecreases(c: Config, sh: Shared, req: AllocRequest, h: Handle)
    ensures Decreases(c, sh, AllocPublish(req, h))
  {
    UpdateSize(sh.active, h.id, Allocation(h, req));
  }

  lemma DropDecreases(c: Config, sh: Shared, id: Id)
    ensures Decreases(c, sh, RelStart(id))
  {
    if id in sh.active { RemoveSize(sh.active, id); }
  }

  lemma SectionDecreases(c: Config, sh: Shared, th: Thread)
    requires Locks(th)
    ensures Decreases(c, sh, th)
  {
    match th
    case AllocStart(req) => TakeDecreases(c, sh, req);
    case AllocPublish(req, h) => PublishDecreases(c, sh, req, h);
    case RelStart(id) => DropDecreases(c, sh, id);
    case ReplStart => assert Decreases(c, sh, ReplStart);
    case ReplPublish(left, h) => assert Decreases(c, sh, ReplPublish(left, h));
    case ShutStart => assert Decreases(c, sh, ShutStart);
    case _ =>
  }

  lemma DestroyDecreases(c: Config, th: Thread, h: Handle)
    requires Destroys(th, h)
    ensures Weight(c, AfterDestroy(th, h)) < Weight(c, th) && Working(AfterDestroy(th, h))
  {
    if th.ShutDrain? && th.active != map[] {
      RemoveSize(th.active, h.id);
    }
  }

  lemma LockDecreases(c: Config, s: State, t: nat)
    requires Enabled(s, Lock(t))
    ensures Measure(c, Apply(c, s, Lock(t))) < Measure(c, s)
  {
    SectionDecreases(c, s.shared, s.threads[t]);
    SumUpdate(s.threads, t, Section(c, s.shared, s.threads[t]).1, WeightFn(c));
  }

  lemma SpawnDecreases(c: Config, s: State, t: nat)
    requires Enabled(s, Spawn(t))
    ensures Measure(c, Apply(c, s, Spawn(t))) < Measure(c, s)
  {
    var th := AllocDone(Some(s.threads[t].h.id));
    SumUpdate(s.threads, t, th, WeightFn(c));
    SumAppend(s.threads[t := th], ReplStart, WeightFn(c));
  }

  /** Every step other than a new call lowers the measure. */
  lemma StepDecreases(c: Config, s: State, a: Action)
    requires Enabled(s, a) && AllWorking(s) && !a.Invoke?
    ensures Measure(c, Apply(c, s, a)) < Measure(c, s)
  {
    match a
    case Lock(t) => LockDecreases(c, s, t);
    case Spawn(t) => SpawnDecreases(c, s, t);
    case Destroy(t, h) =>
      DestroyDecreases(c, s.threads[t], h);
      SumUpdate(s.threads, t, AfterDestroy(s.threads[t], h), WeightFn(c));
    case BootOk(t, h) => SumUpdate(s.threads, t, AfterBoot(s.threads[t], h), WeightFn(c));
    case BootFail(t) => SumUpdate(s.threads, t, AfterFail(s.threads[t]), WeightFn(c));
    case ExecReturn(t) => SumUpdate(s.threads, t, Apply(c, s, a).threads[t], WeightFn(c));
  }

  lemma StepWorking(c: Config, s: State, a: Action)
    requires Enabled(s, a) && AllWorking(s)
    ensures AllWorking(Apply(c, s, a))
  {
    if a.Lock? {
      SectionDecreases(c, s.shared, s.threads[a.t]);
    } else if a.Destroy? {
      DestroyDecreases(c, s.threads[a.t], a.h);
    }
  }

  /** A new call raises the measure by no more than a constant. */
  lemma InvokeRaises(c: Config, s: State, call: Call)
    ensures Measure(c, Apply(c, s, Invoke(call))) <= Measure(c, s) + 4 + 3 * Target(c)
  {
    SumAppend(s.threads, Enter(c, call), WeightFn(c));
  }

  function Calls(acts: seq<Action>): nat {
    if |acts| == 0 then 0 else (if acts[0].Invoke? then 1 else 0) + Calls(acts[1..])
  }

  /** Each call of a run is counted once. */
  lemma {:induction false} CallsAdd(acts: seq<Action>, a: Action)
    ensures Calls([]) == 0 && Calls(acts + [a]) == Calls(acts) + if a.Invoke? then 1 else 0
  {
    if |acts| == 0 {
      assert [] + [a] == [a];
    } else {
      assert (acts + [a])[1..] == acts[1..] + [a];
      CallsAdd(acts[1..], a);
    }
  }

  lemma {:induction false} RunLength(c: Config, s: State, acts: seq<Action>)
    requires Runs(c, s, acts) && AllWorking(s)
    ensures |acts| + Measure(c, Final(c, s, acts)) <= Measure(c, s) + (5 + 3 * Target(c)) * Calls(acts)
    decreases |acts|
  {
    if |acts| > 0 {
      var s' := Apply(c, s, acts[0]);
      StepWorking(c, s, acts[0]);
      RunLength(c, s', acts[1..]);
      if acts[0].Invoke? {
        InvokeRaises(c, s, acts[0].call);
        var k, n := 5 + 3 * Target(c), Calls(acts[1..]);
        assert k * (n + 1) == k * n + k;
      } else {
        StepDecreases(c, s, acts[0]);
      }
    }
  }

  /** Termination: a run with k API calls has at most PoolSize + (5 + 3 PoolSize) k
      steps, whatever the backend and the scheduler do. */
  lemma RunsAreFinite(c: Config, s0: State, acts: seq<Action>)
    requires Init(c, s0) && Runs(c, s0, acts)
    ensures |acts| <= Target(c) + (5 + 3 * Target(c)) * Calls(acts)
  {
    RunLength(c, s0, acts);
  }

  predicate Finished(th: Thread) {
    th.AllocDone? || th.ReplDone? || th.RelDone? || th.ShutDone? || th.ExecDone? || th.StatusDone?
  }

  /** Deadlock freedom: a thread that has not finished can always take a step, its
      critical section, its Boot (which may fail), or its next call. */
  lemma UnfinishedCanStep(s: State, t: nat) returns (a: Action)
    requires AllWorking(s) && t < |s.threads| && !Finished(s.threads[t])
    requires forall id ::
      s.threads[t].ShutDrain? && id in s.threads[t].active ==> s.threads[t].active[id].handle.id == id
    ensures Enabled(s, a) && !a.Invoke?
  {
    var th := s.threads[t];
    if Locks(th) {
      a := Lock(t);
    } else if Boots(th) {
      a := BootFail(t);
    } else if th.AllocSpawn? {
      a := Spawn(t);
    } else if th.RelDestroy? {
      a := Destroy(t, th.h);
    } else if th.ExecRun? {
      a := ExecReturn(t);
    } else if th.active != map[] {
      var id :| id in th.active;
      a := Destroy(t, th.active[id].handle);
    } else {
      a := Destroy(t, th.warm[0]);
    }
  }
}
