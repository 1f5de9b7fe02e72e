/** What an allocation remembers of the request it was made for. */
module PoolRequests {
  import opened Options
  import opened PoolModel

  /** One of these actions is a call of Allocate that asked for this. */
  ghost predicate AskedFor(c: Config, acts: seq<Action>, held: AllocRequest) {
    exists i :: 0 <= i < |acts| && acts[i].Invoke? && acts[i].call.Allocate? && Defaulted(c, acts[i].call.req, held)
  }

  /** So it is for whatever request or allocation the thread works with. */
  ghost predicate ThreadAsked(c: Config, acts: seq<Action>, th: Thread) {
    match th
    case AllocStart(req) => AskedFor(c, acts, req)
    case AllocBoot(req) => AskedFor(c, acts, req)
    case AllocPublish(req, _) => AskedFor(c, acts, req)
    case ExecRun(_, a) => AskedFor(c, acts, a.req)
    case ExecDone(_, used) => used.Some? ==> AskedFor(c, acts, used.value.req)
    case _ => true
  }

  ghost predicate AllAsked(c: Config, acts: seq<Action>, s: State) {
    && (forall id :: id in s.shared.active ==> AskedFor(c, acts, s.shared.active[id].req))
    && (forall t :: 0 <= t < |s.threads| ==> ThreadAsked(c, acts, s.threads[t]))
  }

  lemma EnterAsked(c: Config, acts: seq<Action>, call: Call)
    requires Invoke(call) in acts
    ensures ThreadAsked(c, acts, Enter(c, call))
  {
    var i :| 0 <= i < |acts| && acts[i] == Invoke(call);
    if call.Allocate? {
      assert Defaulted(c, acts[i].call.req, Enter(c, call).req);
    }
  }

  lemma SectionAsked(c: Config, acts: seq<Action>, sh: Shared, th: Thread)
    requires Locks(th) && ThreadAsked(c, acts, th)
    requires forall id :: id in sh.active ==> AskedFor(c, acts, sh.active[id].req)
    ensures var (sh', th') := Section(c, sh, th);
      ThreadAsked(c, acts, th') && forall id :: id in sh'.active ==> AskedFor(c, acts, sh'.active[id].req)
  {
  }

  lemma StepAsked(c: Config, acts: seq<Action>, s: State, a: Action)
    requires AllAsked(c, acts, s) && Enabled(s, a) && a in acts
    ensures AllAsked(c, acts, Apply(c, s, a))
  {
    match a
    case Invoke(call) => EnterAsked(c, acts, call);
    case Lock(t) => SectionAsked(c, acts, s.shared, s.threads[t]);
    case _ =>
  }

  lemma {:induction false} RunAsked(c: Config, acts: seq<Action>, s: State, rest: seq<Action>)
    requires AllAsked(c, acts, s) && Runs(c, s, rest) && forall a :: a in rest ==> a in acts
    ensures AllAsked(c, acts, Final(c, s, rest))
    decreases |rest|
  {
    if |rest| > 0 {
      StepAsked(c, acts, s, rest[0]);
      RunAsked(c, acts, Apply(c, s, rest[0]), rest[1..]);
    }
  }

  /** In every reachable state each active allocation holds what some caller asked for,
      with zeros replaced by the pool's defaults; and so does every allocation that an
      Execute has found. */
  lemma AllocationsHoldRequests(c: Config, s0: State, acts: seq<Action>)
    requires Init(c, s0) && Runs(c, s0, acts)
    ensures var s := Final(c, s0, acts);
      && (forall id :: id in s.shared.active ==> AskedFor(c, acts, s.shared.active[id].req))
      && (forall t :: 0 <= t < |s.threads| && s.threads[t].ExecRun? ==> AskedFor(c, acts, s.threads[t].a.req))
  {
    RunAsked(c, acts, s0, acts);
  }
}
