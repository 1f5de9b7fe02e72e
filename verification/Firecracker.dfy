/** The life of one microVM: staged acquisition of a directory, a log file and a
    process, an ordered configure-and-start sequence, and teardown. The operating
    system is a ledger of what exists; what can fail is decided by a script. */
module Firecracker {
  import opened Options

  /* ---------- the operating system ---------- */

  datatype Signal = Term(pid: nat) | Kill(pid: nat)

  /** What happens to the resources of a VM: it gains, or loses, its directory (level 1),
      its log file (2) or its process (3). */
  datatype LedgerOp = Gains(level: nat) | Loses(level: nat)

  /** Up to a level, and back down from it. */
  function Climb(k: nat): seq<LedgerOp> {
    if k == 0 then [] else Climb(k - 1) + [Gains(k)]
  }

  function Descend(k: nat): seq<LedgerOp> {
    if k == 0 then [] else [Loses(k)] + Descend(k - 1)
  }

  class Os {
    var dirs: set<nat>
    var logs: set<nat>
    var procs: set<nat>
    var signals: seq<Signal>
    var next: nat
    ghost var ops: seq<LedgerOp>

    /** Names in use are below `next`. */
    ghost predicate Valid()
      reads this
    {
      && (forall n :: n in dirs ==> n < next)
      && (forall n :: n in logs ==> n < next)
      && (forall n :: n in procs ==> n < next)
    }

    constructor ()
      ensures Valid() && dirs == logs == procs == {} && signals == [] && ops == []
    {
      dirs, logs, procs := {}, {}, {};
      signals, ops := [], [];
      next := 0;
    }

    method MkdirTemp(ok: bool) returns (dir: Option<nat>)
      requires Valid()
      modifies this`dirs, this`next, this`ops
      ensures Valid()
      ensures dir == if ok then Some(old(next)) else None
      ensures dirs == old(dirs) + if ok then {old(next)} else {}
      ensures ops == old(ops) + if ok then [Gains(1)] else []
      ensures next == old(next) + if ok then 1 else 0
    {
      if !ok {
        return None;
      }
      dir := Some(next);
      dirs := dirs + {next};
      ops := ops + [Gains(1)];
      next := next + 1;
    }

    method CreateLog(ok: bool) returns (log: Option<nat>)
      requires Valid()
      modifies this`logs, this`next, this`ops
      ensures Valid()
      ensures log == if ok then Some(old(next)) else None
      ensures logs == old(logs) + if ok then {old(next)} else {}
      ensures ops == old(ops) + if ok then [Gains(2)] else []
      ensures next == old(next) + if ok then 1 else 0
    {
      if !ok {
        return None;
      }
      log := Some(next);
      logs := logs + {next};
      ops := ops + [Gains(2)];
      next := next + 1;
    }

    method Start(ok: bool) returns (pid: Option<nat>)
      requires Valid()
      modifies this`procs, this`next, this`ops
      ensures Valid()
      ensures pid == if ok then Some(old(next)) else None
      ensures procs == old(procs) + if ok then {old(next)} else {}
      ensures ops == old(ops) + if ok then [Gains(3)] else []
      ensures next == old(next) + if ok then 1 else 0
    {
      if !ok {
        return None;
      }
      pid := Some(next);
      procs := procs + {next};
      ops := ops + [Gains(3)];
      next := next + 1;
    }

    method CloseLog(log: nat)
      modifies this`logs, this`ops
      ensures logs == old(logs) - {log} && ops == old(ops) + [Loses(2)]
    {
      ops := ops + [Loses(2)];
      logs := logs - {log};
    }

    method RemoveAll(dir: nat)
      modifies this`dirs, this`ops
      ensures dirs == old(dirs) - {dir} && ops == old(ops) + [Loses(1)]
    {
      ops := ops + [Loses(1)];
      dirs := dirs - {dir};
    }

    method Signalled(s: Signal)
      modifies this`signals
      ensures signals == old(signals) + [s]
    {
      signals := signals + [s];
    }

    method Wait(pid: nat)
      modifies this`procs, this`ops
      ensures procs == old(procs) - {pid} && ops == old(ops) + [Loses(3)]
    {
      ops := ops + [Loses(3)];
      procs := procs - {pid};
    }
  }

  /* ---------- polling ---------- */

  /** One attempt: it succeeds, or it fails and then the ticker or the context wins. */
  datatype Poll = Up | Tick | Expired

  /** Some attempt succeeds before the context expires; an exhausted script is an
      expired context. */
  ghost predicate ComesUp(script: seq<Poll>) {
    exists i :: 0 <= i < |script| && script[i].Up? && forall k :: 0 <= k < i ==> script[k].Tick?
  }

  /** waitForSocket: `probes` counts the attempts. */
  method WaitFor(script: seq<Poll>) returns (ok: bool, probes: nat)
    ensures ok <==> exists i :: 0 <= i < |script| && script[i].Up? && forall k :: 0 <= k < i ==> script[k].Tick?
    ensures probes <= |script| && (|script| > 0 ==> probes > 0)
    ensures ok ==> probes > 0 && script[probes - 1].Up?
  {
    probes := 0;
    while probes < |script|
      invariant 0 <= probes <= |script|
      invariant forall k :: 0 <= k < probes ==> script[k].Tick?
    {
      probes := probes + 1;
      if script[probes - 1].Up? {
        return true, probes;
      }
      if script[probes - 1].Expired? {
        return false, probes;
      }
    }
    return false, probes;
  }

  /* ---------- the VMM's API ---------- */

  datatype Put =
    | MachineConfig(vcpus: int, memoryMB: int)
    | BootSource(kernelPath: string, bootArgs: string)
    | Drive(driveId: string, pathOnHost: string, isRoot: bool, isReadOnly: bool)
    | Vsock(guestCID: int, udsPath: nat)
    | InstanceStart

  /** What becomes of a request: an HTTP status, or an error, after which the VMM may
      or may not have applied it. */
  datatype Answer = Status(code: nat) | Lost(applied: bool)

  datatype Event =
    | Sent(put: Put, answer: Answer)
    | Probed(up: bool)

  /** The gate of putJSON. */
  predicate Accepted(e: Event) {
    e.Sent? && e.answer.Status? && e.answer.code < 300
  }

  /** The VMM acted on it, whether or not the client learned so. */
  predicate Applied(e: Event) {
    Accepted(e) || (e.Sent? && e.answer == Lost(true))
  }

  function AppliedPuts(log: seq<Event>): seq<Put> {
    if |log| == 0 then []
    else
      var e := log[|log| - 1];
      AppliedPuts(log[..|log| - 1]) + (if Applied(e) then [e.put] else [])
  }

  /** A VMM as its documentation has it: it is configured, piece by piece, and then
      started; a start with a piece missing, and any request after the start, is an
      error. */
  datatype Machine =
    | Unstarted(
        machine: Option<(int, int)>,
        source: Option<(string, string)>,
        drive: Option<(string, string, bool, bool)>,
        vsock: Option<(int, nat)>)
    | Started(
        vcpus: int, memoryMB: int,
        kernelPath: string, bootArgs: string,
        driveId: string, pathOnHost: string, isRoot: bool, isReadOnly: bool,
        guestCID: int, udsPath: nat)
    | Broken

  const Blank := Unstarted(None, None, None, None)

  function Obey(m: Machine, put: Put): Machine {
    if !m.Unstarted? then Broken
    else match put
      case MachineConfig(vcpus, mem) => m.(machine := Some((vcpus, mem)))
      case BootSource(kernel, args) => m.(source := Some((kernel, args)))
      case Drive(id, path, isRoot, isReadOnly) => m.(drive := Some((id, path, isRoot, isReadOnly)))
      case Vsock(cid, uds) => m.(vsock := Some((cid, uds)))
      case InstanceStart =>
        match (m.machine, m.source, m.drive, m.vsock) {
          case (Some(c), Some(b), Some(d), Some(v)) =>
            Started(c.0, c.1, b.0, b.1, d.0, d.1, d.2, d.3, v.0, v.1)
          case _ => Broken
        }
  }

  /** What has become of the VMM: it obeys a request that it answers with a status below
      300, and one whose answer is lost if it got that far. */
  function MachineAfter(log: seq<Event>): Machine {
    if |log| == 0 then Blank
    else
      var m := MachineAfter(log[..|log| - 1]);
      match log[|log| - 1]
      case Sent(put, Status(code)) => if code < 300 then Obey(m, put) else m
      case Sent(put, Lost(applied)) => if applied then Obey(m, put) else m
      case Probed(_) => m
  }

  function ObeyAll(puts: seq<Put>): Machine {
    if |puts| == 0 then Blank else Obey(ObeyAll(puts[..|puts| - 1]), puts[|puts| - 1])
  }

  /** It is what the applied requests make of it, one after the other. */
  lemma {:induction false} MachineOfApplied(log: seq<Event>)
    ensures MachineAfter(log) == ObeyAll(AppliedPuts(log))
  {
    if |log| > 0 {
      var n := |log| - 1;
      MachineOfApplied(log[..n]);
      if Applied(log[n]) {
        assert (AppliedPuts(log[..n]) + [log[n].put])[..|AppliedPuts(log[..n])|] == AppliedPuts(log[..n]);
      } else {
        assert AppliedPuts(log) == AppliedPuts(log[..n]);
      }
    }
  }

  datatype VmConfig = VmConfig(
    kernelPath: string,
    rootfsPath: string,
    rootfsReadWrite: bool,
    bootArgs: string,
    guestCID: int,
    defaultMemoryMB: int,
    defaultVCPUs: int)

  /** The five requests of a boot, in order. */
  function Plan(cfg: VmConfig, vcpus: int, mem: int, uds: nat): seq<Put> {
    [MachineConfig(vcpus, mem),
     BootSource(cfg.kernelPath, cfg.bootArgs),
     Drive("rootfs", cfg.rootfsPath, true, !cfg.rootfsReadWrite),
     Vsock(cfg.guestCID, uds),
     InstanceStart]
  }

  /** The first `n` answers all accept. */
  ghost predicate AllAccepted(answers: seq<Answer>, n: nat) {
    n <= |answers| && forall i :: 0 <= i < n ==> answers[i].Status? && answers[i].code < 300
  }

  /** A VMM: the answers to come, and what has happened to it. */
  class Vmm {
    var answers: seq<Answer>
    var log: seq<Event>

    constructor (answers: seq<Answer>)
      ensures this.answers == answers && log == []
    {
      this.answers := answers;
      log := [];
    }

    /** putJSON; without an answer the request is lost. */
    method PutJSON(put: Put) returns (ok: bool, ghost e: Event)
      modifies this
      ensures e == Sent(put, if |old(answers)| == 0 then Lost(false) else old(answers)[0])
      ensures log == old(log) + [e]
      ensures ok == Accepted(e) == (e.answer.Status? && e.answer.code < 300)
      ensures answers == if |old(answers)| == 0 then [] else old(answers)[1..]
    {
      var answer := Lost(false);
      if |answers| > 0 {
        answer := answers[0];
        answers := answers[1..];
      }
      e := Sent(put, answer);
      log := log + [Sent(put, answer)];
      ok := answer.Status? && answer.code < 300;
    }

    method Probe(up: bool)
      modifies this`log
      ensures log == old(log) + [Probed(up)]
    {
      log := log + [Probed(up)];
    }
  }

  /** The history of a boot up to a point where `n` requests have been accepted and
      nothing else has happened. */
  ghost predicate Configured(log: seq<Event>, plan: seq<Put>, n: nat) {
    && |log| == n <= |plan|
    && forall i :: 0 <= i < n ==> Accepted(log[i]) && log[i].put == plan[i]
  }

  lemma {:induction false} ConfiguredApplies(log: seq<Event>, plan: seq<Put>, n: nat)
    requires Configured(log, plan, n)
    ensures AppliedPuts(log) == plan[..n]
  {
    if n > 0 {
      ConfiguredApplies(log[..n - 1], plan, n - 1);
      assert plan[..n] == plan[..n - 1] + [plan[n - 1]];
    }
  }

  /** What a boot may have done to the VMM: a prefix of the plan was applied, in
      order, and the agent was probed only after the whole plan was accepted. */
  ghost predicate OrderedBoot(log: seq<Event>, plan: seq<Put>) {
    && AppliedPuts(log) <= plan
    && forall k :: 0 <= k < |log| && log[k].Probed? ==>
         |log| >= |plan| && Configured(log[..|plan|], plan, |plan|) && k >= |plan|
  }

  /** An ordered boot of this machine, for some socket path. */
  ghost predicate Configures(log: seq<Event>, cfg: VmConfig, vcpus: int, mem: int) {
    exists uds :: OrderedBoot(log, Plan(cfg, vcpus, mem, uds))
  }

  lemma NothingConfigured(cfg: VmConfig, vcpus: int, mem: int)
    ensures Configures([], cfg, vcpus, mem)
  {
    assert OrderedBoot([], Plan(cfg, vcpus, mem, 0));
  }

  lemma OneMoreApplies(log: seq<Event>, plan: seq<Put>, n: nat, e: Event)
    requires Configured(log, plan, n) && n < |plan| && e.Sent? && e.put == plan[n]
    ensures OrderedBoot(log + [e], plan)
    ensures Accepted(e) ==> Configured(log + [e], plan, n + 1)
  {
    ConfiguredApplies(log, plan, n);
    assert (log + [e])[..n] == log;
    assert plan[..n + 1] == plan[..n] + [plan[n]];
  }

  lemma ProbeKeepsOrder(log: seq<Event>, plan: seq<Put>, up: bool)
    requires OrderedBoot(log, plan) && |log| >= |plan| && Configured(log[..|plan|], plan, |plan|)
    ensures OrderedBoot(log + [Probed(up)], plan)
    ensures AppliedPuts(log + [Probed(up)]) == AppliedPuts(log)
    ensures (log + [Probed(up)])[..|plan|] == log[..|plan|]
  {
    assert (log + [Probed(up)])[..|log|] == log;
    assert (log + [Probed(up)])[..|plan|] == log[..|plan|];
  }

  /** Never an error state, and no agent probe of a machine that has not started. */
  ghost predicate SafeBoot(log: seq<Event>) {
    |log| == 0 ||
    (var before := log[..|log| - 1];
     && SafeBoot(before) && !MachineAfter(log).Broken?
     && (log[|log| - 1].Probed? ==> MachineAfter(before).Started?))
  }

  lemma SafeGrows(log: seq<Event>, e: Event)
    requires SafeBoot(log) && !MachineAfter(log + [e]).Broken? && (e.Probed? ==> MachineAfter(log).Started?)
    ensures SafeBoot(log + [e])
  {
    assert (log + [e])[..|log|] == log;
  }

  /** At no time of a safe boot was the VMM in an error state, and each time the agent was
      probed it had been started. */
  lemma {:induction false} SafeAlways(log: seq<Event>, k: nat)
    requires SafeBoot(log) && k <= |log|
    ensures !MachineAfter(log[..k]).Broken?
    ensures k < |log| && log[k].Probed? ==> MachineAfter(log[..k]).Started?
  {
    var n := |log| - 1;
    if k == |log| {
      assert log[..k] == log;
    } else if k < n {
      SafeAlways(log[..n], k);
      assert log[..n][..k] == log[..k];
    } else {
      SafeAlways(log[..n], k);
      assert log[..n][..k] == log[..n];
    }
  }

  lemma MachineGrows(log: seq<Event>, e: Event)
    ensures MachineAfter(log + [e]) ==
      if e.Sent? && ((e.answer.Status? && e.answer.code < 300) || e.answer == Lost(true))
      then Obey(MachineAfter(log), e.put) else MachineAfter(log)
  {
    assert (log + [e])[..|log|] == log;
  }

  /** What `n` accepted requests have made of the VMM. */
  function Stage(cfg: VmConfig, vcpus: int, mem: int, uds: nat, n: nat): Machine {
    if n >= 5 then
      Started(vcpus, mem, cfg.kernelPath, cfg.bootArgs, "rootfs", cfg.rootfsPath, true, !cfg.rootfsReadWrite,
        cfg.guestCID, uds)
    else
      Unstarted(
        if n >= 1 then Some((vcpus, mem)) else None,
        if n >= 2 then Some((cfg.kernelPath, cfg.bootArgs)) else None,
        if n >= 3 then Some(("rootfs", cfg.rootfsPath, true, !cfg.rootfsReadWrite)) else None,
        if n >= 4 then Some((cfg.guestCID, uds)) else None)
  }

  /** The next request of the plan, answered somehow. */
  lemma StageGrows(cfg: VmConfig, vcpus: int, mem: int, uds: nat, n: nat, log: seq<Event>, e: Event)
    requires n < 5 && e.Sent? && e.put == Plan(cfg, vcpus, mem, uds)[n]
    requires SafeBoot(log) && MachineAfter(log) == Stage(cfg, vcpus, mem, uds, n)
    ensures SafeBoot(log + [e])
    ensures Accepted(e) ==> MachineAfter(log + [e]) == Stage(cfg, vcpus, mem, uds, n + 1)
  {
    MachineGrows(log, e);
    SafeGrows(log, e);
  }

  /** `n` requests of the plan have been accepted, and nothing else has happened. */
  ghost predicate Reached(log: seq<Event>, cfg: VmConfig, vcpus: int, mem: int, uds: nat, n: nat) {
    && Configured(log, Plan(cfg, vcpus, mem, uds), n)
    && SafeBoot(log) && MachineAfter(log) == Stage(cfg, vcpus, mem, uds, n)
  }

  ghost predicate Orderly(log: seq<Event>, plan: seq<Put>) {
    OrderedBoot(log, plan) && SafeBoot(log)
  }

  /** Another request of the plan, answered somehow. */
  lemma ReachedGrows(log: seq<Event>, cfg: VmConfig, vcpus: int, mem: int, uds: nat, n: nat, e: Event)
    requires Reached(log, cfg, vcpus, mem, uds, n) && n < 5 && e.Sent? && e.put == Plan(cfg, vcpus, mem, uds)[n]
    ensures Orderly(log + [e], Plan(cfg, vcpus, mem, uds))
    ensures Accepted(e) ==> Reached(log + [e], cfg, vcpus, mem, uds, n + 1)
  {
    OneMoreApplies(log, Plan(cfg, vcpus, mem, uds), n, e);
    StageGrows(cfg, vcpus, mem, uds, n, log, e);
  }

  /** One request of the plan. */
  method SendStep(
    cfg: VmConfig, vmm: Vmm, put: Put, ghost vcpus: int, ghost mem: int, ghost uds: nat, ghost n: nat,
    ghost all: seq<Answer>)
    returns (ok: bool)
    requires Reached(vmm.log, cfg, vcpus, mem, uds, n) && n < 5 && put == Plan(cfg, vcpus, mem, uds)[n]
    requires AllAccepted(all, n) && vmm.answers == all[n..]
    modifies vmm
    ensures Orderly(vmm.log, Plan(cfg, vcpus, mem, uds))
    ensures ok <==> AllAccepted(all, n + 1)
    ensures ok ==> Reached(vmm.log, cfg, vcpus, mem, uds, n + 1) && vmm.answers == all[n + 1..]
  {
    ghost var before := vmm.log;
    ghost var e;
    ok, e := vmm.PutJSON(put);
    ReachedGrows(before, cfg, vcpus, mem, uds, n, e);
  }

  /** The configuration of driveBoot: send the plan, stop at the first error. */
  method Configure(cfg: VmConfig, vmm: Vmm, vcpus: int, mem: int, uds: nat) returns (ok: bool)
    requires vmm.log == []
    modifies vmm
    ensures Orderly(vmm.log, Plan(cfg, vcpus, mem, uds))
    ensures ok <==> AllAccepted(old(vmm.answers), 5)
    ensures ok ==> Reached(vmm.log, cfg, vcpus, mem, uds, 5)
  {
    ghost var all := vmm.answers;
    ok := SendStep(cfg, vmm, MachineConfig(vcpus, mem), vcpus, mem, uds, 0, all);
    if !ok { return; }
    ok := SendStep(cfg, vmm, BootSource(cfg.kernelPath, cfg.bootArgs), vcpus, mem, uds, 1, all);
    if !ok { return; }
    ok := SendStep(cfg, vmm, Drive("rootfs", cfg.rootfsPath, true, !cfg.rootfsReadWrite), vcpus, mem, uds, 2, all);
    if !ok { return; }
    ok := SendStep(cfg, vmm, Vsock(cfg.guestCID, uds), vcpus, mem, uds, 3, all);
    if !ok { return; }
    ok := SendStep(cfg, vmm, InstanceStart, vcpus, mem, uds, 4, all);
  }

  /** The whole plan was accepted, and since then the agent has been probed `n` times. */
  ghost predicate Probing(log: seq<Event>, plan: seq<Put>, machine: Machine, n: nat) {
    && |plan| == 5 && |log| == 5 + n
    && Orderly(log, plan) && AppliedPuts(log) == plan && Configured(log[..5], plan, 5)
    && MachineAfter(log) == machine && machine.Started?
  }

  lemma ProbingStarts(log: seq<Event>, cfg: VmConfig, vcpus: int, mem: int, uds: nat)
    requires Reached(log, cfg, vcpus, mem, uds, 5) && OrderedBoot(log, Plan(cfg, vcpus, mem, uds))
    ensures Probing(log, Plan(cfg, vcpus, mem, uds), Stage(cfg, vcpus, mem, uds, 5), 0)
  {
    var plan := Plan(cfg, vcpus, mem, uds);
    ConfiguredApplies(log, plan, 5);
    assert plan[..5] == plan && log[..5] == log;
  }

  lemma ProbingGoesOn(log: seq<Event>, plan: seq<Put>, machine: Machine, n: nat, up: bool)
    requires Probing(log, plan, machine, n)
    ensures Probing(log + [Probed(up)], plan, machine, n + 1)
  {
    ProbeKeepsOrder(log, plan, up);
    MachineGrows(log, Probed(up));
    SafeGrows(log, Probed(up));
  }

  /** driveBoot: wait for the API socket, configure and start, then wait for the agent.
      Whatever is answered, the VMM never gets a start before it is configured or a
      request after it, and the agent is probed only behind the start. On success it has
      started with exactly this configuration. */
  method DriveBoot(cfg: VmConfig, vmm: Vmm, vcpus: int, mem: int, uds: nat, api: seq<Poll>, agent: seq<Poll>)
    returns (ok: bool)
    requires vmm.log == []
    modifies vmm
    ensures OrderedBoot(vmm.log, Plan(cfg, vcpus, mem, uds)) && SafeBoot(vmm.log)
    ensures ok <==> ComesUp(api) && AllAccepted(old(vmm.answers), 5) && ComesUp(agent)
    ensures ok ==> AppliedPuts(vmm.log) == Plan(cfg, vcpus, mem, uds)
    ensures ok ==>
      MachineAfter(vmm.log) ==
        Started(vcpus, mem, cfg.kernelPath, cfg.bootArgs, "rootfs", cfg.rootfsPath, true, !cfg.rootfsReadWrite,
          cfg.guestCID, uds)
    ensures ok ==> |vmm.log| > 5 && vmm.log[|vmm.log| - 1] == Probed(true)
  {
    var tries;
    ok, tries := WaitFor(api);
    if !ok { return; }
    ok := Configure(cfg, vmm, vcpus, mem, uds);
    if !ok { return; }
    ProbingStarts(vmm.log, cfg, vcpus, mem, uds);
    ok := ProbeAgent(vmm, agent, Plan(cfg, vcpus, mem, uds), Stage(cfg, vcpus, mem, uds, 5));
  }

  /** waitForVsockAgent: probe until the agent answers or the context expires. */
  method ProbeAgent(vmm: Vmm, agent: seq<Poll>, ghost plan: seq<Put>, ghost machine: Machine) returns (ok: bool)
    requires Probing(vmm.log, plan, machine, 0)
    modifies vmm`log
    ensures Orderly(vmm.log, plan) && AppliedPuts(vmm.log) == plan && MachineAfter(vmm.log) == machine
    ensures ok <==> ComesUp(agent)
    ensures ok ==> |vmm.log| > 5 && vmm.log[|vmm.log| - 1] == Probed(true)
  {
    var i := 0;
    while i < |agent|
      invariant 0 <= i <= |agent| && Probing(vmm.log, plan, machine, i)
      invariant forall k :: 0 <= k < i ==> agent[k].Tick?
    {
      ProbingGoesOn(vmm.log, plan, machine, i, agent[i].Up?);
      vmm.Probe(agent[i].Up?);
      if agent[i].Up? {
        return true;
      }
      if agent[i].Expired? {
        return false;
      }
      i := i + 1;
    }
    return false;
  }

  /* ---------- boot and destroy ---------- */

  datatype BootError = MissingFields(kernel: bool, rootfs: bool) | NoWorkDir | NoLogFile | NoProcess | BootFailed

  /** Everything a Boot, and the teardown of its VM, can meet. */
  datatype Script = Script(
    mkdir: bool, log: bool, launch: bool,
    api: seq<Poll>, answers: seq<Answer>, agent: seq<Poll>,
    exitsOnTerm: bool)

  class Handle {
    const workDir: nat
    const logFile: nat
    const pid: nat
    const memoryMB: int
    const vcpus: int
    const exitsOnTerm: bool
    var stopped: bool

    constructor (workDir: nat, logFile: nat, pid: nat, memoryMB: int, vcpus: int, exitsOnTerm: bool)
      ensures this.workDir == workDir && this.logFile == logFile && this.pid == pid && !stopped
      ensures this.memoryMB == memoryMB && this.vcpus == vcpus && this.exitsOnTerm == exitsOnTerm
    {
      this.workDir, this.logFile, this.pid := workDir, logFile, pid;
      this.memoryMB, this.vcpus, this.exitsOnTerm := memoryMB, vcpus, exitsOnTerm;
      stopped := false;
    }
  }

  /** A Boot gains its resources one by one; on failure it loses those it has, the last
      first. */
  ghost predicate BootOps(before: seq<LedgerOp>, after: seq<LedgerOp>, ok: bool) {
    exists k: nat :: k <= 3 && (ok ==> k == 3) && after == before + (Climb(k) + if ok then [] else Descend(k))
  }

  lemma BootOpsAt(before: seq<LedgerOp>, after: seq<LedgerOp>, k: nat, ok: bool)
    requires k <= 3 && (ok ==> k == 3) && after == before + (Climb(k) + if ok then [] else Descend(k))
    ensures BootOps(before, after, ok)
  {
  }

  /** What a launch has acquired. */
  datatype Launched = Launched(workDir: nat, logFile: nat, pid: nat)

  lemma PutBack(s: set<nat>, x: nat)
    requires x !in s
    ensures (s + {x}) - {x} == s
  {
  }

  /** A zero field of the request takes the backend's default. */
  function OrDefault(x: int, default: int): int { if x == 0 then default else x }

  /** What a Boot needs to succeed. */
  ghost predicate Bootable(cfg: VmConfig, s: Script) {
    && cfg.kernelPath != "" && cfg.rootfsPath != ""
    && s.mkdir && s.log && s.launch
    && ComesUp(s.api) && AllAccepted(s.answers, 5) && ComesUp(s.agent)
  }

  class FirecrackerBackend {
    const cfg: VmConfig
    const os: Os

    constructor (cfg: VmConfig, os: Os)
      ensures this.cfg == cfg && this.os == os
    {
      this.cfg, this.os := cfg, os;
    }

    /** Boot is all-or-nothing: an error, at whatever stage, leaves directories, log
        files and processes as they were; success adds exactly one of each, new ones,
        owned by the handle. It succeeds exactly when no stage fails. */
    method Boot(memoryMB: int, vcpus: int, s: Script) returns (r: Result<Handle, BootError>, vmm: Vmm)
      requires os.Valid()
      modifies os
      ensures os.Valid() && fresh(vmm)
      ensures Configures(vmm.log, cfg, OrDefault(vcpus, cfg.defaultVCPUs), OrDefault(memoryMB, cfg.defaultMemoryMB))
      ensures SafeBoot(vmm.log)
      ensures r.Ok? <==> Bootable(cfg, s)
      ensures BootOps(old(os.ops), os.ops, r.Ok?)
      ensures r.Err? ==> os.dirs == old(os.dirs) && os.logs == old(os.logs) && os.procs == old(os.procs)
      ensures r.Err? ==>
        r.error ==
        if cfg.kernelPath == "" || cfg.rootfsPath == "" then MissingFields(cfg.kernelPath == "", cfg.rootfsPath == "")
        else if !s.mkdir then NoWorkDir
        else if !s.log then NoLogFile
        else if !s.launch then NoProcess
        else BootFailed
      ensures r.Ok? ==>
        var h := r.value;
        && fresh(h) && !h.stopped
        && h.workDir !in old(os.dirs) && os.dirs == old(os.dirs) + {h.workDir}
        && h.logFile !in old(os.logs) && os.logs == old(os.logs) + {h.logFile}
        && h.pid !in old(os.procs) && os.procs == old(os.procs) + {h.pid}
        && os.signals == old(os.signals)
        && h.exitsOnTerm == s.exitsOnTerm
        && h.memoryMB == (if memoryMB == 0 then cfg.defaultMemoryMB else memoryMB)
        && h.vcpus == (if vcpus == 0 then cfg.defaultVCPUs else vcpus)
        && MachineAfter(vmm.log) ==
             Started(h.vcpus, h.memoryMB, cfg.kernelPath, cfg.bootArgs, "rootfs", cfg.rootfsPath, true,
               !cfg.rootfsReadWrite, cfg.guestCID, h.workDir)
    {
      ghost var before, dirs, logs, procs := os.ops, os.dirs, os.logs, os.procs;
      var mem, cpus := OrDefault(memoryMB, cfg.defaultMemoryMB), OrDefault(vcpus, cfg.defaultVCPUs);
      vmm := new Vmm(s.answers);
      NothingConfigured(cfg, cpus, mem);
      if cfg.kernelPath == "" || cfg.rootfsPath == "" {
        BootOpsAt(before, os.ops, 0, false);
        return Err(MissingFields(cfg.kernelPath == "", cfg.rootfsPath == "")), vmm;
      }
      var got := Launch(s);
      if got.Err? {
        return Err(got.error), vmm;
      }
      var h := new Handle(got.value.workDir, got.value.logFile, got.value.pid, mem, cpus, s.exitsOnTerm);
      var ok := BringUp(h, vmm, s);
      if !ok {
        BootOpsAt(before, os.ops, 3, false);
        PutBack(dirs, h.workDir);
        PutBack(logs, h.logFile);
        PutBack(procs, h.pid);
        return Err(BootFailed), vmm;
      }
      BootOpsAt(before, os.ops, 3, true);
      return Ok(h), vmm;
    }

    /** The last stage of Boot: configure, start and probe, or tear down again. */
    method BringUp(h: Handle, vmm: Vmm, s: Script) returns (ok: bool)
      requires !h.stopped && vmm.log == [] && vmm.answers == s.answers
      modifies os, vmm, h`stopped
      ensures Configures(vmm.log, cfg, h.vcpus, h.memoryMB) && SafeBoot(vmm.log)
      ensures ok <==> ComesUp(s.api) && AllAccepted(s.answers, 5) && ComesUp(s.agent)
      ensures ok ==>
        && unchanged(os) && !h.stopped
        && MachineAfter(vmm.log) ==
             Started(h.vcpus, h.memoryMB, cfg.kernelPath, cfg.bootArgs, "rootfs", cfg.rootfsPath, true,
               !cfg.rootfsReadWrite, cfg.guestCID, h.workDir)
      ensures !ok ==>
        && os.dirs == old(os.dirs) - {h.workDir}
        && os.logs == old(os.logs) - {h.logFile}
        && os.procs == old(os.procs) - {h.pid}
        && os.ops == old(os.ops) + Descend(3)
      ensures os.next == old(os.next)
    {
      ok := DriveBoot(cfg, vmm, h.vcpus, h.memoryMB, h.workDir, s.api, s.agent);
      if !ok {
        DestroyHandle(h);
      }
    }

    /** The stages of Boot up to the VMM's process: what was acquired before a stage
        failed is given back. */
    method Launch(s: Script) returns (r: Result<Launched, BootError>)
      requires os.Valid()
      modifies os
      ensures os.Valid() && os.signals == old(os.signals)
      ensures r.Ok? <==> s.mkdir && s.log && s.launch
      ensures r.Err? ==>
        && os.dirs == old(os.dirs) && os.logs == old(os.logs) && os.procs == old(os.procs)
        && BootOps(old(os.ops), os.ops, false)
        && r.error == if !s.mkdir then NoWorkDir else if !s.log then NoLogFile else NoProcess
      ensures r.Ok? ==>
        var x := r.value;
        && x.workDir !in old(os.dirs) && os.dirs == old(os.dirs) + {x.workDir}
        && x.logFile !in old(os.logs) && os.logs == old(os.logs) + {x.logFile}
        && x.pid !in old(os.procs) && os.procs == old(os.procs) + {x.pid}
        && os.ops == old(os.ops) + Climb(3)
    {
      ghost var before := os.ops;
      var dir := os.MkdirTemp(s.mkdir);
      if dir.None? {
        BootOpsAt(before, os.ops, 0, false);
        return Err(NoWorkDir);
      }
      var log := os.CreateLog(s.log);
      if log.None? {
        os.RemoveAll(dir.value);
        BootOpsAt(before, os.ops, 1, false);
        return Err(NoLogFile);
      }
      var pid := os.Start(s.launch);
      if pid.None? {
        os.CloseLog(log.value);
        os.RemoveAll(dir.value);
        BootOpsAt(before, os.ops, 2, false);
        return Err(NoProcess);
      }
      return Ok(Launched(dir.value, log.value, pid.value));
    }

    /** Destroy: the first call tears the VM down, later ones do nothing. */
    method DestroyHandle(h: Handle)
      modifies os, h`stopped
      ensures h.stopped && os.ops == old(os.ops) + if old(h.stopped) then [] else Descend(3)
      ensures old(h.stopped) ==>
        os.dirs == old(os.dirs) && os.logs == old(os.logs) && os.procs == old(os.procs) && os.signals == old(os.signals)
      ensures !old(h.stopped) ==>
        && os.dirs == old(os.dirs) - {h.workDir}
        && os.logs == old(os.logs) - {h.logFile}
        && os.procs == old(os.procs) - {h.pid}
        && os.signals == old(os.signals) + [Term(h.pid)] + (if h.exitsOnTerm then [] else [Kill(h.pid)])
      ensures os.next == old(os.next)
    {
      if !h.stopped {
        Terminate(h);
        h.stopped := true;
      }
    }

    /** SIGTERM, wait, SIGKILL if the process outlives the timeout; the process is
        reaped either way, then the log is closed and the directory removed. */
    method Terminate(h: Handle)
      modifies os`dirs, os`logs, os`procs, os`signals, os`ops
      ensures os.ops == old(os.ops) + Descend(3)
      ensures os.dirs == old(os.dirs) - {h.workDir}
      ensures os.logs == old(os.logs) - {h.logFile}
      ensures os.procs == old(os.procs) - {h.pid}
      ensures os.signals == old(os.signals) + [Term(h.pid)] + (if h.exitsOnTerm then [] else [Kill(h.pid)])
    {
      os.Signalled(Term(h.pid));
      if !h.exitsOnTerm {
        os.Signalled(Kill(h.pid));
      }
      os.Wait(h.pid);
      os.CloseLog(h.logFile);
      os.RemoveAll(h.workDir);
    }
  }

  /** A Boot and two Destroys of what it returned: the ledger is back where it was,
      and a VM that came up got one SIGTERM, and one SIGKILL if it ignored that. */
  method BootDestroyRoundTrip(b: FirecrackerBackend, memoryMB: int, vcpus: int, s: Script)
    requires b.os.Valid()
    modifies b.os
    ensures b.os.dirs == old(b.os.dirs) && b.os.logs == old(b.os.logs) && b.os.procs == old(b.os.procs)
    ensures Bootable(b.cfg, s) ==> exists pid ::
      b.os.signals == old(b.os.signals) + [Term(pid)] + (if s.exitsOnTerm then [] else [Kill(pid)])
  {
    var r, vmm := b.Boot(memoryMB, vcpus, s);
    if r.Ok? {
      b.DestroyHandle(r.value);
      b.DestroyHandle(r.value);
    }
  }
}
