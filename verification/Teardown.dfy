/** Once-only teardown under any number of concurrent Destroy callers: sync.Once, a
    goroutine that waits for the process, and a race between its exit and a timeout. */
module Teardown {
  import opened Sums

  datatype Caller = Arrived | Runner | Returned

  /** Where the body of the Once is. */
  datatype Once =
    | NotRun
    | SendTerm
    | StartWait
    | Select
    | Killing
    | AwaitDone
    | CloseLog
    | RemoveDir
    | Done

  datatype Process = NoProcess | Alive | Exited | Reaped

  /** Signals and the Wait, in the order in which they happen; `late` says that the
      process had been reaped already, so that its number may belong to another. */
  datatype Event = TermSent | WaitStarted | KillSent(late: bool)

  /** `done` says that the wait goroutine has sent on its channel, which it does after
      Wait has reaped the process. */
  datatype State = State(
    callers: seq<Caller>,
    once: Once,
    process: Process,
    done: bool,
    logOpen: bool,
    dirExists: bool,
    events: seq<Event>)

  /** A handle, before any call of Destroy. */
  function Booted(hasProcess: bool): State {
    State([], NotRun, if hasProcess then Alive else NoProcess, false, true, true, [])
  }

  /** Steps of callers, of the Once's body, of the wait goroutine, and the process's exit. */
  datatype Action =
    | Call
    | Enter(t: nat)
    | Term
    | GoWait
    | Exit
    | Reap
    | Deliver
    | DoneArm
    | TimeoutArm
    | Kill
    | DoneAfterKill
    | Close
    | Remove
    | Return(t: nat)

  predicate Enabled(s: State, a: Action) {
    match a
    case Call => true
    case Enter(t) => t < |s.callers| && s.callers[t].Arrived? && s.once.NotRun?
    case Term => s.once.SendTerm?
    case GoWait => s.once.StartWait?
    case Exit => s.process.Alive?
    case Reap => s.process.Exited? && WaitStarted in s.events
    case Deliver => s.process.Reaped? && !s.done
    case DoneArm => s.once.Select? && s.done
    case TimeoutArm => s.once.Select?
    case Kill => s.once.Killing?
    case DoneAfterKill => s.once.AwaitDone? && s.done
    case Close => s.once.CloseLog?
    case Remove => s.once.RemoveDir?
    case Return(t) => t < |s.callers| && !s.callers[t].Returned? && s.once.Done?
  }

  function Apply(s: State, a: Action): State
    requires Enabled(s, a)
  {
    match a
    case Call => s.(callers := s.callers + [Arrived])
    case Enter(t) =>
      s.(callers := s.callers[t := Runner], once := if s.process.NoProcess? then CloseLog else SendTerm)
    case Term => s.(once := StartWait, events := s.events + [TermSent])
    case GoWait => s.(once := Select, events := s.events + [WaitStarted])
    case Exit => s.(process := Exited)
    case Reap => s.(process := Reaped)
    case Deliver => s.(done := true)
    case DoneArm => s.(once := CloseLog)
    case TimeoutArm => s.(once := Killing)
    case Kill => s.(once := AwaitDone, events := s.events + [KillSent(s.process.Reaped?)])
    case DoneAfterKill => s.(once := CloseLog)
    case Close => s.(once := RemoveDir, logOpen := false)
    case Remove => s.(once := Done, dirExists := false)
    case Return(t) => s.(callers := s.callers[t := Returned])
  }

  ghost predicate Runs(s: State, acts: seq<Action>)
    decreases |acts|
  {
    |acts| == 0 || (Enabled(s, acts[0]) && Runs(Apply(s, acts[0]), acts[1..]))
  }

  ghost function Final(s: State, acts: seq<Action>): State
    requires Runs(s, acts)
    decreases |acts|
  {
    if |acts| == 0 then s else Final(Apply(s, acts[0]), acts[1..])
  }

  /* ---------- the invariant ---------- */

  function Running(c: Caller): nat { if c.Runner? then 1 else 0 }

  /** The events of a finished teardown, by the arm it took. */
  ghost predicate FullHistory(events: seq<Event>) {
    || events == [TermSent, WaitStarted]
    || (|events| == 3 && events[..2] == [TermSent, WaitStarted] && events[2].KillSent?)
  }

  ghost predicate EventsFit(s: State) {
    match s.once
    case NotRun => s.events == []
    case SendTerm => s.events == []
    case StartWait => s.events == [TermSent]
    case Select => s.events == [TermSent, WaitStarted]
    case Killing => s.events == [TermSent, WaitStarted]
    case AwaitDone => FullHistory(s.events) && |s.events| == 3
    case _ => if s.process.NoProcess? then s.events == [] else FullHistory(s.events)
  }

  ghost predicate Inv(s: State) {
    && EventsFit(s)
    && (s.done ==> s.process.Reaped?)
    && (s.process.NoProcess? ==> s.once.NotRun? || s.once.CloseLog? || s.once.RemoveDir? || s.once.Done?)
    && (s.once.CloseLog? || s.once.RemoveDir? || s.once.Done? ==> s.process.NoProcess? || s.process.Reaped?)
    && (s.logOpen <==> !s.once.RemoveDir? && !s.once.Done?)
    && (s.dirExists <==> !s.once.Done?)
    && Sum(s.callers, Running) <= 1
    && (s.once.NotRun? ==> Sum(s.callers, Running) == 0)
    && (!s.once.Done? ==> forall t :: 0 <= t < |s.callers| ==> !s.callers[t].Returned?)
  }

  lemma CallerStepInv(s: State, a: Action)
    requires Inv(s) && Enabled(s, a) && (a.Call? || a.Enter? || a.Return?)
    ensures Inv(Apply(s, a))
  {
    match a
    case Call => SumAppend(s.callers, Arrived, Running);
    case Enter(t) => SumUpdate(s.callers, t, Runner, Running);
    case Return(t) => SumUpdate(s.callers, t, Returned, Running);
  }

  lemma StepInv(s: State, a: Action)
    requires Inv(s) && Enabled(s, a)
    ensures Inv(Apply(s, a))
  {
    if a.Call? || a.Enter? || a.Return? {
      CallerStepInv(s, a);
    }
  }

  lemma {:induction false} RunInv(s: State, acts: seq<Action>)
    requires Inv(s) && Runs(s, acts)
    ensures Inv(Final(s, acts))
    ensures Final(s, acts).process.NoProcess? <==> s.process.NoProcess?
    decreases |acts|
  {
    if |acts| > 0 {
      StepInv(s, acts[0]);
      RunInv(Apply(s, acts[0]), acts[1..]);
    }
  }

  /** Once-only teardown, over any interleaving of any number of callers: at most one
      SIGTERM, before the only Wait, at most one SIGKILL after it, at most one caller
      in the body; and whoever has returned did so after the process was reaped, the
      log closed and the directory removed. */
  lemma TornDownOnce(hasProcess: bool, acts: seq<Action>, t: nat)
    requires Runs(Booted(hasProcess), acts) && t < |Final(Booted(hasProcess), acts).callers|
    ensures var s := Final(Booted(hasProcess), acts);
      && (s.events <= [TermSent, WaitStarted] || FullHistory(s.events))
      && Sum(s.callers, Running) <= 1
      && (s.callers[t].Returned? ==>
            && !s.logOpen && !s.dirExists
            && (hasProcess ==> s.process.Reaped? && FullHistory(s.events))
            && (!hasProcess ==> s.events == []))
  {
    RunInv(Booted(hasProcess), acts);
  }

  /* ---------- when SIGKILL is late ---------- */

  /** Nothing before `Killing` comes back. */
  predicate Past(o: Once) { o.AwaitDone? || o.CloseLog? || o.RemoveDir? || o.Done? }

  lemma {:induction false} PastForever(s: State, acts: seq<Action>)
    requires Past(s.once) && Runs(s, acts)
    ensures Past(Final(s, acts).once) && Final(s, acts).events == s.events
    decreases |acts|
  {
    if |acts| > 0 {
      PastForever(Apply(s, acts[0]), acts[1..]);
    }
  }

  /** Between the choice of the timeout arm and the signal. */
  lemma {:induction false} WhileKilling(s: State, mid: seq<Action>)
    requires s.once.Killing? && Runs(s, mid) && Final(s, mid).once.Killing?
    ensures Final(s, mid).events == s.events
    ensures Final(s, mid).process.Reaped? <==> s.process.Reaped? || Reap in mid
    ensures s.process.Alive? && Exit !in mid ==> Final(s, mid).process.Alive?
    decreases |mid|
  {
    if |mid| > 0 {
      var s' := Apply(s, mid[0]);
      assert mid == [mid[0]] + mid[1..];
      if mid[0].Kill? {
        PastForever(s', mid[1..]);
      } else {
        WhileKilling(s', mid[1..]);
      }
    }
  }

  /** SIGKILL is sent to a process that is gone exactly when Wait reaped it before the
      timeout arm was chosen or between that choice and the signal, whether or not the
      exit arm was ready. It is never late if the process is alive at the timeout and
      does not exit before the signal. */
  lemma KillIsLateIff(s: State, mid: seq<Action>)
    requires Inv(s) && Enabled(s, TimeoutArm) && Runs(Apply(s, TimeoutArm), mid)
    requires Enabled(Final(Apply(s, TimeoutArm), mid), Kill)
    ensures var end := Apply(Final(Apply(s, TimeoutArm), mid), Kill);
      && (end.events == s.events + [KillSent(true)] <==> s.process.Reaped? || Reap in mid)
      && (s.process.Alive? && Exit !in mid ==> end.events == s.events + [KillSent(false)])
  {
    WhileKilling(Apply(s, TimeoutArm), mid);
    var late := Final(Apply(s, TimeoutArm), mid).process.Reaped?;
    assert (s.events + [KillSent(late)])[|s.events|] == KillSent(late);
    assert (s.events + [KillSent(true)])[|s.events|] == KillSent(true);
  }

  /** A run on which SIGKILL is late continues from here, or has led here. */
  ghost predicate LateAhead(s: State) {
    exists acts :: Runs(s, acts) && KillSent(true) in Final(s, acts).events
  }

  /** Neither arm of the select has settled it: there is a process, SIGKILL has not been
      sent and the exit arm has not been taken. */
  predicate Undecided(s: State) {
    !s.process.NoProcess? && !Past(s.once)
  }

  lemma {:induction false} DecidedForever(s: State, acts: seq<Action>)
    requires Inv(s) && !Undecided(s) && Runs(s, acts)
    ensures KillSent(true) in Final(s, acts).events <==> KillSent(true) in s.events
    decreases |acts|
  {
    if |acts| > 0 {
      StepInv(s, acts[0]);
      DecidedForever(Apply(s, acts[0]), acts[1..]);
    }
  }

  lemma RunOf(s: State, a: Action, rest: seq<Action>)
    requires Enabled(s, a) && Runs(Apply(s, a), rest)
    ensures Runs(s, [a] + rest) && Final(s, [a] + rest) == Final(Apply(s, a), rest)
  {
    assert ([a] + rest)[1..] == rest && ([a] + rest)[0] == a;
  }

  lemma Ahead(s: State, a: Action)
    requires Enabled(s, a) && LateAhead(Apply(s, a))
    ensures LateAhead(s)
  {
    var rest :| Runs(Apply(s, a), rest) && KillSent(true) in Final(Apply(s, a), rest).events;
    RunOf(s, a, rest);
  }

  /** The step towards a late SIGKILL. */
  function Towards(s: State): Action
    requires Undecided(s)
  {
    match s.once
    case NotRun => if |s.callers| > 0 && s.callers[|s.callers| - 1].Arrived? then Enter(|s.callers| - 1) else Call
    case SendTerm => Term
    case StartWait => GoWait
    case Select => TimeoutArm
    case Killing =>
      match s.process {
        case Alive => Exit
        case Exited => Reap
        case _ => Kill
      }
    case _ => Call
  }

  /** How many steps it is away. */
  function Distance(s: State): nat {
    OnceWork(s.once) + ProcessWork(s.process, s.done) +
    if s.once.NotRun? && (|s.callers| == 0 || !s.callers[|s.callers| - 1].Arrived?) then 1 else 0
  }

  lemma TowardsSteps(s: State)
    requires Inv(s) && Undecided(s)
    ensures var a := Towards(s);
      && Enabled(s, a)
      && if a.Kill? then KillSent(true) in Apply(s, a).events
         else Undecided(Apply(s, a)) && Distance(Apply(s, a)) < Distance(s)
  {
    if Towards(s).Kill? {
      assert Apply(s, Kill).events[|s.events|] == KillSent(true);
    }
  }

  lemma {:induction false} LateCanHappen(s: State)
    requires Inv(s) && Undecided(s)
    ensures LateAhead(s)
    decreases Distance(s)
  {
    TowardsSteps(s);
    var s' := Apply(s, Towards(s));
    if Towards(s).Kill? {
      assert Runs(s', []) && Final(s', []) == s';
    } else {
      StepInv(s, Towards(s));
      LateCanHappen(s');
    }
    Ahead(s, Towards(s));
  }

  /** SIGKILL may still turn out late exactly until the body of the Once has sent it or
      has taken the exit arm, in whatever state the process is: nothing else in the code
      rules it out. */
  lemma LateAheadIff(s: State)
    requires Inv(s)
    ensures LateAhead(s) <==> KillSent(true) in s.events || Undecided(s)
  {
    if Undecided(s) {
      LateCanHappen(s);
    } else {
      if acts :| Runs(s, acts) && KillSent(true) in Final(s, acts).events {
        DecidedForever(s, acts);
      }
      if KillSent(true) in s.events {
        assert Runs(s, []) && Final(s, []) == s;
      }
    }
  }

  /** A Destroy up to its select, and steps from there that make SIGKILL late. */
  const ToSelect := [Call] + ([Enter(0)] + ([Term] + ([GoWait] + [])))

  const LateSteps := [Exit] + ([Reap] + ([Kill] + []))

  lemma SelectIsReached()
    ensures Runs(Booted(true), ToSelect)
    ensures Final(Booted(true), ToSelect) ==
      State([Runner], Select, Alive, false, true, true, [TermSent, WaitStarted])
  {
    var s1 := Apply(Booted(true), Call);
    var s2 := Apply(s1, Enter(0));
    var s3 := Apply(s2, Term);
    var s4 := Apply(s3, GoWait);
    assert Runs(s4, []) && Final(s4, []) == s4;
    RunOf(s3, GoWait, []);
    RunOf(s2, Term, [GoWait] + []);
    RunOf(s1, Enter(0), [Term] + ([GoWait] + []));
    RunOf(Booted(true), Call, [Enter(0)] + ([Term] + ([GoWait] + [])));
  }

  lemma LateFromKilling(s: State)
    requires s.once.Killing? && s.process.Alive? && WaitStarted in s.events
    ensures Runs(s, LateSteps) && KillSent(true) in Final(s, LateSteps).events
  {
    var s1 := Apply(s, Exit);
    var s2 := Apply(s1, Reap);
    var s3 := Apply(s2, Kill);
    assert Runs(s3, []) && Final(s3, []) == s3 && s3.events[|s.events|] == KillSent(true);
    RunOf(s2, Kill, []);
    RunOf(s1, Reap, [Kill] + []);
    RunOf(s, Exit, [Reap] + ([Kill] + []));
  }

  /** SIGKILL can be late although the exit arm was not ready, and even though the
      process was alive, when the timeout arm was chosen. */
  lemma KillCanBeLate()
    ensures Runs(Booted(true), ToSelect)
    ensures var s := Final(Booted(true), ToSelect);
      && Enabled(s, TimeoutArm) && s.process.Alive? && !Enabled(s, DoneArm)
      && Runs(Apply(s, TimeoutArm), LateSteps)
      && KillSent(true) in Final(Apply(s, TimeoutArm), LateSteps).events
  {
    SelectIsReached();
    var s := Final(Booted(true), ToSelect);
    assert [TermSent, WaitStarted][1] == WaitStarted;
    LateFromKilling(Apply(s, TimeoutArm));
  }

  const LastSteps := [Close] + ([Remove] + ([Return(0)] + []))

  lemma CleanEnd(s: State)
    requires s.once.CloseLog? && s.callers == [Runner]
    ensures Runs(s, LastSteps)
    ensures Final(s, LastSteps) == s.(callers := [Returned], once := Done, logOpen := false, dirExists := false)
  {
    var s1 := Apply(s, Close);
    var s2 := Apply(s1, Remove);
    var s3 := Apply(s2, Return(0));
    assert Runs(s3, []) && Final(s3, []) == s3;
    RunOf(s2, Return(0), []);
    RunOf(s1, Remove, [Return(0)] + []);
    RunOf(s, Close, [Remove] + ([Return(0)] + []));
  }

  /** From the select on, when the process exits in time. */
  const CleanSteps := [Exit] + ([Reap] + ([Deliver] + ([DoneArm] + LastSteps)))

  lemma CleanExit(s: State)
    requires s.once.Select? && s.process.Alive? && !s.done && WaitStarted in s.events && s.callers == [Runner]
    ensures Runs(s, CleanSteps)
    ensures Final(s, CleanSteps) ==
      s.(callers := [Returned], once := Done, process := Reaped, done := true, logOpen := false, dirExists := false)
  {
    var s1 := Apply(s, Exit);
    var s2 := Apply(s1, Reap);
    var s3 := Apply(s2, Deliver);
    CleanEnd(Apply(s3, DoneArm));
    RunOf(s3, DoneArm, LastSteps);
    RunOf(s2, Deliver, [DoneArm] + LastSteps);
    RunOf(s1, Reap, [Deliver] + ([DoneArm] + LastSteps));
    RunOf(s, Exit, [Reap] + ([Deliver] + ([DoneArm] + LastSteps)));
  }

  /** A process that exits in time is torn down without SIGKILL. */
  lemma CleanStop()
    ensures Runs(Booted(true), ToSelect) && Runs(Final(Booted(true), ToSelect), CleanSteps)
    ensures Final(Final(Booted(true), ToSelect), CleanSteps) ==
      State([Returned], Done, Reaped, true, false, false, [TermSent, WaitStarted])
  {
    SelectIsReached();
    assert [TermSent, WaitStarted][1] == WaitStarted;
    CleanExit(Final(Booted(true), ToSelect));
  }

  /* ---------- no caller is stuck ---------- */

  function CallerWork(c: Caller): nat {
    match c
    case Arrived => 2
    case Runner => 1
    case Returned => 0
  }

  function OnceWork(o: Once): nat {
    match o
    case NotRun => 8
    case SendTerm => 7
    case StartWait => 6
    case Select => 5
    case Killing => 4
    case AwaitDone => 3
    case CloseLog => 2
    case RemoveDir => 1
    case Done => 0
  }

  function ProcessWork(p: Process, done: bool): nat {
    match p
    case NoProcess => 0
    case Alive => 3
    case Exited => 2
    case Reaped => if done then 0 else 1
  }

  ghost function Work(s: State): nat {
    Sum(s.callers, CallerWork) + OnceWork(s.once) + ProcessWork(s.process, s.done)
  }

  /** Every step but a new call leaves less to do. */
  lemma StepWorks(s: State, a: Action)
    requires Enabled(s, a)
    ensures if a.Call? then Work(Apply(s, a)) == Work(s) + 2 else Work(Apply(s, a)) < Work(s)
  {
    match a
    case Call => SumAppend(s.callers, Arrived, CallerWork);
    case Enter(t) => SumUpdate(s.callers, t, Runner, CallerWork);
    case Return(t) => SumUpdate(s.callers, t, Returned, CallerWork);
    case _ =>
  }

  /** As long as somebody waits for Destroy, a step other than a new call is possible,
      so with the bound above every caller returns, provided the process exits. */
  lemma NobodyIsStuck(s: State, t: nat) returns (a: Action)
    requires Inv(s) && t < |s.callers| && !s.callers[t].Returned?
    ensures !a.Call? && Enabled(s, a)
  {
    SumAtLeast(s.callers, t, Running);
    match s.once
    case NotRun => a := Enter(t);
    case SendTerm => a := Term;
    case StartWait => a := GoWait;
    case Select => a := TimeoutArm;
    case Killing => a := Kill;
    case AwaitDone =>
      assert s.events[..2][1] == WaitStarted && WaitStarted in s.events;
      a := if s.done then DoneAfterKill
        else if s.process.Alive? then Exit
        else if s.process.Exited? then Reap
        else Deliver;
    case CloseLog => a := Close;
    case RemoveDir => a := Remove;
    case Done => a := Return(t);
  }
}
