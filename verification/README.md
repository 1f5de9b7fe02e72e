# Emberbox, verified

A Dafny model of the parts of Emberbox where interleaving, failure or arithmetic
make the behaviour hard to see, with proofs. `dafny verify dfyconfig.toml` checks
everything.

| file | what it holds |
|---|---|
| `PoolModel.dfy` | the sandbox pool as a step system: one step is one critical section or one backend call of one of any number of threads |
| `PoolOwnership.dfy` | who owns a handle, Destroy at most once, what a Shutdown leaves |
| `PoolBounds.dfy`, `PoolOvershoot.dfy` | overshoot of the warm pool and its tightness, refill, Boot budget |
| `PoolLinear.dfy` | refinement to an atomic pool, linearisability, distinct IDs |
| `PoolTermination.dfy` | length of runs, deadlock freedom |
| `PoolRequests.dfy` | what an allocation remembers of its request |
| `Pool.dfy` | the pool as a class; every method is mirrored by steps of the system |
| `Handshake.dfy`, `Exchange.dfy` | buffered connection, CONNECT/OK, round trip and handler as code |
| `Protocol.dfy` | host, multiplexer and agent as a step system with arbitrary chunking and failures; Serve's drain; agreement with the in-process backend |
| `Deadline.dfy` | the timeout across the wire, with the host's floating-point seconds modelled bit for bit |
| `Firecracker.dfy` | Boot, driveBoot and Destroy as code over an operating-system ledger and a scripted VMM |
| `Teardown.dfy` | concurrent Destroy callers around the sync.Once |
| `EndToEnd.dfy` | the pool over the Firecracker backend, with the ledger |
| `Mirrored.dfy` | the backend's code as runs of that system |
| `FileEdit.dfy`, `FileRead.dfy` | the two text tools |
| `Sums.dfy`, `Text.dfy`, `Options.dfy` | shared helpers |

## What the proofs found

- The warm pool can exceed PoolSize: replenishers act on stale snapshots. With K of
  them active at once the bound is K times PoolSize, and for PoolSize >= 2 it is
  attained for every K. "At most PoolSize warm handles" holds in all runs exactly
  when PoolSize <= 1 (`PoolOvershoot.WithinPoolSizeIff`).
- `file_edit` asks for a unique match but tests the number of non-overlapping
  matches: "aa" passes in "aaa". An open gate means one occurrence, in every text,
  exactly when the old string has no proper border (`FileEdit.OpenGateIsUniqueIff`);
  text by text, the gate opens exactly when there is a match and any two overlap
  (`FileEdit.GateIff`).
- Editing back undoes an edit, for all files and old strings, exactly when the new
  string has no proper border (`FileEdit.UndoIff`).
- The guest's budget stays within what the host has left exactly when the host has no
  deadline, or has a second or more left that the conversion to whole seconds does not
  round up (`Deadline.BudgetWithinRemainingIff`). Below a second the guest falls back
  to 60 seconds. Rounding up needs more than 2^24 seconds: the first case is
  16777216.999999999 s (`Deadline.FirstRoundUp`), and the excess is always below a
  microsecond.
- SIGKILL can be sent to a process that has already been reaped: exactly when Wait
  reaped it before the timeout arm was chosen, or between that choice and the signal,
  whether or not the exit arm was ready (`Teardown.KillIsLateIff`). Until the body of
  the Once has sent it or taken the exit arm, this can still happen
  (`Teardown.LateAheadIff`).
- Serve returns over a running handler exactly when, uncancelled, an accept fails
  while a connection is being handled (`Protocol.ServeLeavesHandlersIff`).
- What a Shutdown leaves is exactly what was unpublished at its swap or booted after
  it, if and only if no Release or Shutdown takes a handle after the swap
  (`PoolOwnership.ShutdownAccountingIff`).
- Reading a file line by line loses carriage returns at line ends, and nothing else
  but the final newline (`FileRead.ReadingIsLosslessIff`).
- The comment on Release says that it may return a sandbox to the pool
  (sandbox/sandbox.go:165); the code always destroys it, and so does the model.

## Assumptions

- Boot returns a new object with an ID never seen before (the code truncates UUIDs);
  `PoolOwnership.PublishKeepsHandles` shows exactly what a collision would lose.
- Directory removal, closing a log file and signalling do not fail in a way that
  leaves the resource behind.
- Envelopes that survive the wire: the encoding decodes to the value, and a decoder
  given part of it finds the value or asks for more. No decoder finds a value in no
  bytes.
- The multiplexer's reply is one line.
- Durations are int64 nanoseconds. Duration.Seconds of Go's time package, which is not
  part of the repository, is whole seconds plus nanoseconds divided by 10^9, quotient
  and sum each rounded to the nearest double, ties to even, as in IEEE 754 binary64.
- Every context that bounds a polling loop expires after finitely many ticks.
- Text and bytes are sequences of characters.

## Model

| member | source | states |
|---|---|---|
| PoolOwnership.ExactlyOneOwner | sandbox/sandbox.go:104-235 | in every reachable state of every interleaving a handle ever booted is in exactly one place: warm, active, unpublished in one thread, claimed by one thread, or destroyed; no other handle is anywhere |
| PoolOwnership.DestroyedAtMostOnce | sandbox/sandbox.go:166-203 | under any racing Releases and Shutdowns Destroy is called at most once per handle, only for booted handles; active is keyed by handle ID |
| PoolOwnership.StepInv | sandbox/sandbox.go:104-235 | every step of every thread keeps the ownership invariant |
| PoolOwnership.SectionConserves | sandbox/sandbox.go:115-125 | a critical section neither creates nor loses a handle between pool and thread, and never gives up a claim |
| PoolOwnership.PublishKeepsHandles | sandbox/sandbox.go:131-133 | storing an allocation keeps all active handles if and only if no other handle is active under its ID |
| PoolOwnership.ReleasedNeverFound | sandbox/sandbox.go:138-145 | once a Release has found an ID, every later lookup of it, in any run, reports not found |
| PoolOwnership.SwapClaimsPublished | sandbox/sandbox.go:184-190 | right after a Shutdown's swap the booted handles neither destroyed nor claimed are exactly those unpublished at the swap |
| PoolOwnership.ShutdownDestroysPublished | sandbox/sandbox.go:183-203 | when no Release or Shutdown is still destroying, every handle published before the swap has been destroyed |
| PoolOwnership.ShutdownAccountingIff | sandbox/sandbox.go:183-203 | the undestroyed handles at the end are exactly those unpublished at the swap or booted after it, if and only if no Release or Shutdown takes a handle after the swap; late ones that find nothing do no harm |
| PoolOwnership.QuietShutdownDestroysAll | sandbox/sandbox.go:183-203 | a Shutdown with no Allocate or replenisher in flight destroys every handle ever booted, each exactly once |
| PoolOwnership.RestSizes | sandbox/sandbox.go:205-210 | when no thread holds a handle, warm, active and destroyed handles together number the booted ones |
| PoolBounds.OvershootBound | sandbox/sandbox.go:217-234 | in every run, warm handles plus handles still to come are at most PoolSize times the peak number of simultaneously active replenishers |
| PoolBounds.RefillComplete | sandbox/sandbox.go:217-234 | if warm boots succeed and no Shutdown runs, then once all replenishers have finished at least PoolSize handles are warm, exactly PoolSize if they were serialised |
| PoolBounds.BootBudget | sandbox/sandbox.go:104-135 | the Boots of a run, with those at start-up, never exceed PoolSize + misses + PoolSize times hits, where hits and misses together are at most the calls of Allocate |
| PoolBounds.RunSmallPool | sandbox/sandbox.go:217-234 | with PoolSize at most 1, warm handles, promised handles and unread replenishers together stay within PoolSize |
| PoolOvershoot.OvershootIsTight | sandbox/sandbox.go:217-234 | for every PoolSize N >= 2 and K >= 1 a run with at most K active replenishers ends with K * N warm handles |
| PoolOvershoot.WithinPoolSizeIff | sandbox/types.go:35-38 | at most PoolSize warm handles in all runs if and only if PoolSize <= 1 |
| PoolTermination.RunsAreFinite | sandbox/sandbox.go:104-235 | a run with k API calls has at most PoolSize + (5 + 3 PoolSize) k steps |
| PoolTermination.StepDecreases | sandbox/sandbox.go:104-235 | every step that is not a new call lowers the measure |
| PoolTermination.UnfinishedCanStep | sandbox/sandbox.go:104-235 | a thread that has not finished can always take a step |
| PoolLinear.SectionRefines | sandbox/sandbox.go:104-235 | each critical section is one operation of the atomic pool, with its result |
| PoolLinear.Linearizable | sandbox/sandbox.go:104-210 | the log of any run is a legal sequential history of the atomic pool, and every thread's result is what its own entries in the log answered; a replenisher has restocked what its count said was missing, up to what it still has to do |
| PoolLinear.ShutdownDrainsClear | sandbox/sandbox.go:183-203 | the handles a Shutdown has destroyed and those it has still to destroy are exactly what the atomic pool held at its linearisation point |
| PoolLinear.AllocatedIdsDistinct | sandbox/sandbox.go:103-136 | no two Allocates ever return the same ID |
| PoolClass.Pool.constructor | sandbox/sandbox.go:46-69 | after New the warm handles are those of the first PoolSize boots that succeeded, in the order in which they came, all distinct, and nothing is active |
| PoolClass.Pool.PreBoot | sandbox/sandbox.go:55-65 | the fill loop yields exactly the successful boots, in order, all distinct |
| PoolClass.Pool.Allocate | sandbox/sandbox.go:104-136 | a warm Allocate moves the last warm handle to active and starts a replenisher; a cold one boots once; in both the ID was not active and the stored request has the given fields, and the pool's defaults for zero timeout, memory and CPUs |
| PoolRequests.AllocationsHoldRequests | sandbox/sandbox.go:105-133 | in every reachable state each active allocation, and each one an Execute has found, holds what some caller asked for, with zeros replaced by the defaults |
| PoolClass.Pool.AllocateCold | sandbox/sandbox.go:127-135 | a failed boot changes nothing, a successful one is published under an ID that was not active |
| PoolClass.Pool.Lookup | sandbox/sandbox.go:139-145 | what Execute's lookup finds has that ID, was booted, is not destroyed and not warm; when it finds nothing every handle with that ID is warm or destroyed |
| PoolClass.Pool.Release | sandbox/sandbox.go:166-181 | removes the ID; destroys its handle exactly if it was active |
| PoolClass.Pool.Shutdown | sandbox/sandbox.go:184-203 | empties the pool and destroys every active handle once, in the order of the walk, then the warm ones in order |
| PoolClass.Pool.DrainActive | sandbox/sandbox.go:192-196 | the loop over the map destroys the handle of each key exactly once |
| PoolClass.Pool.DrainWarm | sandbox/sandbox.go:197-201 | the loop over the slice destroys the warm handles in order |
| PoolClass.Pool.Status | sandbox/sandbox.go:205-210 | the two numbers and the calls of Destroy add up to the handles ever booted |
| PoolClass.Pool.Replenish | sandbox/sandbox.go:217-235 | the warm handles grow by exactly the next boots, in order, until there are PoolSize or a boot fails; refines the step system |
| PoolClass.RefilledExactly | sandbox/sandbox.go:222-234 | a replenisher adds at most what was missing, and all of it exactly when none of its boots fails |
| PoolClass.ShutdownRun | sandbox/sandbox.go:184-203 | a Shutdown that walks the map in any order is a run of the step system that destroys those handles in that order |
| Handshake.BufferedConn.ReadString | sandbox/agentclient.go:64-69 | returns the first line of the stream however it is cut; line and rest are the original stream |
| Handshake.BufferedConn.Read | sandbox/agentclient.go:78-87 | returns the next bytes of the same stream, none only at its end |
| Handshake.BufferedConn.ReadMany | sandbox/agentclient.go:78-87 | any sequence of reads loses, repeats and reorders no byte |
| Handshake.BufferedConn.DialReply | sandbox/agentclient.go:64-75 | accepts exactly a complete line that starts with "OK ", with the bytes behind it kept |
| Handshake.BufferedConn.ProbeReply | sandbox/agentclient.go:160-168 | accepts exactly a complete line that starts with "OK " |
| Handshake.DialAcceptsIffProbeAccepts | sandbox/agentclient.go:70-71 | dial and probe accept exactly the same reply lines although only one trims |
| Handshake.ChunkingIsIrrelevant | sandbox/agentclient.go:64-87 | two connections with the same bytes in different pieces get the same verdict and keep the same bytes |
| Handshake.EveryChunkingIsACut | sandbox/agentclient.go:78-87 | every way for a stream to arrive in non-empty pieces is one of the cuts that the exchange below quantifies over |
| Exchange.Decode | sandbox/agentclient.go:110-113 | a value carried by the stream is decoded however it arrives |
| Exchange.HandleConnection | agent/agent.go:90-120 | at most one execution; reply, execution and budget are those of the request sent; an empty stream causes nothing |
| Exchange.DialAgent | sandbox/agentclient.go:64-108 | the request is sent exactly when the reply line accepts; the bytes behind the line stay readable |
| Exchange.ExecOverTheWire | sandbox/agentclient.go:51-120 | the handler reads what the host sent and the host reads what the handler replied, each cut in any way: a refusing line runs nothing; otherwise Exec returns what the host backend returns, after exactly one execution of an existing tool, within the request's budget |
| Protocol.MoveInv | sandbox/agentclient.go:51-120 | every move of host, multiplexer and guest keeps the stream invariant of a connection |
| Protocol.AtMostOnce | agent/agent.go:88-120 | over any interleaving an Exec runs at most one tool, with its own request; a probe runs none |
| Protocol.OnlyBehindOk | sandbox/agentclient.go:64-75 | in every run whoever has sent, waits for a response, has returned, has had a tool run, or has probed successfully was answered with one line that starts with "OK " |
| Protocol.RefusedOnlyFails | sandbox/agentclient.go:70-74 | after any other reply nothing is sent, no tool runs, and reading the line makes the host fail |
| Protocol.ExecCanReturn | sandbox/agentclient.go:51-120 | for every accepting line, surviving request and response, and outcome of the tool a run exists on which Exec returns what the outcome tells, after one execution if the tool exists |
| Protocol.ProbeCanSucceed | sandbox/agentclient.go:145-168 | for every accepting line a run exists on which the probe succeeds |
| Protocol.HostExecTells | sandbox/host.go:60-93 | unknown tool, tool error and tool result each give the content and the error flag of the source |
| Protocol.ReturnsOwnResponse | sandbox/agentclient.go:91-120 | an Exec without error returns the response to exactly its request, whose tool ran exactly once or does not exist |
| Protocol.NilMeansDrained | agent/agent.go:63-86 | when Serve returns nil it was cancelled and every handler has finished |
| Protocol.FailedAcceptIff | agent/agent.go:73-79 | a failed accept makes Serve return over a running handler unless the context is cancelled or there is none |
| Protocol.ServeLeavesHandlersIff | agent/agent.go:65-86 | in every run Serve returns with a handler running exactly when, uncancelled, an accept failed while a connection was being handled |
| Protocol.ServeCanReturnNil | agent/agent.go:65-86 | from wherever Serve accepts and nothing is being handled, cancelling makes it return nil |
| Protocol.ErrorLeavesHandlers | agent/agent.go:73-79 | such a run exists |
| Protocol.RemoteAgreesWithHost | sandbox/host.go:60-93 | what a remote Exec returns is the content and error flag of HostBackend.Exec for the same call |
| Protocol.RemoteBudget | agent/agent.go:107-112 | the budget of a remote execution is within what the host had left exactly when that is unlimited or keeps time, and never off by more than a second below or a microsecond above when a second or more was left |
| Deadline.SecondsExact | sandbox/agentclient.go:102-104 | the seconds sent are the remaining time cut to whole seconds, or one more exactly when what is missing to the next second is at most half a last place of the double |
| Deadline.FirstRoundUp | sandbox/agentclient.go:102-104 | no time below 16777216.999999999 s rounds up, and that one does |
| Deadline.BudgetRounds | agent/agent.go:107-110 | for every timeout of a second or more the budget g has timeout - 1s < g <= timeout + 953 ns, g <= timeout exactly without rounding up, and does not overflow int64 |
| Deadline.BudgetWithinRemainingIff | agent/agent.go:107-110 | the guest's budget is within the host's remaining time if and only if there is no deadline, or a second or more is left and does not round up |
| Deadline.ForeignSecondsCanWrap | agent/agent.go:107-110 | a request no host produces can wrap to a negative budget; no host timeout reaches that range |
| Deadline.EndToEndBudget | sandbox/sandbox.go:147-152 | from Execute to the tool: what is left is the lowest limit that applies less the time passed, and none exactly without a deadline and a positive timeout; the tool gets the whole seconds left (one more when rounding up), or 60 s below one second or without a deadline, each cut to the guest's time; within what is left exactly when stated |
| Firecracker.WaitFor | sandbox/firecracker_api.go:141-161 | succeeds if and only if an attempt succeeds before the context expires |
| Firecracker.Vmm.PutJSON | sandbox/firecracker_api.go:89-114 | succeeds exactly on an HTTP status below 300 |
| Firecracker.DriveBoot | sandbox/firecracker.go:275-317 | whatever is answered, the VMM is never started before all four parts are configured nor asked anything afterwards, and the agent is probed only behind the start; what it applied is a prefix of the five requests; success exactly when every stage succeeds, and then it has started with exactly this machine, kernel, root drive and vsock |
| Firecracker.SafeAlways | sandbox/firecracker.go:282-315 | the same at every moment of the boot |
| Firecracker.MachineOfApplied | sandbox/firecracker_api.go:89-114 | the VMM's state is what the requests below status 300, and the lost ones that got through, make of it in order |
| Firecracker.ProbeAgent | sandbox/agentclient.go:122-141 | the agent wait only probes, and succeeds exactly when the agent comes up in time |
| Firecracker.FirecrackerBackend.Boot | sandbox/firecracker.go:171-241 | succeeds exactly when no stage fails, and names the stage that did; an error leaves directories, logs and processes as they were; success adds exactly one new one of each, owned by the handle, and the VMM has started with the request's memory and CPUs, or the defaults for zero |
| Firecracker.FirecrackerBackend.DestroyHandle | sandbox/firecracker.go:341-348 | the first call releases the three resources, later ones change nothing |
| Firecracker.FirecrackerBackend.Terminate | sandbox/firecracker.go:350-386 | SIGTERM first, SIGKILL only after the timeout; the process is reaped on both arms |
| Firecracker.BootDestroyRoundTrip | sandbox/firecracker.go:171-348 | a Boot and two Destroys restore the ledger, with one SIGTERM |
| Teardown.TornDownOnce | sandbox/firecracker.go:343-386 | any number of concurrent callers: one SIGTERM before the only Wait; whoever has returned did so after reaping, closing and removal |
| Teardown.KillIsLateIff | sandbox/firecracker.go:374-384 | SIGKILL goes to a reaped process exactly when Wait reaped it before the timeout arm was chosen or between that and the signal; never if the process is alive at the timeout and does not exit before the signal |
| Teardown.LateAheadIff | sandbox/firecracker.go:353-386 | a late SIGKILL can still come, or has come, exactly until the body of the Once has sent it or taken the exit arm |
| Teardown.KillCanBeLate | sandbox/firecracker.go:374-384 | SIGKILL can be late although the process was alive and the exit arm not ready when the timeout arm was chosen |
| Teardown.CleanStop | sandbox/firecracker.go:365-379 | a run without SIGKILL exists, on which the caller returns after reaping, closing and removal |
| Teardown.NobodyIsStuck | sandbox/firecracker.go:343-386 | while a caller waits a step is possible |
| Teardown.StepWorks | sandbox/firecracker.go:343-386 | every step but a new call leaves less to do |
| EndToEnd.LedgerExact | sandbox/firecracker.go:171-241 | pool over backend: in every reachable state a directory, log or process exists exactly when a Boot in progress holds it or an undestroyed handle still has it |
| EndToEnd.LedgerAtRest | sandbox/sandbox.go:127-133 | with no Boot or Destroy in progress the ledger is one of each resource for each undestroyed handle |
| EndToEnd.ProjectsToPool | sandbox/backend.go:16-26 | a run of pool and backend is a run of the pool |
| EndToEnd.QuietShutdownLeavesNothing | sandbox/sandbox.go:183-203 | a Shutdown with no Allocate or replenisher in flight leaves no directory, log file or process |
| Mirrored.BootMirrored | sandbox/firecracker.go:171-241 | whatever stage fails, the code's changes to the ledger are in order those of a run of the system, ending where the Boot hands over or gives up |
| Mirrored.DestroyMirrored | sandbox/firecracker.go:341-386 | a first Destroy makes the changes of a run of the system that ends where the Destroy is done |
| FileEdit.CountIsMaximal | tools/fileedit.go:43-44 | the count that gates an edit is the maximum number of pairwise disjoint occurrences |
| FileEdit.GateIff | tools/fileedit.go:46-51 | the gate opens exactly when there is an occurrence and any two overlap |
| FileEdit.GateIsNotUniqueness | tools/fileedit.go:49-51 | an old string that occurs twice can pass the gate |
| FileEdit.OpenGateIsUniqueIff | tools/fileedit.go:43-51 | passing the gate means occurring once, in every text, if and only if the old string has no proper border |
| FileEdit.SuccessfulEdit | tools/fileedit.go:43-58 | pre + old + post becomes pre + new + post at the leftmost match; every other occurrence overlaps it; no other file changes |
| FileEdit.ResultTells | tools/fileedit.go:31-58 | which answer means what: missing field, equal strings, unreadable file, no occurrence, the largest number of disjoint occurrences if two or more, and otherwise the outcome of the write |
| FileEdit.ChangedIffEdited | tools/fileedit.go:31-58 | unless the write fails half-way, the files have changed exactly when the tool reports an edit |
| FileEdit.FailedWrite | tools/fileedit.go:53-56 | a failed write leaves the files as they were, or the file with a beginning of the edited text |
| FileEdit.UnborderedUndo | tools/fileedit.go:31-56 | the inverse edit restores the files when the new string cannot overlap itself |
| FileEdit.BorderedSpoils | tools/fileedit.go:31-56 | for every new string that can overlap itself some edit is not undone |
| FileEdit.UndoIff | tools/fileedit.go:31-56 | undo works for all files and old strings if and only if the new string has no border |
| FileRead.Collect | tools/fileread.go:46-63 | the scan loop yields exactly the numbered lines of the page, or the error of an over-long line met before the page is complete |
| FileRead.Execute | tools/fileread.go:26-70 | the tool's result is the promised one, for which the next row says what it tells |
| FileRead.ExecuteTells | tools/fileread.go:26-70 | the errors; a read error exactly on a line of 64 KiB or more up to one behind the page; the sentinel exactly on an empty page; otherwise exactly the lines offset to offset + limit, numbered from 1, can be read back, less a carriage return each; negative offset is 0, limit 0 is 2000 |
| FileRead.ReadInPages | tools/fileread.go:17-21 | calling the tool at 0, L, 2L, ... until the sentinel gives the whole numbered file |
| FileRead.PagesConcatenate | tools/fileread.go:16-20 | pages at 0, L, 2L, ... concatenate to the numbered file |
| FileRead.PageParsesBack | tools/fileread.go:56-69 | splitting a page at newlines and first tabs recovers every line number and line |
| FileRead.SentinelIffNoRows | tools/fileread.go:65-67 | the "empty" message appears exactly when there are no rows |
| FileRead.ReadingIsLosslessIff | tools/fileread.go:46-69 | joining all lines gives the file back up to its final newline exactly when no line ends in a carriage return |

## Left out

- Real sockets, HTTP, AF_VSOCK, subprocesses and files: replaced by byte streams, scripts of outcomes and ledgers.
- The text of the JSON envelopes: encoding/json is not part of this model; codecs are parameters with the survival hypothesis above. Malformed tool input is not modelled.
- The tools bash, grep, glob, web_fetch and file_write, and tool.Registry, which is a set of names here.
- Logging, configuration defaults beyond those of Allocate and Boot, selectBackend, and how durations are measured.
- The sandbox a warm Allocate hands out was booted with the pool's defaults, not with the request's memory, CPUs or environment: the model keeps the request with the allocation and does not say what the VM has.
- Execute drops the lock before it dispatches, so a tool call can run on a handle that is being destroyed; nothing is claimed about that.
- Agent.Serve and the connection states are modelled on values, as a step system, because they are concurrent; `Exchange.dfy` has the handler and the round trip as code on one connection at a time.
- The launch of the VMM process and its process group are one outcome of the script; the wait goroutine of Destroy appears in `Teardown.dfy`, and as a plain call in `Firecracker.dfy`.
- UnfinishedCanStep: says that a thread can step, not that the scheduler lets it.
- NobodyIsStuck: relies on the process exiting after a signal; that it does is an assumption.
