# frame-analyzer: a Dafny model of the userspace engine and its foreign-call layer

frame-analyzer attaches a kernel uprobe to the `queueBuffer` entry point of an Android
app's `libgui.so`. It collects a timestamp per submitted frame through an eBPF ring
buffer and hands per-pid frame times to native callers through a small C interface.
This project models, and proves properties of, the two userspace parts of that pipeline:

- **The engine** (`Analyzer`, `frame-analyzer/src/lib.rs`), in `engine.dfy`, module
  `Engine`. It has three parts:
  - a table from pid to attached target (the field `targets`, since `map` is a Dafny keyword);
  - an optional readiness poll;
  - a FIFO of pids that a wait reported ready but that nobody has consumed yet.

  The module first states each operation as a step function over the value `State`
  (`AttachStep`, `DetachStep`, `DetachAllStep`, `RegisterStep`, `RecvStep`). The class
  `Engine.Analyzer` then holds the three fields and updates them in place. Each method is
  proved to perform exactly its step: `ensures Abs() == AttachStep(old(Abs()), …)`. The
  properties of the Rust code are proved about the step functions. That includes runs
  of any number of operations: the invariant (`RunKeepsInv`) and who is attached
  (`MembershipFollowsLastOp`).
- **The foreign-call layer** (`frame-analyzer/src/c_api.rs`), in `c_api.dfy`, module
  `CApi`. It has two parts:
  - the frame queue `FrameBuffer`, a class over a `seq` of `(pid, Duration)` pairs;
  - the process-wide slots `GLOBAL_ANALYZER`, `NOTIFY_FD` and `FRAME_BUFFER`, held by the
    class `Gateway`.

  Each exported call is stated as a function over the value `Globals` (`InitCall`,
  `AttachCall`, …), and the `Gateway` methods are proved to perform those transitions.
  The `Duration` → `FrameTime` conversion and the millisecond timeout conversion are
  functions.
- `primitives.dfy` holds the machine integers of the 64-bit target: `i32`/`c_int`,
  `u32`/`c_uint`, and `u64`, which is also `usize` there. It also holds `Duration` and the
  `as` casts, whose sign extension and truncation are written out. `errors.dfy` holds the
  `AnalyzerError` kinds of `error.rs` and a `Result` type.

Everything the code gets from outside is a parameter of the operation that consults it:

| parameter | stands for |
|---|---|
| `probe` | the outcome of `UprobeHandler::attach_app(pid)` |
| `env: PollEnv` | whether `Poll::new()` succeeds, and which attached pids are refused for another reason, with the error returned: a `BpfMapError` when `ring()` fails (`frame-analyzer/src/lib.rs:148`, through `frame-analyzer/src/error.rs:41`) or an `IOError` when `register` fails |
| `ready` | the tokens a wait on the poll reports |
| `frame` | what the popped target's `AnalyzeTarget::update()` returns |
| `contended` | whether `try_lock` on the engine fails |
| `efd` | what `eventfd` returns |
| `outNull` | whether the output pointer is null |

The poll is modelled as the set of tokens registered with an epoll instance. Each
attached target owns one ring-buffer descriptor, registered under its pid's token. The
model decides two effects of epoll itself, as `mio`'s `register` (`epoll_ctl` with
`EPOLL_CTL_ADD`) and the kernel behave on Linux:

- registering a descriptor the poll holds already is refused with `EEXIST`, an `IOError`
  (`Engine.KeyOutcome`);
- dropping a target closes its descriptor, which leaves the poll (`Engine.Forget`).

Every other answer of the operating system comes from `env`. With both effects, a poll
that exists always watches exactly the attached pids (`Engine.Inv`).

## Behaviour of the code worth knowing

- **Initialisation.** `Analyzer::new` always returns `Ok`. `frame_analyzer_init` fails
  only when `eventfd` does.
- **Destroy.** `frame_analyzer_destroy` does not stop or join the background thread. It
  does not clear `FRAME_BUFFER`, so after a destroy and a new init, frames from the
  earlier session are still answered (`RestartKeepsFrames`).
- **Reading frames.** `frame_analyzer_get_frametime` neither checks initialisation nor
  drains the notification descriptor.
- **Attach and detach.** They do not retry the engine lock: a contended `try_lock`
  answers -1 at once.
- **Status -1 does not mean nothing changed.** A -1 from attach can still leave the pid
  attached: the probe attached but the poll registration failed. A -1 from detach has
  still detached the pid (`AttachStatus`, `DetachStatus`).
- **Re-registration meets its own descriptors.** `register_poll` reuses a live poll and
  registers every attached target again (lib.rs:139-156). The loop visits the targets
  in the table's order, and the first one it meets that is in the poll already is
  refused: the call fails and the poll is dropped. A re-registration therefore succeeds
  only on a live poll with nothing attached, or when it creates a fresh poll
  (`RegisterReusedPoll`, `RegisterAlternates`). Its consequences:
  - With a live poll, attaching a pid while others are attached answers -1, although
    the pid is attached, and the poll is gone until the next registration creates a
    fresh one. With no poll, attach creates a fresh one and answers 0
    (`AttachToLivePoll`, `AttachWithoutPoll`).
  - Three consecutive, uncontended attaches of new pids right after an init, with no
    receive in between, answer 0, -1 and 0 (`AttachAnswersAlternate`).
  - With a live poll, detaching one of several pids answers -1 and drops the poll.
    Detaching the last pid keeps the poll, now empty (`DetachFromLivePoll`).
  - A `recv` that waits with targets attached drops the poll. When the wait queued
    nothing, the next `recv` does not wait at all: it answers nothing and creates a
    fresh poll (`RecvAfterWaitDropsPoll`).
  - The collector thread that init starts (c_api.rs:110-130) calls `recv_timeout`
    whenever it holds the engine lock. Between two foreign calls it may therefore have
    dropped or recreated the poll any number of times. What attach and detach answer
    depends on where that toggling left the poll, and `try_lock` fails while the thread
    holds the lock.
- **Probe search.** The probe tries two symbol names of `Surface::queueBuffer` in
  `/system/lib64/libgui.so`.
- **Negative timeouts.** A negative `timeout_ms` is sign-extended to `u64`, which gives a
  timeout of more than 500 million years (`NegativeTimeoutIsUnbounded`).

## Model

| member | source | states |
|---|---|---|
| `Primitives.I32ToU64` | frame-analyzer/src/lib.rs:149 | `pid as usize` keeps a non-negative pid and maps a negative one to 2^64 + pid |
| `Primitives.U64ToI32` | frame-analyzer/src/lib.rs:161 | `usize as i32` agrees with its argument modulo 2^32 |
| `Primitives.U64ToU32` | frame-analyzer/src/c_api.rs:176 | `as c_uint` keeps values below 2^32 and otherwise agrees modulo 2^32 |
| `Primitives.I32RoundTrip` | frame-analyzer/src/lib.rs:159-162 | sign-extending an `i32` to 64 bits and truncating back gives the same `i32` |
| `Primitives.FromMillis` | frame-analyzer/src/c_api.rs:170 | `Duration::from_millis(ms)` is exactly `ms` milliseconds long |
| `Engine.EventToPid` | frame-analyzer/src/lib.rs:159-162 | the pid decoded from a token agrees with the token in the low 32 bits |
| `Engine.TokenRoundTrip` | frame-analyzer/src/lib.rs:159-162 | `event_to_pid(Token(pid as usize)) == pid` for every `i32` pid, negative ones included |
| `Engine.TokensDecode` | frame-analyzer/src/lib.rs:146-151 | a pid's token is registered for a set of pids iff the pid is in the set; every such token decodes back to a member |
| `Engine.TokensCard` | frame-analyzer/src/lib.rs:146-151 | no two pids share a token: registering a table takes exactly one token per pid |
| `Engine.New` | frame-analyzer/src/lib.rs:57-63 | `Analyzer::new` has no poll, an empty table and an empty queue, and satisfies the invariant |
| `Engine.KeyOutcome` | frame-analyzer/src/lib.rs:147-151 | registering one attached pid fails iff its ring buffer is refused by `env` or its token is in the poll already; the latter gives `IOError` (`EEXIST`); any failure is a map or I/O error |
| `Engine.RegisterStep` | frame-analyzer/src/lib.rs:139-156 | `register_poll` leaves table and queue alone; it ends with a poll iff a poll existed or could be created and no attached pid was refused |
| `Engine.RegisterErrorKinds` | frame-analyzer/src/lib.rs:139-156 | every error `register_poll` can return is `BpfMapError` (from `ring()`) or `IOError` (from `Poll::new` or `register`) |
| `Engine.RegisterCovers` | frame-analyzer/src/lib.rs:139-156 | after a successful registration the poll watches every attached pid; a poll that watched only attached pids before (a fresh one, or any under the invariant) then watches exactly them, and each of its tokens decodes to an attached pid |
| `Engine.RegisterKeepsInv` | frame-analyzer/src/lib.rs:139-156 | registration, successful or not, leaves a poll that exists watching exactly the attached pids |
| `Engine.RegisterReusedPoll` | frame-analyzer/src/lib.rs:139-156 | on a live poll, registration succeeds iff nothing is attached, and then changes nothing; with targets attached it drops the poll, and unless a ring buffer fails first the only possible error is `IOError` (`EEXIST`) |
| `Engine.RegisterAlternates` | frame-analyzer/src/lib.rs:139-156 | with targets attached and the operating system cooperating, a registration succeeds iff there was no poll, and two in a row end with a poll iff there was one before |
| `Engine.AttachStep` | frame-analyzer/src/lib.rs:65-75 | `attach_app` keeps the queue; afterwards `pid` is attached iff it was before or the probe attached, and no other pid's membership changes |
| `Engine.AttachEffect` | frame-analyzer/src/lib.rs:65-75 | attaching an attached pid succeeds and changes nothing; a failed probe changes nothing and fails; otherwise the table gains exactly `pid` with its probe (other entries and the queue untouched), even when the registration that follows fails, and the call succeeds iff that registration does |
| `Engine.WithoutPurges` | frame-analyzer/src/lib.rs:83 | `retain` removes every occurrence of the pid, keeps each other entry as often as it occurred and in its relative order, and is the identity when the pid is absent |
| `Engine.WithoutCounts` | frame-analyzer/src/lib.rs:83 | the purged queue holds every other pid exactly as often as before, and none of the detached pid |
| `Engine.WithoutKeepsOrder` | frame-analyzer/src/lib.rs:83 | the purged queue is a subsequence of the original one |
| `Engine.DetachEffect` | frame-analyzer/src/lib.rs:77-87 | detaching an absent pid succeeds and changes nothing; otherwise the table loses exactly that pid, the queue loses every occurrence of it and keeps the rest in order, and the call succeeds iff re-registration does |
| `Engine.AttachWithoutPoll` | frame-analyzer/src/lib.rs:65-75 | with no poll and the operating system cooperating, attaching a new pid succeeds and creates a poll watching exactly the attached pids, the new one included |
| `Engine.AttachToLivePoll` | frame-analyzer/src/lib.rs:65-75 | attaching a new pid while a live poll watches other pids inserts the pid but drops the poll and fails; on an empty live poll it succeeds iff the new ring buffer registers, and the poll then watches just that pid |
| `Engine.DetachFromLivePoll` | frame-analyzer/src/lib.rs:77-87 | detaching one of several pids from a live poll removes the pid but drops the poll and fails; detaching the last pid succeeds and keeps the poll, now empty |
| `Engine.Forget` | frame-analyzer/src/lib.rs:83 | dropping targets keeps the poll object (or its absence), adds no registration, and leaves none of their tokens in it |
| `Engine.DetachStep` | frame-analyzer/src/lib.rs:77-87 | `detach_app` removes exactly that key; for an absent pid nothing changes; otherwise none of its entries is left queued, and the queue never grows |
| `Engine.Without` | frame-analyzer/src/lib.rs:83 | `retain` leaves no entry of the pid, never lengthens the queue, and keeps only entries that were there |
| `Engine.DetachAllStep` | frame-analyzer/src/lib.rs:89-92 | `detach_apps` empties the table and the queue and keeps the poll object, which under the invariant then watches nothing |
| `Engine.EventPids` | frame-analyzer/src/lib.rs:100 | the queued pids are the reported tokens decoded one by one, in reported order |
| `Engine.EventPidsDecode` | frame-analyzer/src/lib.rs:100 | decoding the tokens of a list of pids gives that list back, so a wait reporting those tokens queues those pids in order |
| `Engine.RecvStep` | frame-analyzer/src/lib.rs:94-110 | a receive keeps the table, keeps the poll when the queue was not empty, and answers only an attached pid together with the duration its target produced |
| `Engine.RecvEffect` | frame-analyzer/src/lib.rs:94-110 | a receive keeps the table; with an empty queue and no poll it yields nothing; a non-empty queue is served without waiting or re-registering; the queue left over is exactly the pending pids after the first (empty when none was pending), and the answer is `Some((pid, d))` iff that pid is attached and its target yielded `d` |
| `Engine.RecvFromExactPoll` | frame-analyzer/src/lib.rs:96-107 | under the invariant every pid a wait reports is attached, so an event plus a duration always gives an answer for the first reported pid |
| `Engine.RecvAfterWaitDropsPoll` | frame-analyzer/src/lib.rs:94-110 | a receive that waits on a live poll with targets attached drops the poll; if nothing was queued, the next receive does not wait, answers nothing and creates a fresh poll watching every target |
| `Engine.AttachKeepsInv` | frame-analyzer/src/lib.rs:65-75 | attaching keeps the invariant |
| `Engine.DetachKeepsInv` | frame-analyzer/src/lib.rs:77-87 | detaching keeps the invariant |
| `Engine.ApplyKeepsInv` | frame-analyzer/src/lib.rs:65-128 | every engine operation keeps the invariant: at most `EVENT_MAX` queued pids, and an existing poll watches exactly the attached pids |
| `Engine.RunKeepsInv` | frame-analyzer/src/lib.rs:65-128 | any run of operations keeps the invariant |
| `Engine.MembershipFollowsLastOp` | frame-analyzer/src/lib.rs:65-92 | after any run, membership agrees with the reference `AttachedAfter`: an attach whose probe succeeds makes the pid attached, a detach of it or `detach_apps` makes it detached, and everything else (failed probes, failed registrations, receives, operations on other pids) leaves it as it was |
| `Engine.Analyzer.constructor` | frame-analyzer/src/lib.rs:57-63 | the new engine is `New()` |
| `Engine.Analyzer.Contains` | frame-analyzer/src/lib.rs:131-133 | `contains(p)` iff `p` is among `pids()`, and for an existing poll iff it is watching `p` |
| `Engine.Analyzer.Pids` | frame-analyzer/src/lib.rs:135-137 | `pids()` lists exactly the attached pids, each with its own token, and an existing poll watches exactly their tokens |
| `Engine.Analyzer.RegisterPoll` | frame-analyzer/src/lib.rs:139-156 | the loop, which refuses a descriptor the poll holds already, makes exactly `RegisterStep`; `Ok` iff the registration succeeded, and an error is `IOError` from `Poll::new` or the error of some attached pid that failed to register, so always `BpfMapError` or `IOError` |
| `Engine.Analyzer.AttachApp` | frame-analyzer/src/lib.rs:65-75 | makes exactly `AttachStep`; `Ok` iff `AttachOk`; a probe error is passed on unchanged, a registration error is one `register_poll` can return, `BpfMapError` or `IOError` |
| `Engine.Analyzer.DetachApp` | frame-analyzer/src/lib.rs:77-87 | makes exactly `DetachStep`, the dropped target's descriptor leaving the poll; `Ok` iff `DetachOk`; an error is one `register_poll` can return, `BpfMapError` or `IOError` |
| `Engine.Analyzer.DetachApps` | frame-analyzer/src/lib.rs:89-92 | makes exactly `DetachAllStep` |
| `Engine.Analyzer.Recv` | frame-analyzer/src/lib.rs:94-110 | makes exactly `RecvStep` and answers its result, keeping the invariant |
| `Engine.Analyzer.RecvTimeout` | frame-analyzer/src/lib.rs:112-128 | the same transition and answer as `recv`; the timeout only bounds the wait |
| `CApi.Position` | frame-analyzer/src/c_api.rs:61 | `position` finds the lowest index holding the pid, or reports that no entry holds it |
| `CApi.Take` | frame-analyzer/src/c_api.rs:56-67 | `pop` answers a frame time queued for `pid` and shortens the queue by one, or answers nothing when no entry is the pid's and keeps the queue |
| `CApi.TakeRemovesOne` | frame-analyzer/src/c_api.rs:60-66 | `pop` answers iff some entry holds the pid; it then removes exactly that entry (length one less, multiset minus that entry); otherwise the queue is unchanged |
| `CApi.FramesAppend` | frame-analyzer/src/c_api.rs:48-53 | the per-pid view of a concatenation is the concatenation of the views |
| `CApi.PushIsPerPidFifo` | frame-analyzer/src/c_api.rs:48-53 | `push` appends the frame time at the end of its pid's frames and changes no other pid's frames |
| `CApi.TakeIsPerPidFifo` | frame-analyzer/src/c_api.rs:56-67 | `pop(pid)` answers the oldest queued frame time of `pid`, removes only that one, and changes no other pid's frames |
| `CApi.FramesCons` | frame-analyzer/src/c_api.rs:61-62 | the per-pid view of a queue with one entry in front adds that entry's frame time iff it is the pid's |
| `CApi.TakeCons` | frame-analyzer/src/c_api.rs:61-62 | popping past a front entry of another pid keeps that entry in front |
| `CApi.FrameBuffer.constructor` | frame-analyzer/src/c_api.rs:39-45 | the queue starts empty |
| `CApi.FrameBuffer.Push` | frame-analyzer/src/c_api.rs:48-53 | appends `(pid, frametime)` at the back and keeps the earlier entries |
| `CApi.FrameBuffer.Pop` | frame-analyzer/src/c_api.rs:56-67 | the search loop and removal make exactly `Take` |
| `CApi.ToFrameTime` | frame-analyzer/src/c_api.rs:175-178 | the nanoseconds written are below 10^9 |
| `CApi.FrameTimeWraps` | frame-analyzer/src/c_api.rs:175-178 | the record's length is the frame time modulo 2^32 seconds, and equals it exactly below 2^32 seconds |
| `CApi.Timeout` | frame-analyzer/src/c_api.rs:170 | a non-negative `timeout_ms` is that many milliseconds; a negative one is 2^64 + `timeout_ms` milliseconds |
| `CApi.NegativeTimeoutIsUnbounded` | frame-analyzer/src/c_api.rs:170 | a negative timeout exceeds 500 million years |
| `CApi.GetRingbufFd` | frame-analyzer/src/c_api.rs:243-245 | `frame_analyzer_get_ringbuf_fd` never returns a descriptor |
| `CApi.Unloaded` | frame-analyzer/src/c_api.rs:71-73 | at process start both slots are empty and the queue is empty, which satisfies the invariant |
| `CApi.InitCall` | frame-analyzer/src/c_api.rs:85-138 | init answers 0 or -1, 0 exactly when an engine is installed afterwards, and leaves the frame queue alone |
| `CApi.AttachCall` | frame-analyzer/src/c_api.rs:142-156 | attach answers 0 or -1, keeps whether an engine is installed, and leaves descriptor and frame queue alone |
| `CApi.DetachCall` | frame-analyzer/src/c_api.rs:190-204 | detach answers 0 or -1, keeps whether an engine is installed, and leaves descriptor and frame queue alone |
| `CApi.GetFrametimeCall` | frame-analyzer/src/c_api.rs:160-186 | get_frametime answers 0 exactly when it writes a frame time, then consumes one queued frame, and never touches engine or descriptor |
| `CApi.DestroyCall` | frame-analyzer/src/c_api.rs:208-231 | destroy answers 0, empties the engine slot, keeps the invariant and leaves the frame queue alone |
| `CApi.CallsKeepInv` | frame-analyzer/src/c_api.rs:85-231 | every call keeps the invariant: engine and descriptor are set together, the descriptor is non-negative, the engine keeps its own invariant |
| `CApi.InitIdempotent` | frame-analyzer/src/c_api.rs:85-138 | init answers 0 iff it was initialised already or `eventfd` succeeded; a second init is a no-op answering 0; a failure answers -1 and leaves both slots unset; success installs a new engine and `Some(efd)` |
| `CApi.RestartKeepsFrames` | frame-analyzer/src/c_api.rs:208-231 | destroy then a successful init gives a new empty engine and the new descriptor, while the queued frames of the earlier session remain |
| `CApi.AttachStatus` | frame-analyzer/src/c_api.rs:142-156 | attach answers 0 or -1; -1 with nothing changed when uninitialised or contended; otherwise 0 iff `attach_app` returned `Ok`; 0 means the pid is attached; a -1 after a successful probe still leaves a new pid attached |
| `CApi.AttachAnswersAlternate` | frame-analyzer/src/c_api.rs:142-156 | after an init, and with the operating system cooperating, three attaches of new pids answer 0, -1 and 0, and all three pids end up attached |
| `CApi.DetachStatus` | frame-analyzer/src/c_api.rs:190-204 | detach answers 0 or -1; -1 with nothing changed when uninitialised or contended; otherwise 0 iff `detach_app` returned `Ok`, and the pid is detached either way |
| `CApi.GetFrametimeIsPerPidFifo` | frame-analyzer/src/c_api.rs:160-186 | a null output pointer answers -1 and touches nothing; otherwise 0 iff a frame of the pid is queued, the output is the oldest one converted (nanos < 10^9), only that frame is consumed, and other pids' frames are unchanged |
| `CApi.DestroyClears` | frame-analyzer/src/c_api.rs:208-231 | destroy answers 0 and leaves both slots empty; the frame queue is untouched |
| `CApi.Gateway.constructor` | frame-analyzer/src/c_api.rs:71-74 | the statics start as `Unloaded()` |
| `CApi.Gateway.Init` | frame-analyzer/src/c_api.rs:85-138 | makes exactly `InitCall`; an existing engine object is kept, a new one is fresh |
| `CApi.Gateway.Attach` | frame-analyzer/src/c_api.rs:142-156 | makes exactly `AttachCall` through the engine object's `AttachApp` |
| `CApi.Gateway.GetFrametime` | frame-analyzer/src/c_api.rs:160-186 | makes exactly `GetFrametimeCall` through `FrameBuffer.Pop` |
| `CApi.Gateway.Detach` | frame-analyzer/src/c_api.rs:190-204 | makes exactly `DetachCall` through the engine object's `DetachApp` |
| `CApi.Gateway.Destroy` | frame-analyzer/src/c_api.rs:208-231 | makes exactly `DestroyCall`; the dropped engine had `detach_apps` applied when its lock was free, and is untouched when it was contended |
| `CApi.Gateway.GetNotifyFd` | frame-analyzer/src/c_api.rs:235-238 | answers -1 iff no descriptor is stored, and the stored descriptor otherwise |

## Left out

- Kernel probe loading and attaching (`frame-analyzer/src/uprobe.rs`, `frame-analyzer/src/ebpf.rs`) are foreign calls into the aya library. `UprobeHandler::attach_app` is the `probe` parameter, and its two-symbol fallback is inside it.
- `AnalyzeTarget` (module `analyze_target`) is not part of this model. Its `update()` is the `frame` parameter. Its stored timestamp and the subtraction that makes a frame time are not modelled, so a target's value never changes in the model.
- The internals of epoll beyond the two effects the model decides (`EEXIST` for a descriptor registered already, removal of a closed descriptor) are not modelled. The model assumes that each target's ring-buffer descriptor is its own and stays the same while the target is attached: it is the map descriptor owned by the target's `Ebpf` object. It also assumes that dropping the target closes the last reference to that descriptor, so the kernel removes it from the poll. Every other refusal is an entry of `env.refused`.
- The ring buffer's descriptor (`uprobe.ring()`) and `Interest::READABLE` are not modelled. A failing `ring()` is one of the refusals in `env.refused`.
- The background collection thread (`frame-analyzer/src/c_api.rs:110-130`), its `try_lock`/sleep backoff, the `NOTIFY_THREAD` slot and the unpark in destroy (`frame-analyzer/src/c_api.rs:210-212`) are threads and timing. The code never stops or joins the thread.
- CApi.FrameBuffer.Pop: the condition-variable wait before the search (`frame-analyzer/src/c_api.rs:57-58`) is timing, so in the model the timeout has no effect. The wait does not change what the search finds in a given queue.
- The locks around every global, and poisoned-lock panics from `unwrap`, are not modelled. The blocking `lock()` calls are treated as always acquired. Only the engine's `try_lock` outcome is modelled, as `contended`.
- The `eventfd` call in init (`frame-analyzer/src/c_api.rs:98`) is the `efd` parameter. The write in the collector (`frame-analyzer/src/c_api.rs:126`) and the `close` in destroy (`frame-analyzer/src/c_api.rs:226`) are operating-system calls and are not modelled.
- The write through `out_frametime` is modelled as the `out` result of `Gateway.GetFrametime`. Memory behind a non-null pointer is assumed writable.
- The payloads of the library errors in `frame-analyzer/src/error.rs` are not modelled; only their kinds are.
- `frame-analyzer/build.rs` is the build script. It has no runtime behaviour.
