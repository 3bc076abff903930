/** The foreign-call layer of c_api.rs: the frame queue between the collector
    and the callers (`FrameBuffer`), the process-wide slots that hold the engine
    and the notification descriptor, and the status codes of the exported calls.

    As in the engine, the calls are first stated as functions over the value
    `Globals`; the classes `FrameBuffer` and `Gateway` hold the state and update
    it in place, and their methods are proved to make exactly those transitions.
    Lock contention (`try_lock` failing), the result of `eventfd` and the
    outcomes the engine depends on are parameters of the calls. */
module CApi {
  import opened Primitives
  import opened Errors
  import Engine

  type Pid = Engine.Pid

  /** One collected frame: the pid and its frame time. */
  type Entry = (Pid, Duration)

  // ---------------------------------------------------------------------------
  // FrameBuffer

  /** `iter().position(|(p, _)| *p == pid)`: the index of the oldest entry of `pid`. */
  function Position(q: seq<Entry>, pid: Pid): (r: Option<nat>)
    ensures r.Some? ==> r.value < |q| && q[r.value].0 == pid
    ensures r.Some? ==> forall j :: 0 <= j < r.value ==> q[j].0 != pid
    ensures r.None? ==> forall j :: 0 <= j < |q| ==> q[j].0 != pid
  {
    if q == [] then None
    else if q[0].0 == pid then Some(0)
    else match Position(q[1..], pid)
      case None => None
      case Some(k) => Some(k + 1)
  }

  /** `FrameBuffer::pop`: remove the oldest entry of `pid`, wherever it is in the queue,
      and answer its frame time; with no such entry answer nothing and keep the queue. */
  function Take(q: seq<Entry>, pid: Pid): (res: (Option<Duration>, seq<Entry>))
    ensures res.0.Some? ==> (pid, res.0.value) in q && |res.1| == |q| - 1
    ensures res.0.None? ==> res.1 == q && forall j :: 0 <= j < |q| ==> q[j].0 != pid
  {
    match Position(q, pid)
    case None => (None, q)
    case Some(k) => (Some(q[k].1), q[..k] + q[k + 1..])
  }

  /** The frame times queued for `pid`, oldest first. */
  function Frames(q: seq<Entry>, pid: Pid): seq<Duration>
  {
    if q == [] then [] else (if q[0].0 == pid then [q[0].1] else []) + Frames(q[1..], pid)
  }

  /** Popping removes exactly one entry, the one it answers with, or nothing at all. */
  lemma TakeRemovesOne(q: seq<Entry>, pid: Pid)
    ensures var (r, rest) := Take(q, pid);
      && (r.Some? <==> exists i :: 0 <= i < |q| && q[i].0 == pid)
      && (r.Some? ==> |rest| == |q| - 1 && multiset(rest) + multiset{(pid, r.value)} == multiset(q))
      && (r.None? ==> rest == q)
  {
    match Position(q, pid)
    case None =>
    case Some(k) =>
      assert q == q[..k] + [q[k]] + q[k + 1..];
  }

  lemma {:induction false} FramesAppend(a: seq<Entry>, b: seq<Entry>, pid: Pid)
    ensures Frames(a + b, pid) == Frames(a, pid) + Frames(b, pid)
  {
    if a != [] {
      FramesAppend(a[1..], b, pid);
      assert (a + b)[0] == a[0] && (a + b)[1..] == a[1..] + b;
      var head := if a[0].0 == pid then [a[0].1] else [];
      assert Frames(a + b, pid) == head + Frames(a[1..] + b, pid);
      assert Frames(a, pid) == head + Frames(a[1..], pid);
      assert head + (Frames(a[1..], pid) + Frames(b, pid)) == (head + Frames(a[1..], pid)) + Frames(b, pid);
    } else {
      assert a + b == b;
    }
  }

  /** Pushing is a per-pid FIFO append: the pushed frame time joins the end of its
      pid's frames and no other pid's frames change. */
  lemma PushIsPerPidFifo(q: seq<Entry>, pid: Pid, ft: Duration, other: Pid)
    ensures Frames(q + [(pid, ft)], pid) == Frames(q, pid) + [ft]
    ensures other != pid ==> Frames(q + [(pid, ft)], other) == Frames(q, other)
  {
    FramesAppend(q, [(pid, ft)], pid);
    FramesAppend(q, [(pid, ft)], other);
    assert [(pid, ft)][1..] == [];
  }

  lemma FramesCons(e: Entry, r: seq<Entry>, pid: Pid)
    ensures Frames([e] + r, pid) == (if e.0 == pid then [e.1] else []) + Frames(r, pid)
  {
    assert ([e] + r)[0] == e && ([e] + r)[1..] == r;
  }

  /** Popping past a head entry of another pid keeps that entry in front. */
  lemma TakeCons(q: seq<Entry>, pid: Pid)
    requires q != [] && q[0].0 != pid
    ensures Take(q, pid) == (Take(q[1..], pid).0, [q[0]] + Take(q[1..], pid).1)
  {
    match Position(q[1..], pid)
    case None =>
      assert q == [q[0]] + q[1..];
    case Some(k) =>
      assert q[..k + 1] + q[k + 2..] == [q[0]] + (q[1..][..k] + q[1..][k + 1..]);
  }

  /** Popping is a per-pid FIFO read: it answers the oldest frame time of its pid and
      removes just that one, and no other pid's frames change. */
  lemma {:induction false} TakeIsPerPidFifo(q: seq<Entry>, pid: Pid, other: Pid)
    ensures Take(q, pid).0 == if Frames(q, pid) == [] then None else Some(Frames(q, pid)[0])
    ensures Frames(Take(q, pid).1, pid) == if Frames(q, pid) == [] then [] else Frames(q, pid)[1..]
    ensures other != pid ==> Frames(Take(q, pid).1, other) == Frames(q, other)
  {
    if q != [] {
      var tail := q[1..];
      assert q == [q[0]] + tail;
      FramesCons(q[0], tail, pid);
      FramesCons(q[0], tail, other);
      if q[0].0 == pid {
        assert q[..0] + q[1..] == tail;
      } else {
        TakeIsPerPidFifo(tail, pid, other);
        TakeCons(q, pid);
        FramesCons(q[0], Take(tail, pid).1, pid);
        FramesCons(q[0], Take(tail, pid).1, other);
      }
    }
  }

  /** The queue that `frame_analyzer_get_frametime` reads from (`FRAME_BUFFER`). The
      condition-variable wait inside `pop` is not modelled; `timeout` only bounds it. */
  class FrameBuffer {
    var data: seq<Entry>

    /** `FrameBuffer::new` */
    constructor ()
      ensures data == []
    {
      data := [];
    }

    /** `push`: append at the back. */
    method Push(pid: Pid, frametime: Duration)
      modifies this
      ensures data == old(data) + [(pid, frametime)]
    {
      data := data + [(pid, frametime)];
    }

    /** `pop`: search for the oldest entry of `pid` and remove it. */
    method Pop(pid: Pid, timeout: Duration) returns (r: Option<Duration>)
      modifies this
      ensures (r, data) == Take(old(data), pid)
    {
      var i := 0;
      while i < |data| && data[i].0 != pid
        invariant 0 <= i <= |data|
        invariant forall j :: 0 <= j < i ==> data[j].0 != pid
      {
        i := i + 1;
      }
      if i < |data| {
        r := Some(data[i].1);
        data := data[..i] + data[i + 1..];
      } else {
        r := None;
      }
    }
  }

  // ---------------------------------------------------------------------------
  // Conversions in frame_analyzer_get_frametime

  /** The `FrameTime` record handed across the boundary: two `c_uint`s. */
  datatype FrameTime = FrameTime(secs: U32, nanos: U32)

  /** The length of a `FrameTime` in nanoseconds. */
  function FrameTimeNanos(ft: FrameTime): nat
  {
    ft.secs * NANOS_PER_SEC + ft.nanos
  }

  /** `FrameTime { secs: as_secs() as c_uint, nanos: subsec_nanos() as c_uint }`. */
  function ToFrameTime(d: Duration): (ft: FrameTime)
    ensures ft.nanos < NANOS_PER_SEC
  {
    FrameTime(U64ToU32(d.secs), d.nanos)
  }

  /** The record carries the frame time exactly when it is shorter than 2^32 seconds;
      a longer one loses whole multiples of 2^32 seconds. */
  lemma FrameTimeWraps(d: Duration)
    ensures FrameTimeNanos(ToFrameTime(d)) == TotalNanos(d) % (U32_MODULUS * NANOS_PER_SEC)
    ensures d.secs < U32_MODULUS ==> FrameTimeNanos(ToFrameTime(d)) == TotalNanos(d)
  {
    var q := d.secs / U32_MODULUS;
    var r := d.secs % U32_MODULUS;
    assert d.secs == q * U32_MODULUS + r;
    assert TotalNanos(d) == q * 4_294_967_296_000_000_000 + (r * NANOS_PER_SEC + d.nanos);
    assert r * NANOS_PER_SEC + d.nanos < 4_294_967_296_000_000_000;
  }

  /** `Duration::from_millis(timeout_ms as u64)`: a negative `c_int` sign-extends. */
  function Timeout(timeoutMs: I32): (d: Duration)
    ensures timeoutMs >= 0 ==> TotalNanos(d) == timeoutMs * NANOS_PER_MILLI
    ensures timeoutMs < 0 ==> TotalNanos(d) == (U64_MODULUS + timeoutMs) * NANOS_PER_MILLI
  {
    FromMillis(I32ToU64(timeoutMs))
  }

  /** A negative timeout is a wait of more than 500 million years. */
  lemma NegativeTimeoutIsUnbounded(timeoutMs: I32)
    requires timeoutMs < 0
    ensures Timeout(timeoutMs).secs > 500_000_000 * 365 * 24 * 3600
  {
    var d := Timeout(timeoutMs);
    assert TotalNanos(d) >= (U64_MODULUS - 0x8000_0000) * NANOS_PER_MILLI;
  }

  /** `frame_analyzer_get_ringbuf_fd`: deprecated, never a descriptor. */
  function GetRingbufFd(pid: I32): (fd: I32)
    ensures fd < 0
  {
    -1
  }

  // ---------------------------------------------------------------------------
  // The process-wide state and the exported calls

  /** `GLOBAL_ANALYZER`, `NOTIFY_FD` and the contents of `FRAME_BUFFER`, as values. */
  datatype Globals = Globals(analyzer: Option<Engine.State>, notifyFd: Option<I32>, frames: seq<Entry>)

  /** The engine and the descriptor are set and cleared together, the stored descriptor
      is one `eventfd` handed out, and the engine keeps its own invariant. */
  predicate GlobalsInv(g: Globals)
  {
    && (g.analyzer.Some? <==> g.notifyFd.Some?)
    && (g.notifyFd.Some? ==> g.notifyFd.value >= 0)
    && (g.analyzer.Some? ==> Engine.Inv(g.analyzer.value))
  }

  /** The statics at process start. */
  function Unloaded(): (g: Globals)
    ensures GlobalsInv(g)
  {
    Globals(None, None, [])
  }

  /** `frame_analyzer_init`, given what `eventfd` returns. `Analyzer::new` cannot fail,
      so its error branch is dead. */
  function InitCall(g: Globals, efd: I32): (r: (Globals, I32))
    ensures r.1 == 0 || r.1 == -1
    ensures r.1 == 0 <==> r.0.analyzer.Some?
    ensures r.0.frames == g.frames
  {
    if g.analyzer.Some? then (g, 0)
    else if efd < 0 then (g, -1)
    else (g.(analyzer := Some(Engine.New()), notifyFd := Some(efd)), 0)
  }

  /** `frame_analyzer_attach`, given whether `try_lock` on the engine fails and what
      the engine meets while attaching. */
  function AttachCall(g: Globals, pid: I32, contended: bool, probe: Result<Engine.UprobeHandler>, env: Engine.PollEnv)
    : (r: (Globals, I32))
    ensures r.1 == 0 || r.1 == -1
    ensures r.0.analyzer.Some? <==> g.analyzer.Some?
    ensures r.0.notifyFd == g.notifyFd && r.0.frames == g.frames
  {
    if g.analyzer.None? || contended then (g, -1)
    else
      var s := g.analyzer.value;
      (g.(analyzer := Some(Engine.AttachStep(s, pid, probe, env))), if Engine.AttachOk(s, pid, probe, env) then 0 else -1)
  }

  /** `frame_analyzer_detach`, given whether `try_lock` fails and what re-registration meets. */
  function DetachCall(g: Globals, pid: I32, contended: bool, env: Engine.PollEnv): (r: (Globals, I32))
    ensures r.1 == 0 || r.1 == -1
    ensures r.0.analyzer.Some? <==> g.analyzer.Some?
    ensures r.0.notifyFd == g.notifyFd && r.0.frames == g.frames
  {
    if g.analyzer.None? || contended then (g, -1)
    else
      var s := g.analyzer.value;
      (g.(analyzer := Some(Engine.DetachStep(s, pid, env))), if Engine.DetachOk(s, pid, env) then 0 else -1)
  }

  /** `frame_analyzer_get_frametime`; `outNull` says the output pointer is null. The call
      reads the frame queue whether or not the engine is initialised. */
  function GetFrametimeCall(g: Globals, pid: I32, timeoutMs: I32, outNull: bool): (r: (Globals, I32, Option<FrameTime>))
    ensures r.1 == 0 || r.1 == -1
    ensures r.1 == 0 <==> r.2.Some?
    ensures r.0.analyzer == g.analyzer && r.0.notifyFd == g.notifyFd
    ensures r.2.Some? ==> |r.0.frames| == |g.frames| - 1
  {
    if outNull then (g, -1, None)
    else
      var (r, rest) := Take(g.frames, pid);
      match r
      case None => (g, -1, None)
      case Some(d) => (g.(frames := rest), 0, Some(ToFrameTime(d)))
  }

  /** `frame_analyzer_destroy`: both slots are cleared whatever happens; the frame queue
      is not touched. (What it does to the engine it drops is stated on `Gateway.Destroy`.) */
  function DestroyCall(g: Globals, contended: bool): (r: (Globals, I32))
    ensures GlobalsInv(r.0) && r.1 == 0
    ensures r.0.analyzer.None? && r.0.frames == g.frames
  {
    (Globals(None, None, g.frames), 0)
  }

  /** Every call keeps the invariant. */
  lemma CallsKeepInv(g: Globals, efd: I32, pid: I32, contended: bool, probe: Result<Engine.UprobeHandler>,
                     env: Engine.PollEnv, timeoutMs: I32, outNull: bool)
    requires GlobalsInv(g)
    ensures GlobalsInv(InitCall(g, efd).0)
    ensures GlobalsInv(AttachCall(g, pid, contended, probe, env).0)
    ensures GlobalsInv(DetachCall(g, pid, contended, env).0)
    ensures GlobalsInv(GetFrametimeCall(g, pid, timeoutMs, outNull).0)
    ensures GlobalsInv(DestroyCall(g, contended).0)
  {
    if g.analyzer.Some? {
      Engine.ApplyKeepsInv(g.analyzer.value, Engine.AttachOp(pid, probe, env));
      Engine.ApplyKeepsInv(g.analyzer.value, Engine.DetachOp(pid, env));
    }
  }

  /** `frame_analyzer_init` succeeds once and is then a no-op returning 0; when it fails
      (the descriptor could not be created) it leaves everything unset. */
  lemma InitIdempotent(g: Globals, efd: I32, efd2: I32)
    requires GlobalsInv(g)
    ensures var (g1, status) := InitCall(g, efd);
      && (status == 0 <==> g.analyzer.Some? || efd >= 0)
      && (status == 0 ==> g1.analyzer.Some? && g1.notifyFd.Some? && InitCall(g1, efd2) == (g1, 0))
      && (status != 0 ==> status == -1 && g1 == g && g1.analyzer.None? && g1.notifyFd.None?)
      && (g.analyzer.None? && efd >= 0 ==> g1.analyzer == Some(Engine.New()) && g1.notifyFd == Some(efd))
  {
  }

  /** Destroying and initialising again starts a fresh engine with the new descriptor,
      but frames collected in the earlier session are still queued. */
  lemma RestartKeepsFrames(g: Globals, contended: bool, efd: I32)
    requires efd >= 0
    ensures InitCall(DestroyCall(g, contended).0, efd) == (Globals(Some(Engine.New()), Some(efd), g.frames), 0)
  {
  }

  /** The status codes of attach. -1 when not initialised or contended, and then nothing
      changes. Otherwise 0 exactly when `attach_app` returned `Ok`, and 0 means the pid is
      attached. A -1 can also leave a new pid attached: the probe attached but the poll
      registration failed. */
  lemma AttachStatus(g: Globals, pid: I32, contended: bool, probe: Result<Engine.UprobeHandler>, env: Engine.PollEnv)
    ensures var (g1, status) := AttachCall(g, pid, contended, probe, env);
      && (status == 0 || status == -1)
      && (g.analyzer.None? || contended ==> status == -1 && g1 == g)
      && (g.analyzer.Some? && !contended ==>
            (status == 0 <==> Engine.AttachOk(g.analyzer.value, pid, probe, env)))
      && (status == 0 ==> pid in g1.analyzer.value.targets)
      && ((g.analyzer.Some? && !contended && pid !in g.analyzer.value.targets && probe.Ok?)
            ==> pid in g1.analyzer.value.targets)
      && g1.notifyFd == g.notifyFd && g1.frames == g.frames
  {
    if g.analyzer.Some? && !contended {
      Engine.AttachEffect(g.analyzer.value, pid, probe, env);
    }
  }

  /** With the operating system cooperating, three attaches of new pids after an init
      answer 0, -1 and 0. The second finds the first pid's descriptor in the live poll,
      which drops the poll; the third creates a fresh poll. Every pid stays attached. */
  lemma AttachAnswersAlternate(g: Globals, efd: I32, p1: Pid, p2: Pid, p3: Pid,
                               h1: Engine.UprobeHandler, h2: Engine.UprobeHandler, h3: Engine.UprobeHandler,
                               env: Engine.PollEnv)
    requires g.analyzer.None? && efd >= 0
    requires p1 != p2 && p2 != p3 && p1 != p3
    requires env.canCreate && env.refused == map[]
    ensures var g0 := InitCall(g, efd).0;
      var (g1, st1) := AttachCall(g0, p1, false, Ok(h1), env);
      var (g2, st2) := AttachCall(g1, p2, false, Ok(h2), env);
      var (g3, st3) := AttachCall(g2, p3, false, Ok(h3), env);
      && st1 == 0 && st2 == -1 && st3 == 0
      && g2.analyzer.value.targets.Keys == {p1, p2}
      && g3.analyzer.value.targets.Keys == {p1, p2, p3}
  {
    var s0 := Engine.New();
    Engine.AttachWithoutPoll(s0, p1, Ok(h1), env);
    var s1 := Engine.AttachStep(s0, p1, Ok(h1), env);
    Engine.AttachKeepsInv(s0, p1, Ok(h1), env);
    assert s1.targets.Keys == {p1};
    Engine.AttachToLivePoll(s1, p2, Ok(h2), env);
    Engine.AttachEffect(s1, p2, Ok(h2), env);
    var s2 := Engine.AttachStep(s1, p2, Ok(h2), env);
    Engine.AttachWithoutPoll(s2, p3, Ok(h3), env);
  }

  /** The status codes of detach, symmetric to attach: 0 means the pid is no longer
      attached, and a -1 after an initialised, uncontended call still detached it. */
  lemma DetachStatus(g: Globals, pid: I32, contended: bool, env: Engine.PollEnv)
    ensures var (g1, status) := DetachCall(g, pid, contended, env);
      && (status == 0 || status == -1)
      && (g.analyzer.None? || contended ==> status == -1 && g1 == g)
      && (g.analyzer.Some? && !contended ==>
            (status == 0 <==> Engine.DetachOk(g.analyzer.value, pid, env))
            && pid !in g1.analyzer.value.targets)
      && g1.notifyFd == g.notifyFd && g1.frames == g.frames
  {
    if g.analyzer.Some? && !contended {
      Engine.DetachEffect(g.analyzer.value, pid, env);
    }
  }

  /** Reading a frame time. A null output pointer fails without touching the queue.
      Otherwise the call succeeds exactly when a frame of `pid` is queued, answers the
      oldest one converted to a `FrameTime`, and consumes only that one. */
  lemma GetFrametimeIsPerPidFifo(g: Globals, pid: I32, timeoutMs: I32, outNull: bool, other: Pid)
    ensures var (g1, status, out) := GetFrametimeCall(g, pid, timeoutMs, outNull);
      && g1.analyzer == g.analyzer && g1.notifyFd == g.notifyFd
      && (outNull ==> status == -1 && out.None? && g1 == g)
      && (!outNull ==> (status == 0 <==> Frames(g.frames, pid) != []))
      && (!outNull && status == 0 ==>
            && out == Some(ToFrameTime(Frames(g.frames, pid)[0]))
            && out.value.nanos < NANOS_PER_SEC
            && Frames(g1.frames, pid) == Frames(g.frames, pid)[1..])
      && (status != 0 ==> status == -1 && out.None? && g1 == g)
      && (other != pid ==> Frames(g1.frames, other) == Frames(g.frames, other))
  {
    TakeIsPerPidFifo(g.frames, pid, other);
  }

  /** Destroy always answers 0 and leaves both slots empty. */
  lemma DestroyClears(g: Globals, contended: bool)
    ensures var (g1, status) := DestroyCall(g, contended);
      status == 0 && g1.analyzer.None? && g1.notifyFd.None? && g1.frames == g.frames
  {
  }

  /** The globals of c_api.rs, injected as one object. `frames` is created once (as the
      lazily initialised `FRAME_BUFFER`) and never replaced. */
  class Gateway {
    var analyzer: Option<Engine.Analyzer>
    var notifyFd: Option<I32>
    const frames: FrameBuffer

    ghost function Engines(): set<object>
      reads this
    {
      if analyzer.Some? then {analyzer.value} else {}
    }

    ghost function Abs(): Globals
      reads this, Engines(), frames
    {
      Globals(if analyzer.Some? then Some(analyzer.value.Abs()) else None, notifyFd, frames.data)
    }

    ghost predicate Valid()
      reads this, Engines(), frames
    {
      GlobalsInv(Abs())
    }

    /** The statics at process start. */
    constructor ()
      ensures Valid() && Abs() == Unloaded()
    {
      analyzer := None;
      notifyFd := None;
      frames := new FrameBuffer();
    }

    /** `frame_analyzer_init`; `efd` is what `eventfd` returns. */
    method Init(efd: I32) returns (status: I32)
      requires Valid()
      modifies this
      ensures Valid()
      ensures (Abs(), status) == InitCall(old(Abs()), efd)
      ensures old(analyzer).Some? ==> analyzer == old(analyzer)
      ensures old(analyzer).None? && analyzer.Some? ==> fresh(analyzer.value)
    {
      if analyzer.Some? {
        return 0;
      }
      var a := new Engine.Analyzer();
      if efd < 0 {
        return -1;
      }
      analyzer := Some(a);
      notifyFd := Some(efd);
      status := 0;
    }

    /** `frame_analyzer_attach`; `contended` says `try_lock` on the engine failed. */
    method Attach(pid: I32, contended: bool, probe: Result<Engine.UprobeHandler>, env: Engine.PollEnv)
      returns (status: I32)
      requires Valid()
      modifies Engines()
      ensures Valid()
      ensures (Abs(), status) == AttachCall(old(Abs()), pid, contended, probe, env)
    {
      if analyzer.None? || contended {
        return -1;
      }
      var r := analyzer.value.AttachApp(pid, probe, env);
      status := if r.Ok? then 0 else -1;
    }

    /** `frame_analyzer_get_frametime`; `outNull` says the output pointer is null, and
        `out` is what is written through it. */
    method GetFrametime(pid: I32, timeoutMs: I32, outNull: bool) returns (status: I32, out: Option<FrameTime>)
      requires Valid()
      modifies frames
      ensures Valid()
      ensures (Abs(), status, out) == GetFrametimeCall(old(Abs()), pid, timeoutMs, outNull)
    {
      if outNull {
        return -1, None;
      }
      var timeout := Timeout(timeoutMs);
      var r := frames.Pop(pid, timeout);
      match r
      case Some(ft) =>
        status, out := 0, Some(ToFrameTime(ft));
      case None =>
        status, out := -1, None;
    }

    /** `frame_analyzer_detach` */
    method Detach(pid: I32, contended: bool, env: Engine.PollEnv) returns (status: I32)
      requires Valid()
      modifies Engines()
      ensures Valid()
      ensures (Abs(), status) == DetachCall(old(Abs()), pid, contended, env)
    {
      if analyzer.None? || contended {
        return -1;
      }
      var r := analyzer.value.DetachApp(pid, env);
      status := if r.Ok? then 0 else -1;
    }

    /** `frame_analyzer_destroy`; `contended` says `try_lock` on the engine failed, in
        which case the engine is dropped from the slot with its targets still attached. */
    method Destroy(contended: bool) returns (status: I32)
      requires Valid()
      modifies this, Engines()
      ensures Valid()
      ensures (Abs(), status) == DestroyCall(old(Abs()), contended)
      ensures old(analyzer).Some? && !contended ==>
        old(analyzer).value.Abs() == Engine.DetachAllStep(old(analyzer.value.Abs()))
      ensures old(analyzer).Some? && contended ==> unchanged(old(analyzer).value)
    {
      if analyzer.Some? && !contended {
        analyzer.value.DetachApps();
      }
      analyzer := None;
      notifyFd := None;
      status := 0;
    }

    /** `frame_analyzer_get_notify_fd`: -1 exactly when no descriptor is stored. */
    function GetNotifyFd(): (fd: I32)
      reads this, Engines(), frames
      requires Valid()
      ensures fd == -1 <==> notifyFd.None?
      ensures notifyFd.Some? ==> fd == notifyFd.value
    {
      if notifyFd.Some? then notifyFd.value else -1
    }
  }
}
