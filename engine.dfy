/** The `Analyzer` of lib.rs: a table of attached targets keyed by pid, an
    optional readiness poll over their ring buffers, and a FIFO of pids that a
    wait reported ready and that have not been consumed yet.

    The first half of the module states the engine as a state machine over the
    value `State`; the class `Analyzer` at the end holds the three fields and
    updates them in place, and each of its methods is proved to make exactly the
    transition of the corresponding step function. The kernel probe, the answers
    of the operating system while the poll is created and registered, and
    `AnalyzeTarget::update` are outside the model: their outcomes are parameters
    (oracles) of the operations that consult them. Two effects of epoll itself are
    modelled: a descriptor registered already is refused, and a closed one leaves
    the poll. */
module Engine {
  import opened Primitives
  import opened Errors

  /** The number of events one wait on the poll can report. */
  const EVENT_MAX: nat := 1024

  type Pid = I32

  /** `mio::Token`, a `usize` */
  datatype Token = Token(id: U64)

  /** The token a target's ring buffer is registered under: `Token(pid as usize)`. */
  function PidToken(pid: Pid): Token
  {
    Token(I32ToU64(pid))
  }

  /** `event_to_pid`: the pid a reported token stands for, `token as Pid`.
      The pid agrees with the token in the low 32 bits. */
  function EventToPid(t: Token): (pid: Pid)
    ensures (pid - t.id) % U32_MODULUS == 0
  {
    U64ToI32(t.id)
  }

  /** `event_to_pid` undoes the registration encoding for every pid, negative ones included. */
  lemma TokenRoundTrip(pid: Pid)
    ensures EventToPid(PidToken(pid)) == pid
  {
    I32RoundTrip(pid);
  }

  /** The tokens that a set of attached pids is registered under. */
  function Tokens(pids: set<Pid>): set<Token>
  {
    set p | p in pids :: PidToken(p)
  }

  /** A pid's token is among the tokens of a set exactly when the pid is in the set,
      and every token of the set decodes to a pid of the set. */
  lemma TokensDecode(pids: set<Pid>, p: Pid, t: Token)
    ensures PidToken(p) in Tokens(pids) <==> p in pids
    ensures t in Tokens(pids) ==> EventToPid(t) in pids
  {
    if PidToken(p) in Tokens(pids) {
      var q :| q in pids && PidToken(q) == PidToken(p);
      TokenRoundTrip(q);
      TokenRoundTrip(p);
    }
    if t in Tokens(pids) {
      var q :| q in pids && PidToken(q) == t;
      TokenRoundTrip(q);
    }
  }

  lemma TokensAdd(pids: set<Pid>, p: Pid)
    ensures Tokens(pids + {p}) == Tokens(pids) + {PidToken(p)}
  {
  }

  /** Removing a pid removes its token and no other: no two pids share a token. */
  lemma TokensRemove(pids: set<Pid>, p: Pid)
    ensures Tokens(pids - {p}) == Tokens(pids) - {PidToken(p)}
  {
    forall t | t in Tokens(pids) - {PidToken(p)}
      ensures t in Tokens(pids - {p})
    {
      var q :| q in pids && PidToken(q) == t;
      assert q != p;
    }
  }

  /** Registration takes one token per attached pid: no two pids share a token. */
  lemma {:induction false} TokensCard(pids: set<Pid>)
    ensures |Tokens(pids)| == |pids|
    decreases |pids|
  {
    if pids != {} {
      var p :| p in pids;
      var rest := pids - {p};
      TokensCard(rest);
      TokensAdd(rest, p);
      assert pids == rest + {p};
      TokensDecode(rest, p, PidToken(p));
      assert PidToken(p) !in Tokens(rest);
    }
  }

  /** Stands for an attached kernel probe (`UprobeHandler`); what it holds is not modelled. */
  datatype UprobeHandler = UprobeHandler(handle: nat)

  /** `AnalyzeTarget::new(uprobe)`; the target's last timestamp is not modelled. */
  datatype AnalyzeTarget = AnalyzeTarget(uprobe: UprobeHandler)

  /** `mio::Poll` (an epoll instance), reduced to the tokens of the ring buffers
      registered with it. Each attached target owns one ring-buffer descriptor,
      registered under its pid's token, so a token stands for that descriptor. */
  datatype Poll = Poll(registered: set<Token>)

  /** What the operating system answers while `register_poll` runs, besides the
      refusal of a descriptor that is registered already (which the model decides
      itself, in `KeyOutcome`): whether `Poll::new()` succeeds, and which attached pids
      fail otherwise (the ring buffer is unavailable or the registry refuses it), with
      the error that case returns. */
  datatype PollEnv = PollEnv(canCreate: bool, refused: map<Pid, RegisterFailure>)

  /** The errors registering one ring buffer can produce: `ring()` fails with a map error
      (`MapError` converted to `BpfMapError`), `register` with an I/O error. */
  type RegisterFailure = e: AnalyzerError | e.BpfMapError? || e.IOError? witness IOError

  /** The engine's three fields as a value. */
  datatype State = State(poll: Option<Poll>, targets: map<Pid, AnalyzeTarget>, buffer: seq<Pid>)

  /** What every operation keeps: the ready queue holds at most one wait's worth of
      events, and an existing poll watches exactly the attached targets. */
  predicate Inv(s: State)
  {
    && |s.buffer| <= EVENT_MAX
    && (s.poll.Some? ==> s.poll.value.registered == Tokens(s.targets.Keys))
  }

  /** A list of ready tokens that one wait on `p` can return. */
  predicate Reported(p: Poll, ready: seq<Token>)
  {
    && |ready| <= EVENT_MAX
    && forall i :: 0 <= i < |ready| ==> ready[i] in p.registered
  }

  /** `Analyzer::new`: no poll, no target, nothing queued. */
  function New(): (s: State)
    ensures Inv(s)
  {
    State(None, map[], [])
  }

  // ---------------------------------------------------------------------------
  // register_poll

  function Registrations(poll: Option<Poll>): set<Token>
  {
    if poll.Some? then poll.value.registered else {}
  }

  /** What registering the ring buffer of attached pid `p` answers, with `registered`
      already in the poll: the error of `env` if the ring buffer is unavailable or the
      registry refuses it, else `IOError` if the descriptor is registered already
      (epoll's `EEXIST`), else success. */
  function KeyOutcome(registered: set<Token>, p: Pid, env: PollEnv): (r: Option<AnalyzerError>)
    ensures r.None? <==> p !in env.refused && PidToken(p) !in registered
    ensures r.Some? && p !in env.refused ==> r.value == IOError
    ensures r.Some? ==> r.value.BpfMapError? || r.value.IOError?
  {
    if p in env.refused then Some(env.refused[p])
    else if PidToken(p) in registered then Some(IOError)
    else None
  }

  /** `register_poll` succeeds when a poll exists or can be created and every attached pid registers. */
  predicate RegisterOk(poll: Option<Poll>, keys: set<Pid>, env: PollEnv)
  {
    && (poll.Some? || env.canCreate)
    && forall p :: p in keys ==> KeyOutcome(Registrations(poll), p, env).None?
  }

  /** The error `register_poll` may return: creating the poll fails first when there is
      none; otherwise the error of one attached pid that fails to register (which one
      depends on the table's iteration order). */
  predicate RegisterError(poll: Option<Poll>, keys: set<Pid>, env: PollEnv, e: AnalyzerError)
  {
    if poll.None? && !env.canCreate then e == IOError
    else exists p :: p in keys && KeyOutcome(Registrations(poll), p, env) == Some(e)
  }

  /** `register_poll` fails only with a map error or an I/O error. */
  lemma RegisterErrorKinds(poll: Option<Poll>, keys: set<Pid>, env: PollEnv, e: AnalyzerError)
    requires RegisterError(poll, keys, env, e)
    ensures e.BpfMapError? || e.IOError?
  {
    if poll.Some? || env.canCreate {
      var p :| p in keys && KeyOutcome(Registrations(poll), p, env) == Some(e);
    }
  }

  /** `register_poll`: the poll is taken out of the state; on success it comes back with
      every attached pid's token added, on any failure it is dropped. */
  function RegisterStep(s: State, env: PollEnv): (t: State)
    ensures t.targets == s.targets && t.buffer == s.buffer
    ensures t.poll.Some? <==> RegisterOk(s.poll, s.targets.Keys, env)
  {
    var poll := if RegisterOk(s.poll, s.targets.Keys, env)
      then Some(Poll(Registrations(s.poll) + Tokens(s.targets.Keys)))
      else None;
    s.(poll := poll)
  }

  /** After a successful registration the poll watches every attached pid. A poll that
      started out watching only attached pids (a fresh one, or any under the invariant)
      then watches exactly them, and each of its tokens decodes to an attached pid. */
  lemma RegisterCovers(s: State, env: PollEnv, t: Token)
    requires RegisterOk(s.poll, s.targets.Keys, env)
    ensures Tokens(s.targets.Keys) <= RegisterStep(s, env).poll.value.registered
    ensures Registrations(s.poll) <= Tokens(s.targets.Keys) ==>
      RegisterStep(s, env).poll.value.registered == Tokens(s.targets.Keys)
    ensures Registrations(s.poll) <= Tokens(s.targets.Keys) && t in RegisterStep(s, env).poll.value.registered
      ==> EventToPid(t) in s.targets
  {
    TokensDecode(s.targets.Keys, EventToPid(t), t);
  }

  /** Registration keeps the invariant, whether it succeeds or drops the poll. */
  lemma RegisterKeepsInv(s: State, env: PollEnv)
    requires |s.buffer| <= EVENT_MAX
    requires s.poll.Some? ==> s.poll.value.registered <= Tokens(s.targets.Keys)
    ensures Inv(RegisterStep(s, env))
  {
    if RegisterOk(s.poll, s.targets.Keys, env) {
      RegisterCovers(s, env, Token(0));
    }
  }

  /** Registering again with a poll that is alive. Under the invariant every attached
      pid's descriptor is in the poll already, so the registry refuses the first one it
      meets: the call succeeds, and changes nothing, only when no target is attached;
      otherwise the poll is dropped, and unless some ring buffer failed first the error
      is `IOError`. */
  lemma RegisterReusedPoll(s: State, env: PollEnv)
    requires Inv(s) && s.poll.Some?
    ensures RegisterOk(s.poll, s.targets.Keys, env) <==> s.targets == map[]
    ensures s.targets == map[] ==> RegisterStep(s, env) == s
    ensures s.targets != map[] ==> RegisterStep(s, env).poll.None?
    ensures s.targets != map[] && (forall p :: p in s.targets ==> p !in env.refused) ==>
      forall e :: RegisterError(s.poll, s.targets.Keys, env, e) <==> e == IOError
  {
    if s.targets != map[] {
      var p :| p in s.targets;
      TokensDecode(s.targets.Keys, p, PidToken(p));
      assert KeyOutcome(Registrations(s.poll), p, env).Some?;
      if forall q :: q in s.targets ==> q !in env.refused {
        assert KeyOutcome(Registrations(s.poll), p, env) == Some(IOError);
        forall e | RegisterError(s.poll, s.targets.Keys, env, e)
          ensures e == IOError
        {
          var q :| q in s.targets.Keys && KeyOutcome(Registrations(s.poll), q, env) == Some(e);
        }
      }
    } else {
      assert s.targets.Keys == {};
      assert Tokens(s.targets.Keys) == {};
      assert s.poll.value == Poll({});
      assert RegisterOk(s.poll, s.targets.Keys, env);
      assert Registrations(s.poll) + Tokens(s.targets.Keys) == {};
      assert RegisterStep(s, env).poll == s.poll;
    }
  }

  /** With targets attached and the operating system cooperating, successive
      registrations alternate: a live poll is dropped, and the next call creates a fresh
      one that watches every target. */
  lemma {:induction false} RegisterAlternates(s: State, env: PollEnv)
    requires Inv(s) && s.targets != map[]
    requires env.canCreate && forall p :: p in s.targets ==> p !in env.refused
    ensures RegisterStep(s, env).poll.Some? <==> s.poll.None?
    ensures RegisterStep(RegisterStep(s, env), env).poll.Some? <==> s.poll.Some?
  {
    if s.poll.Some? {
      RegisterReusedPoll(s, env);
    } else {
      RegisterKeepsInv(s, env);
      RegisterReusedPoll(RegisterStep(s, env), env);
    }
  }

  // ---------------------------------------------------------------------------
  // attach_app, detach_app, detach_apps

  /** `attach_app(pid)`, given what `UprobeHandler::attach_app(pid)` returns. */
  function AttachStep(s: State, pid: Pid, probe: Result<UprobeHandler>, env: PollEnv): (t: State)
    ensures t.buffer == s.buffer
    ensures pid in t.targets <==> pid in s.targets || probe.Ok?
    ensures forall q :: q != pid ==> (q in t.targets <==> q in s.targets)
  {
    if pid in s.targets then s
    else match probe
      case Err(_) => s
      case Ok(uprobe) => RegisterStep(s.(targets := s.targets[pid := AnalyzeTarget(uprobe)]), env)
  }

  /** `attach_app(pid)` returns `Ok`: the pid was attached already, or the probe attached
      and the poll registered the enlarged table. */
  predicate AttachOk(s: State, pid: Pid, probe: Result<UprobeHandler>, env: PollEnv)
  {
    pid in s.targets || (probe.Ok? && RegisterOk(s.poll, s.targets.Keys + {pid}, env))
  }

  /** What attaching does to each field. An attached pid changes nothing. A failed probe
      changes nothing. Otherwise the table gains exactly `pid`, bound to the new probe,
      whether or not the poll registration that follows succeeds; the queue is untouched
      and the poll is the outcome of that registration. */
  lemma AttachEffect(s: State, pid: Pid, probe: Result<UprobeHandler>, env: PollEnv)
    ensures pid in s.targets ==> AttachStep(s, pid, probe, env) == s && AttachOk(s, pid, probe, env)
    ensures pid !in s.targets && probe.Err? ==> AttachStep(s, pid, probe, env) == s && !AttachOk(s, pid, probe, env)
    ensures pid !in s.targets && probe.Ok? ==>
      var t := AttachStep(s, pid, probe, env);
      && t.targets.Keys == s.targets.Keys + {pid}
      && t.targets[pid] == AnalyzeTarget(probe.value)
      && (forall q :: q in s.targets ==> t.targets[q] == s.targets[q])
      && t.buffer == s.buffer
      && (t.poll.Some? <==> AttachOk(s, pid, probe, env))
  {
  }

  /** Dropping the targets of `pids` closes their ring-buffer descriptors, and the
      kernel removes a closed descriptor from the poll watching it. */
  function Forget(poll: Option<Poll>, pids: set<Pid>): (r: Option<Poll>)
    ensures r.Some? <==> poll.Some?
    ensures r.Some? ==> r.value.registered <= poll.value.registered
    ensures r.Some? ==> forall p :: p in pids ==> PidToken(p) !in r.value.registered
  {
    if poll.Some? then Some(Poll(poll.value.registered - Tokens(pids))) else None
  }

  /** `detach_app(pid)`. For an attached pid the removal itself cannot fail, so the
      `AppNotFound` branch of `detach_app` is dead. */
  function DetachStep(s: State, pid: Pid, env: PollEnv): (t: State)
    ensures t.targets.Keys == s.targets.Keys - {pid}
    ensures pid !in s.targets ==> t == s
    ensures pid in s.targets ==> pid !in t.buffer
    ensures |t.buffer| <= |s.buffer|
  {
    if pid !in s.targets then s
    else RegisterStep(State(Forget(s.poll, {pid}), s.targets - {pid}, Without(s.buffer, pid)), env)
  }

  /** `detach_app(pid)` returns `Ok`: the pid was not attached, or the poll registered the
      reduced table. */
  predicate DetachOk(s: State, pid: Pid, env: PollEnv)
  {
    pid !in s.targets || RegisterOk(Forget(s.poll, {pid}), s.targets.Keys - {pid}, env)
  }

  /** The queue with every occurrence of `pid` removed, keeping the order of the rest
      (`VecDeque::retain`). */
  function Without(q: seq<Pid>, pid: Pid): (r: seq<Pid>)
    ensures pid !in r
    ensures |r| <= |q|
    ensures forall x :: x in r ==> x in q
  {
    if q == [] then [] else (if q[0] == pid then [] else [q[0]]) + Without(q[1..], pid)
  }

  /** `a` is `b` with some entries left out. */
  predicate IsSubsequence(a: seq<Pid>, b: seq<Pid>)
  {
    a == [] || (b != [] && ((a[0] == b[0] && IsSubsequence(a[1..], b[1..])) || IsSubsequence(a, b[1..])))
  }

  /** `Without` removes every occurrence of `pid`, keeps every other entry as often as it
      occurred, and keeps the survivors in their relative order. */
  lemma WithoutPurges(q: seq<Pid>, pid: Pid)
    ensures pid !in Without(q, pid)
    ensures multiset(Without(q, pid)) == multiset(q)[pid := 0]
    ensures IsSubsequence(Without(q, pid), q)
    ensures pid !in q ==> Without(q, pid) == q
  {
    WithoutCounts(q, pid);
    WithoutKeepsOrder(q, pid);
  }

  lemma {:induction false} WithoutCounts(q: seq<Pid>, pid: Pid)
    ensures multiset(Without(q, pid)) == multiset(q)[pid := 0]
    ensures pid !in q ==> Without(q, pid) == q
  {
    if q != [] {
      WithoutCounts(q[1..], pid);
      var rest := Without(q[1..], pid);
      assert q == [q[0]] + q[1..];
      assert multiset(q) == multiset{q[0]} + multiset(q[1..]);
      if q[0] == pid {
        assert Without(q, pid) == rest;
      } else {
        assert Without(q, pid) == [q[0]] + rest;
        assert multiset(Without(q, pid)) == multiset{q[0]} + multiset(rest);
      }
    }
  }

  lemma {:induction false} WithoutKeepsOrder(q: seq<Pid>, pid: Pid)
    ensures IsSubsequence(Without(q, pid), q)
  {
    if q != [] {
      WithoutKeepsOrder(q[1..], pid);
      var w := Without(q, pid);
      if q[0] == pid {
        assert w == Without(q[1..], pid);
      } else {
        assert w == [q[0]] + Without(q[1..], pid);
        assert w[0] == q[0] && w[1..] == Without(q[1..], pid);
      }
    }
  }

  /** Detaching. An absent pid changes nothing. Otherwise the table loses exactly that
      pid, the queue loses every occurrence of it and keeps the rest in order, and the
      poll is re-registered for the remaining table. */
  lemma DetachEffect(s: State, pid: Pid, env: PollEnv)
    ensures pid !in s.targets ==> DetachStep(s, pid, env) == s && DetachOk(s, pid, env)
    ensures pid in s.targets ==>
      var t := DetachStep(s, pid, env);
      && t.targets.Keys == s.targets.Keys - {pid}
      && (forall q :: q in t.targets ==> t.targets[q] == s.targets[q])
      && pid !in t.buffer
      && multiset(t.buffer) == multiset(s.buffer)[pid := 0]
      && IsSubsequence(t.buffer, s.buffer)
      && (t.poll.Some? <==> DetachOk(s, pid, env))
  {
    WithoutPurges(s.buffer, pid);
  }

  /** Attaching a new pid while there is no poll: with the operating system cooperating,
      a fresh poll is created and watches every attached pid, the new one included. */
  lemma AttachWithoutPoll(s: State, pid: Pid, probe: Result<UprobeHandler>, env: PollEnv)
    requires s.poll.None? && pid !in s.targets && probe.Ok?
    requires env.canCreate && forall p :: p in s.targets || p == pid ==> p !in env.refused
    ensures var t := AttachStep(s, pid, probe, env);
      && AttachOk(s, pid, probe, env)
      && t.targets.Keys == s.targets.Keys + {pid}
      && t.poll == Some(Poll(Tokens(s.targets.Keys + {pid})))
  {
    var u := s.(targets := s.targets[pid := AnalyzeTarget(probe.value)]);
    assert u.targets.Keys == s.targets.Keys + {pid};
    assert RegisterOk(s.poll, s.targets.Keys + {pid}, env);
    assert Registrations(s.poll) + Tokens(u.targets.Keys) == Tokens(s.targets.Keys + {pid});
  }

  /** Attaching a new pid while a live poll watches other targets: the target is
      inserted, but re-registering meets a descriptor the poll already has, so the poll
      is dropped and `attach_app` fails. On an empty live poll it succeeds unless the
      new ring buffer fails. */
  lemma AttachToLivePoll(s: State, pid: Pid, probe: Result<UprobeHandler>, env: PollEnv)
    requires Inv(s) && s.poll.Some? && pid !in s.targets && probe.Ok?
    ensures var t := AttachStep(s, pid, probe, env);
      && pid in t.targets
      && (s.targets != map[] ==> t.poll.None? && !AttachOk(s, pid, probe, env))
      && (s.targets == map[] ==>
            (AttachOk(s, pid, probe, env) <==> pid !in env.refused)
            && (pid !in env.refused ==> t.poll == Some(Poll({PidToken(pid)}))))
  {
    if s.targets != map[] {
      var q :| q in s.targets;
      TokensDecode(s.targets.Keys, q, PidToken(q));
      assert q in s.targets.Keys + {pid};
      assert KeyOutcome(Registrations(s.poll), q, env).Some?;
    } else {
      assert s.targets.Keys == {} && s.targets.Keys + {pid} == {pid};
      assert Tokens({pid}) == {PidToken(pid)};
      assert Registrations(s.poll) == {};
      if pid !in env.refused {
        assert RegisterOk(s.poll, s.targets.Keys + {pid}, env);
        assert Registrations(s.poll) + Tokens(s.targets.Keys + {pid}) == {PidToken(pid)};
        var u := s.(targets := s.targets[pid := AnalyzeTarget(probe.value)]);
        assert u.targets.Keys == s.targets.Keys + {pid};
        assert RegisterStep(u, env).poll == Some(Poll({PidToken(pid)}));
      }
    }
  }

  /** Detaching one of several targets from a live poll: the target's descriptor leaves
      the poll with it, but the others are still there, so re-registering drops the poll
      and `detach_app` fails although the pid is gone. Detaching the last target keeps
      the poll, now empty. */
  lemma DetachFromLivePoll(s: State, pid: Pid, env: PollEnv)
    requires Inv(s) && s.poll.Some? && pid in s.targets
    ensures var t := DetachStep(s, pid, env);
      && pid !in t.targets
      && (s.targets.Keys != {pid} ==> t.poll.None? && !DetachOk(s, pid, env))
      && (s.targets.Keys == {pid} ==> t.poll == Some(Poll({})) && DetachOk(s, pid, env))
  {
    TokensRemove(s.targets.Keys, pid);
    assert Tokens({pid}) == {PidToken(pid)};
    var rest := s.targets.Keys - {pid};
    if rest != {} {
      var q :| q in rest;
      TokensDecode(rest, q, PidToken(q));
      assert KeyOutcome(Registrations(Forget(s.poll, {pid})), q, env).Some?;
    } else {
      assert rest == {} && Tokens(rest) == {};
      assert Forget(s.poll, {pid}) == Some(Poll({}));
      assert RegisterOk(Forget(s.poll, {pid}), rest, env);
      assert Registrations(Forget(s.poll, {pid})) + Tokens(rest) == {};
    }
  }

  /** `detach_apps`: every target and every queued pid goes. The poll object is kept,
      and under the invariant it watches nothing any more, since every watched
      descriptor belonged to a dropped target. */
  function DetachAllStep(s: State): (t: State)
    ensures t.targets == map[] && t.buffer == []
    ensures t.poll.Some? <==> s.poll.Some?
    ensures Inv(s) && s.poll.Some? ==> t.poll == Some(Poll({}))
  {
    assert Inv(s) && s.poll.Some? ==> s.poll.value.registered - Tokens(s.targets.Keys) == {};
    State(Forget(s.poll, s.targets.Keys), map[], [])
  }

  // ---------------------------------------------------------------------------
  // recv, recv_timeout

  /** The pids of the ready events, in the order the poll reported them. */
  function EventPids(ready: seq<Token>): (pids: seq<Pid>)
    ensures |pids| == |ready|
    ensures forall i :: 0 <= i < |ready| ==> pids[i] == EventToPid(ready[i])
  {
    seq(|ready|, i requires 0 <= i < |ready| => EventToPid(ready[i]))
  }

  /** Decoding the tokens of a list of pids gives that list back: a wait that reports
      the tokens of `ps` queues exactly the pids `ps`, in order. */
  lemma EventPidsDecode(ps: seq<Pid>)
    ensures EventPids(seq(|ps|, i requires 0 <= i < |ps| => PidToken(ps[i]))) == ps
  {
    var ts := seq(|ps|, i requires 0 <= i < |ps| => PidToken(ps[i]));
    forall i | 0 <= i < |ps|
      ensures EventPids(ts)[i] == ps[i]
    {
      TokenRoundTrip(ps[i]);
    }
  }

  /** The queue a receive pops from: refilled by one wait on the poll, if there is one,
      only when the queue is empty. */
  function Pending(s: State, ready: seq<Token>): seq<Pid>
  {
    if s.buffer == [] && s.poll.Some? then EventPids(ready) else s.buffer
  }

  /** `recv` / `recv_timeout`, given the tokens the wait reports, what the re-registration
      meets and what the popped target's `update()` yields. */
  function RecvStep(s: State, ready: seq<Token>, env: PollEnv, frame: Option<Duration>)
    : (res: (State, Option<(Pid, Duration)>))
    ensures res.0.targets == s.targets
    ensures s.buffer != [] ==> res.0.poll == s.poll
    ensures res.1.Some? ==> res.1.value.0 in s.targets && frame == Some(res.1.value.1)
  {
    var pending := Pending(s, ready);
    var poll := if s.buffer == [] then RegisterStep(s, env).poll else s.poll;
    if pending == [] then (State(poll, s.targets, []), None)
    else
      var pid := pending[0];
      var frametime := if pid in s.targets && frame.Some? then Some((pid, frame.value)) else None;
      (State(poll, s.targets, pending[1..]), frametime)
  }

  /** One receive. An empty queue with no poll yields nothing. A non-empty queue is
      served without waiting or re-registering. Otherwise exactly the front pid is
      consumed, whether or not it yields a frame time, and the answer names that pid
      only if it is attached and its target produced a duration. */
  lemma RecvEffect(s: State, ready: seq<Token>, env: PollEnv, frame: Option<Duration>)
    ensures var (t, r) := RecvStep(s, ready, env, frame);
      && t.targets == s.targets
      && (s.buffer == [] && s.poll.None? ==> r.None? && t.buffer == [])
      && (s.buffer != [] ==> t.poll == s.poll && t.buffer == s.buffer[1..])
      && (Pending(s, ready) == [] ==> t.buffer == [])
      && (Pending(s, ready) != [] ==> t.buffer == Pending(s, ready)[1..])
      && (r.Some? <==> Pending(s, ready) != [] && Pending(s, ready)[0] in s.targets && frame.Some?)
      && (r.Some? ==> r.value == (Pending(s, ready)[0], frame.value))
  {
  }

  /** When the queue is empty, the poll a wait uses watches exactly the attached
      targets (the invariant), so every pid the wait reports is attached, so a receive
      answers with a frame time whenever some event arrived and the target produced one. */
  lemma {:induction false} RecvFromExactPoll(s: State, ready: seq<Token>, env: PollEnv, frame: Option<Duration>)
    requires Inv(s) && s.buffer == [] && s.poll.Some?
    requires Reported(s.poll.value, ready)
    ensures forall i :: 0 <= i < |ready| ==> Pending(s, ready)[i] in s.targets
    ensures ready != [] && frame.Some? ==> RecvStep(s, ready, env, frame).1 == Some((EventToPid(ready[0]), frame.value))
  {
    forall i | 0 <= i < |ready|
      ensures Pending(s, ready)[i] in s.targets
    {
      TokensDecode(s.targets.Keys, EventToPid(ready[i]), ready[i]);
    }
  }

  /** A receive that waits on a live poll with targets attached drops the poll when it
      re-registers. If the wait left nothing queued, the next receive does not wait at
      all: it answers nothing and only creates a fresh poll watching every target. */
  lemma RecvAfterWaitDropsPoll(s: State, ready: seq<Token>, ready2: seq<Token>, env: PollEnv,
                               frame: Option<Duration>, frame2: Option<Duration>)
    requires Inv(s) && s.buffer == [] && s.poll.Some? && s.targets != map[]
    requires env.canCreate && forall p :: p in s.targets ==> p !in env.refused
    ensures var t := RecvStep(s, ready, env, frame).0;
      && t.poll.None? && t.targets == s.targets
      && (t.buffer == [] ==>
            RecvStep(t, ready2, env, frame2) == (t.(poll := Some(Poll(Tokens(s.targets.Keys)))), None))
  {
    RegisterReusedPoll(s, env);
    var t := RecvStep(s, ready, env, frame).0;
    assert RegisterOk(t.poll, t.targets.Keys, env);
    assert Registrations(t.poll) + Tokens(t.targets.Keys) == Tokens(s.targets.Keys);
  }

  // ---------------------------------------------------------------------------
  // Runs of operations

  datatype Op =
    | AttachOp(pid: Pid, probe: Result<UprobeHandler>, env: PollEnv)
    | DetachOp(pid: Pid, env: PollEnv)
    | DetachAllOp
    | RecvOp(ready: seq<Token>, env: PollEnv, frame: Option<Duration>)

  function Apply(s: State, op: Op): State
  {
    match op
    case AttachOp(pid, probe, env) => AttachStep(s, pid, probe, env)
    case DetachOp(pid, env) => DetachStep(s, pid, env)
    case DetachAllOp => DetachAllStep(s)
    case RecvOp(ready, env, frame) => RecvStep(s, ready, env, frame).0
  }

  function Run(s: State, ops: seq<Op>): State
    decreases |ops|
  {
    if ops == [] then s else Apply(Run(s, ops[..|ops| - 1]), ops[|ops| - 1])
  }

  /** A receive in `ops` is handed at most one wait's worth of events. */
  predicate WaitsBounded(ops: seq<Op>)
  {
    forall i :: 0 <= i < |ops| ==> ops[i].RecvOp? ==> |ops[i].ready| <= EVENT_MAX
  }

  /** Every operation keeps the invariant. */
  lemma ApplyKeepsInv(s: State, op: Op)
    requires Inv(s)
    requires op.RecvOp? ==> |op.ready| <= EVENT_MAX
    ensures Inv(Apply(s, op))
  {
    match op
    case AttachOp(pid, probe, env) => AttachKeepsInv(s, pid, probe, env);
    case DetachOp(pid, env) => DetachKeepsInv(s, pid, env);
    case DetachAllOp =>
    case RecvOp(ready, env, frame) => RegisterKeepsInv(s, env);
  }

  lemma AttachKeepsInv(s: State, pid: Pid, probe: Result<UprobeHandler>, env: PollEnv)
    requires Inv(s)
    ensures Inv(AttachStep(s, pid, probe, env))
  {
    if pid !in s.targets && probe.Ok? {
      var u := s.(targets := s.targets[pid := AnalyzeTarget(probe.value)]);
      assert u.targets.Keys == s.targets.Keys + {pid};
      TokensAdd(s.targets.Keys, pid);
      RegisterKeepsInv(u, env);
    }
  }

  lemma DetachKeepsInv(s: State, pid: Pid, env: PollEnv)
    requires Inv(s)
    ensures Inv(DetachStep(s, pid, env))
  {
    if pid in s.targets {
      TokensRemove(s.targets.Keys, pid);
      assert Tokens({pid}) == {PidToken(pid)};
      RegisterKeepsInv(State(Forget(s.poll, {pid}), s.targets - {pid}, Without(s.buffer, pid)), env);
    }
  }

  lemma {:induction false} RunKeepsInv(s: State, ops: seq<Op>)
    requires Inv(s) && WaitsBounded(ops)
    ensures Inv(Run(s, ops))
    decreases |ops|
  {
    if ops != [] {
      var n := |ops| - 1;
      assert WaitsBounded(ops[..n]) by {
        forall i | 0 <= i < n ensures ops[..n][i] == ops[i] { }
      }
      RunKeepsInv(s, ops[..n]);
      ApplyKeepsInv(Run(s, ops[..n]), ops[n]);
    }
  }

  /** Reference definition of membership after a run: the last operation that names the
      pid decides, a probe that attached meaning attached and a detach meaning detached;
      operations that name other pids, failed probes and receives do not matter, and
      failed poll registrations do not either. */
  function AttachedAfter(initially: set<Pid>, ops: seq<Op>, p: Pid): bool
    decreases |ops|
  {
    if ops == [] then p in initially
    else
      var rest := AttachedAfter(initially, ops[..|ops| - 1], p);
      match ops[|ops| - 1]
      case AttachOp(q, probe, _) => (q == p && probe.Ok?) || rest
      case DetachOp(q, _) => q != p && rest
      case DetachAllOp => false
      case RecvOp(_, _, _) => rest
  }

  /** Whether a pid is attached after any run of operations is exactly the reference
      definition. */
  lemma {:induction false} MembershipFollowsLastOp(s: State, ops: seq<Op>, p: Pid)
    ensures (p in Run(s, ops).targets) == AttachedAfter(s.targets.Keys, ops, p)
    decreases |ops|
  {
    if ops != [] {
      var n := |ops| - 1;
      MembershipFollowsLastOp(s, ops[..n], p);
      var before := Run(s, ops[..n]);
      match ops[n]
      case AttachOp(q, probe, env) => AttachEffect(before, q, probe, env);
      case DetachOp(q, env) => DetachEffect(before, q, env);
      case DetachAllOp =>
      case RecvOp(ready, env, frame) => RecvEffect(before, ready, env, frame);
    }
  }

  // ---------------------------------------------------------------------------
  // The engine object

  class Analyzer {
    var poll: Option<Poll>
    var targets: map<Pid, AnalyzeTarget>
    var buffer: seq<Pid>

    function Abs(): State
      reads this
    {
      State(poll, targets, buffer)
    }

    ghost predicate Valid()
      reads this
    {
      Inv(Abs())
    }

    /** `Analyzer::new`, which always succeeds. */
    constructor ()
      ensures Valid() && Abs() == New()
    {
      poll := None;
      targets := map[];
      buffer := [];
    }

    /** `contains`: the pid is attached, which a poll that exists tells by watching it. */
    function Contains(app: Pid): (b: bool)
      reads this
      ensures b <==> app in Pids()
      ensures Valid() && poll.Some? ==> (b <==> PidToken(app) in poll.value.registered)
    {
      app in targets
    }

    /** `pids`: the attached pids (in no particular order), each registered under its own
        token, and nothing else, in a poll that exists. */
    function Pids(): (ps: set<Pid>)
      reads this
      ensures forall p :: p in ps <==> p in targets
      ensures Valid() && poll.Some? ==> Tokens(ps) == poll.value.registered
      ensures |Tokens(ps)| == |ps|
    {
      TokensCard(targets.Keys);
      targets.Keys
    }

    /** `register_poll`: reuse the poll or create one, register every target's ring buffer
        in turn (a descriptor the poll holds already is refused), and put the poll back
        only if every registration succeeded. */
    method RegisterPoll(env: PollEnv) returns (r: Result<()>)
      modifies this
      ensures Abs() == RegisterStep(old(Abs()), env)
      ensures r.Ok? <==> RegisterOk(old(poll), targets.Keys, env)
      ensures r.Err? ==> RegisterError(old(poll), targets.Keys, env, r.error)
      ensures r.Err? ==> r.error.BpfMapError? || r.error.IOError?
    {
      var p: Poll;
      if poll.Some? {
        p := poll.value;
        poll := None;
      } else if env.canCreate {
        p := Poll({});
      } else {
        return Err(IOError);
      }
      var todo := targets.Keys;
      while todo != {}
        invariant todo <= targets.Keys
        invariant poll.None? && targets == old(targets) && buffer == old(buffer)
        invariant p.registered == Registrations(old(poll)) + Tokens(targets.Keys - todo)
        invariant forall q :: q in targets.Keys - todo ==> KeyOutcome(Registrations(old(poll)), q, env).None?
        decreases todo
      {
        var pid :| pid in todo;
        if pid in env.refused {
          return Err(env.refused[pid]);
        }
        TokensDecode(targets.Keys - todo, pid, PidToken(pid));
        if PidToken(pid) in p.registered {
          return Err(IOError);
        }
        TokensAdd(targets.Keys - todo, pid);
        assert targets.Keys - (todo - {pid}) == (targets.Keys - todo) + {pid};
        p := Poll(p.registered + {PidToken(pid)});
        todo := todo - {pid};
      }
      assert targets.Keys - todo == targets.Keys;
      poll := Some(p);
      r := Ok(());
    }

    /** `attach_app`, given the outcome of attaching the kernel probe to `pid`. */
    method AttachApp(pid: Pid, probe: Result<UprobeHandler>, env: PollEnv) returns (r: Result<()>)
      requires Valid()
      modifies this
      ensures Valid()
      ensures Abs() == AttachStep(old(Abs()), pid, probe, env)
      ensures r.Ok? <==> AttachOk(old(Abs()), pid, probe, env)
      ensures r.Err? && probe.Err? ==> r.error == probe.error
      ensures r.Err? && probe.Ok? ==> RegisterError(old(poll), old(targets).Keys + {pid}, env, r.error)
      ensures r.Err? && probe.Ok? ==> r.error.BpfMapError? || r.error.IOError?
    {
      if pid in targets {
        return Ok(());
      }
      if probe.Err? {
        return Err(probe.error);
      }
      targets := targets[pid := AnalyzeTarget(probe.value)];
      r := RegisterPoll(env);
      ApplyKeepsInv(old(Abs()), AttachOp(pid, probe, env));
    }

    /** `detach_app`: drop the target (its descriptor leaves the poll), purge its pid from
        the queue, re-register. */
    method DetachApp(pid: Pid, env: PollEnv) returns (r: Result<()>)
      requires Valid()
      modifies this
      ensures Valid()
      ensures Abs() == DetachStep(old(Abs()), pid, env)
      ensures r.Ok? <==> DetachOk(old(Abs()), pid, env)
      ensures r.Err? ==> RegisterError(Forget(old(poll), {pid}), old(targets).Keys - {pid}, env, r.error)
      ensures r.Err? ==> r.error.BpfMapError? || r.error.IOError?
    {
      if pid !in targets {
        return Ok(());
      }
      targets := targets - {pid};
      poll := Forget(poll, {pid});
      buffer := Without(buffer, pid);
      r := RegisterPoll(env);
      ApplyKeepsInv(old(Abs()), DetachOp(pid, env));
    }

    /** `detach_apps`: drop every target (their descriptors leave the poll). */
    method DetachApps()
      requires Valid()
      modifies this
      ensures Valid()
      ensures Abs() == DetachAllStep(old(Abs()))
    {
      poll := Forget(poll, targets.Keys);
      targets := map[];
      buffer := [];
    }

    /** `recv`: `ready` is what the blocking wait reports, `env` what the re-registration
        meets, and `frame` what the popped target's `update()` returns. */
    method Recv(ready: seq<Token>, env: PollEnv, frame: Option<Duration>) returns (r: Option<(Pid, Duration)>)
      requires Valid()
      requires poll.Some? ==> Reported(poll.value, ready)
      modifies this
      ensures Valid()
      ensures (Abs(), r) == RecvStep(old(Abs()), ready, env, frame)
    {
      ghost var s := Abs();
      ghost var step := RecvStep(s, ready, env, frame);
      RegisterKeepsInv(s, env);
      if buffer == [] {
        if poll.Some? {
          buffer := buffer + EventPids(ready);
        }
        assert buffer == Pending(s, ready);
        var registered := RegisterPoll(env);
        assert poll == RegisterStep(s, env).poll;
      }
      assert poll == step.0.poll && targets == step.0.targets;
      assert buffer == Pending(s, ready);
      if buffer == [] {
        return None;
      }
      var pid := buffer[0];
      buffer := buffer[1..];
      assert Abs() == step.0;
      if pid !in targets || frame.None? {
        return None;
      }
      r := Some((pid, frame.value));
    }

    /** `recv_timeout`: `recv` with the wait bounded by `time`; the bound only limits
        how long the wait may take, which the `ready` oracle stands for. */
    method RecvTimeout(time: Duration, ready: seq<Token>, env: PollEnv, frame: Option<Duration>)
      returns (r: Option<(Pid, Duration)>)
      requires Valid()
      requires poll.Some? ==> Reported(poll.value, ready)
      modifies this
      ensures Valid()
      ensures (Abs(), r) == RecvStep(old(Abs()), ready, env, frame)
    {
      r := Recv(ready, env, frame);
    }
  }
}
