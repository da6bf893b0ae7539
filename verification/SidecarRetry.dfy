/**
 The STA side of the sidecar (com/server.rs, com/exe_server.rs, com/classify_rpc_error.rs): activation, and the call
 that survives one stale pipe; with what each does to the machine of PipeMachine when nothing interleaves.
 */
module SidecarRetry {
  import opened Prelude
  import opened PipeMachine

  datatype IoKind = BrokenPipe | ConnectionAborted | UnexpectedEof | NotConnected | OtherKind(code: nat)

  datatype ClientError =
    | Timeout | Io(kind: IoKind) | Json | VaultLocked | NoCredentials | ClientUnauthorized | UnsupportedAlgorithm
    | CredentialExcluded | InvalidOption | InvalidRequest(reason: string) | Internal(message: string)
    | RpcError(code: int, message: string)

  type Reply = Result<string, ClientError>

  datatype RpcErrorClass = StaleClass | OtherClass

  function ClassifyRpcError(err: ClientError): RpcErrorClass
  {
    match err
    case Io(BrokenPipe) => StaleClass
    case Io(ConnectionAborted) => StaleClass
    case _ => OtherClass
  }

  predicate IsStale(r: Reply)
  {
    r.Err? && ClassifyRpcError(r.error) == StaleClass
  }

  /** How connect_and_handshake ends: no pipe, a pipe whose hello failed and is dropped, or a usable pipe. */
  datatype Conn = NoPipe(e: ClientError) | Refusal(q: PipeId, why: ClientError) | Usable(p: PipeId)

  /** What the world answers during one call: to the first send, to the reconnect, to the second send. */
  datatype World = World(first: Reply, conn: Conn, second: Reply)

  /** What the plugin's side of the pipe sees, in order. */
  datatype Act = Send(pipe: PipeId, rpc: string, params: string) | DropPipe(dead: PipeId) | Connect(session: nat)

  class AuthenticatorState {
    const sessionId: nat
    var pipe: Option<PipeId>

    constructor (sessionId: nat, pipe: Option<PipeId>)
      ensures this.sessionId == sessionId && this.pipe == pipe
    {
      this.sessionId, this.pipe := sessionId, pipe;
    }
  }

  class Sidecar {
    var shared: AuthenticatorState?
    ghost var log: seq<Act>

    constructor ()
      ensures shared == null && log == []
    {
      shared, log := null, [];
    }

    /** clear_slot on SHARED_STATE. */
    method ClearSharedState()
      modifies this
      ensures shared == null && log == old(log)
    {
      shared := null;
    }

    method ConnectAndHandshake(sessionId: nat, conn: Conn) returns (r: Result<PipeId, ClientError>)
      modifies this`log
      ensures r == match conn case NoPipe(e) => Err(e) case Refusal(_, e) => Err(e) case Usable(p) => Ok(p)
      ensures log == old(log) + ConnectLog(sessionId, conn)
    {
      log := log + [Connect(sessionId)];
      match conn {
        case NoPipe(e) => return Err(e);
        case Refusal(q, e) =>
          log := log + [DropPipe(q)];
          return Err(e);
        case Usable(p) => return Ok(p);
      }
    }

    /** `spawned` says whether the startup reconciliation was started. */
    method CfCreateInstance(sessionId: nat, conn: Conn) returns (state: AuthenticatorState, spawned: bool)
      modifies this
      ensures old(shared) != null ==> state == old(shared) == shared && !spawned && log == old(log)
      ensures old(shared) == null ==>
        && fresh(state) && state.sessionId == sessionId && spawned == conn.Usable?
        && state.pipe == (if conn.Usable? then Some(conn.p) else None)
        && shared == (if conn.Usable? then state else null)
        && log == old(log) + ConnectLog(sessionId, conn)
    {
      if shared != null {
        return shared, false;
      }
      var pipe := ConnectAndHandshake(sessionId, conn);
      state := new AuthenticatorState(sessionId, if pipe.Ok? then Some(pipe.value) else None);
      spawned := false;
      if state.pipe.Some? {
        shared := state;
        spawned := true;
      }
    }

    method TakeCallWithRetry(state: AuthenticatorState, rpc: string, params: string, w: World) returns (r: Option<Reply>)
      modifies this, state
      ensures match old(state.pipe)
              case None => r == None && state.pipe == None && shared == old(shared) && log == old(log)
              case Some(p) =>
                var o := Retry(p, state.sessionId, rpc, params, w);
                && r == Some(o.reply) && state.pipe == o.pipe && log == old(log) + o.log
                && shared == if o.pipe.Some? then old(shared) else null
    {
      var taken := state.pipe;
      state.pipe := None;
      if taken.None? {
        return None;
      }
      var p := taken.value;
      log := log + [Send(p, rpc, params)];
      var r1 := w.first;
      if !IsStale(r1) {
        state.pipe := Some(p);
        return Some(r1);
      }
      log := log + [DropPipe(p)];
      var reconnected := ConnectAndHandshake(state.sessionId, w.conn);
      if reconnected.Ok? {
        log := log + [Send(reconnected.value, rpc, params)];
        state.pipe := Some(reconnected.value);
        return Some(w.second);
      }
      ClearSharedState();
      return Some(Err(reconnected.error));
    }
  }

  function ConnectLog(sessionId: nat, conn: Conn): seq<Act>
  {
    [Connect(sessionId)] + if conn.Refusal? then [DropPipe(conn.q)] else []
  }

  /** The reply, the pipe left in the state (None: the slot is cleared), and the pipe traffic. */
  datatype Outcome = Outcome(reply: Reply, pipe: Option<PipeId>, log: seq<Act>)

  function Retry(p: PipeId, session: nat, rpc: string, params: string, w: World): Outcome
  {
    if !IsStale(w.first) then Outcome(w.first, Some(p), [Send(p, rpc, params)])
    else
      var log := [Send(p, rpc, params), DropPipe(p)] + ConnectLog(session, w.conn);
      match w.conn
      case NoPipe(e) => Outcome(Err(e), None, log)
      case Refusal(_, e) => Outcome(Err(e), None, log)
      case Usable(q) => Outcome(w.second, Some(q), log + [Send(q, rpc, params)])
  }

  // -- what a dispatch can rely on -------------------------------------------------------------------

  function Sends(log: seq<Act>): nat { if log == [] then 0 else Sends(log[1..]) + if log[0].Send? then 1 else 0 }
  function Connects(log: seq<Act>): nat { if log == [] then 0 else Connects(log[1..]) + if log[0].Connect? then 1 else 0 }

  lemma {:induction false} CountSnoc(log: seq<Act>, a: Act)
    ensures Sends(log + [a]) == Sends(log) + if a.Send? then 1 else 0
    ensures Connects(log + [a]) == Connects(log) + if a.Connect? then 1 else 0
  {
    if log == [] {
      assert log + [a] == [a] && [a][1..] == [];
    } else {
      CountSnoc(log[1..], a);
      assert (log + [a])[1..] == log[1..] + [a];
    }
  }

  /** The two errors of a named pipe whose other end is gone; no other is taken for it. */
  predicate PipeGone(r: Reply)
  {
    r == Err(Io(BrokenPipe)) || r == Err(Io(ConnectionAborted))
  }

  lemma StaleIff(r: Reply)
    ensures IsStale(r) <==> PipeGone(r)
  {}

  /**
   At most two sends, alike but for the pipe; a connect exactly when the first send found the pipe gone, and right after
   that pipe was dropped; a second send exactly when the connect gave a usable pipe. The reply is that of the last send, or
   the error of the connect; the pipe kept is the one last sent on.
   */
  lemma RetryDiscipline(p: PipeId, session: nat, rpc: string, params: string, w: World)
    ensures var o, gone := Retry(p, session, rpc, params, w), PipeGone(w.first);
      && 1 <= Sends(o.log) <= 2 && Connects(o.log) <= 1 && o.log[0] == Send(p, rpc, params)
      && |o.log| == (if !gone then 1 else if w.conn.NoPipe? then 3 else 4)
      && (forall i :: 0 <= i < |o.log| && o.log[i].Send? ==> o.log[i].rpc == rpc && o.log[i].params == params)
      && (Connects(o.log) == 1 <==> gone) && (Sends(o.log) == 2 <==> gone && w.conn.Usable?)
      && (forall i :: 0 <= i < |o.log| && o.log[i].Connect? ==> 0 < i && o.log[i - 1] == DropPipe(p) && o.log[i] == Connect(session))
      && (o.pipe.Some? ==> o.log[|o.log| - 1] == Send(o.pipe.value, rpc, params))
      && o.pipe == (if !gone then Some(p) else if w.conn.Usable? then Some(w.conn.p) else None)
      && (!gone ==> o.reply == w.first)
      && (gone && w.conn.Usable? ==> o.reply == w.second)
      && (o.pipe.None? ==> o.reply == Err(if w.conn.NoPipe? then w.conn.e else w.conn.why))
      && (gone && w.conn.Refusal? ==> o.log[|o.log| - 1] == DropPipe(w.conn.q))
  {
    var s, d, c := Send(p, rpc, params), DropPipe(p), Connect(session);
    CountSnoc([], s);
    CountSnoc([s], d);
    CountSnoc([s, d], c);
    assert [] + [s] == [s] && [s] + [d] == [s, d] && [s, d] + [c] == [s, d, c];
    match w.conn {
      case NoPipe(_) =>
        assert [s, d] + ConnectLog(session, w.conn) == [s, d, c];
      case Refusal(q, _) =>
        CountSnoc([s, d, c], DropPipe(q));
        assert [s, d] + ConnectLog(session, w.conn) == [s, d, c] + [DropPipe(q)];
      case Usable(q) =>
        CountSnoc([s, d, c], Send(q, rpc, params));
        assert [s, d] + ConnectLog(session, w.conn) == [s, d, c];
    }
  }

  /** The stored pipe either works and carries the plugin's answer, or is dead and reports some error. */
  datatype Link = Alive | Dead(error: ClientError)

  /** A reachable plugin: its answer comes back over a live link, and over any new connection. */
  predicate Reachable(w: World, link: Link, answer: Reply)
  {
    && !IsStale(answer)
    && w.first == (match link case Alive => answer case Dead(e) => Err(e))
    && w.conn.Usable? && w.second == answer
  }

  /** A send that ends in end-of-file is not taken for stale: the answer is lost and that call keeps the dead pipe. */
  lemma EofIsNotHealed(p: PipeId, q: PipeId, session: nat)
    ensures var w := World(Err(Json), Usable(q), Ok("{}"));
      && Reachable(w, Dead(Json), Ok("{}"))
      && Retry(p, session, "m", "{}", w).reply == Err(Json) && Retry(p, session, "m", "{}", w).pipe == Some(p)
  {}

  // -- the same call as moves of the machine ---------------------------------------------------------------

  function Moves(m: Machine, mvs: seq<Move>): Option<Machine>
    decreases |mvs|
  {
    if mvs == [] then Some(m)
    else match Next(m, mvs[0]) case None => None case Some(m') => Moves(m', mvs[1..])
  }

  lemma MovesCons(m: Machine, mv: Move, mvs: seq<Move>)
    ensures Moves(m, [mv] + mvs) == match Next(m, mv) case None => None case Some(m') => Moves(m', mvs)
  {
    assert ([mv] + mvs)[1..] == mvs;
  }

  function ReportOf(r: Reply): Report { if IsStale(r) then Stale else Answered }

  /** The moves a call makes on its own: after the take, its future's reports, then the settling on the STA thread. */
  function Reports(w: World): seq<Report>
  {
    if !IsStale(w.first) then [Answered] + []
    else match w.conn
      case NoPipe(_) => [Stale] + ([Unreachable] + [])
      case Refusal(_, _) => [Stale] + ([Connected] + ([Refused] + []))
      case Usable(_) => [Stale] + ([Connected] + ([Greeted] + ([ReportOf(w.second)] + [])))
  }

  function Advances(rs: seq<Report>): seq<Move>
  {
    if rs == [] then [Settle] else [Advance(0, rs[0])] + Advances(rs[1..])
  }

  /** Names of new connections agree with the machine's. */
  predicate Named(m: Machine, w: World)
  {
    match w.conn case NoPipe(_) => true case Refusal(q, _) => q == m.next case Usable(q) => q == m.next
  }

  /** A future's reports in sequence; only the connections change. */
  function Phases(m: Machine, ph: Phase, rs: seq<Report>): Option<(Machine, Phase)>
    decreases |rs|
  {
    if rs == [] then Some((m, ph))
    else match NextPhase(m, ph, rs[0])
      case None => None
      case Some((m', ph')) => Phases(m', ph', rs[1..])
  }

  lemma {:induction false} AdvancesArePhases(m: Machine, s: StateId, ph: Phase, rs: seq<Report>)
    requires m.stack == [Dispatch(s, ph)]
    ensures Moves(m, Advances(rs)) ==
            (match Phases(m, ph, rs)
             case None => None
             case Some((m', ph')) => Next(m'.(stack := [Dispatch(s, ph')]), Settle))
    decreases |rs|
  {
    if rs == [] {
      assert [Settle] == [Settle] + [];
      MovesCons(m, Settle, []);
    } else {
      MovesCons(m, Advance(0, rs[0]), Advances(rs[1..]));
      var step := NextPhase(m, ph, rs[0]);
      if step.Some? {
        var m' := step.value.0.(stack := [Dispatch(s, step.value.1)]);
        assert m.stack[0 := Dispatch(s, step.value.1)] == m'.stack;
        assert Next(m, Advance(0, rs[0])) == Some(m');
        AdvancesArePhases(m', s, step.value.1, rs[1..]);
        PhasesIgnoreStack(step.value.0, m'.stack, step.value.1, rs[1..]);
      }
    }
  }

  lemma {:induction false} PhasesIgnoreStack(m: Machine, stack: seq<Frame>, ph: Phase, rs: seq<Report>)
    ensures Phases(m.(stack := stack), ph, rs) ==
            (match Phases(m, ph, rs) case None => None case Some((m', ph')) => Some((m'.(stack := stack), ph')))
    decreases |rs|
  {
    if rs != [] {
      var step := NextPhase(m, ph, rs[0]);
      if step.Some? { PhasesIgnoreStack(step.value.0, stack, step.value.1, rs[1..]); }
    }
  }

  /** Where the future ends: with the pipe the code keeps, and no other connection. */
  lemma PhasesOfCall(m: Machine, p: PipeId, session: nat, rpc: string, params: string, w: World)
    requires Named(m, w) && m.open == {p} && p < m.next
    ensures var o := Retry(p, session, rpc, params, w);
      match Phases(m, Calling(p), Reports(w))
      case None => false
      case Some((m', ph)) => ph == Finished(o.pipe) && m' == m.(open := m'.open, next := m'.next)
                             && m'.open == if o.pipe.Some? then {o.pipe.value} else {}
  {
    hide Phases;
    PhasesCons(m, Calling(p), Answered, []);
    if IsStale(w.first) {
      var m1, m2 := Close(m, p), Open(Close(m, p));
      var q, last := m.next, ReportOf(w.second);
      PhasesCons(m, Calling(p), Stale, [Unreachable] + []);
      PhasesCons(m1, Dropped, Unreachable, []);
      PhasesCons(m, Calling(p), Stale, [Connected] + ([Refused] + []));
      PhasesCons(m1, Dropped, Connected, [Refused] + []);
      PhasesCons(m2, Shaking(q), Refused, []);
      PhasesCons(m, Calling(p), Stale, [Connected] + ([Greeted] + ([last] + [])));
      PhasesCons(m1, Dropped, Connected, [Greeted] + ([last] + []));
      PhasesCons(m2, Shaking(q), Greeted, [last] + []);
      PhasesCons(m2, Recalling(q), last, []);
      assert m1.open == {};
    }
  }

  lemma PhasesCons(m: Machine, ph: Phase, r: Report, rs: seq<Report>)
    ensures Phases(m, ph, []) == Some((m, ph))
    ensures Phases(m, ph, [r] + rs) == (match NextPhase(m, ph, r) case None => None case Some((m', ph')) => Phases(m', ph', rs))
    ensures match NextPhase(m, ph, r) case None => true case Some((m', ph')) => Phases(m', ph', []) == Some((m', ph'))
  {
    assert ([r] + rs)[1..] == rs;
  }

  /** The call of the code is a run of the machine and leaves the same pipe and the same slot. */
  lemma CallIsMachineRun(m: Machine, s: StateId, session: nat, rpc: string, params: string, w: World)
    requires Inv(m) && m.stack == [] && s < |m.pipes| && m.pipes[s].Some? && Named(m, w)
    ensures var o, end := Retry(m.pipes[s].value, session, rpc, params, w), Moves(m, [Take(s)] + Advances(Reports(w)));
      && m.slot == Some(s) && end.Some? && end.value.stack == []
      && end.value.pipes == m.pipes[s := o.pipe]
      && end.value.slot == (if o.pipe.Some? then Some(s) else None)
      && end.value.open == (if o.pipe.Some? then {o.pipe.value} else {})
  {
    hide Phases, Advances, Reports, NextPhase;
    var h := HolderOf(m);
    assert h == InState(s);
    var p := m.pipes[s].value;
    MovesCons(m, Take(s), Advances(Reports(w)));
    var m1 := Next(m, Take(s)).value;
    AdvancesArePhases(m1, s, Calling(p), Reports(w));
    PhasesOfCall(m1, p, session, rpc, params, w);
  }

  /** The moves of an activation that nothing interleaves with, on an empty slot. */
  function ActMoves(conn: Conn): seq<Move>
  {
    match conn
    case NoPipe(_) => [Activate] + ([ActAdvance(Unreachable)] + ([ActFinish] + []))
    case Refusal(_, _) => [Activate] + ([ActAdvance(Connected)] + ([ActAdvance(Refused)] + ([ActFinish] + [])))
    case Usable(_) => [Activate] + ([ActAdvance(Connected)] + ([ActAdvance(Greeted)] + ([ActFinish] + [])))
  }

  /**
   The activation of the code is a run of the machine: a shared state is reused, otherwise a new state is made, and shared
   and given a reconciliation task exactly when its pipe is usable.
   */
  lemma ActivationIsMachineRun(m: Machine, conn: Conn)
    requires Inv(m) && m.stack == []
    requires match conn case NoPipe(_) => true case Refusal(q, _) => q == m.next case Usable(q) => q == m.next
    ensures m.slot.Some? ==> Moves(m, [Activate] + []) == Some(m)
    ensures m.slot.None? ==>
      var end, pipe := Moves(m, ActMoves(conn)), if conn.Usable? then Some(conn.p) else None;
      && end.Some? && end.value.stack == [] && end.value.pipes == m.pipes + [pipe]
      && end.value.slot == (if pipe.Some? then Some(|m.pipes|) else None)
      && end.value.tasks == (if pipe.Some? then m.tasks + [Spawned(|m.pipes|)] else m.tasks)
      && end.value.open == (if pipe.Some? then {pipe.value} else {})
  {
    hide Next;
    var h := HolderOf(m);
    if m.slot.Some? {
      MovesCons(m, Activate, []);
      assert Next(m, Activate) == Some(m) by { Reused(m); }
    } else {
      FreshActivation(m, h, conn);
    }
  }

  lemma Reused(m: Machine)
    requires m.slot.Some? && m.stack == []
    ensures Next(m, Activate) == Some(m)
  {}

  lemma FreshActivation(m: Machine, h: Holder, conn: Conn)
    requires Held(m, h) && m.stack == [] && m.slot.None?
    requires match conn case NoPipe(_) => true case Refusal(q, _) => q == m.next case Usable(q) => q == m.next
    ensures var end, pipe := Moves(m, ActMoves(conn)), if conn.Usable? then Some(conn.p) else None;
      && end.Some? && end.value.stack == [] && end.value.pipes == m.pipes + [pipe]
      && end.value.slot == (if pipe.Some? then Some(|m.pipes|) else None)
      && end.value.tasks == (if pipe.Some? then m.tasks + [Spawned(|m.pipes|)] else m.tasks)
      && end.value.open == (if pipe.Some? then {pipe.value} else {})
  {
    hide Moves, Held;
    assert m.open == {} by { NobodyHolds(m, h); }
    var m1 := Next(m, Activate).value;
    assert m1 == m.(stack := [ActConnecting]) by { assert m.stack + [ActConnecting] == [ActConnecting]; }
    Finishes(m, None);
    match conn {
      case NoPipe(_) =>
        MovesCons(m, Activate, [ActAdvance(Unreachable)] + ([ActFinish] + []));
        MovesCons(m1, ActAdvance(Unreachable), [ActFinish] + []);
        assert m1.stack[0 := ActReady(None)] == [ActReady(None)];
      case Refusal(q, _) =>
        MovesCons(m, Activate, [ActAdvance(Connected)] + ([ActAdvance(Refused)] + ([ActFinish] + [])));
        Connects1(m, m1, [ActAdvance(Refused)] + ([ActFinish] + []));
        var m2 := Open(m).(stack := [ActShaking(q)]);
        MovesCons(m2, ActAdvance(Refused), [ActFinish] + []);
        assert m2.stack[0 := ActReady(None)] == [ActReady(None)] && m2.open - {q} == {};
        Finishes(Close(Open(m), q), None);
      case Usable(q) =>
        MovesCons(m, Activate, [ActAdvance(Connected)] + ([ActAdvance(Greeted)] + ([ActFinish] + [])));
        Connects1(m, m1, [ActAdvance(Greeted)] + ([ActFinish] + []));
        var m2 := Open(m).(stack := [ActShaking(q)]);
        MovesCons(m2, ActAdvance(Greeted), [ActFinish] + []);
        assert m2.stack[0 := ActReady(Some(q))] == [ActReady(Some(q))];
        Finishes(Open(m), Some(q));
    }
  }

  lemma NobodyHolds(m: Machine, h: Holder)
    requires Held(m, h) && m.stack == [] && m.slot.None?
    ensures m.open == {}
  {}

  lemma Connects1(m: Machine, m1: Machine, mvs: seq<Move>)
    requires m1 == m.(stack := [ActConnecting])
    ensures Moves(m1, [ActAdvance(Connected)] + mvs) == Moves(Open(m).(stack := [ActShaking(m.next)]), mvs)
  {
    hide Moves;
    MovesCons(m1, ActAdvance(Connected), mvs);
    assert m1.stack[0 := ActShaking(m.next)] == [ActShaking(m.next)];
  }

  lemma Finishes(m: Machine, pipe: Option<PipeId>)
    ensures var end, id := Moves(m.(stack := [ActReady(pipe)]), [ActFinish] + []), |m.pipes|;
      end == Some(m.(stack := [], pipes := m.pipes + [pipe], slot := if pipe.Some? then Some(id) else m.slot,
                     tasks := if pipe.Some? then m.tasks + [Spawned(id)] else m.tasks))
  {
    var r := m.(stack := [ActReady(pipe)]);
    MovesCons(r, ActFinish, []);
    assert r.stack[..0] == [];
  }
}
