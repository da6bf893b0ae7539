/**
 The sidecar's one pipe, over every interleaving of COM activations and dispatches on the STA thread with the tokio
 tasks that carry their calls and the startup reconciliation (com/exe_server.rs, com/server.rs).
 */
module PipeMachine {
  import opened Prelude

  type PipeId = nat
  type StateId = nat

  /** Where a dispatch's future stands; it runs on a worker while the STA thread waits and pumps messages. */
  datatype Phase =
    | Calling(p: PipeId)
    | Dropped              // stale: the old pipe is closed, a reconnect is due
    | Shaking(p: PipeId)   // reconnected, hello in flight
    | Recalling(p: PipeId)
    | Finished(pipe: Option<PipeId>)

  /** A waiting STA call. An activation blocks without pumping. */
  datatype Frame =
    | Dispatch(s: StateId, phase: Phase)
    | ActConnecting
    | ActShaking(p: PipeId)
    | ActReady(pipe: Option<PipeId>)

  datatype Task = Spawned(s: StateId) | Holding(s: StateId, p: PipeId) | Ended

  /**
   `pipes[s]` is the pipe field of authenticator state `s`, `slot` is SHARED_STATE, `open` the connections the plugin
   sees, `next` a bound on their names.
   */
  datatype Machine = Machine(pipes: seq<Option<PipeId>>, slot: Option<StateId>, stack: seq<Frame>, tasks: seq<Task>,
                             open: set<PipeId>, next: PipeId)

  const INITIAL := Machine([], None, [], [], {}, 0)

  /** What one step of a future or of an activation may report. */
  datatype Report = Answered | Stale | Unreachable | Connected | Greeted | Refused

  datatype Move =
    | Activate                       // cf_create_instance reads the slot
    | ActAdvance(r: Report)          // its connect_and_handshake goes on
    | ActFinish                      // it stores the new state
    | Take(s: StateId)               // a dispatch on an object holding state s
    | Advance(k: nat, r: Report)     // the future of frame k goes on
    | Settle                         // the STA thread stores the pipe back or clears the slot
    | TaskTake(t: nat)               // reconciliation borrows the pipe
    | TaskReturn(t: nat)

  /** COM can deliver a call only while the STA thread is idle or pumps inside a dispatch. */
  predicate Pumping(m: Machine)
  {
    m.stack == [] || m.stack[|m.stack| - 1].Dispatch?
  }

  function Top(m: Machine): Frame
    requires m.stack != []
  {
    m.stack[|m.stack| - 1]
  }

  function SetTop(m: Machine, f: Frame): Machine
    requires m.stack != []
  {
    m.(stack := m.stack[|m.stack| - 1 := f])
  }

  function Pop(m: Machine): Machine
    requires m.stack != []
  {
    m.(stack := m.stack[..|m.stack| - 1])
  }

  function Open(m: Machine): Machine
  {
    m.(open := m.open + {m.next}, next := m.next + 1)
  }

  function Close(m: Machine, p: PipeId): Machine
  {
    m.(open := m.open - {p})
  }

  /** Assigning a pipe field drops, and so closes, the pipe it held. */
  function StorePipe(m: Machine, s: StateId, p: Option<PipeId>): Machine
    requires s < |m.pipes|
  {
    var m' := if m.pipes[s].Some? then Close(m, m.pipes[s].value) else m;
    m'.(pipes := m.pipes[s := p])
  }

  function NextActivate(m: Machine): Machine
  {
    if m.slot.Some? then m else m.(stack := m.stack + [ActConnecting])
  }

  function NextActAdvance(m: Machine, r: Report): Option<Machine>
    requires m.stack != []
  {
    match (Top(m), r)
    case (ActConnecting, Unreachable) => Some(SetTop(m, ActReady(None)))
    case (ActConnecting, Connected) => Some(SetTop(Open(m), ActShaking(m.next)))
    case (ActShaking(p), Greeted) => Some(SetTop(m, ActReady(Some(p))))
    case (ActShaking(p), Refused) => Some(SetTop(Close(m, p), ActReady(None)))
    case _ => None
  }

  /** Only a state whose handshake worked is shared; it also gets a reconciliation task. */
  function NextActFinish(m: Machine): Option<Machine>
    requires m.stack != []
  {
    match Top(m)
    case ActReady(pipe) =>
      var id := |m.pipes|;
      var m' := Pop(m).(pipes := m.pipes + [pipe]);
      Some(if pipe.Some? then m'.(slot := Some(id), tasks := m.tasks + [Spawned(id)]) else m')
    case _ => None
  }

  /** The pipe moves from the state into the call; a state without one answers at once. */
  function NextTake(m: Machine, s: StateId): Machine
    requires s < |m.pipes|
  {
    match m.pipes[s]
    case None => m
    case Some(p) => m.(pipes := m.pipes[s := None], stack := m.stack + [Dispatch(s, Calling(p))])
  }

  function NextPhase(m: Machine, ph: Phase, r: Report): Option<(Machine, Phase)>
  {
    match (ph, r)
    case (Calling(p), Answered) => Some((m, Finished(Some(p))))
    case (Calling(p), Stale) => Some((Close(m, p), Dropped))
    case (Dropped, Unreachable) => Some((m, Finished(None)))
    case (Dropped, Connected) => Some((Open(m), Shaking(m.next)))
    case (Shaking(p), Greeted) => Some((m, Recalling(p)))
    case (Shaking(p), Refused) => Some((Close(m, p), Finished(None)))
    case (Recalling(p), Answered) => Some((m, Finished(Some(p))))
    case (Recalling(p), Stale) => Some((m, Finished(Some(p))))
    case _ => None
  }

  function NextAdvance(m: Machine, k: nat, r: Report): Option<Machine>
  {
    if k < |m.stack| && m.stack[k].Dispatch? then
      match NextPhase(m, m.stack[k].phase, r)
      case None => None
      case Some((m', ph)) => Some(m'.(stack := m.stack[k := Dispatch(m.stack[k].s, ph)]))
    else None
  }

  function NextSettle(m: Machine): Option<Machine>
    requires m.stack != []
  {
    match Top(m)
    case Dispatch(s, Finished(pipe)) =>
      if s >= |m.pipes| then None
      else Some(if pipe.Some? then StorePipe(Pop(m), s, pipe) else Pop(m).(slot := None))
    case _ => None
  }

  function NextTaskTake(m: Machine, t: nat): Option<Machine>
  {
    if t < |m.tasks| && m.tasks[t].Spawned? && m.tasks[t].s < |m.pipes| then
      var s := m.tasks[t].s;
      match m.pipes[s]
      case None => Some(m.(tasks := m.tasks[t := Ended]))
      case Some(p) => Some(m.(pipes := m.pipes[s := None], tasks := m.tasks[t := Holding(s, p)]))
    else None
  }

  function NextTaskReturn(m: Machine, t: nat): Option<Machine>
  {
    if t < |m.tasks| && m.tasks[t].Holding? && m.tasks[t].s < |m.pipes| then
      Some(StorePipe(m, m.tasks[t].s, Some(m.tasks[t].p)).(tasks := m.tasks[t := Ended]))
    else None
  }

  /** None when the move cannot happen. */
  function Next(m: Machine, mv: Move): Option<Machine>
  {
    match mv
    case Activate => if Pumping(m) then Some(NextActivate(m)) else None
    case ActAdvance(r) => if m.stack != [] then NextActAdvance(m, r) else None
    case ActFinish => if m.stack != [] then NextActFinish(m) else None
    case Take(s) => if Pumping(m) && s < |m.pipes| then Some(NextTake(m, s)) else None
    case Advance(k, r) => NextAdvance(m, k, r)
    case Settle => if m.stack != [] then NextSettle(m) else None
    case TaskTake(t) => NextTaskTake(m, t)
    case TaskReturn(t) => NextTaskReturn(m, t)
  }

  // -- who has the pipe -------------------------------------------------------------------------

  /** The one place that has the pipe or the right to (re)connect it. */
  datatype Holder = Nobody | InState(s: StateId) | InFrame(k: nat) | InTask(t: nat)

  function PipeOf(f: Frame): Option<PipeId>
  {
    match f
    case Dispatch(_, Calling(p)) => Some(p)
    case Dispatch(_, Dropped) => None
    case Dispatch(_, Shaking(p)) => Some(p)
    case Dispatch(_, Recalling(p)) => Some(p)
    case Dispatch(_, Finished(pipe)) => pipe
    case ActConnecting => None
    case ActShaking(p) => Some(p)
    case ActReady(pipe) => pipe
  }

  function HeldPipe(m: Machine, h: Holder): Option<PipeId>
  {
    match h
    case Nobody => None
    case InState(s) => if s < |m.pipes| then m.pipes[s] else None
    case InFrame(k) => if k < |m.stack| then PipeOf(m.stack[k]) else None
    case InTask(t) => if t < |m.tasks| && m.tasks[t].Holding? then Some(m.tasks[t].p) else None
  }

  /** The state the holder acts for. */
  function HeldState(m: Machine, h: Holder): Option<StateId>
  {
    match h
    case Nobody => None
    case InState(s) => Some(s)
    case InFrame(k) => if k < |m.stack| && m.stack[k].Dispatch? then Some(m.stack[k].s) else None
    case InTask(t) => if t < |m.tasks| && m.tasks[t].Holding? then Some(m.tasks[t].s) else None
  }

  ghost predicate Held(m: Machine, h: Holder)
  {
    && (forall s :: 0 <= s < |m.pipes| ==> (m.pipes[s].Some? <==> h == InState(s)))
    && (forall k :: 0 <= k < |m.stack| ==> h == InFrame(k))
    && (forall t :: 0 <= t < |m.tasks| ==> (m.tasks[t].Holding? <==> h == InTask(t)))
    && (h.InState? ==> h.s < |m.pipes|) && (h.InFrame? ==> h.k < |m.stack|) && (h.InTask? ==> h.t < |m.tasks|)
    && m.slot == HeldState(m, h)
    && m.open == (if HeldPipe(m, h).Some? then {HeldPipe(m, h).value} else {})
    && (forall p :: p in m.open ==> p < m.next)
    && (forall s :: m.slot == Some(s) ==> s < |m.pipes|)
    && (forall t :: 0 <= t < |m.tasks| && m.tasks[t].Spawned? ==> m.tasks[t].s < |m.pipes|)
  }

  ghost predicate Inv(m: Machine)
  {
    exists h :: Held(m, h)
  }

  /** At most one STA call ever waits: a re-entrant one finds no pipe, or the shared state, and goes on at once. */
  lemma OneFrame(m: Machine, h: Holder)
    requires Held(m, h)
    ensures |m.stack| <= 1 && (m.stack != [] ==> h == InFrame(0))
  {
    var first: nat, second: nat := 0, 1;
    assert |m.stack| > first ==> h == InFrame(first);
    assert |m.stack| > second ==> h == InFrame(second);
  }

  lemma ActivateKeeps(m: Machine, h: Holder)
    requires Held(m, h) && Pumping(m)
    ensures Inv(NextActivate(m))
  {
    OneFrame(m, h);
    assert Held(NextActivate(m), if m.slot.Some? then h else InFrame(0));
  }

  lemma ActAdvanceKeeps(m: Machine, h: Holder, r: Report)
    requires Held(m, h) && m.stack != [] && NextActAdvance(m, r).Some?
    ensures Inv(NextActAdvance(m, r).value)
  {
    OneFrame(m, h);
    assert Held(NextActAdvance(m, r).value, h);
  }

  lemma ActFinishKeeps(m: Machine, h: Holder)
    requires Held(m, h) && m.stack != [] && NextActFinish(m).Some?
    ensures Inv(NextActFinish(m).value)
  {
    OneFrame(m, h);
    assert Held(NextActFinish(m).value, if Top(m) == ActReady(None) then Nobody else InState(|m.pipes|));
  }

  lemma TakeKeeps(m: Machine, h: Holder, s: StateId)
    requires Held(m, h) && Pumping(m) && s < |m.pipes|
    ensures Inv(NextTake(m, s))
  {
    OneFrame(m, h);
    assert Held(NextTake(m, s), if m.pipes[s].Some? then InFrame(0) else h);
  }

  lemma AdvanceKeeps(m: Machine, h: Holder, k: nat, r: Report)
    requires Held(m, h) && NextAdvance(m, k, r).Some?
    ensures Inv(NextAdvance(m, k, r).value)
  {
    OneFrame(m, h);
    assert Held(NextAdvance(m, k, r).value, h);
  }

  lemma SettleKeeps(m: Machine, h: Holder)
    requires Held(m, h) && m.stack != [] && NextSettle(m).Some?
    ensures Inv(NextSettle(m).value)
  {
    OneFrame(m, h);
    assert Held(NextSettle(m).value, if Top(m).phase == Finished(None) then Nobody else InState(Top(m).s));
  }

  lemma TaskTakeKeeps(m: Machine, h: Holder, t: nat)
    requires Held(m, h) && NextTaskTake(m, t).Some?
    ensures Inv(NextTaskTake(m, t).value)
  {
    OneFrame(m, h);
    assert Held(NextTaskTake(m, t).value, if h == InState(m.tasks[t].s) then InTask(t) else h);
  }

  lemma TaskReturnKeeps(m: Machine, h: Holder, t: nat)
    requires Held(m, h) && NextTaskReturn(m, t).Some?
    ensures Inv(NextTaskReturn(m, t).value)
  {
    OneFrame(m, h);
    assert Held(NextTaskReturn(m, t).value, InState(m.tasks[t].s));
  }

  /** The invariant survives every move, whatever calls and handshakes report. */
  lemma NextKeeps(m: Machine, mv: Move)
    requires Inv(m) && Next(m, mv).Some?
    ensures Inv(Next(m, mv).value)
  {
    hide Held, Inv, NextActivate, NextActAdvance, NextActFinish, NextTake, NextAdvance, NextSettle, NextTaskTake, NextTaskReturn;
    var h := HolderOf(m);
    match mv {
      case Activate => ActivateKeeps(m, h);
      case ActAdvance(r) => ActAdvanceKeeps(m, h, r);
      case ActFinish => ActFinishKeeps(m, h);
      case Take(s) => TakeKeeps(m, h, s);
      case Advance(k, r) => AdvanceKeeps(m, h, k, r);
      case Settle => SettleKeeps(m, h);
      case TaskTake(t) => TaskTakeKeeps(m, h, t);
      case TaskReturn(t) => TaskReturnKeeps(m, h, t);
    }
  }

  lemma HolderOf(m: Machine) returns (h: Holder)
    requires Inv(m)
    ensures Held(m, h)
  {
    h :| Held(m, h);
  }

  // -- runs -----------------------------------------------------------------------------------------

  ghost predicate Run(ms: seq<Machine>, mvs: seq<Move>)
  {
    && |ms| == |mvs| + 1 && ms[0] == INITIAL
    && forall i :: 0 <= i < |mvs| ==> Next(ms[i], mvs[i]) == Some(ms[i + 1])
  }

  lemma {:induction false} RunInv(ms: seq<Machine>, mvs: seq<Move>, i: nat)
    requires Run(ms, mvs) && i < |ms|
    ensures Inv(ms[i])
  {
    hide Next, Inv;
    if i == 0 {
      InitialInv();
    } else {
      RunInv(ms, mvs, i - 1);
      assert Next(ms[i - 1], mvs[i - 1]) == Some(ms[i]);
      NextKeeps(ms[i - 1], mvs[i - 1]);
    }
  }

  lemma InitialInv()
    ensures Inv(INITIAL)
  {
    assert Held(INITIAL, Nobody);
  }

  /** State `s` has the pipe, or a call or task acting for it has the pipe or the right to reconnect it. */
  ghost predicate Owns(m: Machine, s: StateId)
  {
    || (s < |m.pipes| && m.pipes[s].Some?)
    || (exists k :: 0 <= k < |m.stack| && m.stack[k].Dispatch? && m.stack[k].s == s)
    || (exists t :: 0 <= t < |m.tasks| && m.tasks[t].Holding? && m.tasks[t].s == s)
  }

  /**
   In every reachable state there is at most one connection, the shared slot names exactly the state that owns it or
   the right to reconnect it, and when no call is under way the slot's state is not left without its pipe.
   */
  lemma SlotIsOwner(ms: seq<Machine>, mvs: seq<Move>, i: nat)
    requires Run(ms, mvs) && i < |ms|
    ensures forall p, q :: p in ms[i].open && q in ms[i].open ==> p == q
    ensures forall s: StateId :: ms[i].slot == Some(s) <==> Owns(ms[i], s)
    ensures ms[i].stack == [] && ms[i].slot.Some? && (forall t :: 0 <= t < |ms[i].tasks| ==> !ms[i].tasks[t].Holding?) ==>
              ms[i].slot.value < |ms[i].pipes| && ms[i].pipes[ms[i].slot.value].Some?
    ensures |ms[i].stack| <= 1
  {
    hide Run, Owns;
    RunInv(ms, mvs, i);
    var h := HolderOf(ms[i]);
    OneFrame(ms[i], h);
    forall s: StateId
      ensures ms[i].slot == Some(s) <==> Owns(ms[i], s)
    {
      OwnerIsHolder(ms[i], h, s);
    }
  }

  lemma OwnerIsHolder(m: Machine, h: Holder, s: StateId)
    requires Held(m, h)
    ensures m.slot == Some(s) <==> Owns(m, s)
  {
    if m.slot == Some(s) {
      match h {
        case InState(_) =>
        case InFrame(k) => assert m.stack[k].Dispatch?;
        case InTask(t) => assert m.tasks[t].Holding?;
        case Nobody =>
      }
    }
    forall k: nat | k < |m.stack| && m.stack[k].Dispatch? && m.stack[k].s == s
      ensures m.slot == Some(s)
    {
      assert h == InFrame(k);
    }
    forall t: nat | t < |m.tasks| && m.tasks[t].Holding? && m.tasks[t].s == s
      ensures m.slot == Some(s)
    {
      assert h == InTask(t);
    }
  }

  /**
   A connection is opened only when none is open, so the plugin's single pipe instance is free; a pipe is stored only
   into an empty field; and a clear drops only the state whose reconnect failed, never a newer one.
   */
  lemma MovesAreSafe(ms: seq<Machine>, mvs: seq<Move>, i: nat)
    requires Run(ms, mvs) && i < |mvs|
    ensures ms[i + 1].open <= ms[i].open || ms[i].open == {}
    ensures mvs[i].TaskReturn? ==> ms[i].pipes[ms[i].tasks[mvs[i].t].s] == None
    ensures mvs[i].Settle? ==> ms[i].stack != [] && Top(ms[i]).Dispatch? && ms[i].pipes[Top(ms[i]).s] == None && ms[i].slot == Some(Top(ms[i]).s)
    ensures mvs[i].ActFinish? ==> ms[i].slot == None
  {
    RunInv(ms, mvs, i);
    assert Next(ms[i], mvs[i]) == Some(ms[i + 1]);
    var h := HolderOf(ms[i]);
    OneFrame(ms[i], h);
  }

  /** Reconciliation borrows the pipe of its state if it is there, and giving it back restores everything but its own task. */
  lemma BorrowReturns(m: Machine, t: nat)
    requires Inv(m) && t < |m.tasks| && m.tasks[t].Spawned?
    ensures var s := m.tasks[t].s;
      && s < |m.pipes|
      && match m.pipes[s]
         case None => Next(m, TaskTake(t)) == Some(m.(tasks := m.tasks[t := Ended]))
         case Some(p) =>
           var taken := m.(pipes := m.pipes[s := None], tasks := m.tasks[t := Holding(s, p)]);
           && Next(m, TaskTake(t)) == Some(taken)
           && Next(taken, TaskReturn(t)) == Some(m.(tasks := m.tasks[t := Ended]))
  {
    var h := HolderOf(m);
    var s := m.tasks[t].s;
    if m.pipes[s].Some? {
      var p := m.pipes[s].value;
      assert m.pipes[s := None][s := Some(p)] == m.pipes && m.tasks[t := Holding(s, p)][t := Ended] == m.tasks[t := Ended];
    }
  }
}
