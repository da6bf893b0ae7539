/**
 The sidecar's machine beside a plugin that may end, start and hang up at any time: which dispatches get the plugin's
 answer over whole runs, and how long a dead pipe stays (com/server.rs, com/classify_rpc_error.rs). Every send on a dead
 pipe fails in its own way, stale or not.
 */
module PluginRestarts {
  import opened Prelude
  import opened PipeMachine

  /** `alive` are the connections whose other end is there. */
  datatype World = World(m: Machine, up: bool, alive: set<PipeId>)

  datatype Event = Sidecar(mv: Move) | PluginEnds | PluginStarts | PluginHangsUp

  /** Only a dead pipe can report a stale error, and it need not: what it reports at one send binds no later one. */
  predicate SendReports(w: World, p: PipeId, r: Report)
  {
    r.Stale? ==> p !in w.alive
  }

  /** A connect can fail although the plugin is up: its one pipe instance may be taken. */
  predicate ConnectReports(w: World, r: Report)
  {
    r.Connected? ==> w.up
  }

  /** A hello can fail on a live connection too: no readable nonce, no op-sign key, or the plugin refuses it. */
  predicate HelloReports(w: World, p: PipeId, r: Report)
  {
    r.Greeted? ==> p in w.alive
  }

  predicate PhaseReports(w: World, ph: Phase, r: Report)
  {
    match ph
    case Calling(p) => SendReports(w, p, r)
    case Recalling(p) => SendReports(w, p, r)
    case Dropped => ConnectReports(w, r)
    case Shaking(p) => HelloReports(w, p, r)
    case Finished(_) => true
  }

  /** Calls, connects and hellos report nothing that the plugin's presence rules out. */
  predicate Reports(w: World, mv: Move)
  {
    match mv
    case ActAdvance(r) =>
      if w.m.stack == [] then true
      else (match Top(w.m)
            case ActConnecting => ConnectReports(w, r)
            case ActShaking(p) => HelloReports(w, p, r)
            case _ => true)
    case Advance(k, r) => k < |w.m.stack| && w.m.stack[k].Dispatch? ==> PhaseReports(w, w.m.stack[k].phase, r)
    case _ => true
  }

  function Step(w: World, e: Event): Option<World>
  {
    match e
    case PluginEnds => if w.up then Some(World(w.m, false, {})) else None
    case PluginStarts => if w.up then None else Some(World(w.m, true, {}))
    case PluginHangsUp => Some(World(w.m, w.up, {}))
    case Sidecar(mv) =>
      if !Reports(w, mv) then None
      else match Next(w.m, mv)
        case None => None
        case Some(m) => Some(World(m, w.up, (w.alive + (m.open - w.m.open)) * m.open))
  }

  ghost predicate Run(ws: seq<World>, es: seq<Event>)
  {
    && |ws| == |es| + 1 && ws[0].m == INITIAL && ws[0].alive == {}
    && forall i :: 0 <= i < |es| ==> Step(ws[i], es[i]) == Some(ws[i + 1])
  }

  ghost predicate Ok(w: World)
  {
    Inv(w.m) && w.alive <= w.m.open
  }

  lemma StepOk(w: World, e: Event)
    requires Ok(w) && Step(w, e).Some?
    ensures Ok(Step(w, e).value)
  {
    hide Inv, Next, Reports;
    if e.Sidecar? { NextKeeps(w.m, e.mv); }
  }

  lemma {:induction false} RunOk(ws: seq<World>, es: seq<Event>, i: nat)
    requires Run(ws, es) && i < |ws|
    ensures Ok(ws[i])
  {
    hide Step, Inv;
    if i == 0 {
      InitialInv();
    } else {
      RunOk(ws, es, i - 1);
      assert Step(ws[i - 1], es[i - 1]) == Some(ws[i]);
      StepOk(ws[i - 1], es[i - 1]);
    }
  }

  lemma RunStep(ws: seq<World>, es: seq<Event>, i: nat)
    requires Run(ws, es) && i < |es|
    ensures Step(ws[i], es[i]) == Some(ws[i + 1])
  {
    hide Step;
  }

  // -- what happens to a dispatch ---------------------------------------------------------------------

  /** Its first send reports a stale pipe; the reconnect after that, hello included, fails; or the plugin's answer comes. */
  datatype Mark = FirstStale | ReconnectFails | AnswerComes

  function MarkOf(w: World, ph: Phase, r: Report): Option<Mark>
  {
    match (ph, r)
    case (Calling(_), Stale) => Some(FirstStale)
    case (Dropped, Unreachable) => Some(ReconnectFails)
    case (Shaking(_), Refused) => Some(ReconnectFails)
    case (Calling(p), Answered) => if p in w.alive then Some(AnswerComes) else None
    case (Recalling(p), Answered) => if p in w.alive then Some(AnswerComes) else None
    case _ => None
  }

  function Marked(w: World, e: Event): Option<Mark>
  {
    if e.Sidecar? && e.mv.Advance? && e.mv.k < |w.m.stack| && w.m.stack[e.mv.k].Dispatch?
    then MarkOf(w, w.m.stack[e.mv.k].phase, e.mv.r) else None
  }

  /** It happens at one of the events from `i` to before `j`. */
  ghost predicate Within(ws: seq<World>, es: seq<Event>, i: nat, j: nat, mark: Mark)
  {
    exists k :: i <= k < j && k < |es| && k < |ws| && Marked(ws[k], es[k]) == Some(mark)
  }

  lemma WithinSnoc(ws: seq<World>, es: seq<Event>, i: nat, j: nat, mark: Mark)
    requires i <= j < |es| && j < |ws|
    ensures Within(ws, es, i, j + 1, mark) <==> Within(ws, es, i, j, mark) || Marked(ws[j], es[j]) == Some(mark)
  {
    hide Marked;
  }

  /** The plugin does nothing from `i` to before `j`, and no dispatch ends. */
  ghost predicate Undisturbed(es: seq<Event>, i: nat, j: nat)
  {
    forall k :: i <= k < j && k < |es| ==> es[k].Sidecar? && !es[k].mv.Settle?
  }

  /** The one frame is the dispatch for `s`. */
  ghost predicate Dispatching(w: World, s: StateId)
  {
    |w.m.stack| == 1 && w.m.stack[0].Dispatch? && w.m.stack[0].s == s
  }

  /**
   Where a dispatch stands that sent on pipe `p`, given what has happened to it: `live` says whether the pipe was alive.
   */
  predicate Stands(w: World, ph: Phase, p: PipeId, live: bool, stale: bool, failed: bool, answered: bool)
  {
    match ph
    case Calling(q) => q == p && live == (p in w.alive) && !stale && !failed && !answered
    case Dropped => !live && stale && !failed && !answered
    case Shaking(q) => !live && stale && !failed && !answered && q in w.alive
    case Recalling(q) => !live && stale && !failed && !answered && q in w.alive
    case Finished(None) => !live && stale && failed && !answered
    case Finished(Some(q)) =>
      if answered then !failed && (live || stale) && q in w.alive
      else q == p && !live && !stale && !failed && p !in w.alive
  }

  lemma StandsStep(w: World, e: Event, w': World, s: StateId, p: PipeId, live: bool, stale: bool, failed: bool, answered: bool)
    requires Ok(w) && Dispatching(w, s) && e.Sidecar? && !e.mv.Settle? && Step(w, e) == Some(w')
    requires Stands(w, w.m.stack[0].phase, p, live, stale, failed, answered)
    ensures Dispatching(w', s)
    ensures var mark := Marked(w, e);
      Stands(w', w'.m.stack[0].phase, p, live, stale || mark == Some(FirstStale), failed || mark == Some(ReconnectFails),
             answered || mark == Some(AnswerComes))
  {
    hide Inv;
    var h := HolderOf(w.m);
    OneFrame(w.m, h);
  }

  /** An undisturbed dispatch, followed from any point before its first send has reported. */
  lemma {:induction false} StandsAt(ws: seq<World>, es: seq<Event>, i: nat, j: nat, s: StateId, p: PipeId)
    requires Run(ws, es) && i <= j < |ws| && Undisturbed(es, i, j)
    requires Dispatching(ws[i], s) && ws[i].m.stack[0].phase == Calling(p)
    ensures Dispatching(ws[j], s)
    ensures Stands(ws[j], ws[j].m.stack[0].phase, p, p in ws[i].alive, Within(ws, es, i, j, FirstStale),
                   Within(ws, es, i, j, ReconnectFails), Within(ws, es, i, j, AnswerComes))
    decreases j
  {
    hide Ok, Step, Within, Marked, Stands;
    if i == j {
      NothingYet(ws, es, i, s, p);
    } else {
      StandsAt(ws, es, i, j - 1, s, p);
      RunOk(ws, es, j - 1);
      RunStep(ws, es, j - 1);
      WithinSnoc(ws, es, i, j - 1, FirstStale);
      WithinSnoc(ws, es, i, j - 1, ReconnectFails);
      WithinSnoc(ws, es, i, j - 1, AnswerComes);
      StandsStep(ws[j - 1], es[j - 1], ws[j], s, p, p in ws[i].alive, Within(ws, es, i, j - 1, FirstStale),
                 Within(ws, es, i, j - 1, ReconnectFails), Within(ws, es, i, j - 1, AnswerComes));
    }
  }

  lemma NothingYet(ws: seq<World>, es: seq<Event>, i: nat, s: StateId, p: PipeId)
    requires i < |ws| && Dispatching(ws[i], s) && ws[i].m.stack[0].phase == Calling(p)
    ensures Stands(ws[i], ws[i].m.stack[0].phase, p, p in ws[i].alive, Within(ws, es, i, i, FirstStale),
                   Within(ws, es, i, i, ReconnectFails), Within(ws, es, i, i, AnswerComes))
  {
    hide Marked;
  }

  /** What a dispatch that has ended left behind. */
  predicate Leaves(w: World, s: StateId, p: PipeId, live: bool, stale: bool, failed: bool)
  {
    && s < |w.m.pipes|
    && if live || (stale && !failed) then w.m.slot == Some(s) && w.m.pipes[s].Some? && w.m.pipes[s].value in w.alive
       else if stale then w.m.slot == None && w.m.pipes[s] == None && w.m.open == {}
       else w.m.slot == Some(s) && w.m.pipes[s] == Some(p) && p !in w.alive
  }

  lemma SettleLeaves(w: World, w': World, s: StateId, p: PipeId, live: bool, stale: bool, failed: bool, answered: bool)
    requires Ok(w) && Dispatching(w, s) && Step(w, Sidecar(Settle)) == Some(w')
    requires Stands(w, w.m.stack[0].phase, p, live, stale, failed, answered)
    ensures answered <==> live || (stale && !failed)
    ensures Leaves(w', s, p, live, stale, failed)
  {
    hide Inv;
    var h := HolderOf(w.m);
    OneFrame(w.m, h);
  }

  lemma TakeBegins(w: World, w': World, s: StateId, p: PipeId)
    requires Ok(w) && s < |w.m.pipes| && w.m.pipes[s] == Some(p) && Step(w, Sidecar(Take(s))) == Some(w')
    ensures Dispatching(w', s) && w'.m.stack[0].phase == Calling(p) && (p in w'.alive <==> p in w.alive)
  {
    hide Inv;
    var h := HolderOf(w.m);
    OneFrame(w.m, h);
  }

  /**
   In every run, a dispatch during which the plugin neither ends, starts nor hangs up gets the plugin's answer exactly when
   the pipe it found was alive, or its first send reported a stale pipe and the reconnect did not fail. It then leaves a
   live pipe; after a failed reconnect it leaves none and clears the slot; otherwise it leaves the same dead pipe.
   */
  lemma AnsweredIff(ws: seq<World>, es: seq<Event>, i: nat, j: nat, s: StateId, p: PipeId)
    requires Run(ws, es) && i < j < |es| && es[i] == Sidecar(Take(s)) && es[j] == Sidecar(Settle)
    requires s < |ws[i].m.pipes| && ws[i].m.pipes[s] == Some(p) && Undisturbed(es, i, j)
    ensures var stale, failed := Within(ws, es, i, j, FirstStale), Within(ws, es, i, j, ReconnectFails);
      && (Within(ws, es, i, j, AnswerComes) <==> p in ws[i].alive || (stale && !failed))
      && Leaves(ws[j + 1], s, p, p in ws[i].alive, stale, failed)
  {
    hide Step, Ok, Stands, Within, Leaves;
    RunOk(ws, es, i);
    RunStep(ws, es, i);
    TakeBegins(ws[i], ws[i + 1], s, p);
    StandsAt(ws, es, i + 1, j, s, p);
    WithinAfter(ws, es, i, j);
    RunOk(ws, es, j);
    RunStep(ws, es, j);
    SettleLeaves(ws[j], ws[j + 1], s, p, p in ws[i].alive, Within(ws, es, i, j, FirstStale),
                 Within(ws, es, i, j, ReconnectFails), Within(ws, es, i, j, AnswerComes));
  }

  lemma WithinAfter(ws: seq<World>, es: seq<Event>, i: nat, j: nat)
    requires i < j < |es| && |ws| == |es| + 1 && es[i].Sidecar? && es[i].mv.Take?
    ensures forall mark :: Within(ws, es, i + 1, j, mark) <==> Within(ws, es, i, j, mark)
  {}

  // -- a dead pipe -------------------------------------------------------------------------------------------

  /** The one connection is dead, and whatever dispatch there is has sent on it. */
  ghost predicate StuckOn(w: World, p: PipeId)
  {
    && w.m.open == {p} && p !in w.alive
    && forall k :: 0 <= k < |w.m.stack| ==>
         w.m.stack[k].Dispatch? && (w.m.stack[k].phase == Calling(p) || w.m.stack[k].phase == Finished(Some(p)))
  }

  lemma StuckAdvance(w: World, k: nat, r: Report, w': World, p: PipeId, h: Holder)
    requires Held(w.m, h) && StuckOn(w, p) && Step(w, Sidecar(Advance(k, r))) == Some(w')
    ensures Marked(w, Sidecar(Advance(k, r))) == Some(FirstStale) || (StuckOn(w', p) && Marked(w, Sidecar(Advance(k, r))) == None)
  {
    OneFrame(w.m, h);
    assert k == 0;
  }

  lemma StuckOther(w: World, mv: Move, w': World, p: PipeId, h: Holder)
    requires Held(w.m, h) && StuckOn(w, p) && !mv.Advance? && Step(w, Sidecar(mv)) == Some(w')
    ensures StuckOn(w', p)
  {
    OneFrame(w.m, h);
  }

  lemma StuckKeeps(w: World, e: Event, w': World, p: PipeId)
    requires Ok(w) && StuckOn(w, p) && Step(w, e) == Some(w')
    ensures Marked(w, e) == Some(FirstStale) || (StuckOn(w', p) && Marked(w, e) == None)
  {
    hide Inv, Next, Reports;
    if e.Sidecar? {
      var h := HolderOf(w.m);
      if e.mv.Advance? { StuckAdvance(w, e.mv.k, e.mv.r, w', p, h); } else { StuckOther(w, e.mv, w', p, h); }
    }
  }

  lemma StoredDeadIsStuck(w: World, s: StateId, p: PipeId)
    requires Ok(w) && s < |w.m.pipes| && w.m.pipes[s] == Some(p) && p !in w.alive
    ensures StuckOn(w, p)
  {
    hide Inv;
    var h := HolderOf(w.m);
    OneFrame(w.m, h);
    assert h == InState(s);
  }

  /**
   From a stored dead pipe on, up to the first send on it that reports a stale pipe: nothing closes it, opens another
   connection or brings a dispatch the plugin's answer, however often the plugin starts again.
   */
  lemma {:induction false} StuckUntilStale(ws: seq<World>, es: seq<Event>, i: nat, j: nat, s: StateId, p: PipeId)
    requires Run(ws, es) && i <= j < |ws| && s < |ws[i].m.pipes| && ws[i].m.pipes[s] == Some(p) && p !in ws[i].alive
    requires !Within(ws, es, i, j, FirstStale)
    ensures StuckOn(ws[j], p) && !Within(ws, es, i, j, AnswerComes)
    decreases j
  {
    hide Ok, StuckOn, Marked, Step;
    if i == j {
      RunOk(ws, es, i);
      StoredDeadIsStuck(ws[i], s, p);
    } else {
      StuckUntilStale(ws, es, i, j - 1, s, p);
      RunOk(ws, es, j - 1);
      RunStep(ws, es, j - 1);
      StuckKeeps(ws[j - 1], es[j - 1], ws[j], p);
      WithinSnoc(ws, es, i, j - 1, FirstStale);
      WithinSnoc(ws, es, i, j - 1, AnswerComes);
    }
  }

  /**
   The dispatch whose send is the first to report the dead pipe stale, at `k`, and the plugin doing nothing before the
   dispatch ends: it is answered and leaves a live pipe exactly when the reconnect does not fail, and clears the slot otherwise.
   */
  lemma FirstStaleHeals(ws: seq<World>, es: seq<Event>, i: nat, k: nat, j: nat, s: StateId, p: PipeId) returns (t: StateId)
    requires Run(ws, es) && i <= k < j < |es| && s < |ws[i].m.pipes| && ws[i].m.pipes[s] == Some(p) && p !in ws[i].alive
    requires !Within(ws, es, i, k, FirstStale) && Marked(ws[k], es[k]) == Some(FirstStale)
    requires Undisturbed(es, k, j) && es[j] == Sidecar(Settle)
    ensures Dispatching(ws[k], t)
    ensures Within(ws, es, k, j, AnswerComes) <==> !Within(ws, es, k, j, ReconnectFails)
    ensures Leaves(ws[j + 1], t, p, false, true, Within(ws, es, k, j, ReconnectFails))
  {
    hide Ok, Step, Stands, Leaves;
    StuckUntilStale(ws, es, i, k, s, p);
    RunOk(ws, es, k);
    t := StuckSends(ws[k], es[k], p);
    StandsAt(ws, es, k, j, t, p);
    RunOk(ws, es, j);
    RunStep(ws, es, j);
    assert Within(ws, es, k, j, FirstStale);
    SettleLeaves(ws[j], ws[j + 1], t, p, false, true, Within(ws, es, k, j, ReconnectFails), Within(ws, es, k, j, AnswerComes));
  }

  lemma StuckSends(w: World, e: Event, p: PipeId) returns (t: StateId)
    requires Ok(w) && StuckOn(w, p) && Marked(w, e) == Some(FirstStale)
    ensures Dispatching(w, t) && w.m.stack[0].phase == Calling(p) && p !in w.alive
  {
    hide Inv;
    var h := HolderOf(w.m);
    OneFrame(w.m, h);
    t := w.m.stack[0].s;
  }

  // -- runs --------------------------------------------------------------------------------------------------

  const STORED := Machine([Some(0)], Some(0), [], [Spawned(0)], {0}, 1)
  const TAKEN := Machine([None], Some(0), [Dispatch(0, Calling(0))], [Spawned(0)], {0}, 1)
  const TRIED := Machine([None], Some(0), [Dispatch(0, Finished(Some(0)))], [Spawned(0)], {0}, 1)
  const DROPPED := Machine([None], Some(0), [Dispatch(0, Dropped)], [Spawned(0)], {}, 1)
  const SHAKING := Machine([None], Some(0), [Dispatch(0, Shaking(1))], [Spawned(0)], {1}, 2)
  const RECALLING := Machine([None], Some(0), [Dispatch(0, Recalling(1))], [Spawned(0)], {1}, 2)
  const RETRIED := Machine([None], Some(0), [Dispatch(0, Finished(Some(1)))], [Spawned(0)], {1}, 2)
  const HEALED := Machine([Some(1)], Some(0), [], [Spawned(0)], {1}, 2)

  lemma Moved(w: World, mv: Move, m: Machine)
    requires Reports(w, mv) && Next(w.m, mv) == Some(m) && w.alive <= w.m.open
    requires m.open == w.m.open || w.m.open == {} || m.open == {}
    ensures Step(w, Sidecar(mv)) == Some(World(m, w.up, if m.open == w.m.open then w.alive else m.open))
  {
    hide Reports, Next;
    if m.open == w.m.open {
      assert (w.alive + (m.open - w.m.open)) * m.open == w.alive;
    } else {
      assert (w.alive + (m.open - w.m.open)) * m.open == m.open;
    }
  }

  /** An activation that connects. */
  lemma Activated() returns (ws: seq<World>)
    ensures |ws| == 5 && ws[0] == World(INITIAL, true, {}) && ws[4] == World(STORED, true, {0})
    ensures Step(ws[0], Sidecar(Activate)) == Some(ws[1])
    ensures Step(ws[1], Sidecar(ActAdvance(Connected))) == Some(ws[2])
    ensures Step(ws[2], Sidecar(ActAdvance(Greeted))) == Some(ws[3])
    ensures Step(ws[3], Sidecar(ActFinish)) == Some(ws[4])
  {
    hide Step;
    var w0 := World(INITIAL, true, {});
    var w1 := World(INITIAL.(stack := [ActConnecting]), true, {});
    var w2 := World(Machine([], None, [ActShaking(0)], [], {0}, 1), true, {0});
    var w3 := World(Machine([], None, [ActReady(Some(0))], [], {0}, 1), true, {0});
    var w4 := World(STORED, true, {0});
    ws := [w0, w1, w2, w3, w4];
    assert w0.m.stack + [ActConnecting] == w1.m.stack;
    Moved(w0, Activate, w1.m);
    assert w1.m.stack[0 := ActShaking(0)] == w2.m.stack && {} + {0} == w2.m.open;
    Moved(w1, ActAdvance(Connected), w2.m);
    assert w2.m.stack[0 := ActReady(Some(0))] == w3.m.stack;
    Moved(w2, ActAdvance(Greeted), w3.m);
    assert w3.m.stack[..0] == [] && [] + [Some(0)] == STORED.pipes && [] + [Spawned(0)] == STORED.tasks;
    Moved(w3, ActFinish, w4.m);
  }

  lemma Takes(alive: set<PipeId>)
    requires alive <= {0}
    ensures Step(World(STORED, true, alive), Sidecar(Take(0))) == Some(World(TAKEN, true, alive))
  {
    hide Step;
    assert STORED.pipes[0 := None] == TAKEN.pipes && [] + [Dispatch(0, Calling(0))] == TAKEN.stack;
    Moved(World(STORED, true, alive), Take(0), TAKEN);
  }

  /** A send on the dead pipe that fails otherwise than stale, and the end of its dispatch. */
  lemma SendsInVain()
    ensures Step(World(TAKEN, true, {}), Sidecar(Advance(0, Answered))) == Some(World(TRIED, true, {}))
    ensures Step(World(TRIED, true, {}), Sidecar(Settle)) == Some(World(STORED, true, {}))
  {
    hide Step;
    assert TAKEN.stack[0 := Dispatch(0, Finished(Some(0)))] == TRIED.stack;
    Moved(World(TAKEN, true, {}), Advance(0, Answered), TRIED);
    assert TRIED.stack[..0] == [] && TRIED.pipes[0 := Some(0)] == STORED.pipes;
    Moved(World(TRIED, true, {}), Settle, STORED);
  }

  lemma Reconnects()
    ensures Step(World(TAKEN, true, {}), Sidecar(Advance(0, Stale))) == Some(World(DROPPED, true, {}))
    ensures Step(World(DROPPED, true, {}), Sidecar(Advance(0, Connected))) == Some(World(SHAKING, true, {1}))
  {
    hide Step;
    assert TAKEN.stack[0 := Dispatch(0, Dropped)] == DROPPED.stack && {0} - {0} == DROPPED.open;
    Moved(World(TAKEN, true, {}), Advance(0, Stale), DROPPED);
    assert DROPPED.stack[0 := Dispatch(0, Shaking(1))] == SHAKING.stack && {} + {1} == SHAKING.open;
    Moved(World(DROPPED, true, {}), Advance(0, Connected), SHAKING);
  }

  lemma SendsAgain()
    ensures Step(World(SHAKING, true, {1}), Sidecar(Advance(0, Greeted))) == Some(World(RECALLING, true, {1}))
    ensures Step(World(RECALLING, true, {1}), Sidecar(Advance(0, Answered))) == Some(World(RETRIED, true, {1}))
    ensures Step(World(RETRIED, true, {1}), Sidecar(Settle)) == Some(World(HEALED, true, {1}))
  {
    hide Step;
    assert SHAKING.stack[0 := Dispatch(0, Recalling(1))] == RECALLING.stack;
    Moved(World(SHAKING, true, {1}), Advance(0, Greeted), RECALLING);
    assert RECALLING.stack[0 := Dispatch(0, Finished(Some(1)))] == RETRIED.stack;
    Moved(World(RECALLING, true, {1}), Advance(0, Answered), RETRIED);
    assert RETRIED.stack[..0] == [] && RETRIED.pipes[0 := Some(1)] == HEALED.pipes;
    Moved(World(RETRIED, true, {1}), Settle, HEALED);
  }

  /** The plugin restarts between dispatches, and then any number of dispatches are lost, one after the other. */
  lemma {:induction false} StaysLostCase(n: nat) returns (ws: seq<World>, es: seq<Event>)
    ensures Run(ws, es) && |es| == 6 + 3 * n && ws[|es|] == World(STORED, true, {})
    ensures forall m :: 0 <= m < n ==> es[6 + 3 * m] == Sidecar(Take(0)) && es[8 + 3 * m] == Sidecar(Settle)
    ensures forall k :: 4 <= k < |es| ==> Marked(ws[k], es[k]) != Some(AnswerComes)
  {
    hide Step, Next, Reports;
    if n == 0 {
      var a := Activated();
      ws := a + [World(STORED, false, {}), World(STORED, true, {})];
      es := [Sidecar(Activate), Sidecar(ActAdvance(Connected)), Sidecar(ActAdvance(Greeted)), Sidecar(ActFinish), PluginEnds, PluginStarts];
      Restarts(STORED, {0});
    } else {
      ws, es := StaysLostCase(n - 1);
      var last := |es|;
      Takes({});
      SendsInVain();
      ws := ws + [World(TAKEN, true, {}), World(TRIED, true, {}), World(STORED, true, {})];
      es := es + [Sidecar(Take(0)), Sidecar(Advance(0, Answered)), Sidecar(Settle)];
    }
  }

  lemma Restarts(m: Machine, alive: set<PipeId>)
    ensures Step(World(m, true, alive), PluginEnds) == Some(World(m, false, {}))
    ensures Step(World(m, false, {}), PluginStarts) == Some(World(m, true, {}))
  {}

  /**
   The plugin restarts in the middle of a call, which is lost and leaves its dead pipe; the next dispatch finds that pipe
   stale, reconnects and is answered.
   */
  lemma LostThenHealedCase() returns (ws: seq<World>, es: seq<Event>)
    ensures Run(ws, es) && |es| == 15
    ensures es[4] == Sidecar(Take(0)) && es[8] == Sidecar(Settle) && !Within(ws, es, 4, 9, AnswerComes) && ws[9] == World(STORED, true, {})
    ensures es[9] == Sidecar(Take(0)) && es[14] == Sidecar(Settle) && Within(ws, es, 9, 14, AnswerComes) && ws[15] == World(HEALED, true, {1})
  {
    hide Step, Next, Reports;
    var a := Activated();
    Takes({0});
    Restarts(TAKEN, {0});
    SendsInVain();
    Takes({});
    Reconnects();
    SendsAgain();
    ws := a + [World(TAKEN, true, {0}), World(TAKEN, false, {}), World(TAKEN, true, {}), World(TRIED, true, {}), World(STORED, true, {}),
               World(TAKEN, true, {}), World(DROPPED, true, {}), World(SHAKING, true, {1}), World(RECALLING, true, {1}),
               World(RETRIED, true, {1}), World(HEALED, true, {1})];
    es := [Sidecar(Activate), Sidecar(ActAdvance(Connected)), Sidecar(ActAdvance(Greeted)), Sidecar(ActFinish),
           Sidecar(Take(0)), PluginEnds, PluginStarts, Sidecar(Advance(0, Answered)), Sidecar(Settle),
           Sidecar(Take(0)), Sidecar(Advance(0, Stale)), Sidecar(Advance(0, Connected)), Sidecar(Advance(0, Greeted)),
           Sidecar(Advance(0, Answered)), Sidecar(Settle)];
    assert Marked(ws[13], es[13]) == Some(AnswerComes);
  }
}
