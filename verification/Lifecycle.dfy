/** Runs in which no two start or stop calls for the same match overlap; all else
    interleaves freely, other matches and re-registrations included. */
module Lifecycle {
  import opened Prelude
  import opened Sealing
  import opened ServerCore
  import opened Control
  import Base64

  // ── serialised runs ────────────────────────────────────────────────────────

  /** A start or stop of the match is under way; a sleeping auto-stop is not. */
  ghost predicate Busy(s: State, m: string) {
    exists id <- s.calls :: OnMatch(s, id, m)
  }

  ghost predicate OnMatch(s: State, id: nat, m: string) {
    id in s.calls && s.calls[id].matchId == m && !s.calls[id].Asleep?
  }

  ghost predicate Serial(s: State, e: Event) {
    match e
    case BeginStart(_, m, _) => !Busy(s, m)
    case BeginStop(_, m) => !Busy(s, m)
    case Wake(id) => id in s.calls ==> !Busy(s, s.calls[id].matchId)
    case _ => true
  }

  ghost predicate SerialRun(env: Env, es: seq<Event>) {
    es == [] || (SerialRun(env, es[..|es| - 1]) && Serial(RunAll(env, INIT, es[..|es| - 1]), es[|es| - 1]))
  }

  // ── where a match stands ───────────────────────────────────────────────────

  /** No key, no timer, no clock: nothing has been started. */
  ghost predicate Unstarted(s: State, m: string, state: MatchState) {
    && m in s.matches && s.matches[m].state == state && s.matches[m].t0 == None
    && m !in s.core.matchKeys && m !in s.core.timers && m !in s.cut
  }

  ghost predicate Finished(s: State, m: string) {
    && m in s.matches && s.matches[m].state == FINISHED
    && m !in s.core.matchKeys && m !in s.core.timers && m !in s.cut
  }

  ghost predicate Clocked(s: State, m: string) {
    m in s.matches && s.matches[m].state == RUNNING && s.matches[m].t0.Some?
  }

  /** Where a match can stand between calls. */
  ghost predicate AtRest(s: State, m: string) {
    if m !in s.matches then m !in s.core.matchKeys && m !in s.core.timers && m !in s.cut
    else
      || Unstarted(s, m, LOBBY)
      || Finished(s, m)
      || (Clocked(s, m) && if m in s.cut then m !in s.core.timers else m in s.core.matchKeys && m in s.core.timers)
  }

  /** Where a match stands while call `call` is suspended. */
  ghost predicate Fits(s: State, call: Call) {
    var m := call.matchId;
    match call
    case StartGet(_, _) => AtRest(s, m)
    case StopGet(_) => AtRest(s, m)
    case StartGot(_, _, row) => AtRest(s, m) && (row == Lookup(s.matches, m) || (row == None && Unstarted(s, m, LOBBY)))
    case StopGot(_, row) => AtRest(s, m) && (row == Lookup(s.matches, m) || (row == None && Unstarted(s, m, LOBBY)))
    case MarkStarting(_, _, _) => Unstarted(s, m, LOBBY)
    case MarkedLobby(_) => Unstarted(s, m, LOBBY)
    case MarkedRunning(_, t0, _) =>
      Clocked(s, m) && s.matches[m].t0 == Some(t0)
      && m !in s.core.matchKeys && m !in s.core.timers && m !in s.cut
    case Starting(_, t0, _, _) =>
      Clocked(s, m) && s.matches[m].t0 == Some(t0)
      && m in s.core.matchKeys && m !in s.core.timers && m !in s.cut
    case Stopping(_, _, _) => m !in s.core.timers && (Unstarted(s, m, LOBBY) || Clocked(s, m))
    case MarkFinished(_) =>
      m !in s.core.timers && m !in s.core.matchKeys && (Unstarted(s, m, LOBBY) || Clocked(s, m))
    case MarkedFinished(_) => Finished(s, m)
    case Asleep(_) => true
    case _ => Unstarted(s, m, STARTING)
  }

  /** Everything the invariant says about one match. */
  ghost predicate Orderly(s: State, m: string) {
    && (forall id, id' | OnMatch(s, id, m) && OnMatch(s, id', m) :: id == id')
    && (forall id | id in s.calls && s.calls[id] == Asleep(m) :: m in s.core.timers && s.core.timers[m] == id)
    && (m in s.core.timers ==>
          var id := s.core.timers[m];
          id in s.calls && s.calls[id].matchId == m &&
          (s.calls[id].Asleep? || s.calls[id].StopGet? || s.calls[id].StopGot?))
    && (forall id | id in s.cancelled && OnMatch(s, id, m) ::
          s.calls[id].MarkedFinished? ||
          ((s.calls[id].Stopping? || s.calls[id].MarkFinished?) && Clocked(s, m) && m !in s.cut))
    && (!Busy(s, m) ==> AtRest(s, m))
    && (forall id | OnMatch(s, id, m) :: Fits(s, s.calls[id]))
  }

  ghost predicate AllOrderly(s: State) {
    && s.cancelled <= s.calls.Keys
    && (forall id | id in s.cancelled :: !s.calls[id].Asleep?)
    && forall m :: Orderly(s, m)
  }

  /** Nothing that `Orderly` says about match `m` changed. */
  ghost predicate Untouched(s: State, s': State, m: string) {
    && Lookup(s'.matches, m) == Lookup(s.matches, m)
    && (m in s'.core.matchKeys <==> m in s.core.matchKeys)
    && (m in s'.core.timers <==> m in s.core.timers)
    && (m in s.core.timers ==> s'.core.timers[m] == s.core.timers[m])
    && (m in s'.cut <==> m in s.cut)
    && (forall id | id in s.calls && s.calls[id].matchId == m :: id in s'.calls && s'.calls[id] == s.calls[id])
    && (forall id | id in s'.calls && s'.calls[id].matchId == m :: id in s.calls && s.calls[id] == s'.calls[id])
    && (forall id | id in s'.cancelled && id in s'.calls && s'.calls[id].matchId == m :: id in s.cancelled)
  }

  lemma OrderlyKept(s: State, s': State, m: string)
    requires Orderly(s, m) && Untouched(s, s', m)
    ensures Orderly(s', m)
  {
    assert forall id :: OnMatch(s', id, m) <==> OnMatch(s, id, m);
    assert Busy(s', m) <==> Busy(s, m) by {
      if Busy(s', m) { var id :| OnMatch(s', id, m); assert OnMatch(s, id, m); }
      if Busy(s, m) { var id :| OnMatch(s, id, m); assert OnMatch(s', id, m); }
    }
    assert AtRest(s', m) <==> AtRest(s, m);
    forall id | OnMatch(s', id, m) ensures Fits(s', s'.calls[id]) {
      assert OnMatch(s, id, m) && Fits(s, s.calls[id]);
    }
  }

  lemma OnlyTouched(s: State, s': State, m: string)
    requires AllOrderly(s) && Orderly(s', m)
    requires forall other | other != m :: Untouched(s, s', other)
    requires s'.cancelled <= s'.calls.Keys && forall id | id in s'.cancelled :: !s'.calls[id].Asleep?
    ensures AllOrderly(s')
  {
    forall other ensures Orderly(s', other) {
      if other != m {
        assert Orderly(s, other) && Untouched(s, s', other);
        OrderlyKept(s, s', other);
      }
    }
  }

  // ── one call's steps ───────────────────────────────────────────────────────

  lemma BeginOrderly(s: State, id: nat, m: string, call: Call)
    requires AllOrderly(s) && !Busy(s, m)
    requires (id !in s.calls && id !in s.cancelled) || s.calls[id] == Asleep(m)
    requires call.matchId == m && (call.StartGet? || call.StopGet?)
    requires id in s.calls ==> call.StopGet?
    ensures AllOrderly(s.(calls := s.calls[id := call]))
  {
    var s' := s.(calls := s.calls[id := call]);
    assert Orderly(s, m);
    forall other | OnMatch(s', other, m) ensures other == id || OnMatch(s, other, m) {}
    assert OnMatch(s', id, m);
    assert AtRest(s', m);
    OnlyTouched(s, s', m);
  }

  /** A step of call `id` within its match: only that match's row, key, timer
      and calls change. */
  ghost predicate StepOf(s: State, s': State, id: nat, m: string) {
    && OnMatch(s, id, m)
    && (forall other | other != m :: Untouched(s, s', other))
    && (forall c | OnMatch(s', c, m) :: c == id)
    && s'.cancelled <= s'.calls.Keys && (forall c | c in s'.cancelled :: !s'.calls[c].Asleep?)
  }

  lemma StepOrderly(s: State, s': State, id: nat, m: string)
    requires AllOrderly(s) && StepOf(s, s', id, m)
    requires if OnMatch(s', id, m) then Fits(s', s'.calls[id]) else AtRest(s', m)
    requires forall c | c in s'.calls && s'.calls[c] == Asleep(m) :: m in s'.core.timers && s'.core.timers[m] == c
    requires m in s'.core.timers ==>
      var c := s'.core.timers[m];
      c in s'.calls && s'.calls[c].matchId == m &&
      (s'.calls[c].Asleep? || s'.calls[c].StopGet? || s'.calls[c].StopGot?)
    requires id in s'.cancelled && OnMatch(s', id, m) ==>
      s'.calls[id].MarkedFinished? ||
      ((s'.calls[id].Stopping? || s'.calls[id].MarkFinished?) && Clocked(s', m) && m !in s'.cut)
    ensures AllOrderly(s')
  {
    assert Busy(s', m) <==> OnMatch(s', id, m) by {
      if Busy(s', m) { var c :| OnMatch(s', c, m); }
    }
    assert Orderly(s', m);
    OnlyTouched(s, s', m);
  }

  lemma OnlyCall(s: State, s': State, id: nat, m: string)
    requires Orderly(s, m) && OnMatch(s, id, m)
    requires forall c | c != id && OnMatch(s', c, m) :: OnMatch(s, c, m)
    ensures forall c | OnMatch(s', c, m) :: c == id
  {}

  /** What a database statement leaves alone. */
  lemma ExecuteEffect(s: State, id: nat)
    requires id in s.calls && Execute(s, id) != s
    ensures var s', m := Execute(s, id), s.calls[id].matchId;
      && !s.calls[id].Asleep? && id in s'.calls && s'.calls[id].matchId == m && !s'.calls[id].Asleep?
      && s'.calls == s.calls[id := s'.calls[id]] && s'.cancelled == s.cancelled
      && s'.core.timers == s.core.timers && s'.core.matchKeys == s.core.matchKeys
      && (forall other | other != m :: Lookup(s'.matches, other) == Lookup(s.matches, other))
      && (forall other | other != m :: other in s'.cut <==> other in s.cut)
  {}

  lemma ExecuteStep(s: State, id: nat)
    requires AllOrderly(s) && id in s.calls && Execute(s, id) != s
    ensures var s', m := Execute(s, id), s.calls[id].matchId;
      && StepOf(s, s', id, m) && OnMatch(s', id, m)
      && s'.calls == s.calls[id := s'.calls[id]] && s'.cancelled == s.cancelled
      && s'.core.timers == s.core.timers && s'.core.matchKeys == s.core.matchKeys
  {
    var s', m := Execute(s, id), s.calls[id].matchId;
    ExecuteEffect(s, id);
    assert Orderly(s, m) && OnMatch(s, id, m);
    OnlyCall(s, s', id, m);
    forall other | other != m ensures Untouched(s, s', other) {}
  }

  lemma ExecuteOrderly(s: State, id: nat)
    requires AllOrderly(s) && id in s.calls
    ensures AllOrderly(Execute(s, id))
  {
    var s', m := Execute(s, id), s.calls[id].matchId;
    if s' != s {
      ExecuteStep(s, id);
      assert Orderly(s, m) && Fits(s, s.calls[id]);
      StepOrderly(s, s', id, m);
    }
  }

  lemma AbortOrderly(env: Env, s: State, id: nat)
    requires AllOrderly(s)
    ensures AllOrderly(Apply(env, s, Abort(id)))
  {
    hide HandleRegister, Execute, Run;
    var s' := Apply(env, s, Abort(id));
    if id in s.cancelled {
      var m := s.calls[id].matchId;
      assert OnMatch(s, id, m) && Orderly(s, m) && Fits(s, s.calls[id]);
      OnlyCall(s, s', id, m);
      StepOrderly(s, s', id, m);
    }
  }

  // ── resuming ───────────────────────────────────────────────────────────────

  /** A stretch leaves the keys and timers of other matches alone. */
  ghost predicate Within(c: Core, c': Core, m: string) {
    forall other | other != m ::
      && (other in c'.matchKeys <==> other in c.matchKeys)
      && (other in c'.timers <==> other in c.timers)
      && (other in c.timers ==> c'.timers[other] == c.timers[other])
  }

  ghost predicate StretchOf(s: State, id: nat, m: string, r: Stretch, task: nat) {
    && AllOrderly(s) && OnMatch(s, id, m) && task !in s.calls && Within(s.core, r.core, m)
    && (r.next.Await? ==> r.next.call.matchId == m && !r.next.call.Asleep?)
    && (r.cancelled.Some? ==> m in s.core.timers && s.core.timers[m] == r.cancelled.value)
  }

  /** What settling leaves alone, whatever the stretch. */
  lemma SettleEffect(s: State, id: nat, m: string, r: Stretch, task: nat)
    ensures var s' := Settle(s, id, m, r, task);
      && s'.matches == s.matches && s'.cut == s.cut
      && s'.core.matchKeys == r.core.matchKeys && s'.core.timers == r.core.timers
      && (forall c | c != id && c != task && Some(c) != r.cancelled ::
            (c in s'.calls <==> c in s.calls) && (c in s.calls ==> s'.calls[c] == s.calls[c])
            && (c in s'.cancelled ==> c in s.cancelled))
      && (task != id && task in s'.calls ==> s'.calls[task] == Asleep(m) || task in s.calls)
  {}

  lemma SettleOthers(s: State, id: nat, m: string, r: Stretch, task: nat, other: string)
    requires StretchOf(s, id, m, r, task) && other != m
    ensures Untouched(s, Settle(s, id, m, r, task), other)
  {
    var s' := Settle(s, id, m, r, task);
    SettleEffect(s, id, m, r, task);
    SettleOwn(s, id, m, r, task);
  }

  /** The calls that settling does change are all of its own match. */
  lemma SettleOwn(s: State, id: nat, m: string, r: Stretch, task: nat)
    requires StretchOf(s, id, m, r, task)
    ensures var s' := Settle(s, id, m, r, task);
      forall c | c == id || c == task || Some(c) == r.cancelled ::
        (c in s.calls ==> s.calls[c].matchId == m) && (c in s'.calls ==> s'.calls[c].matchId == m)
  {
    assert Orderly(s, m);
  }

  lemma SettleStep(s: State, id: nat, m: string, r: Stretch, task: nat)
    requires StretchOf(s, id, m, r, task)
    ensures StepOf(s, Settle(s, id, m, r, task), id, m)
  {
    var s' := Settle(s, id, m, r, task);
    assert Orderly(s, m);
    OnlyCall(s, s', id, m);
    forall other | other != m ensures Untouched(s, s', other) {
      SettleOthers(s, id, m, r, task, other);
    }
  }

  /** The call goes on, or ends without having started the match. */
  lemma SettlePlain(s: State, id: nat, m: string, r: Stretch, task: nat)
    requires StretchOf(s, id, m, r, task) && r.cancelled == None && r.next != Done(Started)
    requires r.core.timers == s.core.timers
    requires var s' := Settle(s, id, m, r, task);
      if r.next.Await? then Fits(s', r.next.call) else AtRest(s', m)
    requires id in s.cancelled && r.next.Await? ==>
      r.next.call.Stopping? || r.next.call.MarkFinished?
    requires m in s.core.timers ==> s.core.timers[m] != id
    ensures AllOrderly(Settle(s, id, m, r, task))
  {
    var s' := Settle(s, id, m, r, task);
    SettleStep(s, id, m, r, task);
    assert Orderly(s, m);
    assert OnMatch(s', id, m) <==> r.next.Await?;
    assert id in s.cancelled && r.next.Await? ==> Clocked(s', m) && m !in s'.cut;
    StepOrderly(s, s', id, m);
  }

  /** The dispatch is through: the auto-stop task is created and recorded. */
  lemma SettleStarted(s: State, id: nat, m: string, r: Stretch, task: nat)
    requires StretchOf(s, id, m, r, task) && r.cancelled == None && r.next == Done(Started)
    requires m !in s.core.timers && r.core.timers == s.core.timers[m := task]
    requires m in r.core.matchKeys && Clocked(s, m) && m !in s.cut
    ensures AllOrderly(Settle(s, id, m, r, task))
  {
    var s' := Settle(s, id, m, r, task);
    SettleStep(s, id, m, r, task);
    assert Orderly(s, m);
    assert !OnMatch(s', id, m);
    StepOrderly(s, s', id, m);
  }

  /** The stop has taken the match's timer, its own or a sleeping one, off. */
  lemma SettlePopped(s: State, id: nat, m: string, r: Stretch, task: nat)
    requires StretchOf(s, id, m, r, task) && r.next.Await?
    requires r.cancelled == if m in s.core.timers then Some(s.core.timers[m]) else None
    requires m !in r.core.timers && s.calls[id].StopGot?
    requires Fits(Settle(s, id, m, r, task), r.next.call)
    requires r.next.call.Stopping? || r.next.call.MarkFinished?
    ensures AllOrderly(Settle(s, id, m, r, task))
  {
    var s' := Settle(s, id, m, r, task);
    SettleStep(s, id, m, r, task);
    assert Orderly(s, m);
    assert Fits(s, s.calls[id]);
    if id in s'.cancelled {
      assert m in s.core.timers && Clocked(s, m) && m !in s.cut;
      assert Lookup(s'.matches, m) == Lookup(s.matches, m);
    }
    StepOrderly(s, s', id, m);
  }

  lemma {:induction false} DispatchShape(
      p: Suite, core: Core, m: string, t0: real, config: MatchConfig, k: nat, task: nat)
    requires m in core.matchKeys
    ensures var r := DispatchFrom(p, core, m, t0, config, k, task);
      && r.core.matchKeys == core.matchKeys && r.cancelled == None
      && ((r.next == Done(Started) && r.core.timers == core.timers[m := task])
          || (r.next.Await? && r.next.call.Starting? && r.next.call.matchId == m && r.next.call.t0 == t0
              && r.core.timers == core.timers))
    decreases |config.nodes| - k
  {
    if k < |config.nodes| {
      var na := config.nodes[k];
      if na.nodeId !in core.sessions {
        DispatchShape(p, core, m, t0, config, k + 1, task);
      } else if na.nodeId !in core.nodes {
        DispatchShape(p, core.(drawn := core.drawn + |na.schedule| + 1), m, t0, config, k + 1, task);
      }
    }
  }

  lemma {:induction false} StopShape(core: Core, m: string, config: MatchConfig, k: nat)
    ensures var r := StopFrom(core, m, config, k);
      && r.core.timers == core.timers && r.cancelled == None
      && r.next.Await? && r.next.call.matchId == m
      && if r.next.call.Stopping? then r.core.matchKeys == core.matchKeys
         else r.next.call.MarkFinished? && r.core.matchKeys == core.matchKeys - {m}
    decreases |config.nodes| - k
  {
    if k < |config.nodes| && config.nodes[k].nodeId !in core.nodes {
      StopShape(core, m, config, k + 1);
    }
  }

  /** What the dispatch loop leads to, from either of the points that enter it. */
  lemma DispatchOrderly(
      p: Suite, s: State, id: nat, core: Core, t0: real, config: MatchConfig, k: nat, task: nat)
    requires AllOrderly(s) && id in s.calls && task !in s.calls
    requires s.calls[id].Starting? || s.calls[id].MarkedRunning?
    requires var m := s.calls[id].matchId;
      && m in s.matches && s.matches[m].t0 == Some(t0) && m in core.matchKeys
      && core.matchKeys.Keys == s.core.matchKeys.Keys + {m} && core.timers == s.core.timers
    ensures
      var r := DispatchFrom(p, core, s.calls[id].matchId, t0, config, k, task);
      AllOrderly(Settle(s, id, s.calls[id].matchId, r, task))
  {
    var m := s.calls[id].matchId;
    assert OnMatch(s, id, m) && Orderly(s, m) && Fits(s, s.calls[id]);
    DispatchShape(p, core, m, t0, config, k, task);
    var r := DispatchFrom(p, core, m, t0, config, k, task);
    if r.next.Done? {
      SettleStarted(s, id, m, r, task);
    } else {
      SettlePlain(s, id, m, r, task);
    }
  }

  lemma PopOrderly(s: State, id: nat, task: nat)
    requires AllOrderly(s) && id in s.calls && task !in s.calls && s.calls[id].StopGot?
    ensures var m, row := s.calls[id].matchId, s.calls[id].row;
      AllOrderly(Settle(s, id, m, AfterStopGet(s.core, m, row), task))
  {
    var m, row := s.calls[id].matchId, s.calls[id].row;
    var r := AfterStopGet(s.core, m, row);
    assert OnMatch(s, id, m) && Orderly(s, m) && Fits(s, s.calls[id]);
    if row.None? || row.value.state == FINISHED {
      SettlePlain(s, id, m, r, task);
    } else {
      StopShape(s.core.(timers := s.core.timers - {m}), m, row.value.config, 0);
      SettlePopped(s, id, m, r, task);
    }
  }

  lemma StopOrderly(s: State, id: nat, task: nat)
    requires AllOrderly(s) && id in s.calls && task !in s.calls
    requires s.calls[id].Stopping? && s.calls[id].k < |s.calls[id].config.nodes|
    ensures var m, config, k := s.calls[id].matchId, s.calls[id].config, s.calls[id].k;
      AllOrderly(Settle(s, id, m, AfterStopSent(s.core, m, config, k), task))
  {
    var m, config, k := s.calls[id].matchId, s.calls[id].config, s.calls[id].k;
    assert OnMatch(s, id, m) && Orderly(s, m) && Fits(s, s.calls[id]);
    StopShape(s.core.(nodes := UpdateNode(s.core.nodes, config.nodes[k].nodeId, Ready)), m, config, k + 1);
    SettlePlain(s, id, m, AfterStopSent(s.core, m, config, k), task);
  }

  /** Calls that neither dispatch nor stop: lookups, polls and final writes. */
  ghost predicate Plain(call: Call) {
    call.StartGot? || call.MarkedStarting? || call.Polling? || call.MarkedLobby? || call.MarkedFinished?
  }

  /** They change nothing but how the call goes on, and end only at rest. */
  lemma PlainRuns(p: Suite, s: State, call: Call, now: real, mono: Mono, task: nat)
    requires Plain(call) && Fits(s, call)
    ensures var r := Run(p, s.core, call, now, mono, task);
      && r.Some? && r.value.core == s.core && r.value.cancelled == None && r.value.next != Done(Started)
      && if r.value.next.Await? then
           var next := r.value.next.call;
           next.matchId == call.matchId && !next.Asleep? && Fits(s, next)
           && (next.MarkStarting? || next.MarkRunning? || next.MarkLobby? || next.Polling?)
           && !call.MarkedFinished?
         else AtRest(s, call.matchId)
  {}

  lemma PlainOrderly(p: Suite, s: State, id: nat, now: real, mono: Mono, task: nat)
    requires AllOrderly(s) && id in s.calls && task !in s.calls && Plain(s.calls[id])
    ensures AllOrderly(Settle(s, id, s.calls[id].matchId, Run(p, s.core, s.calls[id], now, mono, task).value, task))
  {
    var m := s.calls[id].matchId;
    assert OnMatch(s, id, m) && Orderly(s, m) && Fits(s, s.calls[id]);
    PlainRuns(p, s, s.calls[id], now, mono, task);
    var r := Run(p, s.core, s.calls[id], now, mono, task).value;
    SettleEffect(s, id, m, r, task);
    if r.next.Await? { PlainFits(s, Settle(s, id, m, r, task), r.next.call); }
    SettlePlain(s, id, m, r, task);
  }

  lemma PlainFits(s: State, s': State, call: Call)
    requires Fits(s, call) && (call.MarkStarting? || call.MarkRunning? || call.MarkLobby? || call.Polling?)
    requires s'.matches == s.matches && s'.cut == s.cut
    requires s'.core.matchKeys == s.core.matchKeys && s'.core.timers == s.core.timers
    ensures Fits(s', call)
  {}

  lemma EnterDispatch(p: Suite, s: State, id: nat, task: nat)
    requires AllOrderly(s) && id in s.calls && task !in s.calls && s.calls[id].MarkedRunning?
    ensures var m, t0, config := s.calls[id].matchId, s.calls[id].t0, s.calls[id].config;
      AllOrderly(Settle(s, id, m, BeginDispatch(p, s.core, m, t0, config, task), task))
  {
    hide DispatchFrom, Settle;
    var m := s.calls[id].matchId;
    assert OnMatch(s, id, m) && Orderly(s, m) && Fits(s, s.calls[id]);
    var keyed := s.core.(
      matchKeys := s.core.matchKeys[m := p.urandom(s.core.drawn, 32)], drawn := s.core.drawn + 1);
    DispatchOrderly(p, s, id, keyed, s.calls[id].t0, s.calls[id].config, 0, task);
  }

  lemma GoOnDispatching(p: Suite, s: State, id: nat, task: nat)
    requires AllOrderly(s) && id in s.calls && task !in s.calls
    requires s.calls[id].Starting? && s.calls[id].k < |s.calls[id].config.nodes|
    ensures var m, t0, config, k := s.calls[id].matchId, s.calls[id].t0, s.calls[id].config, s.calls[id].k;
      AllOrderly(Settle(s, id, m, AfterStartSent(p, s.core, m, t0, config, k, task), task))
  {
    hide DispatchFrom, Settle;
    var m, config, k := s.calls[id].matchId, s.calls[id].config, s.calls[id].k;
    assert OnMatch(s, id, m) && Orderly(s, m) && Fits(s, s.calls[id]);
    var marked := s.core.(nodes := UpdateNode(s.core.nodes, config.nodes[k].nodeId, Running));
    DispatchOrderly(p, s, id, marked, s.calls[id].t0, config, k + 1, task);
  }

  lemma StepOrderlyAny(env: Env, s: State, e: Event)
    requires AllOrderly(s) && Serial(s, e)
    ensures AllOrderly(Apply(env, s, e))
  {
    match e
    case Create(m, config) => CreateOrderly(env, s, m, config);
    case BeginStart(id, m, timeout) => if id !in s.calls { BeginOrderly(s, id, m, StartGet(m, timeout)); }
    case BeginStop(id, m) => if id !in s.calls { BeginOrderly(s, id, m, StopGet(m)); }
    case Wake(id) =>
      if id in s.calls && s.calls[id].Asleep? {
        BeginOrderly(s, id, s.calls[id].matchId, StopGet(s.calls[id].matchId));
      }
    case Database(id) => if id in s.calls { ExecuteOrderly(s, id); }
    case Resume(id, now, mono, task) =>
      if id in s.calls && task !in s.calls {
        match s.calls[id]
        case MarkedRunning(_, _, _) => EnterDispatch(env.p, s, id, task);
        case Starting(_, _, config, k) => if k < |config.nodes| { GoOnDispatching(env.p, s, id, task); }
        case StopGot(_, _) => PopOrderly(s, id, task);
        case Stopping(_, config, k) => if k < |config.nodes| { StopOrderly(s, id, task); }
        case StartGet(_, _) =>
        case MarkStarting(_, _, _) =>
        case MarkLobby(_) =>
        case MarkRunning(_, _, _) =>
        case Asleep(_) =>
        case StopGet(_) =>
        case MarkFinished(_) =>
        case _ => PlainOrderly(env.p, s, id, now, mono, task);
      }
    case Abort(id) => AbortOrderly(env, s, id);
    case Register(identity, req) => RegisterOrderly(env, s, identity, req);
  }

  lemma CreateOrderly(env: Env, s: State, m: string, config: MatchConfig)
    requires AllOrderly(s)
    ensures AllOrderly(Apply(env, s, Create(m, config)))
  {
    var s' := Apply(env, s, Create(m, config));
    if m !in s.matches {
      assert Orderly(s, m);
      CreatedFits(s, s', m);
      OnlyTouched(s, s', m);
    }
  }

  /** A match that appears while a call for it is under way: only its lookup can
      still be pending or have found nothing. */
  lemma CreatedFits(s: State, s': State, m: string)
    requires Orderly(s, m) && m !in s.matches && s'.calls == s.calls && s'.cancelled == s.cancelled && s'.cut == s.cut
    requires s'.core.matchKeys == s.core.matchKeys && s'.core.timers == s.core.timers
    requires Unstarted(s', m, LOBBY)
    ensures Orderly(s', m)
  {
    forall id ensures OnMatch(s', id, m) <==> OnMatch(s, id, m) {}
    forall id | OnMatch(s', id, m) ensures Fits(s', s'.calls[id]) {
      assert OnMatch(s, id, m) && Fits(s, s.calls[id]);
    }
  }

  lemma RegisterOrderly(env: Env, s: State, identity: Bytes, req: RegisterRequest)
    requires AllOrderly(s)
    ensures AllOrderly(Apply(env, s, Register(identity, req)))
  {
    hide Base64.Encode, Base64.Decode, AgreedKey, Orderly;
    var s' := Apply(env, s, Register(identity, req));
    assert s'.core.matchKeys == s.core.matchKeys && s'.core.timers == s.core.timers;
    forall m ensures Orderly(s', m) {
      assert Orderly(s, m);
      OrderlyKept(s, s', m);
    }
  }

  lemma {:induction false} RunsOrderly(env: Env, es: seq<Event>)
    requires SerialRun(env, es)
    ensures AllOrderly(RunAll(env, INIT, es))
  {
    if es != [] {
      RunsOrderly(env, es[..|es| - 1]);
      StepOrderlyAny(env, RunAll(env, INIT, es[..|es| - 1]), es[|es| - 1]);
    } else {
      forall m ensures Orderly(INIT, m) {}
    }
  }

  /** Whenever no call for a match is under way, these say the same: its key is
      held, its auto-stop is recorded, it is RUNNING, unless an auto-stop of it was
      cut short by its own cancellation; then it is still RUNNING, without a timer. */
  lemma {:induction false} KeyTimerRunning(env: Env, es: seq<Event>, m: string)
    requires SerialRun(env, es) && !Busy(RunAll(env, INIT, es), m)
    ensures
      var s := RunAll(env, INIT, es);
      var running := m in s.matches && s.matches[m].state == RUNNING;
      && (m !in s.cut ==> (m in s.core.matchKeys <==> running) && (m in s.core.timers <==> running))
      && (m in s.cut ==> running && m !in s.core.timers)
      && ((m in s.core.timers <==> running) <==> m !in s.cut)
      && (m in s.core.timers ==> s.core.timers[m] in s.calls && s.calls[s.core.timers[m]] == Asleep(m))
      && (m in s.matches ==> s.matches[m].state != STARTING && (running ==> s.matches[m].t0.Some?))
  {
    RunsOrderly(env, es);
    var s := RunAll(env, INIT, es);
    assert Orderly(s, m);
    if m in s.core.timers {
      assert !OnMatch(s, s.core.timers[m], m);
    }
  }
}
