/** Which stops can be cut short, told by what is known before they run: exactly
    those that run in the task they take off the timer table, that is auto-stops. */
module Interruption {
  import opened Prelude
  import opened Sealing
  import opened ServerCore
  import opened Control
  import opened Lifecycle
  import opened History
  import opened Coverage

  // ── one stop ───────────────────────────────────────────────────────────────

  /** Call `id` runs in the task that the timer table holds for its match. */
  ghost predicate OwnTimer(s: State, id: nat) {
    && id in s.calls && !s.calls[id].Asleep?
    && s.calls[id].matchId in s.core.timers && s.core.timers[s.calls[id].matchId] == id
  }

  /** In whatever state, a stop past its lookup is told to cancel if and only if it
      was before or runs in the recorded task; then, and only then, it can be cut
      short at its next await, which leaves the match as it was, without a timer. */
  lemma StopCancelsItself(env: Env, s: State, id: nat, now: real, mono: Mono, task: nat)
    requires id in s.calls && s.calls[id].StopGot? && task !in s.calls
    requires s.calls[id].row.Some? && s.calls[id].row.value.state != FINISHED
    ensures
      var m, s' := s.calls[id].matchId, Apply(env, s, Resume(id, now, mono, task));
      var cut, told := Apply(env, s', Abort(id)), id in s.cancelled || OwnTimer(s, id);
      && id in s'.calls && s'.matches == s.matches && m !in s'.core.timers
      && (id in s'.cancelled <==> told) && (id !in cut.calls <==> told)
      && (if told then m in cut.cut && cut.matches == s.matches && m !in cut.core.timers else cut == s')
  {
    var m, row := s.calls[id].matchId, s.calls[id].row;
    StopShape(s.core.(timers := s.core.timers - {m}), m, row.value.config, 0);
    PopSettles(env, s, id, now, mono, task);
    CutSettles(env, Apply(env, s, Resume(id, now, mono, task)), id);
  }

  /** In serialised runs no call was told before, so it is the one that runs in the
      recorded task. */
  lemma NotToldBefore(s: State, id: nat)
    requires AllOrderly(s) && id in s.calls && s.calls[id].StopGot?
    ensures id !in s.cancelled
  {
    assert OnMatch(s, id, s.calls[id].matchId) && Orderly(s, s.calls[id].matchId);
  }

  lemma PopSettles(env: Env, s: State, id: nat, now: real, mono: Mono, task: nat)
    requires id in s.calls && s.calls[id].StopGot? && task !in s.calls
    requires s.calls[id].row.Some? && s.calls[id].row.value.state != FINISHED
    requires var r := AfterStopGet(s.core, s.calls[id].matchId, s.calls[id].row);
      r.next.Await? && r.core.timers == s.core.timers - {s.calls[id].matchId}
      && (r.next.call.Stopping? || r.next.call.MarkFinished?) && r.next.call.matchId == s.calls[id].matchId
    ensures
      var m, s' := s.calls[id].matchId, Apply(env, s, Resume(id, now, mono, task));
      && id in s'.calls && s'.calls[id].matchId == m && !s'.calls[id].MarkedFinished?
      && s'.matches == s.matches && m !in s'.core.timers && s'.core.timers == s.core.timers - {m}
      && (id in s'.cancelled <==> id in s.cancelled || OwnTimer(s, id))
  {}

  lemma CutSettles(env: Env, s: State, id: nat)
    requires id in s.calls && !s.calls[id].MarkedFinished?
    ensures
      var m, cut := s.calls[id].matchId, Apply(env, s, Abort(id));
      && (id !in cut.calls <==> id in s.cancelled) && (id !in s.cancelled ==> cut == s)
      && (id in s.cancelled ==> m in cut.cut && cut.matches == s.matches && cut.core.timers == s.core.timers)
  {}

  // ── how a call began ───────────────────────────────────────────────────────

  ghost predicate Begins(s: State, e: Event, id: nat) {
    match e
    case BeginStart(own, _, _) => own == id && id !in s.calls
    case BeginStop(own, _) => own == id && id !in s.calls
    case Wake(own) => own == id && id in s.calls && s.calls[id].Asleep?
    case _ => false
  }

  /** The event that last began a call under this id. */
  ghost function Beginning(env: Env, es: seq<Event>, id: nat): Option<Event> {
    if es == [] then None
    else if Begins(RunAll(env, INIT, es[..|es| - 1]), es[|es| - 1], id) then Some(es[|es| - 1])
    else Beginning(env, es[..|es| - 1], id)
  }

  /** A call that runs in the recorded task, or was told to cancel because it did. */
  ghost predicate Cuttable(s: State, id: nat) { OwnTimer(s, id) || id in s.cancelled }

  /** Nothing but waking an auto-stop makes a call cuttable. */
  ghost predicate CutsOnlyWoken(s: State, s': State, e: Event, id: nat) {
    Cuttable(s', id) && id in s'.calls ==>
      && id in s.calls && s'.calls[id].matchId == s.calls[id].matchId
      && if Begins(s, e, id) then e == Wake(id) else Cuttable(s, id)
  }

  lemma {:induction false} DispatchTimers(
      p: Suite, core: Core, m: string, t0: real, config: MatchConfig, k: nat, task: nat)
    ensures var r := DispatchFrom(p, core, m, t0, config, k, task);
      r.core.timers == if r.next == Done(Started) then core.timers[m := task] else core.timers
    decreases |config.nodes| - k
  {
    if k < |config.nodes| {
      var na := config.nodes[k];
      DispatchTimers(p, core, m, t0, config, k + 1, task);
      DispatchTimers(p, core.(drawn := core.drawn + |na.schedule| + 1), m, t0, config, k + 1, task);
    }
  }

  /** What a stretch does to the timer table, and whom it cancels. */
  lemma RunTimers(p: Suite, core: Core, call: Call, now: real, mono: Mono, task: nat)
    ensures var r := Run(p, core, call, now, mono, task);
      r.Some? ==>
        && (r.value.core.timers == core.timers
            || (r.value.next == Done(Started) && r.value.core.timers == core.timers[call.matchId := task])
            || r.value.core.timers == core.timers - {call.matchId})
        && (r.value.next == Done(Started) ==> r.value.core.timers == core.timers[call.matchId := task])
        && (r.value.cancelled.Some? ==> r.value.core.timers == core.timers - {call.matchId})
  {
    hide DispatchFrom, StopFrom;
    RunGoesOn(p, core, call, now, mono, task);
    match call
    case MarkedRunning(m, t0, config) =>
      if m !in core.matchKeys {
        var keyed := core.(matchKeys := core.matchKeys[m := p.urandom(core.drawn, 32)], drawn := core.drawn + 1);
        DispatchTimers(p, keyed, m, t0, config, 0, task);
        DispatchCancelsNone(p, keyed, m, t0, config, 0, task);
      }
    case Starting(m, t0, config, k) =>
      if k < |config.nodes| {
        var marked := core.(nodes := UpdateNode(core.nodes, config.nodes[k].nodeId, Running));
        DispatchTimers(p, marked, m, t0, config, k + 1, task);
        DispatchCancelsNone(p, marked, m, t0, config, k + 1, task);
      }
    case StopGot(m, row) =>
      if row.Some? { StopShape(core.(timers := core.timers - {m}), m, row.value.config, 0); }
    case Stopping(m, config, k) =>
      if k < |config.nodes| {
        StopShape(core.(nodes := UpdateNode(core.nodes, config.nodes[k].nodeId, Ready)), m, config, k + 1);
      }
    case _ =>
  }

  lemma SettleCuts(s: State, own: nat, r: Stretch, task: nat, id: nat)
    requires AllOrderly(s) && own in s.calls && !s.calls[own].Asleep? && task !in s.calls
    requires r.next.Await? ==> r.next.call.matchId == s.calls[own].matchId
    requires
      || r.core.timers == s.core.timers
      || (r.next == Done(Started) && r.core.timers == s.core.timers[s.calls[own].matchId := task])
      || r.core.timers == s.core.timers - {s.calls[own].matchId}
    requires r.cancelled.Some? ==>
      s.calls[own].matchId in s.core.timers && r.cancelled.value == s.core.timers[s.calls[own].matchId]
    ensures
      var s' := Settle(s, own, s.calls[own].matchId, r, task);
      Cuttable(s', id) && id in s'.calls ==>
        id in s.calls && s'.calls[id].matchId == s.calls[id].matchId && Cuttable(s, id)
  {
    var m := s.calls[own].matchId;
    var s' := Settle(s, own, m, r, task);
    assert OnMatch(s, own, m) && Orderly(s, m);
    SettleEffect(s, own, m, r, task);
    SettleTells(s, own, m, r, task);
    if id in s.calls { assert Orderly(s, s.calls[id].matchId); }
    if id in s'.calls && OwnTimer(s', id) {
      assert id != task && (id in s.calls ==> s'.core.timers[s'.calls[id].matchId] == id);
    }
  }

  /** Where settling leaves the calls it does change. */
  lemma SettleTells(s: State, own: nat, m: string, r: Stretch, task: nat)
    requires own in s.calls && s.calls[own].matchId == m && !s.calls[own].Asleep? && task !in s.calls
    requires r.next.Await? ==> r.next.call.matchId == m
    requires s.cancelled <= s.calls.Keys
    ensures
      var s' := Settle(s, own, m, r, task);
      && (task in s'.calls ==> s'.calls[task] == Asleep(m)) && task !in s'.cancelled
      && (own in s'.calls ==> s'.calls[own].matchId == m)
      && (forall c | c in s'.cancelled :: c in s.cancelled || Some(c) == r.cancelled)
      && (forall c | Some(c) == r.cancelled && c != own && c != task && c in s'.calls ::
            c in s.calls && s'.calls[c] == s.calls[c])
  {
    assert task !in s.calls.Keys;
  }

  lemma ResumeCuts(env: Env, s: State, own: nat, now: real, mono: Mono, task: nat, id: nat)
    requires AllOrderly(s) && own in s.calls && task !in s.calls
    ensures CutsOnlyWoken(s, Apply(env, s, Resume(own, now, mono, task)), Resume(own, now, mono, task), id)
  {
    var call, r := s.calls[own], Run(env.p, s.core, s.calls[own], now, mono, task);
    RunTimers(env.p, s.core, call, now, mono, task);
    RunGoesOn(env.p, s.core, call, now, mono, task);
    if r.Some? { SettleCuts(s, own, r.value, task, id); }
    assert id in s.cancelled ==> id in s.calls.Keys;
  }

  lemma BeginCuts(s: State, own: nat, call: Call, id: nat)
    requires AllOrderly(s) && (own in s.calls ==> s.calls[own].Asleep? && s.calls[own].matchId == call.matchId)
    ensures
      var s' := s.(calls := s.calls[own := call]);
      Cuttable(s', id) && id in s'.calls ==>
        id in s.calls && s'.calls[id].matchId == s.calls[id].matchId && (id == own || Cuttable(s, id))
  {
    assert Orderly(s, call.matchId);
    assert own in s.cancelled ==> own in s.calls.Keys;
  }

  lemma ExecuteCuts(s: State, own: nat, id: nat)
    requires own in s.calls
    ensures
      var s' := Execute(s, own);
      Cuttable(s', id) && id in s'.calls ==>
        id in s.calls && s'.calls[id].matchId == s.calls[id].matchId && Cuttable(s, id)
  {
    if Execute(s, own) != s { ExecuteEffect(s, own); }
  }

  lemma StepCuts(env: Env, s: State, e: Event, id: nat)
    requires AllOrderly(s)
    ensures CutsOnlyWoken(s, Apply(env, s, e), e, id)
  {
    match e
    case Resume(own, now, mono, task) =>
      if own in s.calls && task !in s.calls { ResumeCuts(env, s, own, now, mono, task, id); }
    case Database(own) => if own in s.calls { ExecuteCuts(s, own, id); }
    case BeginStart(own, m, timeout) => if own !in s.calls { BeginCuts(s, own, StartGet(m, timeout), id); }
    case BeginStop(own, m) => if own !in s.calls { BeginCuts(s, own, StopGet(m), id); }
    case Wake(own) =>
      if own in s.calls && s.calls[own].Asleep? { BeginCuts(s, own, StopGet(s.calls[own].matchId), id); }
    case Abort(own) =>
    case Create(_, _) =>
    case Register(identity, req) => RegisterCuts(env, s, identity, req, id);
  }

  lemma RegisterCuts(env: Env, s: State, identity: Bytes, req: RegisterRequest, id: nat)
    ensures var s' := Apply(env, s, Register(identity, req));
      s'.core.timers == s.core.timers && s'.calls == s.calls && s'.cancelled == s.cancelled
  {}

  // ── whole runs ─────────────────────────────────────────────────────────────

  /** In a serialised run only an auto-stop that woke can be cut short; a stop that
      someone asked for never is. */
  lemma {:induction false} OnlyAutoStopsAreCut(env: Env, es: seq<Event>, id: nat)
    requires SerialRun(env, es) && id in RunAll(env, INIT, es).calls && Cuttable(RunAll(env, INIT, es), id)
    ensures Beginning(env, es, id) == Some(Wake(id))
  {
    if es != [] {
      var init, e := es[..|es| - 1], es[|es| - 1];
      RunsOrderly(env, init);
      StepCuts(env, RunAll(env, INIT, init), e, id);
      if !Begins(RunAll(env, INIT, init), e, id) { OnlyAutoStopsAreCut(env, init, id); }
    }
  }

  /** A call of the match ended Cancelled in the last event: it was an auto-stop. */
  ghost predicate CutBy(env: Env, es: seq<Event>, m: string, k: nat) {
    k < |es| && es[k].Abort? &&
    var s := RunAll(env, INIT, es[..k]);
    es[k].id in s.calls && s.calls[es[k].id].matchId == m && Beginning(env, es[..k], es[k].id) == Some(Wake(es[k].id))
  }

  lemma {:induction false} CancelledWasAutoStop(env: Env, es: seq<Event>, m: string) returns (k: nat)
    requires SerialRun(env, es) && Ended(m, Cancelled) in RunAll(env, INIT, es).core.log
    ensures CutBy(env, es, m, k)
  {
    var init, e := es[..|es| - 1], es[|es| - 1];
    var s := RunAll(env, INIT, init);
    if Ended(m, Cancelled) in s.core.log {
      k := CancelledWasAutoStop(env, init, m);
      assert es[..k] == init[..k];
    } else {
      k := |es| - 1;
      RunsOrderly(env, init);
      EndsCancelled(env, s, e, m);
      OnlyAutoStopsAreCut(env, init, e.id);
    }
  }

  /** Only cutting a call short logs that it ended Cancelled. */
  lemma EndsCancelled(env: Env, s: State, e: Event, m: string)
    requires AllOrderly(s) && Ended(m, Cancelled) !in s.core.log && Ended(m, Cancelled) in Apply(env, s, e).core.log
    ensures e.Abort? && e.id in s.cancelled && e.id in s.calls && s.calls[e.id].matchId == m
  {
    match e
    case Resume(id, now, mono, task) =>
      if id in s.calls && task !in s.calls {
        RunLog(env.p, s.core, s.calls[id], now, mono, task);
        RunEnds(env.p, s.core, s.calls[id], now, mono, task);
        var r := Run(env.p, s.core, s.calls[id], now, mono, task);
        if r.Some? { SettleEndsOtherwise(s, id, s.calls[id].matchId, r.value, task, m); }
      }
    case Database(id) => if id in s.calls { ExecuteWritesOnly(s, id); }
    case Register(identity, req) => RegisterEnds(env, s, identity, req, m);
    case _ =>
  }

  lemma RegisterEnds(env: Env, s: State, identity: Bytes, req: RegisterRequest, m: string)
    requires Ended(m, Cancelled) !in s.core.log
    ensures Ended(m, Cancelled) !in Apply(env, s, Register(identity, req)).core.log
  {
    RegisterLog(env.p, env.tokens, s.core, identity, req);
    var log := HandleRegister(env.p, env.tokens, s.core, identity, req).log;
    assert log == s.core.log + log[|s.core.log|..];
  }

  lemma RunEnds(p: Suite, core: Core, call: Call, now: real, mono: Mono, task: nat)
    ensures var r := Run(p, core, call, now, mono, task);
      r.Some? ==> r.value.next != Done(Cancelled)
  {
    hide DispatchFrom, StopFrom;
    match call
    case MarkedRunning(m, t0, config) =>
      if m !in core.matchKeys {
        var keyed := core.(matchKeys := core.matchKeys[m := p.urandom(core.drawn, 32)], drawn := core.drawn + 1);
        DispatchLog(p, keyed, m, t0, config, 0, task);
      }
    case Starting(m, t0, config, k) =>
      if k < |config.nodes| {
        var marked := core.(nodes := UpdateNode(core.nodes, config.nodes[k].nodeId, Running));
        DispatchLog(p, marked, m, t0, config, k + 1, task);
      }
    case StopGot(m, row) =>
      if row.Some? { StopShape(core.(timers := core.timers - {m}), m, row.value.config, 0); }
    case Stopping(m, config, k) =>
      if k < |config.nodes| {
        StopShape(core.(nodes := UpdateNode(core.nodes, config.nodes[k].nodeId, Ready)), m, config, k + 1);
      }
    case _ =>
  }

  lemma SettleEndsOtherwise(s: State, id: nat, own: string, r: Stretch, task: nat, m: string)
    requires s.core.log <= r.core.log && forall e <- r.core.log[|s.core.log|..] :: e.Sent?
    requires r.next != Done(Cancelled) && Ended(m, Cancelled) !in s.core.log
    ensures Ended(m, Cancelled) !in Settle(s, id, own, r, task).core.log
  {
    SettleLog(s, id, own, r, task);
    assert r.core.log == s.core.log + r.core.log[|s.core.log|..];
  }

  // ── until the auto-stop wakes ──────────────────────────────────────────────

  /** An auto-stop of the match woke during the run. */
  ghost predicate Woken(env: Env, es: seq<Event>, m: string) {
    es != [] &&
    (Woken(env, es[..|es| - 1], m) || WakesOf(RunAll(env, INIT, es[..|es| - 1]), es[|es| - 1], m))
  }

  ghost predicate WakesOf(s: State, e: Event, m: string) {
    e.Wake? && e.id in s.calls && s.calls[e.id] == Asleep(m)
  }

  lemma {:induction false} NotWokenNotCut(env: Env, es: seq<Event>, m: string)
    requires SerialRun(env, es) && !Woken(env, es, m)
    ensures var s := RunAll(env, INIT, es);
      m !in s.cut && forall id | id in s.calls && s.calls[id].matchId == m :: !Cuttable(s, id)
  {
    if es != [] {
      var init, e := es[..|es| - 1], es[|es| - 1];
      var s, s' := RunAll(env, INIT, init), RunAll(env, INIT, es);
      NotWokenNotCut(env, init, m);
      RunsOrderly(env, init);
      forall id | id in s'.calls && s'.calls[id].matchId == m ensures !Cuttable(s', id) {
        StepCuts(env, s, e, id);
      }
      CutGrows(env, s, e, m);
    }
  }

  lemma CutGrows(env: Env, s: State, e: Event, m: string)
    requires m !in s.cut
    requires forall id | id in s.calls && s.calls[id].matchId == m :: id !in s.cancelled
    ensures m !in Apply(env, s, e).cut
  {
    if e.Database? && e.id in s.calls { ExecuteCutShrinks(s, e.id); }
  }

  lemma ExecuteCutShrinks(s: State, id: nat)
    requires id in s.calls
    ensures Execute(s, id).cut <= s.cut
  {}

  /** So until an auto-stop of the match wakes, and no call of it is under way: its
      key is held, its auto-stop recorded and its state RUNNING together or not at
      all, without exception. */
  lemma {:induction false} KeyTimerRunningUntilWoken(env: Env, es: seq<Event>, m: string)
    requires SerialRun(env, es) && !Busy(RunAll(env, INIT, es), m) && !Woken(env, es, m)
    ensures
      var s := RunAll(env, INIT, es);
      var running := m in s.matches && s.matches[m].state == RUNNING;
      (m in s.core.matchKeys <==> running) && (m in s.core.timers <==> running)
  {
    NotWokenNotCut(env, es, m);
    KeyTimerRunning(env, es, m);
  }
}
