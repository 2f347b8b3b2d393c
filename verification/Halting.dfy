/** The other end of a match: in a serialised run, a match that has run and is
    finished has had one STOP per assignment, in order, after those of an
    auto-stop that was cut short, if one was. */
module Halting {
  import opened Prelude
  import opened Sealing
  import opened ServerCore
  import opened Control
  import opened Safety
  import opened Lifecycle
  import opened History
  import opened Coverage

  ghost predicate Stops(e: Entry, m: string) { e.Sent? && e.msg.Stop? && e.msg.matchId == m }

  /** The nodes that STOP was sent to for a match, oldest first. */
  ghost function Halts(log: seq<Entry>, m: string): seq<string> {
    if log == [] then []
    else
      var e := log[|log| - 1];
      Halts(log[..|log| - 1], m) + if Stops(e, m) then [e.to] else []
  }

  ghost function Names(config: MatchConfig): seq<string> {
    seq(|config.nodes|, i requires 0 <= i < |config.nodes| => config.nodes[i].nodeId)
  }

  /** A stop of the match was cut short. */
  ghost predicate Interrupted(log: seq<Entry>, m: string) { Ended(m, Cancelled) in log }

  lemma HaltOne(log: seq<Entry>, e: Entry, m: string)
    ensures Halts(log + [e], m) == Halts(log, m) + if Stops(e, m) then [e.to] else []
  {
    assert (log + [e])[..|log|] == log;
  }

  lemma {:induction false} NoHalts(log: seq<Entry>, more: seq<Entry>, m: string)
    requires forall e <- more :: !Stops(e, m)
    ensures Halts(log + more, m) == Halts(log, m)
  {
    if more == [] {
      assert log + more == log;
    } else {
      var init, last := more[..|more| - 1], more[|more| - 1];
      NoHalts(log, init, m);
      HaltOne(log + init, last, m);
      assert log + more == (log + init) + [last] && last in more;
    }
  }

  // ── who has to be stopped is registered ────────────────────────────────────

  /** Every assigned node of a match that has run is registered. */
  ghost predicate AllRegistered(s: State) {
    forall m | m in s.matches && s.matches[m].t0.Some? ::
      forall na <- s.matches[m].config.nodes :: na.nodeId in s.core.nodes
  }

  lemma RegisteredGrows(s: State, s': State)
    requires AllRegistered(s) && s.core.nodes.Keys <= s'.core.nodes.Keys
    requires forall m | m in s'.matches && s'.matches[m].t0.Some? ::
      m in s.matches && s.matches[m].t0.Some? && s.matches[m].config == s'.matches[m].config
    ensures AllRegistered(s')
  {
    forall n | n in s.core.nodes ensures n in s'.core.nodes { assert n in s.core.nodes.Keys; }
  }

  lemma ExecuteRegistered(s: State, id: nat)
    requires AllRegistered(s) && AllEnlisted(s) && CallsFaithful(s) && id in s.calls
    ensures AllRegistered(Execute(s, id))
  {
    assert Enlisted(s.core, s.calls[id]) && CallFaithful(s.matches, s.calls[id]);
  }

  lemma StepRegistered(env: Env, s: State, e: Event)
    requires AllRegistered(s) && AllEnlisted(s) && Safe(env.p, s)
    ensures AllRegistered(Apply(env, s, e))
  {
    match e
    case Database(id) => if id in s.calls { ExecuteRegistered(s, id); }
    case Create(m, config) =>
    case _ =>
      StepEnlisted(env, s, e);
      WritesNothing(env, s, e);
      RegisteredGrows(s, Apply(env, s, e));
  }

  // ── what has been sent so far ──────────────────────────────────────────────

  /** Call `id` is a stop of the match that has begun to send. */
  ghost predicate Halting(s: State, id: nat, m: string) {
    OnMatch(s, id, m) && (s.calls[id].Stopping? || s.calls[id].MarkFinished? || s.calls[id].MarkedFinished?)
  }

  ghost predicate SomeHalting(s: State, m: string) { exists id :: Halting(s, id, m) }

  /** `past` STOPs were sent by a stop that was cut short; the match waits to be
      stopped again, or has been. */
  ghost predicate Cut(s: State, m: string, past: nat)
    requires m in s.matches
  {
    && past <= |s.matches[m].config.nodes|
    && (past > 0 ==> Interrupted(s.core.log, m) && (m in s.cut || s.matches[m].state == FINISHED))
  }

  /** What has been sent after the first `past`: while a stop sends, everything up to
      the current assignment; once finished, everything. */
  ghost predicate HaltedAt(s: State, m: string, past: nat) {
    var sent := Halts(s.core.log, m);
    if m !in s.matches then past == 0 && sent == []
    else if s.matches[m].t0.None? then
      past == 0 && (s.matches[m].state == FINISHED || SomeHalting(s, m) || sent == [])
    else
      var names := Names(s.matches[m].config);
      && Cut(s, m, past)
      && (forall id | Halting(s, id, m) ::
            if s.calls[id].Stopping? then s.calls[id].k < |names| && sent == names[..past] + names[..s.calls[id].k + 1]
            else sent == names[..past] + names)
      && (SomeHalting(s, m) || sent == names[..past] + if s.matches[m].state == FINISHED then names else [])
  }

  lemma InterruptedKept(log: seq<Entry>, log': seq<Entry>, m: string)
    requires log <= log'
    ensures Interrupted(log, m) ==> Interrupted(log', m)
  {
    if Interrupted(log, m) {
      var i :| 0 <= i < |log| && log[i] == Ended(m, Cancelled);
      assert log'[i] == Ended(m, Cancelled);
    }
  }

  /** No STOP for the match, and no stop of it begins, goes on or ends. */
  lemma HaltedKept(s: State, s': State, m: string, past: nat)
    requires HaltedAt(s, m, past) && s.core.log <= s'.core.log
    requires forall e <- s'.core.log[|s.core.log|..] :: !Stops(e, m)
    requires Lookup(s'.matches, m) == Lookup(s.matches, m)
    requires forall id :: Halting(s', id, m) <==> Halting(s, id, m)
    requires forall id | Halting(s', id, m) :: id in s.calls && s.calls[id] == s'.calls[id]
    requires m in s'.cut <==> m in s.cut
    ensures HaltedAt(s', m, past)
  {
    InterruptedKept(s.core.log, s'.core.log, m);
    var more := s'.core.log[|s.core.log|..];
    assert s'.core.log == s.core.log + more;
    NoHalts(s.core.log, more, m);
    assert m in s'.matches <==> m in s.matches;
    assert SomeHalting(s', m) <==> SomeHalting(s, m);
  }

  lemma NotHalting(s: State, id: nat, m: string)
    requires OnMatch(s, id, m) && Orderly(s, m) && !Halting(s, id, m)
    ensures !SomeHalting(s, m)
  {
    assert forall c :: Halting(s, c, m) ==> OnMatch(s, c, m);
  }

  // ── database statements ────────────────────────────────────────────────────

  lemma ExecuteHalted(s: State, id: nat, m: string, past: nat)
    requires AllOrderly(s) && id in s.calls && HaltedAt(s, m, past)
    ensures HaltedAt(Execute(s, id), m, past)
  {
    ExecuteLog(s, id);
    var s' := Execute(s, id);
    if s.calls[id].matchId == m && s'.core.log != s.core.log {
      assert OnMatch(s, id, m) && Orderly(s, m) && Fits(s, s.calls[id]);
      ExecuteEffect(s, id);
      OwnWrite(s, id);
      OwnHalted(s, s', id, m, s'.core.log[|s.core.log|], past);
    } else {
      ExecuteHaltsNone(s, id, m);
      HaltedKept(s, s', m, past);
    }
  }

  lemma ExecuteHaltsNone(s: State, id: nat, m: string)
    requires id in s.calls && (s.calls[id].matchId != m || Execute(s, id).core.log == s.core.log)
    ensures var s' := Execute(s, id);
      && (forall c :: Halting(s', c, m) <==> Halting(s, c, m))
      && (forall c | Halting(s', c, m) :: c in s.calls && s.calls[c] == s'.calls[c])
      && s.core.log <= s'.core.log && (forall e <- s'.core.log[|s.core.log|..] :: !Stops(e, m))
      && (m in s'.cut <==> m in s.cut)
  {}

  /** A state stored by a call of the match: FINISHED by a stop that has sent
      everything, the others by a start, before anything is sent. */
  lemma OwnHalted(s: State, s': State, id: nat, m: string, e: Entry, past: nat)
    requires OnMatch(s, id, m) && Orderly(s, m) && HaltedAt(s, m, past) && Fits(s, s.calls[id])
    requires s'.core.log == s.core.log + [e] && e.Wrote?
    requires m in s.matches && m in s'.matches && s'.matches[m].config == s.matches[m].config
    requires id in s'.calls && s'.calls == s.calls[id := s'.calls[id]] && s'.calls[id].matchId == m
    requires s.calls[id].MarkFinished? ==>
      s'.calls[id].MarkedFinished? && s'.matches[m].state == FINISHED && s'.matches[m].t0 == s.matches[m].t0
    requires !s.calls[id].MarkFinished? ==>
      !Halting(s, id, m) && !Halting(s', id, m) && s.matches[m].t0 == None && s.matches[m].state != FINISHED
      && s'.matches[m].state != FINISHED
    ensures HaltedAt(s', m, past)
  {
    HaltOne(s.core.log, e, m);
    InterruptedKept(s.core.log, s'.core.log, m);
    forall c | Halting(s', c, m) ensures c == id { if c != id { assert OnMatch(s, c, m); } }
    forall c | Halting(s, c, m) ensures c == id { assert OnMatch(s, c, m); }
    if s.calls[id].MarkFinished? {
      assert Halting(s, id, m) && Halting(s', id, m);
    } else {
      NotHalting(s, id, m);
    }
  }

  // ── the stop loop ──────────────────────────────────────────────────────────

  /** Where the stop loop with everyone registered leads from `k`. */
  lemma StopSends(core: Core, m: string, config: MatchConfig, k: nat)
    requires k <= |config.nodes| && forall na <- config.nodes :: na.nodeId in core.nodes
    ensures var r := StopFrom(core, m, config, k);
      && r.cancelled == None
      && if k == |config.nodes| then r.core.log == core.log && r.next == Await(MarkFinished(m))
         else
           && |r.core.log| == |core.log| + 1 && r.core.log == core.log + [r.core.log[|core.log|]]
           && Stops(r.core.log[|core.log|], m) && r.core.log[|core.log|].to == config.nodes[k].nodeId
           && r.next == Await(Stopping(m, config, k))
  {
    if k < |config.nodes| { assert config.nodes[k] in config.nodes; }
  }

  /** Call `id`, the only one of its match, goes on after a stretch of the stop
      loop that started with everything before `k` sent. */
  lemma StretchHalts(s: State, id: nat, m: string, r: Stretch, task: nat, k: nat, past: nat)
    requires OnMatch(s, id, m) && Orderly(s, m) && task !in s.calls
    requires m in s.matches && s.matches[m].t0.Some? && k <= |s.matches[m].config.nodes|
    requires Cut(s, m, past) && s.core.log <= r.core.log
    requires Halts(s.core.log, m) == Names(s.matches[m].config)[..past] + Names(s.matches[m].config)[..k]
    requires r.next.Await? && r.next.call.matchId == m
    requires if k == |s.matches[m].config.nodes| then r.core.log == s.core.log && r.next.call.MarkFinished?
      else
        && |r.core.log| == |s.core.log| + 1 && r.core.log == s.core.log + [r.core.log[|s.core.log|]]
        && Stops(r.core.log[|s.core.log|], m)
        && r.core.log[|s.core.log|].to == s.matches[m].config.nodes[k].nodeId
        && r.next.call.Stopping? && r.next.call.k == k
    ensures HaltedAt(Settle(s, id, m, r, task), m, past)
  {
    var s', names := Settle(s, id, m, r, task), Names(s.matches[m].config);
    SettleLog(s, id, m, r, task);
    SettleCalls(s, id, m, r, task);
    OnlyCall(s, s', id, m);
    InterruptedKept(s.core.log, s'.core.log, m);
    if k < |names| {
      HaltOne(s.core.log, r.core.log[|s.core.log|], m);
      TakeNext(names[..past], names, k);
    } else {
      assert names[..k] == names;
    }
    OnlyHalting(s', id, m, past);
  }

  lemma TakeNext<T>(a: seq<T>, s: seq<T>, k: nat)
    requires k < |s|
    ensures (a + s[..k]) + [s[k]] == a + s[..k + 1]
  {}

  lemma OnlyHalting(s: State, id: nat, m: string, past: nat)
    requires m in s.matches && s.matches[m].t0.Some? && Halting(s, id, m) && Cut(s, m, past)
    requires forall c | OnMatch(s, c, m) :: c == id
    requires var names, sent := Names(s.matches[m].config), Halts(s.core.log, m);
      if s.calls[id].Stopping? then s.calls[id].k < |names| && sent == names[..past] + names[..s.calls[id].k + 1]
      else sent == names[..past] + names
    ensures HaltedAt(s, m, past)
  {}

  lemma StopResumeHalts(p: Suite, s: State, id: nat, task: nat, past: nat)
    requires AllOrderly(s) && CallsFaithful(s) && AllRegistered(s) && id in s.calls && task !in s.calls
    requires s.calls[id].Stopping? && HaltedAt(s, s.calls[id].matchId, past)
    ensures var m, config, k := s.calls[id].matchId, s.calls[id].config, s.calls[id].k;
      k < |config.nodes| && HaltedAt(Settle(s, id, m, AfterStopSent(s.core, m, config, k), task), m, past)
  {
    var m, config, k := s.calls[id].matchId, s.calls[id].config, s.calls[id].k;
    assert OnMatch(s, id, m) && Orderly(s, m) && Fits(s, s.calls[id]) && CallFaithful(s.matches, s.calls[id]);
    assert Halting(s, id, m);
    var marked := s.core.(nodes := UpdateNode(s.core.nodes, config.nodes[k].nodeId, Ready));
    var r := AfterStopSent(s.core, m, config, k);
    assert r == StopFrom(marked, m, config, k + 1);
    if s.matches[m].t0.Some? {
      StopSends(marked, m, config, k + 1);
      StretchHalts(s, id, m, r, task, k + 1, past);
    } else {
      StopShape(marked, m, config, k + 1);
      GoesOnHalting(s, id, m, r, task, past);
    }
  }

  /** A match that never ran: nothing is claimed while it is being stopped. */
  lemma GoesOnHalting(s: State, id: nat, m: string, r: Stretch, task: nat, past: nat)
    requires OnMatch(s, id, m) && task !in s.calls && m in s.matches && s.matches[m].t0.None?
    requires r.next.Await? && r.next.call.matchId == m && (r.next.call.Stopping? || r.next.call.MarkFinished?)
    requires past == 0
    ensures HaltedAt(Settle(s, id, m, r, task), m, past)
  {
    var s' := Settle(s, id, m, r, task);
    SettleLog(s, id, m, r, task);
    SettleCalls(s, id, m, r, task);
    assert Halting(s', id, m);
  }

  lemma StopBeginsHalting(s: State, id: nat, task: nat, past: nat)
    requires AllOrderly(s) && CallsFaithful(s) && AllRegistered(s) && id in s.calls && task !in s.calls
    requires s.calls[id].StopGot? && HaltedAt(s, s.calls[id].matchId, past)
    requires s.calls[id].row.Some? && s.calls[id].row.value.state != FINISHED
    ensures var m, row := s.calls[id].matchId, s.calls[id].row;
      HaltedAt(Settle(s, id, m, AfterStopGet(s.core, m, row), task), m, past)
  {
    var m, row := s.calls[id].matchId, s.calls[id].row;
    assert OnMatch(s, id, m) && Orderly(s, m) && Fits(s, s.calls[id]);
    var popped, config := s.core.(timers := s.core.timers - {m}), row.value.config;
    var r := AfterStopGet(s.core, m, row);
    if s.matches[m].t0.Some? {
      StopSends(popped, m, config, 0);
      NotHalting(s, id, m);
      assert Halts(s.core.log, m) == Names(config)[..past] + Names(config)[..0];
      StretchHalts(s, id, m, r, task, 0, past);
    } else {
      StopShape(popped, m, config, 0);
      GoesOnHalting(s, id, m, r, task, past);
    }
  }

  // ── all other resumptions ──────────────────────────────────────────────────

  /** A call that is not in, or entering, the stop loop of `m`. */
  ghost predicate Elsewhere(call: Call, m: string) {
    call.matchId != m
    || !(call.Stopping? || (call.StopGot? && call.row.Some? && call.row.value.state != FINISHED))
  }

  lemma RunHaltsNone(p: Suite, core: Core, call: Call, now: real, mono: Mono, task: nat, m: string)
    requires Elsewhere(call, m)
    ensures var r := Run(p, core, call, now, mono, task);
      r.Some? ==>
        && core.log <= r.value.core.log && (forall e <- r.value.core.log[|core.log|..] :: !Stops(e, m))
        && (r.value.next.Await? && call.matchId == m ==>
              !r.value.next.call.Stopping? && !r.value.next.call.MarkFinished? && !r.value.next.call.MarkedFinished?)
  {
    hide DispatchFrom, StopFrom;
    RunGoesOn(p, core, call, now, mono, task);
    match call
    case MarkedRunning(own, t0, config) =>
      if own !in core.matchKeys {
        var keyed := core.(matchKeys := core.matchKeys[own := p.urandom(core.drawn, 32)], drawn := core.drawn + 1);
        DispatchHaltsNone(p, keyed, own, t0, config, 0, task, m);
      }
    case Starting(own, t0, config, k) =>
      if k < |config.nodes| {
        var marked := core.(nodes := UpdateNode(core.nodes, config.nodes[k].nodeId, Running));
        DispatchHaltsNone(p, marked, own, t0, config, k + 1, task, m);
      }
    case StopGot(own, row) =>
      if row.Some? && row.value.state != FINISHED {
        StopsOwn(core.(timers := core.timers - {own}), own, row.value.config, 0);
      }
    case Stopping(own, config, k) =>
      if k < |config.nodes| {
        StopsOwn(core.(nodes := UpdateNode(core.nodes, config.nodes[k].nodeId, Ready)), own, config, k + 1);
      }
    case _ =>
  }

  lemma DispatchHaltsNone(
      p: Suite, core: Core, own: string, t0: real, config: MatchConfig, k: nat, task: nat, m: string)
    ensures var r := DispatchFrom(p, core, own, t0, config, k, task);
      && core.log <= r.core.log && (forall e <- r.core.log[|core.log|..] :: !Stops(e, m))
      && (r.next.Await? ==> r.next.call.Starting?)
  {
    DispatchSendsOwn(p, core, own, t0, config, k, task);
    DispatchLog(p, core, own, t0, config, k, task);
  }

  lemma {:induction false} StopsOwn(core: Core, m: string, config: MatchConfig, k: nat)
    ensures var log := StopFrom(core, m, config, k).core.log;
      core.log <= log && forall e <- log[|core.log|..] :: Stops(e, m)
    decreases |config.nodes| - k
  {
    if k < |config.nodes| && config.nodes[k].nodeId !in core.nodes {
      StopsOwn(core, m, config, k + 1);
    }
  }

  lemma OtherHalted(p: Suite, s: State, id: nat, now: real, mono: Mono, task: nat, m: string, past: nat)
    requires AllOrderly(s) && HaltedAt(s, m, past) && id in s.calls && task !in s.calls && Elsewhere(s.calls[id], m)
    ensures var r := Run(p, s.core, s.calls[id], now, mono, task);
      r.Some? ==> HaltedAt(Settle(s, id, s.calls[id].matchId, r.value, task), m, past)
  {
    var own, r := s.calls[id].matchId, Run(p, s.core, s.calls[id], now, mono, task);
    if r.Some? {
      assert OnMatch(s, id, own) && Orderly(s, own) && Fits(s, s.calls[id]);
      RunLog(p, s.core, s.calls[id], now, mono, task);
      RunGoesOn(p, s.core, s.calls[id], now, mono, task);
      RunHaltsNone(p, s.core, s.calls[id], now, mono, task, m);
      if own == m && s.calls[id].MarkedFinished? {
        StopEnds(s, id, r.value, task, past);
      } else {
        SettleHaltsNone(s, id, own, r.value, task, m, past);
      }
    }
  }

  /** The stop returns: everything was sent, and the match is finished. */
  lemma StopEnds(s: State, id: nat, r: Stretch, task: nat, past: nat)
    requires id in s.calls && s.calls[id].MarkedFinished? && task !in s.calls
    requires var m := s.calls[id].matchId; Orderly(s, m) && Finished(s, m) && HaltedAt(s, m, past)
    requires r == Goes(s.core, Done(Stopped))
    ensures HaltedAt(Settle(s, id, s.calls[id].matchId, r, task), s.calls[id].matchId, past)
  {
    var m := s.calls[id].matchId;
    var s' := Settle(s, id, m, r, task);
    SettleLog(s, id, m, r, task);
    SettleCalls(s, id, m, r, task);
    OnlyCall(s, s', id, m);
    assert Halting(s, id, m) && !SomeHalting(s', m);
    HaltOne(s.core.log, Ended(m, Stopped), m);
    InterruptedKept(s.core.log, s'.core.log, m);
  }

  lemma SettleHaltsNone(s: State, id: nat, own: string, r: Stretch, task: nat, m: string, past: nat)
    requires HaltedAt(s, m, past) && id in s.calls && task !in s.calls
    requires !s.calls[id].Asleep? && own == s.calls[id].matchId
    requires !Halting(s, id, m)
    requires s.core.log <= r.core.log && forall e <- r.core.log[|s.core.log|..] :: !Stops(e, m)
    requires r.next.Await? ==> r.next.call.matchId == own
    requires r.next.Await? && own == m ==>
      !r.next.call.Stopping? && !r.next.call.MarkFinished? && !r.next.call.MarkedFinished?
    ensures HaltedAt(Settle(s, id, own, r, task), m, past)
  {
    hide Settle;
    var s' := Settle(s, id, own, r, task);
    SettleLog(s, id, own, r, task);
    assert s'.core.log[|s.core.log|..] == r.core.log[|s.core.log|..] + s'.core.log[|r.core.log|..];
    SettleCalls(s, id, own, r, task);
    SettleEffect(s, id, own, r, task);
    assert forall c :: Halting(s', c, m) <==> Halting(s, c, m);
    HaltedKept(s, s', m, past);
  }

  // ── whole runs ─────────────────────────────────────────────────────────────

  lemma ResumeHalted(env: Env, s: State, id: nat, now: real, mono: Mono, task: nat, m: string, past: nat)
    requires AllOrderly(s) && Safe(env.p, s) && AllRegistered(s) && HaltedAt(s, m, past)
    requires id in s.calls && task !in s.calls
    ensures HaltedAt(Apply(env, s, Resume(id, now, mono, task)), m, past)
  {
    assert CallFaithful(s.matches, s.calls[id]);
    if Elsewhere(s.calls[id], m) {
      OtherHalted(env.p, s, id, now, mono, task, m, past);
    } else if s.calls[id].Stopping? {
      StopResumeHalts(env.p, s, id, task, past);
    } else {
      StopBeginsHalting(s, id, task, past);
    }
  }

  lemma StepHalted(env: Env, s: State, e: Event, m: string, past: nat) returns (past': nat)
    requires AllOrderly(s) && Safe(env.p, s) && AllRegistered(s) && HaltedAt(s, m, past)
    ensures HaltedAt(Apply(env, s, e), m, past')
  {
    past' := past;
    match e
    case Database(id) => if id in s.calls { ExecuteHalted(s, id, m, past); }
    case Resume(id, now, mono, task) =>
      if id in s.calls && task !in s.calls { ResumeHalted(env, s, id, now, mono, task, m, past); }
    case Register(identity, req) => RegisterHalted(env, s, identity, req, m, past);
    case Create(own, config) => if own !in s.matches { CreateHalted(s, Apply(env, s, e), own, config, m, past); }
    case Abort(id) => if id in s.cancelled && id in s.calls { past' := AbortHalted(env, s, id, m, past); }
    case BeginStart(id, own, timeout) => if id !in s.calls { BeginHalted(s, id, StartGet(own, timeout), m, past); }
    case BeginStop(id, own) => if id !in s.calls { BeginHalted(s, id, StopGet(own), m, past); }
    case Wake(id) =>
      if id in s.calls && s.calls[id].Asleep? { BeginHalted(s, id, StopGet(s.calls[id].matchId), m, past); }
  }

  lemma RegisterHalted(env: Env, s: State, identity: Bytes, req: RegisterRequest, m: string, past: nat)
    requires HaltedAt(s, m, past)
    ensures HaltedAt(Apply(env, s, Register(identity, req)), m, past)
  {
    RegisterLog(env.p, env.tokens, s.core, identity, req);
    CoreHalted(s, HandleRegister(env.p, env.tokens, s.core, identity, req), m, past);
  }

  lemma CoreHalted(s: State, core: Core, m: string, past: nat)
    requires HaltedAt(s, m, past) && s.core.log <= core.log && forall e <- core.log[|s.core.log|..] :: !Stops(e, m)
    ensures HaltedAt(s.(core := core), m, past)
  {
    HaltedKept(s, s.(core := core), m, past);
  }

  lemma BeginHalted(s: State, id: nat, call: Call, m: string, past: nat)
    requires HaltedAt(s, m, past) && (call.StartGet? || call.StopGet?)
    requires id !in s.calls || s.calls[id].Asleep?
    ensures HaltedAt(s.(calls := s.calls[id := call]), m, past)
  {
    var s' := s.(calls := s.calls[id := call]);
    assert forall c :: Halting(s', c, m) <==> Halting(s, c, m);
    HaltedKept(s, s', m, past);
  }

  lemma CreateHalted(s: State, s': State, own: string, config: MatchConfig, m: string, past: nat)
    requires own !in s.matches && HaltedAt(s, m, past)
    requires s' == s.(matches := s.matches[own := MatchRow(config, LOBBY, None)],
                      core := s.core.(log := s.core.log + [Wrote(own, LOBBY, None)]))
    ensures HaltedAt(s', m, past)
  {
    if own == m {
      HaltOne(s.core.log, Wrote(m, LOBBY, None), m);
    } else {
      assert s'.core.log[|s.core.log|..] == [Wrote(own, LOBBY, None)];
      HaltedKept(s, s', m, past);
    }
  }

  lemma AbortHalted(env: Env, s: State, id: nat, m: string, past: nat) returns (past': nat)
    requires AllOrderly(s) && HaltedAt(s, m, past) && id in s.cancelled && id in s.calls
    ensures HaltedAt(Apply(env, s, Abort(id)), m, past')
  {
    var s', e := Apply(env, s, Abort(id)), Ended(s.calls[id].matchId, Cancelled);
    assert s'.core.log == s.core.log + [e];
    if s.calls[id].matchId == m {
      assert OnMatch(s, id, m) && Orderly(s, m) && Fits(s, s.calls[id]);
      past' := CutHalts(s, s', id, m, past);
    } else {
      past' := past;
      CallEnds(s, s', id, e, m, past);
    }
  }

  /** A stop is cut short: it was the first of its match to be, and what it has
      sent is kept. */
  lemma CutHalts(s: State, s': State, id: nat, m: string, past: nat) returns (past': nat)
    requires OnMatch(s, id, m) && Orderly(s, m) && Fits(s, s.calls[id]) && HaltedAt(s, m, past) && id in s.cancelled
    requires s'.core.log == s.core.log + [Ended(m, Cancelled)] && s'.matches == s.matches && s'.calls == s.calls - {id}
    requires m in s'.cut <==> m in s.cut || !s.calls[id].MarkedFinished?
    ensures HaltedAt(s', m, past')
  {
    HaltOne(s.core.log, Ended(m, Cancelled), m);
    InterruptedKept(s.core.log, s'.core.log, m);
    assert s'.core.log[|s.core.log|] == Ended(m, Cancelled);
    OnlyCall(s, s', id, m);
    assert Halting(s, id, m) && !SomeHalting(s', m);
    past' := past;
    if !s.calls[id].MarkedFinished? {
      var names := Names(s.matches[m].config);
      past' := if s.calls[id].Stopping? then s.calls[id].k + 1 else |names|;
      assert past == 0 && names[..|names|] == names;
      assert names[..past'] + [] == names[..past'] && names[..0] + names[..past'] == names[..past'];
    }
  }

  lemma CallEnds(s: State, s': State, id: nat, e: Entry, m: string, past: nat)
    requires HaltedAt(s, m, past) && id in s.calls && s.calls[id].matchId != m
    requires s'.core.log == s.core.log + [e] && e.Ended? && s'.matches == s.matches && s'.calls == s.calls - {id}
    requires m in s'.cut <==> m in s.cut
    ensures HaltedAt(s', m, past)
  {
    assert s'.core.log[|s.core.log|..] == [e];
    assert forall c :: Halting(s', c, m) <==> Halting(s, c, m);
    HaltedKept(s, s', m, past);
  }

  lemma {:induction false} RunsHalted(env: Env, es: seq<Event>, m: string) returns (past: nat)
    requires SerialRun(env, es)
    ensures var s := RunAll(env, INIT, es); AllEnlisted(s) && AllRegistered(s) && HaltedAt(s, m, past)
  {
    past := 0;
    if es != [] {
      var init, e := es[..|es| - 1], es[|es| - 1];
      var s := RunAll(env, INIT, init);
      past := RunsHalted(env, init, m);
      RunsSafe(env, init);
      RunsOrderly(env, init);
      StepEnlisted(env, s, e);
      StepRegistered(env, s, e);
      past := StepHalted(env, s, e, m, past);
    }
  }

  /** Whoever stops a match that has run, its auto-stop or someone else, and however
      an auto-stop is cut short: once it is finished, one STOP was sent per
      assignment, in the order of the configuration, all in one go; before that
      only the first `past` of them by a stop that was cut short, and none without
      one. */
  lemma {:induction false} OneStopPerAssignment(env: Env, es: seq<Event>, m: string) returns (past: nat)
    requires SerialRun(env, es)
    requires var s := RunAll(env, INIT, es); m in s.matches && s.matches[m].t0.Some? && !Busy(s, m)
    ensures
      var s := RunAll(env, INIT, es);
      var names := Names(s.matches[m].config);
      && past <= |names| && (past > 0 ==> Interrupted(s.core.log, m))
      && Halts(s.core.log, m) == names[..past] + if s.matches[m].state == FINISHED then names else []
  {
    past := RunsHalted(env, es, m);
    assert forall id :: Halting(RunAll(env, INIT, es), id, m) ==> OnMatch(RunAll(env, INIT, es), id, m);
  }

  // ── where STOPs go ─────────────────────────────────────────────────────────

  /** A new STOP of `m` is the first new entry and goes where its node is registered. */
  ghost predicate NewStopsReach(core: Core, log: seq<Entry>, m: string) {
    && core.log <= log
    && forall j: nat | |core.log| <= j < |log| && Stops(log[j], m) ::
         j == |core.log| && log[j].to in core.nodes && log[j].identity == core.nodes[log[j].to].identity
  }

  lemma {:induction false} StopFromReaches(core: Core, own: string, config: MatchConfig, k: nat, m: string)
    ensures NewStopsReach(core, StopFrom(core, own, config, k).core.log, m)
    decreases |config.nodes| - k
  {
    if k < |config.nodes| && config.nodes[k].nodeId !in core.nodes { StopFromReaches(core, own, config, k + 1, m); }
  }

  lemma NoneReaches(core: Core, log: seq<Entry>, m: string)
    requires core.log <= log && forall e <- log[|core.log|..] :: !Stops(e, m)
    ensures NewStopsReach(core, log, m)
  {
    forall j: nat | |core.log| <= j < |log| ensures !Stops(log[j], m) { assert log[j] in log[|core.log|..]; }
  }

  lemma RunReaches(p: Suite, core: Core, call: Call, now: real, mono: Mono, task: nat, m: string)
    ensures var r := Run(p, core, call, now, mono, task);
      r.Some? ==> NewStopsReach(core, r.value.core.log, m)
  {
    hide DispatchFrom, StopFrom, NewStopsReach;
    if Elsewhere(call, m) {
      RunHaltsNone(p, core, call, now, mono, task, m);
      var r := Run(p, core, call, now, mono, task);
      if r.Some? { NoneReaches(core, r.value.core.log, m); }
    } else if call.StopGot? {
      var popped := core.(timers := core.timers - {m});
      StopFromReaches(popped, m, call.row.value.config, 0, m);
      SameReach(core, popped, StopFrom(popped, m, call.row.value.config, 0).core.log, m);
    } else if call.k < |call.config.nodes| {
      var marked := core.(nodes := UpdateNode(core.nodes, call.config.nodes[call.k].nodeId, Ready));
      StopFromReaches(marked, m, call.config, call.k + 1, m);
      SameReach(core, marked, StopFrom(marked, m, call.config, call.k + 1).core.log, m);
    }
  }

  lemma SameReach(core: Core, core': Core, log: seq<Entry>, m: string)
    requires NewStopsReach(core', log, m) && core'.log == core.log
    requires forall n | n in core'.nodes :: n in core.nodes && core.nodes[n].identity == core'.nodes[n].identity
    ensures NewStopsReach(core, log, m)
  {}

  lemma StepReaches(env: Env, s: State, e: Event, m: string)
    ensures NewStopsReach(s.core, Apply(env, s, e).core.log, m)
  {
    hide Run, HandleRegister, Execute, NewStopsReach;
    var s' := Apply(env, s, e);
    match e
    case Resume(id, now, mono, task) =>
      if id in s.calls && task !in s.calls {
        var r := Run(env.p, s.core, s.calls[id], now, mono, task);
        if r.Some? {
          RunReaches(env.p, s.core, s.calls[id], now, mono, task, m);
          SettleLog(s, id, s.calls[id].matchId, r.value, task);
          EndedReaches(s.core, r.value.core.log, s'.core.log, m);
          return;
        }
      }
      NoneReaches(s.core, s'.core.log, m);
    case Register(identity, req) =>
      RegisterLog(env.p, env.tokens, s.core, identity, req);
      NoneReaches(s.core, s'.core.log, m);
    case Database(id) =>
      if id in s.calls { ExecuteLog(s, id); }
      NoneReaches(s.core, s'.core.log, m);
    case _ => NoneReaches(s.core, s'.core.log, m);
  }

  lemma EndedReaches(core: Core, log: seq<Entry>, log': seq<Entry>, m: string)
    requires NewStopsReach(core, log, m)
    requires log' == log || (|log'| == |log| + 1 && log'[..|log|] == log && log'[|log|].Ended?)
    ensures NewStopsReach(core, log', m)
  {
    forall j: nat | |core.log| <= j < |log'| && Stops(log'[j], m)
      ensures j == |core.log| && log'[j].to in core.nodes && log'[j].identity == core.nodes[log'[j].to].identity
    {
      assert j < |log| && log'[j] == log[j];
    }
  }

  /** In every run a STOP goes to the connection of its node's latest REGISTER. */
  lemma {:induction false} StopsReachLatest(env: Env, es: seq<Event>, m: string, j: nat)
    requires j < |RunAll(env, INIT, es).core.log| && Stops(RunAll(env, INIT, es).core.log[j], m)
    ensures var log := RunAll(env, INIT, es).core.log;
      Latest(log[..j], log[j].to).Some? && log[Latest(log[..j], log[j].to).value].peerIdentity == log[j].identity
  {
    var init, e := es[..|es| - 1], es[|es| - 1];
    var s, s' := RunAll(env, INIT, init), RunAll(env, INIT, es);
    LogGrows(env, s, e);
    hide Apply;
    if j < |s.core.log| {
      assert s'.core.log[..j] == s.core.log[..j] && s'.core.log[j] == s.core.log[j];
      StopsReachLatest(env, init, m, j);
    } else {
      RunsSafe(env, init);
      StepReaches(env, s, e, m);
      assert s'.core.log[..j] == s.core.log;
      assert Traced(env.p, s.core, s'.core.log[j].to);
    }
  }
}
