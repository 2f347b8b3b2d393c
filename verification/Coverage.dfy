/** In a serialised run in which every accepted REGISTER carries a usable key, a
    start that passes the readiness check sends one START per assignment, in the
    order of the configuration, whatever re-registers meanwhile. */
module Coverage {
  import opened Prelude
  import opened Sealing
  import opened ServerCore
  import opened Control
  import opened Safety
  import opened Lifecycle
  import opened History

  ghost function Plan(config: MatchConfig, t0: real): seq<Dispatched> {
    seq(|config.nodes|, i requires 0 <= i < |config.nodes| =>
      Dispatched(config.nodes[i].nodeId, config.nodes[i].agentname, t0))
  }

  // ── who is expected is registered ──────────────────────────────────────────

  ghost predicate Enlisted(core: Core, call: Call) {
    (call.MarkRunning? || call.MarkedRunning? || call.Starting?) ==>
      forall na <- call.config.nodes :: na.nodeId in core.nodes
  }

  ghost predicate AllEnlisted(s: State) {
    forall id | id in s.calls :: Enlisted(s.core, s.calls[id])
  }

  lemma RunEnlisted(p: Suite, core: Core, call: Call, now: real, mono: Mono, task: nat)
    requires Enlisted(core, call)
    ensures var r := Run(p, core, call, now, mono, task);
      r.Some? && r.value.next.Await? ==> Enlisted(core, r.value.next.call)
  {
    hide DispatchFrom, StopFrom;
    match call
    case MarkedRunning(m, t0, config) =>
      if m !in core.matchKeys {
        var keyed := core.(matchKeys := core.matchKeys[m := p.urandom(core.drawn, 32)], drawn := core.drawn + 1);
        DispatchLog(p, keyed, m, t0, config, 0, task);
      }
    case Starting(m, t0, config, k) =>
      if k < |config.nodes| {
        var marked := core.(nodes := UpdateNode(core.nodes, config.nodes[k].nodeId, Running));
        DispatchLog(p, marked, m, t0, config, k + 1, task);
      }
    case StopGot(m, row) =>
      if row.Some? { StopShape(core.(timers := core.timers - {m}), m, row.value.config, 0); }
    case Stopping(m, config, k) =>
      if k < |config.nodes| {
        StopShape(core.(nodes := UpdateNode(core.nodes, config.nodes[k].nodeId, Ready)), m, config, k + 1);
      }
    case MarkedStarting(m, timeout, config) => PollEnlisted(core, m, mono.entered + timeout, config, now, mono.checked);
    case Polling(m, deadline, config) => PollEnlisted(core, m, deadline, config, now, mono.checked);
    case _ =>
  }

  lemma PollEnlisted(core: Core, m: string, deadline: real, config: MatchConfig, now: real, mono: real)
    ensures Enlisted(core, Poll(core, m, deadline, config, now, mono).next.call)
  {
    if Expected(config) <= AllInState(core.nodes, Ready) {
      forall na | na in config.nodes ensures na.nodeId in core.nodes {
        assert na.nodeId in Expected(config);
      }
    }
  }

  lemma EnlistedGrows(c: Core, c': Core, call: Call)
    requires Enlisted(c, call) && c.nodes.Keys <= c'.nodes.Keys
    ensures Enlisted(c', call)
  {
    forall n | n in c.nodes ensures n in c'.nodes { assert n in c.nodes.Keys; }
  }

  lemma EnlistedKept(s: State, s': State, id: nat)
    requires AllEnlisted(s) && s.core.nodes.Keys <= s'.core.nodes.Keys
    requires forall c | c in s'.calls && c != id :: (c in s.calls && s'.calls[c] == s.calls[c]) || s'.calls[c].Asleep?
    requires id in s'.calls ==> Enlisted(s'.core, s'.calls[id])
    ensures AllEnlisted(s')
  {
    forall c | c in s'.calls ensures Enlisted(s'.core, s'.calls[c]) {
      if c != id && c in s.calls { EnlistedGrows(s.core, s'.core, s.calls[c]); }
    }
  }

  lemma ResumeEnlisted(env: Env, s: State, id: nat, now: real, mono: Mono, task: nat)
    requires Safe(env.p, s) && AllEnlisted(s) && id in s.calls && task !in s.calls
    ensures var r := Run(env.p, s.core, s.calls[id], now, mono, task);
      r.Some? ==>
        var s' := Settle(s, id, s.calls[id].matchId, r.value, task);
        AllEnlisted(s') && s.core.nodes.Keys <= s'.core.nodes.Keys
  {
    assert Enlisted(s.core, s.calls[id]) && CallFaithful(s.matches, s.calls[id]);
    RunEnlisted(env.p, s.core, s.calls[id], now, mono, task);
    RunSafe(env.p, s.core, s.matches, s.calls[id], now, mono, task);
    var r := Run(env.p, s.core, s.calls[id], now, mono, task);
    if r.Some? {
      var s' := Settle(s, id, s.calls[id].matchId, r.value, task);
      SettleLog(s, id, s.calls[id].matchId, r.value, task);
      if r.value.next.Await? { EnlistedGrows(s.core, s'.core, r.value.next.call); }
      EnlistedKept(s, s', id);
    }
  }

  lemma StepEnlisted(env: Env, s: State, e: Event)
    requires Safe(env.p, s) && AllEnlisted(s)
    ensures AllEnlisted(Apply(env, s, e)) && s.core.nodes.Keys <= Apply(env, s, e).core.nodes.Keys
  {
    var s' := Apply(env, s, e);
    match e
    case Register(identity, req) => RegisterEnlisted(env, s, identity, req);
    case Resume(id, now, mono, task) =>
      if id in s.calls && task !in s.calls { ResumeEnlisted(env, s, id, now, mono, task); }
    case Database(id) => if id in s.calls { ExecuteEnlisted(s, id); }
    case BeginStart(id, _, _) => if id !in s.calls { EnlistedKept(s, s', id); }
    case BeginStop(id, _) => if id !in s.calls { EnlistedKept(s, s', id); }
    case Wake(id) => if id in s.calls && s.calls[id].Asleep? { EnlistedKept(s, s', id); }
    case Abort(id) => if id in s.cancelled && id in s.calls { EnlistedKept(s, s', id); }
    case Create(_, _) =>
      assert s'.core.nodes == s.core.nodes && s'.calls == s.calls;
      forall id | id in s'.calls ensures Enlisted(s'.core, s'.calls[id]) { assert Enlisted(s.core, s.calls[id]); }
  }

  lemma ExecuteEnlisted(s: State, id: nat)
    requires AllEnlisted(s) && id in s.calls
    ensures AllEnlisted(Execute(s, id)) && Execute(s, id).core.nodes == s.core.nodes
  {
    assert Enlisted(s.core, s.calls[id]);
    EnlistedKept(s, Execute(s, id), id);
  }

  lemma RegisterEnlisted(env: Env, s: State, identity: Bytes, req: RegisterRequest)
    requires AllEnlisted(s)
    ensures var s' := Apply(env, s, Register(identity, req));
      AllEnlisted(s') && s.core.nodes.Keys <= s'.core.nodes.Keys
  {
    var s' := Apply(env, s, Register(identity, req));
    RegisterLog(env.p, env.tokens, s.core, identity, req);
    forall id | id in s'.calls ensures Enlisted(s'.core, s'.calls[id]) {
      assert Enlisted(s.core, s.calls[id]);
      EnlistedGrows(s.core, s'.core, s.calls[id]);
    }
  }

  // ── what has been sent so far ──────────────────────────────────────────────

  /** Call `id` is dispatching match `m`. */
  ghost predicate Dispatching(s: State, id: nat, m: string) {
    OnMatch(s, id, m) && (s.calls[id].MarkedRunning? || s.calls[id].Starting?)
  }

  /** Before t0 nothing; while dispatching exactly the assignments up to the
      current one; afterwards all of them. */
  ghost predicate Covered(s: State, m: string) {
    var sent := Dispatches(s.core.log, m);
    if m !in s.matches || s.matches[m].t0.None? then sent == []
    else
      var plan := Plan(s.matches[m].config, s.matches[m].t0.value);
      && (forall id | Dispatching(s, id, m) ::
            if s.calls[id].Starting? then s.calls[id].k < |plan| && sent == plan[..s.calls[id].k + 1] else sent == [])
      && ((exists id :: Dispatching(s, id, m)) || sent == plan)
  }

  lemma CoveredKept(s: State, s': State, m: string)
    requires Covered(s, m) && s.core.log <= s'.core.log
    requires forall e <- s'.core.log[|s.core.log|..] :: !Starts(e, m)
    requires m in s'.matches <==> m in s.matches
    requires m in s.matches ==>
      s'.matches[m].config == s.matches[m].config && s'.matches[m].t0 == s.matches[m].t0
    requires forall id :: Dispatching(s', id, m) <==> Dispatching(s, id, m)
    requires forall id | Dispatching(s', id, m) :: id in s.calls && s.calls[id] == s'.calls[id]
    ensures Covered(s', m)
  {
    var more := s'.core.log[|s.core.log|..];
    assert s'.core.log == s.core.log + more;
    NoStarts(s.core.log, more, m);
  }

  /** What entering the dispatch loop with everything up to `k` sent rests on. */
  ghost predicate CanDispatch(
      s: State, id: nat, m: string, core: Core, t0: real, config: MatchConfig, k: nat, task: nat)
  {
    && Orderly(s, m) && Dispatching(s, id, m) && task !in s.calls
    && m in s.matches && s.matches[m].config == config && s.matches[m].t0 == Some(t0)
    && core.log == s.core.log && m in core.matchKeys && k <= |config.nodes|
    && (forall na <- config.nodes :: na.nodeId in core.nodes && na.nodeId in core.sessions)
    && Dispatches(s.core.log, m) == Plan(config, t0)[..k]
  }

  lemma DispatchCovers(
      p: Suite, s: State, id: nat, m: string, core: Core, t0: real, config: MatchConfig, k: nat, task: nat)
    requires CanDispatch(s, id, m, core, t0, config, k, task)
    ensures Covered(Settle(s, id, m, DispatchFrom(p, core, m, t0, config, k, task), task), m)
  {
    DispatchShape(p, core, m, t0, config, k, task);
    DispatchLog(p, core, m, t0, config, k, task);
    assert k < |config.nodes| ==> config.nodes[k] in config.nodes;
    if DispatchFrom(p, core, m, t0, config, k, task).next.Await? {
      DispatchSends(p, s, id, m, core, t0, config, k, task);
    } else {
      DispatchEnds(p, s, id, m, core, t0, config, k, task);
    }
  }

  lemma DispatchSends(
      p: Suite, s: State, id: nat, m: string, core: Core, t0: real, config: MatchConfig, k: nat, task: nat)
    requires CanDispatch(s, id, m, core, t0, config, k, task)
    requires var r := DispatchFrom(p, core, m, t0, config, k, task);
      && r.next.Await? && r.next.call.Starting? && r.next.call.matchId == m
      && r.next.call.k == k < |config.nodes| && r.cancelled == None
      && r.core.log == core.log + [r.core.log[|core.log|]]
      && var e, na := r.core.log[|core.log|], config.nodes[k];
         IsStart(e) && e.to == na.nodeId && e.msg.matchId == m && e.msg.agentname == na.agentname && e.msg.t0 == t0
    ensures Covered(Settle(s, id, m, DispatchFrom(p, core, m, t0, config, k, task), task), m)
  {
    hide DispatchFrom;
    var r := DispatchFrom(p, core, m, t0, config, k, task);
    var s', plan, e := Settle(s, id, m, r, task), Plan(config, t0), r.core.log[|core.log|];
    SettleCalls(s, id, m, r, task);
    SettleLog(s, id, m, r, task);
    OnlyCall(s, s', id, m);
    ReadOne(s.core.log, e, m);
    assert Dispatches(s'.core.log, m) == plan[..k] + [plan[k]] == plan[..k + 1];
    assert Dispatching(s', id, m);
  }

  lemma DispatchEnds(
      p: Suite, s: State, id: nat, m: string, core: Core, t0: real, config: MatchConfig, k: nat, task: nat)
    requires CanDispatch(s, id, m, core, t0, config, k, task) && k == |config.nodes|
    requires var r := DispatchFrom(p, core, m, t0, config, k, task);
      r.next == Done(Started) && r.cancelled == None && r.core.log == core.log
    ensures Covered(Settle(s, id, m, DispatchFrom(p, core, m, t0, config, k, task), task), m)
  {
    var r := DispatchFrom(p, core, m, t0, config, k, task);
    var s', plan := Settle(s, id, m, r, task), Plan(config, t0);
    OnlyCall(s, s', id, m);
    ReadOne(s.core.log, Ended(m, Started), m);
    assert plan[..k] == plan;
  }

  /** Resuming a call of match `m` that is not dispatching sends no START and does
      not begin to dispatch. */
  lemma OtherResume(p: Suite, s: State, id: nat, now: real, mono: Mono, task: nat, m: string)
    requires AllOrderly(s) && Covered(s, m) && id in s.calls && task !in s.calls
    requires !Dispatching(s, id, m)
    ensures var r := Run(p, s.core, s.calls[id], now, mono, task);
      r.Some? ==> Covered(Settle(s, id, s.calls[id].matchId, r.value, task), m)
  {
    var own := s.calls[id].matchId;
    var r := Run(p, s.core, s.calls[id], now, mono, task);
    if r.Some? {
      RunLog(p, s.core, s.calls[id], now, mono, task);
      RunGoesOn(p, s.core, s.calls[id], now, mono, task);
      OtherSettle(s, id, own, r.value, task, m);
    }
  }

  lemma OtherSettle(s: State, id: nat, own: string, r: Stretch, task: nat, m: string)
    requires Covered(s, m) && id in s.calls && task !in s.calls && !s.calls[id].Asleep?
    requires own == s.calls[id].matchId && !Dispatching(s, id, m)
    requires s.core.log <= r.core.log && forall e <- r.core.log[|s.core.log|..] :: !Starts(e, m)
    requires r.next.Await? ==> r.next.call.matchId == own
    requires r.next.Await? && own == m ==> !r.next.call.MarkedRunning? && !r.next.call.Starting?
    ensures Covered(Settle(s, id, own, r, task), m)
  {
    var s' := Settle(s, id, own, r, task);
    SettleLog(s, id, own, r, task);
    assert s'.core.log[|s.core.log|..] == r.core.log[|s.core.log|..] + s'.core.log[|r.core.log|..];
    SettleCalls(s, id, own, r, task);
    assert forall c :: Dispatching(s', c, m) <==> Dispatching(s, c, m);
    CoveredKept(s, s', m);
  }

  /** Settling call `id` changes no other call but sleeping ones. */
  lemma SettleCalls(s: State, id: nat, m: string, r: Stretch, task: nat)
    requires id in s.calls && task !in s.calls && !s.calls[id].Asleep?
    ensures var s' := Settle(s, id, m, r, task);
      && (if r.next.Await? then id in s'.calls && s'.calls[id] == r.next.call else id !in s'.calls)
      && (forall c | c != id && c in s.calls && !s.calls[c].Asleep? :: c in s'.calls && s'.calls[c] == s.calls[c])
      && (forall c | c != id && c in s'.calls && !s'.calls[c].Asleep? :: c in s.calls && s'.calls[c] == s.calls[c])
  {}

  lemma RunGoesOn(p: Suite, core: Core, call: Call, now: real, mono: Mono, task: nat)
    ensures var r := Run(p, core, call, now, mono, task);
      r.Some? ==>
        && (r.value.next.Await? ==>
              r.value.next.call.matchId == call.matchId && !r.value.next.call.MarkedRunning?
              && (r.value.next.call.Starting? ==> call.MarkedRunning? || call.Starting?))
        && (r.value.cancelled.Some? ==>
              call.matchId in core.timers && r.value.cancelled.value == core.timers[call.matchId])
  {
    hide DispatchFrom, StopFrom;
    match call
    case MarkedRunning(m, t0, config) =>
      if m !in core.matchKeys {
        var keyed := core.(matchKeys := core.matchKeys[m := p.urandom(core.drawn, 32)], drawn := core.drawn + 1);
        DispatchShape(p, keyed, m, t0, config, 0, task);
      }
    case Starting(m, t0, config, k) =>
      if k < |config.nodes| {
        var marked := core.(nodes := UpdateNode(core.nodes, config.nodes[k].nodeId, Running));
        DispatchLog(p, marked, m, t0, config, k + 1, task);
        DispatchCancelsNone(p, marked, m, t0, config, k + 1, task);
      }
    case StopGot(m, row) =>
      if row.Some? { StopShape(core.(timers := core.timers - {m}), m, row.value.config, 0); }
    case Stopping(m, config, k) =>
      if k < |config.nodes| {
        StopShape(core.(nodes := UpdateNode(core.nodes, config.nodes[k].nodeId, Ready)), m, config, k + 1);
      }
    case _ =>
  }

  lemma {:induction false} DispatchCancelsNone(
      p: Suite, core: Core, m: string, t0: real, config: MatchConfig, k: nat, task: nat)
    ensures DispatchFrom(p, core, m, t0, config, k, task).cancelled == None
    decreases |config.nodes| - k
  {
    if k < |config.nodes| {
      var na := config.nodes[k];
      DispatchCancelsNone(p, core, m, t0, config, k + 1, task);
      DispatchCancelsNone(p, core.(drawn := core.drawn + |na.schedule| + 1), m, t0, config, k + 1, task);
    }
  }

  lemma DispatchResume(p: Suite, s: State, id: nat, now: real, mono: Mono, task: nat)
    requires AllOrderly(s) && Safe(p, s) && AllEnlisted(s) && id in s.calls && task !in s.calls
    requires s.core.nodes.Keys == s.core.sessions.Keys
    requires s.calls[id].MarkedRunning? || s.calls[id].Starting?
    requires Covered(s, s.calls[id].matchId)
    ensures var r := Run(p, s.core, s.calls[id], now, mono, task);
      r.Some? ==> Covered(Settle(s, id, s.calls[id].matchId, r.value, task), s.calls[id].matchId)
  {
    var call, m := s.calls[id], s.calls[id].matchId;
    assert Dispatching(s, id, m) && Orderly(s, m) && Fits(s, call) && CallFaithful(s.matches, call);
    assert Enlisted(s.core, call);
    forall na | na in call.config.nodes ensures na.nodeId in s.core.sessions {
      assert na.nodeId in s.core.nodes.Keys;
    }
    if call.MarkedRunning? {
      EnterCovers(p, s, id, task);
    } else {
      GoesOnCovering(p, s, id, task);
    }
  }

  lemma GoesOnCovering(p: Suite, s: State, id: nat, task: nat)
    requires id in s.calls && s.calls[id].Starting? && task !in s.calls
    requires Orderly(s, s.calls[id].matchId) && Covered(s, s.calls[id].matchId)
    requires Dispatching(s, id, s.calls[id].matchId)
    requires CallFaithful(s.matches, s.calls[id]) && s.matches[s.calls[id].matchId].t0 == Some(s.calls[id].t0)
    requires forall na <- s.calls[id].config.nodes :: na.nodeId in s.core.nodes && na.nodeId in s.core.sessions
    requires s.calls[id].matchId in s.core.matchKeys
    ensures var m, t0, config, k := s.calls[id].matchId, s.calls[id].t0, s.calls[id].config, s.calls[id].k;
      Covered(Settle(s, id, m, AfterStartSent(p, s.core, m, t0, config, k, task), task), m)
  {
    var m, t0, config, k := s.calls[id].matchId, s.calls[id].t0, s.calls[id].config, s.calls[id].k;
    var marked := s.core.(nodes := UpdateNode(s.core.nodes, config.nodes[k].nodeId, Running));
    var r := AfterStartSent(p, s.core, m, t0, config, k, task);
    assert r == DispatchFrom(p, marked, m, t0, config, k + 1, task);
    assert Covered(Settle(s, id, m, r, task), m) by {
      GoesOnReady(s, id, marked, task);
      DispatchCovers(p, s, id, m, marked, t0, config, k + 1, task);
    }
  }

  lemma GoesOnReady(s: State, id: nat, marked: Core, task: nat)
    requires id in s.calls && s.calls[id].Starting? && task !in s.calls
    requires Orderly(s, s.calls[id].matchId) && Covered(s, s.calls[id].matchId)
    requires Dispatching(s, id, s.calls[id].matchId)
    requires CallFaithful(s.matches, s.calls[id]) && s.matches[s.calls[id].matchId].t0 == Some(s.calls[id].t0)
    requires forall na <- s.calls[id].config.nodes :: na.nodeId in marked.nodes && na.nodeId in marked.sessions
    requires s.calls[id].matchId in marked.matchKeys && marked.log == s.core.log
    ensures CanDispatch(
      s, id, s.calls[id].matchId, marked, s.calls[id].t0, s.calls[id].config, s.calls[id].k + 1, task)
  {}

  lemma EnterCovers(p: Suite, s: State, id: nat, task: nat)
    requires id in s.calls && s.calls[id].MarkedRunning? && task !in s.calls
    requires Orderly(s, s.calls[id].matchId) && Covered(s, s.calls[id].matchId)
    requires CallFaithful(s.matches, s.calls[id]) && s.matches[s.calls[id].matchId].t0 == Some(s.calls[id].t0)
    requires forall na <- s.calls[id].config.nodes :: na.nodeId in s.core.nodes && na.nodeId in s.core.sessions
    requires s.calls[id].matchId !in s.core.matchKeys
    ensures var m, t0, config := s.calls[id].matchId, s.calls[id].t0, s.calls[id].config;
      Covered(Settle(s, id, m, BeginDispatch(p, s.core, m, t0, config, task), task), m)
  {
    var m, t0, config := s.calls[id].matchId, s.calls[id].t0, s.calls[id].config;
    var keyed := s.core.(
      matchKeys := s.core.matchKeys[m := p.urandom(s.core.drawn, 32)], drawn := s.core.drawn + 1);
    var r := BeginDispatch(p, s.core, m, t0, config, task);
    assert r == DispatchFrom(p, keyed, m, t0, config, 0, task);
    assert Covered(Settle(s, id, m, r, task), m) by {
      EnterReady(s, id, keyed, task);
      DispatchCovers(p, s, id, m, keyed, t0, config, 0, task);
    }
  }

  lemma EnterReady(s: State, id: nat, keyed: Core, task: nat)
    requires id in s.calls && s.calls[id].MarkedRunning? && task !in s.calls
    requires Orderly(s, s.calls[id].matchId) && Covered(s, s.calls[id].matchId)
    requires CallFaithful(s.matches, s.calls[id]) && s.matches[s.calls[id].matchId].t0 == Some(s.calls[id].t0)
    requires forall na <- s.calls[id].config.nodes :: na.nodeId in keyed.nodes && na.nodeId in keyed.sessions
    requires s.calls[id].matchId in keyed.matchKeys && keyed.log == s.core.log
    ensures CanDispatch(s, id, s.calls[id].matchId, keyed, s.calls[id].t0, s.calls[id].config, 0, task)
  {
    var m := s.calls[id].matchId;
    assert Dispatching(s, id, m);
    assert Dispatches(s.core.log, m) == Plan(s.calls[id].config, s.calls[id].t0)[..0];
  }

  /** Steps that send no START and move no dispatch. */
  lemma QuietCovered(s: State, s': State, m: string)
    requires Covered(s, m) && s.core.log <= s'.core.log
    requires forall e <- s'.core.log[|s.core.log|..] :: !IsStart(e)
    requires m in s'.matches <==> m in s.matches
    requires m in s.matches ==>
      s'.matches[m].config == s.matches[m].config && s'.matches[m].t0 == s.matches[m].t0
    requires forall id :: Dispatching(s', id, m) <==> Dispatching(s, id, m)
    requires forall id | Dispatching(s', id, m) :: id in s.calls && s.calls[id] == s'.calls[id]
    ensures Covered(s', m)
  {
    forall e | e in s'.core.log[|s.core.log|..] ensures !Starts(e, m) {}
    CoveredKept(s, s', m);
  }

  lemma ExecuteCovered(s: State, id: nat, m: string)
    requires AllOrderly(s) && id in s.calls && Covered(s, m)
    ensures Covered(Execute(s, id), m)
  {
    var s', own := Execute(s, id), s.calls[id].matchId;
    if own == m && s.calls[id].MarkRunning? {
      assert OnMatch(s, id, own) && Orderly(s, own) && Fits(s, s.calls[id]);
      var e := s'.core.log[|s.core.log|];
      assert s'.core.log == s.core.log + [e];
      assert Dispatching(s', id, m);
      ClockStarts(s, s', id, m, e);
    } else {
      ExecuteLog(s, id);
      ExecuteMoves(s, id, m);
      OtherStatement(s, s', m);
    }
  }

  /** A statement that does not start the clock of `m` moves no dispatch of it. */
  lemma ExecuteMoves(s: State, id: nat, m: string)
    requires id in s.calls && !(s.calls[id].matchId == m && s.calls[id].MarkRunning?)
    ensures var s' := Execute(s, id);
      && (m in s'.matches <==> m in s.matches)
      && (m in s.matches ==> s'.matches[m].config == s.matches[m].config && s'.matches[m].t0 == s.matches[m].t0)
      && (forall c :: Dispatching(s', c, m) <==> Dispatching(s, c, m))
      && (forall c | Dispatching(s', c, m) :: c in s.calls && s.calls[c] == s'.calls[c])
  {}

  lemma OtherStatement(s: State, s': State, m: string)
    requires Covered(s, m) && s.core.log <= s'.core.log
    requires s'.core.log == s.core.log || (|s'.core.log| == |s.core.log| + 1 && s'.core.log[|s.core.log|].Wrote?)
    requires m in s'.matches <==> m in s.matches
    requires m in s.matches ==> s'.matches[m].config == s.matches[m].config && s'.matches[m].t0 == s.matches[m].t0
    requires forall c :: Dispatching(s', c, m) <==> Dispatching(s, c, m)
    requires forall c | Dispatching(s', c, m) :: c in s.calls && s.calls[c] == s'.calls[c]
    ensures Covered(s', m)
  {
    forall e | e in s'.core.log[|s.core.log|..] ensures e == s'.core.log[|s.core.log|] {}
    QuietCovered(s, s', m);
  }

  /** The clock starts: nothing has been sent yet. */
  lemma ClockStarts(s: State, s': State, id: nat, m: string, e: Entry)
    requires OnMatch(s, id, m) && Orderly(s, m) && Covered(s, m)
    requires m in s.matches && s.matches[m].t0 == None && m in s'.matches && s'.matches[m].t0.Some?
    requires s'.core.log == s.core.log + [e] && !Starts(e, m)
    requires Dispatching(s', id, m) && s'.calls[id].MarkedRunning?
    requires forall c | c != id && OnMatch(s', c, m) :: OnMatch(s, c, m)
    ensures Covered(s', m)
  {
    ReadOne(s.core.log, e, m);
    OnlyCall(s, s', id, m);
  }

  lemma StepCovered(env: Env, s: State, e: Event, m: string)
    requires AllOrderly(s) && Safe(env.p, s) && AllEnlisted(s) && Covered(s, m) && Serial(s, e)
    requires s.core.nodes.Keys == s.core.sessions.Keys
    ensures Covered(Apply(env, s, e), m)
  {
    var s' := Apply(env, s, e);
    match e
    case Database(id) => if id in s.calls { ExecuteCovered(s, id, m); }
    case Resume(id, now, mono, task) =>
      if id in s.calls && task !in s.calls {
        if Dispatching(s, id, m) { DispatchResume(env.p, s, id, now, mono, task); }
        else { OtherResume(env.p, s, id, now, mono, task, m); }
      }
    case Register(identity, req) =>
      RegisterLog(env.p, env.tokens, s.core, identity, req);
      QuietCovered(s, s', m);
    case Create(own, config) =>
      if own !in s.matches { CreateCovered(env, s, own, config, m); }
    case Abort(id) => if id in s.cancelled && id in s.calls { AbortCovered(env, s, id, m); }
    case BeginStart(id, own, timeout) =>
      if id !in s.calls { BeginCovered(s, id, StartGet(own, timeout), m); }
    case BeginStop(id, own) => if id !in s.calls { BeginCovered(s, id, StopGet(own), m); }
    case Wake(id) =>
      if id in s.calls && s.calls[id].Asleep? { BeginCovered(s, id, StopGet(s.calls[id].matchId), m); }
  }

  lemma BeginCovered(s: State, id: nat, call: Call, m: string)
    requires Covered(s, m) && (call.StartGet? || call.StopGet?)
    requires id !in s.calls || s.calls[id].Asleep?
    ensures Covered(s.(calls := s.calls[id := call]), m)
  {
    var s' := s.(calls := s.calls[id := call]);
    assert forall c :: Dispatching(s', c, m) <==> Dispatching(s, c, m);
    QuietCovered(s, s', m);
  }

  lemma AbortCovered(env: Env, s: State, id: nat, m: string)
    requires AllOrderly(s) && Covered(s, m) && id in s.cancelled && id in s.calls
    ensures Covered(Apply(env, s, Abort(id)), m)
  {
    var s' := Apply(env, s, Abort(id));
    assert OnMatch(s, id, s.calls[id].matchId) && Orderly(s, s.calls[id].matchId);
    assert forall c :: Dispatching(s', c, m) <==> Dispatching(s, c, m);
    assert s'.core.log[|s.core.log|..] == [Ended(s.calls[id].matchId, Cancelled)];
    QuietCovered(s, s', m);
  }

  lemma CreateCovered(env: Env, s: State, own: string, config: MatchConfig, m: string)
    requires own !in s.matches && Covered(s, m)
    ensures Covered(Apply(env, s, Create(own, config)), m)
  {
    var s' := Apply(env, s, Create(own, config));
    if own == m {
      ReadOne(s.core.log, Wrote(m, LOBBY, None), m);
    } else {
      QuietCovered(s, s', m);
    }
  }

  // ── whole runs ─────────────────────────────────────────────────────────────

  ghost predicate UsableKeys(p: Suite, log: seq<Entry>) {
    forall e <- log :: e.Accepted? ==> WellFormedKey(p, e.pubkey)
  }

  lemma LogGrows(env: Env, s: State, e: Event)
    ensures s.core.log <= Apply(env, s, e).core.log
  {
    if e.Database? {
      if e.id in s.calls { ExecuteLog(s, e.id); }
    } else if !e.Create? {
      WritesNothing(env, s, e);
    }
  }

  lemma {:induction false} RunsCovered(env: Env, es: seq<Event>, m: string)
    requires SerialRun(env, es) && UsableKeys(env.p, RunAll(env, INIT, es).core.log)
    ensures var s := RunAll(env, INIT, es); AllEnlisted(s) && Covered(s, m)
  {
    if es != [] {
      var init, e := es[..|es| - 1], es[|es| - 1];
      var s := RunAll(env, INIT, init);
      LogGrows(env, s, e);
      forall x | x in s.core.log ensures x in RunAll(env, INIT, es).core.log {
        var i :| 0 <= i < |s.core.log| && s.core.log[i] == x;
        assert RunAll(env, INIT, es).core.log[i] == x;
      }
      RunsCovered(env, init, m);
      RunsSafe(env, init);
      RunsOrderly(env, init);
      RegisteredMeansSession(env, init);
      StepEnlisted(env, s, e);
      StepCovered(env, s, e, m);
    }
  }

  /** A match that has run, with no call of it under way, has had exactly one
      START sent per assignment, in order, each with the stored start time; one
      that has not run has had none. */
  lemma {:induction false} OneStartPerAssignment(env: Env, es: seq<Event>, m: string)
    requires SerialRun(env, es) && UsableKeys(env.p, RunAll(env, INIT, es).core.log)
    requires var s := RunAll(env, INIT, es); m in s.matches && !Busy(s, m)
    ensures var s := RunAll(env, INIT, es);
      Dispatches(s.core.log, m) ==
        if s.matches[m].t0.Some? then Plan(s.matches[m].config, s.matches[m].t0.value) else []
  {
    RunsCovered(env, es, m);
    var s := RunAll(env, INIT, es);
    assert forall id :: Dispatching(s, id, m) ==> OnMatch(s, id, m);
  }
}
