/** What moves a node from state to state, and what a start waits for. */
module NodeStates {
  import opened Prelude
  import opened Sealing
  import opened ServerCore
  import opened Control
  import opened Safety

  lemma {:induction false} DispatchLeavesNodes(
      p: Suite, core: Core, m: string, t0: real, config: MatchConfig, k: nat, task: nat)
    ensures var r := DispatchFrom(p, core, m, t0, config, k, task);
      r.core.nodes == core.nodes && (r.next.Await? ==> r.next.call.Starting?)
    decreases |config.nodes| - k
  {
    if k < |config.nodes| {
      var na := config.nodes[k];
      DispatchLeavesNodes(p, core, m, t0, config, k + 1, task);
      DispatchLeavesNodes(p, core.(drawn := core.drawn + |na.schedule| + 1), m, t0, config, k + 1, task);
    }
  }

  lemma {:induction false} StopLeavesNodes(core: Core, m: string, config: MatchConfig, k: nat)
    ensures var r := StopFrom(core, m, config, k);
      r.core.nodes == core.nodes && r.next.Await? && (r.next.call.Stopping? || r.next.call.MarkFinished?)
    decreases |config.nodes| - k
  {
    if k < |config.nodes| { StopLeavesNodes(core, m, config, k + 1); }
  }

  /** The state a resumed call sets, and for which node: RUNNING once its START is
      sent, READY once its STOP is. */
  function Marks(call: Call): Option<(string, NodeState)> {
    match call
    case Starting(_, _, config, k) => if k < |config.nodes| then Some((config.nodes[k].nodeId, Running)) else None
    case Stopping(_, config, k) => if k < |config.nodes| then Some((config.nodes[k].nodeId, Ready)) else None
    case _ => None
  }

  lemma RunMarks(p: Suite, core: Core, call: Call, now: real, mono: Mono, task: nat)
    ensures var r := Run(p, core, call, now, mono, task);
      var mark := Marks(call);
      r.Some? ==>
        && r.value.core.nodes ==
             (if mark.Some? then UpdateNode(core.nodes, mark.value.0, mark.value.1) else core.nodes)
        && (r.value.next.Await? && (r.value.next.call.MarkRunning? || r.value.next.call.MarkLobby?) ==>
              call.MarkedStarting? || call.Polling?)
  {
    hide DispatchFrom, StopFrom;
    match call
    case MarkedRunning(m, t0, config) =>
      if m !in core.matchKeys {
        var keyed := core.(matchKeys := core.matchKeys[m := p.urandom(core.drawn, 32)], drawn := core.drawn + 1);
        DispatchLeavesNodes(p, keyed, m, t0, config, 0, task);
      }
    case Starting(m, t0, config, k) =>
      if k < |config.nodes| {
        var marked := core.(nodes := UpdateNode(core.nodes, config.nodes[k].nodeId, Running));
        DispatchLeavesNodes(p, marked, m, t0, config, k + 1, task);
      }
    case StopGot(m, row) =>
      if row.Some? { StopLeavesNodes(core.(timers := core.timers - {m}), m, row.value.config, 0); }
    case Stopping(m, config, k) =>
      if k < |config.nodes| {
        StopLeavesNodes(core.(nodes := UpdateNode(core.nodes, config.nodes[k].nodeId, Ready)), m, config, k + 1);
      }
    case _ =>
  }

  /** The call that an event resumes. */
  ghost predicate Resumes(s: State, e: Event, call: Call) {
    e.Resume? && e.id in s.calls && e.task !in s.calls && s.calls[e.id] == call
  }

  ghost predicate MarkedBy(s: State, e: Event, n: string, state: NodeState) {
    exists call :: Resumes(s, e, call) && Marks(call) == Some((n, state))
  }

  /** Whatever the event, in whatever state: a node changes state only by its own
      REGISTER, to RUNNING when a START to it has been sent and to READY when a
      STOP to it has, and then always. */
  lemma NodeStateChanges(env: Env, s: State, e: Event, n: string, state: NodeState)
    requires n in s.core.nodes && !(e.Register? && e.req.nodeId == n)
    ensures n in Apply(env, s, e).core.nodes
    ensures Apply(env, s, e).core.nodes[n].state == state <==>
      if MarkedBy(s, e, n, Running) then state == Running
      else if MarkedBy(s, e, n, Ready) then state == Ready
      else state == s.core.nodes[n].state
  {
    match e
    case Register(identity, req) => OtherRegisters(env, s, identity, req, n);
    case Resume(id, now, mono, task) =>
      if id in s.calls && task !in s.calls {
        var call := s.calls[id];
        RunMarks(env.p, s.core, call, now, mono, task);
        MarkedByCall(s, e, n, Running);
        MarkedByCall(s, e, n, Ready);
        var r := Run(env.p, s.core, call, now, mono, task);
        if r.Some? { SettleLeavesNodes(s, id, call.matchId, r.value, task); }
      }
    case _ => OthersLeaveNodes(env, s, e);
  }

  lemma OthersLeaveNodes(env: Env, s: State, e: Event)
    requires !e.Resume? && !e.Register?
    ensures Apply(env, s, e).core.nodes == s.core.nodes
  {
    if e.Database? && e.id in s.calls { ExecuteLeavesNodes(s, e.id); }
  }

  lemma ExecuteLeavesNodes(s: State, id: nat)
    requires id in s.calls
    ensures Execute(s, id).core.nodes == s.core.nodes
  {}

  lemma MarkedByCall(s: State, e: Event, n: string, state: NodeState)
    requires e.Resume? && e.id in s.calls && e.task !in s.calls
    ensures MarkedBy(s, e, n, state) <==> Marks(s.calls[e.id]) == Some((n, state))
  {
    if Marks(s.calls[e.id]) == Some((n, state)) { assert Resumes(s, e, s.calls[e.id]); }
  }

  lemma SettleLeavesNodes(s: State, id: nat, m: string, r: Stretch, task: nat)
    ensures Settle(s, id, m, r, task).core.nodes == r.core.nodes
  {}

  lemma OtherRegisters(env: Env, s: State, identity: Bytes, req: RegisterRequest, n: string)
    requires n in s.core.nodes && req.nodeId != n
    ensures var c := HandleRegister(env.p, env.tokens, s.core, identity, req);
      n in c.nodes && c.nodes[n] == s.core.nodes[n]
  {
    if Passes(env.tokens, req) { AcceptedEffect(env.p, env.tokens, s.core, identity, req); }
  }

  /** A start goes on to RUNNING only from a check at which, at one and the same
      moment, every assigned node was READY, and the clock of that moment becomes
      t0.  It goes back to LOBBY only out of time and with a node missing. */
  lemma StartsWaitForReady(env: Env, s: State, e: Event, id: nat)
    requires
      var s' := Apply(env, s, e);
      id in s'.calls && (s'.calls[id].MarkRunning? || s'.calls[id].MarkLobby?)
      && !(id in s.calls && s.calls[id] == s'.calls[id])
    ensures
      var call := Apply(env, s, e).calls[id];
      && e.Resume? && e.id == id && id in s.calls && (s.calls[id].MarkedStarting? || s.calls[id].Polling?)
      && var config := s.calls[id].config;
      && if call.MarkRunning? then
           && call.config == config && call.t0 == e.now
           && forall na <- config.nodes :: na.nodeId in s.core.nodes && s.core.nodes[na.nodeId].state == Ready
         else
           && e.mono.checked >=
                (if s.calls[id].Polling? then s.calls[id].deadline else e.mono.entered + s.calls[id].timeout)
           && exists na <- config.nodes :: !(na.nodeId in s.core.nodes && s.core.nodes[na.nodeId].state == Ready)
  {
    match e
    case Resume(own, now, mono, task) =>
      var r := Run(env.p, s.core, s.calls[own], now, mono, task).value;
      SettleMoves(s, own, s.calls[own].matchId, r, task, id);
      RunMarks(env.p, s.core, s.calls[own], now, mono, task);
      var config, call := s.calls[own].config, r.next.call;
      if call.MarkRunning? {
        forall na | na in config.nodes ensures na.nodeId in AllInState(s.core.nodes, Ready) {
          assert na.nodeId in Expected(config);
        }
      } else {
        var n :| n in Expected(config) && n !in AllInState(s.core.nodes, Ready);
        var na :| na in config.nodes && na.nodeId == n;
      }
    case _ =>
  }

  /** Settling a stretch puts only its own call into a new waiting place. */
  lemma SettleMoves(s: State, own: nat, m: string, r: Stretch, task: nat, id: nat)
    requires var s' := Settle(s, own, m, r, task);
      id in s'.calls && !s'.calls[id].Asleep? && !(id in s.calls && s.calls[id] == s'.calls[id])
    ensures id == own && r.next.Await? && Settle(s, own, m, r, task).calls[id] == r.next.call
  {}

  // ── was_running ────────────────────────────────────────────────────────────

  /** What the node was marked with last since its latest accepted REGISTER:
      RUNNING by a START that was sent, READY by a STOP. */
  ghost function LastMark(env: Env, es: seq<Event>, n: string): Option<NodeState> {
    if es == [] then None
    else
      var s, e := RunAll(env, INIT, es[..|es| - 1]), es[|es| - 1];
      if e.Register? && e.req.nodeId == n && Passes(env.tokens, e.req) then None
      else if MarkedBy(s, e, n, Running) then Some(Running)
      else if MarkedBy(s, e, n, Ready) then Some(Ready)
      else LastMark(env, es[..|es| - 1], n)
  }

  lemma RegisterOwnState(env: Env, s: State, identity: Bytes, req: RegisterRequest)
    ensures var c := HandleRegister(env.p, env.tokens, s.core, identity, req);
      if Passes(env.tokens, req) then req.nodeId in c.nodes && c.nodes[req.nodeId].state != Running
      else c.nodes == s.core.nodes
  {
    var accepted := Accepted(req.nodeId, identity, req.ecdhPubkey, env.p.urandom(s.core.drawn, 32));
    EstablishEffect(
      env.p, s.core.(nodes := s.core.nodes[req.nodeId := NodeRecord(req.hostname, req.ip, Connected, identity)],
                     log := s.core.log + [accepted]),
      req.nodeId, req.ecdhPubkey);
  }

  /** Only its own REGISTER makes a node known. */
  lemma OnlyRegisterAdds(env: Env, s: State, e: Event, n: string)
    requires n !in s.core.nodes && !(e.Register? && e.req.nodeId == n && Passes(env.tokens, e.req))
    ensures n !in Apply(env, s, e).core.nodes
  {
    match e
    case Register(identity, req) =>
      if Passes(env.tokens, req) {
        AcceptedEffect(env.p, env.tokens, s.core, identity, req);
      } else {
        RegisterOwnState(env, s, identity, req);
      }
    case Resume(id, now, mono, task) =>
      if id in s.calls && task !in s.calls {
        RunMarks(env.p, s.core, s.calls[id], now, mono, task);
        var r := Run(env.p, s.core, s.calls[id], now, mono, task);
        if r.Some? { SettleLeavesNodes(s, id, s.calls[id].matchId, r.value, task); }
      }
    case _ => OthersLeaveNodes(env, s, e);
  }

  lemma StepRunning(env: Env, s: State, e: Event, n: string, last: Option<NodeState>, next: Option<NodeState>)
    requires n in s.core.nodes ==> (s.core.nodes[n].state == Running <==> last == Some(Running))
    requires next ==
      if e.Register? && e.req.nodeId == n && Passes(env.tokens, e.req) then None
      else if MarkedBy(s, e, n, Running) then Some(Running)
      else if MarkedBy(s, e, n, Ready) then Some(Ready)
      else last
    ensures var nodes := Apply(env, s, e).core.nodes;
      n in nodes ==> (nodes[n].state == Running <==> next == Some(Running))
  {
    if e.Register? && e.req.nodeId == n {
      RegisterOwnState(env, s, e.identity, e.req);
    } else if n in s.core.nodes {
      NodeStateChanges(env, s, e, n, Running);
    } else {
      OnlyRegisterAdds(env, s, e, n);
    }
  }

  lemma {:induction false} RunningMeansMarked(env: Env, es: seq<Event>, n: string)
    ensures var nodes := RunAll(env, INIT, es).core.nodes;
      n in nodes ==> (nodes[n].state == Running <==> LastMark(env, es, n) == Some(Running))
  {
    if es != [] {
      var init := es[..|es| - 1];
      RunningMeansMarked(env, init, n);
      StepRunning(env, RunAll(env, INIT, init), es[|es| - 1], n, LastMark(env, init, n), LastMark(env, es, n));
    }
  }

  /** In every run, a REGISTER with a usable key is answered `reconnect` exactly if
      the node had an accepted one before, and `was_running` exactly if since the
      latest of them a START to it was marked, and no STOP after that. */
  lemma {:induction false} WasRunningExactly(env: Env, es: seq<Event>, identity: Bytes, req: RegisterRequest)
    requires Passes(env.tokens, req) && WellFormedKey(env.p, req.ecdhPubkey)
    ensures
      var core := RunAll(env, INIT, es).core;
      var before := Latest(core.log, req.nodeId).Some?;
      Answers(env.p, env.tokens, core, identity, req, before,
              before && LastMark(env, es, req.nodeId) == Some(Running))
  {
    IdentityAndSessionAgree(env, es, req.nodeId);
    RunningMeansMarked(env, es, req.nodeId);
    Answered(env.p, env.tokens, RunAll(env, INIT, es).core, identity, req);
  }
}
