/** What a readiness check decides, when a start gives up, how every call ends and
    how every REGISTER is answered. */
module Outcomes {
  import opened Prelude
  import opened Sealing
  import opened ServerCore
  import opened Control
  import opened Safety
  import opened Lifecycle
  import opened History
  import Base64

  // ── the readiness check ────────────────────────────────────────────────────

  ghost predicate AllReady(core: Core, config: MatchConfig) {
    forall na <- config.nodes :: na.nodeId in core.nodes && core.nodes[na.nodeId].state == Ready
  }

  lemma AllReadyExpected(core: Core, config: MatchConfig)
    ensures AllReady(core, config) <==> Expected(config) <= AllInState(core.nodes, Ready)
  {
    if Expected(config) <= AllInState(core.nodes, Ready) {
      forall na | na in config.nodes ensures na.nodeId in AllInState(core.nodes, Ready) {
        assert na.nodeId in Expected(config);
      }
    }
  }

  /** A check goes on to RUNNING if and only if all assigned nodes are READY, with
      this moment as t0; back to LOBBY if and only if one is missing and the clock
      has reached the deadline, which is the entry plus the timeout and stays so;
      otherwise it sleeps on.  It changes nothing else. */
  lemma CheckDecides(env: Env, s: State, id: nat, now: real, mono: Mono, task: nat)
    requires id in s.calls && task !in s.calls && (s.calls[id].MarkedStarting? || s.calls[id].Polling?)
    ensures
      var call, s' := s.calls[id], Apply(env, s, Resume(id, now, mono, task));
      var m, config, ready := call.matchId, call.config, AllReady(s.core, call.config);
      var deadline := if call.Polling? then call.deadline else mono.entered + call.timeout;
      && id in s'.calls && s' == s.(calls := s.calls[id := s'.calls[id]])
      && (s'.calls[id] == MarkRunning(m, now, config) <==> ready)
      && (s'.calls[id] == MarkLobby(m) <==> !ready && mono.checked >= deadline)
      && (s'.calls[id] == Polling(m, deadline, config) <==> !ready && mono.checked < deadline)
  {
    AllReadyExpected(s.core, s.calls[id].config);
  }

  // ── when a start gives up ──────────────────────────────────────────────────

  /** A start on its way to its readiness checks. */
  ghost predicate Entering(call: Call) {
    call.StartGet? || call.StartGot? || call.MarkStarting? || call.MarkedStarting?
  }

  /** Call `id` was begun by event `c`, as a start of `m` with this timeout, and has
      been under way since. */
  ghost predicate Begun(env: Env, es: seq<Event>, id: nat, c: nat, m: string, timeout: real) {
    && c < |es| && es[c] == BeginStart(id, m, timeout) && id !in RunAll(env, INIT, es[..c]).calls
    && forall x: nat | c < x <= |es| :: id in RunAll(env, INIT, es[..x]).calls
  }

  /** Event `a` was its first readiness check, and after it the call slept between
      checks. */
  ghost predicate Checking(env: Env, es: seq<Event>, id: nat, a: nat, m: string, timeout: real) {
    && a < |es| && es[a].Resume? && es[a].id == id
    && var s := RunAll(env, INIT, es[..a]);
    && id in s.calls && s.calls[id].MarkedStarting? && s.calls[id].matchId == m && s.calls[id].timeout == timeout
    && forall x: nat | a < x <= |es| :: Sleeps(RunAll(env, INIT, es[..x]), id, m, es[a].mono.entered + timeout)
  }

  ghost predicate Sleeps(s: State, id: nat, m: string, deadline: real) {
    id in s.calls && s.calls[id].Polling? && s.calls[id].matchId == m && s.calls[id].deadline == deadline
  }

  /** How a start gets to where it is now. */
  lemma StartMoves(env: Env, s: State, e: Event, id: nat)
    requires var s' := Apply(env, s, e); id in s'.calls && (Entering(s'.calls[id]) || s'.calls[id].Polling?)
    ensures
      var call := Apply(env, s, e).calls[id];
      if id !in s.calls then e.BeginStart? && e.id == id && call == StartGet(e.matchId, e.timeout)
      else
        var before := s.calls[id];
        && before.matchId == call.matchId
        && (before == call ||
              (&& Entering(before)
               && if Entering(call) then before.timeout == call.timeout
                  else
                    && before.MarkedStarting? && e.Resume? && e.id == id
                    && call.deadline == e.mono.entered + before.timeout))
  {
    hide HandleRegister, Run;
    match e
    case Resume(own, now, mono, task) =>
      if own in s.calls && task !in s.calls {
        RunStarts(env.p, s.core, s.calls[own], now, mono, task);
      }
    case _ =>
  }

  /** A stretch leads into a start's waiting places only from the one before. */
  lemma RunStarts(p: Suite, core: Core, call: Call, now: real, mono: Mono, task: nat)
    ensures var r := Run(p, core, call, now, mono, task);
      r.Some? && r.value.next.Await? ==>
        var next := r.value.next.call;
        && (Entering(next) ==>
              call.StartGot? && next.MarkStarting? && next.timeout == call.timeout && next.matchId == call.matchId)
        && (next.Polling? ==>
              && next.matchId == call.matchId
              && if call.Polling? then next == call
                 else call.MarkedStarting? && next.deadline == mono.entered + call.timeout)
        && (next.MarkLobby? ==> (call.Polling? || call.MarkedStarting?) && next.matchId == call.matchId)
  {
    hide DispatchFrom, StopFrom;
    match call
    case MarkedRunning(m, t0, config) =>
      if m !in core.matchKeys {
        var keyed := core.(matchKeys := core.matchKeys[m := p.urandom(core.drawn, 32)], drawn := core.drawn + 1);
        DispatchLog(p, keyed, m, t0, config, 0, task);
      }
    case Starting(m, t0, config, k) =>
      if k < |config.nodes| {
        DispatchLog(p, core.(nodes := UpdateNode(core.nodes, config.nodes[k].nodeId, Running)), m, t0, config, k + 1,
                    task);
      }
    case StopGot(m, row) =>
      if row.Some? { StopShape(core.(timers := core.timers - {m}), m, row.value.config, 0); }
    case Stopping(m, config, k) =>
      if k < |config.nodes| {
        StopShape(core.(nodes := UpdateNode(core.nodes, config.nodes[k].nodeId, Ready)), m, config, k + 1);
      }
    case _ =>
  }

  lemma PrefixRuns(env: Env, es: seq<Event>, x: nat)
    requires es != [] && x <= |es| - 1
    ensures RunAll(env, INIT, es[..|es| - 1][..x]) == RunAll(env, INIT, es[..x])
  {
    assert es[..|es| - 1][..x] == es[..x];
  }

  /** Every start on its way began once, with the timeout it carries. */
  lemma {:induction false} StartBegan(env: Env, es: seq<Event>, id: nat) returns (c: nat)
    requires var s := RunAll(env, INIT, es); id in s.calls && Entering(s.calls[id])
    ensures var call := RunAll(env, INIT, es).calls[id]; Begun(env, es, id, c, call.matchId, call.timeout)
  {
    var init, e := es[..|es| - 1], es[|es| - 1];
    var s, call := RunAll(env, INIT, init), RunAll(env, INIT, es).calls[id];
    assert es[..|es|] == es && RunAll(env, INIT, es) == Apply(env, s, e) && RunAll(env, INIT, []).calls == map[];
    hide Apply, RunAll;
    StartMoves(env, s, e, id);
    if id in s.calls {
      c := StartBegan(env, init, id);
      StillBegun(env, es, id, c, call.matchId, call.timeout);
    } else {
      c := |es| - 1;
    }
  }

  lemma StillBegun(env: Env, es: seq<Event>, id: nat, c: nat, m: string, timeout: real)
    requires es != [] && Begun(env, es[..|es| - 1], id, c, m, timeout) && id in RunAll(env, INIT, es).calls
    ensures Begun(env, es, id, c, m, timeout)
  {
    hide Apply, RunAll;
    PrefixRuns(env, es, c);
    assert es[..|es|] == es;
    forall x: nat | c < x <= |es| ensures id in RunAll(env, INIT, es[..x]).calls {
      if x < |es| { PrefixRuns(env, es, x); }
    }
  }

  /** Every start between two checks entered once, with the timeout it began with. */
  lemma {:induction false} CheckingBegan(env: Env, es: seq<Event>, id: nat)
    returns (c: nat, a: nat, timeout: real)
    requires var s := RunAll(env, INIT, es); id in s.calls && s.calls[id].Polling?
    ensures var m := RunAll(env, INIT, es).calls[id].matchId;
      c < a && Begun(env, es, id, c, m, timeout) && Checking(env, es, id, a, m, timeout)
  {
    var init, e := es[..|es| - 1], es[|es| - 1];
    var s, m := RunAll(env, INIT, init), RunAll(env, INIT, es).calls[id].matchId;
    assert es[..|es|] == es && RunAll(env, INIT, es) == Apply(env, s, e);
    hide Apply, RunAll;
    StartMoves(env, s, e, id);
    if s.calls[id].Polling? {
      c, a, timeout := CheckingBegan(env, init, id);
      StillChecking(env, es, id, a, m, timeout);
    } else {
      c := StartBegan(env, init, id);
      a, timeout := |es| - 1, s.calls[id].timeout;
    }
    StillBegun(env, es, id, c, m, timeout);
  }

  lemma StillChecking(env: Env, es: seq<Event>, id: nat, a: nat, m: string, timeout: real)
    requires es != [] && Checking(env, es[..|es| - 1], id, a, m, timeout)
    requires var s, s' := RunAll(env, INIT, es[..|es| - 1]), RunAll(env, INIT, es);
      id in s.calls && id in s'.calls && s'.calls[id] == s.calls[id]
    ensures Checking(env, es, id, a, m, timeout)
  {
    hide Apply, RunAll;
    PrefixRuns(env, es, a);
    assert es[..|es|] == es && es[..|es| - 1][..|es| - 1] == es[..|es| - 1];
    var deadline := es[a].mono.entered + timeout;
    forall x: nat | a < x <= |es| ensures Sleeps(RunAll(env, INIT, es[..x]), id, m, deadline) {
      if x < |es| {
        PrefixRuns(env, es, x);
      } else {
        assert Sleeps(RunAll(env, INIT, es[..|es| - 1][..|es| - 1]), id, m, deadline);
      }
    }
  }

  ghost predicate GivesUp(env: Env, es: seq<Event>, id: nat) {
    es != [] &&
    var s, s' := RunAll(env, INIT, es[..|es| - 1]), RunAll(env, INIT, es);
    id in s'.calls && s'.calls[id].MarkLobby? && !(id in s.calls && s.calls[id] == s'.calls[id])
  }

  /** In every run a start gives up only at a check that finds a node missing, at or
      after its own entry into the checks plus the timeout it was begun with. */
  lemma {:induction false} GivesUpOutOfTime(env: Env, es: seq<Event>, id: nat)
    returns (c: nat, a: nat, timeout: real)
    requires GivesUp(env, es, id)
    ensures
      var init, m := es[..|es| - 1], RunAll(env, INIT, es).calls[id].matchId;
      var s, e := RunAll(env, INIT, init), es[|es| - 1];
      && c < a < |es| && Begun(env, init, id, c, m, timeout)
      && e.Resume? && e.id == id && id in s.calls
      && (if a < |init| then Checking(env, init, id, a, m, timeout)
          else s.calls[id].MarkedStarting? && s.calls[id].matchId == m && s.calls[id].timeout == timeout)
      && e.mono.checked >= es[a].mono.entered + timeout
      && (s.calls[id].MarkedStarting? || s.calls[id].Polling?) && !AllReady(s.core, s.calls[id].config)
  {
    var init, e := es[..|es| - 1], es[|es| - 1];
    var s := RunAll(env, INIT, init);
    assert RunAll(env, INIT, es) == Apply(env, s, e);
    hide Apply, RunAll;
    GaveUpAt(env, s, e, id);
    CheckDecides(env, s, id, e.now, e.mono, e.task);
    if s.calls[id].Polling? {
      c, a, timeout := CheckingBegan(env, init, id);
      assert init[..|init|] == init;
      assert Sleeps(RunAll(env, INIT, init[..|init|]), id, s.calls[id].matchId, init[a].mono.entered + timeout);
    } else {
      c := StartBegan(env, init, id);
      a, timeout := |init|, s.calls[id].timeout;
    }
  }

  lemma GaveUpAt(env: Env, s: State, e: Event, id: nat)
    requires var s' := Apply(env, s, e);
      id in s'.calls && s'.calls[id].MarkLobby? && !(id in s.calls && s.calls[id] == s'.calls[id])
    ensures e.Resume? && e.id == id && id in s.calls && e.task !in s.calls
    ensures s.calls[id].MarkedStarting? || s.calls[id].Polling?
    ensures Apply(env, s, e).calls[id].matchId == s.calls[id].matchId
  {
    hide HandleRegister, Run;
    match e
    case Resume(own, now, mono, task) =>
      if own in s.calls && task !in s.calls {
        RunStarts(env.p, s.core, s.calls[own], now, mono, task);
      }
    case _ =>
  }

  // ── how calls end ──────────────────────────────────────────────────────────

  /** The dispatch loop ends with this, from assignment `k` on, if `held` says
      whether the match has a key: it reaches the end past nodes that cannot be
      reached, or fails at the first session for want of the key. */
  ghost predicate DispatchEnds(core: Core, config: MatchConfig, k: nat, held: bool, outcome: Outcome) {
    if held then
      && outcome == Started
      && forall i | k <= i < |config.nodes| ::
           config.nodes[i].nodeId !in core.sessions || config.nodes[i].nodeId !in core.nodes
    else
      var some := exists i: nat :: k <= i < |config.nodes| && config.nodes[i].nodeId in core.sessions;
      outcome == if some then NoMatchKey else Started
  }

  /** The outcome of a call that is resumed here, if it ends. */
  ghost predicate EndsWith(core: Core, call: Call, outcome: Outcome) {
    match call
    case StartGot(_, _, row) =>
      if row.None? then outcome == NotFound else row.value.state != LOBBY && outcome == WrongState
    case MarkedLobby(_) => outcome == NotReady
    case MarkedRunning(m, _, config) =>
      if m in core.matchKeys then outcome == KeyExists else DispatchEnds(core, config, 0, true, outcome)
    case Starting(m, _, config, k) =>
      k < |config.nodes| && DispatchEnds(core, config, k + 1, m in core.matchKeys, outcome)
    case StopGot(_, row) =>
      if row.None? then outcome == NotFound else row.value.state == FINISHED && outcome == Stopped
    case MarkedFinished(_) => outcome == Stopped
    case _ => false
  }

  ghost predicate Reports(s: State, s': State, m: string, outcome: Outcome) {
    exists j: nat :: |s.core.log| <= j < |s'.core.log| && s'.core.log[j] == Ended(m, outcome)
  }

  ghost predicate Concludes(s: State, e: Event, m: string, outcome: Outcome) {
    match e
    case Resume(id, _, _, task) =>
      id in s.calls && task !in s.calls && s.calls[id].matchId == m && EndsWith(s.core, s.calls[id], outcome)
    case Abort(id) => id in s.cancelled && id in s.calls && s.calls[id].matchId == m && outcome == Cancelled
    case _ => false
  }

  /** In whatever state, an event ends a call with an outcome if and only if it
      resumes one that this outcome fits, or cuts a cancelled one short. */
  lemma OutcomesExactly(env: Env, s: State, e: Event, m: string, outcome: Outcome)
    ensures Reports(s, Apply(env, s, e), m, outcome) <==> Concludes(s, e, m, outcome)
  {
    var s' := Apply(env, s, e);
    match e
    case Resume(id, now, mono, task) => ResumeReports(env, s, e, m, outcome);
    case Abort(id) =>
      if id in s.cancelled && id in s.calls { OneReport(s, s', s.calls[id].matchId, Cancelled, m, outcome); }
    case Register(identity, req) => RegisterLog(env.p, env.tokens, s.core, identity, req); NoReport(s, s', m, outcome);
    case Database(id) => if id in s.calls { ExecuteLog(s, id); } NoReport(s, s', m, outcome);
    case _ => NoReport(s, s', m, outcome);
  }

  lemma NoReport(s: State, s': State, m: string, outcome: Outcome)
    requires s.core.log <= s'.core.log && forall x <- s'.core.log[|s.core.log|..] :: !x.Ended?
    ensures !Reports(s, s', m, outcome)
  {
    forall j: nat | |s.core.log| <= j < |s'.core.log| ensures !s'.core.log[j].Ended? {
      assert s'.core.log[j] in s'.core.log[|s.core.log|..];
    }
  }

  lemma OneReport(s: State, s': State, own: string, how: Outcome, m: string, outcome: Outcome)
    requires |s'.core.log| > |s.core.log| && s'.core.log[|s'.core.log| - 1] == Ended(own, how)
    requires forall x <- s'.core.log[|s.core.log|..|s'.core.log| - 1] :: !x.Ended?
    ensures Reports(s, s', m, outcome) <==> own == m && how == outcome
  {
    var last := |s'.core.log| - 1;
    forall j: nat | |s.core.log| <= j < last ensures !s'.core.log[j].Ended? {
      assert s'.core.log[j] in s'.core.log[|s.core.log|..last];
    }
  }

  lemma ResumeReports(env: Env, s: State, e: Event, m: string, outcome: Outcome)
    requires e.Resume?
    ensures Reports(s, Apply(env, s, e), m, outcome) <==> Concludes(s, e, m, outcome)
  {
    var s' := Apply(env, s, e);
    if e.id in s.calls && e.task !in s.calls {
      var call := s.calls[e.id];
      var r := Run(env.p, s.core, call, e.now, e.mono, e.task);
      RunLog(env.p, s.core, call, e.now, e.mono, e.task);
      RunEnds(env.p, s.core, call, e.now, e.mono, e.task, outcome);
      if r.Some? {
        SettleLog(s, e.id, call.matchId, r.value, e.task);
        if r.value.next.Done? {
          assert s'.core.log[|s.core.log|..|s'.core.log| - 1] == r.value.core.log[|s.core.log|..];
          OneReport(s, s', call.matchId, r.value.next.outcome, m, outcome);
        } else {
          assert s'.core.log == r.value.core.log;
          NoReport(s, s', m, outcome);
        }
      } else {
        NoReport(s, s', m, outcome);
      }
    } else {
      NoReport(s, s', m, outcome);
    }
  }

  lemma RunEnds(p: Suite, core: Core, call: Call, now: real, mono: Mono, task: nat, outcome: Outcome)
    ensures var r := Run(p, core, call, now, mono, task);
      (r.Some? && r.value.next == Done(outcome)) <==> EndsWith(core, call, outcome)
  {
    hide DispatchFrom, StopFrom, DispatchEnds;
    match call
    case MarkedRunning(m, t0, config) =>
      BeginEnds(p, core, m, t0, config, task, outcome);
      hide BeginDispatch;
    case Starting(m, t0, config, k) =>
      if k < |config.nodes| { ContinueEnds(p, core, m, t0, config, k, task, outcome); }
      hide AfterStartSent;
    case StopGot(m, row) =>
      if row.Some? { StopShape(core.(timers := core.timers - {m}), m, row.value.config, 0); }
    case Stopping(m, config, k) =>
      if k < |config.nodes| {
        StopShape(core.(nodes := UpdateNode(core.nodes, config.nodes[k].nodeId, Ready)), m, config, k + 1);
      }
    case _ =>
  }

  lemma BeginEnds(p: Suite, core: Core, m: string, t0: real, config: MatchConfig, task: nat, outcome: Outcome)
    ensures BeginDispatch(p, core, m, t0, config, task).next == Done(outcome) <==>
      if m in core.matchKeys then outcome == KeyExists else DispatchEnds(core, config, 0, true, outcome)
  {
    hide DispatchFrom, DispatchEnds;
    if m !in core.matchKeys {
      var keyed := core.(matchKeys := core.matchKeys[m := p.urandom(core.drawn, 32)], drawn := core.drawn + 1);
      DispatchDone(p, keyed, m, t0, config, 0, task, outcome);
      SameEnds(core, keyed, config, 0, true, outcome);
    }
  }

  lemma ContinueEnds(
      p: Suite, core: Core, m: string, t0: real, config: MatchConfig, k: nat, task: nat, outcome: Outcome)
    requires k < |config.nodes|
    ensures AfterStartSent(p, core, m, t0, config, k, task).next == Done(outcome)
      <==> DispatchEnds(core, config, k + 1, m in core.matchKeys, outcome)
  {
    hide DispatchFrom, DispatchEnds;
    var marked := core.(nodes := UpdateNode(core.nodes, config.nodes[k].nodeId, Running));
    DispatchDone(p, marked, m, t0, config, k + 1, task, outcome);
    SameEnds(core, marked, config, k + 1, m in core.matchKeys, outcome);
  }

  lemma SameEnds(core: Core, core': Core, config: MatchConfig, k: nat, held: bool, outcome: Outcome)
    requires core'.sessions == core.sessions && forall n :: n in core'.nodes <==> n in core.nodes
    ensures DispatchEnds(core', config, k, held, outcome) <==> DispatchEnds(core, config, k, held, outcome)
  {}

  lemma {:induction false} DispatchDone(
      p: Suite, core: Core, m: string, t0: real, config: MatchConfig, k: nat, task: nat, outcome: Outcome)
    ensures DispatchFrom(p, core, m, t0, config, k, task).next == Done(outcome)
      <==> DispatchEnds(core, config, k, m in core.matchKeys, outcome)
    decreases |config.nodes| - k
  {
    if k < |config.nodes| {
      var na := config.nodes[k];
      if na.nodeId !in core.sessions {
        DispatchDone(p, core, m, t0, config, k + 1, task, outcome);
      } else if m in core.matchKeys && na.nodeId !in core.nodes {
        DispatchDone(p, core.(drawn := core.drawn + |na.schedule| + 1), m, t0, config, k + 1, task, outcome);
      }
    }
  }

  // ── how a REGISTER is answered ─────────────────────────────────────────────

  /** A REGISTER is refused for its token before its key is looked at; a key that
      cannot be used gets no answer at all; any other is answered REGISTER_OK. */
  lemma RegisterAnswered(env: Env, s: State, identity: Bytes, req: RegisterRequest)
    ensures
      var s' := Apply(env, s, Register(identity, req));
      var n, log, log' := req.nodeId, s.core.log, s'.core.log;
      var raw := Base64.Decode(req.ecdhPubkey);
      if !(n in env.tokens && env.tokens[n] == req.token) then
        s' == s.(core := s.core.(log := log + [Sent(n, identity, RegisterFail("invalid token"))]))
      else if req.ecdhPubkey == "" then
        s' == s.(core := s.core.(log := log + [Sent(n, identity, RegisterFail("missing ecdh_pubkey"))]))
      else
        && |log'| > |log| && log'[..|log|] == log
        && log'[|log|].Accepted? && log'[|log|].nodeId == n && log'[|log|].pubkey == req.ecdhPubkey
        && if raw.Some? && |raw.value| == 32 && env.p.contributory(raw.value) then
             && |log'| == |log| + 2 && log'[|log| + 1].Sent? && log'[|log| + 1].to == n
             && log'[|log| + 1].identity == identity && log'[|log| + 1].msg.RegisterOk?
           else |log'| == |log| + 1
  {
    hide Base64.Encode, Base64.Decode;
    var n := req.nodeId;
    if Passes(env.tokens, req) {
      AcceptedEffect(env.p, env.tokens, s.core, identity, req);
      var accepted := Accepted(n, identity, req.ecdhPubkey, env.p.urandom(s.core.drawn, 32));
      EstablishEffect(
        env.p, s.core.(nodes := s.core.nodes[n := NodeRecord(req.hostname, req.ip, Connected, identity)],
                       log := s.core.log + [accepted]),
        n, req.ecdhPubkey);
    }
  }
}
