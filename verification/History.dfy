/** What the history of a serialised run looks like: the states of a match, its
    clock, the ends of calls and the START messages sent. */
module History {
  import opened Prelude
  import opened Sealing
  import opened ServerCore
  import opened Control
  import opened Safety
  import opened Lifecycle
  import Base64

  // ── readings of the log ────────────────────────────────────────────────────

  /** The states stored for a match, oldest first. */
  ghost function Story(log: seq<Entry>, m: string): seq<MatchState> {
    if log == [] then []
    else
      var e := log[|log| - 1];
      Story(log[..|log| - 1], m) + if e.Wrote? && e.matchId == m then [e.state] else []
  }

  /** The start times stored for a match. */
  ghost function Clocks(log: seq<Entry>, m: string): seq<real> {
    if log == [] then []
    else
      var e := log[|log| - 1];
      Clocks(log[..|log| - 1], m) + if e.Wrote? && e.matchId == m && e.t0.Some? then [e.t0.value] else []
  }

  datatype Dispatched = Dispatched(nodeId: string, agentname: string, t0: real)

  /** The STARTs sent for a match. */
  ghost function Dispatches(log: seq<Entry>, m: string): seq<Dispatched> {
    if log == [] then []
    else
      var e := log[|log| - 1];
      Dispatches(log[..|log| - 1], m) +
        if IsStart(e) && e.msg.matchId == m then [Dispatched(e.to, e.msg.agentname, e.msg.t0)] else []
  }

  ghost predicate Writes(e: Entry, m: string) { e.Wrote? && e.matchId == m }
  ghost predicate Starts(e: Entry, m: string) { IsStart(e) && e.msg.matchId == m }

  lemma ReadOne(log: seq<Entry>, e: Entry, m: string)
    ensures Story(log + [e], m) == Story(log, m) + if Writes(e, m) then [e.state] else []
    ensures Clocks(log + [e], m) == Clocks(log, m) + if Writes(e, m) && e.t0.Some? then [e.t0.value] else []
    ensures Dispatches(log + [e], m) ==
      Dispatches(log, m) + if Starts(e, m) then [Dispatched(e.to, e.msg.agentname, e.msg.t0)] else []
  {
    assert (log + [e])[..|log|] == log;
  }

  lemma {:induction false} NoWrites(log: seq<Entry>, more: seq<Entry>, m: string)
    requires forall e <- more :: !Writes(e, m)
    ensures Story(log + more, m) == Story(log, m) && Clocks(log + more, m) == Clocks(log, m)
  {
    if more == [] {
      assert log + more == log;
    } else {
      var init, last := more[..|more| - 1], more[|more| - 1];
      NoWrites(log, init, m);
      ReadOne(log + init, last, m);
      assert log + more == (log + init) + [last] && last in more;
    }
  }

  lemma {:induction false} NoStarts(log: seq<Entry>, more: seq<Entry>, m: string)
    requires forall e <- more :: !Starts(e, m)
    ensures Dispatches(log + more, m) == Dispatches(log, m)
  {
    if more == [] {
      assert log + more == log;
    } else {
      var init, last := more[..|more| - 1], more[|more| - 1];
      NoStarts(log, init, m);
      ReadOne(log + init, last, m);
      assert log + more == (log + init) + [last] && last in more;
    }
  }

  // ── what each stretch adds to the log ──────────────────────────────────────

  lemma {:induction false} DispatchLog(
      p: Suite, core: Core, m: string, t0: real, config: MatchConfig, k: nat, task: nat)
    ensures var r := DispatchFrom(p, core, m, t0, config, k, task);
      if r.next.Await? then
        && r.next.call.Starting? && r.next.call.matchId == m && r.next.call.config == config
        && k <= r.next.call.k < |config.nodes|
        && |r.core.log| == |core.log| + 1 && r.core.log[..|core.log|] == core.log
        && var e, na := r.core.log[|core.log|], config.nodes[r.next.call.k];
           IsStart(e) && e.to == na.nodeId && e.msg.matchId == m && e.msg.agentname == na.agentname && e.msg.t0 == t0
      else r.core.log == core.log && (r.next.outcome == Started || r.next.outcome == NoMatchKey)
    ensures var r := DispatchFrom(p, core, m, t0, config, k, task);
      m in core.matchKeys && k < |config.nodes|
      && config.nodes[k].nodeId in core.sessions && config.nodes[k].nodeId in core.nodes ==>
        r.next.Await? && r.next.call.k == k
    decreases |config.nodes| - k
  {
    if k < |config.nodes| {
      var na := config.nodes[k];
      if na.nodeId !in core.sessions {
        DispatchLog(p, core, m, t0, config, k + 1, task);
      } else if m in core.matchKeys && na.nodeId !in core.nodes {
        DispatchLog(p, core.(drawn := core.drawn + |na.schedule| + 1), m, t0, config, k + 1, task);
      }
    }
  }

  lemma {:induction false} StopLog(core: Core, m: string, config: MatchConfig, k: nat)
    ensures var r := StopFrom(core, m, config, k);
      core.log <= r.core.log && forall e <- r.core.log[|core.log|..] :: e.Sent? && e.msg.Stop?
    decreases |config.nodes| - k
  {
    if k < |config.nodes| && config.nodes[k].nodeId !in core.nodes {
      StopLog(core, m, config, k + 1);
    }
  }

  lemma DispatchSendsOwn(
      p: Suite, core: Core, m: string, t0: real, config: MatchConfig, k: nat, task: nat)
    ensures var log := DispatchFrom(p, core, m, t0, config, k, task).core.log;
      core.log <= log && forall e <- log[|core.log|..] :: IsStart(e) && e.msg.matchId == m
  {
    DispatchLog(p, core, m, t0, config, k, task);
    var log := DispatchFrom(p, core, m, t0, config, k, task).core.log;
    assert |log| > |core.log| ==> log[|core.log|..] == [log[|core.log|]];
  }

  /** A stretch only sends, and START only for its own match while dispatching. */
  lemma RunLog(p: Suite, core: Core, call: Call, now: real, mono: Mono, task: nat)
    ensures var r := Run(p, core, call, now, mono, task);
      r.Some? ==>
        && core.log <= r.value.core.log
        && (forall e <- r.value.core.log[|core.log|..] :: e.Sent?)
        && (forall e <- r.value.core.log[|core.log|..] ::
              IsStart(e) ==> e.msg.matchId == call.matchId && (call.MarkedRunning? || call.Starting?))
  {
    hide DispatchFrom, StopFrom;
    match call
    case MarkedRunning(m, t0, config) =>
      if m !in core.matchKeys {
        var keyed := core.(matchKeys := core.matchKeys[m := p.urandom(core.drawn, 32)], drawn := core.drawn + 1);
        DispatchSendsOwn(p, keyed, m, t0, config, 0, task);
      }
    case Starting(m, t0, config, k) =>
      if k < |config.nodes| {
        var marked := core.(nodes := UpdateNode(core.nodes, config.nodes[k].nodeId, Running));
        DispatchSendsOwn(p, marked, m, t0, config, k + 1, task);
      }
    case StopGot(m, row) =>
      if row.Some? && row.value.state != FINISHED {
        StopLog(core.(timers := core.timers - {m}), m, row.value.config, 0);
      }
    case Stopping(m, config, k) =>
      if k < |config.nodes| {
        StopLog(core.(nodes := UpdateNode(core.nodes, config.nodes[k].nodeId, Ready)), m, config, k + 1);
      }
    case _ =>
  }

  // ── states and clock ───────────────────────────────────────────────────────

  /** The steps a match may take. */
  predicate MayFollow(a: MatchState, b: MatchState) {
    match a
    case LOBBY => b == STARTING || b == FINISHED
    case STARTING => b == LOBBY || b == RUNNING
    case RUNNING => b == FINISHED
    case FINISHED => false
  }

  predicate Legal(story: seq<MatchState>) {
    (story != [] ==> story[0] == LOBBY) && forall i | 0 < i < |story| :: MayFollow(story[i - 1], story[i])
  }

  ghost predicate StoryTold(s: State, m: string) {
    var story, clocks := Story(s.core.log, m), Clocks(s.core.log, m);
    if m !in s.matches then story == [] && clocks == []
    else
      && story != [] && story[|story| - 1] == s.matches[m].state && Legal(story)
      && clocks == (if s.matches[m].t0.Some? then [s.matches[m].t0.value] else [])
      && (s.matches[m].t0.Some? <==> RUNNING in story)
  }

  lemma StoryKept(s: State, s': State, m: string)
    requires StoryTold(s, m) && Lookup(s'.matches, m) == Lookup(s.matches, m) && s.core.log <= s'.core.log
    requires forall e <- s'.core.log[|s.core.log|..] :: !Writes(e, m)
    ensures StoryTold(s', m)
  {
    var more := s'.core.log[|s.core.log|..];
    assert s'.core.log == s.core.log + more;
    NoWrites(s.core.log, more, m);
    assert m in s'.matches <==> m in s.matches;
  }

  /** One state written for match `m`. */
  lemma StoryWrites(s: State, s': State, m: string, state: MatchState, t0: Option<real>)
    requires StoryTold(s, m) && s'.core.log == s.core.log + [Wrote(m, state, t0)]
    requires m in s'.matches && s'.matches[m].state == state
    requires if m in s.matches then MayFollow(s.matches[m].state, state) else state == LOBBY
    requires state == RUNNING <==> t0.Some?
    requires s'.matches[m].t0 == (if t0.Some? then t0 else if m in s.matches then s.matches[m].t0 else None)
    requires t0.Some? ==> m in s.matches && s.matches[m].t0 == None
    ensures StoryTold(s', m)
  {
    ReadOne(s.core.log, Wrote(m, state, t0), m);
    LegalExtends(Story(s.core.log, m), state);
  }

  lemma LegalExtends(story: seq<MatchState>, b: MatchState)
    requires Legal(story) && if story == [] then b == LOBBY else MayFollow(story[|story| - 1], b)
    ensures Legal(story + [b]) && (story + [b])[|story|] == b
    ensures forall x :: x in story + [b] <==> x in story || x == b
  {}

  /** A statement either reads or stores one state of its own match. */
  lemma ExecuteLog(s: State, id: nat)
    requires id in s.calls
    ensures var s', m := Execute(s, id), s.calls[id].matchId;
      if s'.core.log == s.core.log then s'.matches == s.matches
      else
        && |s'.core.log| == |s.core.log| + 1 && s'.core.log[..|s.core.log|] == s.core.log
        && s'.core.log[|s.core.log|..] == [s'.core.log[|s.core.log|]]
        && Writes(s'.core.log[|s.core.log|], m)
        && forall other | other != m :: Lookup(s'.matches, other) == Lookup(s.matches, other)
  {}

  /** A statement that writes a state writes one that may follow. */
  lemma OwnWrite(s: State, id: nat)
    requires id in s.calls && Fits(s, s.calls[id]) && Execute(s, id).core.log != s.core.log
    ensures var s', m, e := Execute(s, id), s.calls[id].matchId, Execute(s, id).core.log[|s.core.log|];
      && s'.core.log == s.core.log + [e] && Writes(e, m) && m in s.matches && m in s'.matches
      && MayFollow(s.matches[m].state, e.state) && (e.state == RUNNING <==> e.t0.Some?)
      && (e.t0.Some? ==> s.matches[m].t0 == None)
      && s'.matches[m] == s.matches[m].(state := e.state, t0 := if e.t0.Some? then e.t0 else s.matches[m].t0)
  {}

  lemma ExecuteStory(s: State, id: nat, m: string)
    requires AllOrderly(s) && id in s.calls && StoryTold(s, m)
    ensures StoryTold(Execute(s, id), m)
  {
    ExecuteLog(s, id);
    if Execute(s, id).core.log != s.core.log && m == s.calls[id].matchId {
      OwnStory(s, id);
    } else {
      OtherStory(s, Execute(s, id), m);
    }
  }

  lemma OtherStory(s: State, s': State, m: string)
    requires StoryTold(s, m) && Lookup(s'.matches, m) == Lookup(s.matches, m) && s.core.log <= s'.core.log
    requires s'.core.log == s.core.log ||
      (|s'.core.log| == |s.core.log| + 1 && !Writes(s'.core.log[|s.core.log|], m))
    ensures StoryTold(s', m)
  {
    forall e | e in s'.core.log[|s.core.log|..] ensures e == s'.core.log[|s.core.log|] {}
    StoryKept(s, s', m);
  }

  lemma OwnStory(s: State, id: nat)
    requires AllOrderly(s) && id in s.calls && StoryTold(s, s.calls[id].matchId)
    requires Execute(s, id).core.log != s.core.log
    ensures StoryTold(Execute(s, id), s.calls[id].matchId)
  {
    var s', m := Execute(s, id), s.calls[id].matchId;
    assert OnMatch(s, id, m) && Orderly(s, m) && Fits(s, s.calls[id]);
    OwnWrite(s, id);
    var e := s'.core.log[|s.core.log|];
    StoryWrites(s, s', m, e.state, e.t0);
  }

  /** Only database statements and creation write states. */
  lemma WritesNothing(env: Env, s: State, e: Event)
    requires !e.Database? && !e.Create?
    ensures var s' := Apply(env, s, e);
      && s'.matches == s.matches && s.core.log <= s'.core.log
      && forall x <- s'.core.log[|s.core.log|..] :: !x.Wrote?
  {
    match e
    case Resume(id, now, mono, task) =>
      if id in s.calls && task !in s.calls {
        RunLog(env.p, s.core, s.calls[id], now, mono, task);
        var r := Run(env.p, s.core, s.calls[id], now, mono, task);
        if r.Some? { SettleWritesNothing(s, id, s.calls[id].matchId, r.value, task); }
      }
    case Register(identity, req) => RegisterLog(env.p, env.tokens, s.core, identity, req);
    case _ =>
  }

  lemma ConfigsStay(env: Env, s: State, e: Event)
    ensures ConfigsKept(s.matches, Apply(env, s, e).matches)
  {
    if e.Database? {
      if e.id in s.calls { ExecuteKeepsConfigs(s, e.id); }
    } else if !e.Create? {
      WritesNothing(env, s, e);
    }
  }

  lemma ExecuteKeepsConfigs(s: State, id: nat)
    requires id in s.calls
    ensures ConfigsKept(s.matches, Execute(s, id).matches)
  {}

  lemma SettleWritesNothing(s: State, id: nat, m: string, r: Stretch, task: nat)
    requires s.core.log <= r.core.log && forall e <- r.core.log[|s.core.log|..] :: e.Sent?
    ensures var s' := Settle(s, id, m, r, task);
      && s'.matches == s.matches && s.core.log <= s'.core.log
      && forall x <- s'.core.log[|s.core.log|..] :: !x.Wrote?
  {
    var s' := Settle(s, id, m, r, task);
    SettleLog(s, id, m, r, task);
    assert s'.core.log[|s.core.log|..] == r.core.log[|s.core.log|..] + s'.core.log[|r.core.log|..];
  }

  lemma SettleLog(s: State, id: nat, m: string, r: Stretch, task: nat)
    ensures var s' := Settle(s, id, m, r, task);
      && s'.matches == s.matches
      && s'.core.log == r.core.log + (if r.next.Done? then [Ended(m, r.next.outcome)] else [])
      && s'.core.nodes == r.core.nodes
  {}

  lemma RegisterLog(p: Suite, tokens: map<string, string>, core: Core, identity: Bytes, req: RegisterRequest)
    ensures var c := HandleRegister(p, tokens, core, identity, req);
      && core.log <= c.log && core.nodes.Keys <= c.nodes.Keys
      && forall x <- c.log[|core.log|..] :: x.Accepted? || (x.Sent? && (x.msg.RegisterOk? || x.msg.RegisterFail?))
  {
    hide Base64.Encode, Base64.Decode;
    EstablishEffect(
      p, core.(nodes := core.nodes[req.nodeId := NodeRecord(req.hostname, req.ip, Connected, identity)],
               log := core.log + [Accepted(req.nodeId, identity, req.ecdhPubkey, p.urandom(core.drawn, 32))]),
      req.nodeId, req.ecdhPubkey);
  }

  lemma StepStory(env: Env, s: State, e: Event, m: string)
    requires AllOrderly(s) && StoryTold(s, m)
    ensures StoryTold(Apply(env, s, e), m)
  {
    var s' := Apply(env, s, e);
    match e
    case Database(id) => if id in s.calls { ExecuteStory(s, id, m); }
    case Create(own, config) =>
      if own !in s.matches {
        assert s'.core.log[|s.core.log|..] == [Wrote(own, LOBBY, None)];
        if own == m { StoryWrites(s, s', m, LOBBY, None); } else { StoryKept(s, s', m); }
      }
    case _ =>
      WritesNothing(env, s, e);
      StoryKept(s, s', m);
  }

  lemma {:induction false} RunsTold(env: Env, es: seq<Event>, m: string)
    requires SerialRun(env, es)
    ensures StoryTold(RunAll(env, INIT, es), m)
  {
    if es != [] {
      RunsTold(env, es[..|es| - 1], m);
      RunsOrderly(env, es[..|es| - 1]);
      StepStory(env, RunAll(env, INIT, es[..|es| - 1]), es[|es| - 1], m);
    }
  }

  /** The whole history of a match: it begins in LOBBY, alternates with STARTING
      until it runs or is stopped, runs at most once, and FINISHED is the end.  The
      start time is stored exactly when it begins to run, once, and stays. */
  lemma {:induction false} MatchHistory(env: Env, es: seq<Event>, m: string)
    requires SerialRun(env, es) && m in RunAll(env, INIT, es).matches
    ensures
      var s := RunAll(env, INIT, es);
      var story, row := Story(s.core.log, m), s.matches[m];
      && story != [] && story[|story| - 1] == row.state && Shaped(story)
      && Clocks(s.core.log, m) == (if row.t0.Some? then [row.t0.value] else [])
      && (row.t0.Some? <==> RUNNING in story)
  {
    RunsTold(env, es, m);
    ToldIsShaped(RunAll(env, INIT, es), m);
  }

  lemma ToldIsShaped(s: State, m: string)
    requires StoryTold(s, m) && m in s.matches
    ensures Shaped(Story(s.core.log, m))
  {
    LegalShape(Story(s.core.log, m));
  }

  /** LOBBY and STARTING in turn, then at most one RUNNING, after STARTING, and at
      most one FINISHED, at the end. */
  ghost predicate Shaped(story: seq<MatchState>) {
    && (forall i | 0 <= i < |story| && (story[i] == LOBBY || story[i] == STARTING) ::
          story[i] == if i % 2 == 0 then LOBBY else STARTING)
    && (forall i | 0 <= i < |story| && story[i] == RUNNING ::
          i > 0 && story[i - 1] == STARTING && i >= |story| - 2)
    && (forall i | 0 <= i < |story| && story[i] == FINISHED ::
          i > 0 && (story[i - 1] == RUNNING || story[i - 1] == LOBBY) && i == |story| - 1)
  }

  lemma {:induction false} LegalShape(story: seq<MatchState>)
    requires Legal(story)
    ensures Shaped(story)
  {
    if |story| > 1 {
      var init := story[..|story| - 1];
      LegalShape(init);
      assert MayFollow(init[|init| - 1], story[|init|]);
      forall i | 0 <= i < |init| ensures story[i] == init[i] {}
    }
  }

  // ── how calls end ──────────────────────────────────────────────────────────

  ghost predicate KeyError(e: Entry) {
    e.Ended? && (e.outcome == KeyExists || e.outcome == NoMatchKey)
  }

  lemma NoKeyError(p: Suite, s: State, id: nat, now: real, mono: Mono, task: nat)
    requires AllOrderly(s) && id in s.calls
    ensures var r := Run(p, s.core, s.calls[id], now, mono, task);
      r.Some? && r.value.next.Done? ==> r.value.next.outcome != KeyExists && r.value.next.outcome != NoMatchKey
  {
    var m := s.calls[id].matchId;
    if !s.calls[id].Asleep? {
      assert OnMatch(s, id, m) && Orderly(s, m) && Fits(s, s.calls[id]);
    }
    match s.calls[id]
    case MarkedRunning(_, t0, config) =>
      var keyed := s.core.(
        matchKeys := s.core.matchKeys[m := p.urandom(s.core.drawn, 32)], drawn := s.core.drawn + 1);
      DispatchShape(p, keyed, m, t0, config, 0, task);
    case Starting(_, t0, config, k) =>
      if k < |config.nodes| {
        var marked := s.core.(nodes := UpdateNode(s.core.nodes, config.nodes[k].nodeId, Running));
        DispatchShape(p, marked, m, t0, config, k + 1, task);
      }
    case StopGot(_, row) =>
      if row.Some? { StopShape(s.core.(timers := s.core.timers - {m}), m, row.value.config, 0); }
    case Stopping(_, config, k) =>
      if k < |config.nodes| {
        StopShape(s.core.(nodes := UpdateNode(s.core.nodes, config.nodes[k].nodeId, Ready)), m, config, k + 1);
      }
    case _ =>
  }

  lemma SettleNoKeyError(s: State, id: nat, m: string, r: Stretch, task: nat)
    requires forall x <- s.core.log :: !KeyError(x)
    requires s.core.log <= r.core.log && forall e <- r.core.log[|s.core.log|..] :: e.Sent?
    requires r.next.Done? ==> r.next.outcome != KeyExists && r.next.outcome != NoMatchKey
    ensures forall x <- Settle(s, id, m, r, task).core.log :: !KeyError(x)
  {
    SettleLog(s, id, m, r, task);
    assert r.core.log == s.core.log + r.core.log[|s.core.log|..];
  }

  lemma StepNoKeyError(env: Env, s: State, e: Event)
    requires AllOrderly(s) && forall x <- s.core.log :: !KeyError(x)
    ensures forall x <- Apply(env, s, e).core.log :: !KeyError(x)
  {
    hide HandleRegister, Execute, Run;
    match e
    case Resume(id, now, mono, task) =>
      if id in s.calls && task !in s.calls {
        NoKeyError(env.p, s, id, now, mono, task);
        RunLog(env.p, s.core, s.calls[id], now, mono, task);
        var r := Run(env.p, s.core, s.calls[id], now, mono, task);
        if r.Some? { SettleNoKeyError(s, id, s.calls[id].matchId, r.value, task); }
      }
    case Register(identity, req) =>
      RegisterLog(env.p, env.tokens, s.core, identity, req);
      var log := Apply(env, s, e).core.log;
      assert log == s.core.log + log[|s.core.log|..];
    case Database(id) => if id in s.calls { ExecuteWritesOnly(s, id); }
    case _ =>
  }

  lemma ExecuteWritesOnly(s: State, id: nat)
    requires id in s.calls
    ensures forall x <- Execute(s, id).core.log :: x in s.core.log || x.Wrote?
  {
    ExecuteLog(s, id);
    OneMoreEntry(s.core.log, Execute(s, id).core.log);
  }

  lemma OneMoreEntry(log: seq<Entry>, log': seq<Entry>)
    requires log' == log || (|log'| == |log| + 1 && log'[..|log|] == log && log'[|log|].Wrote?)
    ensures forall x <- log' :: x in log || x.Wrote?
  {}

  /** No start ever fails on its keys: the match key is not there before the
      dispatch and stays until it is through, so every dispatch reaches its end. */
  lemma {:induction false} DispatchNeverFails(env: Env, es: seq<Event>)
    requires SerialRun(env, es)
    ensures forall e <- RunAll(env, INIT, es).core.log :: !KeyError(e)
  {
    if es != [] {
      DispatchNeverFails(env, es[..|es| - 1]);
      RunsOrderly(env, es[..|es| - 1]);
      StepNoKeyError(env, RunAll(env, INIT, es[..|es| - 1]), es[|es| - 1]);
    }
  }
}
