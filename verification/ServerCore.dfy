/** The central server's in-memory state and what its coroutines do to it between
    two awaits.  Each function here is one such stretch: it runs without yielding
    and ends either suspended in a new call or finished. */
module ServerCore {
  import opened Prelude
  import opened Sealing
  import Base64

  // ── records ────────────────────────────────────────────────────────────────

  datatype NodeState = Connected | Ready | Running | Disconnected
  datatype NodeRecord = NodeRecord(hostname: string, ip: string, state: NodeState, identity: Bytes)

  datatype MatchState = LOBBY | STARTING | RUNNING | FINISHED
  datatype Assignment = Assignment(nodeId: string, agentname: string, schedule: seq<PromptEntry>)
  datatype MatchConfig = MatchConfig(
    durationS: real, tokenWeight: real, idlePenalty: real, nodes: seq<Assignment>)
  datatype MatchRow = MatchRow(config: MatchConfig, state: MatchState, t0: Option<real>)

  // ── messages and the history of effects ────────────────────────────────────

  /** Fields absent from the payload are empty strings. */
  datatype RegisterRequest = RegisterRequest(
    nodeId: string, token: string, hostname: string, ip: string, ecdhPubkey: string)

  datatype Message =
    | RegisterOk(reconnect: bool, wasRunning: bool, serverPubkey: string)
    | RegisterFail(reason: string)
    | Start(matchId: string, agentname: string, t0: real, encryptedMatchKey: string, schedule: seq<SealedEntry>)
    | Stop(matchId: string)

  datatype Outcome = Started | Stopped | NotFound | WrongState | NotReady | KeyExists | NoMatchKey | Cancelled

  /** What happened, in order.  `Accepted` is a REGISTER past the token and key
      checks, with the private key drawn for it; `Sent` a message handed to the
      socket for node `to`; `Wrote` a match state stored; `Ended` a call's end. */
  datatype Entry =
    | Accepted(nodeId: string, peerIdentity: Bytes, pubkey: string, private: Bytes)
    | Sent(to: string, identity: Bytes, msg: Message)
    | Wrote(matchId: string, state: MatchState, t0: Option<real>)
    | Ended(matchId: string, outcome: Outcome)

  /** `drawn` counts the random draws made, `timers` maps a match to its
      auto-stop task. */
  datatype Core = Core(
    nodes: map<string, NodeRecord>,
    sessions: map<string, Bytes>,
    matchKeys: map<string, Bytes>,
    drawn: nat,
    timers: map<string, nat>,
    log: seq<Entry>)

  // ── registry and socket ────────────────────────────────────────────────────

  function UpdateNode(nodes: map<string, NodeRecord>, n: string, state: NodeState): map<string, NodeRecord> {
    if n in nodes then nodes[n := nodes[n].(state := state)] else nodes
  }

  function AllInState(nodes: map<string, NodeRecord>, state: NodeState): set<string> {
    set n | n in nodes && nodes[n].state == state
  }

  function Send(core: Core, to: string, identity: Bytes, msg: Message): Core {
    core.(log := core.log + [Sent(to, identity, msg)])
  }

  // ── REGISTER ───────────────────────────────────────────────────────────────

  /** The old session goes first, so a key that cannot be used leaves none. */
  function EstablishSession(p: Suite, core: Core, n: string, pubkey: string): (Core, Option<string>) {
    var evicted := core.(sessions := core.sessions - {n});
    var raw := Base64.Decode(pubkey);
    if raw.None? || |raw.value| != 32 then (evicted, None)
    else
      var private := p.urandom(core.drawn, 32);
      var drew := evicted.(drawn := core.drawn + 1);
      match AgreedKey(p, private, pubkey)
      case None => (drew, None)
      case Some(key) => (drew.(sessions := evicted.sessions[n := key]), Some(Base64.Encode(p.pub(private))))
  }

  function HandleRegister(
      p: Suite, tokens: map<string, string>, core: Core, identity: Bytes, req: RegisterRequest): Core
  {
    var n := req.nodeId;
    if !(n in tokens && tokens[n] == req.token) then Send(core, n, identity, RegisterFail("invalid token"))
    else if req.ecdhPubkey == "" then Send(core, n, identity, RegisterFail("missing ecdh_pubkey"))
    else
      var reconnect := n in core.nodes;
      var wasRunning := reconnect && core.nodes[n].state == Running;
      var registered := core.(
        nodes := core.nodes[n := NodeRecord(req.hostname, req.ip, Connected, identity)],
        log := core.log + [Accepted(n, identity, req.ecdhPubkey, p.urandom(core.drawn, 32))]);
      var (c, pubkey) := EstablishSession(p, registered, n, req.ecdhPubkey);
      match pubkey
      case None => c
      case Some(key) =>
        var ready := if wasRunning then c else c.(nodes := UpdateNode(c.nodes, n, Ready));
        Send(ready, n, identity, RegisterOk(reconnect, wasRunning, key))
  }

  // ── suspended calls ────────────────────────────────────────────────────────

  /** Where a coroutine of the match manager waits, with its live variables.
      `...Get` and `Mark...` wait for the database, `Got...` and `Marked...` for
      the event loop to deliver the result. */
  datatype Call =
    | StartGet(matchId: string, timeout: real)
    | StartGot(matchId: string, timeout: real, row: Option<MatchRow>)
    | MarkStarting(matchId: string, timeout: real, config: MatchConfig)
    | MarkedStarting(matchId: string, timeout: real, config: MatchConfig)
    | Polling(matchId: string, deadline: real, config: MatchConfig)
    | MarkLobby(matchId: string)
    | MarkedLobby(matchId: string)
    | MarkRunning(matchId: string, t0: real, config: MatchConfig)
    | MarkedRunning(matchId: string, t0: real, config: MatchConfig)
    | Starting(matchId: string, t0: real, config: MatchConfig, k: nat)
    | Asleep(matchId: string)
    | StopGet(matchId: string)
    | StopGot(matchId: string, row: Option<MatchRow>)
    | Stopping(matchId: string, config: MatchConfig, k: nat)
    | MarkFinished(matchId: string)
    | MarkedFinished(matchId: string)

  datatype Next = Await(call: Call) | Done(outcome: Outcome)

  /** The end of a stretch: the new state, how the call goes on, and the task it
      cancelled, if any. */
  datatype Stretch = Stretch(core: Core, next: Next, cancelled: Option<nat>)

  function Goes(core: Core, next: Next): Stretch { Stretch(core, next, None) }

  // ── start ──────────────────────────────────────────────────────────────────

  function AfterStartGet(core: Core, m: string, timeout: real, row: Option<MatchRow>): Stretch {
    match row
    case None => Goes(core, Done(NotFound))
    case Some(r) =>
      if r.state != LOBBY then Goes(core, Done(WrongState))
      else Goes(core, Await(MarkStarting(m, timeout, r.config)))
  }

  function Expected(config: MatchConfig): set<string> {
    set na | na in config.nodes :: na.nodeId
  }

  /** One readiness check: all ready, out of time, or sleep on.  `now` is the wall
      clock that becomes t0, `mono` the monotonic one. */
  function Poll(core: Core, m: string, deadline: real, config: MatchConfig, now: real, mono: real): Stretch {
    if Expected(config) <= AllInState(core.nodes, Ready) then Goes(core, Await(MarkRunning(m, now, config)))
    else if mono >= deadline then Goes(core, Await(MarkLobby(m)))
    else Goes(core, Await(Polling(m, deadline, config)))
  }

  /** START for one assignment: the schedule is sealed first, then the key. */
  function StartMessage(p: Suite, core: Core, m: string, t0: real, na: Assignment): Message
    requires m in core.matchKeys && na.nodeId in core.sessions
  {
    var key := core.matchKeys[m];
    Start(m, na.agentname, t0,
          WrapKey(p, core.sessions[na.nodeId], key, core.drawn + |na.schedule|),
          SealSchedule(p, key, m, na.schedule, core.drawn))
  }

  /** The dispatch loop from assignment `k` to its next await; `task` names the
      auto-stop task created at the end. */
  function DispatchFrom(
      p: Suite, core: Core, m: string, t0: real, config: MatchConfig, k: nat, task: nat): Stretch
    decreases |config.nodes| - k
  {
    if k >= |config.nodes| then Goes(core.(timers := core.timers[m := task]), Done(Started))
    else
      var na := config.nodes[k];
      if na.nodeId !in core.sessions then DispatchFrom(p, core, m, t0, config, k + 1, task)
      else if m !in core.matchKeys then Goes(core, Done(NoMatchKey))
      else
        var sealed := core.(drawn := core.drawn + |na.schedule| + 1);
        if na.nodeId !in core.nodes then DispatchFrom(p, sealed, m, t0, config, k + 1, task)
        else Goes(
          Send(sealed, na.nodeId, core.nodes[na.nodeId].identity, StartMessage(p, core, m, t0, na)),
          Await(Starting(m, t0, config, k)))
  }

  function BeginDispatch(p: Suite, core: Core, m: string, t0: real, config: MatchConfig, task: nat): Stretch {
    if m in core.matchKeys then Goes(core, Done(KeyExists))
    else
      var keyed := core.(matchKeys := core.matchKeys[m := p.urandom(core.drawn, 32)], drawn := core.drawn + 1);
      DispatchFrom(p, keyed, m, t0, config, 0, task)
  }

  function AfterStartSent(
      p: Suite, core: Core, m: string, t0: real, config: MatchConfig, k: nat, task: nat): Stretch
    requires k < |config.nodes|
  {
    var marked := core.(nodes := UpdateNode(core.nodes, config.nodes[k].nodeId, Running));
    DispatchFrom(p, marked, m, t0, config, k + 1, task)
  }

  // ── stop ───────────────────────────────────────────────────────────────────

  function StopFrom(core: Core, m: string, config: MatchConfig, k: nat): Stretch
    decreases |config.nodes| - k
  {
    if k >= |config.nodes| then Goes(core.(matchKeys := core.matchKeys - {m}), Await(MarkFinished(m)))
    else
      var n := config.nodes[k].nodeId;
      if n !in core.nodes then StopFrom(core, m, config, k + 1)
      else Goes(Send(core, n, core.nodes[n].identity, Stop(m)), Await(Stopping(m, config, k)))
  }

  function AfterStopGet(core: Core, m: string, row: Option<MatchRow>): Stretch {
    match row
    case None => Goes(core, Done(NotFound))
    case Some(r) =>
      if r.state == FINISHED then Goes(core, Done(Stopped))
      else
        var popped := core.(timers := core.timers - {m});
        StopFrom(popped, m, r.config, 0).(cancelled := if m in core.timers then Some(core.timers[m]) else None)
  }

  function AfterStopSent(core: Core, m: string, config: MatchConfig, k: nat): Stretch
    requires k < |config.nodes|
  {
    var marked := core.(nodes := UpdateNode(core.nodes, config.nodes[k].nodeId, Ready));
    StopFrom(marked, m, config, k + 1)
  }
}
