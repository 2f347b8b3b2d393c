/** All runs of the control plane: the event loop picks, in any order, the next
    message, request, timer, database statement or resumption.  An event that
    does not apply changes nothing, so every sequence of events is a run. */
module Control {
  import opened Prelude
  import opened Sealing
  import opened ServerCore

  /** `cancelled` holds the running calls that were told to cancel themselves,
      `cut` the matches whose auto-stop was cut short that way and that no later
      stop has finished. */
  datatype State = State(
    core: Core,
    matches: map<string, MatchRow>,
    calls: map<nat, Call>,
    cancelled: set<nat>,
    cut: set<string>)

  const INIT := State(Core(map[], map[], map[], 0, map[], []), map[], map[], {}, {})

  /** The monotonic clock, read when the readiness check is entered and again when
      it finds a node missing. */
  datatype Mono = Mono(entered: real, checked: real)

  datatype Event =
    | Create(matchId: string, config: MatchConfig)
    | BeginStart(id: nat, matchId: string, timeout: real)
    | BeginStop(id: nat, matchId: string)
    | Wake(id: nat)                                   // an auto-stop's sleep is over
    | Database(id: nat)                               // the statement a call waits for executes
    | Resume(id: nat, now: real, mono: Mono, task: nat)
    | Abort(id: nat)                                  // a cancelled call stops where it is
    | Register(identity: Bytes, req: RegisterRequest)

  /** What the server is run with. */
  datatype Env = Env(p: Suite, tokens: map<string, string>)

  function Lookup(matches: map<string, MatchRow>, m: string): Option<MatchRow> {
    if m in matches then Some(matches[m]) else None
  }

  function UpdateRow(matches: map<string, MatchRow>, m: string, state: MatchState, t0: Option<real>)
    : map<string, MatchRow>
  {
    if m !in matches then matches
    else matches[m := matches[m].(state := state, t0 := if t0.Some? then t0 else matches[m].t0)]
  }

  function Write(s: State, m: string, state: MatchState, t0: Option<real>, id: nat, then_: Call): State {
    s.(matches := UpdateRow(s.matches, m, state, t0),
       core := s.core.(log := s.core.log + [Wrote(m, state, t0)]),
       calls := s.calls[id := then_])
  }

  /** The database statement of call `id`. */
  function Execute(s: State, id: nat): State
    requires id in s.calls
  {
    match s.calls[id]
    case StartGet(m, timeout) => s.(calls := s.calls[id := StartGot(m, timeout, Lookup(s.matches, m))])
    case StopGet(m) => s.(calls := s.calls[id := StopGot(m, Lookup(s.matches, m))])
    case MarkStarting(m, timeout, config) => Write(s, m, STARTING, None, id, MarkedStarting(m, timeout, config))
    case MarkLobby(m) => Write(s, m, LOBBY, None, id, MarkedLobby(m))
    case MarkRunning(m, t0, config) => Write(s, m, RUNNING, Some(t0), id, MarkedRunning(m, t0, config))
    case MarkFinished(m) =>
      var done := Write(s, m, FINISHED, None, id, MarkedFinished(m));
      done.(cut := done.cut - {m})
    case _ => s
  }

  /** The stretch that a suspended call runs when the loop resumes it. */
  function Run(p: Suite, core: Core, call: Call, now: real, mono: Mono, task: nat): Option<Stretch> {
    match call
    case StartGot(m, timeout, row) => Some(AfterStartGet(core, m, timeout, row))
    case MarkedStarting(m, timeout, config) => Some(Poll(core, m, mono.entered + timeout, config, now, mono.checked))
    case Polling(m, deadline, config) => Some(Poll(core, m, deadline, config, now, mono.checked))
    case MarkedLobby(m) => Some(Goes(core, Done(NotReady)))
    case MarkedRunning(m, t0, config) => Some(BeginDispatch(p, core, m, t0, config, task))
    case Starting(m, t0, config, k) =>
      if k < |config.nodes| then Some(AfterStartSent(p, core, m, t0, config, k, task)) else None
    case StopGot(m, row) => Some(AfterStopGet(core, m, row))
    case Stopping(m, config, k) =>
      if k < |config.nodes| then Some(AfterStopSent(core, m, config, k)) else None
    case MarkedFinished(m) => Some(Goes(core, Done(Stopped)))
    case _ => None
  }

  /** A cancelled sleeper is gone; a cancelled running call may go on for a while. */
  function CancelTask(s: State, task: Option<nat>): State {
    if task.None? || task.value !in s.calls then s
    else if s.calls[task.value].Asleep? then s.(calls := s.calls - {task.value})
    else s.(cancelled := s.cancelled + {task.value})
  }

  function Finish(s: State, id: nat, m: string, outcome: Outcome): State {
    s.(core := s.core.(log := s.core.log + [Ended(m, outcome)]),
       calls := s.calls - {id}, cancelled := s.cancelled - {id})
  }

  /** Puts the end of a stretch of call `id` into effect. */
  function Settle(s: State, id: nat, m: string, r: Stretch, task: nat): State {
    var after := CancelTask(s.(core := r.core), r.cancelled);
    match r.next
    case Await(call) => after.(calls := after.calls[id := call])
    case Done(outcome) =>
      var ended := Finish(after, id, m, outcome);
      if outcome == Started then ended.(calls := ended.calls[task := Asleep(m)]) else ended
  }

  function Apply(env: Env, s: State, e: Event): State {
    match e
    case Create(m, config) =>
      if m in s.matches then s  // the primary key refuses the row
      else s.(matches := s.matches[m := MatchRow(config, LOBBY, None)],
              core := s.core.(log := s.core.log + [Wrote(m, LOBBY, None)]))
    case BeginStart(id, m, timeout) =>
      if id in s.calls then s else s.(calls := s.calls[id := StartGet(m, timeout)])
    case BeginStop(id, m) =>
      if id in s.calls then s else s.(calls := s.calls[id := StopGet(m)])
    case Wake(id) =>
      if id in s.calls && s.calls[id].Asleep? then s.(calls := s.calls[id := StopGet(s.calls[id].matchId)]) else s
    case Database(id) =>
      if id in s.calls then Execute(s, id) else s
    case Resume(id, now, mono, task) =>
      if id in s.calls && task !in s.calls then
        match Run(env.p, s.core, s.calls[id], now, mono, task)
        case None => s
        case Some(r) => Settle(s, id, s.calls[id].matchId, r, task)
      else s
    case Abort(id) =>
      if id in s.cancelled && id in s.calls then
        var m := s.calls[id].matchId;
        var ended := Finish(s, id, m, Cancelled);
        if s.calls[id].MarkedFinished? then ended else ended.(cut := ended.cut + {m})
      else s
    case Register(identity, req) =>
      s.(core := HandleRegister(env.p, env.tokens, s.core, identity, req))
  }

  function RunAll(env: Env, s: State, es: seq<Event>): State {
    if es == [] then s else Apply(env, RunAll(env, s, es[..|es| - 1]), es[|es| - 1])
  }
}
