/** The node: START unwraps the match key and sets a timer per prompt, timers
    decrypt and open a window each, STOP cancels, closes and revokes. */
module NodeAgent {
  import opened Prelude
  import opened Sealing
  import opened ServerCore
  import TerminalId

  // ── keys and schedules ─────────────────────────────────────────────────────

  datatype Keyring = Keyring(session: Option<Bytes>, matchKeys: map<string, Bytes>)

  datatype Failure = MissingKey | Undecryptable

  /** A prompt's task: asleep, opening its window, showing it, closed by STOP,
      cancelled before it fired, or ended by an exception. */
  datatype Status =
    | Waiting
    | Opening(prompt: string)
    | Open(prompt: string)
    | Closed(prompt: string)
    | Cancelled
    | Failed(why: Failure)

  /** The schedule of one START, with the time it arrived, the match key it
      carried and the state of its tasks. */
  datatype Schedule = Schedule(start: Message, arrived: real, key: Bytes, tasks: seq<Status>, stopped: bool)

  /** When a prompt's sleep is over. */
  function FireTime(arrived: real, t0: real, delay: real): real {
    var wait := delay - (arrived - t0);
    arrived + if wait > 0.0 then wait else 0.0
  }

  function Decrypt(p: Suite, keys: Keyring, matchId: string, sealed: string): Status {
    if matchId !in keys.matchKeys then Failed(MissingKey)
    else
      match OpenPrompt(p, keys.matchKeys[matchId], matchId, sealed)
      case None => Failed(Undecryptable)
      case Some(prompt) => Opening(prompt)
  }

  /** STOP for one task: a sleeping one never fires, a window is closed. */
  function Stopped(status: Status): Status {
    match status
    case Waiting => Status.Cancelled
    case Opening(prompt) => Closed(prompt)
    case Open(prompt) => Closed(prompt)
    case _ => status
  }

  function StopAll(tasks: seq<Status>): seq<Status> {
    seq(|tasks|, i requires 0 <= i < |tasks| => Stopped(tasks[i]))
  }

  // ── the node and its runs ──────────────────────────────────────────────────

  /** One prompt fired: task `task` of schedule `schedule`, when and with what. */
  datatype Firing = Firing(schedule: nat, task: nat, at: real, result: Status)

  /** `schedules` are those of all STARTs so far; only the last is in the hands of
      `on_stop`.  `windows` is the table of open windows by terminal id. */
  datatype Node = Node(
    private: Bytes, keys: Keyring, schedules: seq<Schedule>, windows: map<string, (nat, nat)>, fired: seq<Firing>)

  datatype NodeEvent =
    | Registered(serverPubkey: string)
    | OnStart(msg: Message, now: real)
    | OnStop
    | Expire(schedule: nat, task: nat, now: real)   // the timer ran out and the task is resumed
    | WindowUp(schedule: nat, task: nat)            // the window's process is running

  function WithTask(n: Node, k: nat, i: nat, status: Status): Node
    requires k < |n.schedules| && i < |n.schedules[k].tasks|
  {
    var s := n.schedules[k];
    n.(schedules := n.schedules[k := s.(tasks := s.tasks[i := status])])
  }

  function TerminalOf(n: Node, k: nat, i: nat): string
    requires k < |n.schedules| && n.schedules[k].start.Start?
  {
    TerminalId.Of(n.schedules[k].start.matchId, i)
  }

  function HandleStart(p: Suite, n: Node, msg: Message, now: real): Node
    requires msg.Start?
  {
    if n.keys.session.None? then n
    else
      match UnwrapKey(p, n.keys.session.value, msg.encryptedMatchKey)
      case None => n
      case Some(key) =>
        n.(keys := n.keys.(matchKeys := n.keys.matchKeys[msg.matchId := key]),
           schedules := n.schedules + [Schedule(msg, now, key, seq(|msg.schedule|, _ => Waiting), false)])
  }

  /** The terminal ids of the windows that STOP closes. */
  function ClosedWindows(s: Schedule): set<string>
    requires s.start.Start?
  {
    set i | 0 <= i < |s.tasks| && (s.tasks[i].Opening? || s.tasks[i].Open?) :: TerminalId.Of(s.start.matchId, i)
  }

  function HandleStop(n: Node): Node {
    if n.schedules == [] then n
    else
      var k := |n.schedules| - 1;
      var s := n.schedules[k];
      if !s.start.Start? then n
      else
        n.(keys := n.keys.(matchKeys := n.keys.matchKeys - {s.start.matchId}),
           schedules := n.schedules[k := s.(tasks := StopAll(s.tasks), stopped := true)],
           windows := n.windows - ClosedWindows(s))
  }

  predicate CanExpire(n: Node, k: nat, i: nat, now: real) {
    && k < |n.schedules| && n.schedules[k].start.Start?
    && i < |n.schedules[k].tasks| && i < |n.schedules[k].start.schedule|
    && n.schedules[k].tasks[i].Waiting?
    && now >= FireTime(n.schedules[k].arrived, n.schedules[k].start.t0, n.schedules[k].start.schedule[i].delay)
  }

  function Handle(p: Suite, n: Node, e: NodeEvent): Node {
    match e
    case Registered(serverPubkey) =>
      var key := AgreedKey(p, n.private, serverPubkey);
      if key.None? then n else n.(keys := n.keys.(session := key))
    case OnStart(msg, now) => if msg.Start? then HandleStart(p, n, msg, now) else n
    case OnStop => HandleStop(n)
    case Expire(k, i, now) =>
      if !CanExpire(n, k, i, now) then n
      else
        var s := n.schedules[k];
        var result := Decrypt(p, n.keys, s.start.matchId, s.start.schedule[i].encryptedPrompt);
        WithTask(n, k, i, result).(fired := n.fired + [Firing(k, i, now, result)])
    case WindowUp(k, i) =>
      if k < |n.schedules| && n.schedules[k].start.Start? && i < |n.schedules[k].tasks|
         && n.schedules[k].tasks[i].Opening? then
        WithTask(n, k, i, Open(n.schedules[k].tasks[i].prompt))
          .(windows := n.windows[TerminalOf(n, k, i) := (k, i)])
      else n
  }

  function Fresh(private: Bytes): Node {
    Node(private, Keyring(None, map[]), [], map[], [])
  }

  function HandleAll(p: Suite, private: Bytes, es: seq<NodeEvent>): Node {
    if es == [] then Fresh(private)
    else Handle(p, HandleAll(p, private, es[..|es| - 1]), es[|es| - 1])
  }

  // ── firing times ───────────────────────────────────────────────────────────

  /** A prompt is due at t0 + delay, or on arrival if that is past. */
  lemma FireTimeIs(arrived: real, t0: real, delay: real)
    ensures FireTime(arrived, t0, delay) == if t0 + delay > arrived then t0 + delay else arrived
  {}

  /** Restarting the same schedule later: prompts still in the future keep their
      absolute time, exactly the ones already due fire at once, order is kept. */
  lemma RestartKeepsTimes(arrived: real, later: real, t0: real, delay: real, delay': real)
    requires arrived <= later
    ensures FireTime(arrived, t0, delay) > later ==> FireTime(later, t0, delay) == FireTime(arrived, t0, delay)
    ensures FireTime(later, t0, delay) == later <==> FireTime(arrived, t0, delay) <= later
    ensures delay <= delay' ==> FireTime(arrived, t0, delay) <= FireTime(arrived, t0, delay')
  {}

  // ── what STOP leaves ───────────────────────────────────────────────────────

  predicate Active(status: Status) { status.Waiting? || status.Opening? || status.Open? }

  ghost predicate Quiet(s: Schedule) { forall i | 0 <= i < |s.tasks| :: !Active(s.tasks[i]) }

  /** STOP reaches the last schedule only: afterwards nothing can fire and no
      window is open exactly if no earlier schedule was still active. */
  lemma StopQuietsAll(n: Node)
    requires n.schedules != [] && n.schedules[|n.schedules| - 1].start.Start?
    ensures (forall k | 0 <= k < |n.schedules| :: Quiet(HandleStop(n).schedules[k]))
      <==> (forall k | 0 <= k < |n.schedules| - 1 :: Quiet(n.schedules[k]))
  {
    var n', last := HandleStop(n), |n.schedules| - 1;
    forall i | 0 <= i < |n'.schedules[last].tasks| ensures !Active(n'.schedules[last].tasks[i]) {}
    assert forall k | 0 <= k < last :: n'.schedules[k] == n.schedules[k];
  }

  /** A START that arrives before the STOP of the one before leaves that one's
      prompts waiting after STOP; if both are of one match, without a key. */
  lemma StopMissesEarlierStart(p: Suite, n: Node, first: Message, second: Message, now: real)
    requires first.Start? && second.Start? && first.schedule != [] && n.keys.session.Some?
    requires UnwrapKey(p, n.keys.session.value, first.encryptedMatchKey).Some?
    requires UnwrapKey(p, n.keys.session.value, second.encryptedMatchKey).Some?
    ensures
      var n', k := HandleStop(HandleStart(p, HandleStart(p, n, first, now), second, now)), |n.schedules|;
      && k < |n'.schedules| && n'.schedules[k].start == first && n'.schedules[k].tasks[0] == Waiting
      && (first.matchId == second.matchId ==>
            Decrypt(p, n'.keys, first.matchId, first.schedule[0].encryptedPrompt) == Failed(MissingKey))
  {}
}
