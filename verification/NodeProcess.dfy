/** The node's objects.  Their methods change fields in place and are proved
    against the functions of NodeAgent, on which the results about runs are
    stated.  Tasks and windows are referred to by the position of their prompt. */
module NodeProcess {
  import opened Prelude
  import opened Sealing
  import opened ServerCore
  import opened NodeAgent
  import Base64
  import TerminalId

  class NodeCrypto {
    const p: Suite
    const private: Bytes
    var sessionKey: Option<Bytes>
    var matchKeys: map<string, Bytes>

    constructor (p: Suite, private: Bytes)
      ensures this.p == p && this.private == private && Keys() == Keyring(None, map[])
    {
      this.p, this.private := p, private;
      sessionKey, matchKeys := None, map[];
    }

    ghost function Keys(): Keyring
      reads this
    {
      Keyring(sessionKey, matchKeys)
    }

    /** False is the exception for a key that cannot be used. */
    method DeriveSessionKey(serverPubkey: string) returns (ok: bool)
      modifies this`sessionKey
      ensures ok <==> AgreedKey(p, private, serverPubkey).Some?
      ensures sessionKey == if ok then AgreedKey(p, private, serverPubkey) else old(sessionKey)
    {
      var raw := Base64.Decode(serverPubkey);
      if raw.None? || |raw.value| != 32 { return false; }
      if !p.contributory(raw.value) { return false; }
      sessionKey := Some(p.kdf(p.exchange(private, raw.value)));
      ok := true;
    }

    /** False is an exception: no session key, or the blob does not open under it. */
    method UnwrapMatchKey(matchId: string, wrapped: string) returns (ok: bool)
      modifies this`matchKeys
      ensures ok <==> sessionKey.Some? && UnwrapKey(p, sessionKey.value, wrapped).Some?
      ensures matchKeys ==
        if ok then old(matchKeys)[matchId := UnwrapKey(p, sessionKey.value, wrapped).value] else old(matchKeys)
    {
      var blob := Unpack(wrapped);
      if blob.None? || sessionKey.None? { return false; }
      var (nonce, cipher) := blob.value;
      var key := p.unseal(sessionKey.value, nonce, cipher, []);
      if key.None? { return false; }
      matchKeys := matchKeys[matchId := key.value];
      ok := true;
    }

    method DecryptPrompt(matchId: string, encrypted: string) returns (result: Status)
      ensures result == Decrypt(p, Keys(), matchId, encrypted)
    {
      if matchId !in matchKeys { return Failed(MissingKey); }
      var blob := Unpack(encrypted);
      if blob.None? { return Failed(Undecryptable); }
      var (nonce, cipher) := blob.value;
      var plain := p.unseal(matchKeys[matchId], nonce, cipher, p.utf8(matchId));
      if plain.None? { return Failed(Undecryptable); }
      var prompt := p.text(plain.value);
      result := if prompt.None? then Failed(Undecryptable) else Opening(prompt.value);
    }

    method RevokeMatchKey(matchId: string)
      modifies this`matchKeys
      ensures matchKeys == old(matchKeys) - {matchId}
    {
      matchKeys := matchKeys - {matchId};
    }
  }

  /** The table of open windows, by terminal id. */
  class WindowTable {
    var windows: map<string, (nat, nat)>

    constructor ()
      ensures windows == map[]
    {
      windows := map[];
    }
  }

  /** What the coroutine of one prompt was given; `due` is when its sleep ends. */
  datatype FireArgs = FireArgs(due: real, terminalId: string, encryptedPrompt: string)

  /** What the coroutines of a schedule that arrives at `now` are given. */
  function Timers(msg: Message, now: real): seq<FireArgs>
    requires msg.Start?
  {
    seq(|msg.schedule|, i requires 0 <= i < |msg.schedule| =>
      FireArgs(FireTime(now, msg.t0, msg.schedule[i].delay),
               TerminalId.Of(msg.matchId, i), msg.schedule[i].encryptedPrompt))
  }

  /** `args` are one coroutine per prompt: due at the start time plus its delay, or
      on arrival if that is past, under its own id and with its own blob. */
  ghost predicate SetFor(args: seq<FireArgs>, msg: Message, arrived: real)
    requires msg.Start?
  {
    && |args| == |msg.schedule|
    && forall i | 0 <= i < |args| ::
         var time := msg.t0 + msg.schedule[i].delay;
         && args[i].due == (if time > arrived then time else arrived)
         && args[i].terminalId == msg.matchId + "-t" + TerminalId.Decimal(i)
         && args[i].encryptedPrompt == msg.schedule[i].encryptedPrompt
  }

  /** Two starts of one schedule, the second later: they set the same prompts under
      the same terminal ids, none missing; what is still in the future keeps its
      time, and exactly what is due already fires at once. */
  lemma RestartKeepsTimers(msg: Message, arrived: real, later: real, first: seq<FireArgs>, second: seq<FireArgs>)
    requires msg.Start? && arrived <= later && SetFor(first, msg, arrived) && SetFor(second, msg, later)
    ensures |first| == |second| == |msg.schedule|
    ensures forall i | 0 <= i < |first| ::
      && second[i].terminalId == first[i].terminalId && second[i].encryptedPrompt == first[i].encryptedPrompt
      && (first[i].due > later ==> second[i].due == first[i].due)
      && (second[i].due == later <==> first[i].due <= later)
    ensures forall i, j | 0 <= i < |first| && 0 <= j < |first| && msg.schedule[i].delay <= msg.schedule[j].delay ::
      first[i].due <= first[j].due && second[i].due <= second[j].due
  {}

  /** A prompt may fire exactly when it still sleeps, its START has arrived and its
      delay after the start time is over. */
  lemma FiresWhenDue(n: Node, k: nat, i: nat, now: real)
    requires k < |n.schedules| && n.schedules[k].start.Start?
    requires i < |n.schedules[k].tasks| == |n.schedules[k].start.schedule|
    ensures var s := n.schedules[k];
      CanExpire(n, k, i, now) <==>
        s.tasks[i].Waiting? && now >= s.arrived && now >= s.start.t0 + s.start.schedule[i].delay
  {}

  datatype Begun = Begun(start: Message, arrived: real, key: Bytes)

  class MatchScheduler {
    const crypto: NodeCrypto
    const table: WindowTable
    const serial: nat
    var matchId: Option<string>
    var args: seq<FireArgs>
    var status: seq<Status>
    var tasks: seq<nat>
    var windows: seq<nat>
    ghost var begun: Option<Begun>
    ghost var stopped: bool

    constructor (crypto: NodeCrypto, table: WindowTable, serial: nat)
      ensures this.crypto == crypto && this.table == table && this.serial == serial
      ensures args == [] && status == [] && tasks == [] && windows == [] && !stopped
    {
      this.crypto, this.table, this.serial := crypto, table, serial;
      matchId, args, status, tasks, windows := None, [], [], [], [];
      begun, stopped := None, false;
    }

    ghost predicate Valid()
      reads this
    {
      && begun.Some? && begun.value.start.Start?
      && var msg, arrived := begun.value.start, begun.value.arrived;
      && matchId == Some(msg.matchId)
      && |status| == |args| && args == Timers(msg, arrived)
      && if stopped then tasks == [] && windows == [] && forall i | 0 <= i < |status| :: !Active(status[i])
         else
           && |tasks| == |status| && (forall i | 0 <= i < |tasks| :: tasks[i] == i)
           && (forall i <- windows :: i < |status|)
           && (forall i: nat | i < |status| :: i in windows <==> status[i].Opening? || status[i].Open?)
    }

    ghost function View(): Schedule
      requires begun.Some?
      reads this
    {
      Schedule(begun.value.start, begun.value.arrived, begun.value.key, status, stopped)
    }

    /** One task per prompt, asleep until t0 plus its delay or not at all. */
    method Start(msg: Message, now: real, ghost key: Bytes)
      requires msg.Start? && args == [] && status == [] && tasks == [] && windows == [] && !stopped
      modifies this
      ensures Valid() && View() == Schedule(msg, now, key, seq(|msg.schedule|, _ => Waiting), false)
      ensures SetFor(args, msg, now)
    {
      matchId := Some(msg.matchId);
      var elapsed := now - msg.t0;
      for i := 0 to |msg.schedule|
        invariant |args| == |status| == |tasks| == i && windows == [] && !stopped
        invariant matchId == Some(msg.matchId)
        invariant forall j | 0 <= j < i :: tasks[j] == j && status[j] == Waiting
        invariant forall j | 0 <= j < i :: args[j] == Timers(msg, now)[j]
      {
        var wait := msg.schedule[i].delay - elapsed;
        var due := now + if wait > 0.0 then wait else 0.0;
        args := args + [FireArgs(due, TerminalId.Of(msg.matchId, i), msg.schedule[i].encryptedPrompt)];
        status := status + [Waiting];
        tasks := tasks + [i];
      }
      begun := Some(Begun(msg, now, key));
      assert args == Timers(msg, now);
      assert status == seq(|msg.schedule|, _ => Waiting);
    }

    /** The sleep of task `i` is over: the prompt is decrypted now and its window
        is recorded before it opens. */
    method Fire(i: nat, now: real) returns (result: Status)
      requires Valid() && i < |status| && status[i].Waiting? && now >= args[i].due
      modifies this`status, this`windows
      ensures Valid() && result == Decrypt(crypto.p, crypto.Keys(), matchId.value, args[i].encryptedPrompt)
      ensures status == old(status)[i := result]
    {
      result := crypto.DecryptPrompt(matchId.value, args[i].encryptedPrompt);
      status := status[i := result];
      if result.Opening? { windows := windows + [i]; }
    }

    /** The window's process is running: it enters the table. */
    method WindowUp(i: nat)
      requires Valid() && i < |status| && status[i].Opening?
      modifies this`status, table
      ensures Valid() && status == old(status)[i := Open(old(status)[i].prompt)]
      ensures table.windows == old(table.windows)[args[i].terminalId := (serial, i)]
    {
      status := status[i := Open(status[i].prompt)];
      table.windows := table.windows[args[i].terminalId := (serial, i)];
    }

    method CancelTasks()
      requires Valid()
      modifies this`status
      ensures |status| == |old(status)|
      ensures forall i: nat | i < |status| ::
        status[i] == if old(status)[i].Waiting? then Status.Cancelled else old(status)[i]
    {
      for j := 0 to |tasks|
        invariant |status| == |old(status)|
        invariant forall i: nat | i < |status| ::
          status[i] == if i < j && old(status)[i].Waiting? then Status.Cancelled else old(status)[i]
      {
        if status[tasks[j]].Waiting? {
          status := status[tasks[j] := Status.Cancelled];
        }
      }
    }

    /** Closes every recorded window and takes it out of the table. */
    method CloseWindows()
      requires |status| <= |args| && forall i <- windows :: i < |status| && (status[i].Opening? || status[i].Open?)
      modifies this`status, table
      ensures |status| == |old(status)|
      ensures forall i: nat | i < |status| ::
        status[i] == if i in windows then Closed(old(status)[i].prompt) else old(status)[i]
      ensures table.windows == old(table.windows) - (set i | 0 <= i < |args| && i in windows :: args[i].terminalId)
    {
      for j := 0 to |windows|
        invariant |status| == |old(status)|
        invariant forall i: nat | i < |status| ::
          status[i] == if i in windows[..j] then Closed(old(status)[i].prompt) else old(status)[i]
        invariant table.windows ==
          old(table.windows) - (set i | 0 <= i < |args| && i in windows[..j] :: args[i].terminalId)
      {
        var w := windows[j];
        assert w in windows;
        assert windows[..j + 1] == windows[..j] + [w];
        status := status[w := Closed(status[w].prompt)];
        table.windows := table.windows - {args[w].terminalId};
      }
      assert windows[..|windows|] == windows;
    }

    method Stop()
      requires Valid()
      modifies this, table, crypto`matchKeys
      ensures Valid() && begun == old(begun)
      ensures View() == old(View()).(tasks := StopAll(old(status)), stopped := true)
      ensures table.windows == old(table.windows) - ClosedWindows(old(View()))
      ensures crypto.matchKeys == old(crypto.matchKeys) - {matchId.value}
    {
      CancelTasks();
      CloseWindows();
      assert status == StopAll(old(status));
      assert (set i | 0 <= i < |args| && i in windows :: args[i].terminalId) == ClosedWindows(old(View()));
      crypto.RevokeMatchKey(matchId.value);
      tasks, windows, stopped := [], [], true;
    }
  }

  /** The process: the current scheduler, and for the specification all there
      ever were, with what they fired. */
  class NodeProcess {
    const crypto: NodeCrypto
    const table: WindowTable
    var scheduler: MatchScheduler?
    var made: nat  // schedulers so far; tells their windows apart
    ghost var all: seq<MatchScheduler>
    ghost var fired: seq<Firing>

    constructor (p: Suite, private: Bytes)
      ensures Valid() && crypto.p == p && View() == Fresh(private)
    {
      crypto := new NodeCrypto(p, private);
      table := new WindowTable();
      scheduler, made := null, 0;
      all, fired := [], [];
    }

    ghost predicate Valid()
      reads this, all
    {
      && scheduler == (if all == [] then null else all[|all| - 1]) && made == |all|
      && forall k | 0 <= k < |all| ::
           all[k].crypto == crypto && all[k].table == table && all[k].serial == k && all[k].Valid()
    }

    ghost function View(): Node
      requires Valid()
      reads this, all, crypto, table
    {
      Node(crypto.private, crypto.Keys(),
           seq(|all|, k requires 0 <= k < |all| && Valid() reads this, all => all[k].View()), table.windows, fired)
    }

    method OnRegistered(serverPubkey: string)
      requires Valid()
      modifies crypto
      ensures Valid() && View() == Handle(crypto.p, old(View()), Registered(serverPubkey))
    {
      var ok := crypto.DeriveSessionKey(serverPubkey);
      assert View().schedules == old(View()).schedules;
    }

    method OnStart(msg: Message, now: real)
      requires Valid() && msg.Start?
      modifies this, crypto`matchKeys
      ensures Valid() && View() == HandleStart(crypto.p, old(View()), msg, now)
    {
      ghost var before := View();
      var ok := crypto.UnwrapMatchKey(msg.matchId, msg.encryptedMatchKey);
      assert View() == before.(keys := crypto.Keys());
      if ok { Schedule(msg, now); }
    }

    method Schedule(msg: Message, now: real)
      requires Valid() && msg.Start? && msg.matchId in crypto.matchKeys
      modifies this
      ensures Valid()
      ensures
        var asleep := seq(|msg.schedule|, _ => Waiting);
        var s := NodeAgent.Schedule(msg, now, crypto.matchKeys[msg.matchId], asleep, false);
        View() == old(View()).(schedules := old(View().schedules) + [s])
    {
      hide Timers;
      ghost var before := View();
      var next := new MatchScheduler(crypto, table, made);
      next.Start(msg, now, crypto.matchKeys[msg.matchId]);
      assert Valid() && View() == before;
      scheduler, made, all := next, made + 1, all + [next];
      assert forall k | 0 <= k < |before.schedules| :: all[k] == old(all)[k];
      assert Valid();
      assert View().schedules == before.schedules + [next.View()];
    }

    /** The sleep of a task is over, whichever START it belongs to. */
    method OnExpire(s: MatchScheduler, ghost k: nat, i: nat, now: real)
      requires Valid() && k < |all| && s == all[k] && CanExpire(View(), k, i, now)
      modifies this`fired, s
      ensures Valid() && View() == Handle(crypto.p, old(View()), Expire(k, i, now))
    {
      ghost var before := View();
      var result := s.Fire(i, now);
      fired := fired + [Firing(k, i, now, result)];
      assert View().schedules == before.schedules[k := s.View()];
    }

    /** The sleep of a task is over, for its coroutine, exactly when the model lets
        it fire: not before its time, and at any time from then on. */
    lemma SleepsUntilDue(k: nat, i: nat, now: real)
      requires Valid() && k < |all| && i < |all[k].status|
      ensures |all[k].args| == |all[k].status|
      ensures all[k].status[i].Waiting? && now >= all[k].args[i].due <==> CanExpire(View(), k, i, now)
      ensures SetFor(all[k].args, all[k].View().start, all[k].View().arrived)
    {}

    method OnWindowUp(s: MatchScheduler, ghost k: nat, i: nat)
      requires Valid() && k < |all| && s == all[k] && i < |s.status| && s.status[i].Opening?
      modifies s, table
      ensures Valid() && View() == Handle(crypto.p, old(View()), WindowUp(k, i))
    {
      ghost var before := View();
      s.WindowUp(i);
      assert View().schedules == before.schedules[k := s.View()];
    }

    method OnStop()
      requires Valid()
      modifies this, all, table, crypto`matchKeys
      ensures Valid() && View() == HandleStop(old(View()))
    {
      ghost var before := View();
      if scheduler != null {
        scheduler.Stop();
        assert View().schedules == before.schedules[|all| - 1 := scheduler.View()];
      }
    }
  }
}
