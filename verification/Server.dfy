/** The server's objects.  Their methods change fields in place, one stretch
    between awaits at a time, and are proved against the functions of ServerCore
    and Control, on which all results about runs are stated. */
module Server {
  import opened Prelude
  import opened Sealing
  import opened ServerCore
  import Base64
  import Control

  class NodeRegistry {
    const allowedTokens: map<string, string>
    var nodes: map<string, NodeRecord>

    constructor (allowedTokens: map<string, string>)
      ensures this.allowedTokens == allowedTokens && nodes == map[]
    {
      this.allowedTokens := allowedTokens;
      nodes := map[];
    }

    predicate Authenticate(nodeId: string, token: string) {
      nodeId in allowedTokens && allowedTokens[nodeId] == token
    }

    method Register(nodeId: string, hostname: string, ip: string, identity: Bytes) returns (isReconnect: bool)
      modifies this
      ensures isReconnect <==> nodeId in old(nodes)
      ensures nodes == old(nodes)[nodeId := NodeRecord(hostname, ip, Connected, identity)]
    {
      isReconnect := nodeId in nodes;
      if isReconnect {
        nodes := nodes[nodeId := nodes[nodeId].(hostname := hostname)];
        nodes := nodes[nodeId := nodes[nodeId].(ip := ip)];
        nodes := nodes[nodeId := nodes[nodeId].(identity := identity)];
        nodes := nodes[nodeId := nodes[nodeId].(state := Connected)];
      } else {
        nodes := nodes[nodeId := NodeRecord(hostname, ip, Connected, identity)];
      }
    }

    method UpdateState(nodeId: string, state: NodeState)
      modifies this
      ensures nodes == UpdateNode(old(nodes), nodeId, state)
    {
      if nodeId in nodes {
        nodes := nodes[nodeId := nodes[nodeId].(state := state)];
      }
    }

    function IdentityFor(nodeId: string): (identity: Option<Bytes>)
      reads this
      ensures identity.Some? <==> nodeId in nodes
      ensures identity.Some? ==> identity.value == nodes[nodeId].identity
    {
      if nodeId in nodes then Some(nodes[nodeId].identity) else None
    }
  }

  class CryptoManager {
    const p: Suite
    var sessions: map<string, Bytes>
    var matchKeys: map<string, Bytes>
    var drawn: nat

    constructor (p: Suite)
      ensures this.p == p && sessions == map[] && matchKeys == map[] && drawn == 0
    {
      this.p := p;
      sessions, matchKeys, drawn := map[], map[], 0;
    }

    method Urandom(n: nat) returns (b: Bytes)
      modifies this`drawn
      ensures b == p.urandom(old(drawn), n) && drawn == old(drawn) + 1
    {
      b := p.urandom(drawn, n);
      drawn := drawn + 1;
    }

    /** None is the exception raised for a key that cannot be used; by then the
        old session is gone. */
    method EstablishSession(nodeId: string, pubkey: string) returns (serverPubkey: Option<string>)
      modifies this`sessions, this`drawn
      ensures
        var private := p.urandom(old(drawn), 32);
        var key := AgreedKey(p, private, pubkey);
        && sessions == (if key.Some? then old(sessions)[nodeId := key.value] else old(sessions) - {nodeId})
        && serverPubkey == (if key.Some? then Some(Base64.Encode(p.pub(private))) else None)
      ensures drawn ==
        var raw := Base64.Decode(pubkey);
        if raw.Some? && |raw.value| == 32 then old(drawn) + 1 else old(drawn)
    {
      if nodeId in sessions {
        sessions := sessions - {nodeId};
      }
      var raw := Base64.Decode(pubkey);
      if raw.None? || |raw.value| != 32 { return None; }
      var private := Urandom(32);
      if !p.contributory(raw.value) { return None; }
      sessions := sessions[nodeId := p.kdf(p.exchange(private, raw.value))];
      assert sessions == old(sessions)[nodeId := sessions[nodeId]];
      serverPubkey := Some(Base64.Encode(p.pub(private)));
    }

    method GenerateMatchKey(matchId: string) returns (ok: bool)
      modifies this`matchKeys, this`drawn
      ensures ok <==> matchId !in old(matchKeys)
      ensures matchKeys == if ok then old(matchKeys)[matchId := p.urandom(old(drawn), 32)] else old(matchKeys)
      ensures drawn == if ok then old(drawn) + 1 else old(drawn)
    {
      if matchId in matchKeys { return false; }
      var key := Urandom(32);
      matchKeys := matchKeys[matchId := key];
      ok := true;
    }

    method EncryptMatchKeyForNode(matchId: string, nodeId: string) returns (wrapped: Option<string>)
      modifies this`drawn
      ensures wrapped.Some? <==> matchId in matchKeys && nodeId in sessions
      ensures wrapped.Some? ==>
        wrapped.value == WrapKey(p, sessions[nodeId], matchKeys[matchId], old(drawn)) && drawn == old(drawn) + 1
      ensures wrapped.None? ==> drawn == old(drawn)
    {
      if matchId !in matchKeys { return None; }
      if nodeId !in sessions { return None; }
      var nonce := Urandom(NONCE_SIZE);
      wrapped := Some(Pack(nonce, p.seal(sessions[nodeId], nonce, matchKeys[matchId], [])));
    }

    method RevokeMatchKey(matchId: string)
      modifies this`matchKeys
      ensures matchKeys == old(matchKeys) - {matchId}
    {
      matchKeys := matchKeys - {matchId};
    }

    method EncryptPrompt(matchId: string, prompt: string) returns (sealed: Option<string>)
      modifies this`drawn
      ensures sealed.Some? <==> matchId in matchKeys
      ensures sealed.Some? ==>
        sealed.value == SealPrompt(p, matchKeys[matchId], matchId, prompt, old(drawn)) && drawn == old(drawn) + 1
      ensures sealed.None? ==> drawn == old(drawn)
    {
      if matchId !in matchKeys { return None; }
      var nonce := Urandom(NONCE_SIZE);
      sealed := Some(Pack(nonce, p.seal(matchKeys[matchId], nonce, p.utf8(prompt), p.utf8(matchId))));
    }

    /** An empty schedule needs no key. */
    method EncryptSchedule(matchId: string, schedule: seq<PromptEntry>) returns (sealed: Option<seq<SealedEntry>>)
      modifies this`drawn
      ensures sealed.Some? <==> matchId in matchKeys || schedule == []
      ensures sealed.Some? && matchId in matchKeys ==>
        sealed.value == SealSchedule(p, matchKeys[matchId], matchId, schedule, old(drawn))
      ensures sealed.Some? ==> drawn == old(drawn) + |schedule| && |sealed.value| == |schedule|
      ensures sealed.None? ==> drawn == old(drawn)
    {
      var out := [];
      for i := 0 to |schedule|
        invariant i > 0 ==> matchId in matchKeys
        invariant drawn == old(drawn) + i
        invariant |out| == i
        invariant forall j | 0 <= j < i ::
          out[j] == SealSchedule(p, matchKeys[matchId], matchId, schedule, old(drawn))[j]
      {
        var prompt := EncryptPrompt(matchId, schedule[i].prompt);
        if prompt.None? { return None; }
        out := out + [SealedEntry(schedule[i].delay, prompt.value)];
      }
      sealed := Some(out);
    }
  }

  class MatchStore {
    var matches: map<string, MatchRow>

    constructor ()
      ensures matches == map[]
    {
      matches := map[];
    }

    /** False stands for the primary-key violation. */
    method Create(matchId: string, config: MatchConfig) returns (ok: bool)
      modifies this
      ensures ok <==> matchId !in old(matches)
      ensures matches == if ok then old(matches)[matchId := MatchRow(config, LOBBY, None)] else old(matches)
    {
      ok := matchId !in matches;
      if ok {
        matches := matches[matchId := MatchRow(config, LOBBY, None)];
      }
    }

    function Get(matchId: string): (row: Option<MatchRow>)
      reads this
      ensures row == Control.Lookup(matches, matchId)
    {
      if matchId in matches then Some(matches[matchId]) else None
    }

    method UpdateState(matchId: string, state: MatchState, t0: Option<real>)
      modifies this
      ensures matches == Control.UpdateRow(old(matches), matchId, state, t0)
    {
      if matchId in matches {
        if t0.Some? {
          matches := matches[matchId := matches[matchId].(state := state, t0 := t0)];
        } else {
          matches := matches[matchId := matches[matchId].(state := state)];
        }
      }
    }
  }

  class ZMQRouter {
    const registry: NodeRegistry
    const crypto: CryptoManager
    var log: seq<Entry>

    constructor (registry: NodeRegistry, crypto: CryptoManager)
      ensures this.registry == registry && this.crypto == crypto && log == []
    {
      this.registry, this.crypto := registry, crypto;
      log := [];
    }

    /** The state the router works on; timers are none of its business. */
    ghost function View(timers: map<string, nat>): Core
      reads this, registry, crypto
    {
      Core(registry.nodes, crypto.sessions, crypto.matchKeys, crypto.drawn, timers, log)
    }

    method SendTo(to: string, identity: Bytes, msg: Message)
      modifies this
      ensures log == old(log) + [Sent(to, identity, msg)]
    {
      log := log + [Sent(to, identity, msg)];
    }

    method Send(nodeId: string, msg: Message) returns (sent: bool)
      modifies this
      ensures sent <==> nodeId in registry.nodes
      ensures log == if sent then old(log) + [Sent(nodeId, registry.nodes[nodeId].identity, msg)] else old(log)
    {
      var identity := registry.IdentityFor(nodeId);
      if identity.None? { return false; }
      SendTo(nodeId, identity.value, msg);
      sent := true;
    }

    method HandleRegister(identity: Bytes, req: RegisterRequest)
      modifies this, registry, crypto`sessions, crypto`drawn
      ensures forall timers ::
        View(timers) ==
        ServerCore.HandleRegister(crypto.p, registry.allowedTokens, old(View(timers)), identity, req)
    {
      hide Base64.Encode, Base64.Decode;
      if !registry.Authenticate(req.nodeId, req.token) {
        SendTo(req.nodeId, identity, RegisterFail("invalid token"));
        return;
      }
      if req.ecdhPubkey == "" {
        SendTo(req.nodeId, identity, RegisterFail("missing ecdh_pubkey"));
        return;
      }
      var wasRunning := req.nodeId in registry.nodes && registry.nodes[req.nodeId].state == Running;
      var isReconnect := registry.Register(req.nodeId, req.hostname, req.ip, identity);
      log := log + [Accepted(req.nodeId, identity, req.ecdhPubkey, crypto.p.urandom(crypto.drawn, 32))];
      var serverPubkey := crypto.EstablishSession(req.nodeId, req.ecdhPubkey);
      if serverPubkey.None? { return; }
      if !wasRunning {
        registry.UpdateState(req.nodeId, Ready);
      }
      SendTo(req.nodeId, identity, RegisterOk(isReconnect, wasRunning, serverPubkey.value));
    }
  }

  class MatchManager {
    const router: ZMQRouter
    const registry: NodeRegistry
    const crypto: CryptoManager
    var autoStopTasks: map<string, nat>

    constructor (router: ZMQRouter, registry: NodeRegistry, crypto: CryptoManager)
      ensures this.router == router && this.registry == registry && this.crypto == crypto
      ensures autoStopTasks == map[]
    {
      this.router, this.registry, this.crypto := router, registry, crypto;
      autoStopTasks := map[];
    }

    ghost predicate Wired() {
      router.registry == registry && router.crypto == crypto
    }

    ghost function View(): Core
      reads this, router, registry, crypto
    {
      Core(registry.nodes, crypto.sessions, crypto.matchKeys, crypto.drawn, autoStopTasks, router.log)
    }

    method AfterStartGet(matchId: string, timeout: real, row: Option<MatchRow>) returns (next: Next)
      ensures Goes(View(), next) == ServerCore.AfterStartGet(View(), matchId, timeout, row)
    {
      if row.None? { return Done(NotFound); }
      if row.value.state != LOBBY { return Done(WrongState); }
      next := Await(MarkStarting(matchId, timeout, row.value.config));
    }

    /** One round of the readiness loop. */
    method Poll(matchId: string, deadline: real, config: MatchConfig, now: real, mono: real) returns (next: Next)
      ensures Goes(View(), next) == ServerCore.Poll(View(), matchId, deadline, config, now, mono)
    {
      var expected := set na | na in config.nodes :: na.nodeId;
      var ready := AllInState(registry.nodes, Ready);
      if expected <= ready { return Await(MarkRunning(matchId, now, config)); }
      if mono >= deadline { return Await(MarkLobby(matchId)); }
      next := Await(Polling(matchId, deadline, config));
    }

    /** Seals the schedule, then wraps the key; None is the exception of a missing
        match key. */
    method SealAssignment(matchId: string, t0: real, na: Assignment) returns (msg: Option<Message>)
      requires na.nodeId in crypto.sessions
      modifies crypto`drawn
      ensures msg.Some? <==> matchId in crypto.matchKeys
      ensures msg.Some? ==> msg.value == StartMessage(crypto.p, old(View()), matchId, t0, na)
      ensures crypto.drawn == if msg.Some? then old(crypto.drawn) + |na.schedule| + 1 else old(crypto.drawn)
    {
      var schedule := crypto.EncryptSchedule(matchId, na.schedule);
      if schedule.None? { return None; }
      var wrapped := crypto.EncryptMatchKeyForNode(matchId, na.nodeId);
      if wrapped.None? { return None; }
      msg := Some(Start(matchId, na.agentname, t0, wrapped.value, schedule.value));
    }

    /** The dispatch loop from assignment `k`, up to the next send. */
    method DispatchFrom(matchId: string, t0: real, config: MatchConfig, k: nat, task: nat) returns (next: Next)
      requires Wired()
      modifies this, router, crypto`drawn
      ensures Goes(View(), next) == ServerCore.DispatchFrom(crypto.p, old(View()), matchId, t0, config, k, task)
    {
      var i := k;
      while i < |config.nodes|
        invariant
          ServerCore.DispatchFrom(crypto.p, old(View()), matchId, t0, config, k, task) ==
          ServerCore.DispatchFrom(crypto.p, View(), matchId, t0, config, i, task)
        invariant autoStopTasks == old(autoStopTasks)
        decreases |config.nodes| - i
      {
        var na := config.nodes[i];
        if na.nodeId in crypto.sessions {
          var msg := SealAssignment(matchId, t0, na);
          if msg.None? { return Done(NoMatchKey); }
          var sent := router.Send(na.nodeId, msg.value);
          if sent { return Await(Starting(matchId, t0, config, i)); }
        }
        i := i + 1;
      }
      autoStopTasks := autoStopTasks[matchId := task];
      next := Done(Started);
    }

    method BeginDispatch(matchId: string, t0: real, config: MatchConfig, task: nat) returns (next: Next)
      requires Wired()
      modifies this, router, crypto`drawn, crypto`matchKeys
      ensures Goes(View(), next) == ServerCore.BeginDispatch(crypto.p, old(View()), matchId, t0, config, task)
    {
      var ok := crypto.GenerateMatchKey(matchId);
      if !ok { return Done(KeyExists); }
      next := DispatchFrom(matchId, t0, config, 0, task);
    }

    method AfterStartSent(matchId: string, t0: real, config: MatchConfig, k: nat, task: nat) returns (next: Next)
      requires Wired() && k < |config.nodes|
      modifies this, router, registry, crypto`drawn
      ensures Goes(View(), next) == ServerCore.AfterStartSent(crypto.p, old(View()), matchId, t0, config, k, task)
    {
      registry.UpdateState(config.nodes[k].nodeId, Running);
      next := DispatchFrom(matchId, t0, config, k + 1, task);
    }

    /** The stop loop from assignment `k`, up to the next send. */
    method StopFrom(matchId: string, config: MatchConfig, k: nat) returns (next: Next)
      requires Wired()
      modifies router, crypto`matchKeys
      ensures Goes(View(), next) == ServerCore.StopFrom(old(View()), matchId, config, k)
    {
      var i := k;
      while i < |config.nodes|
        invariant View() == old(View())
        invariant
          ServerCore.StopFrom(old(View()), matchId, config, k) == ServerCore.StopFrom(View(), matchId, config, i)
        decreases |config.nodes| - i
      {
        var sent := router.Send(config.nodes[i].nodeId, Stop(matchId));
        if sent { return Await(Stopping(matchId, config, i)); }
        i := i + 1;
      }
      crypto.RevokeMatchKey(matchId);
      next := Await(MarkFinished(matchId));
    }

    method AfterStopGet(matchId: string, row: Option<MatchRow>) returns (next: Next, cancelled: Option<nat>)
      requires Wired()
      modifies this, router, crypto`matchKeys
      ensures Stretch(View(), next, cancelled) == ServerCore.AfterStopGet(old(View()), matchId, row)
    {
      if row.None? { return Done(NotFound), None; }
      if row.value.state == FINISHED { return Done(Stopped), None; }
      cancelled := None;
      if matchId in autoStopTasks {
        cancelled := Some(autoStopTasks[matchId]);
        autoStopTasks := autoStopTasks - {matchId};
      }
      assert autoStopTasks == old(autoStopTasks) - {matchId};
      next := StopFrom(matchId, row.value.config, 0);
    }

    method AfterStopSent(matchId: string, config: MatchConfig, k: nat) returns (next: Next)
      requires Wired() && k < |config.nodes|
      modifies router, registry, crypto`matchKeys
      ensures Goes(View(), next) == ServerCore.AfterStopSent(old(View()), matchId, config, k)
    {
      registry.UpdateState(config.nodes[k].nodeId, Ready);
      next := StopFrom(matchId, config, k + 1);
    }
  }
}
