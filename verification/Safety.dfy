/** What holds at every await point of every run, however calls overlap: identity
    and session of a node always come from its latest accepted REGISTER, and every
    START can be opened by the node that made that REGISTER. */
module Safety {
  import opened Prelude
  import opened Sealing
  import opened ServerCore
  import opened Control
  import Base64

  // ── provenance ─────────────────────────────────────────────────────────────

  /** The position of the latest accepted REGISTER of a node. */
  ghost function Latest(log: seq<Entry>, n: string): (i: Option<nat>)
    ensures i.Some? ==> i.value < |log| && log[i.value].Accepted? && log[i.value].nodeId == n
  {
    if log == [] then None
    else
      var last := |log| - 1;
      if log[last].Accepted? && log[last].nodeId == n then Some(last) else Latest(log[..last], n)
  }

  lemma {:induction false} LatestAppend(log: seq<Entry>, more: seq<Entry>, n: string)
    requires forall e <- more :: e.Accepted? ==> e.nodeId != n
    ensures Latest(log + more, n) == Latest(log, n)
  {
    if more == [] {
      assert log + more == log;
    } else {
      var init := more[..|more| - 1];
      LatestAppend(log, init, n);
      assert (log + more)[..|log + more| - 1] == log + init;
    }
  }

  /** Identity and session of a node with respect to its REGISTER at `i`: the
      identity is the one it came from; a session exists exactly if its key was
      usable, is the key agreed then, and was announced right after on the same
      connection. */
  ghost predicate From(p: Suite, core: Core, n: string, i: nat) {
    i < |core.log| && core.log[i].Accepted? &&
    var reg := core.log[i];
    && n in core.nodes && core.nodes[n].identity == reg.peerIdentity
    && (n in core.sessions <==> WellFormedKey(p, reg.pubkey))
    && (n in core.sessions ==>
          && AgreedKey(p, reg.private, reg.pubkey) == Some(core.sessions[n])
          && i + 1 < |core.log| && IsAnnouncement(p, reg, core.log[i + 1]))
  }

  ghost predicate IsAnnouncement(p: Suite, reg: Entry, e: Entry)
    requires reg.Accepted?
  {
    && e.Sent? && e.to == reg.nodeId && e.identity == reg.peerIdentity
    && e.msg.RegisterOk? && e.msg.serverPubkey == Base64.Encode(p.pub(reg.private))
  }

  ghost predicate Traced(p: Suite, core: Core, n: string) {
    match Latest(core.log, n)
    case None => n !in core.nodes && n !in core.sessions
    case Some(i) => From(p, core, n, i)
  }

  ghost predicate Provenance(p: Suite, core: Core) {
    forall n :: Traced(p, core, n)
  }

  /** Nothing about node `n` that provenance speaks of changed. */
  ghost predicate Same(c: Core, c': Core, n: string) {
    && (n in c'.sessions <==> n in c.sessions) && (n in c.sessions ==> c'.sessions[n] == c.sessions[n])
    && (n in c'.nodes <==> n in c.nodes) && (n in c.nodes ==> c'.nodes[n].identity == c.nodes[n].identity)
    && c.log <= c'.log && (forall e <- c'.log[|c.log|..] :: e.Accepted? ==> e.nodeId != n)
  }

  lemma TracedKept(p: Suite, c: Core, c': Core, n: string)
    requires Traced(p, c, n) && Same(c, c', n)
    ensures Traced(p, c', n)
  {
    assert c'.log == c.log + c'.log[|c.log|..];
    LatestAppend(c.log, c'.log[|c.log|..], n);
  }

  /** A change that touches neither identities nor sessions of any node. */
  ghost predicate Keeps(c: Core, c': Core) {
    && c'.sessions == c.sessions
    && c'.nodes.Keys == c.nodes.Keys
    && (forall n | n in c.nodes :: c'.nodes[n].identity == c.nodes[n].identity)
    && c.log <= c'.log
    && (forall e <- c'.log[|c.log|..] :: !e.Accepted?)
  }

  lemma ProvenanceKept(p: Suite, c: Core, c': Core)
    requires Provenance(p, c) && Keeps(c, c')
    ensures Provenance(p, c')
  {
    forall n ensures Traced(p, c', n) {
      assert Traced(p, c, n);
      TracedKept(p, c, c', n);
    }
  }

  lemma RegisterProvenance(
      p: Suite, tokens: map<string, string>, core: Core, identity: Bytes, req: RegisterRequest)
    requires Provenance(p, core)
    ensures Provenance(p, HandleRegister(p, tokens, core, identity, req))
  {
    var n, c := req.nodeId, HandleRegister(p, tokens, core, identity, req);
    if Passes(tokens, req) {
      AcceptedEffect(p, tokens, core, identity, req);
      LatestNew(core.log, c.log[|core.log|..], n);
      assert c.log == core.log + c.log[|core.log|..];
      assert Traced(p, c, n);
    }
    forall other | other != n || !Passes(tokens, req) ensures Traced(p, c, other) {
      RegisterSame(p, tokens, core, identity, req, other);
      assert Traced(p, core, other);
      TracedKept(p, core, c, other);
    }
  }

  lemma RegisterSame(
      p: Suite, tokens: map<string, string>, core: Core, identity: Bytes, req: RegisterRequest, n: string)
    requires n != req.nodeId || !Passes(tokens, req)
    ensures Same(core, HandleRegister(p, tokens, core, identity, req), n)
  {
    hide Base64.Encode, Base64.Decode, AgreedKey;
    if Passes(tokens, req) {
      hide HandleRegister;
      AcceptedEffect(p, tokens, core, identity, req);
      var c := HandleRegister(p, tokens, core, identity, req);
      assert c.log[|core.log|..] == [c.log[|core.log|]] + c.log[|core.log| + 1..];
    }
  }

  ghost predicate OthersKeep<V>(m: map<string, V>, m': map<string, V>, n: string) {
    && (forall other | other != n :: other in m' <==> other in m)
    && (forall other | other != n && other in m :: m'[other] == m[other])
  }

  predicate Passes(tokens: map<string, string>, req: RegisterRequest) {
    req.nodeId in tokens && tokens[req.nodeId] == req.token && req.ecdhPubkey != ""
  }

  /** What an accepted REGISTER changes: its own node, and one or two log entries. */
  lemma AcceptedEffect(
      p: Suite, tokens: map<string, string>, core: Core, identity: Bytes, req: RegisterRequest)
    requires Passes(tokens, req)
    ensures
      var n, i, c := req.nodeId, |core.log|, HandleRegister(p, tokens, core, identity, req);
      && core.log <= c.log && |c.log| > i
      && c.log[i] == Accepted(n, identity, req.ecdhPubkey, p.urandom(core.drawn, 32))
      && (forall e <- c.log[i + 1..] :: !e.Accepted?)
      && OthersKeep(core.nodes, c.nodes, n) && OthersKeep(core.sessions, c.sessions, n)
      && From(p, c, n, i)
  {
    hide Base64.Encode, Base64.Decode;
    var n, i, after := req.nodeId, |core.log|, HandleRegister(p, tokens, core, identity, req);
    var registered := core.(
      nodes := core.nodes[n := NodeRecord(req.hostname, req.ip, Connected, identity)],
      log := core.log + [Accepted(n, identity, req.ecdhPubkey, p.urandom(core.drawn, 32))]);
    var (c, pubkey) := EstablishSession(p, registered, n, req.ecdhPubkey);
    EstablishEffect(p, registered, n, req.ecdhPubkey);
    if pubkey.Some? {
      var answer := after.log[i + 1];
      assert after.log == registered.log + [answer];
      assert after.log[i + 1..] == [answer];
    } else {
      assert after == c && after.log[i + 1..] == [];
    }
  }

  lemma EstablishEffect(p: Suite, core: Core, n: string, pubkey: string)
    ensures
      var (c, announced) := EstablishSession(p, core, n, pubkey);
      var key := AgreedKey(p, p.urandom(core.drawn, 32), pubkey);
      && c.nodes == core.nodes && c.log == core.log && OthersKeep(core.sessions, c.sessions, n)
      && (WellFormedKey(p, pubkey) <==> n in c.sessions) && (announced.Some? <==> n in c.sessions)
      && (n in c.sessions ==>
            key == Some(c.sessions[n]) && announced.value == Base64.Encode(p.pub(p.urandom(core.drawn, 32))))
  {
  }

  lemma LatestNew(log: seq<Entry>, more: seq<Entry>, n: string)
    requires |more| > 0 && more[0].Accepted? && more[0].nodeId == n
    requires forall e <- more[1..] :: !e.Accepted?
    ensures Latest(log + more, n) == Some(|log|)
  {
    assert log + more == (log + [more[0]]) + more[1..];
    LatestAppend(log + [more[0]], more[1..], n);
    assert (log + [more[0]])[..|log|] == log;
  }

  // ── every START ────────────────────────────────────────────────────────────

  predicate IsStart(e: Entry) { e.Sent? && e.msg.Start? }

  /** START number `j` of the log is wrapped under the session key of REGISTER
      `i`, the latest of that node before it, goes to the connection that sent it,
      and carries assignment `k` of its match under `key`. */
  ghost predicate StartFrom(
      p: Suite, matches: map<string, MatchRow>, log: seq<Entry>, j: nat, i: nat, k: nat, key: Bytes, draw: nat)
    requires j < |log| && IsStart(log[j])
  {
    var to, msg := log[j].to, log[j].msg;
    && Latest(log[..j], to) == Some(i) && i + 1 < j
    && log[i].peerIdentity == log[j].identity && IsAnnouncement(p, log[i], log[i + 1])
    && msg.matchId in matches && k < |matches[msg.matchId].config.nodes|
    && var na, session := matches[msg.matchId].config.nodes[k], AgreedKey(p, log[i].private, log[i].pubkey);
    && na.nodeId == to && na.agentname == msg.agentname
    && session.Some?
    && msg.encryptedMatchKey == WrapKey(p, session.value, key, draw + |na.schedule|)
    && msg.schedule == SealSchedule(p, key, msg.matchId, na.schedule, draw)
  }

  ghost predicate StartSound(p: Suite, matches: map<string, MatchRow>, log: seq<Entry>, j: nat) {
    j < |log| && IsStart(log[j]) ==> exists i, k, key, draw :: StartFrom(p, matches, log, j, i, k, key, draw)
  }

  /** Matches stay in the table with their configuration. */
  ghost predicate ConfigsKept(matches: map<string, MatchRow>, matches': map<string, MatchRow>) {
    forall m | m in matches :: m in matches' && matches'[m].config == matches[m].config
  }

  lemma StartSoundKept(
      p: Suite, matches: map<string, MatchRow>, matches': map<string, MatchRow>,
      log: seq<Entry>, log': seq<Entry>, j: nat)
    requires j < |log| && StartSound(p, matches, log, j) && log <= log' && ConfigsKept(matches, matches')
    ensures StartSound(p, matches', log', j)
  {
    if IsStart(log[j]) {
      var i, k, key, draw :| StartFrom(p, matches, log, j, i, k, key, draw);
      assert log'[..j] == log[..j];
      assert StartFrom(p, matches', log', j, i, k, key, draw);
    }
  }

  ghost predicate NewSound(p: Suite, matches: map<string, MatchRow>, log: seq<Entry>, log': seq<Entry>) {
    forall j: nat | |log| <= j < |log'| :: StartSound(p, matches, log', j)
  }

  /** A call works with the configuration stored for its match. */
  ghost predicate CallFaithful(matches: map<string, MatchRow>, call: Call) {
    match call
    case StartGot(m, _, row) => row.Some? ==> m in matches && matches[m].config == row.value.config
    case StopGot(m, row) => row.Some? ==> m in matches && matches[m].config == row.value.config
    case MarkStarting(m, _, config) => m in matches && matches[m].config == config
    case MarkedStarting(m, _, config) => m in matches && matches[m].config == config
    case Polling(m, _, config) => m in matches && matches[m].config == config
    case MarkRunning(m, _, config) => m in matches && matches[m].config == config
    case MarkedRunning(m, _, config) => m in matches && matches[m].config == config
    case Starting(m, _, config, k) => m in matches && matches[m].config == config && k < |config.nodes|
    case Stopping(m, config, k) => m in matches && matches[m].config == config && k < |config.nodes|
    case _ => true
  }

  lemma {:induction false} DispatchSafe(
      p: Suite, core: Core, matches: map<string, MatchRow>, m: string, t0: real, config: MatchConfig, k: nat, task: nat)
    requires Provenance(p, core) && m in matches && matches[m].config == config
    ensures var r := DispatchFrom(p, core, m, t0, config, k, task);
      && Keeps(core, r.core) && NewSound(p, matches, core.log, r.core.log)
      && (r.next.Await? ==> r.next.call.Starting? && CallFaithful(matches, r.next.call))
    decreases |config.nodes| - k
  {
    if k < |config.nodes| {
      var na := config.nodes[k];
      if na.nodeId !in core.sessions {
        DispatchSafe(p, core, matches, m, t0, config, k + 1, task);
      } else if m in core.matchKeys {
        assert Traced(p, core, na.nodeId);
        SentSafe(p, core, matches, m, t0, config, k);
      }
    }
  }

  lemma SentSafe(
      p: Suite, core: Core, matches: map<string, MatchRow>, m: string, t0: real, config: MatchConfig, k: nat)
    requires k < |config.nodes| && m in core.matchKeys && m in matches && matches[m].config == config
    requires Traced(p, core, config.nodes[k].nodeId) && config.nodes[k].nodeId in core.sessions
    ensures
      var na := config.nodes[k];
      na.nodeId in core.nodes &&
      var c := Send(core.(drawn := core.drawn + |na.schedule| + 1), na.nodeId, core.nodes[na.nodeId].identity,
                    StartMessage(p, core, m, t0, na));
      Keeps(core, c) && NewSound(p, matches, core.log, c.log)
  {
    var na := config.nodes[k];
    var e := Sent(na.nodeId, core.nodes[na.nodeId].identity, StartMessage(p, core, m, t0, na));
    SentSound(p, core, matches, m, t0, config, k);
    OneSent(p, core, core.(drawn := core.drawn + |na.schedule| + 1, log := core.log + [e]), matches, e);
  }

  lemma OneSent(p: Suite, c: Core, c': Core, matches: map<string, MatchRow>, e: Entry)
    requires c'.log == c.log + [e] && e.Sent? && c'.sessions == c.sessions && c'.nodes == c.nodes
    requires StartSound(p, matches, c'.log, |c.log|)
    ensures Keeps(c, c') && NewSound(p, matches, c.log, c'.log)
  {
    assert c'.log[|c.log|..] == [e];
  }

  lemma SentSound(
      p: Suite, core: Core, matches: map<string, MatchRow>, m: string, t0: real, config: MatchConfig, k: nat)
    requires k < |config.nodes| && m in core.matchKeys && m in matches && matches[m].config == config
    requires Traced(p, core, config.nodes[k].nodeId)
    requires config.nodes[k].nodeId in core.sessions && config.nodes[k].nodeId in core.nodes
    ensures
      var na := config.nodes[k];
      var log := core.log + [Sent(na.nodeId, core.nodes[na.nodeId].identity, StartMessage(p, core, m, t0, na))];
      StartSound(p, matches, log, |core.log|)
  {
    var na := config.nodes[k];
    var j := |core.log|;
    var log := core.log + [Sent(na.nodeId, core.nodes[na.nodeId].identity, StartMessage(p, core, m, t0, na))];
    assert log[..j] == core.log;
    var i := Latest(core.log, na.nodeId).value;
    assert StartFrom(p, matches, log, j, i, k, core.matchKeys[m], core.drawn);
  }

  /** Stretches that send no START leave nothing new to justify. */
  ghost predicate Silent(c: Core, c': Core) {
    Keeps(c, c') && forall e <- c'.log[|c.log|..] :: !IsStart(e)
  }

  lemma SilentSound(p: Suite, matches: map<string, MatchRow>, c: Core, c': Core)
    requires Silent(c, c')
    ensures NewSound(p, matches, c.log, c'.log)
  {
    forall j: nat | |c.log| <= j < |c'.log| ensures StartSound(p, matches, c'.log, j) {
      assert c'.log[j] == c'.log[|c.log|..][j - |c.log|];
    }
  }

  lemma {:induction false} StopSilent(core: Core, m: string, config: MatchConfig, k: nat)
    ensures var r := StopFrom(core, m, config, k);
      && Silent(core, r.core)
      && (r.next == Await(MarkFinished(m)) ||
          (r.next.Await? && r.next.call.Stopping? && r.next.call.matchId == m && r.next.call.config == config
           && r.next.call.k < |config.nodes|))
    decreases |config.nodes| - k
  {
    if k < |config.nodes| && config.nodes[k].nodeId !in core.nodes {
      StopSilent(core, m, config, k + 1);
    }
  }

  /** One stretch, whatever the call: provenance survives, every START it sends
      is sound, and the call it suspends in is faithful. */
  lemma RunSafe(
      p: Suite, core: Core, matches: map<string, MatchRow>, call: Call, now: real, mono: Mono, task: nat)
    requires Provenance(p, core) && CallFaithful(matches, call)
    ensures var r := Run(p, core, call, now, mono, task);
      r.Some? ==>
        && Keeps(core, r.value.core) && NewSound(p, matches, core.log, r.value.core.log)
        && (r.value.next.Await? ==> CallFaithful(matches, r.value.next.call))
  {
    match call
    case MarkedRunning(m, t0, config) => BeginDispatchSafe(p, core, matches, m, t0, config, task);
    case Starting(m, t0, config, k) =>
      AfterStartSentSafe(p, core, matches, m, t0, config, k, task);
    case StopGot(m, row) => AfterStopGetSafe(p, core, matches, m, row);
    case Stopping(m, config, k) => AfterStopSentSafe(p, core, matches, m, config, k);
    case _ =>
  }

  lemma AfterStartSentSafe(
      p: Suite, core: Core, matches: map<string, MatchRow>, m: string, t0: real, config: MatchConfig, k: nat, task: nat)
    requires Provenance(p, core) && m in matches && matches[m].config == config && k < |config.nodes|
    ensures var r := AfterStartSent(p, core, m, t0, config, k, task);
      && Keeps(core, r.core) && NewSound(p, matches, core.log, r.core.log)
      && (r.next.Await? ==> CallFaithful(matches, r.next.call))
  {
    var marked := core.(nodes := UpdateNode(core.nodes, config.nodes[k].nodeId, Running));
    ProvenanceKept(p, core, marked);
    DispatchSafe(p, marked, matches, m, t0, config, k + 1, task);
  }

  lemma AfterStopSentSafe(
      p: Suite, core: Core, matches: map<string, MatchRow>, m: string, config: MatchConfig, k: nat)
    requires m in matches && matches[m].config == config && k < |config.nodes|
    ensures var r := AfterStopSent(core, m, config, k);
      && Keeps(core, r.core) && NewSound(p, matches, core.log, r.core.log)
      && (r.next.Await? ==> CallFaithful(matches, r.next.call))
  {
    var marked := core.(nodes := UpdateNode(core.nodes, config.nodes[k].nodeId, Ready));
    StopSilent(marked, m, config, k + 1);
    SilentSound(p, matches, core, StopFrom(marked, m, config, k + 1).core);
  }

  lemma BeginDispatchSafe(
      p: Suite, core: Core, matches: map<string, MatchRow>, m: string, t0: real, config: MatchConfig, task: nat)
    requires Provenance(p, core) && m in matches && matches[m].config == config
    ensures var r := BeginDispatch(p, core, m, t0, config, task);
      && Keeps(core, r.core) && NewSound(p, matches, core.log, r.core.log)
      && (r.next.Await? ==> CallFaithful(matches, r.next.call))
  {
    if m !in core.matchKeys {
      var keyed := core.(matchKeys := core.matchKeys[m := p.urandom(core.drawn, 32)], drawn := core.drawn + 1);
      ProvenanceKept(p, core, keyed);
      DispatchSafe(p, keyed, matches, m, t0, config, 0, task);
    }
  }

  lemma AfterStopGetSafe(
      p: Suite, core: Core, matches: map<string, MatchRow>, m: string, row: Option<MatchRow>)
    requires row.Some? ==> m in matches && matches[m].config == row.value.config
    ensures var r := AfterStopGet(core, m, row);
      && Keeps(core, r.core) && NewSound(p, matches, core.log, r.core.log)
      && (r.next.Await? ==> CallFaithful(matches, r.next.call))
  {
    if row.Some? && row.value.state != FINISHED {
      var popped := core.(timers := core.timers - {m});
      StopSilent(popped, m, row.value.config, 0);
      SilentSound(p, matches, core, StopFrom(popped, m, row.value.config, 0).core);
    }
  }

  // ── whole runs ─────────────────────────────────────────────────────────────

  ghost predicate StartsSound(p: Suite, s: State) {
    forall j: nat | j < |s.core.log| :: StartSound(p, s.matches, s.core.log, j)
  }

  ghost predicate CallsFaithful(s: State) {
    forall id | id in s.calls :: CallFaithful(s.matches, s.calls[id])
  }

  ghost predicate Safe(p: Suite, s: State) {
    Provenance(p, s.core) && StartsSound(p, s) && CallsFaithful(s)
  }

  lemma StartsSoundKept(p: Suite, s: State, s': State)
    requires StartsSound(p, s) && s.core.log <= s'.core.log && ConfigsKept(s.matches, s'.matches)
    requires NewSound(p, s'.matches, s.core.log, s'.core.log)
    ensures StartsSound(p, s')
  {
    forall j: nat | j < |s'.core.log| ensures StartSound(p, s'.matches, s'.core.log, j) {
      if j < |s.core.log| { StartSoundKept(p, s.matches, s'.matches, s.core.log, s'.core.log, j); }
    }
  }

  /** Every call that is not one of the old ones is faithful. */
  lemma CallsFaithfulKept(s: State, s': State, id: nat)
    requires CallsFaithful(s) && ConfigsKept(s.matches, s'.matches)
    requires forall c | c in s'.calls && c != id :: (c in s.calls && s'.calls[c] == s.calls[c]) || s'.calls[c].Asleep?
    requires id in s'.calls ==> CallFaithful(s'.matches, s'.calls[id])
    ensures CallsFaithful(s')
  {
    forall c | c in s'.calls ensures CallFaithful(s'.matches, s'.calls[c]) {
      if c != id && c in s.calls { assert CallFaithful(s.matches, s.calls[c]); }
    }
  }

  lemma SilentStep(p: Suite, s: State, s': State, id: nat)
    requires Safe(p, s) && Silent(s.core, s'.core) && ConfigsKept(s.matches, s'.matches)
    requires forall c | c in s'.calls && c != id :: (c in s.calls && s'.calls[c] == s.calls[c]) || s'.calls[c].Asleep?
    requires id in s'.calls ==> CallFaithful(s'.matches, s'.calls[id])
    ensures Safe(p, s')
  {
    ProvenanceKept(p, s.core, s'.core);
    SilentSound(p, s'.matches, s.core, s'.core);
    StartsSoundKept(p, s, s');
    CallsFaithfulKept(s, s', id);
  }

  lemma ResumeSafe(p: Suite, s: State, id: nat, r: Stretch, task: nat)
    requires Safe(p, s) && id in s.calls && task !in s.calls
    requires Keeps(s.core, r.core) && NewSound(p, s.matches, s.core.log, r.core.log)
    requires r.next.Await? ==> CallFaithful(s.matches, r.next.call)
    ensures Safe(p, Settle(s, id, s.calls[id].matchId, r, task))
  {
    var mid := s.(core := r.core);
    assert Safe(p, mid) by {
      ProvenanceKept(p, s.core, r.core);
      StartsSoundKept(p, s, mid);
      CallsFaithfulKept(s, mid, id);
    }
    SettleSafe(p, s, id, r, task);
  }

  lemma SettleSafe(p: Suite, s: State, id: nat, r: Stretch, task: nat)
    requires Safe(p, s.(core := r.core)) && id in s.calls && task !in s.calls
    requires r.next.Await? ==> CallFaithful(s.matches, r.next.call)
    ensures Safe(p, Settle(s, id, s.calls[id].matchId, r, task))
  {
    SettlesSilently(s, id, s.calls[id].matchId, r, task);
    hide Safe, CallFaithful, Settle, Silent;
    SilentStep(p, s.(core := r.core), Settle(s, id, s.calls[id].matchId, r, task), id);
  }

  lemma SettlesSilently(s: State, id: nat, m: string, r: Stretch, task: nat)
    requires id in s.calls && task !in s.calls
    ensures var s' := Settle(s, id, m, r, task);
      && Silent(r.core, s'.core) && s'.matches == s.matches
      && (forall c | c in s'.calls && c != id ::
            (c in s.calls && s'.calls[c] == s.calls[c]) || s'.calls[c].Asleep?)
      && (id in s'.calls ==> r.next.Await? && s'.calls[id] == r.next.call)
  {
    if r.next.Done? { LoggedSilently(r.core, Ended(m, r.next.outcome)); }
  }

  lemma RegisterSafe(env: Env, s: State, identity: Bytes, req: RegisterRequest)
    requires Safe(env.p, s)
    ensures Safe(env.p, Apply(env, s, Register(identity, req)))
  {
    var s' := Apply(env, s, Register(identity, req));
    RegisterProvenance(env.p, env.tokens, s.core, identity, req);
    RegisterSendsNoStart(env.p, env.tokens, s.core, identity, req);
    forall j: nat | |s.core.log| <= j < |s'.core.log| ensures StartSound(env.p, s'.matches, s'.core.log, j) {
      assert s'.core.log[j] == s'.core.log[|s.core.log|..][j - |s.core.log|];
    }
    StartsSoundKept(env.p, s, s');
  }

  lemma RegisterSendsNoStart(
      p: Suite, tokens: map<string, string>, core: Core, identity: Bytes, req: RegisterRequest)
    ensures var c := HandleRegister(p, tokens, core, identity, req);
      core.log <= c.log && forall e <- c.log[|core.log|..] :: !IsStart(e)
  {
    hide Base64.Encode, Base64.Decode;
    var accepted := Accepted(req.nodeId, identity, req.ecdhPubkey, p.urandom(core.drawn, 32));
    EstablishEffect(p, core.(log := core.log + [accepted]), req.nodeId, req.ecdhPubkey);
  }

  lemma LoggedSilently(c: Core, e: Entry)
    requires !e.Accepted? && !IsStart(e)
    ensures Silent(c, c.(log := c.log + [e]))
  {
    assert (c.log + [e])[|c.log|..] == [e];
  }

  lemma DatabaseSafe(p: Suite, s: State, id: nat)
    requires Safe(p, s) && id in s.calls
    ensures Safe(p, Execute(s, id))
  {
    var s' := Execute(s, id);
    assert CallFaithful(s.matches, s.calls[id]);
    if s'.core != s.core { LoggedSilently(s.core, s'.core.log[|s.core.log|]); }
    SilentStep(p, s, s', id);
  }

  lemma AbortSafe(env: Env, s: State, id: nat)
    requires Safe(env.p, s)
    ensures Safe(env.p, Apply(env, s, Abort(id)))
  {
    if id in s.calls {
      LoggedSilently(s.core, Ended(s.calls[id].matchId, Cancelled));
    }
    SilentStep(env.p, s, Apply(env, s, Abort(id)), id);
  }

  lemma StepSafe(env: Env, s: State, e: Event)
    requires Safe(env.p, s)
    ensures Safe(env.p, Apply(env, s, e))
  {
    match e
    case Register(identity, req) => RegisterSafe(env, s, identity, req);
    case Resume(id, now, mono, task) =>
      if id in s.calls && task !in s.calls {
        assert CallFaithful(s.matches, s.calls[id]);
        RunSafe(env.p, s.core, s.matches, s.calls[id], now, mono, task);
        var r := Run(env.p, s.core, s.calls[id], now, mono, task);
        if r.Some? { ResumeSafe(env.p, s, id, r.value, task); }
      }
    case Database(id) => if id in s.calls { DatabaseSafe(env.p, s, id); }
    case Abort(id) => AbortSafe(env, s, id);
    case BeginStart(id, m, timeout) => CallAdded(env.p, s, id, StartGet(m, timeout));
    case BeginStop(id, m) => CallAdded(env.p, s, id, StopGet(m));
    case Wake(id) => if id in s.calls { CallAdded(env.p, s, id, StopGet(s.calls[id].matchId)); }
    case Create(m, config) => CreateSafe(env, s, m, config);
  }

  lemma CallAdded(p: Suite, s: State, id: nat, call: Call)
    requires Safe(p, s) && (call.StartGet? || call.StopGet?)
    ensures Safe(p, s.(calls := s.calls[id := call]))
  {
    SilentStep(p, s, s.(calls := s.calls[id := call]), id);
  }

  lemma CreateSafe(env: Env, s: State, m: string, config: MatchConfig)
    requires Safe(env.p, s)
    ensures Safe(env.p, Apply(env, s, Create(m, config)))
  {
    var s' := Apply(env, s, Create(m, config));
    LoggedSilently(s.core, Wrote(m, LOBBY, None));
    SilentStep(env.p, s, s', 0);
  }

  lemma {:induction false} RunsSafe(env: Env, es: seq<Event>)
    ensures Safe(env.p, RunAll(env, INIT, es))
  {
    if es != [] {
      RunsSafe(env, es[..|es| - 1]);
      StepSafe(env, RunAll(env, INIT, es[..|es| - 1]), es[|es| - 1]);
    }
  }

  // ── the results ────────────────────────────────────────────────────────────

  /** At every await point of every run: a node is known exactly if it had an
      accepted REGISTER; its identity is that of the latest one, and it has a
      session exactly if that one's key was usable, namely the key agreed with it. */
  lemma {:induction false} IdentityAndSessionAgree(env: Env, es: seq<Event>, n: string)
    ensures var c := RunAll(env, INIT, es).core;
      match Latest(c.log, n)
      case None => n !in c.nodes && n !in c.sessions
      case Some(i) =>
        && n in c.nodes && c.nodes[n].identity == c.log[i].peerIdentity
        && (n in c.sessions <==> WellFormedKey(env.p, c.log[i].pubkey))
        && (n in c.sessions ==> Some(c.sessions[n]) == AgreedKey(env.p, c.log[i].private, c.log[i].pubkey))
  {
    RunsSafe(env, es);
    assert Traced(env.p, RunAll(env, INIT, es).core, n);
  }

  /** Exactly the registered nodes have sessions if and only if the latest accepted
      REGISTER of each carried a usable key. */
  lemma {:induction false} SessionsComplete(env: Env, es: seq<Event>)
    ensures var c := RunAll(env, INIT, es).core;
      c.nodes.Keys == c.sessions.Keys
      <==> forall n | Latest(c.log, n).Some? :: WellFormedKey(env.p, c.log[Latest(c.log, n).value].pubkey)
  {
    var c := RunAll(env, INIT, es).core;
    forall n
      ensures n in c.nodes <==> Latest(c.log, n).Some?
      ensures n in c.sessions <==>
        Latest(c.log, n).Some? && WellFormedKey(env.p, c.log[Latest(c.log, n).value].pubkey)
    {
      IdentityAndSessionAgree(env, es, n);
    }
    if c.nodes.Keys == c.sessions.Keys {
      forall n | Latest(c.log, n).Some? ensures WellFormedKey(env.p, c.log[Latest(c.log, n).value].pubkey) {
        assert n in c.nodes.Keys;
      }
    } else {
      var n :| (n in c.nodes.Keys) != (n in c.sessions.Keys);
      assert Latest(c.log, n).Some?;
    }
  }

  /** In particular if every accepted REGISTER carries a usable key. */
  lemma {:induction false} RegisteredMeansSession(env: Env, es: seq<Event>)
    requires forall e <- RunAll(env, INIT, es).core.log :: e.Accepted? ==> WellFormedKey(env.p, e.pubkey)
    ensures var c := RunAll(env, INIT, es).core; c.nodes.Keys == c.sessions.Keys
  {
    var c := RunAll(env, INIT, es).core;
    SessionsComplete(env, es);
    forall n | Latest(c.log, n).Some? ensures WellFormedKey(env.p, c.log[Latest(c.log, n).value].pubkey) {
      assert c.log[Latest(c.log, n).value] in c.log;
    }
  }

  /** A node that reconnects twice during a match is told once that it was running:
      the first REGISTER leaves it CONNECTED, the second makes it READY. */
  lemma WasRunningEchoedOnce(
      p: Suite, tokens: map<string, string>, core: Core, id1: Bytes, req1: RegisterRequest, id2: Bytes,
      req2: RegisterRequest)
    requires Passes(tokens, req1) && Passes(tokens, req2) && req2.nodeId == req1.nodeId
    requires WellFormedKey(p, req1.ecdhPubkey) && WellFormedKey(p, req2.ecdhPubkey)
    requires req1.nodeId in core.nodes && core.nodes[req1.nodeId].state == Running
    ensures
      var n, c1 := req1.nodeId, HandleRegister(p, tokens, core, id1, req1);
      var c2 := HandleRegister(p, tokens, c1, id2, req2);
      && Answers(p, tokens, core, id1, req1, true, true)
      && c1.nodes[n] == NodeRecord(req1.hostname, req1.ip, Connected, id1)
      && Answers(p, tokens, c1, id2, req2, true, false)
      && c2.nodes[n] == NodeRecord(req2.hostname, req2.ip, Ready, id2)
  {
    Answered(p, tokens, core, id1, req1);
    Answered(p, tokens, HandleRegister(p, tokens, core, id1, req1), id2, req2);
  }

  /** The answer to a REGISTER is REGISTER_OK with these two flags. */
  ghost predicate Answers(
      p: Suite, tokens: map<string, string>, core: Core, identity: Bytes, req: RegisterRequest,
      reconnect: bool, wasRunning: bool)
  {
    var log := HandleRegister(p, tokens, core, identity, req).log;
    |log| == |core.log| + 2 && log[..|core.log|] == core.log &&
    var e := log[|core.log| + 1];
    e.Sent? && e.to == req.nodeId && e.identity == identity
    && e.msg.RegisterOk? && e.msg.reconnect == reconnect && e.msg.wasRunning == wasRunning
  }

  lemma Answered(p: Suite, tokens: map<string, string>, core: Core, identity: Bytes, req: RegisterRequest)
    requires Passes(tokens, req) && WellFormedKey(p, req.ecdhPubkey)
    ensures
      var n := req.nodeId;
      var wasRunning := n in core.nodes && core.nodes[n].state == Running;
      var c := HandleRegister(p, tokens, core, identity, req);
      && Answers(p, tokens, core, identity, req, n in core.nodes, wasRunning)
      && n in c.nodes
      && c.nodes[n] == NodeRecord(req.hostname, req.ip, if wasRunning then Connected else Ready, identity)
  {
    hide Base64.Encode, Base64.Decode;
    var registered := core.(
      nodes := core.nodes[req.nodeId := NodeRecord(req.hostname, req.ip, Connected, identity)],
      log := core.log + [Accepted(req.nodeId, identity, req.ecdhPubkey, p.urandom(core.drawn, 32))]);
    EstablishEffect(p, registered, req.nodeId, req.ecdhPubkey);
  }

  /** What a node makes of a START: with its own private key and the public key
      from REGISTER_OK it recovers every prompt of `na`, in order, delays kept. */
  ghost predicate Opens(p: Suite, private: Bytes, serverPubkey: string, msg: Message, na: Assignment)
    requires msg.Start?
  {
    var session := AgreedKey(p, private, serverPubkey);
    session.Some? &&
    var key := UnwrapKey(p, session.value, msg.encryptedMatchKey);
    key.Some? && AllOpen(p, key.value, msg.matchId, msg.schedule, na.schedule)
  }

  /** START `j`, which answers REGISTER `i` after its REGISTER_OK, opens as `na` for
      whoever holds the private key behind the registered public key. */
  ghost predicate OpensAs(p: Suite, log: seq<Entry>, j: nat, i: nat, na: Assignment) {
    && j < |log| && IsStart(log[j]) && i + 1 < j && Latest(log[..j], log[j].to) == Some(i)
    && IsAnnouncement(p, log[i], log[i + 1])
    && forall private | Base64.Encode(p.pub(private)) == log[i].pubkey ::
         Opens(p, private, log[i + 1].msg.serverPubkey, log[j].msg, na)
  }

  /** End to end: every START of every run went to the connection of its node's
      latest REGISTER, after that REGISTER's REGISTER_OK, carries an assignment of
      that node in its match, and opens for whoever holds the private key behind
      the registered public key. */
  lemma {:induction false} EveryStartOpens(env: Env, es: seq<Event>, j: nat) returns (i: nat, na: Assignment)
    requires Lawful(env.p)
    requires j < |RunAll(env, INIT, es).core.log| && IsStart(RunAll(env, INIT, es).core.log[j])
    ensures
      var s := RunAll(env, INIT, es);
      var log := s.core.log;
      && OpensAs(env.p, log, j, i, na) && log[i].peerIdentity == log[j].identity
      && log[j].msg.matchId in s.matches && na in s.matches[log[j].msg.matchId].config.nodes
      && na.nodeId == log[j].to && na.agentname == log[j].msg.agentname
  {
    RunsSafe(env, es);
    var s := RunAll(env, INIT, es);
    var log, msg := s.core.log, s.core.log[j].msg;
    assert StartSound(env.p, s.matches, log, j);
    var k: nat, key: Bytes, draw: nat;
    i, k, key, draw :| StartFrom(env.p, s.matches, log, j, i, k, key, draw);
    na := s.matches[msg.matchId].config.nodes[k];
    forall private | Base64.Encode(env.p.pub(private)) == log[i].pubkey
      ensures Opens(env.p, private, log[i + 1].msg.serverPubkey, msg, na)
    {
      StartOpens(env.p, s.matches, log, j, i, k, key, draw, private);
    }
  }

  lemma StartOpens(
      p: Suite, matches: map<string, MatchRow>, log: seq<Entry>,
      j: nat, i: nat, k: nat, key: Bytes, draw: nat, private: Bytes)
    requires Lawful(p) && j < |log| && IsStart(log[j]) && StartFrom(p, matches, log, j, i, k, key, draw)
    requires Base64.Encode(p.pub(private)) == log[i].pubkey
    ensures Opens(p, private, log[i + 1].msg.serverPubkey, log[j].msg, matches[log[j].msg.matchId].config.nodes[k])
  {
    assert log[i + 1].msg.serverPubkey == Base64.Encode(p.pub(log[i].private));
    var session := AgreedKey(p, log[i].private, log[i].pubkey).value;
    SealedOpens(
      p, log[i].private, private, session, log[j].msg, matches[log[j].msg.matchId].config.nodes[k], key, draw);
  }

  /** `server` and `node` are the private keys of the two ends. */
  lemma SealedOpens(
      p: Suite, server: Bytes, node: Bytes, session: Bytes, msg: Message, na: Assignment, key: Bytes, draw: nat)
    requires Lawful(p) && msg.Start? && AgreedKey(p, server, Base64.Encode(p.pub(node))) == Some(session)
    requires msg.encryptedMatchKey == WrapKey(p, session, key, draw + |na.schedule|)
    requires msg.schedule == SealSchedule(p, key, msg.matchId, na.schedule, draw)
    ensures Opens(p, node, Base64.Encode(p.pub(server)), msg, na)
  {
    hide Base64.Encode, Base64.Decode;
    assert AgreedKey(p, node, Base64.Encode(p.pub(server))) == Some(session)
      && UnwrapKey(p, session, msg.encryptedMatchKey) == Some(key)
    by {
      WrappedUnwraps(p, server, node, key, draw + |na.schedule|);
    }
    assert AllOpen(p, key, msg.matchId, msg.schedule, na.schedule) by {
      ScheduleOpens(p, key, msg.matchId, na.schedule, draw);
    }
  }
}
