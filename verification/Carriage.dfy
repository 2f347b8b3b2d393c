/** What each START carries, in serialised runs: the assignment whose turn it is,
    under the one key of its match. */
module Carriage {
  import opened Prelude
  import opened Sealing
  import opened ServerCore
  import opened Control
  import opened Safety
  import opened Lifecycle
  import opened History
  import opened Coverage
  import Base64

  /** START number `j` of the log carries assignment `k` of its match under `key`,
      for the connection of its node's latest REGISTER. */
  ghost predicate Carries(
      p: Suite, matches: map<string, MatchRow>, log: seq<Entry>, j: nat, k: nat, key: Bytes)
  {
    j < |log| && IsStart(log[j]) && exists i, draw :: StartFrom(p, matches, log, j, i, k, key, draw)
  }

  lemma CarriesKept(
      p: Suite, matches: map<string, MatchRow>, matches': map<string, MatchRow>,
      log: seq<Entry>, log': seq<Entry>, j: nat, k: nat, key: Bytes)
    requires Carries(p, matches, log, j, k, key) && log <= log' && ConfigsKept(matches, matches')
    ensures Carries(p, matches', log', j, k, key)
  {
    var i, draw :| StartFrom(p, matches, log, j, i, k, key, draw);
    assert log'[..j] == log[..j];
    assert StartFrom(p, matches', log', j, i, k, key, draw);
  }

  // ── where STARTs come from ─────────────────────────────────────────────────

  lemma {:induction false} DispatchCarries(
      p: Suite, core: Core, matches: map<string, MatchRow>, m: string, t0: real, config: MatchConfig, k: nat, task: nat)
    requires Provenance(p, core) && m in matches && matches[m].config == config
    ensures var r := DispatchFrom(p, core, m, t0, config, k, task);
      r.core.matchKeys == core.matchKeys &&
      if r.next.Await? then
        && r.next.call.Starting? && r.next.call.matchId == m && m in core.matchKeys
        && |r.core.log| == |core.log| + 1 && r.core.log[..|core.log|] == core.log
        && r.core.log[|core.log|].Sent? && r.core.log[|core.log|].msg.Start? && r.core.log[|core.log|].msg.matchId == m
        && Carries(p, matches, r.core.log, |core.log|, r.next.call.k, core.matchKeys[m])
      else r.core.log == core.log
    decreases |config.nodes| - k
  {
    if k < |config.nodes| {
      var na := config.nodes[k];
      if na.nodeId !in core.sessions {
        DispatchCarries(p, core, matches, m, t0, config, k + 1, task);
      } else if m in core.matchKeys {
        assert Traced(p, core, na.nodeId);
        SentCarries(p, core, matches, m, t0, config, k);
      }
    }
  }

  lemma SentCarries(
      p: Suite, core: Core, matches: map<string, MatchRow>, m: string, t0: real, config: MatchConfig, k: nat)
    requires k < |config.nodes| && m in core.matchKeys && m in matches && matches[m].config == config
    requires Traced(p, core, config.nodes[k].nodeId) && config.nodes[k].nodeId in core.sessions
    ensures
      var na := config.nodes[k];
      na.nodeId in core.nodes &&
      Carries(p, matches,
              core.log + [Sent(na.nodeId, core.nodes[na.nodeId].identity, StartMessage(p, core, m, t0, na))],
              |core.log|, k, core.matchKeys[m])
  {
    var na := config.nodes[k];
    var j := |core.log|;
    var log := core.log + [Sent(na.nodeId, core.nodes[na.nodeId].identity, StartMessage(p, core, m, t0, na))];
    assert log[..j] == core.log;
    var i := Latest(core.log, na.nodeId).value;
    assert StartFrom(p, matches, log, j, i, k, core.matchKeys[m], core.drawn);
  }

  /** What a resumed call `id` did if it sent a START, and what it leaves alone. */
  ghost predicate SendsOne(p: Suite, s: State, s': State, id: nat, m: string) {
    && id in s.calls && (s.calls[id].MarkedRunning? || s.calls[id].Starting?) && s.calls[id].matchId == m
    && |s'.core.log| == |s.core.log| + 1 && s'.core.log[..|s.core.log|] == s.core.log
    && Starts(s'.core.log[|s.core.log|], m)
    && id in s'.calls && s'.calls[id].Starting? && s'.calls[id].matchId == m && s'.matches == s.matches
    && m in s'.core.matchKeys
    && (s.calls[id].Starting? ==> m in s.core.matchKeys && s'.core.matchKeys[m] == s.core.matchKeys[m])
    && Carries(p, s.matches, s'.core.log, |s.core.log|, s'.calls[id].k, s'.core.matchKeys[m])
  }

  lemma DispatchSendsOne(
      p: Suite, s: State, id: nat, core: Core, t0: real, config: MatchConfig, k: nat, task: nat)
    requires Provenance(p, core) && id in s.calls && (s.calls[id].MarkedRunning? || s.calls[id].Starting?)
    requires core.log == s.core.log && task !in s.calls
    requires s.calls[id].Starting? ==> core.matchKeys == s.core.matchKeys
    requires var m := s.calls[id].matchId; m in s.matches && s.matches[m].config == config
    ensures var m := s.calls[id].matchId;
      var r := DispatchFrom(p, core, m, t0, config, k, task);
      var s' := Settle(s, id, m, r, task);
      s.core.log <= s'.core.log &&
      if r.next.Await? then SendsOne(p, s, s', id, m)
      else id !in s'.calls && forall e <- s'.core.log[|s.core.log|..] :: !IsStart(e)
  {
    var m := s.calls[id].matchId;
    DispatchCarries(p, core, s.matches, m, t0, config, k, task);
    DispatchCancelsNone(p, core, m, t0, config, k, task);
    SettleLog(s, id, m, DispatchFrom(p, core, m, t0, config, k, task), task);
  }

  /** Call `id` sent one START of its match and goes on dispatching, or sent none
      and does not. */
  ghost predicate SentOneOrNone(p: Suite, s: State, s': State, id: nat)
    requires id in s.calls
  {
    && s.core.log <= s'.core.log
    && (SendsOne(p, s, s', id, s.calls[id].matchId) ||
          ((forall e <- s'.core.log[|s.core.log|..] :: !IsStart(e)) && (id in s'.calls ==> !s'.calls[id].Starting?)))
  }

  lemma EnterSends(p: Suite, s: State, id: nat, task: nat)
    requires Safe(p, s) && id in s.calls && task !in s.calls && s.calls[id].MarkedRunning?
    ensures var m, t0, config := s.calls[id].matchId, s.calls[id].t0, s.calls[id].config;
      SentOneOrNone(p, s, Settle(s, id, m, BeginDispatch(p, s.core, m, t0, config, task), task), id)
  {
    var m, t0, config := s.calls[id].matchId, s.calls[id].t0, s.calls[id].config;
    assert CallFaithful(s.matches, s.calls[id]);
    if m !in s.core.matchKeys {
      var keyed := s.core.(
        matchKeys := s.core.matchKeys[m := p.urandom(s.core.drawn, 32)], drawn := s.core.drawn + 1);
      ProvenanceKept(p, s.core, keyed);
      DispatchSendsOne(p, s, id, keyed, t0, config, 0, task);
      assert BeginDispatch(p, s.core, m, t0, config, task) == DispatchFrom(p, keyed, m, t0, config, 0, task);
    } else {
      OtherSendsNone(s, id, m, Goes(s.core, Done(KeyExists)), task);
    }
  }

  lemma GoOnSends(p: Suite, s: State, id: nat, task: nat)
    requires Safe(p, s) && id in s.calls && task !in s.calls && s.calls[id].Starting?
    ensures var m, t0, config, k := s.calls[id].matchId, s.calls[id].t0, s.calls[id].config, s.calls[id].k;
      k < |config.nodes| &&
      SentOneOrNone(p, s, Settle(s, id, m, AfterStartSent(p, s.core, m, t0, config, k, task), task), id)
  {
    var m, t0, config, k := s.calls[id].matchId, s.calls[id].t0, s.calls[id].config, s.calls[id].k;
    assert CallFaithful(s.matches, s.calls[id]);
    var marked := s.core.(nodes := UpdateNode(s.core.nodes, config.nodes[k].nodeId, Running));
    ProvenanceKept(p, s.core, marked);
    DispatchSendsOne(p, s, id, marked, t0, config, k + 1, task);
    assert AfterStartSent(p, s.core, m, t0, config, k, task) == DispatchFrom(p, marked, m, t0, config, k + 1, task);
  }

  lemma OtherSends(p: Suite, s: State, id: nat, now: real, mono: Mono, task: nat)
    requires id in s.calls && task !in s.calls && !s.calls[id].MarkedRunning? && !s.calls[id].Starting?
    ensures var r := Run(p, s.core, s.calls[id], now, mono, task);
      r.Some? ==> SentOneOrNone(p, s, Settle(s, id, s.calls[id].matchId, r.value, task), id)
  {
    var r := Run(p, s.core, s.calls[id], now, mono, task);
    RunLog(p, s.core, s.calls[id], now, mono, task);
    RunGoesOn(p, s.core, s.calls[id], now, mono, task);
    if r.Some? { OtherSendsNone(s, id, s.calls[id].matchId, r.value, task); }
  }

  /** Only a dispatching call sends a START, one at a time, and if it goes on
      dispatching it has. */
  lemma ResumeStarts(env: Env, s: State, id: nat, now: real, mono: Mono, task: nat)
    requires Safe(env.p, s) && id in s.calls && task !in s.calls
    ensures var s' := Apply(env, s, Resume(id, now, mono, task));
      s' == s || SentOneOrNone(env.p, s, s', id)
  {
    if s.calls[id].MarkedRunning? {
      EnterSends(env.p, s, id, task);
    } else if s.calls[id].Starting? {
      GoOnSends(env.p, s, id, task);
    } else {
      OtherSends(env.p, s, id, now, mono, task);
    }
  }

  lemma OtherSendsNone(s: State, id: nat, m: string, r: Stretch, task: nat)
    requires id in s.calls && task !in s.calls && s.core.log <= r.core.log
    requires forall e <- r.core.log[|s.core.log|..] :: !IsStart(e)
    requires r.next.Await? ==> !r.next.call.Starting?
    ensures var s' := Settle(s, id, m, r, task);
      && s.core.log <= s'.core.log && (forall e <- s'.core.log[|s.core.log|..] :: !IsStart(e))
      && (id in s'.calls ==> !s'.calls[id].Starting?)
  {
    var s' := Settle(s, id, m, r, task);
    SettleLog(s, id, m, r, task);
    assert s'.core.log[|s.core.log|..] == r.core.log[|s.core.log|..] + s'.core.log[|r.core.log|..];
  }

  lemma OthersSendNone(env: Env, s: State, e: Event)
    requires !e.Resume?
    ensures var s' := Apply(env, s, e);
      s.core.log <= s'.core.log && forall x <- s'.core.log[|s.core.log|..] :: !IsStart(x)
  {
    hide HandleRegister, Execute, Run;
    match e
    case Register(identity, req) => RegisterLog(env.p, env.tokens, s.core, identity, req);
    case Database(id) => if id in s.calls { ExecuteLog(s, id); }
    case _ =>
  }

  // ── the order of STARTs ────────────────────────────────────────────────────

  /** The x-th START of a match carries assignment x: if every accepted REGISTER has a
      usable key, every START of the match in the log carries the assignment whose
      number is the count of those before it. */
  lemma {:induction false} StartsCarryInOrder(env: Env, es: seq<Event>, m: string, j: nat) returns (key: Bytes)
    requires SerialRun(env, es) && UsableKeys(env.p, RunAll(env, INIT, es).core.log)
    requires j < |RunAll(env, INIT, es).core.log| && Starts(RunAll(env, INIT, es).core.log[j], m)
    ensures var s := RunAll(env, INIT, es);
      Carries(env.p, s.matches, s.core.log, j, |Dispatches(s.core.log[..j], m)|, key)
  {
    var init, e := es[..|es| - 1], es[|es| - 1];
    var s, s' := RunAll(env, INIT, init), RunAll(env, INIT, es);
    LogGrows(env, s, e);
    if j < |s.core.log| {
      UsableBefore(env.p, s.core.log, s'.core.log);
      key := StartsCarryInOrder(env, init, m, j);
      assert s'.core.log[..j] == s.core.log[..j];
      ConfigsStay(env, s, e);
      CarriesKept(env.p, s.matches, s'.matches, s.core.log, s'.core.log, j, |Dispatches(s.core.log[..j], m)|, key);
    } else {
      RunsSafe(env, init);
      var id := SenderOf(env, s, e, m, j);
      RunsCovered(env, es, m);
      key := s'.core.matchKeys[m];
      RunsOrderly(env, es);
      SentInTurn(env.p, s, s', id, m);
    }
  }

  lemma UsableBefore(p: Suite, log: seq<Entry>, log': seq<Entry>)
    requires UsableKeys(p, log') && log <= log'
    ensures UsableKeys(p, log)
  {
    forall x | x in log ensures x in log' {
      var i :| 0 <= i < |log| && log[i] == x;
      assert log'[i] == x;
    }
  }

  lemma SenderOf(env: Env, s: State, e: Event, m: string, j: nat) returns (id: nat)
    requires Safe(env.p, s)
    requires var log := Apply(env, s, e).core.log; |s.core.log| <= j < |log| && Starts(log[j], m)
    ensures j == |s.core.log| && e.Resume? && e.id == id && SendsOne(env.p, s, Apply(env, s, e), id, m)
  {
    var log := Apply(env, s, e).core.log;
    assert log[j] == log[|s.core.log|..][j - |s.core.log|];
    if !e.Resume? { OthersSendNone(env, s, e); }
    id := e.id;
    if id in s.calls && e.task !in s.calls { ResumeStarts(env, s, id, e.now, e.mono, e.task); }
  }

  lemma SentInTurn(p: Suite, s: State, s': State, id: nat, m: string)
    requires SendsOne(p, s, s', id, m) && Covered(s', m) && AllOrderly(s')
    ensures s'.calls[id].k == |Dispatches(s'.core.log[..|s.core.log|], m)|
  {
    assert OnMatch(s', id, m) && Orderly(s', m) && Fits(s', s'.calls[id]);
    assert Dispatching(s', id, m);
    assert s'.core.log == s.core.log + [s'.core.log[|s.core.log|]];
    ReadOne(s.core.log, s'.core.log[|s.core.log|], m);
  }

  /** So the x-th START of a match opens as assignment x, for whoever holds the
      private key behind the REGISTER that it answers to. */
  lemma {:induction false} StartsOpenInOrder(env: Env, es: seq<Event>, m: string, j: nat) returns (i: nat)
    requires Lawful(env.p) && SerialRun(env, es) && UsableKeys(env.p, RunAll(env, INIT, es).core.log)
    requires j < |RunAll(env, INIT, es).core.log| && Starts(RunAll(env, INIT, es).core.log[j], m)
    ensures
      var s := RunAll(env, INIT, es);
      var log := s.core.log;
      var x := |Dispatches(log[..j], m)|;
      && m in s.matches && x < |s.matches[m].config.nodes|
      && s.matches[m].config.nodes[x].nodeId == log[j].to
      && OpensAs(env.p, log, j, i, s.matches[m].config.nodes[x])
  {
    var key := StartsCarryInOrder(env, es, m, j);
    var s := RunAll(env, INIT, es);
    i := CarriedOpens(env.p, s.matches, s.core.log, j, |Dispatches(s.core.log[..j], m)|, key);
  }

  lemma CarriedOpens(p: Suite, matches: map<string, MatchRow>, log: seq<Entry>, j: nat, x: nat, key: Bytes)
    returns (i: nat)
    requires Lawful(p) && Carries(p, matches, log, j, x, key)
    ensures
      var m := log[j].msg.matchId;
      && m in matches && x < |matches[m].config.nodes| && matches[m].config.nodes[x].nodeId == log[j].to
      && OpensAs(p, log, j, i, matches[m].config.nodes[x])
  {
    var draw: nat;
    i, draw :| StartFrom(p, matches, log, j, i, x, key, draw);
    forall private | Base64.Encode(p.pub(private)) == log[i].pubkey
      ensures Opens(p, private, log[i + 1].msg.serverPubkey, log[j].msg, matches[log[j].msg.matchId].config.nodes[x])
    {
      StartOpens(p, matches, log, j, i, x, key, draw, private);
    }
  }

  // ── one key per match ──────────────────────────────────────────────────────

  ghost predicate Wraps(p: Suite, matches: map<string, MatchRow>, log: seq<Entry>, j: nat, key: Bytes) {
    exists k :: Carries(p, matches, log, j, k, key)
  }

  /** No dispatch of the match has begun. */
  ghost predicate NotBegun(s: State, m: string) {
    m !in s.matches || s.matches[m].t0.None? || exists id :: OnMatch(s, id, m) && s.calls[id].MarkedRunning?
  }

  ghost predicate AllWrap(p: Suite, s: State, m: string, key: Bytes) {
    forall j: nat | j < |s.core.log| && Starts(s.core.log[j], m) :: Wraps(p, s.matches, s.core.log, j, key)
  }

  ghost predicate NoneStarted(log: seq<Entry>, m: string) {
    forall j: nat | j < |log| :: !Starts(log[j], m)
  }

  ghost predicate OneKey(p: Suite, s: State, m: string, key: Bytes) {
    && AllWrap(p, s, m, key)
    && (forall id | OnMatch(s, id, m) && s.calls[id].Starting? ::
          m in s.core.matchKeys && s.core.matchKeys[m] == key)
    && (NotBegun(s, m) ==> NoneStarted(s.core.log, m))
  }

  lemma AllWrapKept(p: Suite, s: State, s': State, m: string, key: Bytes)
    requires AllWrap(p, s, m, key) && s.core.log <= s'.core.log && ConfigsKept(s.matches, s'.matches)
    requires forall j: nat | |s.core.log| <= j < |s'.core.log| && Starts(s'.core.log[j], m) ::
      Wraps(p, s'.matches, s'.core.log, j, key)
    ensures AllWrap(p, s', m, key)
  {
    forall j: nat | j < |s'.core.log| && Starts(s'.core.log[j], m) ensures Wraps(p, s'.matches, s'.core.log, j, key) {
      if j < |s.core.log| {
        assert s'.core.log[j] == s.core.log[j];
        var k :| Carries(p, s.matches, s.core.log, j, k, key);
        CarriesKept(p, s.matches, s'.matches, s.core.log, s'.core.log, j, k, key);
      }
    }
  }

  lemma {:induction false} DispatchKeys(
      p: Suite, core: Core, m: string, t0: real, config: MatchConfig, k: nat, task: nat)
    ensures DispatchFrom(p, core, m, t0, config, k, task).core.matchKeys == core.matchKeys
    decreases |config.nodes| - k
  {
    if k < |config.nodes| {
      var na := config.nodes[k];
      DispatchKeys(p, core, m, t0, config, k + 1, task);
      DispatchKeys(p, core.(drawn := core.drawn + |na.schedule| + 1), m, t0, config, k + 1, task);
    }
  }

  /** A stretch touches no key but that of its match. */
  lemma RunKeys(p: Suite, core: Core, call: Call, now: real, mono: Mono, task: nat, m: string)
    requires call.matchId != m && m in core.matchKeys
    ensures var r := Run(p, core, call, now, mono, task);
      r.Some? ==> m in r.value.core.matchKeys && r.value.core.matchKeys[m] == core.matchKeys[m]
  {
    hide DispatchFrom, StopFrom;
    match call
    case MarkedRunning(own, t0, config) =>
      if own !in core.matchKeys {
        var keyed := core.(matchKeys := core.matchKeys[own := p.urandom(core.drawn, 32)], drawn := core.drawn + 1);
        DispatchKeys(p, keyed, own, t0, config, 0, task);
      }
    case Starting(own, t0, config, k) =>
      if k < |config.nodes| {
        var marked := core.(nodes := UpdateNode(core.nodes, config.nodes[k].nodeId, Running));
        DispatchKeys(p, marked, own, t0, config, k + 1, task);
      }
    case StopGot(own, row) =>
      if row.Some? { StopShape(core.(timers := core.timers - {own}), own, row.value.config, 0); }
    case Stopping(own, config, k) =>
      if k < |config.nodes| {
        StopShape(core.(nodes := UpdateNode(core.nodes, config.nodes[k].nodeId, Ready)), own, config, k + 1);
      }
    case _ =>
  }

  /** While a dispatch is under way, nothing but it touches its key. */
  lemma KeyStays(env: Env, s: State, e: Event, id: nat, m: string)
    requires AllOrderly(s) && OnMatch(s, id, m) && s.calls[id].Starting? && m in s.core.matchKeys
    requires !(e.Resume? && e.id == id)
    ensures var keys := Apply(env, s, e).core.matchKeys; m in keys && keys[m] == s.core.matchKeys[m]
  {
    match e
    case Resume(own, now, mono, task) =>
      if own in s.calls && task !in s.calls && !s.calls[own].Asleep? {
        assert Orderly(s, m);
        assert s.calls[own].matchId == m ==> OnMatch(s, own, m);
        RunKeys(env.p, s.core, s.calls[own], now, mono, task, m);
        var r := Run(env.p, s.core, s.calls[own], now, mono, task);
        if r.Some? { SettleEffect(s, own, s.calls[own].matchId, r.value, task); }
      }
    case Database(own) => if own in s.calls && Execute(s, own) != s { ExecuteEffect(s, own); }
    case _ =>
  }

  /** A call that dispatches has just sent a START, or did before. */
  lemma StartingBefore(env: Env, s: State, e: Event, id: nat, m: string)
    requires Safe(env.p, s) && OnMatch(Apply(env, s, e), id, m) && Apply(env, s, e).calls[id].Starting?
    requires !SendsOne(env.p, s, Apply(env, s, e), id, m)
    ensures OnMatch(s, id, m) && s.calls[id].Starting?
    ensures e.Resume? && e.id == id ==> Apply(env, s, e) == s
  {
    match e
    case Resume(own, now, mono, task) =>
      if own in s.calls && task !in s.calls {
        ResumeStarts(env, s, own, now, mono, task);
        if id != own { OthersStay(env, s, own, now, mono, task, id); }
      }
    case Database(own) => if own in s.calls { ExecuteStartsNone(s, own, id); }
    case _ =>
  }

  lemma ExecuteStartsNone(s: State, own: nat, id: nat)
    requires own in s.calls && id in Execute(s, own).calls && Execute(s, own).calls[id].Starting?
    ensures id in s.calls && s.calls[id] == Execute(s, own).calls[id]
  {}

  lemma OthersStay(env: Env, s: State, own: nat, now: real, mono: Mono, task: nat, id: nat)
    requires own in s.calls && task !in s.calls && id != own
    ensures var s' := Apply(env, s, Resume(own, now, mono, task));
      id in s'.calls && !s'.calls[id].Asleep? ==> id in s.calls && s.calls[id] == s'.calls[id]
  {}

  lemma NotBegunBefore(env: Env, s: State, e: Event, m: string)
    requires AllOrderly(s) && NotBegun(Apply(env, s, e), m)
    ensures NotBegun(s, m)
  {
    var s' := Apply(env, s, e);
    if id :| OnMatch(s', id, m) && s'.calls[id].MarkedRunning? {
      MarkedBefore(env, s, e, id, m);
    } else {
      ClocksGrow(env, s, e, m);
    }
  }

  lemma MarkedBefore(env: Env, s: State, e: Event, id: nat, m: string)
    requires AllOrderly(s) && OnMatch(Apply(env, s, e), id, m) && Apply(env, s, e).calls[id].MarkedRunning?
    ensures NotBegun(s, m)
  {
    match e
    case Resume(own, now, mono, task) =>
      if own in s.calls && task !in s.calls {
        if own == id {
          RunGoesOn(env.p, s.core, s.calls[own], now, mono, task);
        } else {
          OthersStay(env, s, own, now, mono, task, id);
        }
      }
      assert OnMatch(s, id, m) && s.calls[id].MarkedRunning?;
    case Database(own) =>
      if own in s.calls && own == id && s.calls[id].MarkRunning? {
        assert OnMatch(s, id, m) && Orderly(s, m) && Fits(s, s.calls[id]);
      } else {
        assert OnMatch(s, id, m) && s.calls[id].MarkedRunning?;
      }
    case _ => assert OnMatch(s, id, m) && s.calls[id].MarkedRunning?;
  }

  lemma ClocksGrow(env: Env, s: State, e: Event, m: string)
    ensures var s' := Apply(env, s, e);
      m !in s'.matches || s'.matches[m].t0.None? ==> m !in s.matches || s.matches[m].t0.None?
  {
    if !e.Database? && !e.Create? { WritesNothing(env, s, e); }
  }

  lemma StepOneKey(env: Env, s: State, e: Event, m: string, key: Bytes) returns (key': Bytes)
    requires AllOrderly(s) && AllOrderly(Apply(env, s, e)) && Safe(env.p, s) && OneKey(env.p, s, m, key)
    ensures OneKey(env.p, Apply(env, s, e), m, key')
  {
    var s' := Apply(env, s, e);
    LogGrows(env, s, e);
    ConfigsStay(env, s, e);
    if e.Resume? && SendsOne(env.p, s, s', e.id, m) {
      key' := SendKeepsOneKey(env.p, s, s', e.id, m, key);
    } else {
      key' := key;
      forall j: nat | |s.core.log| <= j < |s'.core.log| ensures !Starts(s'.core.log[j], m) {
        if Starts(s'.core.log[j], m) { var id := SenderOf(env, s, e, m, j); }
      }
      AllWrapKept(env.p, s, s', m, key);
      forall id | OnMatch(s', id, m) && s'.calls[id].Starting?
        ensures m in s'.core.matchKeys && s'.core.matchKeys[m] == key
      {
        DispatchGoesOn(env, s, e, id, m, key);
      }
      if NotBegun(s', m) { NotBegunBefore(env, s, e, m); }
    }
  }

  lemma DispatchGoesOn(env: Env, s: State, e: Event, id: nat, m: string, key: Bytes)
    requires AllOrderly(s) && Safe(env.p, s) && OneKey(env.p, s, m, key)
    requires OnMatch(Apply(env, s, e), id, m) && Apply(env, s, e).calls[id].Starting?
    requires !(e.Resume? && SendsOne(env.p, s, Apply(env, s, e), e.id, m))
    ensures var keys := Apply(env, s, e).core.matchKeys; m in keys && keys[m] == key
  {
    if SendsOne(env.p, s, Apply(env, s, e), id, m) { SendsOnlyResumed(env, s, e, id, m); }
    StartingBefore(env, s, e, id, m);
    if !(e.Resume? && e.id == id) { KeyStays(env, s, e, id, m); }
  }

  /** Who sends a START is the call that was resumed. */
  lemma SendsOnlyResumed(env: Env, s: State, e: Event, id: nat, m: string)
    requires AllOrderly(s) && Safe(env.p, s) && SendsOne(env.p, s, Apply(env, s, e), id, m)
    ensures e.Resume? && e.id == id
  {
    var sender := SenderOf(env, s, e, m, |s.core.log|);
    assert OnMatch(s, id, m) && OnMatch(s, sender, m) && Orderly(s, m);
  }

  lemma SendKeepsOneKey(p: Suite, s: State, s': State, id: nat, m: string, key: Bytes) returns (key': Bytes)
    requires AllOrderly(s) && AllOrderly(s') && OneKey(p, s, m, key) && SendsOne(p, s, s', id, m)
    ensures OneKey(p, s', m, key')
  {
    key' := s'.core.matchKeys[m];
    assert OnMatch(s, id, m);
    if s.calls[id].MarkedRunning? { assert NotBegun(s, m); }
    assert AllWrap(p, s, m, key');
    assert Wraps(p, s'.matches, s'.core.log, |s.core.log|, key');
    AllWrapKept(p, s, s', m, key');
    SoleDispatch(s', id, m);
  }

  lemma SoleDispatch(s: State, id: nat, m: string)
    requires AllOrderly(s) && id in s.calls && s.calls[id].Starting? && s.calls[id].matchId == m
    ensures !NotBegun(s, m) && forall c | OnMatch(s, c, m) :: c == id
  {
    assert OnMatch(s, id, m) && Orderly(s, m) && Fits(s, s.calls[id]);
  }

  lemma {:induction false} RunsOneKey(env: Env, es: seq<Event>, m: string) returns (key: Bytes)
    requires SerialRun(env, es)
    ensures OneKey(env.p, RunAll(env, INIT, es), m, key)
  {
    key := [];
    if es != [] {
      var init := es[..|es| - 1];
      key := RunsOneKey(env, init, m);
      RunsSafe(env, init);
      RunsOrderly(env, init);
      RunsOrderly(env, es);
      key := StepOneKey(env, RunAll(env, INIT, init), es[|es| - 1], m, key);
    }
  }

  /** In serialised runs all STARTs of a match wrap one and the same key: whoever
      holds the private key behind the REGISTER that a START answers to unwraps it. */
  lemma {:induction false} OneKeyPerMatch(env: Env, es: seq<Event>, m: string) returns (key: Bytes)
    requires Lawful(env.p) && SerialRun(env, es)
    ensures AllUnwrap(env.p, RunAll(env, INIT, es).core.log, m, key)
  {
    key := RunsOneKey(env, es, m);
    var s := RunAll(env, INIT, es);
    forall j: nat | j < |s.core.log| && Starts(s.core.log[j], m) ensures Unwraps(env.p, s.core.log, j, key) {
      assert Wraps(env.p, s.matches, s.core.log, j, key);
      var k :| Carries(env.p, s.matches, s.core.log, j, k, key);
      CarriedUnwraps(env.p, s.matches, s.core.log, j, k, key);
    }
  }

  /** Every START of the match unwraps to `key`. */
  ghost predicate AllUnwrap(p: Suite, log: seq<Entry>, m: string, key: Bytes) {
    forall j: nat | j < |log| && Starts(log[j], m) :: Unwraps(p, log, j, key)
  }

  ghost predicate Unwraps(p: Suite, log: seq<Entry>, j: nat, key: Bytes)
    requires j < |log| && IsStart(log[j])
  {
    match Latest(log[..j], log[j].to)
    case None => false
    case Some(i) =>
      && i + 1 < j && IsAnnouncement(p, log[i], log[i + 1])
      && forall private | Base64.Encode(p.pub(private)) == log[i].pubkey ::
           var session := AgreedKey(p, private, log[i + 1].msg.serverPubkey);
           session.Some? && UnwrapKey(p, session.value, log[j].msg.encryptedMatchKey) == Some(key)
  }

  lemma CarriedUnwraps(p: Suite, matches: map<string, MatchRow>, log: seq<Entry>, j: nat, k: nat, key: Bytes)
    requires Lawful(p) && Carries(p, matches, log, j, k, key)
    ensures Unwraps(p, log, j, key)
  {
    hide Base64.Encode, Base64.Decode;
    var i: nat, draw: nat :| StartFrom(p, matches, log, j, i, k, key, draw);
    forall private | Base64.Encode(p.pub(private)) == log[i].pubkey
      ensures var session := AgreedKey(p, private, log[i + 1].msg.serverPubkey);
        session.Some? && UnwrapKey(p, session.value, log[j].msg.encryptedMatchKey) == Some(key)
    {
      WrappedUnwraps(p, log[i].private, private, key, draw + |matches[log[j].msg.matchId].config.nodes[k].schedule|);
    }
  }
}
