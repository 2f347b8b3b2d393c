/** Randomness is used once: in every run every private key, match key and nonce
    has a random draw of its own. */
module Freshness {
  import opened Prelude
  import opened Sealing
  import opened ServerCore
  import opened Control
  import opened Safety
  import opened History
  import Base64

  /** The nonce of a sealed blob is draw `d` of twelve bytes. */
  ghost predicate NonceIs(p: Suite, blob: string, d: nat) {
    var raw := Base64.Decode(blob);
    raw.Some? && |raw.value| >= 12 && raw.value[..12] == p.urandom(d, 12)
  }

  /** A REGISTER whose key has the right length makes the server draw a private key. */
  ghost predicate DrawsPrivate(e: Entry) {
    e.Accepted? && var raw := Base64.Decode(e.pubkey); raw.Some? && |raw.value| == 32
  }

  /** How many draws went into an entry: a private key, or a nonce for each prompt
      and one for the match key. */
  ghost function Draws(e: Entry): nat {
    if IsStart(e) then |e.msg.schedule| + 1 else if DrawsPrivate(e) then 1 else 0
  }

  /** They are the draws from `d` on. */
  ghost predicate DrawnFrom(p: Suite, e: Entry, d: nat) {
    && (DrawsPrivate(e) ==> e.private == p.urandom(d, 32))
    && (IsStart(e) ==>
          && NonceIs(p, e.msg.encryptedMatchKey, d + |e.msg.schedule|)
          && forall i: nat | i < |e.msg.schedule| :: NonceIs(p, e.msg.schedule[i].encryptedPrompt, d + i))
  }

  /** Entry `j` of the log took its draws from `at[j]` on, after those of all before. */
  ghost predicate EntriesDrawn(p: Suite, c: Core, at: seq<nat>) {
    && |at| == |c.log|
    && (forall j: nat | j < |at| :: DrawnFrom(p, c.log[j], at[j]) && at[j] + Draws(c.log[j]) <= c.drawn)
    && (forall i: nat, j: nat | i < j < |at| :: at[i] + Draws(c.log[i]) <= at[j])
  }

  /** Draw `k` went into no entry. */
  ghost predicate Apart(log: seq<Entry>, at: seq<nat>, k: nat)
    requires |at| == |log|
  {
    forall j: nat | j < |at| :: k < at[j] || at[j] + Draws(log[j]) <= k
  }

  /** Every key held is draw `keyAt[m]`, which is that of no other key and of no entry. */
  ghost predicate KeysDrawn(p: Suite, c: Core, at: seq<nat>, keyAt: map<string, nat>)
    requires |at| == |c.log|
  {
    && (forall m | m in c.matchKeys ::
          && m in keyAt && keyAt[m] < c.drawn && c.matchKeys[m] == p.urandom(keyAt[m], 32)
          && Apart(c.log, at, keyAt[m]))
    && (forall m, other | m in c.matchKeys && other in c.matchKeys && m != other :: keyAt[m] != keyAt[other])
  }

  // ── one event ──────────────────────────────────────────────────────────────

  ghost predicate Plain(e: Entry) { !e.Accepted? && !IsStart(e) }

  /** Keys are those from before, or the one of `own` that was drawn next. */
  ghost predicate KeysGrow(p: Suite, c: Core, c': Core, d: nat, own: string) {
    forall m | m in c'.matchKeys ::
      || (m in c.matchKeys && c'.matchKeys[m] == c.matchKeys[m])
      || (m == own && c.drawn < d && c'.matchKeys[m] == p.urandom(c.drawn, 32))
  }

  /** Only the first new entry took draws, from `d` on. */
  ghost predicate Grows(p: Suite, c: Core, c': Core, d: nat, own: string) {
    && c.log <= c'.log && c.drawn <= d <= c'.drawn && KeysGrow(p, c, c', d, own)
    && (forall j: nat | |c.log| < j < |c'.log| :: Plain(c'.log[j]))
    && (|c.log| < |c'.log| ==>
          DrawnFrom(p, c'.log[|c.log|], d) && d + Draws(c'.log[|c.log|]) <= c'.drawn)
  }

  /** Where the new entries took their draws. */
  ghost function Extend(at: seq<nat>, c: Core, c': Core, d: nat): seq<nat>
    requires |at| == |c.log| <= |c'.log|
  {
    seq(|c'.log|, j requires 0 <= j < |c'.log| =>
      if j < |at| then at[j] else if j == |at| then d else c'.drawn)
  }

  lemma EntriesGrow(p: Suite, c: Core, c': Core, d: nat, own: string, at: seq<nat>)
    requires EntriesDrawn(p, c, at) && Grows(p, c, c', d, own)
    ensures EntriesDrawn(p, c', Extend(at, c, c', d))
  {
    hide DrawnFrom, KeysGrow;
    var at' := Extend(at, c, c', d);
    forall j: nat | j < |at'| ensures DrawnFrom(p, c'.log[j], at'[j]) && at'[j] + Draws(c'.log[j]) <= c'.drawn {
      if j < |at| {
        assert c'.log[j] == c.log[j];
        assert DrawnFrom(p, c.log[j], at[j]);
      } else if j > |at| {
        PlainDrawsNone(p, c'.log[j], at'[j]);
      }
    }
    forall i: nat, j: nat | i < j < |at'| ensures at'[i] + Draws(c'.log[i]) <= at'[j] {
      if i < |at| {
        assert c'.log[i] == c.log[i] && at[i] + Draws(c.log[i]) <= c.drawn;
      } else if i > |at| {
        PlainDrawsNone(p, c'.log[i], at'[i]);
      }
    }
  }

  lemma PlainDrawsNone(p: Suite, e: Entry, d: nat)
    requires Plain(e)
    ensures DrawnFrom(p, e, d) && Draws(e) == 0
  {}

  lemma ApartStays(p: Suite, c: Core, c': Core, d: nat, own: string, at: seq<nat>, k: nat)
    requires EntriesDrawn(p, c, at) && Grows(p, c, c', d, own)
    requires (k < c.drawn && Apart(c.log, at, k)) || k == c.drawn < d
    ensures Apart(c'.log, Extend(at, c, c', d), k)
  {
    hide DrawnFrom, KeysGrow;
    var at' := Extend(at, c, c', d);
    forall j: nat | j < |at'| ensures k < at'[j] || at'[j] + Draws(c'.log[j]) <= k {
      if j < |at| {
        assert c'.log[j] == c.log[j] && at[j] + Draws(c.log[j]) <= c.drawn;
      } else if j > |at| {
        PlainDrawsNone(p, c'.log[j], at'[j]);
      }
    }
  }

  lemma KeysFollow(p: Suite, c: Core, c': Core, d: nat, own: string, at: seq<nat>, keyAt: map<string, nat>)
    returns (keyAt': map<string, nat>)
    requires EntriesDrawn(p, c, at) && KeysDrawn(p, c, at, keyAt) && Grows(p, c, c', d, own)
    ensures KeysDrawn(p, c', Extend(at, c, c', d), keyAt')
  {
    var at' := Extend(at, c, c', d);
    var isNew := own in c'.matchKeys && !(own in c.matchKeys && c'.matchKeys[own] == c.matchKeys[own]);
    keyAt' := if isNew then keyAt[own := c.drawn] else keyAt;
    forall m | m in c'.matchKeys
      ensures m in keyAt' && keyAt'[m] < c'.drawn && c'.matchKeys[m] == p.urandom(keyAt'[m], 32)
      ensures Apart(c'.log, at', keyAt'[m])
    {
      ApartStays(p, c, c', d, own, at, keyAt'[m]);
    }
    hide EntriesDrawn, Apart, Extend;
  }

  // ── stretches ──────────────────────────────────────────────────────────────

  lemma SealedNonces(p: Suite, core: Core, m: string, t0: real, na: Assignment, identity: Bytes)
    requires Lawful(p) && m in core.matchKeys && na.nodeId in core.sessions
    ensures
      var e := Sent(na.nodeId, identity, StartMessage(p, core, m, t0, na));
      DrawnFrom(p, e, core.drawn) && Draws(e) == |na.schedule| + 1
  {
    hide Base64.Encode, Base64.Decode, WrapKey, SealPrompt;
    var session, key := core.sessions[na.nodeId], core.matchKeys[m];
    var msg := StartMessage(p, core, m, t0, na);
    WrappedNonce(p, session, key, core.drawn + |na.schedule|);
    forall i: nat | i < |msg.schedule| ensures NonceIs(p, msg.schedule[i].encryptedPrompt, core.drawn + i) {
      PromptNonce(p, key, m, na.schedule[i].prompt, core.drawn + i);
    }
  }

  lemma WrappedNonce(p: Suite, session: Bytes, key: Bytes, draw: nat)
    requires Lawful(p)
    ensures NonceIs(p, WrapKey(p, session, key, draw), draw)
  {
    OnTheWire(p, session, key, "", "", draw);
    hide Base64.Decode;
    var nonce := p.urandom(draw, 12);
    assert (nonce + p.seal(session, nonce, key, []))[..12] == nonce;
  }

  lemma PromptNonce(p: Suite, key: Bytes, m: string, prompt: string, draw: nat)
    requires Lawful(p)
    ensures NonceIs(p, SealPrompt(p, key, m, prompt, draw), draw)
  {
    OnTheWire(p, key, key, m, prompt, draw);
    hide Base64.Decode;
    var nonce := p.urandom(draw, 12);
    assert (nonce + p.seal(key, nonce, p.utf8(prompt), p.utf8(m)))[..12] == nonce;
  }

  lemma {:induction false} DispatchGrows(
      p: Suite, core: Core, m: string, t0: real, config: MatchConfig, k: nat, task: nat)
    returns (d: nat)
    requires Lawful(p)
    ensures
      var r := DispatchFrom(p, core, m, t0, config, k, task);
      Grows(p, core, r.core, d, m) && r.core.matchKeys == core.matchKeys
    decreases |config.nodes| - k
  {
    hide DrawnFrom;
    d := core.drawn;
    if k < |config.nodes| {
      var na := config.nodes[k];
      if na.nodeId !in core.sessions {
        d := DispatchGrows(p, core, m, t0, config, k + 1, task);
      } else if m in core.matchKeys {
        if na.nodeId in core.nodes {
          SealedNonces(p, core, m, t0, na, core.nodes[na.nodeId].identity);
        } else {
          d := DispatchGrows(p, core.(drawn := core.drawn + |na.schedule| + 1), m, t0, config, k + 1, task);
        }
      }
    }
  }

  lemma {:induction false} StopGrows(p: Suite, core: Core, m: string, config: MatchConfig, k: nat)
    ensures Grows(p, core, StopFrom(core, m, config, k).core, core.drawn, m)
    decreases |config.nodes| - k
  {
    if k < |config.nodes| { StopGrows(p, core, m, config, k + 1); }
  }

  /** `c` and `c'` differ at most in what takes no draw. */
  ghost predicate SameDraws(c: Core, c': Core) {
    c'.log == c.log && c'.drawn == c.drawn && c'.matchKeys == c.matchKeys
  }

  lemma GrowsFrom(p: Suite, c: Core, mid: Core, c': Core, d: nat, own: string)
    requires SameDraws(c, mid) && Grows(p, mid, c', d, own)
    ensures Grows(p, c, c', d, own)
  {}

  lemma RunGrows(p: Suite, core: Core, call: Call, now: real, mono: Mono, task: nat) returns (d: nat)
    requires Lawful(p)
    ensures var r := Run(p, core, call, now, mono, task);
      r.Some? ==> Grows(p, core, r.value.core, d, call.matchId)
  {
    hide DispatchFrom, StopFrom, DrawnFrom;
    d := core.drawn;
    match call
    case MarkedRunning(m, t0, config) =>
      if m !in core.matchKeys {
        var keyed := core.(matchKeys := core.matchKeys[m := p.urandom(core.drawn, 32)], drawn := core.drawn + 1);
        d := DispatchGrows(p, keyed, m, t0, config, 0, task);
      }
    case Starting(m, t0, config, k) =>
      if k < |config.nodes| {
        var marked := core.(nodes := UpdateNode(core.nodes, config.nodes[k].nodeId, Running));
        d := DispatchGrows(p, marked, m, t0, config, k + 1, task);
        GrowsFrom(p, core, marked, DispatchFrom(p, marked, m, t0, config, k + 1, task).core, d, m);
      }
    case StopGot(m, row) =>
      if row.Some? && row.value.state != FINISHED {
        var popped := core.(timers := core.timers - {m});
        StopGrows(p, popped, m, row.value.config, 0);
        GrowsFrom(p, core, popped, StopFrom(popped, m, row.value.config, 0).core, d, m);
      }
    case Stopping(m, config, k) =>
      if k < |config.nodes| {
        var marked := core.(nodes := UpdateNode(core.nodes, config.nodes[k].nodeId, Ready));
        StopGrows(p, marked, m, config, k + 1);
        GrowsFrom(p, core, marked, StopFrom(marked, m, config, k + 1).core, d, m);
      }
    case _ =>
  }

  lemma RegisterGrows(p: Suite, tokens: map<string, string>, core: Core, identity: Bytes, req: RegisterRequest)
    ensures Grows(p, core, HandleRegister(p, tokens, core, identity, req), core.drawn, "")
  {
    hide Base64.Encode, Base64.Decode;
    if Passes(tokens, req) {
      var c := HandleRegister(p, tokens, core, identity, req);
      var accepted := Accepted(req.nodeId, identity, req.ecdhPubkey, p.urandom(core.drawn, 32));
      var registered := core.(
        nodes := core.nodes[req.nodeId := NodeRecord(req.hostname, req.ip, Connected, identity)],
        log := core.log + [accepted]);
      EstablishDraws(p, registered, req.nodeId, req.ecdhPubkey, accepted);
      hide AgreedKey, WellFormedKey, EstablishSession;
      assert c.log[|core.log|] == accepted;
    }
  }

  lemma EstablishDraws(p: Suite, core: Core, n: string, pubkey: string, e: Entry)
    requires e.Accepted? && e.pubkey == pubkey
    ensures var c := EstablishSession(p, core, n, pubkey).0;
      c.drawn == core.drawn + Draws(e) && c.matchKeys == core.matchKeys && c.log == core.log
  {}

  /** Plain entries at the end take no draws. */
  lemma GrowsMore(p: Suite, c: Core, mid: Core, c': Core, d: nat, own: string)
    requires Grows(p, c, mid, d, own)
    requires mid.log <= c'.log && c'.drawn == mid.drawn && c'.matchKeys == mid.matchKeys
    requires forall j: nat | |mid.log| <= j < |c'.log| :: Plain(c'.log[j])
    ensures Grows(p, c, c', d, own)
  {
    if |c.log| == |mid.log| < |c'.log| { PlainDrawsNone(p, c'.log[|c.log|], d); }
  }

  lemma StepGrows(env: Env, s: State, e: Event) returns (d: nat, own: string)
    requires Lawful(env.p)
    ensures Grows(env.p, s.core, Apply(env, s, e).core, d, own)
  {
    NothingGrows(env.p, s.core);
    hide Apply, Grows;
    d, own := s.core.drawn, "";
    if e.Resume? {
      d, own := ResumeGrows(env, s, e);
    } else if e.Register? {
      AppliedRegister(env, s, e.identity, e.req);
      RegisterGrows(env.p, env.tokens, s.core, e.identity, e.req);
    } else {
      OtherDrawsNone(env, s, e);
      GrowsMore(env.p, s.core, s.core, Apply(env, s, e).core, d, own);
    }
  }

  lemma AppliedRegister(env: Env, s: State, identity: Bytes, req: RegisterRequest)
    ensures Apply(env, s, Register(identity, req)).core == HandleRegister(env.p, env.tokens, s.core, identity, req)
  {
    hide HandleRegister;
  }

  lemma OtherDrawsNone(env: Env, s: State, e: Event)
    requires !e.Resume? && !e.Register?
    ensures var c := Apply(env, s, e).core;
      && s.core.log <= c.log && c.drawn == s.core.drawn && c.matchKeys == s.core.matchKeys
      && forall j: nat | |s.core.log| <= j < |c.log| :: Plain(c.log[j])
  {
    hide Execute;
    if e.Database? && e.id in s.calls {
      ExecuteLog(s, e.id);
      ExecuteDrawsNone(s, e.id);
    }
  }

  lemma NothingGrows(p: Suite, c: Core)
    ensures Grows(p, c, c, c.drawn, "")
  {}

  lemma ExecuteDrawsNone(s: State, id: nat)
    requires id in s.calls
    ensures var c := Execute(s, id).core; c.drawn == s.core.drawn && c.matchKeys == s.core.matchKeys
  {}

  lemma ResumeGrows(env: Env, s: State, e: Event) returns (d: nat, own: string)
    requires Lawful(env.p) && e.Resume?
    ensures Grows(env.p, s.core, Apply(env, s, e).core, d, own)
  {
    d, own := s.core.drawn, "";
    NothingGrows(env.p, s.core);
    hide Run, Grows;
    if e.id in s.calls && e.task !in s.calls {
      var call := s.calls[e.id];
      var r := Run(env.p, s.core, call, e.now, e.mono, e.task);
      if r.Some? {
        d := RunGrows(env.p, s.core, call, e.now, e.mono, e.task);
        own := call.matchId;
        SettleLog(s, e.id, call.matchId, r.value, e.task);
        GrowsMore(env.p, s.core, r.value.core, Apply(env, s, e).core, d, own);
      }
    }
  }

  /** In every run: each private key the server drew, each nonce of a wrapped key or
      a prompt it sent, and each match key it holds is a draw of its own. */
  lemma {:induction false} DrawsUsedOnce(env: Env, es: seq<Event>) returns (at: seq<nat>, keyAt: map<string, nat>)
    requires Lawful(env.p)
    ensures var c := RunAll(env, INIT, es).core;
      EntriesDrawn(env.p, c, at) && KeysDrawn(env.p, c, at, keyAt)
  {
    at, keyAt := [], map[];
    if es != [] {
      var s := RunAll(env, INIT, es[..|es| - 1]);
      at, keyAt := DrawsUsedOnce(env, es[..|es| - 1]);
      var d, own := StepGrows(env, s, es[|es| - 1]);
      var c' := Apply(env, s, es[|es| - 1]).core;
      hide Grows, Apply;
      EntriesGrow(env.p, s.core, c', d, own, at);
      keyAt := KeysFollow(env.p, s.core, c', d, own, at, keyAt);
      at := Extend(at, s.core, c', d);
    }
  }
}
