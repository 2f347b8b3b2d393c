/** From the match configuration on the server to the prompts fired on a node. */
module EndToEnd {
  import opened Prelude
  import opened Sealing
  import opened ServerCore
  import opened Control
  import opened Safety
  import opened Lifecycle
  import opened History
  import opened Coverage
  import opened Carriage
  import opened NodeAgent
  import opened NodeRuns
  import Base64

  /** A schedule keeps its START, arrival time and key for ever. */
  lemma {:induction false} SchedulesStay(p: Suite, private: Bytes, ns: seq<NodeEvent>, a: nat, k: nat)
    requires a <= |ns| && k < |HandleAll(p, private, ns[..a]).schedules|
    ensures
      var s, n := HandleAll(p, private, ns[..a]).schedules[k], HandleAll(p, private, ns);
      k < |n.schedules| && n.schedules[k].start == s.start
      && n.schedules[k].arrived == s.arrived && n.schedules[k].key == s.key
  {
    if a < |ns| {
      var init := ns[..|ns| - 1];
      assert init[..a] == ns[..a];
      SchedulesStay(p, private, init, a, k);
      HandleKeeps(p, HandleAll(p, private, init), ns[|ns| - 1], k);
    } else {
      assert ns[..a] == ns;
    }
  }

  lemma HandleKeeps(p: Suite, n: Node, e: NodeEvent, k: nat)
    requires k < |n.schedules|
    ensures var n' := Handle(p, n, e);
      k < |n'.schedules| && n'.schedules[k].start == n.schedules[k].start
      && n'.schedules[k].arrived == n.schedules[k].arrived && n'.schedules[k].key == n.schedules[k].key
  {}

  /** A START that opens becomes a schedule whose prompts are the assignment's. */
  lemma StartScheduled(p: Suite, n: Node, serverPubkey: string, msg: Message, na: Assignment, now: real)
    requires msg.Start? && Opens(p, n.private, serverPubkey, msg, na)
    requires n.keys.session == AgreedKey(p, n.private, serverPubkey)
    ensures
      var n', k := Handle(p, n, OnStart(msg, now)), |n.schedules|;
      && |n'.schedules| == k + 1 && n'.schedules[k].start == msg && n'.schedules[k].arrived == now
      && forall i | 0 <= i < |na.schedule| ::
           Decryption(p, n'.schedules[k], i) == Opening(na.schedule[i].prompt)
           && msg.schedule[i].delay == na.schedule[i].delay
  {}

  lemma {:induction false} PrivateStays(p: Suite, private: Bytes, ns: seq<NodeEvent>)
    ensures HandleAll(p, private, ns).private == private
  {
    if ns != [] { PrivateStays(p, private, ns[..|ns| - 1]); }
  }

  /** All schedules of a match carry one key. */
  ghost predicate OneKeyOf(n: Node, m: string) {
    forall k, k' | 0 <= k < |n.schedules| && 0 <= k' < |n.schedules|
      && IsOf(n.schedules[k], m) && IsOf(n.schedules[k'], m) :: n.schedules[k].key == n.schedules[k'].key
  }

  /** The node's part: if a START opens for it as assignment `na`, whatever the
      schedule of that START fires is the prompt of `na` with the same index, not
      before the start time plus its delay.  If all schedules of the match carry one
      key, it can only fail for want of that key, if the match was stopped; if no
      START met an active schedule of its match, it cannot fail. */
  lemma {:induction false} FiresWhatOpens(
      p: Suite, private: Bytes, ns: seq<NodeEvent>, a: nat, serverPubkey: string, msg: Message, na: Assignment,
      now: real, f: Firing)
    requires a < |ns| && ns[a] == OnStart(msg, now) && msg.Start? && Opens(p, private, serverPubkey, msg, na)
    requires HandleAll(p, private, ns[..a]).keys.session == AgreedKey(p, private, serverPubkey)
    requires f in HandleAll(p, private, ns).fired && f.schedule == |HandleAll(p, private, ns[..a]).schedules|
    ensures f.task < |na.schedule| && f.at >= FireTime(now, msg.t0, na.schedule[f.task].delay)
    ensures OneKeyOf(HandleAll(p, private, ns), msg.matchId) ==>
      f.result == Opening(na.schedule[f.task].prompt) || f.result == Failed(MissingKey)
    ensures ApartRun(p, private, ns) ==> f.result == Opening(na.schedule[f.task].prompt)
  {
    PrivateStays(p, private, ns[..a]);
    StartScheduled(p, HandleAll(p, private, ns[..a]), serverPubkey, msg, na, now);
    assert ns[..a + 1][..a] == ns[..a];
    SchedulesStay(p, private, ns, a + 1, f.schedule);
    RunsKeyed(p, private, ns);
    var n := HandleAll(p, private, ns);
    assert KeyedOrMissing(p, n, f) && OnTime(n, f);
    if OneKeyOf(n, msg.matchId) { OneKeyOpens(p, n, f); }
    if ApartRun(p, private, ns) {
      RunsInOrder(p, private, ns);
      assert f.result == Decryption(p, n.schedules[f.schedule], f.task);
    }
  }

  lemma OneKeyOpens(p: Suite, n: Node, f: Firing)
    requires KeyedOrMissing(p, n, f) && OneKeyOf(n, n.schedules[f.schedule].start.matchId)
    ensures f.result == Failed(MissingKey) || f.result == Decryption(p, n.schedules[f.schedule], f.task)
  {
    if f.result != Failed(MissingKey) {
      var owner :| Keyed(p, n, f, owner);
      assert IsOf(n.schedules[f.schedule], n.schedules[f.schedule].start.matchId);
    }
  }

  /** Event `b` of the node is START `j` of the server, handled with the private key
      behind the REGISTER it answers to and the session of its REGISTER_OK. */
  ghost predicate Delivers(p: Suite, log: seq<Entry>, private: Bytes, ns: seq<NodeEvent>, b: nat, j: nat) {
    && b < |ns| && j < |log| && IsStart(log[j]) && ns[b].OnStart? && ns[b].msg == log[j].msg
    && var i := Latest(log[..j], log[j].to);
    && i.Some? && log[i.value].pubkey == Base64.Encode(p.pub(private))
    && i.value + 1 < j && IsAnnouncement(p, log[i.value], log[i.value + 1])
    && HandleAll(p, private, ns[..b]).keys.session == AgreedKey(p, private, log[i.value + 1].msg.serverPubkey)
  }

  /** So is every START of the match that the node handles. */
  ghost predicate AllDelivered(p: Suite, log: seq<Entry>, private: Bytes, ns: seq<NodeEvent>, m: string) {
    forall b: nat | b < |ns| && ns[b].OnStart? && ns[b].msg.Start? && ns[b].msg.matchId == m ::
      exists j :: Delivers(p, log, private, ns, b, j)
  }

  /** Then all of them leave one key on the node, though the match may list it more
      than once. */
  lemma {:induction false} DeliveredUnderOneKey(
      env: Env, es: seq<Event>, private: Bytes, ns: seq<NodeEvent>, m: string)
    requires Lawful(env.p) && SerialRun(env, es)
    requires AllDelivered(env.p, RunAll(env, INIT, es).core.log, private, ns, m)
    ensures OneKeyOf(HandleAll(env.p, private, ns), m)
  {
    var key := OneKeyPerMatch(env, es, m);
    AllUnderKey(env.p, RunAll(env, INIT, es).core.log, private, ns, m, key);
  }

  lemma {:induction false} AllUnderKey(
      p: Suite, log: seq<Entry>, private: Bytes, ns: seq<NodeEvent>, m: string, key: Bytes)
    requires AllDelivered(p, log, private, ns, m)
    requires AllUnwrap(p, log, m, key)
    ensures OneKeyOf(HandleAll(p, private, ns), m)
  {
    var n := HandleAll(p, private, ns);
    forall k: nat | k < |n.schedules| && IsOf(n.schedules[k], m) ensures n.schedules[k].key == key {
      var b := ScheduleFrom(p, private, ns, k);
      var j: nat :| Delivers(p, log, private, ns, b, j);
      assert Starts(log[j], m);
      UnderKey(p, log, private, ns, b, j, HandleAll(p, private, ns[..b]), n.schedules[k], key);
    }
  }

  lemma UnderKey(
      p: Suite, log: seq<Entry>, private: Bytes, ns: seq<NodeEvent>, b: nat, j: nat, before: Node, s: Schedule,
      key: Bytes)
    requires Delivers(p, log, private, ns, b, j) && Unwraps(p, log, j, key)
    requires before == HandleAll(p, private, ns[..b]) && KeyFrom(p, before, s) && s.start == ns[b].msg
    ensures s.key == key
  {}

  /** For every START of every server run and every node run in which the node
      that sent the REGISTER behind it handles it, holding the session key of its
      REGISTER_OK: whatever that schedule fires is the prompt of one and the same
      assignment of that node, in its place and not before its time; in serialised
      runs with usable keys, of the assignment whose turn it is.  It fails for want of
      the key at most, and not at all if no START met an active schedule of its match. */
  lemma {:induction false} FiredPromptsAreAssigned(
      env: Env, es: seq<Event>, s: State, j: nat, private: Bytes, ns: seq<NodeEvent>, a: nat, now: real, f: Firing)
    returns (i: nat, na: Assignment)
    requires Lawful(env.p) && s == RunAll(env, INIT, es) && j < |s.core.log| && IsStart(s.core.log[j])
    requires a < |ns| && ns[a] == OnStart(s.core.log[j].msg, now)
    requires f in HandleAll(env.p, private, ns).fired
    requires f.schedule == |HandleAll(env.p, private, ns[..a]).schedules|
    ensures
      var log, m := s.core.log, s.core.log[j].msg.matchId;
      && i + 1 < j && Latest(log[..j], log[j].to) == Some(i) && IsAnnouncement(env.p, log[i], log[i + 1])
      && m in s.matches && na in s.matches[m].config.nodes && na.nodeId == log[j].to
      && (SerialRun(env, es) && UsableKeys(env.p, log) ==>
            var x := |Dispatches(log[..j], m)|;
            x < |s.matches[m].config.nodes| && na == s.matches[m].config.nodes[x])
      && (Delivers(env.p, log, private, ns, a, j) ==>
            && f.task < |na.schedule| && f.at >= FireTime(now, log[j].msg.t0, na.schedule[f.task].delay)
            && (ApartRun(env.p, private, ns) ==> f.result == Opening(na.schedule[f.task].prompt))
            && (SerialRun(env, es) && AllDelivered(env.p, log, private, ns, m) ==>
                  f.result == Opening(na.schedule[f.task].prompt) || f.result == Failed(MissingKey)))
  {
    i, na := AssignedTo(env, es, s, j);
    if Delivers(env.p, s.core.log, private, ns, a, j) {
      if SerialRun(env, es) && AllDelivered(env.p, s.core.log, private, ns, s.core.log[j].msg.matchId) {
        DeliveredUnderOneKey(env, es, private, ns, s.core.log[j].msg.matchId);
      }
      DeliveredFires(env.p, s.core.log, j, i, private, ns, a, na, now, f);
    }
  }

  /** The assignment that a START carries: in serialised runs with usable keys the
      one whose turn it is. */
  lemma {:induction false} AssignedTo(env: Env, es: seq<Event>, s: State, j: nat) returns (i: nat, na: Assignment)
    requires Lawful(env.p) && s == RunAll(env, INIT, es) && j < |s.core.log| && IsStart(s.core.log[j])
    ensures OpensAs(env.p, s.core.log, j, i, na)
    ensures
      var m := s.core.log[j].msg.matchId;
      var x := |Dispatches(s.core.log[..j], m)|;
      && m in s.matches && na in s.matches[m].config.nodes && na.nodeId == s.core.log[j].to
      && (SerialRun(env, es) && UsableKeys(env.p, s.core.log) ==>
            x < |s.matches[m].config.nodes| && na == s.matches[m].config.nodes[x])
  {
    var m := s.core.log[j].msg.matchId;
    if SerialRun(env, es) && UsableKeys(env.p, s.core.log) {
      i := StartsOpenInOrder(env, es, m, j);
      na := s.matches[m].config.nodes[|Dispatches(s.core.log[..j], m)|];
    } else {
      i, na := EveryStartOpens(env, es, j);
    }
  }

  lemma {:induction false} DeliveredFires(
      p: Suite, log: seq<Entry>, j: nat, i: nat, private: Bytes, ns: seq<NodeEvent>, a: nat, na: Assignment,
      now: real, f: Firing)
    requires Delivers(p, log, private, ns, a, j) && OpensAs(p, log, j, i, na)
    requires ns[a] == OnStart(log[j].msg, now)
    requires f in HandleAll(p, private, ns).fired && f.schedule == |HandleAll(p, private, ns[..a]).schedules|
    ensures f.task < |na.schedule| && f.at >= FireTime(now, log[j].msg.t0, na.schedule[f.task].delay)
    ensures OneKeyOf(HandleAll(p, private, ns), log[j].msg.matchId) ==>
      f.result == Opening(na.schedule[f.task].prompt) || f.result == Failed(MissingKey)
    ensures ApartRun(p, private, ns) ==> f.result == Opening(na.schedule[f.task].prompt)
  {
    FiresWhatOpens(p, private, ns, a, log[i + 1].msg.serverPubkey, log[j].msg, na, now, f);
  }
}
