/** What holds of the prompts and keys of a node over its runs. */
module NodeRuns {
  import opened Prelude
  import opened Sealing
  import opened ServerCore
  import opened NodeAgent

  // ── every run ──────────────────────────────────────────────────────────────

  predicate IsOf(s: Schedule, m: string) { s.start.Start? && s.start.matchId == m }

  /** The latest schedule of a match. */
  ghost function LatestOf(schedules: seq<Schedule>, m: string): (k: Option<nat>)
    ensures k.Some? ==>
      && k.value < |schedules| && IsOf(schedules[k.value], m)
      && forall later | k.value < later < |schedules| :: !IsOf(schedules[later], m)
    ensures k.None? ==> forall any | 0 <= any < |schedules| :: !IsOf(schedules[any], m)
  {
    if schedules == [] then None
    else if IsOf(schedules[|schedules| - 1], m) then Some(|schedules| - 1)
    else LatestOf(schedules[..|schedules| - 1], m)
  }

  ghost predicate HasFired(n: Node, k: nat, i: nat) {
    exists f <- n.fired :: f.schedule == k && f.task == i
  }

  /** What the key that came with the START makes of prompt `i`. */
  function Decryption(p: Suite, s: Schedule, i: nat): Status
    requires s.start.Start? && i < |s.start.schedule|
  {
    match OpenPrompt(p, s.key, s.start.matchId, s.start.schedule[i].encryptedPrompt)
    case None => Failed(Undecryptable)
    case Some(prompt) => Opening(prompt)
  }

  /** The states a task goes through once it has fired with `result`. */
  predicate Follows(result: Status, status: Status) {
    status == result || (result.Opening? && (status == Open(result.prompt) || status == Closed(result.prompt)))
  }

  /** A firing was of a task there is, not early, and left its mark on it. */
  ghost predicate OnTime(n: Node, f: Firing) {
    f.schedule < |n.schedules| &&
    var s := n.schedules[f.schedule];
    && s.start.Start? && f.task < |s.start.schedule| && f.task < |s.tasks|
    && f.at >= FireTime(s.arrived, s.start.t0, s.start.schedule[f.task].delay)
    && (f.result.Opening? || f.result.Failed?) && Follows(f.result, s.tasks[f.task])
  }

  ghost predicate WellKept(n: Node, k: nat)
    requires k < |n.schedules|
  {
    var s := n.schedules[k];
    && s.start.Start? && |s.tasks| == |s.start.schedule|
    && (s.stopped ==> Quiet(s))
    && (!s.stopped ==> forall i | 0 <= i < |s.tasks| :: !s.tasks[i].Cancelled? && !s.tasks[i].Closed?)
    && (forall i | 0 <= i < |s.tasks| :: HasFired(n, k, i) <==> !s.tasks[i].Waiting? && !s.tasks[i].Cancelled?)
  }

  ghost predicate NoneTwice(n: Node) {
    forall a, b | 0 <= a < b < |n.fired| ::
      n.fired[a].schedule != n.fired[b].schedule || n.fired[a].task != n.fired[b].task
  }

  /** The key of a match is that of its latest schedule, until that is stopped. */
  ghost predicate KeyRight(n: Node, m: string) {
    match LatestOf(n.schedules, m)
    case None => m !in n.keys.matchKeys
    case Some(k) =>
      && (m in n.keys.matchKeys <==> !n.schedules[k].stopped)
      && (m in n.keys.matchKeys ==> n.keys.matchKeys[m] == n.schedules[k].key)
  }

  ghost predicate Consistent(n: Node) {
    && (forall k | 0 <= k < |n.schedules| :: WellKept(n, k))
    && (forall f <- n.fired :: OnTime(n, f))
    && NoneTwice(n) && forall m :: KeyRight(n, m)
  }

  lemma FiredKept(n: Node, n': Node, k: nat)
    requires n'.fired == n.fired
    ensures forall i :: HasFired(n', k, i) <==> HasFired(n, k, i)
  {}

  /** Schedules that only changed tasks and stops keep who is latest. */
  lemma LatestKept(a: seq<Schedule>, b: seq<Schedule>, m: string)
    requires |a| == |b| && forall k | 0 <= k < |a| :: a[k].start == b[k].start
    ensures LatestOf(a, m) == LatestOf(b, m)
  {
    assert forall k | 0 <= k < |a| :: IsOf(a[k], m) <==> IsOf(b[k], m);
  }

  lemma LatestAdded(a: seq<Schedule>, s: Schedule, m: string)
    ensures LatestOf(a + [s], m) == if IsOf(s, m) then Some(|a|) else LatestOf(a, m)
  {
    assert (a + [s])[..|a|] == a;
  }

  lemma StartConsistent(p: Suite, n: Node, msg: Message, now: real)
    requires Consistent(n) && msg.Start?
    ensures Consistent(HandleStart(p, n, msg, now))
  {
    var n' := HandleStart(p, n, msg, now);
    if n' != n {
      var last := |n.schedules|;
      forall k | 0 <= k < |n'.schedules| ensures WellKept(n', k) {
        FiredKept(n, n', k);
        if k < last {
          assert WellKept(n, k);
        } else {
          forall f | f in n'.fired ensures f.schedule != k { assert OnTime(n, f); }
        }
      }
      forall f | f in n'.fired ensures OnTime(n', f) { assert OnTime(n, f); }
      forall m ensures KeyRight(n', m) {
        assert KeyRight(n, m);
        LatestAdded(n.schedules, n'.schedules[last], m);
      }
    }
  }

  lemma StopConsistent(n: Node)
    requires Consistent(n)
    ensures Consistent(HandleStop(n))
  {
    if n.schedules != [] {
      var n', last := HandleStop(n), |n.schedules| - 1;
      assert WellKept(n, last);
      forall k | 0 <= k < |n'.schedules| ensures WellKept(n', k) {
        assert WellKept(n, k);
        FiredKept(n, n', k);
      }
      forall f | f in n'.fired ensures OnTime(n', f) { assert OnTime(n, f); }
      forall m ensures KeyRight(n', m) {
        assert KeyRight(n, m);
        LatestKept(n.schedules, n'.schedules, m);
      }
    }
  }

  lemma ExpireConsistent(p: Suite, n: Node, k: nat, i: nat, now: real)
    requires Consistent(n) && CanExpire(n, k, i, now)
    ensures Consistent(Handle(p, n, Expire(k, i, now)))
  {
    var n' := Handle(p, n, Expire(k, i, now));
    var f := Firing(k, i, now, n'.schedules[k].tasks[i]);
    assert n'.fired == n.fired + [f];
    assert WellKept(n, k);
    assert !HasFired(n, k, i);
    forall k' | 0 <= k' < |n'.schedules| ensures WellKept(n', k') {
      assert WellKept(n, k');
      FiredMore(n, n', f, k');
    }
    forall g | g in n'.fired ensures OnTime(n', g) {
      if g in n.fired {
        assert OnTime(n, g);
        assert g.schedule != k || g.task != i;
      }
    }
    forall a | 0 <= a < |n.fired| ensures n.fired[a].schedule != k || n.fired[a].task != i {
      assert n.fired[a] in n.fired;
    }
    KeysKept(n, n');
  }

  lemma FiredMore(n: Node, n': Node, f: Firing, k: nat)
    requires n'.fired == n.fired + [f]
    ensures forall i :: HasFired(n', k, i) <==> HasFired(n, k, i) || (f.schedule == k && f.task == i)
  {
    forall i ensures HasFired(n', k, i) <==> HasFired(n, k, i) || (f.schedule == k && f.task == i) {
      if f.schedule == k && f.task == i { assert f in n'.fired; }
    }
  }

  lemma KeysKept(n: Node, n': Node)
    requires forall m :: KeyRight(n, m)
    requires |n'.schedules| == |n.schedules| && n'.keys.matchKeys == n.keys.matchKeys
    requires forall k | 0 <= k < |n.schedules| ::
      n'.schedules[k].start == n.schedules[k].start && n'.schedules[k].key == n.schedules[k].key
      && n'.schedules[k].stopped == n.schedules[k].stopped
    ensures forall m :: KeyRight(n', m)
  {
    forall m ensures KeyRight(n', m) {
      assert KeyRight(n, m);
      LatestKept(n.schedules, n'.schedules, m);
    }
  }

  lemma WindowUpConsistent(p: Suite, n: Node, k: nat, i: nat)
    requires Consistent(n)
    ensures Consistent(Handle(p, n, WindowUp(k, i)))
  {
    var n' := Handle(p, n, WindowUp(k, i));
    if n' != n {
      assert WellKept(n, k);
      forall k' | 0 <= k' < |n'.schedules| ensures WellKept(n', k') {
        assert WellKept(n, k');
        FiredKept(n, n', k');
      }
      forall f | f in n'.fired ensures OnTime(n', f) { assert OnTime(n, f); }
      KeysKept(n, n');
    }
  }

  lemma RekeyConsistent(p: Suite, n: Node, serverPubkey: string)
    requires Consistent(n)
    ensures Consistent(Handle(p, n, Registered(serverPubkey)))
  {
    var n' := Handle(p, n, Registered(serverPubkey));
    forall k | 0 <= k < |n'.schedules| ensures WellKept(n', k) {
      assert WellKept(n, k);
      FiredKept(n, n', k);
    }
    forall f | f in n'.fired ensures OnTime(n', f) { assert OnTime(n, f); }
    KeysKept(n, n');
  }

  lemma StepConsistent(p: Suite, n: Node, e: NodeEvent)
    requires Consistent(n)
    ensures Consistent(Handle(p, n, e))
  {
    match e
    case OnStart(msg, now) => if msg.Start? { StartConsistent(p, n, msg, now); }
    case OnStop => StopConsistent(n);
    case Expire(k, i, now) => if CanExpire(n, k, i, now) { ExpireConsistent(p, n, k, i, now); }
    case WindowUp(k, i) => WindowUpConsistent(p, n, k, i);
    case Registered(serverPubkey) => RekeyConsistent(p, n, serverPubkey);
  }

  lemma {:induction false} RunsConsistent(p: Suite, private: Bytes, es: seq<NodeEvent>)
    ensures Consistent(HandleAll(p, private, es))
  {
    if es != [] {
      RunsConsistent(p, private, es[..|es| - 1]);
      StepConsistent(p, HandleAll(p, private, es[..|es| - 1]), es[|es| - 1]);
    }
  }

  /** In every run, STARTs and STOPs in whatever order: every prompt of every
      schedule is pending, or cancelled, or has fired, once, and never before its
      time; nothing is pending or open once its schedule has been stopped, and
      nothing is cancelled before. */
  lemma {:induction false} FiresOnceNeverEarly(p: Suite, private: Bytes, es: seq<NodeEvent>, k: nat, i: nat)
    requires var n := HandleAll(p, private, es);
      k < |n.schedules| && n.schedules[k].start.Start? && i < |n.schedules[k].start.schedule|
    ensures
      var n := HandleAll(p, private, es);
      var s := n.schedules[k];
      && |s.tasks| == |s.start.schedule|
      && (HasFired(n, k, i) <==> !s.tasks[i].Waiting? && !s.tasks[i].Cancelled?)
      && (forall a, b | 0 <= a < |n.fired| && 0 <= b < |n.fired|
            && n.fired[a].schedule == n.fired[b].schedule == k && n.fired[a].task == n.fired[b].task == i :: a == b)
      && (forall f <- n.fired :: f.schedule == k && f.task == i ==>
            f.at >= FireTime(s.arrived, s.start.t0, s.start.schedule[i].delay) && Follows(f.result, s.tasks[i]))
      && (s.stopped ==> !Active(s.tasks[i]))
      && (s.tasks[i].Cancelled? ==> s.stopped)
  {
    RunsConsistent(p, private, es);
    var n := HandleAll(p, private, es);
    assert WellKept(n, k);
    forall f | f in n.fired && f.schedule == k && f.task == i ensures Follows(f.result, n.schedules[k].tasks[i]) {
      assert OnTime(n, f);
    }
  }

  /** In every run: the key of a match is held if and only if its latest schedule
      has not been stopped, and it is the key of that schedule. */
  lemma {:induction false} KeyHeldUntilStopped(p: Suite, private: Bytes, es: seq<NodeEvent>, m: string)
    ensures
      var n := HandleAll(p, private, es);
      match LatestOf(n.schedules, m)
      case None => m !in n.keys.matchKeys
      case Some(k) =>
        && (m in n.keys.matchKeys <==> !n.schedules[k].stopped)
        && (m in n.keys.matchKeys ==> n.keys.matchKeys[m] == n.schedules[k].key)
  {
    RunsConsistent(p, private, es);
    assert KeyRight(HandleAll(p, private, es), m);
  }

  /** The server key of the latest REGISTER_OK that had a usable one. */
  ghost function LastOffer(p: Suite, es: seq<NodeEvent>): Option<string> {
    if es == [] then None
    else
      var e := es[|es| - 1];
      if e.Registered? && WellFormedKey(p, e.serverPubkey) then Some(e.serverPubkey) else LastOffer(p, es[..|es| - 1])
  }

  /** In every run the session key is the one agreed with that server key. */
  lemma {:induction false} SessionFollowsOffer(p: Suite, private: Bytes, es: seq<NodeEvent>)
    ensures
      var n := HandleAll(p, private, es);
      && n.private == private
      && n.keys.session == match LastOffer(p, es) case None => None case Some(key) => AgreedKey(p, private, key)
  {
    if es != [] {
      SessionFollowsOffer(p, private, es[..|es| - 1]);
      OnlyOffersAgree(p, HandleAll(p, private, es[..|es| - 1]), es[|es| - 1]);
    }
  }

  lemma OnlyOffersAgree(p: Suite, n: Node, e: NodeEvent)
    ensures
      var n' := Handle(p, n, e);
      && n'.private == n.private
      && n'.keys.session ==
           if e.Registered? && WellFormedKey(p, e.serverPubkey) then AgreedKey(p, n.private, e.serverPubkey)
           else n.keys.session
  {}

  /** What the key of schedule `owner` makes of prompt `i` of schedule `s`. */
  function DecryptionWith(p: Suite, owner: Schedule, s: Schedule, i: nat): Status
    requires s.start.Start? && i < |s.start.schedule|
  {
    Decryption(p, s.(key := owner.key), i)
  }

  /** A firing was opened with the key of some schedule of its match. */
  ghost predicate Keyed(p: Suite, n: Node, f: Firing, owner: nat)
    requires OnTime(n, f)
  {
    owner < |n.schedules| && IsOf(n.schedules[owner], n.schedules[f.schedule].start.matchId)
    && f.result == DecryptionWith(p, n.schedules[owner], n.schedules[f.schedule], f.task)
  }

  ghost predicate KeyedOrMissing(p: Suite, n: Node, f: Firing) {
    OnTime(n, f) && (f.result == Failed(MissingKey) || exists owner :: Keyed(p, n, f, owner))
  }

  lemma KeyedKept(p: Suite, n: Node, n': Node, f: Firing)
    requires KeyedOrMissing(p, n, f) && OnTime(n', f) && |n.schedules| <= |n'.schedules|
    requires forall k | 0 <= k < |n.schedules| ::
      n'.schedules[k].start == n.schedules[k].start && n'.schedules[k].key == n.schedules[k].key
    ensures KeyedOrMissing(p, n', f)
  {
    if f.result != Failed(MissingKey) {
      var owner :| Keyed(p, n, f, owner);
      assert Keyed(p, n', f, owner);
    }
  }

  lemma SchedulesOnlyGrow(p: Suite, n: Node, e: NodeEvent)
    ensures var n' := Handle(p, n, e);
      && |n.schedules| <= |n'.schedules|
      && forall k | 0 <= k < |n.schedules| ::
           n'.schedules[k].start == n.schedules[k].start && n'.schedules[k].key == n.schedules[k].key
  {}

  lemma StepKeyed(p: Suite, n: Node, e: NodeEvent)
    requires Consistent(n) && forall f <- n.fired :: KeyedOrMissing(p, n, f)
    ensures forall f <- Handle(p, n, e).fired :: KeyedOrMissing(p, Handle(p, n, e), f)
  {
    var n' := Handle(p, n, e);
    StepConsistent(p, n, e);
    SchedulesOnlyGrow(p, n, e);
    forall f | f in n'.fired ensures KeyedOrMissing(p, n', f) {
      assert OnTime(n', f);
      if f in n.fired {
        KeyedKept(p, n, n', f);
      } else {
        NewFiring(p, n, e, f);
      }
    }
  }

  lemma NewFiring(p: Suite, n: Node, e: NodeEvent, f: Firing)
    requires Consistent(n) && f !in n.fired && f in Handle(p, n, e).fired && OnTime(Handle(p, n, e), f)
    ensures KeyedOrMissing(p, Handle(p, n, e), f)
  {
    var n' := Handle(p, n, e);
    assert e.Expire? && CanExpire(n, e.schedule, e.task, e.now);
    assert n'.fired == n.fired + [f] && f.schedule == e.schedule && f.task == e.task;
    var m := n.schedules[f.schedule].start.matchId;
    assert KeyRight(n, m) && IsOf(n.schedules[f.schedule], m);
    if f.result != Failed(MissingKey) {
      assert Keyed(p, n', f, LatestOf(n.schedules, m).value);
    }
  }

  /** In every run, whatever fired was opened with the key of some schedule of its
      match, or failed because the key was gone. */
  lemma {:induction false} RunsKeyed(p: Suite, private: Bytes, es: seq<NodeEvent>)
    ensures forall f <- HandleAll(p, private, es).fired :: KeyedOrMissing(p, HandleAll(p, private, es), f)
  {
    if es != [] {
      RunsKeyed(p, private, es[..|es| - 1]);
      RunsConsistent(p, private, es[..|es| - 1]);
      StepKeyed(p, HandleAll(p, private, es[..|es| - 1]), es[|es| - 1]);
    }
  }

  /** So a prompt that fires fails for want of a key exactly if the latest schedule
      of its match has been stopped; otherwise it is opened with the key of that
      schedule, which is its own unless the match was started again. */
  lemma {:induction false} MissingKeyExactly(p: Suite, private: Bytes, es: seq<NodeEvent>, k: nat, i: nat, now: real)
    requires CanExpire(HandleAll(p, private, es), k, i, now)
    ensures
      var n := HandleAll(p, private, es);
      var latest, fired := LatestOf(n.schedules, n.schedules[k].start.matchId), Handle(p, n, Expire(k, i, now)).fired;
      && latest.Some? && k <= latest.value
      && |fired| == |n.fired| + 1 && fired[..|n.fired|] == n.fired
      && var f := fired[|n.fired|];
      && f.schedule == k && f.task == i && f.at == now
      && (f.result == Failed(MissingKey) <==> n.schedules[latest.value].stopped)
      && (latest.value == k ==> f.result == Decryption(p, n.schedules[k], i))
  {
    RunsConsistent(p, private, es);
    var n := HandleAll(p, private, es);
    var m := n.schedules[k].start.matchId;
    assert WellKept(n, k) && KeyRight(n, m) && IsOf(n.schedules[k], m);
  }

  // ── runs in which a START meets no active schedule of its own match ────────

  ghost predicate NoneActiveOf(n: Node, m: string) {
    forall k | 0 <= k < |n.schedules| && IsOf(n.schedules[k], m) :: Quiet(n.schedules[k])
  }

  ghost predicate Apart(n: Node, e: NodeEvent) {
    e.OnStart? && e.msg.Start? ==> NoneActiveOf(n, e.msg.matchId)
  }

  /** Other matches may be running; only a match that is started again must have
      been stopped before. */
  ghost predicate ApartRun(p: Suite, private: Bytes, es: seq<NodeEvent>) {
    es == [] || (ApartRun(p, private, es[..|es| - 1]) && Apart(HandleAll(p, private, es[..|es| - 1]), es[|es| - 1]))
  }

  /** No two STARTs carry the same match id. */
  ghost predicate DistinctStarts(es: seq<NodeEvent>) {
    forall a, b | 0 <= a < b < |es| && es[a].OnStart? && es[b].OnStart? && es[a].msg.Start? && es[b].msg.Start? ::
      es[a].msg.matchId != es[b].msg.matchId
  }

  lemma {:induction false} ScheduleFrom(p: Suite, private: Bytes, es: seq<NodeEvent>, k: nat) returns (a: nat)
    requires k < |HandleAll(p, private, es).schedules|
    ensures a < |es| && es[a].OnStart? && es[a].msg == HandleAll(p, private, es).schedules[k].start
    ensures KeyFrom(p, HandleAll(p, private, es[..a]), HandleAll(p, private, es).schedules[k])
  {
    var init := es[..|es| - 1];
    var n := HandleAll(p, private, init);
    HandleAdds(p, n, es[|es| - 1], k);
    if k < |n.schedules| {
      a := ScheduleFrom(p, private, init, k);
      assert init[..a] == es[..a];
    } else {
      a := |es| - 1;
    }
  }

  /** The key of a schedule is what its START unwrapped to when it arrived. */
  ghost predicate KeyFrom(p: Suite, before: Node, s: Schedule) {
    && s.start.Start? && before.keys.session.Some?
    && UnwrapKey(p, before.keys.session.value, s.start.encryptedMatchKey) == Some(s.key)
  }

  lemma HandleAdds(p: Suite, n: Node, e: NodeEvent, k: nat)
    requires k < |Handle(p, n, e).schedules|
    ensures var s := Handle(p, n, e).schedules[k];
      if k < |n.schedules| then s.start == n.schedules[k].start && s.key == n.schedules[k].key
      else e.OnStart? && e.msg == s.start && KeyFrom(p, n, s)
  {}

  /** Runs in which every match is started at most once are among them. */
  lemma {:induction false} DistinctStartsAreApart(p: Suite, private: Bytes, es: seq<NodeEvent>)
    requires DistinctStarts(es)
    ensures ApartRun(p, private, es)
  {
    if es != [] {
      var init, e := es[..|es| - 1], es[|es| - 1];
      var n := HandleAll(p, private, init);
      DistinctStartsAreApart(p, private, init);
      if e.OnStart? && e.msg.Start? {
        forall k | 0 <= k < |n.schedules| ensures !IsOf(n.schedules[k], e.msg.matchId) {
          var a := ScheduleFrom(p, private, init, k);
          assert es[a] == init[a];
        }
      }
    }
  }

  /** Of each match only the latest schedule has anything active. */
  ghost predicate OneActive(n: Node) {
    forall k, k' | 0 <= k < k' < |n.schedules| && n.schedules[k].start.Start? && n.schedules[k'].start.Start?
      && n.schedules[k].start.matchId == n.schedules[k'].start.matchId :: Quiet(n.schedules[k])
  }

  ghost predicate OwnKeys(p: Suite, n: Node) {
    forall f <- n.fired :: OnTime(n, f) && f.result == Decryption(p, n.schedules[f.schedule], f.task)
  }

  ghost predicate InOrder(p: Suite, n: Node) {
    Consistent(n) && OneActive(n) && OwnKeys(p, n)
  }

  lemma StartInOrder(p: Suite, n: Node, msg: Message, now: real)
    requires InOrder(p, n) && msg.Start? && NoneActiveOf(n, msg.matchId)
    ensures InOrder(p, HandleStart(p, n, msg, now))
  {
    var n' := HandleStart(p, n, msg, now);
    StartConsistent(p, n, msg, now);
    if n' != n {
      var last := |n.schedules|;
      forall k, k' | 0 <= k < k' < |n'.schedules| && n'.schedules[k].start.Start? && n'.schedules[k'].start.Start?
        && n'.schedules[k].start.matchId == n'.schedules[k'].start.matchId
        ensures Quiet(n'.schedules[k])
      {
        if k' == last { assert IsOf(n.schedules[k], msg.matchId); }
      }
      forall f | f in n'.fired ensures OnTime(n', f) && f.result == Decryption(p, n'.schedules[f.schedule], f.task) {
        assert OnTime(n, f);
      }
    }
  }

  lemma StopInOrder(p: Suite, n: Node)
    requires InOrder(p, n)
    ensures InOrder(p, HandleStop(n))
  {
    StopConsistent(n);
    if n.schedules != [] {
      var n', last := HandleStop(n), |n.schedules| - 1;
      assert WellKept(n, last);
      forall f | f in n'.fired ensures OnTime(n', f) && f.result == Decryption(p, n'.schedules[f.schedule], f.task) {
        assert OnTime(n, f) && OnTime(n', f);
      }
    }
  }

  lemma ExpireInOrder(p: Suite, n: Node, k: nat, i: nat, now: real)
    requires InOrder(p, n) && CanExpire(n, k, i, now)
    ensures InOrder(p, Handle(p, n, Expire(k, i, now)))
  {
    var n' := Handle(p, n, Expire(k, i, now));
    ExpireConsistent(p, n, k, i, now);
    OwnKeyHeld(p, n, k, i);
    var f := Firing(k, i, now, Decryption(p, n.schedules[k], i));
    assert n'.fired == n.fired + [f];
    forall g | g in n'.fired ensures OnTime(n', g) && g.result == Decryption(p, n'.schedules[g.schedule], g.task) {
      assert OnTime(n', g);
      if g in n.fired { assert OnTime(n, g); }
    }
    OneActiveKept(n, n', k, i, f.result);
  }

  /** What is waiting belongs to the latest schedule of its match, whose key is
      held. */
  lemma OwnKeyHeld(p: Suite, n: Node, k: nat, i: nat)
    requires Consistent(n) && OneActive(n) && k < |n.schedules| && n.schedules[k].start.Start?
    requires i < |n.schedules[k].tasks| && i < |n.schedules[k].start.schedule| && n.schedules[k].tasks[i].Waiting?
    ensures var s := n.schedules[k];
      && s.start.matchId in n.keys.matchKeys && n.keys.matchKeys[s.start.matchId] == s.key
      && Decrypt(p, n.keys, s.start.matchId, s.start.schedule[i].encryptedPrompt) == Decryption(p, s, i)
  {
    var m := n.schedules[k].start.matchId;
    assert WellKept(n, k) && KeyRight(n, m) && IsOf(n.schedules[k], m);
    assert !Quiet(n.schedules[k]) by { assert Active(n.schedules[k].tasks[i]); }
  }

  lemma OneActiveKept(n: Node, n': Node, k: nat, i: nat, status: Status)
    requires OneActive(n) && k < |n.schedules| && i < |n.schedules[k].tasks| && Active(n.schedules[k].tasks[i])
    requires |n'.schedules| == |n.schedules|
    requires forall k' | 0 <= k' < |n.schedules| && k' != k :: n'.schedules[k'] == n.schedules[k']
    requires n'.schedules[k].start == n.schedules[k].start
    requires n'.schedules[k].tasks == n.schedules[k].tasks[i := status]
    ensures OneActive(n')
  {
    assert !Quiet(n.schedules[k]);
    forall a, b | 0 <= a < b < |n'.schedules| && n'.schedules[a].start.Start? && n'.schedules[b].start.Start?
      && n'.schedules[a].start.matchId == n'.schedules[b].start.matchId
      ensures Quiet(n'.schedules[a])
    {
      assert Quiet(n.schedules[a]);
    }
  }

  lemma WindowUpInOrder(p: Suite, n: Node, k: nat, i: nat)
    requires InOrder(p, n)
    ensures InOrder(p, Handle(p, n, WindowUp(k, i)))
  {
    var n' := Handle(p, n, WindowUp(k, i));
    WindowUpConsistent(p, n, k, i);
    if n' != n {
      forall f | f in n'.fired ensures OnTime(n', f) && f.result == Decryption(p, n'.schedules[f.schedule], f.task) {
        assert OnTime(n, f) && OnTime(n', f);
      }
      OneActiveKept(n, n', k, i, n'.schedules[k].tasks[i]);
    }
  }

  lemma RekeyInOrder(p: Suite, n: Node, serverPubkey: string)
    requires InOrder(p, n)
    ensures InOrder(p, Handle(p, n, Registered(serverPubkey)))
  {
    var n' := Handle(p, n, Registered(serverPubkey));
    RekeyConsistent(p, n, serverPubkey);
    forall f | f in n'.fired ensures OnTime(n', f) && f.result == Decryption(p, n'.schedules[f.schedule], f.task) {
      assert OnTime(n, f) && OnTime(n', f);
    }
  }

  lemma StepInOrder(p: Suite, n: Node, e: NodeEvent)
    requires InOrder(p, n) && Apart(n, e)
    ensures InOrder(p, Handle(p, n, e))
  {
    match e
    case OnStart(msg, now) => if msg.Start? { StartInOrder(p, n, msg, now); }
    case OnStop => StopInOrder(p, n);
    case Expire(k, i, now) => if CanExpire(n, k, i, now) { ExpireInOrder(p, n, k, i, now); }
    case WindowUp(k, i) => WindowUpInOrder(p, n, k, i);
    case Registered(serverPubkey) => RekeyInOrder(p, n, serverPubkey);
  }

  lemma {:induction false} RunsInOrder(p: Suite, private: Bytes, es: seq<NodeEvent>)
    requires ApartRun(p, private, es)
    ensures InOrder(p, HandleAll(p, private, es))
  {
    if es != [] {
      RunsInOrder(p, private, es[..|es| - 1]);
      StepInOrder(p, HandleAll(p, private, es[..|es| - 1]), es[|es| - 1]);
    }
  }

  /** If no START meets an active schedule of its own match, every prompt that
      fires is opened with the key of its START, never failing for want of one,
      and the key is there for what is pending. */
  lemma {:induction false} PromptsPartition(p: Suite, private: Bytes, es: seq<NodeEvent>, k: nat, i: nat)
    requires ApartRun(p, private, es)
    requires var n := HandleAll(p, private, es);
      k < |n.schedules| && n.schedules[k].start.Start? && i < |n.schedules[k].start.schedule|
    ensures
      var n := HandleAll(p, private, es);
      var s := n.schedules[k];
      && |s.tasks| == |s.start.schedule|
      && (HasFired(n, k, i) <==> !s.tasks[i].Waiting? && !s.tasks[i].Cancelled?)
      && (forall a, b | 0 <= a < |n.fired| && 0 <= b < |n.fired|
            && n.fired[a].schedule == n.fired[b].schedule == k && n.fired[a].task == n.fired[b].task == i :: a == b)
      && (forall f <- n.fired :: f.schedule == k && f.task == i ==>
            && f.at >= FireTime(s.arrived, s.start.t0, s.start.schedule[i].delay)
            && f.result == Decryption(p, s, i) && f.result != Failed(MissingKey))
      && (s.stopped ==> !Active(s.tasks[i]))
      && (s.tasks[i].Cancelled? ==> s.stopped)
      && (s.tasks[i].Waiting? ==> s.start.matchId in n.keys.matchKeys && n.keys.matchKeys[s.start.matchId] == s.key)
  {
    RunsInOrder(p, private, es);
    var n := HandleAll(p, private, es);
    FiresOnceNeverEarly(p, private, es, k, i);
    if n.schedules[k].tasks[i].Waiting? { OwnKeyHeld(p, n, k, i); }
  }
}
