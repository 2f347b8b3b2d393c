/** The table of open windows, over all runs of a node: when it is right, and when
    a window is lost from it. */
module NodeWindows {
  import opened Prelude
  import opened Sealing
  import opened ServerCore
  import opened NodeAgent
  import opened NodeRuns
  import TerminalId
  import Base64

  ghost predicate IsOpen(n: Node, k: nat, i: nat) {
    k < |n.schedules| && n.schedules[k].start.Start? && i < |n.schedules[k].tasks| && n.schedules[k].tasks[i].Open?
  }

  ghost predicate Listed(n: Node, k: nat, i: nat)
    requires IsOpen(n, k, i)
  {
    TerminalOf(n, k, i) in n.windows && n.windows[TerminalOf(n, k, i)] == (k, i)
  }

  /** Every entry is an open window under its own id. */
  ghost predicate EntriesOpen(n: Node) {
    forall id | id in n.windows ::
      IsOpen(n, n.windows[id].0, n.windows[id].1) && id == TerminalOf(n, n.windows[id].0, n.windows[id].1)
  }

  /** The table holds exactly the open windows, each under its own id. */
  ghost predicate WindowsRight(n: Node) {
    EntriesOpen(n) && forall k: nat, i: nat | IsOpen(n, k, i) :: Listed(n, k, i)
  }

  ghost predicate Lost(n: Node, k: nat, i: nat) { IsOpen(n, k, i) && !Listed(n, k, i) }

  // ── every run ──────────────────────────────────────────────────────────────

  /** The ids of the last schedule's open windows are taken, if not by them. */
  ghost predicate LastListed(n: Node) {
    forall k: nat, i: nat | IsOpen(n, k, i) && k == |n.schedules| - 1 :: TerminalOf(n, k, i) in n.windows
  }

  ghost predicate TableSound(n: Node) {
    (forall k | 0 <= k < |n.schedules| :: n.schedules[k].start.Start?) && EntriesOpen(n) && LastListed(n)
  }

  lemma SameId(n: Node, k: nat, i: nat, k': nat, i': nat)
    requires k < |n.schedules| && k' < |n.schedules|
    requires n.schedules[k].start.Start? && n.schedules[k'].start.Start?
    ensures TerminalOf(n, k, i) == TerminalOf(n, k', i')
      <==> n.schedules[k].start.matchId == n.schedules[k'].start.matchId && i == i'
  {
    TerminalId.Injective(n.schedules[k].start.matchId, i, n.schedules[k'].start.matchId, i');
  }

  /** STOP takes an id out of the table exactly if the last schedule has a window
      opening or open under it. */
  lemma StopTakes(n: Node, k: nat, i: nat)
    requires n.schedules != [] && n.schedules[|n.schedules| - 1].start.Start?
    requires k < |n.schedules| && n.schedules[k].start.Start?
    ensures var last := n.schedules[|n.schedules| - 1];
      TerminalOf(n, k, i) in ClosedWindows(last)
      <==>
        && last.start.matchId == n.schedules[k].start.matchId
        && i < |last.tasks| && (last.tasks[i].Opening? || last.tasks[i].Open?)
  {
    var last := n.schedules[|n.schedules| - 1];
    forall i' | 0 <= i' < |last.tasks|
      ensures TerminalId.Of(last.start.matchId, i') == TerminalOf(n, k, i)
        <==> last.start.matchId == n.schedules[k].start.matchId && i' == i
    {
      SameId(n, |n.schedules| - 1, i', k, i);
    }
  }

  lemma StopSound(n: Node)
    requires TableSound(n)
    ensures TableSound(HandleStop(n))
  {
    var n' := HandleStop(n);
    if n.schedules != [] {
      var last := |n.schedules| - 1;
      forall id | id in n'.windows
        ensures IsOpen(n', n'.windows[id].0, n'.windows[id].1)
          && id == TerminalOf(n', n'.windows[id].0, n'.windows[id].1)
      {
        var (k, i) := n.windows[id];
        assert IsOpen(n, k, i) && id == TerminalOf(n, k, i);
        StopTakes(n, k, i);
      }
    }
  }

  lemma OtherSound(p: Suite, n: Node, e: NodeEvent)
    requires TableSound(n) && !e.OnStop?
    ensures TableSound(Handle(p, n, e))
  {
    var n' := Handle(p, n, e);
    OpenStays(p, n, e);
    forall id | id in n'.windows
      ensures IsOpen(n', n'.windows[id].0, n'.windows[id].1)
        && id == TerminalOf(n', n'.windows[id].0, n'.windows[id].1)
    {
      if n.windows != n'.windows && n'.windows[id] == (e.schedule, e.task) {
      } else {
        assert IsOpen(n, n.windows[id].0, n.windows[id].1);
      }
    }
  }

  /** Only STOP closes windows, and only a window that comes up opens. */
  lemma OpenStays(p: Suite, n: Node, e: NodeEvent)
    requires (forall k | 0 <= k < |n.schedules| :: n.schedules[k].start.Start?) && !e.OnStop?
    ensures var n' := Handle(p, n, e);
      && (forall k | 0 <= k < |n'.schedules| :: n'.schedules[k].start.Start?)
      && (forall k: nat, i: nat | IsOpen(n, k, i) :: IsOpen(n', k, i) && TerminalOf(n', k, i) == TerminalOf(n, k, i))
      && (forall k: nat, i: nat | IsOpen(n', k, i) && !IsOpen(n, k, i) ::
            e == WindowUp(k, i) && k < |n.schedules| && i < |n.schedules[k].tasks| && n.schedules[k].tasks[i].Opening?
            && n'.windows == n.windows[TerminalOf(n, k, i) := (k, i)])
      && (n'.windows == n.windows ||
            (e.WindowUp? && IsOpen(n', e.schedule, e.task) && !IsOpen(n, e.schedule, e.task)
             && TerminalOf(n', e.schedule, e.task) == TerminalOf(n, e.schedule, e.task)
             && n'.windows == n.windows[TerminalOf(n, e.schedule, e.task) := (e.schedule, e.task)]))
  {}

  lemma StepSound(p: Suite, n: Node, e: NodeEvent)
    requires TableSound(n)
    ensures TableSound(Handle(p, n, e))
  {
    if e.OnStop? { StopSound(n); } else { OtherSound(p, n, e); }
  }

  // ── what displaces a window ────────────────────────────────────────────────

  ghost predicate SameMatch(n: Node, k: nat, k': nat)
    requires k < |n.schedules| && k' < |n.schedules|
  {
    && n.schedules[k].start.Start? && n.schedules[k'].start.Start?
    && n.schedules[k].start.matchId == n.schedules[k'].start.matchId
  }

  /** The window of task `i` of schedule `k` loses its place in the table: to the
      window at the same position of another schedule of its match that comes up,
      or to the STOP of a later schedule of its match, the last, that has one. */
  ghost predicate DisplacesOne(n: Node, e: NodeEvent, k: nat, i: nat) {
    IsOpen(n, k, i) &&
    match e
    case WindowUp(k', i') =>
      && k' < |n.schedules| && k' != k && i' == i && SameMatch(n, k, k')
      && i < |n.schedules[k'].tasks| && n.schedules[k'].tasks[i].Opening?
    case OnStop =>
      var last := |n.schedules| - 1;
      && k < last && SameMatch(n, k, last)
      && i < |n.schedules[last].tasks| && (n.schedules[last].tasks[i].Opening? || n.schedules[last].tasks[i].Open?)
    case _ => false
  }

  ghost predicate Displaces(n: Node, e: NodeEvent) { exists k: nat, i: nat :: DisplacesOne(n, e, k, i) }

  ghost predicate Displaced(p: Suite, private: Bytes, es: seq<NodeEvent>) {
    es != [] &&
    (Displaced(p, private, es[..|es| - 1]) || Displaces(HandleAll(p, private, es[..|es| - 1]), es[|es| - 1]))
  }

  lemma StepLoses(p: Suite, n: Node, e: NodeEvent, k: nat, i: nat)
    requires TableSound(n) && DisplacesOne(n, e, k, i)
    ensures Lost(Handle(p, n, e), k, i)
  {
    match e
    case WindowUp(k', i') =>
      SameId(n, k, i, k', i);
      OpenStays(p, n, e);
    case OnStop => StopTakes(n, k, i);
  }

  /** A window that is lost stays so, or is closed by a STOP that takes the id away
      from the window that had displaced it. */
  lemma LostStays(p: Suite, n: Node, e: NodeEvent, k: nat, i: nat) returns (k': nat, i': nat)
    requires TableSound(n) && Lost(n, k, i)
    ensures Lost(Handle(p, n, e), k', i')
  {
    k', i' := k, i;
    if e.OnStop? {
      var last := |n.schedules| - 1;
      if k == last {
        var id := TerminalOf(n, k, i);
        k', i' := n.windows[id].0, n.windows[id].1;
        assert IsOpen(n, k', i') && TerminalOf(n, k', i') == id;
        SameId(n, k, i, k', i');
        StopTakes(n, k', i');
      }
    } else {
      OpenStays(p, n, e);
    }
  }

  lemma StopKeepsRight(n: Node)
    requires TableSound(n) && WindowsRight(n) && !Displaces(n, OnStop)
    ensures WindowsRight(HandleStop(n))
  {
    var n' := HandleStop(n);
    StopSound(n);
    forall k: nat, i: nat | IsOpen(n', k, i) ensures Listed(n', k, i) {
      assert IsOpen(n, k, i) && Listed(n, k, i) && k < |n.schedules| - 1;
      StopTakes(n, k, i);
      assert !DisplacesOne(n, OnStop, k, i);
    }
  }

  lemma OtherKeepsRight(p: Suite, n: Node, e: NodeEvent)
    requires TableSound(n) && WindowsRight(n) && !Displaces(n, e) && !e.OnStop?
    ensures WindowsRight(Handle(p, n, e))
  {
    var n' := Handle(p, n, e);
    OtherSound(p, n, e);
    OpenStays(p, n, e);
    forall k: nat, i: nat | IsOpen(n', k, i) ensures Listed(n', k, i) {
      if IsOpen(n, k, i) {
        assert Listed(n, k, i) && !DisplacesOne(n, e, k, i);
        if n'.windows != n.windows { SameId(n, k, i, e.schedule, e.task); }
      }
    }
  }

  /** In every run, however matches are started and stopped: the table holds
      exactly the open windows if and only if no event displaced one. */
  lemma {:induction false} WindowsRightExactly(p: Suite, private: Bytes, es: seq<NodeEvent>)
    ensures WindowsRight(HandleAll(p, private, es)) <==> !Displaced(p, private, es)
    ensures TableSound(HandleAll(p, private, es))
  {
    if es != [] {
      var init, e := es[..|es| - 1], es[|es| - 1];
      var n := HandleAll(p, private, init);
      WindowsRightExactly(p, private, init);
      StepSound(p, n, e);
      StepExactly(p, n, e);
    }
  }

  lemma StepExactly(p: Suite, n: Node, e: NodeEvent)
    requires TableSound(n)
    ensures WindowsRight(Handle(p, n, e)) <==> WindowsRight(n) && !Displaces(n, e)
  {
    if !WindowsRight(n) {
      var k: nat, i: nat :| IsOpen(n, k, i) && !Listed(n, k, i);
      k, i := LostStays(p, n, e, k, i);
      assert Lost(Handle(p, n, e), k, i);
    } else if Displaces(n, e) {
      var k: nat, i: nat :| DisplacesOne(n, e, k, i);
      StepLoses(p, n, e, k, i);
    } else if e.OnStop? {
      StopKeepsRight(n);
    } else {
      OtherKeepsRight(p, n, e);
    }
  }

  // ── runs that are apart ────────────────────────────────────────────────────

  lemma OneActiveDisplacesNone(n: Node, e: NodeEvent)
    requires OneActive(n)
    ensures !Displaces(n, e)
  {
    forall k: nat, i: nat ensures !DisplacesOne(n, e, k, i) {
      if IsOpen(n, k, i) { assert Active(n.schedules[k].tasks[i]) && !Quiet(n.schedules[k]); }
      if e.WindowUp? && e.schedule < |n.schedules| && e.task < |n.schedules[e.schedule].tasks|
         && n.schedules[e.schedule].tasks[e.task].Opening?
      {
        assert Active(n.schedules[e.schedule].tasks[e.task]) && !Quiet(n.schedules[e.schedule]);
      }
    }
  }

  lemma {:induction false} ApartDisplacesNone(p: Suite, private: Bytes, es: seq<NodeEvent>)
    requires ApartRun(p, private, es)
    ensures !Displaced(p, private, es)
  {
    if es != [] {
      var init := es[..|es| - 1];
      ApartDisplacesNone(p, private, init);
      RunsInOrder(p, private, init);
      OneActiveDisplacesNone(HandleAll(p, private, init), es[|es| - 1]);
    }
  }

  /** So if no START meets an active schedule of its own match, the table has
      exactly one entry per open window, though any number of matches have some. */
  lemma {:induction false} WindowsNeverCollide(p: Suite, private: Bytes, es: seq<NodeEvent>, id: string)
    requires ApartRun(p, private, es)
    ensures
      var n := HandleAll(p, private, es);
      && (id in n.windows <==> exists k: nat, i: nat :: IsOpen(n, k, i) && id == TerminalOf(n, k, i))
      && (forall k: nat, i: nat | IsOpen(n, k, i) :: Listed(n, k, i))
  {
    ApartDisplacesNone(p, private, es);
    WindowsRightExactly(p, private, es);
  }

  // ── a run in which a window is displaced ───────────────────────────────────

  /** One of the STARTs that a server with private key `server` sends for an
      assignment of match "m" to the node behind `pubkey`. */
  function StartOfM(p: Suite, server: Bytes, pubkey: string, key: Bytes, draw: nat): Message
    requires AgreedKey(p, server, pubkey).Some?
  {
    Start("m", "claude", 0.0, WrapKey(p, AgreedKey(p, server, pubkey).value, key, draw + 1),
          SealSchedule(p, key, "m", [PromptEntry(0.0, "go")], draw))
  }

  /** A START of "m" that arrived at 0.0, was opened with `key` and has one prompt,
      due at once, in state `status`. */
  ghost predicate OneOfM(p: Suite, s: Schedule, key: Bytes, status: Status) {
    && s.start.Start? && s.start.matchId == "m" && s.start.t0 == 0.0 && s.arrived == 0.0 && s.key == key
    && |s.start.schedule| == 1 && s.start.schedule[0].delay == 0.0
    && OpenPrompt(p, key, "m", s.start.schedule[0].encryptedPrompt) == Some("go")
    && s.tasks == [status]
  }

  ghost predicate TwoOfM(p: Suite, n: Node, key: Bytes, first: Status, second: Status) {
    && |n.schedules| == 2 && OneOfM(p, n.schedules[0], key, first) && OneOfM(p, n.schedules[1], key, second)
    && "m" in n.keys.matchKeys && n.keys.matchKeys["m"] == key
  }

  lemma StartOfMOpens(p: Suite, server: Bytes, node: Bytes, key: Bytes, draw: nat)
    requires Lawful(p)
    ensures AgreedKey(p, server, Base64.Encode(p.pub(node))).Some?
    ensures
      var msg := StartOfM(p, server, Base64.Encode(p.pub(node)), key, draw);
      var session := AgreedKey(p, node, Base64.Encode(p.pub(server)));
      session.Some? && OpensOfM(p, session.value, msg, key)
  {
    hide Base64.Encode, Base64.Decode;
    SessionAgrees(p, server, node);
    var msg := StartOfM(p, server, Base64.Encode(p.pub(node)), key, draw);
    var session := AgreedKey(p, node, Base64.Encode(p.pub(server)));
    assert session.Some? && UnwrapKey(p, session.value, msg.encryptedMatchKey) == Some(key) by {
      WrappedUnwraps(p, server, node, key, draw + 1);
    }
    assert AllOpen(p, key, "m", msg.schedule, [PromptEntry(0.0, "go")]) by {
      ScheduleOpens(p, key, "m", [PromptEntry(0.0, "go")], draw);
    }
    assert [PromptEntry(0.0, "go")][0].prompt == "go";
  }

  lemma IsScheduled(p: Suite, n: Node, msg: Message, key: Bytes)
    requires n.keys.session.Some? && OpensOfM(p, n.keys.session.value, msg, key)
    ensures
      var n' := Handle(p, n, OnStart(msg, 0.0));
      && |n'.schedules| == |n.schedules| + 1 && n'.schedules[..|n.schedules|] == n.schedules
      && OneOfM(p, n'.schedules[|n.schedules|], key, Waiting)
      && n'.private == n.private && n'.keys.session == n.keys.session
      && "m" in n'.keys.matchKeys && n'.keys.matchKeys["m"] == key
  {}

  lemma FirstOpens(p: Suite, n: Node, key: Bytes)
    requires TwoOfM(p, n, key, Waiting, Waiting)
    ensures TwoOfM(p, Handle(p, Handle(p, n, Expire(0, 0, 0.0)), WindowUp(0, 0)), key, Open("go"), Waiting)
  {}

  lemma SecondFires(p: Suite, n: Node, key: Bytes)
    requires TwoOfM(p, n, key, Open("go"), Waiting)
    ensures TwoOfM(p, Handle(p, n, Expire(1, 0, 0.0)), key, Open("go"), Opening("go"))
  {}

  lemma Then(p: Suite, private: Bytes, es: seq<NodeEvent>, n: Node, e: NodeEvent)
    returns (es': seq<NodeEvent>, n': Node)
    requires n == HandleAll(p, private, es)
    ensures es' == es + [e] && n' == Handle(p, n, e) && n' == HandleAll(p, private, es')
    ensures Displaced(p, private, es') <==> Displaced(p, private, es) || Displaces(n, e)
  {
    es', n' := es + [e], Handle(p, n, e);
    assert es'[..|es|] == es;
  }

  lemma Registers(p: Suite, server: Bytes, private: Bytes)
    requires Lawful(p)
    ensures AgreedKey(p, server, Base64.Encode(p.pub(private))).Some?
    ensures var n := Handle(p, Fresh(private), Registered(Base64.Encode(p.pub(server))));
      && n.private == private && n.schedules == []
      && n.keys.session == AgreedKey(p, private, Base64.Encode(p.pub(server)))
  {
    SessionAgrees(p, server, private);
    SessionAgrees(p, private, server);
  }

  lemma BothArrive(p: Suite, server: Bytes, private: Bytes, key: Bytes) returns (es: seq<NodeEvent>, n: Node)
    requires Lawful(p)
    ensures AgreedKey(p, server, Base64.Encode(p.pub(private))).Some?
    ensures
      var pubkey := Base64.Encode(p.pub(private));
      es == [Registered(Base64.Encode(p.pub(server))),
             OnStart(StartOfM(p, server, pubkey, key, 0), 0.0), OnStart(StartOfM(p, server, pubkey, key, 2), 0.0)]
    ensures n == HandleAll(p, private, es) && TwoOfM(p, n, key, Waiting, Waiting)
  {
    Registers(p, server, private);
    StartOfMOpens(p, server, private, key, 0);
    StartOfMOpens(p, server, private, key, 2);
    var pubkey, serverPubkey := Base64.Encode(p.pub(private)), Base64.Encode(p.pub(server));
    es, n := TwoArrive(
      p, private, serverPubkey, StartOfM(p, server, pubkey, key, 0), StartOfM(p, server, pubkey, key, 2), key);
  }

  /** START `msg` of match "m" opens under `key`, for whoever holds `session`. */
  ghost predicate OpensOfM(p: Suite, session: Bytes, msg: Message, key: Bytes) {
    && msg.Start? && msg.matchId == "m" && msg.t0 == 0.0
    && UnwrapKey(p, session, msg.encryptedMatchKey) == Some(key)
    && |msg.schedule| == 1 && msg.schedule[0].delay == 0.0
    && OpenPrompt(p, key, "m", msg.schedule[0].encryptedPrompt) == Some("go")
  }

  lemma TwoArrive(
      p: Suite, private: Bytes, serverPubkey: string, first: Message, second: Message, key: Bytes)
    returns (es: seq<NodeEvent>, n: Node)
    requires AgreedKey(p, private, serverPubkey).Some?
    requires OpensOfM(p, AgreedKey(p, private, serverPubkey).value, first, key)
    requires OpensOfM(p, AgreedKey(p, private, serverPubkey).value, second, key)
    ensures es == [Registered(serverPubkey), OnStart(first, 0.0), OnStart(second, 0.0)]
    ensures n == HandleAll(p, private, es) && TwoOfM(p, n, key, Waiting, Waiting)
  {
    hide UnwrapKey, OpenPrompt, AgreedKey;
    es, n := Then(p, private, [], Fresh(private), Registered(serverPubkey));
    IsScheduled(p, n, first, key);
    es, n := Then(p, private, es, n, OnStart(first, 0.0));
    IsScheduled(p, n, second, key);
    es, n := Then(p, private, es, n, OnStart(second, 0.0));
  }

  lemma BothOpen(p: Suite, private: Bytes, es: seq<NodeEvent>, n: Node, key: Bytes)
    returns (es': seq<NodeEvent>, n': Node)
    requires n == HandleAll(p, private, es) && TwoOfM(p, n, key, Waiting, Waiting)
    ensures es' == es + [Expire(0, 0, 0.0), WindowUp(0, 0), Expire(1, 0, 0.0), WindowUp(1, 0)]
    ensures n' == HandleAll(p, private, es') && Lost(n', 0, 0)
  {
    FirstOpens(p, n, key);
    es', n' := Then(p, private, es, n, Expire(0, 0, 0.0));
    es', n' := Then(p, private, es', n', WindowUp(0, 0));
    SecondFires(p, n', key);
    es', n' := Then(p, private, es', n', Expire(1, 0, 0.0));
    WindowsRightExactly(p, private, es');
    SecondTakes(p, n', key);
    es', n' := Then(p, private, es', n', WindowUp(1, 0));
  }

  lemma SecondTakes(p: Suite, n: Node, key: Bytes)
    requires TwoOfM(p, n, key, Open("go"), Opening("go")) && TableSound(n)
    ensures Lost(Handle(p, n, WindowUp(1, 0)), 0, 0)
  {
    assert DisplacesOne(n, WindowUp(1, 0), 0, 0);
    StepLoses(p, n, WindowUp(1, 0), 0, 0);
  }

  /** A match that lists a node twice: both STARTs reach the node under one key, both
      schedules open a window for their first prompt, and the second takes the
      place of the first, which stays open outside the table. */
  lemma {:induction false} SecondStartDisplaces(p: Suite, server: Bytes, private: Bytes, key: Bytes)
    returns (es: seq<NodeEvent>)
    requires Lawful(p)
    ensures AgreedKey(p, server, Base64.Encode(p.pub(private))).Some?
    ensures
      var pubkey := Base64.Encode(p.pub(private));
      es == [Registered(Base64.Encode(p.pub(server))),
             OnStart(StartOfM(p, server, pubkey, key, 0), 0.0), OnStart(StartOfM(p, server, pubkey, key, 2), 0.0)]
            + [Expire(0, 0, 0.0), WindowUp(0, 0), Expire(1, 0, 0.0), WindowUp(1, 0)]
    ensures Displaced(p, private, es) && Lost(HandleAll(p, private, es), 0, 0)
  {
    var n;
    es, n := BothArrive(p, server, private, key);
    es, n := BothOpen(p, private, es, n, key);
    WindowsRightExactly(p, private, es);
  }
}
