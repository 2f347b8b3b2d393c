/** The control plane and the metrics handlers on one event loop. */
module System {
  import opened Prelude
  import opened Scoring
  import opened ServerCore
  import opened Control
  import opened Safety
  import opened Lifecycle
  import opened History
  import opened Ingest
  import MetricsService

  datatype Server = Server(ctl: State, ing: Ingester)
  datatype Happening = Ctl(e: Event) | Ing(i: IngestEvent)

  const BOOT := Server(Control.INIT, IDLE)

  function Happen(env: Env, s: Server, h: Happening): Server {
    match h
    case Ctl(e) => s.(ctl := Apply(env, s.ctl, e))
    case Ing(i) => s.(ing := IngestStep(s.ctl.core.nodes, s.ctl.matches, s.ing, i))
  }

  function Steps(env: Env, hs: seq<Happening>): Server {
    if hs == [] then BOOT else Happen(env, Steps(env, hs[..|hs| - 1]), hs[|hs| - 1])
  }

  /** The control events of a run, and the run of the control plane they make. */
  function Controls(hs: seq<Happening>): seq<Event> {
    if hs == [] then []
    else
      var h := hs[|hs| - 1];
      Controls(hs[..|hs| - 1]) + if h.Ctl? then [h.e] else []
  }

  lemma {:induction false} ControlRuns(env: Env, hs: seq<Happening>)
    ensures Steps(env, hs).ctl == RunAll(env, Control.INIT, Controls(hs))
  {
    if hs != [] {
      var init, h := hs[..|hs| - 1], hs[|hs| - 1];
      ControlRuns(env, init);
      var es := Controls(init);
      if h.Ctl? { assert (es + [h.e])[..|es|] == es; } else { assert es + [] == es; }
    }
  }

  lemma NodesStay(env: Env, s: State, e: Event)
    requires Safe(env.p, s)
    ensures s.core.nodes.Keys <= Apply(env, s, e).core.nodes.Keys
  {
    match e
    case Register(identity, req) => RegisterLog(env.p, env.tokens, s.core, identity, req);
    case Resume(id, now, mono, task) =>
      if id in s.calls && task !in s.calls {
        assert CallFaithful(s.matches, s.calls[id]);
        RunSafe(env.p, s.core, s.matches, s.calls[id], now, mono, task);
        var r := Run(env.p, s.core, s.calls[id], now, mono, task);
        if r.Some? { SettleLog(s, id, s.calls[id].matchId, r.value, task); }
      }
    case _ =>
  }

  /** In serialised runs a stored start time is never written again. */
  lemma ClocksStay(env: Env, s: State, e: Event)
    requires AllOrderly(s)
    ensures ClocksKept(s.matches, Apply(env, s, e).matches)
  {
    if e.Database? {
      if e.id in s.calls && s.calls[e.id].MarkRunning? {
        var m := s.calls[e.id].matchId;
        assert OnMatch(s, e.id, m) && Orderly(s, m) && Fits(s, s.calls[e.id]);
      }
    } else if !e.Create? {
      WritesNothing(env, s, e);
    }
  }

  lemma {:induction false} StepsSound(env: Env, hs: seq<Happening>)
    ensures Sound(Steps(env, hs).ctl.matches, Steps(env, hs).ing)
  {
    if hs != [] {
      var s, h := Steps(env, hs[..|hs| - 1]), hs[|hs| - 1];
      StepsSound(env, hs[..|hs| - 1]);
      match h
      case Ctl(e) =>
        ConfigsStay(env, s.ctl, e);
        SoundLater(s.ctl.matches, Happen(env, s, h).ctl.matches, s.ing);
      case Ing(i) => IngestSound(s.ctl.core.nodes, s.ctl.matches, s.ing, i);
    }
  }

  lemma {:induction false} StepsCatchUp(env: Env, hs: seq<Happening>, m: string)
    ensures CaughtUp(Steps(env, hs).ctl.matches, Steps(env, hs).ing, m)
  {
    if hs != [] {
      var s, h := Steps(env, hs[..|hs| - 1]), hs[|hs| - 1];
      StepsCatchUp(env, hs[..|hs| - 1], m);
      StepsSound(env, hs[..|hs| - 1]);
      match h
      case Ctl(e) =>
        ConfigsStay(env, s.ctl, e);
        CaughtUpLater(s.ctl.matches, Happen(env, s, h).ctl.matches, s.ing, m);
      case Ing(i) => IngestCatchesUp(s.ctl.core.nodes, s.ctl.matches, s.ing, i, m);
    }
  }

  lemma {:induction false} StepsTimed(env: Env, hs: seq<Happening>)
    requires SerialRun(env, Controls(hs))
    ensures var s := Steps(env, hs); AllTimed(s.ctl.core.nodes, s.ctl.matches, s.ing)
  {
    if hs != [] {
      var init, h := hs[..|hs| - 1], hs[|hs| - 1];
      var s := Steps(env, init);
      ControlRuns(env, init);
      if h.Ctl? {
        var es := Controls(init);
        assert Controls(hs) == es + [h.e] && Controls(hs)[..|es|] == es;
        StepsTimed(env, init);
        RunsSafe(env, es);
        RunsOrderly(env, es);
        NodesStay(env, s.ctl, h.e);
        ClocksStay(env, s.ctl, h.e);
        var s' := Happen(env, s, h);
        TimedLater(s.ctl.core.nodes, s'.ctl.core.nodes, s.ctl.matches, s'.ctl.matches, s.ing);
      } else {
        assert Controls(hs) == Controls(init);
        StepsTimed(env, init);
        IngestTimed(s.ctl.core.nodes, s.ctl.matches, s.ing, h.i);
      }
    }
  }

  // ── the results ────────────────────────────────────────────────────────────

  /** In every run, every board handed over is the board of some prefix of the
      log that contains the row which caused it. */
  lemma {:induction false} BoardsComeFromPrefixes(env: Env, hs: seq<Happening>, i: nat) returns (k: nat)
    requires i < |Steps(env, hs).ing.boards|
    ensures
      var s := Steps(env, hs);
      var h := s.ing.boards[i];
      && h.at < k <= |s.ing.log| && s.ing.log[h.at].row.matchId == h.matchId && h.matchId in s.ctl.matches
      && Publishes(h.board, s.ing.log[..k], h.matchId, s.ctl.matches[h.matchId].config)
  {
    StepsSound(env, hs);
    var s := Steps(env, hs);
    var h := s.ing.boards[i];
    assert HandedSound(s.ctl.matches, s.ing.log, h);
    var totals;
    k, totals :| OfPrefix(s.ing.log, h.matchId, h.at, k, totals)
      && h.board == Serialize(SortDescending(Scores(totals, WeightsOf(s.ctl.matches[h.matchId]))));
    BoardIsPublished(Rows(s.ing.log[..k]), h.matchId, WeightsOf(s.ctl.matches[h.matchId]), h.board);
  }

  /** Once every handler that has stored a row of the match has handed its board
      over, a board of the complete log has been handed over. */
  lemma {:induction false} CompleteBoardHanded(env: Env, hs: seq<Happening>, m: string) returns (h: Handed)
    requires exists s <- Steps(env, hs).ing.log :: s.row.matchId == m
    requires forall id | id in Steps(env, hs).ing.handlers ::
      var x := Steps(env, hs).ing.handlers[id];
      x.GetRow? || x.GotRow? || x.InsertRow? || x.matchId != m || x.Broadcasting?
    ensures
      var s := Steps(env, hs);
      && h in s.ing.boards && h.matchId == m && m in s.ctl.matches
      && Publishes(h.board, s.ing.log, m, s.ctl.matches[m].config)
  {
    StepsCatchUp(env, hs, m);
    var s := Steps(env, hs);
    assert forall id | id in s.ing.handlers :: !Pending(s.ing.log, m, s.ing.handlers[id]);
    h :| h in s.ing.boards && Complete(s.ctl.matches, s.ing, m, h);
    BoardIsPublished(Rows(s.ing.log), m, WeightsOf(s.ctl.matches[m]), h.board);
  }

  /** In serialised runs a stored row belongs to a registered node, its relative
      time plus the match's start time is the time reported, and rows of one match
      stand in the same order by either. */
  lemma {:induction false} StoredTimes(env: Env, hs: seq<Happening>, i: nat, j: nat)
    requires SerialRun(env, Controls(hs))
    requires i < |Steps(env, hs).ing.log| && j < |Steps(env, hs).ing.log|
    ensures
      var s := Steps(env, hs);
      var a, b := s.ing.log[i], s.ing.log[j];
      && a.row.nodeId in s.ctl.core.nodes && a.row.matchId in s.ctl.matches
      && s.ctl.matches[a.row.matchId].t0.Some?
      && a.row.tRel + s.ctl.matches[a.row.matchId].t0.value == a.reported
      && (a.row.matchId == b.row.matchId ==> (a.row.tRel <= b.row.tRel <==> a.reported <= b.reported))
  {
    StepsTimed(env, hs);
    var s := Steps(env, hs);
    assert s.ing.log[i] in s.ing.log && s.ing.log[j] in s.ing.log;
  }

  /** So reading the rows of a match by relative time replays what was reported
      in the order of the reported times. */
  lemma {:induction false} ReplayFollowsReports(env: Env, hs: seq<Happening>, m: string, i: nat, j: nat)
    returns (a: Stored, b: Stored)
    requires SerialRun(env, Controls(hs))
    requires i < j < |MetricsService.Replay(Rows(Steps(env, hs).ing.log), m)|
    ensures
      var s := Steps(env, hs);
      var replay := MetricsService.Replay(Rows(s.ing.log), m);
      && a in s.ing.log && b in s.ing.log && a.row == replay[i] && b.row == replay[j]
      && a.reported <= b.reported
  {
    var log := Steps(env, hs).ing.log;
    var replay := MetricsService.Replay(Rows(log), m);
    MetricsService.ReplaySorts(Rows(log), m);
    var x := IsStored(log, m, replay[i]);
    var y := IsStored(log, m, replay[j]);
    a, b := log[x], log[y];
    StoredTimes(env, hs, x, y);
  }

  lemma IsStored(log: seq<Stored>, m: string, r: MetricRow) returns (x: nat)
    requires r in MetricsService.Replay(Rows(log), m)
    ensures x < |log| && log[x].row == r && r.matchId == m
  {
    MetricsService.ReplaySorts(Rows(log), m);
    assert r in multiset(MetricsService.Replay(Rows(log), m));
    assert r in multiset(MetricsService.OfMatch(Rows(log), m));
    MetricsService.OfMatchElements(Rows(log), m, r);
    x :| x < |Rows(log)| && Rows(log)[x] == r;
  }
}
