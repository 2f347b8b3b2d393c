/** Metrics handlers: each looks the match up, inserts its row, reads the totals
    and hands a leaderboard on, with other handlers and the control plane running
    in between. */
module Ingest {
  import opened Prelude
  import opened Scoring
  import opened ServerCore
  import opened Control
  import opened Safety

  /** A METRICS payload; without a timestamp the server's clock is used. */
  datatype Payload = Payload(
    nodeId: string, matchId: string, terminalId: string, timestamp: Option<real>, idleSeconds: real, tokensUsed: int)

  /** A stored row with the time that was reported for it. */
  datatype Stored = Stored(row: MetricRow, reported: real)

  /** A board given to the score callback by the handler whose row has index `at`. */
  datatype Handed = Handed(matchId: string, at: nat, board: seq<Ranked>)

  datatype Handler =
    | GetRow(payload: Payload)
    | GotRow(payload: Payload, found: Option<MatchRow>)
    | InsertRow(stored: Stored, weights: Weights)
    | Inserted(matchId: string, weights: Weights, at: nat)
    | ReadTotals(matchId: string, weights: Weights, at: nat)
    | GotTotals(matchId: string, weights: Weights, at: nat, totals: seq<Total>)
    | Broadcasting(matchId: string)

  datatype Ingester = Ingester(log: seq<Stored>, handlers: map<nat, Handler>, boards: seq<Handed>)

  const IDLE := Ingester([], map[], [])

  function Rows(log: seq<Stored>): seq<MetricRow> {
    seq(|log|, i requires 0 <= i < |log| => log[i].row)
  }

  function WeightsOf(row: MatchRow): Weights { Weights(row.config.tokenWeight, row.config.idlePenalty) }

  /** `board` is what is to be published of these rows of the match, with the weights
      of its configuration. */
  ghost predicate Publishes(board: seq<Ranked>, log: seq<Stored>, m: string, config: MatchConfig) {
    IsPublished(board, Rows(log), m, Weights(config.tokenWeight, config.idlePenalty))
  }

  datatype IngestEvent =
    | Metrics(id: nat, payload: Payload)
    | Statement(id: nat)
    | Continue(id: nat, now: real)

  /** The database statement a handler waits for. */
  function Query(matches: map<string, MatchRow>, g: Ingester, id: nat): Ingester
    requires id in g.handlers
  {
    match g.handlers[id]
    case GetRow(payload) => g.(handlers := g.handlers[id := GotRow(payload, Lookup(matches, payload.matchId))])
    case InsertRow(stored, w) =>
      g.(log := g.log + [stored], handlers := g.handlers[id := Inserted(stored.row.matchId, w, |g.log|)])
    case ReadTotals(m, w, at) => g.(handlers := g.handlers[id := GotTotals(m, w, at, Totals(Rows(g.log), m))])
    case _ => g
  }

  function NewRow(payload: Payload, t0: real, now: real): Stored {
    var time := if payload.timestamp.Some? then payload.timestamp.value else now;
    Stored(MetricRow(payload.matchId, payload.nodeId, payload.terminalId, time - t0,
                     payload.idleSeconds, payload.tokensUsed), time)
  }

  /** What a handler does when it is resumed. */
  function Proceed(g: Ingester, id: nat, now: real): Ingester
    requires id in g.handlers
  {
    match g.handlers[id]
    case GotRow(payload, found) =>
      if found.None? || found.value.t0.None? then g.(handlers := g.handlers - {id})
      else
        var insert := InsertRow(NewRow(payload, found.value.t0.value, now), WeightsOf(found.value));
        g.(handlers := g.handlers[id := insert])
    case Inserted(m, w, at) => g.(handlers := g.handlers[id := ReadTotals(m, w, at)])
    case GotTotals(m, w, at, totals) =>
      g.(boards := g.boards + [Handed(m, at, Serialize(SortDescending(Scores(totals, w))))],
         handlers := g.handlers[id := Broadcasting(m)])
    case Broadcasting(_) => g.(handlers := g.handlers - {id})
    case _ => g
  }

  function IngestStep(nodes: map<string, NodeRecord>, matches: map<string, MatchRow>, g: Ingester, e: IngestEvent)
    : Ingester
  {
    match e
    case Metrics(id, payload) =>
      if id in g.handlers || payload.nodeId !in nodes then g
      else g.(handlers := g.handlers[id := GetRow(payload)])
    case Statement(id) => if id in g.handlers then Query(matches, g, id) else g
    case Continue(id, now) => if id in g.handlers then Proceed(g, id, now) else g
  }

  // ── boards ─────────────────────────────────────────────────────────────────

  /** `totals` are those of a prefix of the log that reaches past row `at`. */
  ghost predicate OfPrefix(log: seq<Stored>, m: string, at: nat, k: nat, totals: seq<Total>) {
    at < k <= |log| && log[at].row.matchId == m && totals == Totals(Rows(log[..k]), m)
  }

  ghost predicate HandlerSound(matches: map<string, MatchRow>, log: seq<Stored>, h: Handler) {
    match h
    case GotRow(payload, found) =>
      found.Some? ==> payload.matchId in matches && matches[payload.matchId].config == found.value.config
    case InsertRow(stored, w) => stored.row.matchId in matches && w == WeightsOf(matches[stored.row.matchId])
    case Inserted(m, w, at) =>
      m in matches && w == WeightsOf(matches[m]) && at < |log| && log[at].row.matchId == m
    case ReadTotals(m, w, at) =>
      m in matches && w == WeightsOf(matches[m]) && at < |log| && log[at].row.matchId == m
    case GotTotals(m, w, at, totals) =>
      m in matches && w == WeightsOf(matches[m]) && exists k :: OfPrefix(log, m, at, k, totals)
    case _ => true
  }

  ghost predicate HandedSound(matches: map<string, MatchRow>, log: seq<Stored>, h: Handed) {
    h.matchId in matches &&
    exists k, totals :: OfPrefix(log, h.matchId, h.at, k, totals)
      && h.board == Serialize(SortDescending(Scores(totals, WeightsOf(matches[h.matchId]))))
  }

  ghost predicate Sound(matches: map<string, MatchRow>, g: Ingester) {
    && (forall id | id in g.handlers :: HandlerSound(matches, g.log, g.handlers[id]))
    && (forall h <- g.boards :: HandedSound(matches, g.log, h))
  }

  lemma OfPrefixKept(log: seq<Stored>, log': seq<Stored>, m: string, at: nat, k: nat, totals: seq<Total>)
    requires OfPrefix(log, m, at, k, totals) && log <= log'
    ensures OfPrefix(log', m, at, k, totals)
  {
    assert log'[..k] == log[..k];
  }

  lemma HandlerSoundKept(
      matches: map<string, MatchRow>, matches': map<string, MatchRow>, log: seq<Stored>, log': seq<Stored>, h: Handler)
    requires HandlerSound(matches, log, h) && ConfigsKept(matches, matches') && log <= log'
    ensures HandlerSound(matches', log', h)
  {
    if h.GotTotals? {
      var k :| OfPrefix(log, h.matchId, h.at, k, h.totals);
      OfPrefixKept(log, log', h.matchId, h.at, k, h.totals);
    }
  }

  lemma HandedSoundKept(
      matches: map<string, MatchRow>, matches': map<string, MatchRow>, log: seq<Stored>, log': seq<Stored>, h: Handed)
    requires HandedSound(matches, log, h) && ConfigsKept(matches, matches') && log <= log'
    ensures HandedSound(matches', log', h)
  {
    var k, totals :| OfPrefix(log, h.matchId, h.at, k, totals)
      && h.board == Serialize(SortDescending(Scores(totals, WeightsOf(matches[h.matchId]))));
    OfPrefixKept(log, log', h.matchId, h.at, k, totals);
  }

  /** The control plane moves on. */
  lemma SoundLater(matches: map<string, MatchRow>, matches': map<string, MatchRow>, g: Ingester)
    requires Sound(matches, g) && ConfigsKept(matches, matches')
    ensures Sound(matches', g)
  {
    forall id | id in g.handlers ensures HandlerSound(matches', g.log, g.handlers[id]) {
      HandlerSoundKept(matches, matches', g.log, g.log, g.handlers[id]);
    }
    forall h | h in g.boards ensures HandedSound(matches', g.log, h) {
      HandedSoundKept(matches, matches', g.log, g.log, h);
    }
  }

  lemma HandlerMoves(matches: map<string, MatchRow>, g: Ingester, g': Ingester, id: nat)
    requires Sound(matches, g) && g.log <= g'.log
    requires forall c | c in g'.handlers && c != id :: c in g.handlers && g'.handlers[c] == g.handlers[c]
    requires id in g'.handlers ==> HandlerSound(matches, g'.log, g'.handlers[id])
    requires forall h <- g'.boards :: h in g.boards || HandedSound(matches, g'.log, h)
    ensures Sound(matches, g')
  {
    forall c | c in g'.handlers ensures HandlerSound(matches, g'.log, g'.handlers[c]) {
      if c != id { HandlerSoundKept(matches, matches, g.log, g'.log, g.handlers[c]); }
    }
    forall h | h in g'.boards ensures HandedSound(matches, g'.log, h) {
      if h in g.boards { HandedSoundKept(matches, matches, g.log, g'.log, h); }
    }
  }

  lemma IngestSound(nodes: map<string, NodeRecord>, matches: map<string, MatchRow>, g: Ingester, e: IngestEvent)
    requires Sound(matches, g)
    ensures Sound(matches, IngestStep(nodes, matches, g, e))
  {
    var g' := IngestStep(nodes, matches, g, e);
    if e.id in g.handlers { assert HandlerSound(matches, g.log, g.handlers[e.id]); }
    if e.Statement? && e.id in g.handlers && g.handlers[e.id].ReadTotals? {
      var h := g.handlers[e.id];
      assert g.log[..|g.log|] == g.log;
      assert OfPrefix(g.log, h.matchId, h.at, |g.log|, g'.handlers[e.id].totals);
    }
    HandlerMoves(matches, g, g', e.id);
  }

  // ── the last board is complete ─────────────────────────────────────────────

  /** Someone is still going to hand over, or has handed over, the board of the
      complete log of match `m`. */
  ghost predicate Pending(log: seq<Stored>, m: string, h: Handler) {
    || (h.Inserted? && h.matchId == m)
    || (h.ReadTotals? && h.matchId == m)
    || (h.GotTotals? && h.matchId == m && h.totals == Totals(Rows(log), m))
  }

  ghost predicate Complete(matches: map<string, MatchRow>, g: Ingester, m: string, h: Handed) {
    h.matchId == m && m in matches && h.board == Board(Rows(g.log), m, WeightsOf(matches[m]))
  }

  ghost predicate CaughtUp(matches: map<string, MatchRow>, g: Ingester, m: string) {
    || (forall s <- g.log :: s.row.matchId != m)
    || (exists id <- g.handlers :: Pending(g.log, m, g.handlers[id]))
    || (exists h <- g.boards :: Complete(matches, g, m, h))
  }

  lemma CaughtUpLater(matches: map<string, MatchRow>, matches': map<string, MatchRow>, g: Ingester, m: string)
    requires CaughtUp(matches, g, m) && ConfigsKept(matches, matches')
    ensures CaughtUp(matches', g, m)
  {
    if h :| h in g.boards && Complete(matches, g, m, h) { assert Complete(matches', g, m, h); }
  }

  lemma OtherRow(log: seq<Stored>, s: Stored, m: string)
    ensures s.row.matchId != m ==> Totals(Rows(log + [s]), m) == Totals(Rows(log), m)
  {
    assert Rows(log + [s])[..|log|] == Rows(log);
  }

  lemma IngestCatchesUp(
      nodes: map<string, NodeRecord>, matches: map<string, MatchRow>, g: Ingester, e: IngestEvent, m: string)
    requires Sound(matches, g) && CaughtUp(matches, g, m)
    ensures CaughtUp(matches, IngestStep(nodes, matches, g, e), m)
  {
    var g' := IngestStep(nodes, matches, g, e);
    if g'.log != g.log {
      var s := g.handlers[e.id].stored;
      OtherRow(g.log, s, m);
      if s.row.matchId == m {
        assert Pending(g'.log, m, g'.handlers[e.id]);
      } else if id :| id in g.handlers && Pending(g.log, m, g.handlers[id]) {
        assert id != e.id && Pending(g'.log, m, g'.handlers[id]);
      } else if h :| h in g.boards && Complete(matches, g, m, h) {
        assert Complete(matches, g', m, h);
      }
    } else if id :| id in g.handlers && Pending(g.log, m, g.handlers[id]) {
      PendingMoves(nodes, matches, g, e, m, id);
    } else if h :| h in g.boards && Complete(matches, g, m, h) {
      assert h in g'.boards && Complete(matches, g', m, h);
    }
  }

  lemma PendingMoves(
      nodes: map<string, NodeRecord>, matches: map<string, MatchRow>, g: Ingester, e: IngestEvent, m: string, id: nat)
    requires Sound(matches, g) && id in g.handlers && Pending(g.log, m, g.handlers[id])
    requires IngestStep(nodes, matches, g, e).log == g.log
    ensures CaughtUp(matches, IngestStep(nodes, matches, g, e), m)
  {
    var g' := IngestStep(nodes, matches, g, e);
    assert HandlerSound(matches, g.log, g.handlers[id]);
    if id in g'.handlers && Pending(g'.log, m, g'.handlers[id]) {
    } else {
      var h := g'.boards[|g.boards|];
      assert h in g'.boards && Complete(matches, g', m, h);
    }
  }

  // ── times ──────────────────────────────────────────────────────────────────

  /** Rows keep their node and, with the start time of the match, the time that
      was reported. */
  ghost predicate Timed(nodes: map<string, NodeRecord>, matches: map<string, MatchRow>, s: Stored) {
    && s.row.nodeId in nodes && s.row.matchId in matches && matches[s.row.matchId].t0.Some?
    && s.row.tRel + matches[s.row.matchId].t0.value == s.reported
  }

  ghost predicate HandlerTimed(nodes: map<string, NodeRecord>, matches: map<string, MatchRow>, h: Handler) {
    match h
    case GetRow(payload) => payload.nodeId in nodes
    case GotRow(payload, found) =>
      && payload.nodeId in nodes
      && (found.Some? && found.value.t0.Some? ==>
            payload.matchId in matches && matches[payload.matchId].t0 == found.value.t0)
    case InsertRow(stored, _) => Timed(nodes, matches, stored)
    case _ => true
  }

  ghost predicate AllTimed(nodes: map<string, NodeRecord>, matches: map<string, MatchRow>, g: Ingester) {
    && (forall s <- g.log :: Timed(nodes, matches, s))
    && (forall id | id in g.handlers :: HandlerTimed(nodes, matches, g.handlers[id]))
  }

  /** Start times, once stored, stay. */
  ghost predicate ClocksKept(matches: map<string, MatchRow>, matches': map<string, MatchRow>) {
    forall m | m in matches && matches[m].t0.Some? :: m in matches' && matches'[m].t0 == matches[m].t0
  }

  lemma TimedLater(
      nodes: map<string, NodeRecord>, nodes': map<string, NodeRecord>,
      matches: map<string, MatchRow>, matches': map<string, MatchRow>, g: Ingester)
    requires AllTimed(nodes, matches, g) && ClocksKept(matches, matches') && nodes.Keys <= nodes'.Keys
    ensures AllTimed(nodes', matches', g)
  {
    forall n | n in nodes ensures n in nodes' { assert n in nodes.Keys; }
    forall s | s in g.log ensures Timed(nodes', matches', s) { assert Timed(nodes, matches, s); }
    forall id | id in g.handlers ensures HandlerTimed(nodes', matches', g.handlers[id]) {
      assert HandlerTimed(nodes, matches, g.handlers[id]);
    }
  }

  lemma IngestTimed(nodes: map<string, NodeRecord>, matches: map<string, MatchRow>, g: Ingester, e: IngestEvent)
    requires AllTimed(nodes, matches, g)
    ensures AllTimed(nodes, matches, IngestStep(nodes, matches, g, e))
  {
    if e.id in g.handlers { assert HandlerTimed(nodes, matches, g.handlers[e.id]); }
  }
}
