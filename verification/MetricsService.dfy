/** The metrics store and the ingester as objects, proved against Scoring and
    Ingest. */
module MetricsService {
  import opened Prelude
  import opened Scoring
  import opened ServerCore
  import opened Ingest

  // ── replay ─────────────────────────────────────────────────────────────────

  function InsertByTime(r: MetricRow, rows: seq<MetricRow>): seq<MetricRow> {
    if rows == [] || r.tRel < rows[0].tRel then [r] + rows else [rows[0]] + InsertByTime(r, rows[1..])
  }

  /** The rows of a match by relative time; equal times in the order stored. */
  function Replay(rows: seq<MetricRow>, m: string): seq<MetricRow> {
    if rows == [] then []
    else
      var before, r := Replay(rows[..|rows| - 1], m), rows[|rows| - 1];
      if r.matchId == m then InsertByTime(r, before) else before
  }

  ghost predicate InTime(rows: seq<MetricRow>) {
    forall i, j | 0 <= i < j < |rows| :: rows[i].tRel <= rows[j].tRel
  }

  function OfMatch(rows: seq<MetricRow>, m: string): seq<MetricRow> {
    if rows == [] then []
    else OfMatch(rows[..|rows| - 1], m) + if rows[|rows| - 1].matchId == m then [rows[|rows| - 1]] else []
  }

  lemma {:induction false} InsertByTimeSorts(r: MetricRow, rows: seq<MetricRow>)
    requires InTime(rows)
    ensures InTime(InsertByTime(r, rows))
    ensures multiset(InsertByTime(r, rows)) == multiset(rows) + multiset{r}
  {
    if rows == [] {
    } else if r.tRel < rows[0].tRel {
      ConsInTime(r, rows);
      ConsElements(r, rows);
    } else {
      var first, later, rest := rows[0], rows[1..], InsertByTime(r, rows[1..]);
      InsertByTimeSorts(r, later);
      assert rows == [first] + later;
      ConsElements(first, later);
      ConsElements(first, rest);
      OnlyFrom(r, later, rest);
      ConsInTime(first, rest);
    }
  }

  lemma OnlyFrom(r: MetricRow, rows: seq<MetricRow>, rest: seq<MetricRow>)
    requires multiset(rest) == multiset(rows) + multiset{r}
    ensures forall x <- rest :: x == r || x in rows
  {
    forall x | x in rest ensures x == r || x in rows { assert x in multiset(rest); }
  }

  lemma ConsElements(r: MetricRow, rows: seq<MetricRow>)
    ensures multiset([r] + rows) == multiset(rows) + multiset{r}
  {}

  lemma ConsInTime(r: MetricRow, rows: seq<MetricRow>)
    requires InTime(rows) && (rows == [] || r.tRel <= rows[0].tRel || forall x <- rows :: r.tRel <= x.tRel)
    ensures InTime([r] + rows)
  {
    forall i, j | 0 <= i < j < |[r] + rows| ensures ([r] + rows)[i].tRel <= ([r] + rows)[j].tRel {
      assert ([r] + rows)[j] == rows[j - 1];
    }
  }

  /** Replay keeps exactly the rows of the match and puts them in time order. */
  lemma {:induction false} ReplaySorts(rows: seq<MetricRow>, m: string)
    ensures InTime(Replay(rows, m)) && multiset(Replay(rows, m)) == multiset(OfMatch(rows, m))
  {
    if rows != [] {
      ReplaySorts(rows[..|rows| - 1], m);
      InsertByTimeSorts(rows[|rows| - 1], Replay(rows[..|rows| - 1], m));
    }
  }

  lemma {:induction false} OfMatchElements(rows: seq<MetricRow>, m: string, r: MetricRow)
    ensures r in OfMatch(rows, m) <==> r in rows && r.matchId == m
  {
    if rows != [] {
      OfMatchElements(rows[..|rows| - 1], m, r);
      assert rows == rows[..|rows| - 1] + [rows[|rows| - 1]];
    }
  }

  class MetricsStore {
    var rows: seq<MetricRow>
    ghost var reported: seq<real>

    constructor ()
      ensures rows == [] && reported == []
    {
      rows, reported := [], [];
    }

    method InsertMetric(row: MetricRow, ghost time: real)
      modifies this
      ensures rows == old(rows) + [row] && reported == old(reported) + [time]
    {
      rows, reported := rows + [row], reported + [time];
    }

    /** One group per node with a row, in node order, with the sums of its rows. */
    function GetTotalsPerNode(m: string): (totals: seq<Total>)
      reads this
      ensures IsGroupBy(totals, rows, m)
    {
      TotalsGroup(rows, m);
      Totals(rows, m)
    }

    function GetMetricsForMatch(m: string): (replay: seq<MetricRow>)
      reads this
      ensures InTime(replay) && multiset(replay) == multiset(OfMatch(rows, m))
    {
      ReplaySorts(rows, m);
      Replay(rows, m)
    }
  }

  /** `handlers` are the suspended coroutines. */
  class MetricsIngester {
    const metrics: MetricsStore
    var handlers: map<nat, Handler>
    var boards: seq<Handed>

    constructor (metrics: MetricsStore)
      ensures this.metrics == metrics && handlers == map[] && boards == []
    {
      this.metrics, handlers, boards := metrics, map[], [];
    }

    ghost predicate Valid()
      reads this, metrics
    {
      |metrics.rows| == |metrics.reported|
    }

    ghost function View(): Ingester
      requires Valid()
      reads this, metrics
    {
      Ingester(seq(|metrics.rows|, i requires 0 <= i < |metrics.rows| && Valid() reads this, metrics =>
                 Stored(metrics.rows[i], metrics.reported[i])),
               handlers, boards)
    }

    /** The router hands over the payload of a registered node only. */
    method OnMetrics(nodes: map<string, NodeRecord>, matches: map<string, MatchRow>, id: nat, payload: Payload)
      requires Valid() && id !in handlers
      modifies this
      ensures Valid() && View() == IngestStep(nodes, matches, old(View()), Metrics(id, payload))
    {
      if payload.nodeId in nodes {
        handlers := handlers[id := GetRow(payload)];
      }
    }

    /** The database executes the statement that handler `id` waits for. */
    method Statement(matches: map<string, MatchRow>, id: nat)
      requires Valid() && id in handlers
      modifies this, metrics
      ensures Valid() && View() == Query(matches, old(View()), id)
    {
      ghost var before := View();
      match handlers[id]
      case GetRow(payload) =>
        var found := if payload.matchId in matches then Some(matches[payload.matchId]) else None;
        handlers := handlers[id := GotRow(payload, found)];
      case InsertRow(stored, w) =>
        var at := |metrics.rows|;
        metrics.InsertMetric(stored.row, stored.reported);
        handlers := handlers[id := Inserted(stored.row.matchId, w, at)];
        assert View().log == before.log + [stored];
      case ReadTotals(m, w, at) =>
        assert Rows(before.log) == metrics.rows;
        handlers := handlers[id := GotTotals(m, w, at, metrics.GetTotalsPerNode(m))];
      case _ =>
    }

    /** Handler `id` is resumed: it drops the payload, builds the row, asks for
        the totals, or hands the board over. */
    method Resume(id: nat, now: real)
      requires Valid() && id in handlers
      modifies this
      ensures Valid() && View() == Proceed(old(View()), id, now)
    {
      match handlers[id]
      case GotRow(payload, found) =>
        if found.None? || found.value.t0.None? {
          handlers := handlers - {id};
        } else {
          handlers := handlers[id := InsertRow(NewRow(payload, found.value.t0.value, now), WeightsOf(found.value))];
        }
      case Inserted(m, w, at) => handlers := handlers[id := ReadTotals(m, w, at)];
      case GotTotals(m, w, at, totals) =>
        var rankings := SortDescending(Scores(totals, w));
        boards := boards + [Handed(m, at, Serialize(rankings))];
        handlers := handlers[id := Broadcasting(m)];
      case Broadcasting(_) => handlers := handlers - {id};
      case _ =>
    }
  }
}
