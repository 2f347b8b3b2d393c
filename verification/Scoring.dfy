/** The metrics log, its per-node totals and the leaderboard computed from them. */
module Scoring {
  import opened Prelude
  import opened Sorted
  import NodeOrder

  datatype MetricRow = MetricRow(
    matchId: string, nodeId: string, terminalId: string, tRel: real, idleSeconds: real, tokensUsed: int)

  datatype Total = Total(nodeId: string, tokensUsed: int, idleSeconds: real)
  datatype NodeScore = NodeScore(nodeId: string, tokensUsed: int, idleSeconds: real, score: real)
  datatype Ranked = Ranked(rank: nat, nodeId: string, score: real, tokensUsed: int, idleSeconds: real)
  datatype Weights = Weights(token: real, idle: real)

  // ── totals: one group per node, in node order ──────────────────────────────

  function AddRow(ts: seq<Total>, r: MetricRow): seq<Total> {
    if ts == [] || NodeOrder.Less(r.nodeId, ts[0].nodeId) then
      [Total(r.nodeId, r.tokensUsed, r.idleSeconds)] + ts
    else if r.nodeId == ts[0].nodeId then
      [Total(r.nodeId, ts[0].tokensUsed + r.tokensUsed, ts[0].idleSeconds + r.idleSeconds)] + ts[1..]
    else
      [ts[0]] + AddRow(ts[1..], r)
  }

  function Totals(rows: seq<MetricRow>, m: string): seq<Total> {
    if rows == [] then []
    else
      var before, r := Totals(rows[..|rows| - 1], m), rows[|rows| - 1];
      if r.matchId == m then AddRow(before, r) else before
  }

  // The reference the query is compared with: sums over the rows of a node.

  ghost predicate HasRow(rows: seq<MetricRow>, m: string, n: string) {
    exists r <- rows :: r.matchId == m && r.nodeId == n
  }

  ghost function SumTokens(rows: seq<MetricRow>, m: string, n: string): int {
    if rows == [] then 0
    else
      var r := rows[|rows| - 1];
      SumTokens(rows[..|rows| - 1], m, n) + if r.matchId == m && r.nodeId == n then r.tokensUsed else 0
  }

  ghost function SumIdle(rows: seq<MetricRow>, m: string, n: string): real {
    if rows == [] then 0.0
    else
      var r := rows[|rows| - 1];
      SumIdle(rows[..|rows| - 1], m, n) + if r.matchId == m && r.nodeId == n then r.idleSeconds else 0.0
  }

  ghost function ByNode(): (Total, Total) -> bool {
    (a: Total, b: Total) => NodeOrder.Less(a.nodeId, b.nodeId)
  }

  lemma ByNodeIsStrict()
    ensures StrictOrder(ByNode())
  {
    var lt := ByNode();
    forall x: Total ensures !lt(x, x) { NodeOrder.Irreflexive(x.nodeId); }
    forall x: Total, y: Total, z: Total | lt(x, y) && lt(y, z) ensures lt(x, z) {
      NodeOrder.Transitive(x.nodeId, y.nodeId, z.nodeId);
    }
  }

  function At(ts: seq<Total>, n: string): Option<Total> {
    if ts == [] then None
    else if ts[0].nodeId == n then Some(ts[0])
    else At(ts[1..], n)
  }

  ghost function SumOf(rows: seq<MetricRow>, m: string, n: string): Option<Total> {
    if HasRow(rows, m, n) then Some(Total(n, SumTokens(rows, m, n), SumIdle(rows, m, n))) else None
  }

  /** What `GROUP BY node_id` with two sums means: one group per node that has a
      row, in node order, each holding the sums over its rows. */
  ghost predicate IsGroupBy(ts: seq<Total>, rows: seq<MetricRow>, m: string) {
    SortedBy(ByNode(), ts) && forall n :: At(ts, n) == SumOf(rows, m, n)
  }

  lemma {:induction false} AtFinds(ts: seq<Total>, t: Total)
    requires SortedBy(ByNode(), ts)
    ensures t in ts <==> At(ts, t.nodeId) == Some(t)
  {
    if ts != [] {
      AtFinds(ts[1..], t);
      assert ts == [ts[0]] + ts[1..];
      NodeOrder.Irreflexive(t.nodeId);
      HeadFirst(ByNode(), ts);
    }
  }

  lemma {:induction false} NoGroupBelow(ts: seq<Total>, n: string)
    requires ts == [] || NodeOrder.Less(n, ts[0].nodeId)
    requires SortedBy(ByNode(), ts)
    ensures At(ts, n) == None
  {
    if ts != [] {
      NodeOrder.Irreflexive(n);
      if |ts| > 1 {
        assert ByNode()(ts[0], ts[1]);
        NodeOrder.Transitive(n, ts[0].nodeId, ts[1].nodeId);
      }
      NoGroupBelow(ts[1..], n);
    }
  }

  lemma {:induction false} AddRowAt(ts: seq<Total>, r: MetricRow, n: string)
    requires SortedBy(ByNode(), ts)
    ensures At(AddRow(ts, r), n) ==
      if n != r.nodeId then At(ts, n)
      else if At(ts, n).Some? then
        Some(Total(n, At(ts, n).value.tokensUsed + r.tokensUsed, At(ts, n).value.idleSeconds + r.idleSeconds))
      else Some(Total(n, r.tokensUsed, r.idleSeconds))
  {
    if ts == [] || NodeOrder.Less(r.nodeId, ts[0].nodeId) {
      NoGroupBelow(ts, r.nodeId);
      assert AddRow(ts, r)[1..] == ts;
    } else if r.nodeId == ts[0].nodeId {
      assert AddRow(ts, r)[1..] == ts[1..];
    } else {
      AddRowAt(ts[1..], r, n);
      assert AddRow(ts, r)[1..] == AddRow(ts[1..], r);
    }
  }

  lemma {:induction false} AddRowSorted(ts: seq<Total>, r: MetricRow)
    requires SortedBy(ByNode(), ts)
    ensures SortedBy(ByNode(), AddRow(ts, r))
    ensures forall t <- AddRow(ts, r) :: t.nodeId == r.nodeId || t in ts
  {
    ByNodeIsStrict();
    var head := Total(r.nodeId, r.tokensUsed, r.idleSeconds);
    if ts == [] {
    } else {
      NodeOrder.Connected(r.nodeId, ts[0].nodeId);
      HeadFirst(ByNode(), ts);
      if NodeOrder.Less(r.nodeId, ts[0].nodeId) {
        assert ByNode()(head, ts[0]);
        ConsSorted(ByNode(), head, ts);
      } else if r.nodeId == ts[0].nodeId {
        ConsSorted(ByNode(), AddRow(ts, r)[0], ts[1..]);
      } else {
        AddRowSorted(ts[1..], r);
        ConsSorted(ByNode(), ts[0], AddRow(ts[1..], r));
      }
    }
  }

  lemma SumStep(rows: seq<MetricRow>, r: MetricRow, m: string, n: string)
    ensures SumOf(rows + [r], m, n) ==
      if r.matchId != m || r.nodeId != n then SumOf(rows, m, n)
      else if SumOf(rows, m, n).Some? then
        var t := SumOf(rows, m, n).value;
        Some(Total(n, t.tokensUsed + r.tokensUsed, t.idleSeconds + r.idleSeconds))
      else Some(Total(n, r.tokensUsed, r.idleSeconds))
  {
    assert (rows + [r])[..|rows|] == rows;
    if !HasRow(rows, m, n) { NoRowsNoSum(rows, m, n); }
  }

  lemma {:induction false} NoRowsNoSum(rows: seq<MetricRow>, m: string, n: string)
    requires !HasRow(rows, m, n)
    ensures SumTokens(rows, m, n) == 0 && SumIdle(rows, m, n) == 0.0
  {
    if rows != [] {
      NoRowsNoSum(rows[..|rows| - 1], m, n);
    }
  }

  /** The totals query computes the sums of the reference, group by group. */
  lemma {:induction false} TotalsGroup(rows: seq<MetricRow>, m: string)
    ensures IsGroupBy(Totals(rows, m), rows, m)
  {
    if rows != [] {
      var init, r := rows[..|rows| - 1], rows[|rows| - 1];
      TotalsGroup(init, m);
      assert rows == init + [r];
      AddRowSorted(Totals(init, m), r);
      forall n ensures At(Totals(rows, m), n) == SumOf(rows, m, n) {
        AddRowAt(Totals(init, m), r, n);
        SumStep(init, r, m, n);
      }
    }
  }

  // ── scores ─────────────────────────────────────────────────────────────────

  /** Rounding to an integer, halves to the even neighbour. */
  function HalfEven(y: real): int {
    var down := y.Floor;
    var part := y - down as real;
    if part < 0.5 || (part == 0.5 && down % 2 == 0) then down else down + 1
  }

  function Round4(x: real): real {
    HalfEven(x * 10000.0) as real / 10000.0
  }

  function Exact(t: Total, w: Weights): real {
    t.tokensUsed as real * w.token - t.idleSeconds * w.idle
  }

  function ScoreOf(t: Total, w: Weights): NodeScore {
    NodeScore(t.nodeId, t.tokensUsed, t.idleSeconds, Round4(Exact(t, w)))
  }

  function Scores(ts: seq<Total>, w: Weights): seq<NodeScore> {
    seq(|ts|, i requires 0 <= i < |ts| => ScoreOf(ts[i], w))
  }

  /** An entry goes before the later entries that its score equals. */
  function Place(x: NodeScore, board: seq<NodeScore>): seq<NodeScore> {
    if board == [] || x.score >= board[0].score then [x] + board
    else [board[0]] + Place(x, board[1..])
  }

  /** `sorted(..., key=score, reverse=True)`: descending and stable. */
  function SortDescending(xs: seq<NodeScore>): seq<NodeScore> {
    if xs == [] then [] else Place(xs[0], SortDescending(xs[1..]))
  }

  function Rankings(rows: seq<MetricRow>, m: string, w: Weights): seq<NodeScore> {
    SortDescending(Scores(Totals(rows, m), w))
  }

  function Serialize(board: seq<NodeScore>): seq<Ranked> {
    seq(|board|, i requires 0 <= i < |board| =>
      Ranked(i + 1, board[i].nodeId, board[i].score, board[i].tokensUsed, board[i].idleSeconds))
  }

  function Board(rows: seq<MetricRow>, m: string, w: Weights): seq<Ranked> {
    Serialize(Rankings(rows, m, w))
  }

  /** No integer is nearer, and of two equally near ones the even one is taken. */
  lemma HalfEvenNearest(y: real, k: int)
    ensures var d := HalfEven(y) as real - y; var e := k as real - y;
      && -0.5 <= d <= 0.5
      && (if d < 0.0 then -d else d) <= (if e < 0.0 then -e else e)
      && (d == -e && d != 0.0 ==> HalfEven(y) % 2 == 0)
  {
    var down := y.Floor;
    if k <= down { assert k as real <= down as real; }
    else { assert k >= down + 1; assert k as real >= (down + 1) as real; }
  }

  lemma HalfEvenMonotone(x: real, y: real)
    requires x <= y
    ensures HalfEven(x) <= HalfEven(y)
  {
    assert x.Floor <= y.Floor;
    if x.Floor < y.Floor { assert x.Floor + 1 <= y.Floor; }
  }

  /** Rounding keeps the order of scores and moves each by at most 1/20000. */
  lemma Round4Bounds(x: real, y: real)
    ensures -1.0 / 20000.0 <= Round4(x) - x <= 1.0 / 20000.0
    ensures x <= y ==> Round4(x) <= Round4(y)
  {
    HalfEvenNearest(x * 10000.0, 0);
    if x <= y { HalfEvenMonotone(x * 10000.0, y * 10000.0); }
  }

  // ── the board ──────────────────────────────────────────────────────────────

  /** The order on the board: higher score first, ties in node order. */
  ghost function Above(): (NodeScore, NodeScore) -> bool {
    (a: NodeScore, b: NodeScore) =>
      a.score > b.score || (a.score == b.score && NodeOrder.Less(a.nodeId, b.nodeId))
  }

  lemma AboveIsStrict()
    ensures StrictOrder(Above())
  {
    var lt := Above();
    forall x: NodeScore ensures !lt(x, x) { NodeOrder.Irreflexive(x.nodeId); }
    forall x: NodeScore, y: NodeScore, z: NodeScore | lt(x, y) && lt(y, z) ensures lt(x, z) {
      if x.score == y.score && y.score == z.score {
        NodeOrder.Transitive(x.nodeId, y.nodeId, z.nodeId);
      }
    }
  }

  ghost predicate InNodeOrder(xs: seq<NodeScore>) {
    forall i, j | 0 <= i < j < |xs| :: NodeOrder.Less(xs[i].nodeId, xs[j].nodeId)
  }

  lemma {:induction false} PlaceSorts(x: NodeScore, board: seq<NodeScore>)
    requires SortedBy(Above(), board)
    requires forall y <- board :: NodeOrder.Less(x.nodeId, y.nodeId)
    ensures SortedBy(Above(), Place(x, board))
    ensures multiset(Place(x, board)) == multiset{x} + multiset(board)
  {
    AboveIsStrict();
    if board == [] {
    } else if x.score >= board[0].score {
      HeadFirst(Above(), board);
      assert Above()(x, board[0]);
      ConsSorted(Above(), x, board);
    } else {
      HeadFirst(Above(), board);
      PlaceSorts(x, board[1..]);
      assert board == [board[0]] + board[1..];
      var rest := Place(x, board[1..]);
      forall y | y in rest ensures Above()(board[0], y) {
        assert y in multiset(rest);
      }
      ConsSorted(Above(), board[0], rest);
    }
  }

  /** Stability over entries in node order makes the board sorted by `Above`. */
  lemma {:induction false} SortDescendingSorts(xs: seq<NodeScore>)
    requires InNodeOrder(xs)
    ensures SortedBy(Above(), SortDescending(xs))
    ensures multiset(SortDescending(xs)) == multiset(xs)
  {
    if xs != [] {
      var rest := SortDescending(xs[1..]);
      SortDescendingSorts(xs[1..]);
      assert xs == [xs[0]] + xs[1..];
      forall y | y in rest ensures NodeOrder.Less(xs[0].nodeId, y.nodeId) {
        assert y in multiset(rest);
        assert y in xs[1..];
        var i :| 0 <= i < |xs[1..]| && xs[1..][i] == y;
        assert xs[i + 1] == y;
      }
      PlaceSorts(xs[0], rest);
    }
  }

  /** The reference for the leaderboard: one entry per node with a row, carrying
      its sums and the rounded score of them, highest score first. */
  ghost predicate IsBoard(board: seq<NodeScore>, rows: seq<MetricRow>, m: string, w: Weights) {
    SortedBy(Above(), board) && forall e :: e in board <==> IsEntry(e, rows, m, w)
  }

  ghost predicate IsEntry(e: NodeScore, rows: seq<MetricRow>, m: string, w: Weights) {
    var sum := SumOf(rows, m, e.nodeId);
    sum.Some? && e == ScoreOf(sum.value, w)
  }

  /** The engine computes the reference board, and no other board meets it. */
  lemma RankingsAreBoard(rows: seq<MetricRow>, m: string, w: Weights)
    ensures IsBoard(Rankings(rows, m, w), rows, m, w)
    ensures forall b | IsBoard(b, rows, m, w) :: b == Rankings(rows, m, w)
  {
    var ts := Totals(rows, m);
    var xs, board := Scores(ts, w), Rankings(rows, m, w);
    TotalsGroup(rows, m);
    forall i, j | 0 <= i < j < |xs| ensures NodeOrder.Less(xs[i].nodeId, xs[j].nodeId) {
      assert ByNode()(ts[i], ts[j]);
    }
    SortDescendingSorts(xs);
    forall e ensures e in board <==> IsEntry(e, rows, m, w) {
      assert e in board <==> e in multiset(board);
      assert e in xs <==> e in multiset(xs);
      ScoresFind(ts, rows, m, w, e);
    }
    AboveIsStrict();
    forall b | IsBoard(b, rows, m, w) ensures b == board {
      SortedUnique(Above(), b, board);
    }
  }

  lemma ScoresFind(ts: seq<Total>, rows: seq<MetricRow>, m: string, w: Weights, e: NodeScore)
    requires IsGroupBy(ts, rows, m)
    ensures e in Scores(ts, w) <==> IsEntry(e, rows, m, w)
  {
    var xs := Scores(ts, w);
    assert At(ts, e.nodeId) == SumOf(rows, m, e.nodeId);
    if e in xs {
      var i :| 0 <= i < |xs| && xs[i] == e;
      assert ts[i] in ts;
      AtFinds(ts, ts[i]);
    }
    if IsEntry(e, rows, m, w) {
      var t := SumOf(rows, m, e.nodeId).value;
      AtFinds(ts, t);
      var i :| 0 <= i < |ts| && ts[i] == t;
      assert xs[i] == e;
    }
  }

  // ── what the board does not depend on ──────────────────────────────────────

  lemma {:induction false} SumRemove(rows: seq<MetricRow>, i: nat, m: string, n: string)
    requires i < |rows|
    ensures SumTokens(rows, m, n) == SumTokens(rows[..i] + rows[i + 1..], m, n) +
      if rows[i].matchId == m && rows[i].nodeId == n then rows[i].tokensUsed else 0
    ensures SumIdle(rows, m, n) == SumIdle(rows[..i] + rows[i + 1..], m, n) +
      if rows[i].matchId == m && rows[i].nodeId == n then rows[i].idleSeconds else 0.0
  {
    var last := |rows| - 1;
    if i < last {
      SumRemove(rows[..last], i, m, n);
      var less := rows[..i] + rows[i + 1..];
      assert less[..|less| - 1] == rows[..last][..i] + rows[..last][i + 1..];
      assert less[|less| - 1] == rows[last];
    } else {
      assert rows[..i] + rows[i + 1..] == rows[..last];
    }
  }

  lemma {:induction false} SumPermutes(rows: seq<MetricRow>, other: seq<MetricRow>, m: string, n: string)
    requires multiset(rows) == multiset(other)
    ensures SumTokens(rows, m, n) == SumTokens(other, m, n)
    ensures SumIdle(rows, m, n) == SumIdle(other, m, n)
  {
    assert |multiset(rows)| == |multiset(other)|;
    if rows != [] {
      var last := |rows| - 1;
      var i := SameWithoutLast(rows, other);
      SumRemove(other, i, m, n);
      SumPermutes(rows[..last], other[..i] + other[i + 1..], m, n);
    }
  }

  lemma SameWithoutLast(rows: seq<MetricRow>, other: seq<MetricRow>) returns (i: nat)
    requires multiset(rows) == multiset(other) && rows != []
    ensures i < |other| && other[i] == rows[|rows| - 1]
    ensures multiset(rows[..|rows| - 1]) == multiset(other[..i] + other[i + 1..])
  {
    var last := rows[|rows| - 1];
    assert last in multiset(other);
    i :| 0 <= i < |other| && other[i] == last;
    assert rows == rows[..|rows| - 1] + [last];
    assert other == other[..i] + [last] + other[i + 1..];
    var less := other[..i] + other[i + 1..];
    assert multiset(other) == multiset(less) + multiset{last};
    assert multiset(rows[..|rows| - 1]) == multiset(rows) - multiset{last};
    assert multiset(less) == multiset(other) - multiset{last};
  }

  /** The order in which rows were stored does not matter. */
  lemma BoardPermutes(rows: seq<MetricRow>, other: seq<MetricRow>, m: string, w: Weights)
    requires multiset(rows) == multiset(other)
    ensures Board(rows, m, w) == Board(other, m, w)
  {
    RankingsAreBoard(rows, m, w);
    RankingsAreBoard(other, m, w);
    forall n ensures SumOf(rows, m, n) == SumOf(other, m, n) {
      SumPermutes(rows, other, m, n);
      SameRows(rows, other, m, n);
    }
    assert IsBoard(Rankings(rows, m, w), other, m, w);
  }

  lemma SameRows(rows: seq<MetricRow>, other: seq<MetricRow>, m: string, n: string)
    requires multiset(rows) == multiset(other)
    ensures HasRow(rows, m, n) <==> HasRow(other, m, n)
  {
    forall r ensures r in rows <==> r in other {
      assert r in multiset(rows) <==> r in multiset(other);
    }
  }

  // ── what one more row does ─────────────────────────────────────────────────

  ghost function Without(board: seq<NodeScore>, n: string): seq<NodeScore> {
    if board == [] then []
    else if board[0].nodeId == n then Without(board[1..], n)
    else [board[0]] + Without(board[1..], n)
  }

  lemma {:induction false} WithoutElements(board: seq<NodeScore>, n: string)
    requires SortedBy(Above(), board)
    ensures SortedBy(Above(), Without(board, n))
    ensures forall e :: e in Without(board, n) <==> e in board && e.nodeId != n
  {
    if board != [] {
      var rest := Without(board[1..], n);
      WithoutElements(board[1..], n);
      assert board == [board[0]] + board[1..];
      HeadFirst(Above(), board);
      if board[0].nodeId != n { ConsSorted(Above(), board[0], rest); }
    }
  }

  /** A new row of node `n` leaves every other entry as it was, in the same order. */
  lemma InsertKeepsOthers(rows: seq<MetricRow>, r: MetricRow, m: string, w: Weights)
    ensures Without(Rankings(rows + [r], m, w), r.nodeId) == Without(Rankings(rows, m, w), r.nodeId)
    ensures r.matchId != m ==> Board(rows + [r], m, w) == Board(rows, m, w)
  {
    var before, after := Rankings(rows, m, w), Rankings(rows + [r], m, w);
    RankingsAreBoard(rows, m, w);
    RankingsAreBoard(rows + [r], m, w);
    WithoutElements(before, r.nodeId);
    WithoutElements(after, r.nodeId);
    forall e: NodeScore | e.nodeId != r.nodeId || r.matchId != m ensures e in after <==> e in before {
      SumStep(rows, r, m, e.nodeId);
    }
    AboveIsStrict();
    SortedUnique(Above(), Without(after, r.nodeId), Without(before, r.nodeId));
    if r.matchId != m {
      SortedUnique(Above(), after, before);
    }
  }

  /** If the row adds something non-negative to the weighted sum, the node it
      belongs to does not fall. */
  lemma InsertNeverLowersRank(rows: seq<MetricRow>, r: MetricRow, m: string, w: Weights, i: nat, j: nat)
    requires r.matchId == m && r.tokensUsed as real * w.token - r.idleSeconds * w.idle >= 0.0
    requires i < |Board(rows, m, w)| && Board(rows, m, w)[i].nodeId == r.nodeId
    requires j < |Board(rows + [r], m, w)| && Board(rows + [r], m, w)[j].nodeId == r.nodeId
    ensures Board(rows + [r], m, w)[j].rank <= Board(rows, m, w)[i].rank
    ensures Board(rows + [r], m, w)[j].score >= Board(rows, m, w)[i].score
  {
    var before, after := Rankings(rows, m, w), Rankings(rows + [r], m, w);
    RankingsAreBoard(rows, m, w);
    RankingsAreBoard(rows + [r], m, w);
    assert before[i] in before && after[j] in after;
    AboveIsStrict();
    PlaceCounts(Above(), before, i);
    PlaceCounts(Above(), after, j);
    InsertRaisesScore(rows, r, m, w, before[i], after[j]);
    var over, over' := set e | e in before[..i], set e | e in after[..j];
    forall e | e in over' ensures e in over {
      assert e in after && Above()(e, after[j]);
      StillAbove(rows, r, m, w, before[i], after[j], e);
      assert e in before;
    }
    SubsetSize(over', over);
  }

  lemma InsertRaisesScore(
      rows: seq<MetricRow>, r: MetricRow, m: string, w: Weights, own: NodeScore, own': NodeScore)
    requires r.matchId == m && r.tokensUsed as real * w.token - r.idleSeconds * w.idle >= 0.0
    requires IsEntry(own, rows, m, w) && IsEntry(own', rows + [r], m, w)
    requires own.nodeId == own'.nodeId == r.nodeId
    ensures own'.score >= own.score
  {
    SumStep(rows, r, m, r.nodeId);
    var t, t' := SumOf(rows, m, r.nodeId).value, SumOf(rows + [r], m, r.nodeId).value;
    assert Exact(t', w) == Exact(t, w) + (r.tokensUsed as real * w.token - r.idleSeconds * w.idle);
    Round4Bounds(Exact(t, w), Exact(t', w));
  }

  lemma StillAbove(
      rows: seq<MetricRow>, r: MetricRow, m: string, w: Weights, own: NodeScore, own': NodeScore, e: NodeScore)
    requires r.matchId == m
    requires IsEntry(own', rows + [r], m, w) && IsEntry(e, rows + [r], m, w) && Above()(e, own')
    requires own.nodeId == own'.nodeId == r.nodeId && own'.score >= own.score
    ensures IsEntry(e, rows, m, w) && Above()(e, own)
  {
    NodeOrder.Irreflexive(r.nodeId);
    SumStep(rows, r, m, e.nodeId);
  }

  lemma {:induction false} SubsetSize<T>(a: set<T>, b: set<T>)
    requires a <= b
    ensures |a| <= |b|
  {
    assert |b - a| + |a| == |b - a + a|;
    assert b - a + a == b;
  }

  // ── ranks, sums and the exact scores behind them ───────────────────────────

  ghost function TokenSum(board: seq<NodeScore>): int {
    if board == [] then 0 else board[0].tokensUsed + TokenSum(board[1..])
  }

  ghost function IdleSum(board: seq<NodeScore>): real {
    if board == [] then 0.0 else board[0].idleSeconds + IdleSum(board[1..])
  }

  ghost function MatchTokens(rows: seq<MetricRow>, m: string): int {
    if rows == [] then 0
    else
      var r := rows[|rows| - 1];
      MatchTokens(rows[..|rows| - 1], m) + if r.matchId == m then r.tokensUsed else 0
  }

  ghost function MatchIdle(rows: seq<MetricRow>, m: string): real {
    if rows == [] then 0.0
    else
      var r := rows[|rows| - 1];
      MatchIdle(rows[..|rows| - 1], m) + if r.matchId == m then r.idleSeconds else 0.0
  }

  lemma {:induction false} PlaceSums(x: NodeScore, board: seq<NodeScore>)
    ensures TokenSum(Place(x, board)) == x.tokensUsed + TokenSum(board)
    ensures IdleSum(Place(x, board)) == x.idleSeconds + IdleSum(board)
  {
    if board == [] || x.score >= board[0].score {
      assert Place(x, board)[1..] == board;
    } else {
      PlaceSums(x, board[1..]);
      assert Place(x, board)[1..] == Place(x, board[1..]);
    }
  }

  lemma {:induction false} SortSums(xs: seq<NodeScore>)
    ensures TokenSum(SortDescending(xs)) == TokenSum(xs) && IdleSum(SortDescending(xs)) == IdleSum(xs)
  {
    if xs != [] {
      SortSums(xs[1..]);
      PlaceSums(xs[0], SortDescending(xs[1..]));
    }
  }

  lemma {:induction false} AddRowSums(ts: seq<Total>, r: MetricRow, w: Weights)
    ensures TokenSum(Scores(AddRow(ts, r), w)) == TokenSum(Scores(ts, w)) + r.tokensUsed
    ensures IdleSum(Scores(AddRow(ts, r), w)) == IdleSum(Scores(ts, w)) + r.idleSeconds
  {
    var added := AddRow(ts, r);
    assert Scores(added, w)[1..] == Scores(added[1..], w);
    if ts == [] || NodeOrder.Less(r.nodeId, ts[0].nodeId) {
      assert added[1..] == ts;
    } else {
      assert Scores(ts, w)[1..] == Scores(ts[1..], w);
      if r.nodeId == ts[0].nodeId {
        assert added[1..] == ts[1..];
      } else {
        AddRowSums(ts[1..], r, w);
        assert added[1..] == AddRow(ts[1..], r);
      }
    }
  }

  lemma {:induction false} TotalsSum(rows: seq<MetricRow>, m: string, w: Weights)
    ensures TokenSum(Scores(Totals(rows, m), w)) == MatchTokens(rows, m)
    ensures IdleSum(Scores(Totals(rows, m), w)) == MatchIdle(rows, m)
  {
    if rows != [] {
      TotalsSum(rows[..|rows| - 1], m, w);
      AddRowSums(Totals(rows[..|rows| - 1], m), rows[|rows| - 1], w);
    }
  }

  ghost function PublishedTokens(b: seq<Ranked>): int {
    if b == [] then 0 else b[0].tokensUsed + PublishedTokens(b[1..])
  }

  ghost function PublishedIdle(b: seq<Ranked>): real {
    if b == [] then 0.0 else b[0].idleSeconds + PublishedIdle(b[1..])
  }

  lemma {:induction false} SameSums(b: seq<Ranked>, board: seq<NodeScore>)
    requires |b| == |board|
    requires forall i | 0 <= i < |b| ::
      b[i].tokensUsed == board[i].tokensUsed && b[i].idleSeconds == board[i].idleSeconds
    ensures PublishedTokens(b) == TokenSum(board) && PublishedIdle(b) == IdleSum(board)
  {
    if b != [] { SameSums(b[1..], board[1..]); }
  }

  /** Nothing is lost or counted twice: the published board adds up to the stored
      rows of the match. */
  lemma BoardAddsUp(rows: seq<MetricRow>, m: string, w: Weights)
    ensures PublishedTokens(Board(rows, m, w)) == MatchTokens(rows, m)
    ensures PublishedIdle(Board(rows, m, w)) == MatchIdle(rows, m)
  {
    TotalsSum(rows, m, w);
    SortSums(Scores(Totals(rows, m), w));
    SameSums(Board(rows, m, w), Rankings(rows, m, w));
  }

  // ── the published board, without reference to how it is made ───────────────

  /** `score` is `exact` to four decimal places, `k` of the fourth, halves to the
      even neighbour. */
  ghost predicate Rounds(exact: real, score: real, k: int) {
    var off := exact * 10000.0 - k as real;
    -0.5 <= off <= 0.5 && (off == -0.5 || off == 0.5 ==> k % 2 == 0) && score == k as real / 10000.0
  }

  /** Tokens times token weight minus idle seconds times idle penalty, rounded. */
  ghost predicate IsScore(tokens: int, idle: real, w: Weights, score: real) {
    exists exact, k :: Rounds(exact, score, k) && exact == tokens as real * w.token - idle * w.idle
  }

  /** A line of the board: the sums over the rows of its node and their score. */
  ghost predicate IsLine(line: Ranked, rows: seq<MetricRow>, m: string, w: Weights) {
    && HasRow(rows, m, line.nodeId)
    && line.tokensUsed == SumTokens(rows, m, line.nodeId) && line.idleSeconds == SumIdle(rows, m, line.nodeId)
    && IsScore(line.tokensUsed, line.idleSeconds, w, line.score)
  }

  ghost predicate Lists(b: seq<Ranked>, n: string) { exists i: nat :: i < |b| && b[i].nodeId == n }

  /** Ranks from 1 on, one line per node with a row, higher scores first and equal
      ones in node order. */
  ghost predicate IsPublished(b: seq<Ranked>, rows: seq<MetricRow>, m: string, w: Weights) {
    && (forall i | 0 <= i < |b| :: b[i].rank == i + 1 && IsLine(b[i], rows, m, w))
    && (forall n | HasRow(rows, m, n) :: Lists(b, n))
    && (forall i, j | 0 <= i < j < |b| ::
          b[i].score > b[j].score || (b[i].score == b[j].score && NodeOrder.Less(b[i].nodeId, b[j].nodeId)))
  }

  lemma RoundsOnce(exact: real, score: real, k: int)
    ensures Rounds(exact, score, k) <==> k == HalfEven(exact * 10000.0) && score == Round4(exact)
  {
    var y := exact * 10000.0;
    var down := y.Floor;
    assert down as real <= y < down as real + 1.0;
    if k < down { assert k + 1 <= down; assert k as real + 1.0 <= y; }
    if k > down + 1 { assert k >= down + 2; assert k as real >= y + 1.0; }
  }

  lemma ScoreIsRounded(t: Total, w: Weights, score: real)
    ensures IsScore(t.tokensUsed, t.idleSeconds, w, score) <==> score == ScoreOf(t, w).score
  {
    hide Rounds, Round4;
    var x := Exact(t, w);
    assert x == t.tokensUsed as real * w.token - t.idleSeconds * w.idle;
    var unit := HalfEven(x * 10000.0);
    RoundsOnce(x, score, unit);
    if score == Round4(x) { assert Rounds(x, score, unit); }
    if exact, k :| Rounds(exact, score, k) && exact == t.tokensUsed as real * w.token - t.idleSeconds * w.idle {
      assert exact == x;
      RoundsOnce(x, score, k);
    }
  }

  function Unranked(b: seq<Ranked>): seq<NodeScore> {
    seq(|b|, i requires 0 <= i < |b| => NodeScore(b[i].nodeId, b[i].tokensUsed, b[i].idleSeconds, b[i].score))
  }

  lemma LineIsEntry(line: Ranked, rows: seq<MetricRow>, m: string, w: Weights)
    ensures IsLine(line, rows, m, w)
      <==> IsEntry(NodeScore(line.nodeId, line.tokensUsed, line.idleSeconds, line.score), rows, m, w)
  {
    hide IsScore, Round4, Exact, SumTokens, SumIdle;
    ScoreIsRounded(Total(line.nodeId, line.tokensUsed, line.idleSeconds), w, line.score);
  }

  /** The board that is published is that of the reference, and no other meets it. */
  lemma BoardIsPublished(rows: seq<MetricRow>, m: string, w: Weights, b: seq<Ranked>)
    ensures IsPublished(b, rows, m, w) <==> b == Board(rows, m, w)
  {
    RankingsAreBoard(rows, m, w);
    if IsPublished(b, rows, m, w) {
      PublishedIsBoard(b, rows, m, w);
      assert Unranked(b) == Rankings(rows, m, w);
      assert b == Board(rows, m, w);
    }
    if b == Board(rows, m, w) { BoardPublishes(b, rows, m, w); }
  }

  lemma BoardPublishes(b: seq<Ranked>, rows: seq<MetricRow>, m: string, w: Weights)
    requires b == Board(rows, m, w) && IsBoard(Rankings(rows, m, w), rows, m, w)
    ensures IsPublished(b, rows, m, w)
  {
    var board := Rankings(rows, m, w);
    forall i | 0 <= i < |b| ensures IsLine(b[i], rows, m, w) {
      assert board[i] in board;
      LineIsEntry(b[i], rows, m, w);
    }
    forall n | HasRow(rows, m, n) ensures Lists(b, n) {
      var e := ScoreOf(SumOf(rows, m, n).value, w);
      assert IsEntry(e, rows, m, w);
      var i :| 0 <= i < |board| && board[i] == e;
      assert b[i].nodeId == n;
    }
    forall i, j | 0 <= i < j < |b|
      ensures b[i].score > b[j].score || (b[i].score == b[j].score && NodeOrder.Less(b[i].nodeId, b[j].nodeId))
    {
      assert Above()(board[i], board[j]);
    }
  }

  lemma PublishedIsBoard(b: seq<Ranked>, rows: seq<MetricRow>, m: string, w: Weights)
    requires IsPublished(b, rows, m, w)
    ensures IsBoard(Unranked(b), rows, m, w)
  {
    var board := Unranked(b);
    forall e ensures e in board <==> IsEntry(e, rows, m, w) {
      if e in board {
        var i :| 0 <= i < |board| && board[i] == e;
        LineIsEntry(b[i], rows, m, w);
      }
      if IsEntry(e, rows, m, w) {
        assert Lists(b, e.nodeId);
        var i: nat :| i < |b| && b[i].nodeId == e.nodeId;
        LineIsEntry(b[i], rows, m, w);
        assert board[i] == e;
      }
    }
  }

  /** On the serialized board ranks are 1..n, each node with a row appears once, a
      better rank never has a lower score, and behind every pair of ranks the exact
      scores differ by at most 1/10000 the wrong way. */
  lemma BoardRanks(rows: seq<MetricRow>, m: string, w: Weights, i: nat, j: nat)
    requires i <= j < |Board(rows, m, w)|
    ensures
      var b: seq<Ranked> := Board(rows, m, w);
      var s, t := SumOf(rows, m, b[i].nodeId), SumOf(rows, m, b[j].nodeId);
      && b[i].rank == i + 1 && b[j].rank == j + 1
      && s.Some? && t.Some?
      && (i < j ==>
            && b[i].nodeId != b[j].nodeId
            && (b[i].score > b[j].score || (b[i].score == b[j].score && NodeOrder.Less(b[i].nodeId, b[j].nodeId))))
      && s.value.tokensUsed as real * w.token - s.value.idleSeconds * w.idle
         >= t.value.tokensUsed as real * w.token - t.value.idleSeconds * w.idle - 1.0 / 10000.0
  {
    hide Rankings, SumTokens, SumIdle, Round4;
    var board := Rankings(rows, m, w);
    RankingsAreBoard(rows, m, w);
    assert board[i] in board && board[j] in board;
    assert i < j ==> Above()(board[i], board[j]);
    NodeOrder.Irreflexive(board[i].nodeId);
    CloseScores(SumOf(rows, m, board[i].nodeId).value, SumOf(rows, m, board[j].nodeId).value, w);
  }

  lemma CloseScores(s: Total, t: Total, w: Weights)
    requires ScoreOf(s, w).score >= ScoreOf(t, w).score
    ensures s.tokensUsed as real * w.token - s.idleSeconds * w.idle
      >= t.tokensUsed as real * w.token - t.idleSeconds * w.idle - 1.0 / 10000.0
  {
    hide Round4;
    var x, y := Exact(s, w), Exact(t, w);
    CloseBefore(x, y);
    assert x == s.tokensUsed as real * w.token - s.idleSeconds * w.idle;
    assert y == t.tokensUsed as real * w.token - t.idleSeconds * w.idle;
  }

  lemma CloseBefore(x: real, y: real)
    requires Round4(x) >= Round4(y)
    ensures x >= y - 1.0 / 10000.0
  {
    Round4Bounds(x, 0.0);
    Round4Bounds(y, 0.0);
  }
}
