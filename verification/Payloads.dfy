/** What becomes of one metrics payload while everything else goes on. */
module Payloads {
  import opened Prelude
  import opened ServerCore
  import opened Control
  import opened Ingest
  import opened System

  function StepsFrom(env: Env, s: Server, hs: seq<Happening>): Server {
    if hs == [] then s else Happen(env, StepsFrom(env, s, hs[..|hs| - 1]), hs[|hs| - 1])
  }

  /** Whatever happens, none of it is a step of handler `id`. */
  ghost predicate Leaves(hs: seq<Happening>, id: nat) {
    forall h <- hs :: h.Ing? ==> h.i.id != id
  }

  ghost predicate SameHandler(g: Ingester, g': Ingester, id: nat) {
    (id in g'.handlers <==> id in g.handlers) && (id in g.handlers ==> g'.handlers[id] == g.handlers[id])
  }

  lemma {:induction false} HandlerWaits(env: Env, s: Server, hs: seq<Happening>, id: nat)
    requires Leaves(hs, id)
    ensures SameHandler(s.ing, StepsFrom(env, s, hs).ing, id)
  {
    if hs != [] {
      var init, h := hs[..|hs| - 1], hs[|hs| - 1];
      HandlerWaits(env, s, init, id);
      assert h in hs;
      OtherStep(env, StepsFrom(env, s, init), h, id);
    }
  }

  lemma OtherStep(env: Env, s: Server, h: Happening, id: nat)
    requires h.Ing? ==> h.i.id != id
    ensures SameHandler(s.ing, Happen(env, s, h).ing, id)
  {}

  /** The handler after each of its four steps, with anything in between. */
  datatype Journey = Journey(
    arrival: Server, lookup: Server, built: Server, stored: Server, after: Server)

  function Travel(
      env: Env, s: Server, id: nat, payload: Payload, now: real,
      a: seq<Happening>, b: seq<Happening>, c: seq<Happening>): Journey
  {
    var lookup := StepsFrom(env, Happen(env, s, Ing(Metrics(id, payload))), a);
    var built := StepsFrom(env, Happen(env, lookup, Ing(Statement(id))), b);
    var stored := StepsFrom(env, Happen(env, built, Ing(Continue(id, now))), c);
    Journey(s, lookup, built, stored, Happen(env, stored, Ing(Statement(id))))
  }

  /** `stored` is the payload, at the time it names or else at `now`, relative to `t0`. */
  ghost predicate StoredAs(stored: Stored, payload: Payload, t0: real, now: real) {
    && stored.reported == (match payload.timestamp case None => now case Some(time) => time)
    && stored.row.tRel == stored.reported - t0
    && stored.row.matchId == payload.matchId && stored.row.nodeId == payload.nodeId
    && stored.row.terminalId == payload.terminalId
    && stored.row.idleSeconds == payload.idleSeconds && stored.row.tokensUsed == payload.tokensUsed
  }

  /** A payload is stored, once, as it is and with its time relative to t0, if and
      only if its node is registered when it arrives and its lookup finds a row with
      t0; otherwise it leaves no trace. */
  lemma PayloadStoredExactly(
      env: Env, s: Server, id: nat, payload: Payload, now: real,
      a: seq<Happening>, b: seq<Happening>, c: seq<Happening>)
    requires id !in s.ing.handlers && Leaves(a, id) && Leaves(b, id) && Leaves(c, id)
    ensures
      var j := Travel(env, s, id, payload, now, a, b, c);
      var row := Lookup(j.lookup.ctl.matches, payload.matchId);
      && Happen(env, j.arrival, Ing(Metrics(id, payload))).ing.log == j.arrival.ing.log
      && Happen(env, j.lookup, Ing(Statement(id))).ing.log == j.lookup.ing.log
      && Happen(env, j.built, Ing(Continue(id, now))).ing.log == j.built.ing.log
      && var before, after := j.stored.ing.log, j.after.ing.log;
      && if payload.nodeId in j.arrival.ctl.core.nodes && row.Some? && row.value.t0.Some? then
           && |after| == |before| + 1 && after[..|before|] == before
           && StoredAs(after[|before|], payload, row.value.t0.value, now)
         else after == before
  {
    var j := Travel(env, s, id, payload, now, a, b, c);
    var s1 := Happen(env, s, Ing(Metrics(id, payload)));
    var s3 := Happen(env, j.lookup, Ing(Statement(id)));
    var s5 := Happen(env, j.built, Ing(Continue(id, now)));
    HandlerWaits(env, s1, a, id);
    HandlerWaits(env, s3, b, id);
    HandlerWaits(env, s5, c, id);
    if payload.nodeId in s.ctl.core.nodes {
      assert j.lookup.ing.handlers[id] == GetRow(payload);
      assert j.built.ing.handlers[id] == GotRow(payload, Lookup(j.lookup.ctl.matches, payload.matchId));
    } else {
      assert id !in j.lookup.ing.handlers && id !in j.built.ing.handlers && id !in j.stored.ing.handlers;
    }
  }
}
