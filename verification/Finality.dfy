/** When FINISHED is final, for all runs, overlapping calls included: exactly when
    no start of the match is on its way to store another state. */
module Finality {
  import opened Prelude
  import opened Sealing
  import opened ServerCore
  import opened Control
  import opened NodeStates

  ghost predicate IsFinished(s: State, m: string) {
    m in s.matches && s.matches[m].state == FINISHED
  }

  /** A start that is past a lookup which saw LOBBY and has not stored RUNNING. */
  ghost predicate Reopening(call: Call, m: string) {
    call.matchId == m &&
    match call
    case StartGot(_, _, row) => row.Some? && row.value.state == LOBBY
    case MarkStarting(_, _, _) => true
    case MarkedStarting(_, _, _) => true
    case Polling(_, _, _) => true
    case MarkLobby(_) => true
    case MarkRunning(_, _, _) => true
    case _ => false
  }

  ghost predicate NoneReopens(s: State, m: string) {
    forall id | id in s.calls :: !Reopening(s.calls[id], m)
  }

  // ── nothing reopens it ─────────────────────────────────────────────────────

  /** A stretch leads into a reopening call only from one. */
  lemma RunReopens(p: Suite, core: Core, call: Call, now: real, mono: Mono, task: nat, m: string)
    requires !Reopening(call, m)
    ensures var r := Run(p, core, call, now, mono, task);
      r.Some? && r.value.next.Await? ==> !Reopening(r.value.next.call, m)
  {
    hide DispatchFrom, StopFrom;
    match call
    case MarkedRunning(own, t0, config) =>
      if own !in core.matchKeys {
        var keyed := core.(matchKeys := core.matchKeys[own := p.urandom(core.drawn, 32)], drawn := core.drawn + 1);
        DispatchLeavesNodes(p, keyed, own, t0, config, 0, task);
      }
    case Starting(own, t0, config, k) =>
      if k < |config.nodes| {
        var marked := core.(nodes := UpdateNode(core.nodes, config.nodes[k].nodeId, Running));
        DispatchLeavesNodes(p, marked, own, t0, config, k + 1, task);
      }
    case StopGot(own, row) =>
      if row.Some? { StopLeavesNodes(core.(timers := core.timers - {own}), own, row.value.config, 0); }
    case Stopping(own, config, k) =>
      if k < |config.nodes| {
        StopLeavesNodes(core.(nodes := UpdateNode(core.nodes, config.nodes[k].nodeId, Ready)), own, config, k + 1);
      }
    case _ =>
  }

  lemma SettleReopens(s: State, id: nat, own: string, r: Stretch, task: nat, m: string)
    requires NoneReopens(s, m) && (r.next.Await? ==> !Reopening(r.next.call, m))
    ensures Settle(s, id, own, r, task).matches == s.matches && NoneReopens(Settle(s, id, own, r, task), m)
  {}

  lemma ExecuteStaysFinished(s: State, id: nat, m: string)
    requires id in s.calls && IsFinished(s, m) && NoneReopens(s, m)
    ensures IsFinished(Execute(s, id), m) && NoneReopens(Execute(s, id), m)
  {
    assert !Reopening(s.calls[id], m);
  }

  lemma StepStaysFinished(env: Env, s: State, e: Event, m: string)
    requires IsFinished(s, m) && NoneReopens(s, m)
    ensures IsFinished(Apply(env, s, e), m) && NoneReopens(Apply(env, s, e), m)
  {
    match e
    case Database(id) => if id in s.calls { ExecuteStaysFinished(s, id, m); }
    case Resume(id, now, mono, task) =>
      if id in s.calls && task !in s.calls {
        RunReopens(env.p, s.core, s.calls[id], now, mono, task, m);
        var r := Run(env.p, s.core, s.calls[id], now, mono, task);
        if r.Some? { SettleReopens(s, id, s.calls[id].matchId, r.value, task, m); }
      }
    case _ => OthersStayFinished(env, s, e, m);
  }

  lemma OthersStayFinished(env: Env, s: State, e: Event, m: string)
    requires !e.Database? && !e.Resume? && IsFinished(s, m) && NoneReopens(s, m)
    ensures IsFinished(Apply(env, s, e), m) && NoneReopens(Apply(env, s, e), m)
  {}

  lemma {:induction false} StaysFinished(env: Env, s: State, more: seq<Event>, m: string)
    requires IsFinished(s, m) && NoneReopens(s, m)
    ensures IsFinished(RunAll(env, s, more), m) && NoneReopens(RunAll(env, s, more), m)
  {
    if more != [] {
      StaysFinished(env, s, more[..|more| - 1], m);
      StepStaysFinished(env, RunAll(env, s, more[..|more| - 1]), more[|more| - 1], m);
    }
  }

  // ── something does ─────────────────────────────────────────────────────────

  lemma RunsOne(env: Env, s: State, e: Event)
    ensures RunAll(env, s, [e]) == Apply(env, s, e)
  {
    assert [e][..0] == [];
  }

  lemma RunsTwo(env: Env, s: State, e: Event, f: Event)
    ensures RunAll(env, s, [e, f]) == Apply(env, Apply(env, s, e), f)
  {
    RunsOne(env, s, e);
    assert [e, f][..1] == [e];
  }

  lemma {:induction false} UnusedTask(ids: set<nat>) returns (task: nat)
    ensures forall id <- ids :: id < task
  {
    task := 0;
    if ids != {} {
      var id :| id in ids;
      var above := UnusedTask(ids - {id});
      task := if above <= id then id + 1 else above;
      forall other | other in ids ensures other < task { assert other == id || other in ids - {id}; }
    }
  }

  lemma StoresAnother(env: Env, s: State, id: nat, m: string)
    requires IsFinished(s, m) && id in s.calls && s.calls[id].matchId == m
    requires s.calls[id].MarkStarting? || s.calls[id].MarkLobby? || s.calls[id].MarkRunning?
    ensures !IsFinished(Apply(env, s, Database(id)), m)
  {}

  /** After one resumption, with a clock that is past the deadline, such a start is
      about to store a state. */
  lemma GetsThere(env: Env, s: State, id: nat, m: string, task: nat) returns (e: Event)
    requires id in s.calls && task !in s.calls && Reopening(s.calls[id], m)
    requires s.calls[id].StartGot? || s.calls[id].MarkedStarting? || s.calls[id].Polling?
    ensures var s' := Apply(env, s, e);
      && s'.matches == s.matches && id in s'.calls && s'.calls[id].matchId == m
      && (s'.calls[id].MarkStarting? || s'.calls[id].MarkLobby? || s'.calls[id].MarkRunning?)
  {
    var late :=
      if s.calls[id].Polling? then s.calls[id].deadline
      else if s.calls[id].MarkedStarting? && s.calls[id].timeout > 0.0 then s.calls[id].timeout
      else 0.0;
    e := Resume(id, 0.0, Mono(0.0, late), task);
  }

  lemma Reopens(env: Env, s: State, id: nat, m: string) returns (more: seq<Event>)
    requires IsFinished(s, m) && id in s.calls && Reopening(s.calls[id], m)
    ensures !IsFinished(RunAll(env, s, more), m)
  {
    if s.calls[id].MarkStarting? || s.calls[id].MarkLobby? || s.calls[id].MarkRunning? {
      more := [Database(id)];
      RunsOne(env, s, Database(id));
      StoresAnother(env, s, id, m);
    } else {
      var task := UnusedTask(s.calls.Keys);
      assert task !in s.calls.Keys;
      var e := GetsThere(env, s, id, m, task);
      more := [e, Database(id)];
      RunsTwo(env, s, e, Database(id));
      StoresAnother(env, Apply(env, s, e), id, m);
    }
  }

  // ── the result ─────────────────────────────────────────────────────────────

  /** From whatever state, a finished match stays finished in every continuation if
      and only if no start of it is past a lookup that saw LOBBY and has not yet
      stored RUNNING. */
  lemma {:induction false} FinishedForGood(env: Env, s: State, m: string)
    requires IsFinished(s, m)
    ensures (forall more :: IsFinished(RunAll(env, s, more), m)) <==> NoneReopens(s, m)
  {
    if NoneReopens(s, m) {
      forall more ensures IsFinished(RunAll(env, s, more), m) { StaysFinished(env, s, more, m); }
    } else {
      var id :| id in s.calls && Reopening(s.calls[id], m);
      var more := Reopens(env, s, id, m);
      assert !IsFinished(RunAll(env, s, more), m);
    }
  }
}
