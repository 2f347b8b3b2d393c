/** Why the assumptions are there: concrete runs in which the results fail, of a
    match with one assignment. */
module Overlap {
  import opened Prelude
  import opened Sealing
  import opened ServerCore
  import opened Control
  import opened Safety
  import opened Lifecycle

  /** One more event of a run that has led to `s`. */
  lemma Then(env: Env, es: seq<Event>, s: State, e: Event) returns (es': seq<Event>, s': State)
    requires s == RunAll(env, INIT, es)
    ensures es' == es + [e] && s' == Apply(env, s, e) && s' == RunAll(env, INIT, es')
    ensures SerialRun(env, es') <==> SerialRun(env, es) && Serial(s, e)
  {
    es', s' := es + [e], Apply(env, s, e);
    assert es'[..|es|] == es;
  }

  const SOLO := MatchConfig(60.0, 0.01, 1.0, [Assignment("n", "claude", [PromptEntry(1.0, "go")])])

  /** The readings of both clocks. */
  const NOW := Mono(0.0, 0.0)

  function Row(state: MatchState, t0: Option<real>): MatchRow { MatchRow(SOLO, state, t0) }

  // ── single steps for match "m" ─────────────────────────────────────────────

  /** The only match is "m", and nothing was ever cancelled. */
  ghost predicate Only(s: State, row: MatchRow, calls: map<nat, Call>, timers: map<string, nat>) {
    s.matches == map["m" := row] && s.calls == calls && s.core.timers == timers && s.cancelled == {} && s.cut == {}
  }

  lemma Created(env: Env)
    ensures var s := Apply(env, INIT, Create("m", SOLO));
      Only(s, Row(LOBBY, None), map[], map[]) && s.core == INIT.core.(log := [Wrote("m", LOBBY, None)])
  {}

  lemma LooksUp(env: Env, s: State, row: MatchRow, timers: map<string, nat>)
    requires Only(s, row, map[0 := StartGet("m", 30.0)], timers)
    ensures var s' := Apply(env, s, Database(0));
      Only(s', row, map[0 := StartGot("m", 30.0, Some(row))], timers) && s'.core == s.core
  {}

  lemma Accepts(env: Env, s: State, calls: map<nat, Call>, timers: map<string, nat>, row: MatchRow)
    requires Only(s, row, calls, timers) && 0 in calls && 7 !in calls
    requires calls[0] == StartGot("m", 30.0, Some(Row(LOBBY, None)))
    ensures var s' := Apply(env, s, Resume(0, 0.0, NOW, 7));
      Only(s', row, calls[0 := MarkStarting("m", 30.0, SOLO)], timers) && s'.core == s.core
  {}

  lemma MarksStarting(env: Env, s: State, calls: map<nat, Call>, timers: map<string, nat>, row: MatchRow)
    requires Only(s, row, calls, timers) && 0 in calls && calls[0] == MarkStarting("m", 30.0, SOLO)
    ensures var s' := Apply(env, s, Database(0));
      && Only(s', row.(state := STARTING), calls[0 := MarkedStarting("m", 30.0, SOLO)], timers)
      && s'.core == s.core.(log := s.core.log + [Wrote("m", STARTING, None)])
  {}

  lemma Begun(env: Env, es: seq<Event>, s: State) returns (es': seq<Event>, s': State)
    requires s == RunAll(env, INIT, es) && SerialRun(env, es) && Only(s, Row(LOBBY, None), map[], map[])
    ensures s' == RunAll(env, INIT, es') && SerialRun(env, es') && s'.core == s.core
    ensures Only(s', Row(LOBBY, None), map[0 := StartGot("m", 30.0, Some(Row(LOBBY, None)))], map[])
  {
    es', s' := Then(env, es, s, BeginStart(0, "m", 30.0));
    assert s'.calls == map[0 := StartGet("m", 30.0)];
    LooksUp(env, s', Row(LOBBY, None), map[]);
    es', s' := Then(env, es', s', Database(0));
  }

  // ── overlapping calls ──────────────────────────────────────────────────────

  /** Task 0 is suspended in `call`, task 1 is a stop in `stop`. */
  ghost predicate Both(s: State, state: MatchState, call: Call, stop: Call) {
    Only(s, Row(state, None), map[0 := call, 1 := stop], map[]) && s.core.nodes == map[]
  }

  lemma StopBegins(env: Env, s: State, call: Call)
    requires Only(s, Row(LOBBY, None), map[0 := call], map[]) && s.core.nodes == map[]
    ensures Both(Apply(env, s, BeginStop(1, "m")), LOBBY, call, StopGet("m"))
  {}

  lemma StopLooksUp(env: Env, s: State, call: Call)
    requires Both(s, LOBBY, call, StopGet("m"))
    ensures Both(Apply(env, s, Database(1)), LOBBY, call, StopGot("m", Some(Row(LOBBY, None))))
  {}

  /** Nobody is registered, so there is nobody to send STOP to. */
  lemma StopResumes(env: Env, s: State, call: Call)
    requires Both(s, LOBBY, call, StopGot("m", Some(Row(LOBBY, None))))
    ensures Both(Apply(env, s, Resume(1, 0.0, NOW, 7)), LOBBY, call, MarkFinished("m"))
  {
    var popped := s.core.(timers := s.core.timers - {"m"});
    assert StopFrom(popped, "m", SOLO, 0) == StopFrom(popped, "m", SOLO, 1);
    assert AfterStopGet(s.core, "m", Some(Row(LOBBY, None))) ==
      Goes(popped.(matchKeys := popped.matchKeys - {"m"}), Await(MarkFinished("m")));
  }

  lemma StopMarks(env: Env, s: State, call: Call)
    requires Both(s, LOBBY, call, MarkFinished("m"))
    ensures var s' := Apply(env, s, Database(1));
      Both(s', FINISHED, call, MarkedFinished("m")) && s'.core.log == s.core.log + [Wrote("m", FINISHED, None)]
  {}

  /** A stop that runs while call 0 is suspended elsewhere. */
  lemma StopsMeanwhile(env: Env, es: seq<Event>, s: State, call: Call) returns (es': seq<Event>, s': State)
    requires s == RunAll(env, INIT, es) && Only(s, Row(LOBBY, None), map[0 := call], map[]) && s.core.nodes == map[]
    requires OnMatch(s, 0, "m")
    ensures s' == RunAll(env, INIT, es') && !SerialRun(env, es')
    ensures Both(s', FINISHED, call, MarkedFinished("m")) && Wrote("m", FINISHED, None) in s'.core.log
  {
    assert !Serial(s, BeginStop(1, "m"));
    StopBegins(env, s, call);
    es', s' := Then(env, es, s, BeginStop(1, "m"));
    StopLooksUp(env, s', call);
    es', s' := Then(env, es', s', Database(1));
    StopResumes(env, s', call);
    es', s' := Then(env, es', s', Resume(1, 0.0, NOW, 7));
    StopMarks(env, s', call);
    es', s' := Then(env, es', s', Database(1));
    assert s'.core.log[|s'.core.log| - 1] == Wrote("m", FINISHED, None);
  }

  /** A start and a stop of one match overlap; the start, held up after its lookup,
      takes the match out of FINISHED again. */
  lemma OverlapReopens(env: Env) returns (es: seq<Event>)
    ensures !SerialRun(env, es)
    ensures var s := RunAll(env, INIT, es);
      "m" in s.matches && s.matches["m"].state == STARTING && Wrote("m", FINISHED, None) in s.core.log
  {
    var s := INIT;
    es := [];
    Created(env);
    es, s := Then(env, es, s, Create("m", SOLO));
    es, s := Begun(env, es, s);
    es, s := StopsMeanwhile(env, es, s, s.calls[0]);
    Accepts(env, s, s.calls, map[], Row(FINISHED, None));
    es, s := Then(env, es, s, Resume(0, 0.0, NOW, 7));
    MarksStarting(env, s, s.calls, map[], Row(FINISHED, None));
    es, s := Then(env, es, s, Database(0));
  }

  // ── an auto-stop that cancels itself ───────────────────────────────────────

  /** The server knows node "n" and its token, and `pubkey` can be used. */
  ghost predicate Admits(env: Env, pubkey: string) {
    "n" in env.tokens && env.tokens["n"] == "t" && WellFormedKey(env.p, pubkey) && pubkey != ""
  }

  function Hello(pubkey: string): Event {
    Register([], RegisterRequest("n", "t", "host", "ip", pubkey))
  }

  ghost predicate Enrolled(core: Core, state: NodeState) {
    "n" in core.nodes && core.nodes["n"].state == state && "n" in core.sessions
  }

  lemma Enrols(env: Env, s: State, pubkey: string)
    requires Admits(env, pubkey) && s.core.nodes == map[] && Only(s, Row(LOBBY, None), map[], map[])
    ensures var s' := Apply(env, s, Hello(pubkey));
      && Only(s', Row(LOBBY, None), map[], map[])
      && Enrolled(s'.core, Ready) && s'.core.matchKeys == s.core.matchKeys
  {
    Answered(env.p, env.tokens, s.core, [], Hello(pubkey).req);
    AcceptedEffect(env.p, env.tokens, s.core, [], Hello(pubkey).req);
  }

  lemma Polls(env: Env, s: State)
    requires Only(s, Row(STARTING, None), map[0 := MarkedStarting("m", 30.0, SOLO)], map[]) && Enrolled(s.core, Ready)
    ensures var s' := Apply(env, s, Resume(0, 0.0, NOW, 7));
      Only(s', Row(STARTING, None), map[0 := MarkRunning("m", 0.0, SOLO)], map[]) && s'.core == s.core
  {
    assert Expected(SOLO) == {"n"};
    assert Expected(SOLO) <= AllInState(s.core.nodes, Ready);
  }

  lemma MarksRunning(env: Env, s: State)
    requires Only(s, Row(STARTING, None), map[0 := MarkRunning("m", 0.0, SOLO)], map[])
    ensures var s' := Apply(env, s, Database(0));
      && Only(s', Row(RUNNING, Some(0.0)), map[0 := MarkedRunning("m", 0.0, SOLO)], map[])
      && s'.core == s.core.(log := s.core.log + [Wrote("m", RUNNING, Some(0.0))])
  {}

  ghost predicate StartedN(log: seq<Entry>) { exists e <- log :: IsStart(e) && e.to == "n" && e.msg.matchId == "m" }

  ghost predicate StoppedN(log: seq<Entry>) { exists e <- log :: e.Sent? && e.to == "n" && e.msg == Stop("m") }

  lemma Dispatches(env: Env, s: State)
    requires Only(s, Row(RUNNING, Some(0.0)), map[0 := MarkedRunning("m", 0.0, SOLO)], map[])
    requires s.core.matchKeys == map[] && Enrolled(s.core, Ready)
    ensures var s' := Apply(env, s, Resume(0, 0.0, NOW, 7));
      && Only(s', Row(RUNNING, Some(0.0)), map[0 := Starting("m", 0.0, SOLO, 0)], map[])
      && "m" in s'.core.matchKeys && Enrolled(s'.core, Ready) && StartedN(s'.core.log)
  {
    SendsStart(env.p, s.core);
  }

  lemma SendsStart(p: Suite, core: Core)
    requires core.matchKeys == map[] && Enrolled(core, Ready)
    ensures var r := BeginDispatch(p, core, "m", 0.0, SOLO, 7);
      && r.next == Await(Starting("m", 0.0, SOLO, 0)) && r.cancelled == None && r.core.timers == core.timers
      && "m" in r.core.matchKeys && Enrolled(r.core, Ready) && StartedN(r.core.log)
  {
    var r := BeginDispatch(p, core, "m", 0.0, SOLO, 7);
    assert IsStart(r.core.log[|core.log|]);
  }

  lemma Starts(env: Env, s: State)
    requires Only(s, Row(RUNNING, Some(0.0)), map[0 := Starting("m", 0.0, SOLO, 0)], map[])
    requires "m" in s.core.matchKeys && Enrolled(s.core, Ready) && StartedN(s.core.log)
    ensures var s' := Apply(env, s, Resume(0, 0.0, NOW, 7));
      && Only(s', Row(RUNNING, Some(0.0)), map[7 := Asleep("m")], map["m" := 7])
      && "m" in s'.core.matchKeys && Enrolled(s'.core, Running) && StartedN(s'.core.log)
  {
    var marked := s.core.(nodes := UpdateNode(s.core.nodes, "n", Running));
    assert AfterStartSent(env.p, s.core, "m", 0.0, SOLO, 0, 7) == Goes(marked.(timers := map["m" := 7]), Done(Started));
  }

  /** The match runs; its auto-stop is task 7. */
  lemma Ran(env: Env, pubkey: string) returns (es: seq<Event>, s: State)
    requires Admits(env, pubkey)
    ensures s == RunAll(env, INIT, es) && SerialRun(env, es)
    ensures Only(s, Row(RUNNING, Some(0.0)), map[7 := Asleep("m")], map["m" := 7])
    ensures "m" in s.core.matchKeys && Enrolled(s.core, Running) && StartedN(s.core.log)
  {
    es, s := Announced(env, pubkey);
    Polls(env, s);
    es, s := Then(env, es, s, Resume(0, 0.0, NOW, 7));
    MarksRunning(env, s);
    es, s := Then(env, es, s, Database(0));
    Dispatches(env, s);
    es, s := Then(env, es, s, Resume(0, 0.0, NOW, 7));
    Starts(env, s);
    es, s := Then(env, es, s, Resume(0, 0.0, NOW, 7));
  }

  lemma Announced(env: Env, pubkey: string) returns (es: seq<Event>, s: State)
    requires Admits(env, pubkey)
    ensures s == RunAll(env, INIT, es) && SerialRun(env, es) && s.core.matchKeys == map[] && Enrolled(s.core, Ready)
    ensures Only(s, Row(STARTING, None), map[0 := MarkedStarting("m", 30.0, SOLO)], map[])
  {
    es, s := [], INIT;
    Created(env);
    es, s := Then(env, es, s, Create("m", SOLO));
    Enrols(env, s, pubkey);
    es, s := Then(env, es, s, Hello(pubkey));
    es, s := Begun(env, es, s);
    Accepts(env, s, s.calls, map[], Row(LOBBY, None));
    es, s := Then(env, es, s, Resume(0, 0.0, NOW, 7));
    MarksStarting(env, s, s.calls, map[], Row(LOBBY, None));
    es, s := Then(env, es, s, Database(0));
    assert s.calls == map[0 := MarkedStarting("m", 30.0, SOLO)];
  }

  lemma Wakes(env: Env, s: State, row: MatchRow)
    requires Only(s, row, map[7 := Asleep("m")], map["m" := 7])
    ensures var s1 := Apply(env, s, Wake(7));
      var s2 := Apply(env, s1, Database(7));
      && Only(s1, row, map[7 := StopGet("m")], map["m" := 7]) && s1.core == s.core
      && Only(s2, row, map[7 := StopGot("m", Some(row))], map["m" := 7]) && s2.core == s.core
  {
    var s1 := Apply(env, s, Wake(7));
    assert s1.calls == map[7 := StopGet("m")];
  }

  lemma CancelsItself(env: Env, s: State)
    requires Only(s, Row(RUNNING, Some(0.0)), map[7 := StopGot("m", Some(Row(RUNNING, Some(0.0))))], map["m" := 7])
    requires "m" in s.core.matchKeys && Enrolled(s.core, Running) && StartedN(s.core.log)
    ensures var s' := Apply(env, s, Resume(7, 60.0, NOW, 8));
      && s'.matches == s.matches && s'.calls == map[7 := Stopping("m", SOLO, 0)] && s'.cancelled == {7}
      && s'.core.timers == map[] && "m" in s'.core.matchKeys && Enrolled(s'.core, Running)
      && StartedN(s'.core.log) && StoppedN(s'.core.log)
  {
    var popped := s.core.(timers := s.core.timers - {"m"});
    var sent := Send(popped, "n", s.core.nodes["n"].identity, Stop("m"));
    assert AfterStopGet(s.core, "m", Some(Row(RUNNING, Some(0.0)))) ==
      Stretch(sent, Await(Stopping("m", SOLO, 0)), Some(7));
    assert popped.timers == map[];
    assert sent.log[|s.core.log|].msg == Stop("m");
  }

  lemma IsCutShort(env: Env, s: State)
    requires s.calls == map[7 := Stopping("m", SOLO, 0)] && s.cancelled == {7}
    ensures var s' := Apply(env, s, Abort(7));
      && s'.matches == s.matches && s'.calls == map[] && "m" in s'.cut
      && s'.core == s.core.(log := s.core.log + [Ended("m", Cancelled)])
  {}

  lemma LogKeeps(log: seq<Entry>, e: Entry)
    ensures StartedN(log) ==> StartedN(log + [e])
    ensures StoppedN(log) ==> StoppedN(log + [e])
  {
    assert forall x <- log :: x in log + [e];
  }

  /** A serialised run: the auto-stop pops its own task, cancels itself and is cut
      short when it awaits its first STOP.  The match stays RUNNING, and its key
      held, without a timer; the node is still taken for RUNNING. */
  lemma {:induction false} AutoStopCutShort(env: Env, pubkey: string) returns (es: seq<Event>)
    requires Admits(env, pubkey)
    ensures SerialRun(env, es)
    ensures var s := RunAll(env, INIT, es);
      && "m" in s.matches && s.matches["m"].state == RUNNING && !Busy(s, "m")
      && "m" in s.cut && "m" !in s.core.timers && "m" in s.core.matchKeys
      && StartedN(s.core.log) && StoppedN(s.core.log) && Enrolled(s.core, Running)
  {
    var s;
    es, s := Ran(env, pubkey);
    Wakes(env, s, Row(RUNNING, Some(0.0)));
    es, s := Then(env, es, s, Wake(7));
    es, s := Then(env, es, s, Database(7));
    CancelsItself(env, s);
    es, s := Then(env, es, s, Resume(7, 60.0, NOW, 8));
    IsCutShort(env, s);
    LogKeeps(s.core.log, Ended("m", Cancelled));
    es, s := Then(env, es, s, Abort(7));
  }
}
