/** Newline-framed messages over a byte stream that arrives in arbitrary chunks:
    the window's receive loop, and the agent runner that feeds it. */
module Framing {
  import opened Prelude

  const NEWLINE: Byte := 10

  // Facts about sequences, kept apart from the recursive functions below.

  lemma AppendNothing<T>(a: seq<T>)
    ensures a + [] == a && [] + a == a
  {}

  lemma AppendLast<T>(a: seq<T>, c: seq<T>)
    requires c != []
    ensures a + c == (a + c[..|c| - 1]) + [c[|c| - 1]]
  {}

  lemma CutAt<T>(b: seq<T>, k: nat)
    requires k < |b|
    ensures b == (b[..k] + [b[k]]) + b[k + 1..]
  {}

  lemma WholePrefix<T>(b: seq<T>)
    ensures b[..|b|] == b
  {}

  lemma NextSuffix<T>(s: seq<T>, i: nat)
    requires i < |s|
    ensures s[i..] != [] && s[i..][0] == s[i] && s[i..][1..] == s[i + 1..]
  {}

  /** What follows the last newline. */
  ghost function Rest(b: Bytes): Bytes {
    if b == [] || b[|b| - 1] == NEWLINE then [] else Rest(b[..|b| - 1]) + [b[|b| - 1]]
  }

  /** The complete lines of a stream, without their newlines. */
  ghost function Lines(b: Bytes): seq<Bytes> {
    if b == [] then []
    else Lines(b[..|b| - 1]) + if b[|b| - 1] == NEWLINE then [Rest(b[..|b| - 1])] else []
  }

  lemma OneByte(b: Bytes, x: Byte)
    ensures Lines(b + [x]) == Lines(b) + if x == NEWLINE then [Rest(b)] else []
    ensures Rest(b + [x]) == if x == NEWLINE then [] else Rest(b) + [x]
  {
    assert (b + [x])[..|b|] == b;
  }

  lemma {:induction false} RestHasNoLines(b: Bytes)
    ensures NEWLINE !in Rest(b)
  {
    if b != [] { RestHasNoLines(b[..|b| - 1]); }
  }

  lemma {:induction false} NoLines(b: Bytes)
    requires NEWLINE !in b
    ensures Lines(b) == [] && Rest(b) == b
  {
    if b != [] {
      var init, x := b[..|b| - 1], b[|b| - 1];
      NoLines(init);
      assert b == init + [x];
    }
  }

  lemma LineAlone(line: Bytes)
    requires NEWLINE !in line
    ensures Lines(line) == [] && Rest(line) == line
    ensures Lines(line + [NEWLINE]) == [line] && Rest(line + [NEWLINE]) == []
  {
    NoLines(line);
    OneByte(line, NEWLINE);
  }

  /** Cutting the stream does not change its lines: what is left over from the
      first part goes in front of the second. */
  lemma {:induction false} LinesAppend(a: Bytes, c: Bytes)
    ensures Lines(a + c) == Lines(a) + Lines(Rest(a) + c)
    ensures Rest(a + c) == Rest(Rest(a) + c)
    decreases |c|
  {
    var left := Rest(a);
    if c == [] {
      AppendNothing(a);
      AppendNothing(left);
      RestHasNoLines(a);
      NoLines(left);
      AppendNothing(Lines(a));
    } else {
      var init, x := c[..|c| - 1], c[|c| - 1];
      LinesAppend(a, init);
      AppendLast(a, c);
      AppendLast(left, c);
      OneByte(a + init, x);
      OneByte(left + init, x);
      assert Lines(a) + (Lines(left + init) + if x == NEWLINE then [Rest(left + init)] else [])
        == (Lines(a) + Lines(left + init)) + if x == NEWLINE then [Rest(left + init)] else [];
    }
  }

  /** Where the first newline is. */
  function LineEnd(b: Bytes): (k: nat)
    ensures k <= |b| && NEWLINE !in b[..k] && (k < |b| ==> b[k] == NEWLINE)
  {
    if b == [] || b[0] == NEWLINE then 0
    else
      var k := LineEnd(b[1..]);
      assert b[..k + 1] == [b[0]] + b[1..][..k];
      k + 1
  }

  lemma LinesHead(b: Bytes)
    requires NEWLINE in b
    ensures
      var k := LineEnd(b);
      k < |b| && Lines(b) == [b[..k]] + Lines(b[k + 1..]) && Rest(b) == Rest(b[k + 1..])
  {
    var k := LineEnd(b);
    WholePrefix(b);
    CutAt(b, k);
    LinesAppend(b[..k] + [NEWLINE], b[k + 1..]);
    LineAlone(b[..k]);
    AppendNothing(b[k + 1..]);
  }

  // ── the window ─────────────────────────────────────────────────────────────

  /** One metrics message; an absent field keeps its value. */
  datatype Update = Update(idleSeconds: Option<real>, tokensUsed: Option<int>)

  datatype Metrics = Metrics(idleSeconds: real, tokensUsed: int)

  ghost function Apply(w: Metrics, u: Update): Metrics {
    Metrics(
      if u.idleSeconds.Some? then u.idleSeconds.value else w.idleSeconds,
      if u.tokensUsed.Some? then u.tokensUsed.value else w.tokensUsed)
  }

  ghost function ApplyAll(w: Metrics, us: seq<Update>): Metrics
    decreases |us|
  {
    if us == [] then w else ApplyAll(Apply(w, us[0]), us[1..])
  }

  type Parser = Bytes -> Option<Update>

  /** The messages up to the first line that does not parse. */
  ghost function Parsed(parse: Parser, lines: seq<Bytes>): seq<Update> {
    if lines == [] || parse(lines[0]).None? then []
    else [parse(lines[0]).value] + Parsed(parse, lines[1..])
  }

  ghost predicate AllParse(parse: Parser, lines: seq<Bytes>) {
    forall line <- lines :: parse(line).Some?
  }

  lemma {:induction false} ParsedAppend(parse: Parser, a: seq<Bytes>, b: seq<Bytes>)
    ensures Parsed(parse, a + b) ==
      if AllParse(parse, a) then Parsed(parse, a) + Parsed(parse, b) else Parsed(parse, a)
    ensures AllParse(parse, a) ==> |Parsed(parse, a)| == |a|
  {
    if a == [] {
      assert a + b == b;
    } else {
      var tail := a[1..];
      assert a == [a[0]] + tail;
      assert (a + b)[0] == a[0] && (a + b)[1..] == tail + b;
      ParsedAppend(parse, tail, b);
      if parse(a[0]).Some? {
        var first := [parse(a[0]).value];
        assert AllParse(parse, a) <==> AllParse(parse, tail);
        assert first + (Parsed(parse, tail) + Parsed(parse, b)) == (first + Parsed(parse, tail)) + Parsed(parse, b);
      }
    }
  }

  lemma {:induction false} ApplyAppend(w: Metrics, a: seq<Update>, b: seq<Update>)
    ensures ApplyAll(w, a + b) == ApplyAll(ApplyAll(w, a), b)
    decreases |a|
  {
    if a == [] {
      assert a + b == b;
    } else {
      assert (a + b)[1..] == a[1..] + b;
      ApplyAppend(Apply(w, a[0]), a[1..], b);
    }
  }

  /** The effect of a stream on the window, taken in two parts. */
  lemma EffectInTwo(parse: Parser, w: Metrics, b: Bytes, later: Bytes)
    ensures
      var first, second, all := Lines(b), Lines(Rest(b) + later), Lines(b + later);
      if AllParse(parse, first) then
        && ApplyAll(w, Parsed(parse, all)) == ApplyAll(ApplyAll(w, Parsed(parse, first)), Parsed(parse, second))
        && (AllParse(parse, all) <==> AllParse(parse, second))
        && Rest(b + later) == Rest(Rest(b) + later)
      else Parsed(parse, all) == Parsed(parse, first) && !AllParse(parse, all)
  {
    var first, second := Lines(b), Lines(Rest(b) + later);
    LinesAppend(b, later);
    ParsedAppend(parse, first, second);
    ApplyAppend(w, Parsed(parse, first), Parsed(parse, second));
  }

  /** Window `w` with buffer `buf` still has to go through `later` to end where
      `start` ends after the whole stream. */
  ghost predicate OnTrack(parse: Parser, start: Metrics, stream: Bytes, w: Metrics, buf: Bytes, later: Bytes) {
    && ApplyAll(w, Parsed(parse, Lines(buf + later))) == ApplyAll(start, Parsed(parse, Lines(stream)))
    && (AllParse(parse, Lines(buf + later)) <==> AllParse(parse, Lines(stream)))
    && Rest(buf + later) == Rest(stream)
  }

  lemma OneChunk(
      parse: Parser, start: Metrics, stream: Bytes, w: Metrics, buf: Bytes, chunk: Bytes, later: Bytes)
    requires OnTrack(parse, start, stream, w, buf, chunk + later)
    ensures
      var b := buf + chunk;
      var w' := ApplyAll(w, Parsed(parse, Lines(b)));
      && NEWLINE !in Rest(b)
      && if AllParse(parse, Lines(b)) then OnTrack(parse, start, stream, w', Rest(b), later)
         else !AllParse(parse, Lines(stream)) && w' == ApplyAll(start, Parsed(parse, Lines(stream)))
  {
    assert buf + (chunk + later) == (buf + chunk) + later;
    EffectInTwo(parse, w, buf + chunk, later);
    RestHasNoLines(buf + chunk);
  }

  lemma NothingLeft(parse: Parser, start: Metrics, stream: Bytes, w: Metrics, buf: Bytes)
    requires OnTrack(parse, start, stream, w, buf, []) && NEWLINE !in buf
    ensures w == ApplyAll(start, Parsed(parse, Lines(stream))) && Rest(stream) == buf
  {
    assert buf + [] == buf;
    LineAlone(buf);
  }

  /** What one wait on the socket brings: data (empty at end of stream), the
      five-second timeout, or a reset connection. */
  datatype Receive = Chunk(data: Bytes) | Timeout | Reset

  /** All bytes received before the stream ends. */
  ghost function Stream(events: seq<Receive>): Bytes {
    if events == [] || events[0].Reset? || events[0] == Chunk([]) then []
    else (if events[0].Chunk? then events[0].data else []) + Stream(events[1..])
  }

  /** A reset, or the empty chunk that tells the end of the stream. */
  ghost predicate Ends(e: Receive) { e.Reset? || e == Chunk([]) }

  /** Waits that timed out change nothing, wherever they fall. */
  lemma {:induction false} TimeoutsChangeNothing(before: seq<Receive>, after: seq<Receive>)
    ensures Stream(before + [Timeout] + after) == Stream(before + after)
  {
    if before == [] {
      assert ([Timeout] + after)[1..] == after;
      assert [] + [Timeout] + after == [Timeout] + after && [] + after == after;
    } else {
      TimeoutsChangeNothing(before[1..], after);
      assert (before + [Timeout] + after)[1..] == before[1..] + [Timeout] + after;
      assert (before + after)[1..] == before[1..] + after;
    }
  }

  /** What comes after the end of the stream changes nothing. */
  lemma {:induction false} NothingAfterEnd(before: seq<Receive>, end: Receive, after: seq<Receive>)
    requires Ends(end)
    ensures Stream(before + [end] + after) == Stream(before)
  {
    if before == [] {
      assert ([] + [end] + after)[0] == end;
    } else {
      NothingAfterEnd(before[1..], end, after);
      assert (before + [end] + after)[1..] == before[1..] + [end] + after;
    }
  }

  /** The chunks before the end of the stream are `bytes`, cut at the positions
      `cuts`: event `i` brings what lies between cuts `i` and `i + 1`. */
  ghost predicate Arrive(events: seq<Receive>, bytes: Bytes, cuts: seq<nat>) {
    && 0 < |cuts| <= |events| + 1 && cuts[0] == 0 && cuts[|cuts| - 1] == |bytes|
    && (|cuts| <= |events| ==> Ends(events[|cuts| - 1]))
    && forall i: nat | i < |cuts| - 1 :: Brings(events[i], bytes, cuts, i)
  }

  ghost predicate Brings(e: Receive, bytes: Bytes, cuts: seq<nat>, i: nat)
    requires i < |cuts| - 1
  {
    && !Ends(e) && cuts[i] <= cuts[i + 1] <= |bytes|
    && bytes[cuts[i]..cuts[i + 1]] == if e.Chunk? then e.data else []
  }

  lemma {:induction false} ArrivesFrom(events: seq<Receive>, bytes: Bytes, cuts: seq<nat>, i: nat)
    requires Arrive(events, bytes, cuts) && i < |cuts|
    ensures cuts[i] <= |bytes| && Stream(events[i..]) == bytes[cuts[i]..]
    decreases |cuts| - i
  {
    if i < |cuts| - 1 {
      assert Brings(events[i], bytes, cuts, i);
      ArrivesFrom(events, bytes, cuts, i + 1);
      NextSuffix(events, i);
      assert bytes[cuts[i]..] == bytes[cuts[i]..cuts[i + 1]] + bytes[cuts[i + 1]..];
    } else if i < |events| {
      NextSuffix(events, i);
    }
  }

  /** Whatever comes is some bytes cut somewhere. */
  lemma {:induction false} AlwaysArrive(events: seq<Receive>) returns (bytes: Bytes, cuts: seq<nat>)
    ensures Arrive(events, bytes, cuts)
  {
    if events == [] {
      bytes, cuts := [], [0];
    } else {
      var init, last := events[..|events| - 1], events[|events| - 1];
      bytes, cuts := AlwaysArrive(init);
      assert events == init + [last];
      if |cuts| == |events| && !Ends(last) {
        bytes, cuts := OneMoreArrives(init, last, bytes, cuts);
      } else {
        forall i: nat | i < |cuts| - 1 ensures Brings(events[i], bytes, cuts, i) {
          assert Brings(init[i], bytes, cuts, i);
        }
      }
    }
  }

  lemma OneMoreArrives(init: seq<Receive>, last: Receive, bytes: Bytes, cuts: seq<nat>)
    returns (more: Bytes, cuts': seq<nat>)
    requires Arrive(init, bytes, cuts) && |cuts| == |init| + 1 && !Ends(last)
    ensures Arrive(init + [last], more, cuts')
  {
    var data := if last.Chunk? then last.data else [];
    more := bytes + data;
    cuts' := cuts + [|more|];
    assert more[|bytes|..|more|] == data;
    var events := init + [last];
    forall i: nat | i < |cuts'| - 1 ensures Brings(events[i], more, cuts', i) {
      if i < |init| {
        assert events[i] == init[i];
        assert Brings(init[i], bytes, cuts, i);
        assert more[cuts[i]..cuts[i + 1]] == bytes[cuts[i]..cuts[i + 1]];
      }
    }
  }

  class AgentWindow {
    var idleSeconds: real
    var tokensUsed: int

    constructor ()
      ensures State() == Metrics(0.0, 0)
    {
      idleSeconds, tokensUsed := 0.0, 0;
    }

    ghost function State(): Metrics reads this {
      Metrics(idleSeconds, tokensUsed)
    }

    method ApplyMetrics(u: Update)
      modifies this
      ensures State() == Apply(old(State()), u)
    {
      if u.idleSeconds.Some? { idleSeconds := u.idleSeconds.value; }
      if u.tokensUsed.Some? { tokensUsed := u.tokensUsed.value; }
    }

    /** Applies the complete lines of the buffer, stopping at one that does not parse. */
    method Drain(parse: Parser, buf: Bytes) returns (rest: Bytes, ok: bool)
      modifies this
      ensures State() == ApplyAll(old(State()), Parsed(parse, Lines(buf)))
      ensures ok <==> AllParse(parse, Lines(buf))
      ensures ok ==> rest == Rest(buf)
    {
      rest := buf;
      while NEWLINE in rest
        invariant ApplyAll(State(), Parsed(parse, Lines(rest))) == ApplyAll(old(State()), Parsed(parse, Lines(buf)))
        invariant AllParse(parse, Lines(rest)) <==> AllParse(parse, Lines(buf))
        invariant Rest(rest) == Rest(buf)
        decreases |rest|
      {
        OneLine(parse, State(), rest);
        var k := LineEnd(rest);
        var line := rest[..k];
        rest := rest[k + 1..];
        match parse(line)
        case None =>
          return rest, false;
        case Some(u) =>
          ApplyMetrics(u);
      }
      LineAlone(rest);
      ok := true;
    }

    /** The receive loop.  However the stream is cut, the messages applied are
        those of its complete lines, up to the first that does not parse; such a
        line ends the loop, otherwise the buffer keeps the bytes after the last
        newline. */
    method Collect(parse: Parser, events: seq<Receive>) returns (buf: Bytes)
      modifies this
      ensures State() == ApplyAll(old(State()), Parsed(parse, Lines(Stream(events))))
      ensures AllParse(parse, Lines(Stream(events))) ==> buf == Rest(Stream(events))
    {
      buf := [];
      ghost var stream := Stream(events);
      AppendNothing(stream);
      assert events[0..] == events;
      for i := 0 to |events|
        invariant NEWLINE !in buf
        invariant OnTrack(parse, old(State()), stream, State(), buf, Stream(events[i..]))
      {
        NextSuffix(events, i);
        if events[i].Reset? || events[i] == Chunk([]) {
          NothingLeft(parse, old(State()), stream, State(), buf);
          return;
        }
        if events[i].Chunk? {
          OneChunk(parse, old(State()), stream, State(), buf, events[i].data, Stream(events[i + 1..]));
          var rest, ok := Drain(parse, buf + events[i].data);
          buf := rest;
          if !ok { return; }
        } else {
          AppendNothing(Stream(events[i + 1..]));
        }
      }
      NothingLeft(parse, old(State()), stream, State(), buf);
    }
  }

  /** What the first line of the buffer does to the window. */
  lemma OneLine(parse: Parser, w: Metrics, b: Bytes)
    requires NEWLINE in b
    ensures
      var k := LineEnd(b);
      k < |b| &&
      var line, rest := b[..k], b[k + 1..];
      && Rest(b) == Rest(rest)
      && if parse(line).None? then ApplyAll(w, Parsed(parse, Lines(b))) == w && !AllParse(parse, Lines(b))
         else
           && ApplyAll(w, Parsed(parse, Lines(b))) == ApplyAll(Apply(w, parse(line).value), Parsed(parse, Lines(rest)))
           && (AllParse(parse, Lines(b)) <==> AllParse(parse, Lines(rest)))
  {
    LinesHead(b);
    ParsedFirst(parse, w, b[..LineEnd(b)], Lines(b[LineEnd(b) + 1..]));
  }

  lemma ParsedFirst(parse: Parser, w: Metrics, line: Bytes, lines: seq<Bytes>)
    ensures ApplyAll(w, Parsed(parse, [line] + lines)) ==
      if parse(line).None? then w else ApplyAll(Apply(w, parse(line).value), Parsed(parse, lines))
    ensures AllParse(parse, [line] + lines) <==> parse(line).Some? && AllParse(parse, lines)
  {
    assert ([line] + lines)[1..] == lines;
    if parse(line).Some? {
      assert ([parse(line).value] + Parsed(parse, lines))[1..] == Parsed(parse, lines);
    }
  }

  // ── the other end ──────────────────────────────────────────────────────────

  /** The JSON codec: parsing undoes printing, and printing emits no newline. */
  ghost predicate Codec(encode: Update -> Bytes, parse: Parser) {
    forall u :: NEWLINE !in encode(u) && parse(encode(u)) == Some(u)
  }

  ghost function Frames(encode: Update -> Bytes, us: seq<Update>): Bytes {
    if us == [] then [] else Frames(encode, us[..|us| - 1]) + encode(us[|us| - 1]) + [NEWLINE]
  }

  lemma OneMore(encode: Update -> Bytes, parse: Parser, whole: Bytes, u: Update)
    requires Codec(encode, parse) && Rest(whole) == []
    ensures Lines(whole + encode(u) + [NEWLINE]) == Lines(whole) + [encode(u)]
    ensures Rest(whole + encode(u) + [NEWLINE]) == []
  {
    var line := encode(u);
    assert whole + line + [NEWLINE] == whole + (line + [NEWLINE]);
    LinesAppend(whole, line + [NEWLINE]);
    assert [] + (line + [NEWLINE]) == line + [NEWLINE];
    LineAlone(line);
  }

  /** A stream of whole messages decodes to exactly those messages. */
  lemma {:induction false} FramesDecode(encode: Update -> Bytes, parse: Parser, us: seq<Update>)
    requires Codec(encode, parse)
    ensures Parsed(parse, Lines(Frames(encode, us))) == us && AllParse(parse, Lines(Frames(encode, us)))
    ensures |Lines(Frames(encode, us))| == |us| && Rest(Frames(encode, us)) == []
  {
    if us != [] {
      var init, u := us[..|us| - 1], us[|us| - 1];
      var whole := Frames(encode, init);
      FramesDecode(encode, parse, init);
      OneMore(encode, parse, whole, u);
      ParsedAppend(parse, Lines(whole), [encode(u)]);
      ParsedOne(parse, encode(u), u);
      AppendLast([], us);
      AppendNothing(us);
      AppendNothing(init);
    }
  }

  lemma ParsedOne(parse: Parser, line: Bytes, u: Update)
    requires parse(line) == Some(u)
    ensures Parsed(parse, [line]) == [u]
  {
    assert [line][1..] == [];
  }

  /** Where byte `n` of the stream falls: after `k` whole frames and part of the next. */
  lemma {:induction false} FindFrame(encode: Update -> Bytes, us: seq<Update>, n: nat)
    returns (k: nat, part: Bytes)
    requires n <= |Frames(encode, us)|
    ensures k <= |us| && Frames(encode, us)[..n] == Frames(encode, us[..k]) + part
    ensures if k < |us| then part <= encode(us[k]) && n < |Frames(encode, us[..k + 1])| else part == []
  {
    var all := Frames(encode, us);
    if n == |all| {
      k, part := |us|, [];
      assert us[..k] == us;
    } else {
      var init := us[..|us| - 1];
      var whole, line := Frames(encode, init), encode(us[|us| - 1]);
      if n < |whole| {
        k, part := FindFrame(encode, init, n);
        assert all[..n] == whole[..n];
        assert init[..|init|] == init;
        assert init[..k] == us[..k] && init[..k + 1] == us[..k + 1];
      } else {
        k, part := |init|, line[..n - |whole|];
        assert us[..k + 1] == us;
      }
    }
  }

  /** Whatever part of the sender's stream has arrived, the window has applied
      the first `k` messages and holds back the rest of the bytes, where `k`
      counts the messages that have arrived whole. */
  lemma PartialDelivery(encode: Update -> Bytes, parse: Parser, us: seq<Update>, n: nat) returns (k: nat)
    requires Codec(encode, parse) && n <= |Frames(encode, us)|
    ensures k <= |us| && |Frames(encode, us[..k])| <= n
    ensures k < |us| ==> n < |Frames(encode, us[..k + 1])|
    ensures
      var arrived := Frames(encode, us)[..n];
      && Parsed(parse, Lines(arrived)) == us[..k] && |Lines(arrived)| == k
      && arrived == Frames(encode, us[..k]) + Rest(arrived)
  {
    var part;
    k, part := FindFrame(encode, us, n);
    if k < |us| { assert NEWLINE !in encode(us[k]); }
    FramesDecode(encode, parse, us[..k]);
    TailHeldBack(Frames(encode, us[..k]), part);
  }

  lemma TailHeldBack(whole: Bytes, part: Bytes)
    requires Rest(whole) == [] && NEWLINE !in part
    ensures Lines(whole + part) == Lines(whole) && Rest(whole + part) == part
  {
    LinesAppend(whole, part);
    assert [] + part == part;
    LineAlone(part);
    assert Lines(whole) + [] == Lines(whole);
  }

  ghost function Tokens(counts: seq<nat>): nat {
    if counts == [] then 0 else Tokens(counts[..|counts| - 1]) + counts[|counts| - 1]
  }

  /** One read of the agent's terminal: the token counts found in it and what the
      clock says when it is seen, when the last push is compared with it, when the
      idle time is measured and when the push is noted. */
  datatype Output = Output(counts: seq<nat>, seen: real, checked: real, measured: real, noted: real)

  ghost function TotalTokens(outputs: seq<Output>): nat {
    if outputs == [] then 0
    else TotalTokens(outputs[..|outputs| - 1]) + Tokens(outputs[|outputs| - 1].counts)
  }

  /** When metrics were last pushed, in the loop over these outputs. */
  ghost function LastPush(outputs: seq<Output>, start: real): real {
    if outputs == [] then start
    else
      var before, o := LastPush(outputs[..|outputs| - 1], start), outputs[|outputs| - 1];
      if o.checked - before >= 5.0 then o.noted else before
  }

  /** Output `i` comes five seconds or more after the last push. */
  ghost predicate PushDue(outputs: seq<Output>, start: real, i: nat)
    requires i < |outputs|
  {
    outputs[i].checked - LastPush(outputs[..i], start) >= 5.0
  }

  /** Both fields set, token counts never going down: what the runner sends. */
  ghost predicate Cumulative(us: seq<Update>) {
    && (forall u <- us :: u.idleSeconds.Some? && u.tokensUsed.Some? && u.tokensUsed.value >= 0)
    && (forall i, j | 0 <= i < j < |us| :: us[i].tokensUsed.value <= us[j].tokensUsed.value)
  }

  /** When the clock was last reset before push `x`: at the push before, or at the start. */
  ghost function Before(outputs: seq<Output>, start: real, at: seq<nat>, x: nat): real
    requires x <= |at| && (x > 0 ==> at[x - 1] < |outputs|)
  {
    if x == 0 then start else outputs[at[x - 1]].noted
  }

  lemma {:induction false} LastPushIs(outputs: seq<Output>, start: real, at: seq<nat>, x: nat, i: nat)
    requires i <= |outputs| && x <= |at| && (x > 0 ==> at[x - 1] < i) && (x < |at| ==> i <= at[x])
    requires forall y, z | 0 <= y < z < |at| :: at[y] < at[z]
    requires forall j: nat :: j in at <==> j < |outputs| && PushDue(outputs, start, j)
    ensures LastPush(outputs[..i], start) == Before(outputs, start, at, x)
  {
    if i > 0 {
      assert outputs[..i][..i - 1] == outputs[..i - 1];
      if x > 0 && at[x - 1] == i - 1 {
        assert i - 1 in at;
        LastPushIs(outputs, start, at, x - 1, i - 1);
      } else {
        NotBetween(at, x, i - 1);
        LastPushIs(outputs, start, at, x, i - 1);
      }
    }
  }

  lemma NotBetween(at: seq<nat>, x: nat, i: nat)
    requires forall y, z | 0 <= y < z < |at| :: at[y] < at[z]
    requires x <= |at| && (x > 0 ==> at[x - 1] < i) && (x < |at| ==> i < at[x])
    ensures i !in at
  {
    forall y | 0 <= y < |at| ensures at[y] != i {
      if y < x {
        assert y == x - 1 || at[y] < at[x - 1];
      } else {
        assert y == x || at[x] < at[y];
      }
    }
  }

  /** The rhythm of the pushes: each comes five seconds or more after the one before,
      and no output in between did. */
  ghost predicate InRhythm(outputs: seq<Output>, start: real, at: seq<nat>)
    requires forall x | 0 <= x < |at| :: at[x] < |outputs|
  {
    forall x: nat, i: nat | x <= |at| && i < |outputs| && (x > 0 ==> at[x - 1] < i) && (x < |at| ==> i <= at[x]) ::
      outputs[i].checked - Before(outputs, start, at, x) >= 5.0 <==> x < |at| && i == at[x]
  }

  lemma PushesInRhythm(outputs: seq<Output>, start: real, at: seq<nat>)
    requires forall y, z | 0 <= y < z < |at| :: at[y] < at[z]
    requires forall j: nat :: j in at <==> j < |outputs| && PushDue(outputs, start, j)
    requires forall x | 0 <= x < |at| :: at[x] < |outputs|
    ensures InRhythm(outputs, start, at)
  {
    forall x: nat, i: nat | x <= |at| && i < |outputs| && (x > 0 ==> at[x - 1] < i) && (x < |at| ==> i <= at[x])
      ensures outputs[i].checked - Before(outputs, start, at, x) >= 5.0 <==> x < |at| && i == at[x]
    {
      LastPushIs(outputs, start, at, x, i);
      if x < |at| && i == at[x] {
        assert i in at;
      } else {
        NotBetween(at, x, i);
      }
    }
  }

  /** What is pushed at output `i`: the tokens of all outputs so far. */
  ghost function PushedAt(outputs: seq<Output>, i: nat): Update
    requires i < |outputs|
  {
    Update(Some(outputs[i].measured - outputs[i].seen), Some(TotalTokens(outputs[..i + 1])))
  }

  /** The runner's loop.  It pushes exactly at the outputs `at` that come five
      seconds or more after the push before, and once more at the end. */
  method RunAgent(outputs: seq<Output>, start: real, end: real) returns (pushed: seq<Update>, ghost at: seq<nat>)
    ensures Cumulative(pushed) && |pushed| == |at| + 1
    ensures forall x, y | 0 <= x < y < |at| :: at[x] < at[y]
    ensures forall i: nat :: i in at <==> i < |outputs| && PushDue(outputs, start, i)
    ensures forall x | 0 <= x < |at| :: at[x] < |outputs| && pushed[x] == PushedAt(outputs, at[x])
    ensures InRhythm(outputs, start, at)
    ensures pushed[|at|] ==
      Update(Some(end - if outputs == [] then start else outputs[|outputs| - 1].seen), Some(TotalTokens(outputs)))
  {
    hide Cumulative, InRhythm;
    var tokensUsed: nat := 0;
    var lastOutput, lastPush := start, start;
    pushed, at := [], [];
    for i := 0 to |outputs|
      invariant tokensUsed == TotalTokens(outputs[..i])
      invariant lastOutput == if i == 0 then start else outputs[i - 1].seen
      invariant lastPush == LastPush(outputs[..i], start)
      invariant |pushed| == |at|
      invariant forall x, y | 0 <= x < y < |at| :: at[x] < at[y]
      invariant forall j: nat :: j in at <==> j < i && PushDue(outputs, start, j)
      invariant forall x | 0 <= x < |at| :: at[x] < i && pushed[x] == PushedAt(outputs, at[x])
    {
      lastOutput := outputs[i].seen;
      tokensUsed := AddTokens(tokensUsed, outputs[i].counts);
      assert outputs[..i + 1][..i] == outputs[..i];
      if outputs[i].checked - lastPush >= 5.0 {
        pushed, at := pushed + [Update(Some(outputs[i].measured - lastOutput), Some(tokensUsed))], at + [i];
        lastPush := outputs[i].noted;
      }
    }
    assert outputs[..|outputs|] == outputs;
    pushed := pushed + [Update(Some(end - lastOutput), Some(tokensUsed))];
    PushesCumulate(outputs, pushed, at);
    PushesInRhythm(outputs, start, at);
  }

  /** What RunAgent says about its pushes. */
  ghost predicate PushesRight(outputs: seq<Output>, pushed: seq<Update>, at: seq<nat>) {
    && |pushed| == |at| + 1 && (forall x, y | 0 <= x < y < |at| :: at[x] < at[y])
    && (forall x | 0 <= x < |at| :: at[x] < |outputs| && pushed[x] == PushedAt(outputs, at[x]))
    && pushed[|at|].idleSeconds.Some? && pushed[|at|].tokensUsed == Some(TotalTokens(outputs))
  }

  /** How many outputs push `i` counts. */
  ghost function Upto(outputs: seq<Output>, at: seq<nat>, i: nat): nat {
    if i < |at| then at[i] + 1 else |outputs|
  }

  lemma PushCounts(outputs: seq<Output>, pushed: seq<Update>, at: seq<nat>, i: nat)
    requires PushesRight(outputs, pushed, at) && i < |pushed|
    ensures Upto(outputs, at, i) <= |outputs| && pushed[i].idleSeconds.Some?
    ensures pushed[i].tokensUsed == Some(TotalTokens(outputs[..Upto(outputs, at, i)]))
  {
    WholePrefix(outputs);
    assert i < |at| ==> pushed[i] == PushedAt(outputs, at[i]);
  }

  lemma PushesCumulate(outputs: seq<Output>, pushed: seq<Update>, at: seq<nat>)
    requires PushesRight(outputs, pushed, at)
    ensures Cumulative(pushed)
  {
    forall u | u in pushed ensures u.idleSeconds.Some? && u.tokensUsed.Some? && u.tokensUsed.value >= 0 {
      var i :| 0 <= i < |pushed| && pushed[i] == u;
      PushCounts(outputs, pushed, at, i);
    }
    forall i, j | 0 <= i < j < |pushed| ensures pushed[i].tokensUsed.value <= pushed[j].tokensUsed.value {
      PushCounts(outputs, pushed, at, i);
      PushCounts(outputs, pushed, at, j);
      TotalsGrow(outputs, Upto(outputs, at, i), Upto(outputs, at, j));
    }
  }

  lemma {:induction false} TotalsGrow(outputs: seq<Output>, a: nat, b: nat)
    requires a <= b <= |outputs|
    ensures TotalTokens(outputs[..a]) <= TotalTokens(outputs[..b])
  {
    if a < b {
      TotalsGrow(outputs, a, b - 1);
      assert outputs[..b][..b - 1] == outputs[..b - 1];
    }
  }

  method AddTokens(before: nat, counts: seq<nat>) returns (tokensUsed: nat)
    ensures tokensUsed == before + Tokens(counts)
  {
    tokensUsed := before;
    for j := 0 to |counts|
      invariant tokensUsed == before + Tokens(counts[..j])
    {
      assert counts[..j + 1][..j] == counts[..j];
      tokensUsed := tokensUsed + counts[j];
    }
    assert counts[..|counts|] == counts;
  }

  /** After `k` messages of the runner the window shows the last of them. */
  ghost function LastShown(us: seq<Update>, k: nat): Metrics
    requires Cumulative(us) && k <= |us|
  {
    if k == 0 then Metrics(0.0, 0)
    else
      assert us[k - 1] in us;
      Metrics(us[k - 1].idleSeconds.value, us[k - 1].tokensUsed.value)
  }

  /** Whatever part of the stream has arrived, the window shows the last message
      that arrived whole. */
  lemma ShowsLastWhole(encode: Update -> Bytes, parse: Parser, us: seq<Update>, n: nat) returns (k: nat)
    requires Codec(encode, parse) && Cumulative(us) && n <= |Frames(encode, us)|
    ensures k <= |us| && |Frames(encode, us[..k])| <= n
    ensures k < |us| ==> n < |Frames(encode, us[..k + 1])|
    ensures Shown(encode, parse, us, n) == LastShown(us, k)
  {
    k := PartialDelivery(encode, parse, us, n);
    LastWins(us[..k]);
  }

  /** So its token count never goes down while more of the stream arrives, and all
      of it has arrived when the stream has. */
  lemma WindowFollows(encode: Update -> Bytes, parse: Parser, us: seq<Update>, n: nat, n': nat)
    returns (k: nat, k': nat)
    requires Codec(encode, parse) && Cumulative(us) && n <= n' <= |Frames(encode, us)|
    ensures k <= k' <= |us| && |Frames(encode, us[..k])| <= n && |Frames(encode, us[..k'])| <= n'
    ensures (k < |us| ==> n < |Frames(encode, us[..k + 1])|) && (k' < |us| ==> n' < |Frames(encode, us[..k' + 1])|)
    ensures
      var w, w' := Shown(encode, parse, us, n), Shown(encode, parse, us, n');
      && w == LastShown(us, k) && w' == LastShown(us, k') && w.tokensUsed <= w'.tokensUsed
      && (n' == |Frames(encode, us)| ==> k' == |us|)
  {
    k := ShowsLastWhole(encode, parse, us, n);
    k' := ShowsLastWhole(encode, parse, us, n');
    if k' < k { FramesGrow(encode, us, k' + 1, k); }
    TokensShown(us, k, k');
    if k' < |us| { FramesGrow(encode, us, k' + 1, |us|); }
    WholePrefix(us);
  }

  lemma TokensShown(us: seq<Update>, k: nat, k': nat)
    requires Cumulative(us) && k <= k' <= |us|
    ensures LastShown(us, k).tokensUsed <= LastShown(us, k').tokensUsed
  {
    if k' > 0 { assert us[k' - 1] in us; }
  }

  lemma LastWins(us: seq<Update>)
    requires Cumulative(us)
    ensures ApplyAll(Metrics(0.0, 0), us) ==
      if us == [] then Metrics(0.0, 0)
      else Metrics(us[|us| - 1].idleSeconds.value, us[|us| - 1].tokensUsed.value)
    ensures us != [] ==> us[|us| - 1].tokensUsed.value >= 0
  {
    if us != [] {
      var init, last := us[..|us| - 1], us[|us| - 1];
      assert us == init + [last] && last in us;
      ApplyAppend(Metrics(0.0, 0), init, [last]);
      assert [last][1..] == [];
    }
  }

  /** A fresh window after the first `n` bytes of the stream. */
  ghost function Shown(encode: Update -> Bytes, parse: Parser, us: seq<Update>, n: nat): Metrics
    requires n <= |Frames(encode, us)|
  {
    ApplyAll(Metrics(0.0, 0), Parsed(parse, Lines(Frames(encode, us)[..n])))
  }

  /** A window from its opening to the end of its connection: whenever what arrives
      is the first `n` bytes of the runner's stream, cut anyhow and with timeouts
      anywhere, it ends up showing the last message that arrived whole. */
  method Watch(
      ghost encode: Update -> Bytes, parse: Parser, ghost us: seq<Update>, ghost n: nat, events: seq<Receive>,
      ghost cuts: seq<nat>)
    returns (window: AgentWindow, ghost k: nat)
    requires Codec(encode, parse) && Cumulative(us) && n <= |Frames(encode, us)|
    requires Arrive(events, Frames(encode, us)[..n], cuts)
    ensures k <= |us| && |Frames(encode, us[..k])| <= n && (k < |us| ==> n < |Frames(encode, us[..k + 1])|)
    ensures fresh(window) && window.State() == LastShown(us, k)
  {
    window := new AgentWindow();
    var buf := window.Collect(parse, events);
    k := ShowsLastWhole(encode, parse, us, n);
    ArrivesFrom(events, Frames(encode, us)[..n], cuts, 0);
  }

  // ── messages of any sender ─────────────────────────────────────────────────

  /** Which messages count: those of the lines before the first that does not
      parse, one for one and in order. */
  lemma {:induction false} ParsedUpTo(parse: Parser, lines: seq<Bytes>, k: nat)
    requires k <= |lines| && (forall i | 0 <= i < k :: parse(lines[i]).Some?)
    requires k < |lines| ==> parse(lines[k]).None?
    ensures |Parsed(parse, lines)| == k
    ensures forall i | 0 <= i < k :: Parsed(parse, lines)[i] == parse(lines[i]).value
  {
    if k > 0 {
      ParsedUpTo(parse, lines[1..], k - 1);
      assert forall i | 0 <= i < k - 1 :: lines[1..][i] == lines[i + 1];
    }
  }

  /** Each field shows the last message that had it, or what it was before. */
  lemma {:induction false} FieldsShowLast(w: Metrics, us: seq<Update>, i: nat, j: nat)
    requires i <= |us| && j <= |us|
    requires (i > 0 ==> us[i - 1].idleSeconds.Some?) && forall x | i <= x < |us| :: us[x].idleSeconds.None?
    requires (j > 0 ==> us[j - 1].tokensUsed.Some?) && forall x | j <= x < |us| :: us[x].tokensUsed.None?
    ensures ApplyAll(w, us).idleSeconds == if i > 0 then us[i - 1].idleSeconds.value else w.idleSeconds
    ensures ApplyAll(w, us).tokensUsed == if j > 0 then us[j - 1].tokensUsed.value else w.tokensUsed
    decreases |us|
  {
    if us != [] {
      var w' := Apply(w, us[0]);
      FieldsShowLast(w', us[1..], if i > 0 then i - 1 else 0, if j > 0 then j - 1 else 0);
    }
  }

  lemma {:induction false} FramesGrow(encode: Update -> Bytes, us: seq<Update>, k: nat, k': nat)
    requires k <= |us| && k' <= |us|
    ensures k <= k' ==> |Frames(encode, us[..k])| <= |Frames(encode, us[..k'])|
    decreases k'
  {
    if k < k' {
      FramesGrow(encode, us, k, k' - 1);
      assert us[..k'][..k' - 1] == us[..k' - 1];
    }
  }

  /** The runner's wait for its prompt: the first line of the stream, as soon as
      the chunks hold a newline; None while it is still waiting. */
  method ReceivePrompt(chunks: seq<Bytes>) returns (line: Option<Bytes>)
    ensures line == if Lines(Joined(chunks)) == [] then None else Some(Lines(Joined(chunks))[0])
  {
    var buf := [];
    var i := 0;
    while NEWLINE !in buf
      invariant 0 <= i <= |chunks| && Joined(chunks) == buf + Joined(chunks[i..])
      decreases |chunks| - i
    {
      if i == |chunks| {
        assert Joined(chunks) == buf;
        LineAlone(buf);
        return None;
      }
      assert chunks[i..][1..] == chunks[i + 1..];
      buf := buf + chunks[i];
      i := i + 1;
    }
    var k := LineEnd(buf);
    LinesHead(buf);
    LinesAppend(buf, Joined(chunks[i..]));
    line := Some(buf[..k]);
  }

  ghost function Joined(chunks: seq<Bytes>): Bytes {
    if chunks == [] then [] else chunks[0] + Joined(chunks[1..])
  }
}
