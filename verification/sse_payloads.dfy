/** `_iter_sse_payloads`: the `(event_type, payload)` pairs carried by the
    `data:` lines of a complete Server-Sent-Events body. Only the `data:`
    field is read; the other fields and the event-dispatch rules of the
    event-stream format are not. The JSON decoder is a parameter:
    `decode(p)` is `Some(v)` when `json.loads(p)` returns `v` and `None`
    when it raises `JSONDecodeError`. */
module SsePayloads {
  import opened Wrappers
  import opened Json
  import opened Text

  const DataPrefix: string := "data:"
  const DoneSentinel: string := "[DONE]"
  const UnknownType: string := "unknown"

  /** One yielded pair; `payload` is always a decoded JSON object. */
  datatype SseEvent = SseEvent(eventType: Json, payload: Json)

  /** Why a line yields nothing. `Undecodable` is the case that logs a
      warning before moving on. */
  datatype SkipReason = NotData | EmptyPayload | Done | Undecodable

  /** What one line of the body contributes. `Crash` is a decoded payload
      that is not a dict: `.get` raises `AttributeError`, which ends the
      generator. */
  datatype LineResult = Skip(reason: SkipReason) | Emit(event: SseEvent) | Crash

  /** The pairs yielded before the generator stopped, and whether it stopped
      by raising rather than by running out of lines. */
  datatype Scan = Scan(events: seq<SseEvent>, crashed: bool)

  /** A line counts as a data line when, stripped, it starts with `data:`. */
  predicate IsDataLine(raw: string) {
    StartsWith(Strip(raw), DataPrefix)
  }

  /** The stripped text after the `data:` prefix of a data line. */
  function DataPayload(raw: string): (p: string)
    requires IsDataLine(raw)
    ensures p == [] || Trimmed(p)
  {
    Strip(Strip(raw)[|DataPrefix|..])
  }

  /** `parsed.get("type", "unknown")` on a decoded object. */
  function EventType(payload: Json): (t: Json)
    requires payload.JObject?
    ensures "type" in payload.fields ==> t == payload.fields["type"]
    ensures "type" !in payload.fields ==> t == JString(UnknownType)
  {
    GetOr(payload.fields, "type", JString(UnknownType))
  }

  /** One iteration of the loop over `body.splitlines()`. */
  function ParseLine(raw: string, decode: string -> Option<Json>): (r: LineResult)
  {
    if !IsDataLine(raw) then Skip(NotData)
    else
      var payload := DataPayload(raw);
      if payload == [] then Skip(EmptyPayload)
      else if payload == DoneSentinel then Skip(Done)
      else match decode(payload)
        case None => Skip(Undecodable)
        case Some(parsed) =>
          if parsed.JObject? then Emit(SseEvent(EventType(parsed), parsed)) else Crash
  }

  /** Which outcome a line has, case by case: non-data lines, empty
      payloads and `[DONE]` are skipped, an undecodable payload is skipped
      with a warning, a decoded object is yielded with its `type`, and any
      other decoded value raises. */
  lemma ParseLineCases(raw: string, decode: string -> Option<Json>)
    ensures var r := ParseLine(raw, decode);
      && (!IsDataLine(raw) <==> r == Skip(NotData))
      && (IsDataLine(raw) ==> (DataPayload(raw) == [] <==> r == Skip(EmptyPayload)))
      && (IsDataLine(raw) ==> (DataPayload(raw) == DoneSentinel <==> r == Skip(Done)))
      && (r == Skip(Undecodable) <==>
            IsDataLine(raw) && DataPayload(raw) !in {[], DoneSentinel} && decode(DataPayload(raw)).None?)
      && (r.Emit? <==>
            IsDataLine(raw) && DataPayload(raw) !in {[], DoneSentinel}
            && decode(DataPayload(raw)).Some? && decode(DataPayload(raw)).value.JObject?)
      && (r.Emit? ==>
            && Some(r.event.payload) == decode(DataPayload(raw))
            && r.event.eventType == EventType(r.event.payload))
      && (r.Crash? <==>
            IsDataLine(raw) && DataPayload(raw) !in {[], DoneSentinel}
            && decode(DataPayload(raw)).Some? && !decode(DataPayload(raw)).value.JObject?)
  {
  }

  /** A yielded pair comes from a data line and is well formed. */
  lemma EmitIsWellFormed(raw: string, decode: string -> Option<Json>)
    requires ParseLine(raw, decode).Emit?
    ensures IsDataLine(raw) && WellFormed(ParseLine(raw, decode).event)
  {
  }

  /** Every yielded pair is a decoded object tagged with its own `type`. */
  predicate WellFormed(e: SseEvent) {
    e.payload.JObject? && e.eventType == EventType(e.payload)
  }

  /** Each line's outcome, in line order. */
  function ParseAll(lines: seq<string>, decode: string -> Option<Json>): (rs: seq<LineResult>)
    ensures |rs| == |lines|
    ensures forall i :: 0 <= i < |lines| ==> rs[i] == ParseLine(lines[i], decode)
  {
    seq(|lines|, i requires 0 <= i < |lines| => ParseLine(lines[i], decode))
  }

  /** Parsing is line by line. */
  lemma ParseAllAppend(a: seq<string>, b: seq<string>, decode: string -> Option<Json>)
    ensures ParseAll(a + b, decode) == ParseAll(a, decode) + ParseAll(b, decode)
  {
    var p, pa, pb := ParseAll(a + b, decode), ParseAll(a, decode), ParseAll(b, decode);
    forall i | 0 <= i < |p| ensures p[i] == (pa + pb)[i] {
      if i < |a| { assert (a + b)[i] == a[i]; } else { assert (a + b)[i] == b[i - |a|]; }
    }
  }

  /** A line `lead + "data:" + gap + p + trail`, with whitespace `lead`,
      `gap` and `trail`, is a data line whose payload is exactly `p`. */
  lemma DataPayloadOfLine(lead: string, gap: string, p: string, trail: string)
    requires AllSpace(lead) && AllSpace(gap) && AllSpace(trail) && Trimmed(p)
    ensures IsDataLine(lead + DataPrefix + gap + p + trail)
    ensures DataPayload(lead + DataPrefix + gap + p + trail) == p
  {
    var raw := lead + DataPrefix + gap + p + trail;
    var rest := gap + p;
    var core := DataPrefix + rest;
    assert raw == lead + core + trail;
    assert Trimmed(core) by {
      assert core[0] == 'd' && core[|core| - 1] == p[|p| - 1];
    }
    StripOfPadded(lead, core, trail);
    assert core[..|DataPrefix|] == DataPrefix && core[|DataPrefix|..] == rest;
    assert rest == gap + p + [];
    StripOfPadded(gap, p, []);
  }

  /** `data: [DONE]`, however padded, yields nothing. */
  lemma DoneLineYieldsNothing(lead: string, gap: string, trail: string, decode: string -> Option<Json>)
    requires AllSpace(lead) && AllSpace(gap) && AllSpace(trail)
    ensures ParseLine(lead + DataPrefix + gap + DoneSentinel + trail, decode) == Skip(Done)
  {
    DataPayloadOfLine(lead, gap, DoneSentinel, trail);
  }

  /** A padded `data:` line whose payload decodes to an object yields that
      object, tagged with its `type`. */
  lemma ObjectLineYieldsEvent(lead: string, gap: string, p: string, trail: string,
                              decode: string -> Option<Json>, obj: Json)
    requires AllSpace(lead) && AllSpace(gap) && AllSpace(trail) && Trimmed(p)
    requires p != DoneSentinel && decode(p) == Some(obj) && obj.JObject?
    ensures ParseLine(lead + DataPrefix + gap + p + trail, decode) == Emit(SseEvent(EventType(obj), obj))
  {
    DataPayloadOfLine(lead, gap, p, trail);
  }

  /** A line whose stripped form starts with a non-space character other
      than `d` is never a data line. */
  lemma OtherFieldIsNotData(raw: string, decode: string -> Option<Json>)
    requires |raw| > 0 && !IsSpace(raw[0]) && raw[0] != 'd'
    ensures ParseLine(raw, decode) == Skip(NotData)
  {
    StripSpec(raw);
    var i, j :| StripSplit(raw, Strip(raw), i, j);
    if i > 0 { SpaceBefore(raw, i, 0); }
    if Strip(raw) != [] { assert Strip(raw)[0] == raw[0]; }
  }

  // ------------------------------------------------- the generator's control

  /** The generator's control flow over the per-line outcomes: skips go on,
      emits are yielded, the first crash ends it. */
  function Run(rs: seq<LineResult>): (r: Scan)
    ensures |r.events| <= |rs|
    ensures forall e :: e in r.events ==> Emit(e) in rs
  {
    if rs == [] then Scan([], false)
    else match rs[0]
      case Skip(_) => Run(rs[1..])
      case Emit(e) =>
        var rest := Run(rs[1..]);
        Scan([e] + rest.events, rest.crashed)
      case Crash => Scan([], true)
  }

  /** Running over `a + b` runs over `a`, then, unless that raised, over `b`. */
  lemma {:induction false} RunAppend(a: seq<LineResult>, b: seq<LineResult>)
    ensures Run(a + b) ==
      (if Run(a).crashed then Run(a)
       else Scan(Run(a).events + Run(b).events, Run(b).crashed))
  {
    if a != [] {
      assert (a + b)[0] == a[0] && (a + b)[1..] == a[1..] + b;
      RunAppend(a[1..], b);
      if a[0].Emit? {
        var e := a[0].event;
        assert [e] + (Run(a[1..]).events + Run(b).events) == ([e] + Run(a[1..]).events) + Run(b).events;
      }
    } else {
      assert a + b == b;
    }
  }

  /** A skipped outcome can be removed without changing anything. */
  lemma SkipIsInvisible(a: seq<LineResult>, s: LineResult, b: seq<LineResult>)
    requires s.Skip?
    ensures Run(a + [s] + b) == Run(a + b)
  {
    RunAppend(a + [s], b);
    RunAppend(a, [s]);
    RunAppend(a, b);
    assert Run([s]) == Scan([], false) by { assert [s][1..] == []; }
    assert Run(a).events + [] == Run(a).events;
  }

  /** The run raises exactly when some outcome is a crash. */
  lemma {:induction false} RunCrashIff(rs: seq<LineResult>)
    ensures Run(rs).crashed <==> Crash in rs
  {
    if rs != [] {
      RunCrashIff(rs[1..]);
      assert rs == [rs[0]] + rs[1..];
    }
  }

  /** `Origins(rs)[k]` is the index of the outcome that yielded event `k`. */
  ghost function Origins(rs: seq<LineResult>): (o: seq<nat>)
    ensures |o| == |Run(rs).events|
  {
    if rs == [] then []
    else
      var o1 := Origins(rs[1..]);
      var tail := seq(|o1|, k requires 0 <= k < |o1| => o1[k] + 1);
      match rs[0]
      case Skip(_) => tail
      case Emit(_) => [0] + tail
      case Crash => []
  }

  /** Event `k` is yielded by outcome `Origins[k]`. */
  lemma {:induction false} OriginsYieldEvents(rs: seq<LineResult>)
    ensures forall k :: 0 <= k < |Origins(rs)| ==>
      Origins(rs)[k] < |rs| && rs[Origins(rs)[k]] == Emit(Run(rs).events[k])
  {
    if rs != [] {
      OriginsYieldEvents(rs[1..]);
      var o1, e1 := Origins(rs[1..]), Run(rs[1..]).events;
      var o, e := Origins(rs), Run(rs).events;
      forall k | 0 <= k < |o| ensures o[k] < |rs| && rs[o[k]] == Emit(e[k]) {
        if rs[0].Skip? {
          assert o[k] == o1[k] + 1 && rs[o1[k] + 1] == rs[1..][o1[k]];
        } else if k > 0 {
          assert o[k] == o1[k - 1] + 1 && e[k] == e1[k - 1];
          assert rs[o1[k - 1] + 1] == rs[1..][o1[k - 1]];
        }
      }
    }
  }

  /** The origins strictly increase. */
  lemma {:induction false} OriginsIncrease(rs: seq<LineResult>)
    ensures forall k, m :: 0 <= k < m < |Origins(rs)| ==> Origins(rs)[k] < Origins(rs)[m]
  {
    if rs != [] {
      OriginsIncrease(rs[1..]);
    }
  }

  /** When the run does not raise, every emitting outcome is an origin. */
  lemma {:induction false} OriginsComplete(rs: seq<LineResult>, i: int)
    requires !Run(rs).crashed
    requires 0 <= i < |rs| && rs[i].Emit?
    ensures i in Origins(rs)
  {
    var o := Origins(rs);
    if i == 0 {
      assert o[0] == 0;
    } else {
      assert rs[i] == rs[1..][i - 1];
      OriginsComplete(rs[1..], i - 1);
      var o1 := Origins(rs[1..]);
      var k :| 0 <= k < |o1| && o1[k] == i - 1;
      if rs[0].Emit? {
        assert o[k + 1] == i;
      } else {
        assert o[k] == i;
      }
    }
  }

  // ------------------------------------------------------------ over lines

  /** The generator run over a list of lines. */
  function ScanLines(lines: seq<string>, decode: string -> Option<Json>): (r: Scan)
    ensures |r.events| <= |lines|
  {
    Run(ParseAll(lines, decode))
  }

  /** `_iter_sse_payloads(body)`, run to completion or to its exception:
      at most one pair per line, each one a decoded object tagged with its
      own `type` (or `"unknown"`). */
  function IterSsePayloads(body: string, decode: string -> Option<Json>): (r: Scan)
    ensures |r.events| <= |SplitLines(body)|
    ensures forall k :: 0 <= k < |r.events| ==> WellFormed(r.events[k])
  {
    var rs := ParseAll(SplitLines(body), decode);
    var r := Run(rs);
    assert forall k :: 0 <= k < |r.events| ==> WellFormed(r.events[k]) by {
      forall k | 0 <= k < |r.events| ensures WellFormed(r.events[k]) {
        assert Emit(r.events[k]) in rs;
        var i :| 0 <= i < |rs| && rs[i] == Emit(r.events[k]);
        EmitIsWellFormed(SplitLines(body)[i], decode);
      }
    }
    r
  }

  /** A line that yields nothing can be removed without changing anything:
      in particular an undecodable payload is skipped and the loop goes on
      with the next line. */
  lemma SkippedLineIsInvisible(a: seq<string>, l: string, b: seq<string>, decode: string -> Option<Json>)
    requires ParseLine(l, decode).Skip?
    ensures ScanLines(a + [l] + b, decode) == ScanLines(a + b, decode)
  {
    var pa, pl, pb := ParseAll(a, decode), ParseAll([l], decode), ParseAll(b, decode);
    ParseAllAppend(a + [l], b, decode);
    ParseAllAppend(a, [l], decode);
    ParseAllAppend(a, b, decode);
    assert pl == [ParseLine(l, decode)];
    SkipIsInvisible(pa, ParseLine(l, decode), pb);
  }

  /** The data lines, in order. */
  function DataLines(lines: seq<string>): (d: seq<string>)
    ensures |d| <= |lines|
    ensures forall k :: 0 <= k < |d| ==> IsDataLine(d[k])
  {
    if lines == [] then []
    else if IsDataLine(lines[0]) then [lines[0]] + DataLines(lines[1..])
    else DataLines(lines[1..])
  }

  /** Only data lines matter: dropping every other line changes nothing. */
  lemma {:induction false} OnlyDataLinesCount(lines: seq<string>, decode: string -> Option<Json>)
    ensures ScanLines(lines, decode) == ScanLines(DataLines(lines), decode)
  {
    if lines != [] {
      var rest := lines[1..];
      OnlyDataLinesCount(rest, decode);
      ScanLinesCons(lines, decode);
      if IsDataLine(lines[0]) {
        var d := DataLines(lines);
        assert d == [lines[0]] + DataLines(rest);
        assert d[0] == lines[0] && d[1..] == DataLines(rest);
        ScanLinesCons(d, decode);
      } else {
        ParseLineCases(lines[0], decode);
      }
    }
  }

  /** The scan of a non-empty list of lines from its first line's outcome
      and the scan of the rest. */
  lemma ScanLinesCons(lines: seq<string>, decode: string -> Option<Json>)
    requires lines != []
    ensures ScanLines(lines, decode) ==
      match ParseLine(lines[0], decode)
      case Skip(_) => ScanLines(lines[1..], decode)
      case Emit(e) => Scan([e] + ScanLines(lines[1..], decode).events, ScanLines(lines[1..], decode).crashed)
      case Crash => Scan([], true)
  {
    var p := ParseAll(lines, decode);
    assert p[0] == ParseLine(lines[0], decode);
    assert p[1..] == ParseAll(lines[1..], decode);
  }

  /** The generator raises exactly when some line decodes to a value that
      is not an object. */
  lemma CrashIffNonObject(lines: seq<string>, decode: string -> Option<Json>)
    ensures ScanLines(lines, decode).crashed <==>
      exists i :: 0 <= i < |lines| && ParseLine(lines[i], decode).Crash?
  {
    var rs := ParseAll(lines, decode);
    RunCrashIff(rs);
    if Crash in rs {
      var i :| 0 <= i < |rs| && rs[i] == Crash;
      assert ParseLine(lines[i], decode).Crash?;
    }
  }

  /** Events follow line order, at most one per line, and only data lines
      yield them: event `k` is the pair of line `o[k]`, the `o[k]` strictly
      increase, and when nothing raised every line that yields a pair is
      one of them. */
  lemma EventsFollowLines(lines: seq<string>, decode: string -> Option<Json>)
    ensures var r, o := ScanLines(lines, decode), Origins(ParseAll(lines, decode));
      && |o| == |r.events|
      && (forall k :: 0 <= k < |o| ==>
            o[k] < |lines| && IsDataLine(lines[o[k]]) && ParseLine(lines[o[k]], decode) == Emit(r.events[k]))
      && (forall k, m :: 0 <= k < m < |o| ==> o[k] < o[m])
      && (!r.crashed ==> forall i :: 0 <= i < |lines| && ParseLine(lines[i], decode).Emit? ==> i in o)
  {
    var rs := ParseAll(lines, decode);
    OriginsYieldEvents(rs);
    OriginsIncrease(rs);
    if !Run(rs).crashed {
      forall i | 0 <= i < |lines| && ParseLine(lines[i], decode).Emit?
        ensures i in Origins(rs)
      {
        OriginsComplete(rs, i);
      }
    }
  }

  // ----------------------------------------------------------- as a loop

  /** One more outcome: the run's state after `a + [s]`. */
  lemma RunSnoc(a: seq<LineResult>, s: LineResult)
    requires !Run(a).crashed
    ensures Run(a + [s]) ==
      match s
      case Skip(_) => Run(a)
      case Emit(e) => Scan(Run(a).events + [e], false)
      case Crash => Scan(Run(a).events, true)
  {
    RunAppend(a, [s]);
    assert [s][1..] == [];
    assert Run(a).events + [] == Run(a).events;
  }

  /** The `for` loop of `_iter_sse_payloads` as a loop: it collects the
      pairs one line at a time and stops at the first non-object payload. */
  method CollectSsePayloads(body: string, decode: string -> Option<Json>)
    returns (events: seq<SseEvent>, crashed: bool)
    ensures Scan(events, crashed) == IterSsePayloads(body, decode)
  {
    var lines := SplitLines(body);
    events, crashed := [], false;
    var i := 0;
    while i < |lines|
      invariant 0 <= i <= |lines|
      invariant ScanLines(lines[..i], decode) == Scan(events, false)
    {
      var step := ParseLine(lines[i], decode);
      StepLine(lines, i, decode);
      if step.Emit? {
        events := events + [step.event];
      } else if step.Crash? {
        crashed := true;
        StopLine(lines, i, decode);
        return;
      }
      i := i + 1;
    }
    assert lines[..i] == lines;
  }

  /** The scan after line `i` from the scan before it. */
  lemma StepLine(lines: seq<string>, i: int, decode: string -> Option<Json>)
    requires 0 <= i < |lines| && !ScanLines(lines[..i], decode).crashed
    ensures ScanLines(lines[..i + 1], decode) ==
      match ParseLine(lines[i], decode)
      case Skip(_) => ScanLines(lines[..i], decode)
      case Emit(e) => Scan(ScanLines(lines[..i], decode).events + [e], false)
      case Crash => Scan(ScanLines(lines[..i], decode).events, true)
  {
    var pa, st := ParseAll(lines[..i], decode), ParseLine(lines[i], decode);
    assert lines[..i + 1] == lines[..i] + [lines[i]];
    ParseAllAppend(lines[..i], [lines[i]], decode);
    assert ParseAll([lines[i]], decode) == [st];
    assert ParseAll(lines[..i + 1], decode) == pa + [st];
    RunSnoc(pa, st);
  }

  /** Once line `i` has raised, the rest of the lines are never read. */
  lemma StopLine(lines: seq<string>, i: int, decode: string -> Option<Json>)
    requires 0 <= i < |lines| && ScanLines(lines[..i + 1], decode).crashed
    ensures ScanLines(lines, decode) == ScanLines(lines[..i + 1], decode)
  {
    assert lines[..i + 1] + lines[i + 1..] == lines;
    ParseAllAppend(lines[..i + 1], lines[i + 1..], decode);
    RunAppend(ParseAll(lines[..i + 1], decode), ParseAll(lines[i + 1..], decode));
  }

  // ------------------------------------------------------ a whole stream

  /** The lines of a typical Codex stream around the payload text `p`: a
      line of another field (`event: response.created`, say), the `data:`
      line, a blank separator, and the padded `[DONE]` sentinel. */
  function ScenarioLines(other: string, gap: string, p: string): seq<string> {
    [other, DataPrefix + gap + p, "", DataPrefix + gap + DoneSentinel]
  }

  /** Their line endings: mixed `\r\n` and `\n`, with the final line left
      unterminated. */
  const ScenarioEnds: seq<string> := ["\r\n", "\n", "\r\n", ""]

  /** A typical Codex stream yields exactly one pair, for the object
      payload, and the generator finishes without raising. */
  lemma StreamScenario(other: string, gap: string, p: string, decode: string -> Option<Json>, obj: Json)
    requires NoLineBreak(other) && !IsDataLine(other)
    requires AllSpace(gap) && NoLineBreak(gap)
    requires Trimmed(p) && NoLineBreak(p) && p != DoneSentinel
    requires decode(p) == Some(obj) && obj.JObject?
    ensures IterSsePayloads(Join(ScenarioLines(other, gap, p), ScenarioEnds), decode)
      == Scan([SseEvent(EventType(obj), obj)], false)
  {
    ScenarioLinesSplit(other, gap, p);
    ScenarioLinesParse(other, gap, p, decode, obj);
    ScenarioRun(SseEvent(EventType(obj), obj));
  }

  lemma ScenarioRun(e: SseEvent)
    ensures Run([Skip(NotData), Emit(e), Skip(NotData), Skip(Done)]) == Scan([e], false)
  {
    var r3: seq<LineResult> := [Skip(Done)];
    var r2 := [Skip(NotData)] + r3;
    var r1 := [Emit(e)] + r2;
    var r0 := [Skip(NotData)] + r1;
    assert r3[1..] == [] && r2[1..] == r3 && r1[1..] == r2 && r0[1..] == r1;
    assert Run(r3) == Scan([], false);
    assert Run(r1) == Scan([e], false);
    assert r0 == [Skip(NotData), Emit(e), Skip(NotData), Skip(Done)];
  }

  lemma ScenarioLinesSplit(other: string, gap: string, p: string)
    requires NoLineBreak(other) && NoLineBreak(gap) && NoLineBreak(p)
    ensures SplitLines(Join(ScenarioLines(other, gap, p), ScenarioEnds)) == ScenarioLines(other, gap, p)
  {
    var lines := ScenarioLines(other, gap, p);
    NoLineBreakConcat(DataPrefix, gap);
    NoLineBreakConcat(DataPrefix + gap, p);
    NoLineBreakConcat(DataPrefix + gap, DoneSentinel);
    assert forall k :: 0 <= k < |lines| ==> NoLineBreak(lines[k]);
    assert lines[3] != [];
    assert WellTerminated(lines, ScenarioEnds);
    SplitLinesOfJoin(lines, ScenarioEnds);
  }

  /** The outcome of a single line, as a one-line parse. */
  lemma ParseOne(l: string, decode: string -> Option<Json>)
    ensures ParseAll([l], decode) == [ParseLine(l, decode)]
  {
  }

  lemma OtherLineOutcome(other: string, decode: string -> Option<Json>)
    requires !IsDataLine(other)
    ensures ParseAll([other], decode) == [Skip(NotData)]
  {
    ParseOne(other, decode);
  }

  lemma DataLineOutcome(gap: string, p: string, decode: string -> Option<Json>, obj: Json)
    requires AllSpace(gap) && Trimmed(p) && p != DoneSentinel
    requires decode(p) == Some(obj) && obj.JObject?
    ensures ParseAll([DataPrefix + gap + p], decode) == [Emit(SseEvent(EventType(obj), obj))]
  {
    ParseOne(DataPrefix + gap + p, decode);
    assert DataPrefix + gap + p == [] + DataPrefix + gap + p + [];
    ObjectLineYieldsEvent([], gap, p, [], decode, obj);
  }

  lemma DoneLineOutcome(gap: string, decode: string -> Option<Json>)
    requires AllSpace(gap)
    ensures ParseAll([DataPrefix + gap + DoneSentinel], decode) == [Skip(Done)]
  {
    ParseOne(DataPrefix + gap + DoneSentinel, decode);
    assert DataPrefix + gap + DoneSentinel == [] + DataPrefix + gap + DoneSentinel + [];
    DoneLineYieldsNothing([], gap, [], decode);
  }

  lemma BlankLineOutcome(decode: string -> Option<Json>)
    ensures ParseAll([""], decode) == [Skip(NotData)]
  {
    ParseOne("", decode);
  }

  lemma ScenarioLinesParse(other: string, gap: string, p: string, decode: string -> Option<Json>, obj: Json)
    requires !IsDataLine(other) && AllSpace(gap)
    requires Trimmed(p) && p != DoneSentinel
    requires decode(p) == Some(obj) && obj.JObject?
    ensures ParseAll(ScenarioLines(other, gap, p), decode)
      == [Skip(NotData), Emit(SseEvent(EventType(obj), obj)), Skip(NotData), Skip(Done)]
  {
    var l0, l1, l2, l3 := other, DataPrefix + gap + p, "", DataPrefix + gap + DoneSentinel;
    assert ScenarioLines(other, gap, p) == [l0] + [l1] + [l2] + [l3];
    ParseAllAppend([l0] + [l1] + [l2], [l3], decode);
    ParseAllAppend([l0] + [l1], [l2], decode);
    ParseAllAppend([l0], [l1], decode);
    OtherLineOutcome(l0, decode);
    DataLineOutcome(gap, p, decode, obj);
    BlankLineOutcome(decode);
    DoneLineOutcome(gap, decode);
  }
}
