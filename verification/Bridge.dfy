/**
The capability bridge: a runner's event stream becomes task events, PROGRESS per streamed piece and then one terminal
COMPLETED or FAILED, whose payload honours the declared output schema.
*/
module Bridge {
  import opened Text
  import opened Collections
  import opened DataContext
  import M = ModelStream

  datatype Code = Timeout | Upstream

  datatype TaskEvent = Progress(payload: string) | Completed(payload: string) | Failed(code: Code, message: string)

  /** The request's context when it is looked at. */
  datatype Context = Live | DeadlineExceeded | Cancelled

  /** A capability: its output schema, and the JSON and text functions it is served with. */
  datatype Capability = Capability(
    output: Option<Json -> bool>,
    outKey: string,
    decode: string -> Option<Json>,
    marshal: (string, string) -> Option<string>,
    trim: string -> string)

  datatype Coerced = Coerced(payload: string, ok: bool)

  const NOT_SATISFIED := "model output did not satisfy the declared output_schema"
  const EXCEEDED := "request exceeded timeout"

  const MAX_MESSAGE := 512

  /** `boundMessage`, on runes. */
  function Bounded(message: string): string {
    if |message| <= MAX_MESSAGE then message else message[..MAX_MESSAGE]
  }

  ghost predicate Honours(cap: Capability, payload: string) {
    cap.output.Some? ==> cap.decode(payload).Some? && cap.output.value(cap.decode(payload).value)
  }

  /** The reply, trimmed, is already an object that satisfies the schema. */
  ghost predicate PassesAsIs(text: string, cap: Capability) {
    cap.trim(text) != "" && cap.trim(text)[0] == '{' && Honours(cap, cap.trim(text))
  }

  /** The reply, put under the schema's target key, satisfies it. */
  ghost predicate Wraps(text: string, cap: Capability) {
    && cap.outKey != ""
    && cap.marshal(cap.outKey, text).Some? && Honours(cap, cap.marshal(cap.outKey, text).value)
  }

  /** The result is ok only for a payload that honours the schema; a reply that already does is only trimmed. */
  function CoerceOutput(text: string, cap: Capability): (r: Coerced)
    ensures r.ok ==> Honours(cap, r.payload)
    ensures cap.output.None? ==> r == Coerced(text, true)
    ensures cap.output.Some? && PassesAsIs(text, cap) ==> r == Coerced(cap.trim(text), true)
    ensures cap.output.Some? && !PassesAsIs(text, cap) ==>
      && (r.ok <==> Wraps(text, cap))
      && if r.ok then cap.marshal(cap.outKey, text) == Some(r.payload) else r.payload == text
  {
    if cap.output.None? then Coerced(text, true)
    else
      var trimmed := cap.trim(text);
      var v := cap.decode(trimmed);
      if "{" <= trimmed && v.Some? && cap.output.value(v.value) then Coerced(trimmed, true)
      else if cap.outKey == "" then Coerced(text, false)
      else
        var b := cap.marshal(cap.outKey, text);
        if b.Some? && cap.decode(b.value).Some?
          && cap.output.value(cap.decode(b.value).value) then Coerced(b.value, true)
        else Coerced(text, false)
  }

  /**
  When the encoder and decoder agree, an accepted payload decodes to the reply itself or to the reply under one key.
  */
  lemma CoercedKeepsText(text: string, cap: Capability)
    requires cap.output.Some? && CoerceOutput(text, cap).ok
    requires forall k: string, t: string :: cap.marshal(k, t).Some? ==>
      cap.decode(cap.marshal(k, t).value) == Some(Object(map[k := Json.Text(t)]))
    ensures cap.decode(CoerceOutput(text, cap).payload) == cap.decode(cap.trim(text))
         || cap.decode(CoerceOutput(text, cap).payload) == Some(Object(map[cap.outKey := Json.Text(text)]))
  {
  }

  function Classify(ctx: Context, fault: M.Fault): Code {
    if fault.deadline || ctx == DeadlineExceeded then Timeout else Upstream
  }

  /** The non-empty partial texts, as PROGRESS. */
  function Progresses(events: seq<M.Event>): seq<TaskEvent> {
    if events == [] then []
    else
      var last := events[|events| - 1];
      Progresses(events[..|events| - 1]) + if last.Partial? && last.text != "" then [Progress(last.text)] else []
  }

  /** The text of the last turn that has one. */
  function LastTurn(events: seq<M.Event>): string {
    if events == [] then ""
    else
      var last := events[|events| - 1];
      if last.Final? && last.text != "" then last.text else LastTurn(events[..|events| - 1])
  }

  /** None of the first `n` is a failure. */
  predicate Clean(events: seq<M.Event>, n: nat)
    requires n <= |events|
  {
    forall i :: 0 <= i < n ==> !events[i].Failure?
  }

  function FirstFailure(events: seq<M.Event>): (n: nat)
    ensures n <= |events| && Clean(events, n) && (n < |events| ==> events[n].Failure?)
  {
    if events == [] || events[0].Failure? then 0
    else 1 + FirstFailure(events[1..])
  }

  /** What follows the streamed progress of a run that did not fail. */
  function Wrap(streamed: bool, text: string, ctx: Context, cap: Capability): seq<TaskEvent> {
    if ctx != Live then [Failed(Timeout, EXCEEDED)]
    else
      (if streamed then [] else [Progress(text)])
      + [if CoerceOutput(text, cap).ok then Completed(CoerceOutput(text, cap).payload)
        else Failed(Upstream, NOT_SATISFIED)]
  }

  /** The task events a run gives when every send succeeds. */
  function Trace(events: seq<M.Event>, ctx: Context, cap: Capability): seq<TaskEvent> {
    var n := FirstFailure(events);
    var streamed := Progresses(events[..n]);
    if n < |events| then streamed + [Failed(Classify(ctx, events[n].fault), Bounded(events[n].fault.message))]
    else streamed + Wrap(streamed != [], LastTurn(events), ctx, cap)
  }

  /** PROGRESS events and then one terminal event; COMPLETED only after some progress, with an honest payload. */
  ghost predicate WellShaped(t: seq<TaskEvent>, cap: Capability) {
    && t != []
    && (forall i :: 0 <= i < |t| - 1 ==> t[i].Progress?)
    && !t[|t| - 1].Progress?
    && (t[|t| - 1].Completed? ==> |t| >= 2 && Honours(cap, t[|t| - 1].payload))
    && (t[|t| - 1].Failed? ==> |t[|t| - 1].message| <= MAX_MESSAGE)
  }

  lemma {:induction false} ProgressesAreProgress(events: seq<M.Event>)
    ensures forall i :: 0 <= i < |Progresses(events)| ==> Progresses(events)[i].Progress?
  {
    if events == [] {
    } else {
      ProgressesAreProgress(events[..|events| - 1]);
    }
  }

  /** Every run is PROGRESS+ COMPLETED or PROGRESS* FAILED. */
  lemma EveryTraceIsWellShaped(events: seq<M.Event>, ctx: Context, cap: Capability)
    ensures WellShaped(Trace(events, ctx, cap), cap)
  {
    ProgressesAreProgress(events[..FirstFailure(events)]);
  }

  // ---------------------------------------------------------------------------------------------------------------

  /** The server's side of a task's event stream. Sends succeed while there is room and fail from then on. */
  class TaskEventStream {
    var sent: seq<TaskEvent>
    var room: nat

    constructor (room: nat)
      ensures sent == [] && this.room == room
    {
      sent, this.room := [], room;
    }

    method Send(e: TaskEvent) returns (ok: bool)
      modifies this
      ensures ok <==> old(room) > 0
      ensures sent == if ok then old(sent) + [e] else old(sent)
      ensures room == if ok then old(room) - 1 else 0
    {
      ok := room > 0;
      if ok {
        sent := sent + [e];
        room := room - 1;
      }
    }

    /** Sends the run's trace, or as much of it as there is room for. */
    method Run(events: seq<M.Event>, ctx: Context, cap: Capability) returns (ok: bool)
      modifies this
      ensures sent == old(sent) + M.Taken(Trace(events, ctx, cap), old(room))
      ensures ok <==> |Trace(events, ctx, cap)| <= old(room)
    {
      hide Progresses, LastTurn, CoerceOutput, FirstFailure, Trace, Wrap;
      var finalText, emittedProgress := "", false;
      assert events[..0] == [];
      Nothing();
      for i := 0 to |events|
        invariant Clean(events, i)
        invariant sent == old(sent) + Progresses(events[..i])
        invariant room == old(room) - |Progresses(events[..i])|
        invariant emittedProgress <==> Progresses(events[..i]) != []
        invariant finalText == LastTurn(events[..i])
      {
        var ev := events[i];
        if ev.Failure? {
          TraceAtFailure(events, i, ctx, cap);
          ok := Send(Failed(Classify(ctx, ev.fault), Bounded(ev.fault.message)));
          return;
        }
        Onward(events, i);
        var text := ev.text;
        if ev.Partial? {
          if text == "" {
            continue;
          }
          var sentOk := Send(Progress(text));
          if !sentOk {
            TraceExtends(events, i + 1, ctx, cap);
            return false;
          }
          emittedProgress := true;
          continue;
        }
        if text != "" {
          finalText := text;
        }
      }
      assert events[..|events|] == events;
      TraceAtEnd(events, ctx, cap);
      ok := Finish(emittedProgress, finalText, ctx, cap);
    }

    /** The part after the loop. */
    method Finish(emittedProgress: bool, finalText: string, ctx: Context, cap: Capability) returns (ok: bool)
      modifies this
      ensures sent == old(sent) + M.Taken(Wrap(emittedProgress, finalText, ctx, cap), old(room))
      ensures ok <==> |Wrap(emittedProgress, finalText, ctx, cap)| <= old(room)
    {
      hide CoerceOutput;
      if ctx != Live {
        ok := Send(Failed(Timeout, EXCEEDED));
        return;
      }
      if !emittedProgress {
        ok := Send(Progress(finalText));
        if !ok {
          return;
        }
      }
      var c := CoerceOutput(finalText, cap);
      if !c.ok {
        ok := Send(Failed(Upstream, NOT_SATISFIED));
        return;
      }
      ok := Send(Completed(c.payload));
    }
  }

  lemma Nothing()
    ensures Progresses([]) == [] && LastTurn([]) == ""
  {
  }

  lemma Onward(events: seq<M.Event>, i: nat)
    requires i < |events| && Clean(events, i) && !events[i].Failure?
    ensures Clean(events, i + 1)
    ensures Progresses(events[..i + 1]) ==
            Progresses(events[..i]) +
              if events[i].Partial? && events[i].text != "" then [Progress(events[i].text)] else []
    ensures LastTurn(events[..i + 1]) ==
      if events[i].Final? && events[i].text != "" then events[i].text else LastTurn(events[..i])
  {
    assert events[..i + 1][..i] == events[..i];
    assert events[..i + 1] == events[..i] + [events[i]];
  }

  lemma FirstFailureIs(events: seq<M.Event>, n: nat)
    requires n <= |events| && Clean(events, n) && (n < |events| ==> events[n].Failure?)
    ensures FirstFailure(events) == n
  {
  }

  lemma TraceAtFailure(events: seq<M.Event>, n: nat, ctx: Context, cap: Capability)
    requires n < |events| && Clean(events, n) && events[n].Failure?
    ensures Trace(events, ctx, cap) ==
      Progresses(events[..n]) + [Failed(Classify(ctx, events[n].fault), Bounded(events[n].fault.message))]
  {
    hide FirstFailure, Progresses;
    FirstFailureIs(events, n);
  }

  lemma TraceAtEnd(events: seq<M.Event>, ctx: Context, cap: Capability)
    requires Clean(events, |events|)
    ensures Trace(events, ctx, cap) == Progresses(events) + Wrap(Progresses(events) != [], LastTurn(events), ctx, cap)
  {
    hide FirstFailure, Progresses, Wrap;
    assert events[..|events|] == events;
    FirstFailureIs(events, |events|);
  }

  lemma {:induction false} ProgressesExtend(events: seq<M.Event>, i: nat, n: nat)
    requires i <= n <= |events|
    ensures Progresses(events[..i]) <= Progresses(events[..n])
  {
    if i == n {
    } else {
      ProgressesExtend(events, i, n - 1);
      assert events[..n][..n - 1] == events[..n - 1];
    }
  }

  lemma TraceExtends(events: seq<M.Event>, i: nat, ctx: Context, cap: Capability)
    requires i <= |events| && Clean(events, i)
    ensures Progresses(events[..i]) <= Trace(events, ctx, cap)
  {
    hide Progresses, Wrap;
    var n := FirstFailure(events);
    ProgressesExtend(events, i, n);
  }

  // ---------------------------------------------------------------------------------------------------------------

  function Payloads(t: seq<TaskEvent>): string {
    if t == [] then ""
    else
      var last := t[|t| - 1];
      Payloads(t[..|t| - 1]) + if last.Progress? then last.payload else ""
  }

  /** The progress of pieces of text is those pieces. */
  lemma {:induction false} ProgressOfPieces(pieces: seq<M.Event>)
    requires forall i :: 0 <= i < |pieces| ==> pieces[i].Partial? && pieces[i].text != ""
    ensures |Progresses(pieces)| == |pieces| && Payloads(Progresses(pieces)) == M.Texts(pieces)
      && LastTurn(pieces) == ""
    ensures Progresses(pieces) == [] ==> M.Texts(pieces) == ""
  {
    if pieces == [] {
    } else {
      hide *;
      var n := |pieces| - 1;
      var front, last := pieces[..n], pieces[n];
      ProgressOfPieces(front);
      Onward(pieces, n);
      assert pieces[..n + 1] == pieces && pieces == front + [last];
      PayloadsStep(Progresses(front), Progress(last.text));
      M.TextsAppend(front, [last]);
      OneText(last);
    }
  }

  lemma OneText(e: M.Event)
    requires e.Partial?
    ensures M.Texts([e]) == e.text
  {
  }

  lemma PayloadsStep(t: seq<TaskEvent>, e: TaskEvent)
    ensures Payloads(t + [e]) == Payloads(t) + if e.Progress? then e.payload else ""
  {
    assert (t + [e])[..|t|] == t;
  }

  /**
  A model stream through the bridge: whatever happens, the PROGRESS payloads together are exactly what the model said.
  The task completes if and only if the stream ends without a fault, the request is still live and the text it said can
  be shaped to the schema; the completed payload is that text so shaped.
  */
  lemma StreamedRun(lines: seq<M.Line>, broken: Option<M.Fault>, ctx: Context, cap: Capability)
    ensures var t := Trace(M.Events(lines, broken), ctx, cap);
      && WellShaped(t, cap)
      && Payloads(t) == M.Said(lines)
      && (t[|t| - 1].Completed? <==>
        M.FaultOf(lines, broken).None? && ctx == Live && CoerceOutput(M.Said(lines), cap).ok)
      && (t[|t| - 1].Completed? ==> t[|t| - 1].payload == CoerceOutput(M.Said(lines), cap).payload)
      && (M.FaultOf(lines, broken).Some? ==>
            t[|t| - 1] == Failed(Classify(ctx, M.FaultOf(lines, broken).value),
              Bounded(M.FaultOf(lines, broken).value.message)))
  {
    hide *;
    var pieces, ending, said := M.Pieces(lines), M.Ending(lines, broken), M.Spoken(lines);
    M.ReplyIsSaid(lines, broken);
    M.PiecesAreSpoken(lines);
    ProgressOfPieces(pieces);
    var events := M.Events(lines, broken);
    assert events == pieces + [M.Closing(ending, said)] by { EventsAre(lines, broken); }
    EveryTraceIsWellShaped(events, ctx, cap);
    assert events[..|pieces|] == pieces;
    if ending.Some? {
      FaultyRun(events, pieces, said, ending.value, ctx, cap);
    } else {
      CleanRun(events, pieces, said, ctx, cap);
    }
  }

  lemma EventsAre(lines: seq<M.Line>, broken: Option<M.Fault>)
    ensures M.Events(lines, broken) == M.Pieces(lines) + [M.Closing(M.Ending(lines, broken), M.Spoken(lines))]
  {
  }

  lemma FaultyRun(events: seq<M.Event>, pieces: seq<M.Event>, said: string, fault: M.Fault, ctx: Context,
      cap: Capability)
    requires events == pieces + [M.Closing(Some(fault), said)]
    requires forall i :: 0 <= i < |pieces| ==> pieces[i].Partial? && pieces[i].text != ""
    ensures var t := Trace(events, ctx, cap);
      t != [] && Payloads(t) == M.Texts(pieces) && t[|t| - 1] == Failed(Classify(ctx, fault), Bounded(fault.message))
  {
    hide Trace, FirstFailure, Progresses, Payloads, LastTurn;
    ProgressOfPieces(pieces);
    assert events[..|pieces|] == pieces;
    TraceAtFailure(events, |pieces|, ctx, cap);
    PayloadsStep(Progresses(pieces), Failed(Classify(ctx, fault), Bounded(fault.message)));
  }

  lemma CleanRun(events: seq<M.Event>, pieces: seq<M.Event>, said: string, ctx: Context, cap: Capability)
    requires events == pieces + [M.Closing(None, said)]
    requires forall i :: 0 <= i < |pieces| ==> pieces[i].Partial? && pieces[i].text != ""
    requires said == M.Texts(pieces)
    ensures var t := Trace(events, ctx, cap);
      && t != [] && Payloads(t) == said
      && (t[|t| - 1].Completed? <==> ctx == Live && CoerceOutput(said, cap).ok)
      && (t[|t| - 1].Completed? ==> t[|t| - 1].payload == CoerceOutput(said, cap).payload)
  {
    hide *;
    ProgressOfPieces(pieces);
    var ps := Progresses(pieces);
    CleanTail(events, pieces, said);
    TraceAtEnd(events, ctx, cap);
    WrapPayloads(ps, said, ctx, cap);
    var w := Wrap(ps != [], said, ctx, cap);
    assert (ps + w)[|ps + w| - 1] == w[|w| - 1];
  }

  lemma CleanTail(events: seq<M.Event>, pieces: seq<M.Event>, said: string)
    requires events == pieces + [M.Closing(None, said)]
    requires forall i :: 0 <= i < |pieces| ==> pieces[i].Partial? && pieces[i].text != ""
    ensures Clean(events, |events|) && Progresses(events) == Progresses(pieces) && LastTurn(events) == said
  {
    ProgressOfPieces(pieces);
    assert events[..|events| - 1] == pieces;
  }

  lemma WrapPayloads(ps: seq<TaskEvent>, said: string, ctx: Context, cap: Capability)
    requires Payloads(ps) == said && (ps == [] ==> said == "")
    ensures var w := Wrap(ps != [], said, ctx, cap);
      && w != [] && Payloads(ps + w) == said
      && (w[|w| - 1].Completed? <==> ctx == Live && CoerceOutput(said, cap).ok)
      && (w[|w| - 1].Completed? ==> w[|w| - 1].payload == CoerceOutput(said, cap).payload)
  {
    hide Payloads, CoerceOutput;
    var w := Wrap(ps != [], said, ctx, cap);
    if |w| == 1 {
      assert w == [w[0]];
      PayloadsStep(ps, w[0]);
    } else {
      assert ps + w == (ps + [w[0]]) + [w[1]];
      PayloadsStep(ps, w[0]);
      PayloadsStep(ps + [w[0]], w[1]);
    }
  }

  // ---------------------------------------------------------------------------------------------------------------
  // The trace, by the events themselves

  ghost function Streams(events: seq<M.Event>): int -> bool {
    k => 0 <= k < |events| && events[k].Partial? && events[k].text != ""
  }

  /** A PROGRESS for each of the first `n` events that is a piece of text, in order. */
  ghost predicate Reports(events: seq<M.Event>, n: int, progress: seq<TaskEvent>) {
    exists at :: Selects(at, n, Streams(events)) && ProgressAt(events, at, progress)
  }

  ghost predicate ProgressAt(events: seq<M.Event>, at: seq<int>, progress: seq<TaskEvent>) {
    && |progress| == |at|
    && forall i :: 0 <= i < |at| ==>
         0 <= at[i] < |events| && events[at[i]].Partial? && progress[i] == Progress(events[at[i]].text)
  }

  predicate IsTurn(e: M.Event) {
    e.Final? && e.text != ""
  }

  /** The text of the last turn that has any, or nothing. */
  ghost predicate EndsWithText(events: seq<M.Event>, text: string) {
    || (text == "" && forall i :: 0 <= i < |events| ==> !IsTurn(events[i]))
    || exists i ::
         && 0 <= i < |events| && IsTurn(events[i]) && events[i].text == text
         && forall j :: i < j < |events| ==> !IsTurn(events[j])
  }

  /** The first 512 characters. */
  ghost predicate CutTo512(message: string, cut: string) {
    if |message| <= 512 then cut == message else |cut| == 512 && cut <= message
  }

  lemma OneMoreReport(events: seq<M.Event>, n: nat, ps: seq<TaskEvent>)
    requires n < |events| && Reports(events, n, ps)
    ensures Reports(events, n + 1,
              ps + if events[n].Partial? && events[n].text != "" then [Progress(events[n].text)] else [])
  {
    hide Selects;
    var at :| Selects(at, n, Streams(events)) && ProgressAt(events, at, ps);
    SelectsNext(at, n, Streams(events));
    if events[n].Partial? && events[n].text != "" {
      assert ProgressAt(events, at + [n], ps + [Progress(events[n].text)]);
    } else {
      assert ps + [] == ps;
    }
  }

  lemma NoReport(events: seq<M.Event>)
    ensures Reports(events, 0, [])
  {
    NoneSelected(Streams(events));
    assert ProgressAt(events, [], []);
  }

  lemma ProgressesNext(events: seq<M.Event>, n: nat)
    requires n < |events|
    ensures Progresses(events[..n + 1]) ==
      Progresses(events[..n]) + if events[n].Partial? && events[n].text != "" then [Progress(events[n].text)] else []
  {
    assert events[..n + 1][..n] == events[..n];
  }

  lemma {:induction false} ProgressesReport(events: seq<M.Event>, n: nat)
    requires n <= |events|
    ensures Reports(events, n, Progresses(events[..n]))
  {
    hide *;
    if n == 0 {
      assert events[..0] == [];
      Nothing();
      NoReport(events);
    } else {
      ProgressesReport(events, n - 1);
      OneMoreReport(events, n - 1, Progresses(events[..n - 1]));
      ProgressesNext(events, n - 1);
    }
  }

  lemma {:induction false} LastTurnIs(events: seq<M.Event>)
    ensures EndsWithText(events, LastTurn(events))
  {
    if events == [] {
    } else {
      var n := |events| - 1;
      LastTurnIs(events[..n]);
      if !IsTurn(events[n]) {
        var text := LastTurn(events[..n]);
        assert forall i :: 0 <= i < n ==> events[..n][i] == events[i];
      } else {
        assert IsTurn(events[n]) && events[n].text == LastTurn(events);
      }
    }
  }

  /** The trace of a stream whose first failure, if any, is at `n`, given its progress, its text and its cut message. */
  ghost predicate ConsistsOf(t: seq<TaskEvent>, events: seq<M.Event>, n: nat, ctx: Context, cap: Capability,
      ps: seq<TaskEvent>, text: string, message: string)
    requires n <= |events| && (n < |events| ==> events[n].Failure?)
  {
    && Reports(events, n, ps) && EndsWithText(events, text)
    && (n < |events| ==> CutTo512(events[n].fault.message, message))
    && t == ps +
       if n < |events| then
         [Failed(if events[n].fault.deadline || ctx == DeadlineExceeded then Timeout else Upstream, message)]
       else if ctx != Live then [Failed(Timeout, "request exceeded timeout")]
       else
         (if ps == [] then [Progress(text)] else []) +
         if CoerceOutput(text, cap).ok then [Completed(CoerceOutput(text, cap).payload)]
         else [Failed(Upstream, "model output did not satisfy the declared output_schema")]
  }

  /**
  The whole trace of any event stream whose first failure, if any, is at `n`: the progress of what came before, and then
  the failure; or, when nothing failed, a time-out if the request is no longer live, else the last turn's text, shown
  once if nothing was, and completed or refused by the schema.
  */
  lemma TraceIs(events: seq<M.Event>, n: nat, ctx: Context, cap: Capability)
    requires n <= |events| && (forall i :: 0 <= i < n ==> !events[i].Failure?) && (n < |events| ==> events[n].Failure?)
    ensures exists ps, text, message :: ConsistsOf(Trace(events, ctx, cap), events, n, ctx, cap, ps, text, message)
  {
    hide Progresses, LastTurn, FirstFailure, CoerceOutput, Trace, Reports, EndsWithText;
    var ps, text := Progresses(events[..n]), LastTurn(events);
    ProgressesReport(events, n);
    LastTurnIs(events);
    if n < |events| {
      TraceAtFailure(events, n, ctx, cap);
      assert ConsistsOf(Trace(events, ctx, cap), events, n, ctx, cap, ps, text, Bounded(events[n].fault.message));
    } else {
      assert events[..n] == events;
      TraceAtEnd(events, ctx, cap);
      assert ConsistsOf(Trace(events, ctx, cap), events, n, ctx, cap, ps, text, "");
    }
  }
}
