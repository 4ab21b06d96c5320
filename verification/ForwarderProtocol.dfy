/**
Any number of forwarders at work on one server, interleaved call by call: advisories arrive in any order and any number
of times, source messages come and age out, requests and acknowledgements get lost, retries stop. Everything here
happens within the deduplication window of the dead-letter streams.
*/
module ForwarderProtocol {
  import opened Text
  import opened Collections
  import opened Naming
  import opened DeadLetters

  /** Where a forwarder is in the handling of an advisory: before the fetch, before the stream, before a publish. */
  datatype Pc =
    | Idle
    | Fetching(adv: Advisory)
    | Ensuring(adv: Advisory, raw: Msg)
    | Publishing(adv: Advisory, raw: Msg, attempt: nat)

  datatype Worker = Worker(pc: Pc, stats: Stats)

  /** An advisory that has been dealt with; undecodable ones carry nothing. */
  datatype Handled = Handled(adv: Option<Advisory>, outcome: Outcome)

  /** `ever` remembers every source message there has been; `sources` is what has not aged out. */
  datatype System = System(sources: Sources, ever: Sources, dlqs: Dlqs, workers: map<nat, Worker>,
      handled: seq<Handled>)

  datatype Event =
    | Append(stream: string, sequence: nat, msg: Msg)
    | Expire(stream: string, sequence: nat)
    | Provision(eventType: string)
    | Receive(w: nat, advisory: Option<Advisory>)
    | Fetch(w: nat, fetched: Fetched)
    | Ensure(w: nat, ok: bool)
    | Attempt(w: nat, fate: Fate, at: Option<string>)
    | StopRetry(w: nat)

  /** The stream whose exact subject is the given one, if the server has it. */
  ghost predicate Routes(dlqs: Dlqs, subject: string, at: Option<string>) {
    if at.Some? then at.value in dlqs && dlqs[at.value].subject == subject
    else forall name :: name in dlqs ==> dlqs[name].subject != subject
  }

  ghost predicate Enabled(s: System, e: Event) {
    match e
    case Append(stream, sequence, _) => (stream, sequence) !in s.ever
    case Expire(_, _) => true
    case Provision(_) => true
    case Receive(w, _) => w in s.workers && s.workers[w].pc.Idle?
    case Fetch(w, fetched) =>
      && w in s.workers && s.workers[w].pc.Fetching?
      && var adv := s.workers[w].pc.adv;
         && (fetched.Found? ==>
           && (adv.stream, adv.sequence) in s.sources
           && fetched.msg == s.sources[(adv.stream, adv.sequence)])
         && (fetched.Missing? ==> (adv.stream, adv.sequence) !in s.sources)
    case Ensure(w, _) => w in s.workers && s.workers[w].pc.Ensuring?
    case Attempt(w, _, at) =>
      w in s.workers && s.workers[w].pc.Publishing?
        && Routes(s.dlqs, DlqDeliverSubject(s.workers[w].pc.raw.subject), at)
    case StopRetry(w) => w in s.workers && s.workers[w].pc.Publishing? && s.workers[w].pc.attempt > 0
  }

  function Goto(s: System, w: nat, pc: Pc): System
    requires w in s.workers
  {
    s.(workers := s.workers[w := s.workers[w].(pc := pc)])
  }

  /** The end of an advisory: one counter of one forwarder moves. */
  function Finish(s: System, w: nat, adv: Option<Advisory>, outcome: Outcome): System
    requires w in s.workers
  {
    s.(workers := s.workers[w := Worker(Idle, Bump(s.workers[w].stats, outcome))],
      handled := s.handled + [Handled(adv, outcome)])
  }

  /** A publish that the client sees fail: try again, or give up when the budget is spent. */
  function Retry(s: System, w: nat, adv: Advisory, raw: Msg, attempt: nat): System
    requires w in s.workers
  {
    if attempt + 1 < PUBLISH_ATTEMPTS then Goto(s, w, Publishing(adv, raw, attempt + 1))
      else Finish(s, w, Some(adv), Failed)
  }

  ghost function Publish(s: System, w: nat, adv: Advisory, raw: Msg, attempt: nat, fate: Fate,
      at: Option<string>): System
    requires w in s.workers && (at.Some? ==> at.value in s.dlqs)
  {
    if fate.RequestLost? || at.None? then Retry(s, w, adv, raw, attempt)
    else
      var copy := Copy(MessageId(adv.stream, adv.sequence), Outgoing(adv, raw));
      var duplicate := HoldsId(s.dlqs[at.value].accepted, copy.id);
      var s' := s.(dlqs := s.dlqs[at.value := Accept(s.dlqs[at.value], copy)]);
      if fate.AckLost? then Retry(s', w, adv, raw, attempt)
      else Finish(s', w, Some(adv), if duplicate then Deduplicated else Forwarded)
  }

  ghost function Apply(s: System, e: Event): System
    requires Enabled(s, e)
  {
    match e
    case Append(stream, sequence, msg) =>
      s.(sources := s.sources[(stream, sequence) := msg], ever := s.ever[(stream, sequence) := msg])
    case Expire(stream, sequence) => s.(sources := s.sources - {(stream, sequence)})
    case Provision(eventType) =>
      s.(dlqs := Ensured(s.dlqs, DlqStreamName(StreamName(eventType)), DlqDeliverSubject(eventType)))
    case Receive(w, advisory) =>
      if advisory.None? || !Actionable(advisory.value) then Finish(s, w, advisory, Skipped)
      else Goto(s, w, Fetching(advisory.value))
    case Fetch(w, fetched) =>
      var adv := s.workers[w].pc.adv;
      (match fetched
       case Broken => Finish(s, w, Some(adv), Failed)
       case Missing => Finish(s, w, Some(adv), Skipped)
       case Found(raw) =>
         if SourceForwardable(adv.stream, raw.subject) then Goto(s, w, Ensuring(adv, raw))
           else Finish(s, w, Some(adv), Skipped))
    case Ensure(w, ok) =>
      var adv, raw := s.workers[w].pc.adv, s.workers[w].pc.raw;
      if !ok then Finish(s, w, Some(adv), Failed)
      else
        Goto(s.(dlqs := Ensured(s.dlqs, DlqStreamName(adv.stream), DlqDeliverSubject(raw.subject))), w,
          Publishing(adv, raw, 0))
    case Attempt(w, fate, at) =>
      var pc := s.workers[w].pc;
      Publish(s, w, pc.adv, pc.raw, pc.attempt, fate, at)
    case StopRetry(w) => Finish(s, w, Some(s.workers[w].pc.adv), Failed)
  }

  /** Subscribers may have provisioned dead-letter streams; nothing has been rescued yet. */
  ghost predicate Initial(s: System) {
    && s.sources == s.ever
    && (forall name :: name in s.dlqs ==> Named(name, s.dlqs[name]) && s.dlqs[name].accepted == [])
    && s.handled == []
    && forall w :: w in s.workers ==> s.workers[w] == Worker(Idle, Stats(0, 0, 0, 0))
  }

  ghost predicate Step(s: System, s': System) {
    exists e :: Enabled(s, e) && s' == Apply(s, e)
  }

  ghost predicate IsRun(run: seq<System>) {
    run != [] && Initial(run[0]) && forall i :: 0 <= i < |run| - 1 ==> Step(run[i], run[i + 1])
  }

  // ---------------------------------------------------------------------------------------------------------------
  // What every interleaving keeps

  /** The forwarder holds a message that was, or is, in the source stream its advisory names. */
  ghost predicate Grabbed(ever: Sources, adv: Advisory, raw: Msg) {
    && (adv.stream, adv.sequence) in ever
    && ever[(adv.stream, adv.sequence)] == raw
    && Actionable(adv) && SourceForwardable(adv.stream, raw.subject)
  }

  ghost predicate WorkerOk(ever: Sources, pc: Pc) {
    match pc
    case Fetching(adv) => Actionable(adv)
    case Ensuring(adv, raw) => Grabbed(ever, adv, raw)
    case Publishing(adv, raw, attempt) => Grabbed(ever, adv, raw) && attempt < PUBLISH_ATTEMPTS
    case _ => true
  }

  /** A dead-letter stream is named and addressed after one and the same source subject. */
  ghost predicate Named(name: string, d: Dlq) {
    exists subject :: d.subject == DlqDeliverSubject(subject) && name == DlqStreamName(StreamName(subject))
  }

  /**
  The copy an advisory gives of the source message it names: its id, its body, its dead-letter subject and header.
  */
  ghost predicate CopyOf(ever: Sources, name: string, c: Copy, adv: Advisory) {
    && (adv.stream, adv.sequence) in ever
    && name == DlqStreamName(adv.stream)
    && c.id == MessageId(adv.stream, adv.sequence)
    && Rescuable(adv, ever[(adv.stream, adv.sequence)].subject)
    && Rescues(adv, ever[(adv.stream, adv.sequence)], c.msg)
  }

  ghost predicate Genuine(ever: Sources, name: string, c: Copy) {
    exists adv :: CopyOf(ever, name, c, adv)
  }

  ghost predicate DistinctIds(copies: seq<Copy>) {
    forall i, j :: 0 <= i < j < |copies| ==> copies[i].id != copies[j].id
  }

  ghost predicate DlqOk(ever: Sources, name: string, d: Dlq) {
    && Named(name, d)
    && DistinctIds(d.accepted)
    && forall i :: 0 <= i < |d.accepted| ==> Genuine(ever, name, d.accepted[i])
  }

  ghost predicate InDlq(dlqs: Dlqs, adv: Advisory) {
    var name := DlqStreamName(adv.stream);
    name in dlqs && HoldsId(dlqs[name].accepted, MessageId(adv.stream, adv.sequence))
  }

  ghost predicate SameMessage(a: Handled, b: Handled) {
    a.adv.Some? && b.adv.Some? && a.adv.value.stream == b.adv.value.stream
      && a.adv.value.sequence == b.adv.value.sequence
  }

  predicate Landed(o: Outcome) {
    o == Forwarded || o == Deduplicated
  }

  ghost predicate HandledOk(dlqs: Dlqs, handled: seq<Handled>) {
    forall i :: 0 <= i < |handled| && Landed(handled[i].outcome) ==>
      handled[i].adv.Some? && InDlq(dlqs, handled[i].adv.value)
  }

  /** A message is counted as forwarded before it is ever counted as deduplicated, and once. */
  ghost predicate ForwardedFirst(handled: seq<Handled>) {
    forall i, j :: 0 <= i < j < |handled| && handled[j].outcome == Forwarded && Landed(handled[i].outcome) ==>
      !SameMessage(handled[i], handled[j])
  }

  ghost predicate Inv(s: System) {
    && (forall k :: k in s.sources ==> k in s.ever && s.ever[k] == s.sources[k])
    && (forall w :: w in s.workers ==> WorkerOk(s.ever, s.workers[w].pc))
    && (forall name :: name in s.dlqs ==> DlqOk(s.ever, name, s.dlqs[name]))
    && HandledOk(s.dlqs, s.handled)
    && ForwardedFirst(s.handled)
  }

  lemma GotoKeeps(s: System, w: nat, pc: Pc)
    requires Inv(s) && w in s.workers && WorkerOk(s.ever, pc)
    ensures Inv(Goto(s, w, pc))
  {
    hide DlqOk, HandledOk, ForwardedFirst, WorkerOk;
  }

  lemma FinishKeeps(s: System, w: nat, adv: Option<Advisory>, outcome: Outcome)
    requires Inv(s) && w in s.workers
    requires Landed(outcome) ==> adv.Some? && InDlq(s.dlqs, adv.value)
    requires outcome == Forwarded ==>
      forall i :: 0 <= i < |s.handled| && Landed(s.handled[i].outcome) ==>
        !SameMessage(s.handled[i], Handled(adv, outcome))
    ensures Inv(Finish(s, w, adv, outcome))
  {
    hide DlqOk, InDlq;
    var s' := Finish(s, w, adv, outcome);
    assert forall i :: 0 <= i < |s.handled| ==> s'.handled[i] == s.handled[i];
    assert forall v :: v in s'.workers && v != w ==> s'.workers[v] == s.workers[v];
  }

  lemma DlqOkGrows(ever: Sources, longer: Sources, name: string, d: Dlq)
    requires DlqOk(ever, name, d)
    requires forall k :: k in ever ==> k in longer && longer[k] == ever[k]
    ensures DlqOk(longer, name, d)
  {
    hide Named, DistinctIds, DlqStreamName, DlqDeliverSubject, MessageId;
    forall i | 0 <= i < |d.accepted|
      ensures Genuine(longer, name, d.accepted[i])
    {
      var adv :| CopyOf(ever, name, d.accepted[i], adv);
      assert CopyOf(longer, name, d.accepted[i], adv);
    }
  }

  lemma AppendKeeps(s: System, stream: string, sequence: nat, msg: Msg)
    requires Inv(s) && (stream, sequence) !in s.ever
    ensures Inv(Apply(s, Append(stream, sequence, msg)))
  {
    hide HandledOk, ForwardedFirst, DlqOk, SourceForwardable;
    var ever' := s.ever[(stream, sequence) := msg];
    forall name | name in s.dlqs
      ensures DlqOk(ever', name, s.dlqs[name])
    {
      DlqOkGrows(s.ever, ever', name, s.dlqs[name]);
    }
  }

  /** A stream provisioned for an event type, by a subscriber or a forwarder, is well named and holds nothing yet. */
  lemma ProvisionKeeps(s: System, eventType: string)
    requires Inv(s)
    ensures Inv(s.(dlqs := Ensured(s.dlqs, DlqStreamName(StreamName(eventType)), DlqDeliverSubject(eventType))))
  {
    hide ForwardedFirst, Genuine, HandledOk, DlqDeliverSubject, DlqStreamName, StreamName;
    var name, d := DlqStreamName(StreamName(eventType)), Dlq(DlqDeliverSubject(eventType), []);
    assert Named(name, d);
    AcceptKeepsHandled(s.dlqs, Ensured(s.dlqs, name, d.subject), s.handled);
  }

  lemma EnsureKeeps(s: System, w: nat)
    requires Inv(s) && Enabled(s, Ensure(w, true))
    ensures Inv(Apply(s, Ensure(w, true)))
  {
    hide ForwardedFirst, DlqOk, HandledOk, DlqDeliverSubject, StreamName;
    var adv, raw := s.workers[w].pc.adv, s.workers[w].pc.raw;
    assert WorkerOk(s.ever, s.workers[w].pc);
    ProvisionKeeps(s, raw.subject);
    GotoKeeps(s.(dlqs := Ensured(s.dlqs, DlqStreamName(adv.stream), DlqDeliverSubject(raw.subject))), w,
      Publishing(adv, raw, 0));
  }

  /** Whatever stream the server routes a copy to is the dead-letter stream of the advisory's source stream. */
  lemma RoutedToOwn(s: System, w: nat, name: string)
    requires Inv(s) && w in s.workers && s.workers[w].pc.Publishing?
    requires name in s.dlqs && s.dlqs[name].subject == DlqDeliverSubject(s.workers[w].pc.raw.subject)
    ensures name == DlqStreamName(s.workers[w].pc.adv.stream)
  {
    hide StreamPrefix, HandledOk, ForwardedFirst, DistinctIds, Genuine;
    var adv, raw := s.workers[w].pc.adv, s.workers[w].pc.raw;
    assert WorkerOk(s.ever, s.workers[w].pc);
    assert DlqOk(s.ever, name, s.dlqs[name]);
    var subject :| s.dlqs[name].subject == DlqDeliverSubject(subject) && name == DlqStreamName(StreamName(subject));
    DlqSubjectIsInjective(subject, raw.subject);
  }

  lemma AcceptKeepsDlq(ever: Sources, name: string, d: Dlq, copy: Copy)
    requires DlqOk(ever, name, d) && Genuine(ever, name, copy)
    ensures DlqOk(ever, name, Accept(d, copy))
    ensures forall id :: HoldsId(d.accepted, id) ==> HoldsId(Accept(d, copy).accepted, id)
  {
    hide Genuine;
    var d' := Accept(d, copy);
    if !HoldsId(d.accepted, copy.id) {
      assert d'.accepted == d.accepted + [copy];
      forall id | HoldsId(d.accepted, id)
        ensures HoldsId(d'.accepted, id)
      {
        var i :| 0 <= i < |d.accepted| && d.accepted[i].id == id;
        assert d'.accepted[i].id == id;
      }
      assert Named(name, d');
    }
  }

  /** The server takes the copy in. */
  lemma AcceptKeeps(s: System, w: nat, name: string)
    requires Inv(s) && w in s.workers && s.workers[w].pc.Publishing?
    requires name in s.dlqs && s.dlqs[name].subject == DlqDeliverSubject(s.workers[w].pc.raw.subject)
    ensures var pc := s.workers[w].pc;
            var copy := Copy(MessageId(pc.adv.stream, pc.adv.sequence), Outgoing(pc.adv, pc.raw));
            var s' := s.(dlqs := s.dlqs[name := Accept(s.dlqs[name], copy)]);
            Inv(s') && InDlq(s'.dlqs, pc.adv)
  {
    hide ForwardedFirst, Named, DistinctIds, DlqDeliverSubject, MessageId, StreamName, Outgoing, Rescues, Rescuable;
    var pc := s.workers[w].pc;
    var copy := Copy(MessageId(pc.adv.stream, pc.adv.sequence), Outgoing(pc.adv, pc.raw));
    assert WorkerOk(s.ever, pc);
    RoutedToOwn(s, w, name);
    OutgoingRescues(pc.adv, pc.raw);
    RescuableIff(pc.adv, pc.raw.subject);
    assert CopyOf(s.ever, name, copy, pc.adv);
    assert Genuine(s.ever, name, copy);
    AcceptKeepsDlq(s.ever, name, s.dlqs[name], copy);
    AcceptHolds(s.dlqs[name], copy);
    var s' := s.(dlqs := s.dlqs[name := Accept(s.dlqs[name], copy)]);
    AcceptKeepsHandled(s.dlqs, s'.dlqs, s.handled);
    assert forall n :: n in s'.dlqs ==> DlqOk(s'.ever, n, s'.dlqs[n]) by { hide DlqOk; }
  }

  lemma AcceptKeepsHandled(dlqs: Dlqs, dlqs': Dlqs, handled: seq<Handled>)
    requires HandledOk(dlqs, handled)
    requires forall name, id :: name in dlqs && HoldsId(dlqs[name].accepted, id) ==>
      name in dlqs' && HoldsId(dlqs'[name].accepted, id)
    ensures HandledOk(dlqs', handled)
  {
    hide HoldsId;
    forall i | 0 <= i < |handled| && Landed(handled[i].outcome)
      ensures InDlq(dlqs', handled[i].adv.value)
    {
      assert InDlq(dlqs, handled[i].adv.value);
    }
  }

  lemma RetryKeeps(s: System, w: nat, adv: Advisory, raw: Msg, attempt: nat)
    requires Inv(s) && w in s.workers && WorkerOk(s.ever, Publishing(adv, raw, attempt))
    ensures Inv(Retry(s, w, adv, raw, attempt))
  {
    hide Inv, Grabbed;
    if attempt + 1 < PUBLISH_ATTEMPTS {
      GotoKeeps(s, w, Publishing(adv, raw, attempt + 1));
    } else {
      FinishKeeps(s, w, Some(adv), Failed);
    }
  }

  lemma AttemptKeeps(s: System, w: nat, fate: Fate, at: Option<string>)
    requires Inv(s) && Enabled(s, Attempt(w, fate, at))
    ensures Inv(Apply(s, Attempt(w, fate, at)))
  {
    hide DlqOk, InDlq, ForwardedFirst, Kept, Forensic, DlqDeliverSubject, MessageId, Accept, HoldsId;
    var pc := s.workers[w].pc;
    assert WorkerOk(s.ever, pc);
    if fate.RequestLost? || at.None? {
      RetryKeeps(s, w, pc.adv, pc.raw, pc.attempt);
    } else {
      AcceptKeeps(s, w, at.value);
      var copy := Copy(MessageId(pc.adv.stream, pc.adv.sequence), Outgoing(pc.adv, pc.raw));
      var s' := s.(dlqs := s.dlqs[at.value := Accept(s.dlqs[at.value], copy)]);
      if fate.AckLost? {
        RetryKeeps(s', w, pc.adv, pc.raw, pc.attempt);
      } else {
        if !HoldsId(s.dlqs[at.value].accepted, copy.id) {
          NotLandedBefore(s, w, at.value);
        }
        FinishKeeps(s', w, Some(pc.adv),
          if HoldsId(s.dlqs[at.value].accepted, copy.id) then Deduplicated else Forwarded);
      }
    }
  }

  /** A stream that did not hold the id has seen no earlier rescue of that message land. */
  lemma NotLandedBefore(s: System, w: nat, name: string)
    requires Inv(s) && w in s.workers && s.workers[w].pc.Publishing?
    requires name in s.dlqs && s.dlqs[name].subject == DlqDeliverSubject(s.workers[w].pc.raw.subject)
    requires !HoldsId(s.dlqs[name].accepted, MessageId(s.workers[w].pc.adv.stream, s.workers[w].pc.adv.sequence))
    ensures forall i, o :: 0 <= i < |s.handled| && Landed(s.handled[i].outcome) ==>
              !SameMessage(s.handled[i], Handled(Some(s.workers[w].pc.adv), o))
  {
    hide DlqDeliverSubject, MessageId, HoldsId, ForwardedFirst;
    RoutedToOwn(s, w, name);
    forall i, o | 0 <= i < |s.handled| && Landed(s.handled[i].outcome)
      ensures !SameMessage(s.handled[i], Handled(Some(s.workers[w].pc.adv), o))
    {
      assert InDlq(s.dlqs, s.handled[i].adv.value);
    }
  }

  lemma FetchKeeps(s: System, w: nat, fetched: Fetched)
    requires Inv(s) && Enabled(s, Fetch(w, fetched))
    ensures Inv(Apply(s, Fetch(w, fetched)))
  {
    hide DlqOk, HandledOk, ForwardedFirst, SourceForwardable;
    var adv := s.workers[w].pc.adv;
    match fetched
    case Broken => FinishKeeps(s, w, Some(adv), Failed);
    case Missing => FinishKeeps(s, w, Some(adv), Skipped);
    case Found(raw) =>
      if SourceForwardable(adv.stream, raw.subject) {
        GotoKeeps(s, w, Ensuring(adv, raw));
      } else {
        FinishKeeps(s, w, Some(adv), Skipped);
      }
  }

  lemma StepKeeps(s: System, e: Event)
    requires Inv(s) && Enabled(s, e)
    ensures Inv(Apply(s, e))
  {
    match e
    case Append(stream, sequence, msg) => AppendKeeps(s, stream, sequence, msg);
    case Expire(_, _) => { hide DlqOk, HandledOk, ForwardedFirst; }
    case Provision(eventType) => ProvisionKeeps(s, eventType);
    case Receive(w, advisory) =>
      hide Inv;
      if advisory.None? || !Actionable(advisory.value) {
        FinishKeeps(s, w, advisory, Skipped);
      } else {
        GotoKeeps(s, w, Fetching(advisory.value));
      }
    case Fetch(w, fetched) => FetchKeeps(s, w, fetched);
    case Ensure(w, ok) =>
      if ok {
        EnsureKeeps(s, w);
      } else {
        hide Inv;
        FinishKeeps(s, w, Some(s.workers[w].pc.adv), Failed);
      }
    case Attempt(w, fate, at) => AttemptKeeps(s, w, fate, at);
    case StopRetry(w) =>
      hide Inv;
      FinishKeeps(s, w, Some(s.workers[w].pc.adv), Failed);
  }

  /**
  Across every interleaving: each dead-letter stream holds at most one copy per source message, every copy has the body
  of the message it was made from, every advisory counted as forwarded or deduplicated has its message in the stream,
  and a message is counted as forwarded at most once, before any deduplication.
  */
  lemma {:induction false} EveryInterleaving(run: seq<System>)
    requires IsRun(run)
    ensures Inv(run[|run| - 1])
    decreases |run|
  {
    hide Inv, Apply, Enabled;
    if |run| == 1 {
      InitialOk(run[0]);
    } else {
      var p := run[..|run| - 1];
      forall i | 0 <= i < |p| - 1
        ensures Step(p[i], p[i + 1])
      {
        assert Step(run[i], run[i + 1]);
      }
      EveryInterleaving(p);
      assert Step(run[|run| - 2], run[|run| - 2 + 1]);
      var e :| Enabled(run[|run| - 2], e) && run[|run| - 1] == Apply(run[|run| - 2], e);
      StepKeeps(run[|run| - 2], e);
    }
  }

  lemma InitialOk(s: System)
    requires Initial(s)
    ensures Inv(s)
  {
  }

  /** Two copies of one source message in one stream are the same copy; copies of two messages never share an id. */
  lemma AtMostOneCopy(run: seq<System>, s: System, name: string, i: nat, j: nat, a: Advisory, b: Advisory)
    requires IsRun(run) && s == run[|run| - 1]
    requires name in s.dlqs && i < |s.dlqs[name].accepted| && j < |s.dlqs[name].accepted|
    requires CopyOf(s.ever, name, s.dlqs[name].accepted[i], a) && CopyOf(s.ever, name, s.dlqs[name].accepted[j], b)
    ensures i == j <==> a.stream == b.stream && a.sequence == b.sequence
  {
    hide HandledOk, ForwardedFirst, Genuine, Outgoing, MessageId, Named;
    EveryInterleaving(run);
    assert DlqOk(s.ever, name, s.dlqs[name]);
    MessageIdIsInjective(a.stream, a.sequence, b.stream, b.sequence);
  }

  /** A copy of the message, under its id and with its body. */
  ghost predicate HoldsMessage(ever: Sources, copies: seq<Copy>, stream: string, sequence: nat) {
    && (stream, sequence) in ever
    && exists i ::
      && 0 <= i < |copies| && copies[i].id == MessageId(stream, sequence)
      && copies[i].msg.body == ever[(stream, sequence)].body
  }

  /** Everything counted as forwarded or deduplicated is in its stream with the body it had when it was published. */
  lemma EveryRescueKeepsTheMessage(run: seq<System>, s: System, h: Handled)
    requires IsRun(run) && s == run[|run| - 1] && h in s.handled && h.outcome in {Forwarded, Deduplicated}
    ensures h.adv.Some?
    ensures var adv, name := h.adv.value, DlqStreamName(h.adv.value.stream);
      name in s.dlqs && HoldsMessage(s.ever, s.dlqs[name].accepted, adv.stream, adv.sequence)
  {
    hide ForwardedFirst, Rescuable, MessageId, Named, DistinctIds;
    EveryInterleaving(run);
    var adv, name := h.adv.value, DlqStreamName(h.adv.value.stream);
    assert InDlq(s.dlqs, adv);
    assert DlqOk(s.ever, name, s.dlqs[name]);
    var copies := s.dlqs[name].accepted;
    var i :| 0 <= i < |copies| && copies[i].id == MessageId(adv.stream, adv.sequence);
    assert Genuine(s.ever, name, copies[i]);
    var other :| CopyOf(s.ever, name, copies[i], other);
    MessageIdIsInjective(adv.stream, adv.sequence, other.stream, other.sequence);
  }

  /** Every stream of `before` is still there, with its subject and everything it had accepted. */
  ghost predicate KeepsCopies(before: Dlqs, after: Dlqs) {
    forall name :: name in before ==>
      && name in after
      && after[name].subject == before[name].subject
      && before[name].accepted <= after[name].accepted
  }

  /**
  Only the source's own publishers and its retention touch a source stream; nothing a forwarder does removes a copy.
  */
  lemma ForwardersOnlyAdd(s: System, e: Event)
    requires Enabled(s, e)
    ensures !e.Append? && !e.Expire? ==> Apply(s, e).sources == s.sources && Apply(s, e).ever == s.ever
    ensures KeepsCopies(s.dlqs, Apply(s, e).dlqs)
  {
    hide DlqDeliverSubject, MessageId, Kept, Forensic, HoldsId, Actionable, SourceForwardable, Enabled;
    assert KeepsCopies(s.dlqs, s.dlqs);
    if e.Attempt? {
      hide KeepsCopies;
      assert e.w in s.workers && s.workers[e.w].pc.Publishing?
        && (e.at.Some? ==> e.at.value in s.dlqs) by { AttemptEnabled(s, e); }
      PublishOnlyAdds(s, e.w, s.workers[e.w].pc.adv, s.workers[e.w].pc.raw, s.workers[e.w].pc.attempt, e.fate, e.at);
    } else if e.Ensure? {
      assert e.w in s.workers && s.workers[e.w].pc.Ensuring? by { EnsureEnabled(s, e); }
    }
  }

  lemma AttemptEnabled(s: System, e: Event)
    requires e.Attempt? && Enabled(s, e)
    ensures e.w in s.workers && s.workers[e.w].pc.Publishing? && (e.at.Some? ==> e.at.value in s.dlqs)
  {
  }

  lemma EnsureEnabled(s: System, e: Event)
    requires e.Ensure? && Enabled(s, e)
    ensures e.w in s.workers && s.workers[e.w].pc.Ensuring?
  {
  }

  lemma PublishOnlyAdds(s: System, w: nat, adv: Advisory, raw: Msg, attempt: nat, fate: Fate, at: Option<string>)
    requires w in s.workers && (at.Some? ==> at.value in s.dlqs)
    ensures var s' := Publish(s, w, adv, raw, attempt, fate, at);
            s'.sources == s.sources && s'.ever == s.ever && KeepsCopies(s.dlqs, s'.dlqs)
  {
    hide DlqDeliverSubject, MessageId, Kept, Forensic, HoldsId;
  }

  // ---------------------------------------------------------------------------------------------------------------
  // Counters

  function Counter(s: Stats, o: Outcome): nat {
    match o
    case Forwarded => s.forwarded
    case Deduplicated => s.deduplicated
    case Skipped => s.skipped
    case Failed => s.failed
  }

  ghost function CounterOf(workers: map<nat, Worker>, o: Outcome): nat -> nat {
    w => if w in workers then Counter(workers[w].stats, o) else 0
  }

  /** A counter, summed over all the forwarders. */
  ghost function Tally(workers: map<nat, Worker>, o: Outcome): nat {
    TotalOver(workers.Keys, CounterOf(workers, o))
  }

  ghost function Count(handled: seq<Handled>, o: Outcome): nat {
    if handled == [] then 0
    else Count(handled[..|handled| - 1], o) + if handled[|handled| - 1].outcome == o then 1 else 0
  }

  lemma {:induction false} TotalCongruent(keys: set<nat>, f: nat -> nat, g: nat -> nat)
    requires forall k :: k in keys ==> f(k) == g(k)
    ensures TotalOver(keys, f) == TotalOver(keys, g)
    decreases |keys|
  {
    if keys == {} {
    } else {
      var k :| k in keys;
      TotalOverRemove(keys, f, k);
      TotalOverRemove(keys, g, k);
      TotalCongruent(keys - {k}, f, g);
    }
  }

  lemma TallyUpdate(workers: map<nat, Worker>, w: nat, x: Worker, o: Outcome)
    requires w in workers
    ensures Tally(workers[w := x], o) == Tally(workers, o) - Counter(workers[w].stats, o) + Counter(x.stats, o)
  {
    hide TotalOver, Counter;
    var f, g := CounterOf(workers, o), CounterOf(workers[w := x], o);
    var keys := workers.Keys;
    assert workers[w := x].Keys == keys;
    TotalOverRemove(keys, f, w);
    TotalOverRemove(keys, g, w);
    TotalCongruent(keys - {w}, f, g);
  }

  ghost predicate Balanced(s: System) {
    forall o :: Tally(s.workers, o) == Count(s.handled, o)
  }

  lemma FinishBalances(s: System, w: nat, adv: Option<Advisory>, outcome: Outcome)
    requires w in s.workers && Balanced(s)
    ensures Balanced(Finish(s, w, adv, outcome))
  {
    hide Tally;
    var s' := Finish(s, w, adv, outcome);
    assert s'.handled[..|s'.handled| - 1] == s.handled;
    forall o
      ensures Tally(s'.workers, o) == Count(s'.handled, o)
    {
      TallyUpdate(s.workers, w, Worker(Idle, Bump(s.workers[w].stats, outcome)), o);
    }
  }

  lemma GotoBalances(s: System, w: nat, pc: Pc)
    requires w in s.workers && Balanced(s)
    ensures Balanced(Goto(s, w, pc))
  {
    hide Tally;
    forall o
      ensures Tally(Goto(s, w, pc).workers, o) == Count(s.handled, o)
    {
      TallyUpdate(s.workers, w, s.workers[w].(pc := pc), o);
    }
  }

  lemma PublishBalances(s: System, w: nat, adv: Advisory, raw: Msg, attempt: nat, fate: Fate, at: Option<string>)
    requires w in s.workers && (at.Some? ==> at.value in s.dlqs) && Balanced(s)
    ensures Balanced(Publish(s, w, adv, raw, attempt, fate, at))
  {
    hide Tally, Count, Accept, HoldsId, MessageId, Outgoing;
    var s' := Publish(s, w, adv, raw, attempt, fate, at);
    var base := s.(dlqs := s'.dlqs);
    GotoBalances(base, w, Publishing(adv, raw, attempt + 1));
    FinishBalances(base, w, Some(adv), Failed);
    FinishBalances(base, w, Some(adv), Deduplicated);
    FinishBalances(base, w, Some(adv), Forwarded);
  }

  lemma StepBalances(s: System, e: Event)
    requires Enabled(s, e) && Balanced(s)
    ensures Balanced(Apply(s, e))
  {
    hide Tally, Count, Publish, Routes, SourceForwardable, Actionable, Ensured;
    match e
    case Append(_, _, _) =>
    case Expire(_, _) =>
    case Provision(_) =>
    case Receive(w, advisory) =>
      FinishBalances(s, w, advisory, Skipped);
      if advisory.Some? {
        GotoBalances(s, w, Fetching(advisory.value));
      }
    case Fetch(w, fetched) =>
      var adv := s.workers[w].pc.adv;
      FinishBalances(s, w, Some(adv), Failed);
      FinishBalances(s, w, Some(adv), Skipped);
      if fetched.Found? {
        GotoBalances(s, w, Ensuring(adv, fetched.msg));
      }
    case Ensure(w, ok) =>
      var adv, raw := s.workers[w].pc.adv, s.workers[w].pc.raw;
      FinishBalances(s, w, Some(adv), Failed);
      GotoBalances(s.(dlqs := Ensured(s.dlqs, DlqStreamName(adv.stream), DlqDeliverSubject(raw.subject))), w,
        Publishing(adv, raw, 0));
    case Attempt(w, fate, at) =>
      var pc := s.workers[w].pc;
      assert at.Some? ==> at.value in s.dlqs by { AttemptEnabled(s, e); }
      PublishBalances(s, w, pc.adv, pc.raw, pc.attempt, fate, at);
    case StopRetry(w) =>
      FinishBalances(s, w, Some(s.workers[w].pc.adv), Failed);
  }

  /**
  Over any run, each counter summed over the forwarders is the number of advisories that ended that way: each moved one
  counter by one.
  */
  lemma {:induction false} CountersAddUp(run: seq<System>)
    requires IsRun(run)
    ensures Balanced(run[|run| - 1])
    decreases |run|
  {
    hide Apply, Enabled, Balanced;
    if |run| == 1 {
      InitiallyBalanced(run[0]);
    } else {
      var p := run[..|run| - 1];
      forall i | 0 <= i < |p| - 1
        ensures Step(p[i], p[i + 1])
      {
        assert Step(run[i], run[i + 1]);
      }
      CountersAddUp(p);
      assert Step(run[|run| - 2], run[|run| - 2 + 1]);
      var e :| Enabled(run[|run| - 2], e) && run[|run| - 1] == Apply(run[|run| - 2], e);
      StepBalances(run[|run| - 2], e);
    }
  }

  lemma InitiallyBalanced(s: System)
    requires Initial(s)
    ensures Balanced(s)
  {
    forall o
      ensures Tally(s.workers, o) == 0
    {
      AllZero(s.workers.Keys, CounterOf(s.workers, o));
    }
  }

  lemma {:induction false} AllZero(keys: set<nat>, f: nat -> nat)
    requires forall k :: k in keys ==> f(k) == 0
    ensures TotalOver(keys, f) == 0
    decreases |keys|
  {
    if keys == {} {
    } else {
      var k :| k in keys;
      TotalOverRemove(keys, f, k);
      AllZero(keys - {k}, f);
    }
  }
}
