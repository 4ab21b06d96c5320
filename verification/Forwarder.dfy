/**
The forwarder itself, one advisory at a time against a server whose answers may fail: what each advisory comes to, and
that handling it is a stretch of a run of the protocol.
*/
module Forwarder {
  import opened Collections
  import opened Text
  import opened Naming
  import opened DeadLetters
  import opened ForwarderProtocol

  /** A JetStream server whose answers may fail at any call. */
  class JetStream {
    var sources: Sources
    var dlqs: Dlqs
    const broken: nat -> bool
    const fate: nat -> Fate
    var calls: nat

    constructor (sources: Sources, dlqs: Dlqs, broken: nat -> bool, fate: nat -> Fate)
      ensures this.sources == sources && this.dlqs == dlqs && this.broken == broken && this.fate == fate
    {
      this.sources, this.dlqs, this.broken, this.fate, this.calls := sources, dlqs, broken, fate, 0;
    }

    method GetMsg(stream: string, sequence: nat) returns (r: Fetched)
      modifies this`calls
      ensures calls == old(calls) + 1
      ensures r == if broken(calls) then Broken
        else if (stream, sequence) in sources then Found(sources[(stream, sequence)]) else Missing
    {
      calls := calls + 1;
      if broken(calls) {
        return Broken;
      }
      if (stream, sequence) !in sources {
        return Missing;
      }
      return Found(sources[(stream, sequence)]);
    }

    method AddStream(name: string, subject: string) returns (ok: bool)
      modifies this`calls, this`dlqs
      ensures calls == old(calls) + 1 && (ok <==> !broken(calls))
      ensures dlqs == if ok then Ensured(old(dlqs), name, subject) else old(dlqs)
    {
      calls := calls + 1;
      ok := !broken(calls);
      if ok && name !in dlqs {
        dlqs := dlqs[name := Dlq(subject, [])];
      }
    }

    /** Routes by exact subject. `ack` is absent when the client sees an error, whatever the server did. */
    method PublishMsg(msg: Msg, id: string) returns (ack: Option<bool>, ghost at: Option<string>)
      modifies this`calls, this`dlqs
      ensures calls == old(calls) + 1
      ensures at.Some? ==> at.value in old(dlqs) && old(dlqs)[at.value].subject == msg.subject
      ensures at.Some? <==> !fate(calls).RequestLost? && Routable(old(dlqs), msg.subject)
      ensures ack.Some? <==> at.Some? && fate(calls).Acked?
      ensures dlqs == if at.Some? then old(dlqs)[at.value := Accept(old(dlqs)[at.value], Copy(id, msg))] else old(dlqs)
      ensures ack.Some? ==> (ack.value <==> HoldsId(old(dlqs)[at.value].accepted, id))
    {
      calls := calls + 1;
      var f := fate(calls);
      ack, at := None, None;
      if f.RequestLost? {
        return;
      }
      var todo := dlqs.Keys;
      while todo != {}
        invariant todo <= dlqs.Keys
        invariant forall name :: name in dlqs && name !in todo ==> dlqs[name].subject != msg.subject
        invariant dlqs == old(dlqs) && at.None? && ack.None?
        decreases |todo|
      {
        var name :| name in todo;
        todo := todo - {name};
        if dlqs[name].subject == msg.subject {
          var duplicate := HoldsId(dlqs[name].accepted, id);
          at := Some(name);
          dlqs := dlqs[name := Accept(dlqs[name], Copy(id, msg))];
          ack := if f.Acked? then Some(duplicate) else None;
          return;
        }
      }
    }
  }

  /** Of the `left` attempts from call `call` on, one is answered before `Stop` cuts a wait short. */
  ghost predicate GetsThrough(fate: nat -> Fate, call: nat, stopped: nat -> bool, wait: nat, left: nat) {
    exists m: nat :: call <= m < call + left && fate(m).Acked? &&
      forall i :: wait <= i < wait + m - call ==> !stopped(i)
  }

  /** The message an advisory names is there and belongs to a stream these conventions provisioned. */
  ghost predicate Forwardable(sources: Sources, adv: Advisory) {
    (adv.stream, adv.sequence) in sources && SourceForwardable(adv.stream, sources[(adv.stream, adv.sequence)].subject)
  }

  /** The message is there to be rescued. */
  ghost predicate CanRescue(sources: Sources, adv: Advisory) {
    (adv.stream, adv.sequence) in sources && Rescuable(adv, sources[(adv.stream, adv.sequence)].subject)
  }

  lemma RescuableOrSkipped(sources: Sources, advisory: Option<Advisory>)
    ensures advisory.Some? ==>
      && (Actionable(advisory.value) <==>
            advisory.value.stream != "" && advisory.value.sequence != 0 && !("DLQ_" <= advisory.value.stream))
      && (CanRescue(sources, advisory.value) <==> Actionable(advisory.value) && Forwardable(sources, advisory.value))
  {
    hide StreamName;
  }

  ghost predicate Steps(run: seq<System>) {
    forall i :: 0 <= i < |run| - 1 ==> Step(run[i], run[i + 1])
  }

  /** The system with one forwarder moved on, its streams and what is handled. */
  ghost function Moved(s: System, me: nat, dlqs: Dlqs, worker: Worker, handled: seq<Handled>): System {
    s.(dlqs := dlqs, workers := s.workers[me := worker], handled := handled)
  }

  lemma GotoMoved(s: System, me: nat, dlqs: Dlqs, worker: Worker, handled: seq<Handled>, pc: Pc)
    ensures Goto(Moved(s, me, dlqs, worker, handled), me, pc) == Moved(s, me, dlqs, worker.(pc := pc), handled)
  {
    assert s.workers[me := worker][me := worker.(pc := pc)] == s.workers[me := worker.(pc := pc)];
  }

  lemma FinishMoved(s: System, me: nat, dlqs: Dlqs, worker: Worker, handled: seq<Handled>, adv: Option<Advisory>,
      outcome: Outcome)
    ensures Finish(Moved(s, me, dlqs, worker, handled), me, adv, outcome) ==
            Moved(s, me, dlqs, Worker(Idle, Bump(worker.stats, outcome)), handled + [Handled(adv, outcome)])
  {
    var next := Worker(Idle, Bump(worker.stats, outcome));
    assert s.workers[me := worker][me := next] == s.workers[me := next];
  }

  /** Where a publish leaves its forwarder: with an answer, or with none. */
  ghost function After(adv: Advisory, raw: Msg, k: nat, stats: Stats, ack: Option<bool>): Worker {
    if ack.Some? then Worker(Idle, Bump(stats, if ack.value then Deduplicated else Forwarded))
    else if k + 1 < PUBLISH_ATTEMPTS then Worker(Publishing(adv, raw, k + 1), stats)
    else Worker(Idle, Bump(stats, Failed))
  }

  ghost function AfterHandled(adv: Advisory, k: nat, handled: seq<Handled>, ack: Option<bool>): seq<Handled> {
    if ack.Some? then handled + [Handled(Some(adv), if ack.value then Deduplicated else Forwarded)]
    else if k + 1 < PUBLISH_ATTEMPTS then handled
    else handled + [Handled(Some(adv), Failed)]
  }

  /** One publish, as the protocol has it. */
  lemma PublishMoves(s: System, me: nat, before: Dlqs, after: Dlqs, adv: Advisory, raw: Msg, k: nat, stats: Stats,
      handled: seq<Handled>,
                     fate: Fate, at: Option<string>, ack: Option<bool>)
    requires at.Some? ==> at.value in before && before[at.value].subject == DlqDeliverSubject(raw.subject)
    requires at.Some? <==> !fate.RequestLost? && Routable(before, DlqDeliverSubject(raw.subject))
    requires ack.Some? <==> at.Some? && fate.Acked?
    requires after == if at.Some?
                      then before[at.value := Accept(before[at.value],
                        Copy(MessageId(adv.stream, adv.sequence), Outgoing(adv, raw)))]
                      else before
    requires ack.Some? ==> (ack.value <==> HoldsId(before[at.value].accepted, MessageId(adv.stream, adv.sequence)))
    ensures Step(Moved(s, me, before, Worker(Publishing(adv, raw, k), stats), handled),
                 Moved(s, me, after, After(adv, raw, k, stats, ack), AfterHandled(adv, k, handled, ack)))
  {
    hide MessageId, DlqDeliverSubject, Outgoing, HoldsId, Accept, Bump, Goto, Finish;
    var worker := Worker(Publishing(adv, raw, k), stats);
    var sys := Moved(s, me, before, worker, handled);
    var to := if at.Some? || !Routable(before, DlqDeliverSubject(raw.subject)) then at
      else Listening(before, DlqDeliverSubject(raw.subject));
    var e := Attempt(me, fate, to);
    assert Enabled(sys, e);
    assert sys.(dlqs := after) == Moved(s, me, after, worker, handled);
    FinishMoved(s, me, after, worker, handled, Some(adv), Failed);
    FinishMoved(s, me, after, worker, handled, Some(adv), Forwarded);
    FinishMoved(s, me, after, worker, handled, Some(adv), Deduplicated);
    GotoMoved(s, me, after, worker, handled, Publishing(adv, raw, k + 1));
    assert Apply(sys, e) == Moved(s, me, after, After(adv, raw, k, stats, ack), AfterHandled(adv, k, handled, ack));
  }

  ghost function Listening(dlqs: Dlqs, subject: string): (at: Option<string>)
    requires Routable(dlqs, subject)
    ensures at.Some? && at.value in dlqs && dlqs[at.value].subject == subject
  {
    var name :| name in dlqs && dlqs[name].subject == subject;
    Some(name)
  }

  class DLQForwarder {
    const server: JetStream
    /** Which forwarder of the protocol this is, and the stretch of a run it has been through. */
    ghost const me: nat
    ghost var run: seq<System>
    /** Whether `Stop` has been called when the n-th retry is due. */
    const stopped: nat -> bool
    var stats: Stats
    var waits: nat

    constructor (server: JetStream, stopped: nat -> bool, ghost me: nat)
      ensures this.server == server && this.me == me && stats == Stats(0, 0, 0, 0)
    {
      this.server, this.stopped, this.stats, this.waits := server, stopped, Stats(0, 0, 0, 0), 0;
      this.me, this.run := me, [];
    }

    /**
    The protocol has reached a state that differs from where the stretch began as given, with the server as it is.
    */
    ghost predicate At(worker: Worker, handled: seq<Handled>)
      reads `run, server`dlqs, server`sources
    {
      && run != [] && Steps(run) && me in run[0].workers && run[0].sources == server.sources
      && run[|run| - 1] == Moved(run[0], me, server.dlqs, worker, handled)
    }

    ghost method Move(s': System)
      requires run != [] && Steps(run) && Step(run[|run| - 1], s')
      modifies `run
      ensures Steps(run) && run == old(run) + [s']
    {
      hide Step;
      run := run + [s'];
    }

    /** One publish, and what it leaves behind. */
    method Attempt(out: Msg, id: string, ghost adv: Advisory, ghost raw: Msg, ghost k: nat, ghost handled: seq<Handled>)
      returns (ack: Option<bool>, ghost at: Option<string>)
      requires out == Outgoing(adv, raw) && id == MessageId(adv.stream, adv.sequence)
      requires At(Worker(Publishing(adv, raw, k), stats), handled)
      modifies server`dlqs, server`calls, `run
      ensures At(After(adv, raw, k, stats, ack), AfterHandled(adv, k, handled, ack)) && old(run) <= run
      ensures server.calls == old(server.calls) + 1
      ensures ack.Some? <==> Routable(old(server.dlqs), out.subject) && server.fate(server.calls).Acked?
      ensures ack.Some? ==>
        && at.Some? && at.value in server.dlqs && server.dlqs[at.value].subject == out.subject
        && HoldsId(server.dlqs[at.value].accepted, id)
      ensures ack.Some? ==>
        && at.value in old(server.dlqs)
        && (ack.value <==> HoldsId(old(server.dlqs)[at.value].accepted, id))
      ensures ack == Some(false) ==> HoldsRescue(server.dlqs[at.value].accepted, adv, raw)
      ensures Grew(old(server.dlqs), server.dlqs, Copy(id, out))
    {
      hide Grew, HoldsId, HoldsRescue, Rescues, Routable, MessageId, Steps, Step, Moved, After, AfterHandled, Kept,
        Forensic,
        DlqDeliverSubject;
      ghost var before := server.dlqs;
      ack, at := server.PublishMsg(out, id);
      AcceptGrows(before, server.dlqs, at, Copy(id, out));
      if ack.Some? {
        AcceptHolds(before[at.value], Copy(id, out));
        if !ack.value {
          OutgoingRescues(adv, raw);
          NewIsRescue(before[at.value].accepted, server.dlqs[at.value].accepted, adv, raw, out);
        }
      }
      PublishMoves(run[0], me, before, server.dlqs, adv, raw, k, stats, handled, server.fate(server.calls), at, ack);
      Move(Moved(run[0], me, server.dlqs, After(adv, raw, k, stats, ack), AfterHandled(adv, k, handled, ack)));
    }

    /**
    The bounded retry loop. Every attempt carries the same id; a success is counted here, a failure by the caller.
    */
    method PublishToDLQ(adv: Advisory, raw: Msg, ghost handled: seq<Handled>)
      returns (ok: bool, ghost outcome: Outcome, ghost at: Option<string>)
      requires At(Worker(Publishing(adv, raw, 0), stats), handled)
      modifies this`stats, this`waits, `run, server`dlqs, server`calls
      ensures At(Worker(Idle, Bump(old(stats), outcome)), handled + [Handled(Some(adv), outcome)]) && old(run) <= run
      ensures server.sources == old(server.sources)
      ensures ok <==>
        && Routable(old(server.dlqs), DlqDeliverSubject(raw.subject))
        && GetsThrough(server.fate, old(server.calls) + 1, stopped, old(waits) + 1, 3)
      ensures ok ==> outcome in {Forwarded, Deduplicated} && stats == Bump(old(stats), outcome)
      ensures !ok ==> outcome == Failed && stats == old(stats)
      ensures ok ==>
        && at.Some? && at.value in server.dlqs
        && server.dlqs[at.value].subject == DlqDeliverSubject(raw.subject)
        && HoldsId(server.dlqs[at.value].accepted, MessageId(adv.stream, adv.sequence))
      ensures ok ==> at.value in old(server.dlqs)
      ensures outcome == Forwarded ==>
        !HoldsId(old(server.dlqs)[at.value].accepted, MessageId(adv.stream, adv.sequence))
      ensures ok && server.fate(old(server.calls) + 1).Acked? ==>
        (outcome == Deduplicated <==> HoldsId(old(server.dlqs)[at.value].accepted, MessageId(adv.stream, adv.sequence)))
      ensures Grew(old(server.dlqs), server.dlqs, Copy(MessageId(adv.stream, adv.sequence), Outgoing(adv, raw)))
      ensures Rescues(adv, raw, Outgoing(adv, raw))
      ensures outcome == Forwarded ==> HoldsRescue(server.dlqs[at.value].accepted, adv, raw)
    {
      hide MessageId, DlqDeliverSubject, Kept, Forensic, Grew, HoldsId, Routable, GetsThrough, At, Bump, Rescues,
        HoldsRescue;
      OutgoingRescues(adv, raw);
      GrewNot(server.dlqs, Copy(MessageId(adv.stream, adv.sequence), Outgoing(adv, raw)));
      var header := DlqHeader(raw.header, adv, raw.subject);
      var out := Msg(DlqDeliverSubject(raw.subject), header, raw.body);
      var id := MessageId(adv.stream, adv.sequence);
      assert out == Outgoing(adv, raw);
      hide Outgoing;
      ok, outcome, at := false, Failed, None;
      ghost var calls0, waits0 := server.calls, waits;
      for attempt := 0 to PUBLISH_ATTEMPTS
        invariant !ok && outcome == Failed && stats == old(stats) && old(run) <= run
        invariant attempt < PUBLISH_ATTEMPTS ==> At(Worker(Publishing(adv, raw, attempt), stats), handled)
        invariant attempt == PUBLISH_ATTEMPTS ==>
          At(Worker(Idle, Bump(stats, Failed)), handled + [Handled(Some(adv), Failed)])
        invariant Grew(old(server.dlqs), server.dlqs, Copy(id, out))
        invariant attempt == 0 ==> server.dlqs == old(server.dlqs)
        invariant attempt > 0 && Routable(old(server.dlqs), out.subject) ==> !server.fate(calls0 + 1).Acked?
        invariant server.calls == calls0 + attempt && waits == waits0 + if attempt > 0 then attempt - 1 else 0
        invariant Routable(old(server.dlqs), out.subject) && attempt > 0 ==>
          (GetsThrough(server.fate, calls0 + 1, stopped, waits0 + 1, PUBLISH_ATTEMPTS) <==>
             && !stopped(waits0 + attempt)
             && GetsThrough(server.fate, calls0 + 1 + attempt, stopped, waits0 + 1 + attempt,
               PUBLISH_ATTEMPTS - attempt))
      {
        if attempt > 0 {
          waits := waits + 1;
          if stopped(waits) {
            GiveUp(adv, raw, attempt, handled);
            return;
          }
        }
        var ack;
        ghost var before := server.dlqs;
        OneAttempt(server.fate, calls0 + 1 + attempt, stopped, waits0 + 1 + attempt, PUBLISH_ATTEMPTS - attempt);
        RoutableStays(old(server.dlqs), before, Copy(id, out), out.subject);
        ghost var so := run;
        ack, at := Attempt(out, id, adv, raw, attempt, handled);
        Prefixes(old(run), so, run);
        GrewTwice(old(server.dlqs), before, server.dlqs, Copy(id, out));
        if ack.None? {
          continue;
        }
        HeldStays(old(server.dlqs), before, Copy(id, out), at.value);
        ok := true;
        outcome := Landed(ack.value);
        return;
      }
      NoneLeft(server.fate, calls0 + 1 + PUBLISH_ATTEMPTS, stopped, waits0 + 1 + PUBLISH_ATTEMPTS);
    }

    /** The server's answer is counted. */
    method Landed(duplicate: bool) returns (ghost outcome: Outcome)
      modifies this`stats
      ensures outcome == if duplicate then Deduplicated else Forwarded
      ensures stats == Bump(old(stats), outcome)
    {
      if duplicate {
        stats := stats.(deduplicated := stats.deduplicated + 1);
        return Deduplicated;
      }
      stats := stats.(forwarded := stats.forwarded + 1);
      return Forwarded;
    }

    ghost method GiveUp(adv: Advisory, raw: Msg, k: nat, handled: seq<Handled>)
      requires k > 0 && At(Worker(Publishing(adv, raw, k), stats), handled)
      modifies `run
      ensures At(Worker(Idle, Bump(stats, Failed)), handled + [Handled(Some(adv), Failed)]) && old(run) <= run
    {
      hide Steps, Bump;
      var s := run[|run| - 1];
      FinishMoved(run[0], me, server.dlqs, Worker(Publishing(adv, raw, k), stats), handled, Some(adv), Failed);
      assert Enabled(s, StopRetry(me));
      Move(Apply(s, StopRetry(me)));
    }

    /** Fetches the message, provisions its dead-letter stream, and publishes the copy. */
    method Forward(adv: Advisory, ghost handled: seq<Handled>) returns (ok: bool, ghost outcome: Outcome)
      requires At(Worker(Fetching(adv), stats), handled)
      modifies this`stats, this`waits, `run, server`dlqs, server`calls
      ensures At(Worker(Idle, Bump(old(stats), outcome)), handled + [Handled(Some(adv), outcome)]) && old(run) <= run
      ensures server.sources == old(server.sources)
      ensures ok ==> outcome != Failed && stats == Bump(old(stats), outcome)
      ensures !ok ==> outcome == Failed && stats == old(stats)
      ensures outcome == Skipped <==> !server.broken(old(server.calls) + 1) && !Forwardable(server.sources, adv)
      ensures outcome in {Forwarded, Deduplicated} <==>
        && !server.broken(old(server.calls) + 1) && Forwardable(server.sources, adv)
        && !server.broken(old(server.calls) + 2)
        && Reachable(old(server.dlqs), adv.stream, server.sources[(adv.stream, adv.sequence)].subject)
        && GetsThrough(server.fate, old(server.calls) + 3, stopped, old(waits) + 1, 3)
      ensures outcome in {Forwarded, Deduplicated} ==> Rescued(server.sources, server.dlqs, adv)
      ensures outcome == Forwarded ==> RescuedAnew(server.sources, server.dlqs, adv)
    {
      hide MessageId, HoldsRescue, DlqDeliverSubject, DlqStreamName, StreamName, Grew, GetsThrough, Routable, HoldsId,
        SourceForwardable, At;
      var raw := Fetch(adv, handled);
      if raw.Broken? {
        return false, Failed;
      }
      if raw.Missing? {
        stats := stats.(skipped := stats.skipped + 1);
        return true, Skipped;
      }
      if !SourceForwardable(adv.stream, raw.msg.subject) {
        stats := stats.(skipped := stats.skipped + 1);
        return true, Skipped;
      }
      ghost var so := run;
      var added := EnsureStream(adv, raw.msg, handled);
      Prefixes(old(run), so, run);
      if !added {
        return false, Failed;
      }
      ghost var at;
      ghost var now := run;
      ok, outcome, at := PublishToDLQ(adv, raw.msg, handled);
      Prefixes(old(run), now, run);
    }

    method Fetch(adv: Advisory, ghost handled: seq<Handled>) returns (raw: Fetched)
      requires At(Worker(Fetching(adv), stats), handled)
      modifies `run, server`calls
      ensures server.calls == old(server.calls) + 1
      ensures raw ==
        if server.broken(server.calls) then Broken
        else if (adv.stream, adv.sequence) in server.sources then Found(server.sources[(adv.stream, adv.sequence)])
        else Missing
      ensures old(run) <= run
      ensures raw.Broken? ==> At(Worker(Idle, Bump(stats, Failed)), handled + [Handled(Some(adv), Failed)])
      ensures raw.Missing? || (raw.Found? && !SourceForwardable(adv.stream, raw.msg.subject)) ==>
        At(Worker(Idle, Bump(stats, Skipped)), handled + [Handled(Some(adv), Skipped)])
      ensures raw.Found? && SourceForwardable(adv.stream, raw.msg.subject) ==>
        At(Worker(Ensuring(adv, raw.msg), stats), handled)
    {
      hide Steps, Bump, SourceForwardable, Goto, Finish;
      raw := server.GetMsg(adv.stream, adv.sequence);
      ghost var s, worker := run[|run| - 1], Worker(Fetching(adv), stats);
      FinishMoved(run[0], me, server.dlqs, worker, handled, Some(adv), Failed);
      FinishMoved(run[0], me, server.dlqs, worker, handled, Some(adv), Skipped);
      if raw.Found? {
        GotoMoved(run[0], me, server.dlqs, worker, handled, Ensuring(adv, raw.msg));
      }
      assert Enabled(s, Event.Fetch(me, raw));
      Move(Apply(s, Event.Fetch(me, raw)));
    }

    method EnsureStream(adv: Advisory, raw: Msg, ghost handled: seq<Handled>) returns (ok: bool)
      requires At(Worker(Ensuring(adv, raw), stats), handled)
      modifies `run, server`calls, server`dlqs
      ensures server.calls == old(server.calls) + 1 && (ok <==> !server.broken(server.calls))
      ensures server.dlqs ==
        if ok then Ensured(old(server.dlqs), DlqStreamName(adv.stream), DlqDeliverSubject(raw.subject))
          else old(server.dlqs)
      ensures old(run) <= run
      ensures ok ==> At(Worker(Publishing(adv, raw, 0), stats), handled)
      ensures !ok ==> At(Worker(Idle, Bump(stats, Failed)), handled + [Handled(Some(adv), Failed)])
    {
      hide Steps, Bump, Goto, Finish, DlqDeliverSubject, DlqStreamName, Ensured;
      ghost var before := server.dlqs;
      ok := server.AddStream(DlqStreamName(adv.stream), DlqDeliverSubject(raw.subject));
      ghost var s, worker := run[|run| - 1], Worker(Ensuring(adv, raw), stats);
      FinishMoved(run[0], me, before, worker, handled, Some(adv), Failed);
      GotoMoved(run[0], me, server.dlqs, worker, handled, Publishing(adv, raw, 0));
      assert s.(dlqs := server.dlqs) == Moved(run[0], me, server.dlqs, worker, handled);
      assert Enabled(s, Ensure(me, ok));
      Move(Apply(s, Ensure(me, ok)));
    }

    /** The receipt, as the protocol has it. */
    ghost method Received(advisory: Option<Advisory>, s: System)
      requires run == [s] && me in s.workers && s.workers[me] == Worker(Idle, stats) && s.dlqs == server.dlqs
        && s.sources == server.sources
      modifies `run
      ensures |run| > 0 && run[0] == s
      ensures advisory.None? || !Actionable(advisory.value) ==>
        At(Worker(Idle, Bump(stats, Skipped)), s.handled + [Handled(advisory, Skipped)])
      ensures advisory.Some? && Actionable(advisory.value) ==> At(Worker(Fetching(advisory.value), stats), s.handled)
    {
      hide Bump, Actionable, Goto, Finish;
      assert s.workers[me := s.workers[me]] == s.workers;
      assert s == Moved(s, me, server.dlqs, Worker(Idle, stats), s.handled);
      FinishMoved(s, me, server.dlqs, Worker(Idle, stats), s.handled, advisory, Skipped);
      if advisory.Some? {
        GotoMoved(s, me, server.dlqs, Worker(Idle, stats), s.handled, Fetching(advisory.value));
      }
      assert Enabled(s, Receive(me, advisory));
      Move(Apply(s, Receive(me, advisory)));
    }

    /**
    One advisory, decoded or not: exactly one counter moves, by one, and which one is settled by the advisory, the
    source streams and the server's answers; the source streams are untouched; and a rescue that is counted as forwarded
    or deduplicated is in a dead-letter stream. In the protocol it is a stretch of a run in which only this forwarder
    moves.
    */
    method Handle(advisory: Option<Advisory>, ghost s: System) returns (ghost outcome: Outcome)
      requires me in s.workers && s.workers[me] == Worker(Idle, stats) && s.dlqs == server.dlqs
        && s.sources == server.sources
      modifies this`stats, this`waits, `run, server`dlqs, server`calls
      ensures run != [] && Steps(run) && run[0] == s
      ensures run[|run| - 1] == Moved(s, me, server.dlqs, Worker(Idle, stats), s.handled + [Handled(advisory, outcome)])
      ensures stats == Bump(old(stats), outcome)
      ensures server.sources == old(server.sources)
      ensures outcome == Skipped <==>
        || advisory.None? || advisory.value.stream == "" || advisory.value.sequence == 0
          || "DLQ_" <= advisory.value.stream
        || (!server.broken(old(server.calls) + 1) && !CanRescue(server.sources, advisory.value))
      ensures outcome in {Forwarded, Deduplicated} <==>
        && advisory.Some? && CanRescue(server.sources, advisory.value)
        && !server.broken(old(server.calls) + 1)
        && !server.broken(old(server.calls) + 2)
        && Reachable(old(server.dlqs), advisory.value.stream,
          server.sources[(advisory.value.stream, advisory.value.sequence)].subject)
        && GetsThrough(server.fate, old(server.calls) + 3, stopped, old(waits) + 1, 3)
      ensures outcome in {Forwarded, Deduplicated} ==>
        advisory.Some? && Rescued(server.sources, server.dlqs, advisory.value)
      ensures outcome == Forwarded ==> RescuedAnew(server.sources, server.dlqs, advisory.value)
    {
      hide RescuedAnew, CanRescue, Rescued, GetsThrough, Reachable, Forwardable, Steps, Actionable;
      RescuableOrSkipped(server.sources, advisory);
      run := [s];
      Received(advisory, s);
      if advisory.None? || !Actionable(advisory.value) {
        stats := stats.(skipped := stats.skipped + 1);
        return Skipped;
      }
      var ok;
      ghost var so := run;
      ok, outcome := Forward(advisory.value, s.handled);
      assert run[0] == so[0];
      if !ok {
        stats := stats.(failed := stats.failed + 1);
      }
    }
  }

  /** Once its own dead-letter stream is provisioned, the subject has a stream listening. */
  ghost predicate Reachable(dlqs: Dlqs, stream: string, subject: string) {
    Routable(Ensured(dlqs, DlqStreamName(stream), DlqDeliverSubject(subject)), DlqDeliverSubject(subject))
  }

  lemma OneAttempt(fate: nat -> Fate, call: nat, stopped: nat -> bool, wait: nat, left: nat)
    requires left > 0
    ensures GetsThrough(fate, call, stopped, wait, left) <==>
            fate(call).Acked? || (!stopped(wait) && GetsThrough(fate, call + 1, stopped, wait + 1, left - 1))
  {
    if !fate(call).Acked? && GetsThrough(fate, call, stopped, wait, left) {
      assert !stopped(wait);
    }
  }

  lemma NoneLeft(fate: nat -> Fate, call: nat, stopped: nat -> bool, wait: nat)
    ensures !GetsThrough(fate, call, stopped, wait, 0)
  {
  }

  lemma HeldStays(before: Dlqs, after: Dlqs, copy: Copy, name: string)
    requires Grew(before, after, copy) && name in after
    ensures name in before && (HoldsId(before[name].accepted, copy.id) ==> HoldsId(after[name].accepted, copy.id))
  {
    assert GrewBy(before[name], after[name], copy);
  }

  lemma RoutableStays(before: Dlqs, after: Dlqs, copy: Copy, subject: string)
    requires Grew(before, after, copy)
    ensures Routable(before, subject) <==> Routable(after, subject)
  {
    hide HoldsId;
    assert forall name :: name in before ==> GrewBy(before[name], after[name], copy);
  }

  /** The message an advisory names is in a dead-letter stream of its own subject, under its own id. */
  ghost predicate Rescued(sources: Sources, dlqs: Dlqs, adv: Advisory) {
    && (adv.stream, adv.sequence) in sources
    && exists name ::
         && name in dlqs
         && dlqs[name].subject == DlqDeliverSubject(sources[(adv.stream, adv.sequence)].subject)
         && HoldsId(dlqs[name].accepted, MessageId(adv.stream, adv.sequence))
  }

  /** The message, as it is rescued, under its own id. */
  ghost predicate HoldsRescue(copies: seq<Copy>, adv: Advisory, raw: Msg) {
    exists i :: 0 <= i < |copies| && copies[i].id == MessageId(adv.stream, adv.sequence)
      && Rescues(adv, raw, copies[i].msg)
  }

  lemma NewIsRescue(before: seq<Copy>, after: seq<Copy>, adv: Advisory, raw: Msg, out: Msg)
    requires after == before + [Copy(MessageId(adv.stream, adv.sequence), out)] && Rescues(adv, raw, out)
    ensures HoldsRescue(after, adv, raw)
  {
    hide MessageId, Rescues;
    assert after[|before|].msg == out;
  }

  /** A message forwarded just now is in a dead-letter stream of its subject, body and headers kept. */
  ghost predicate RescuedAnew(sources: Sources, dlqs: Dlqs, adv: Advisory) {
    && (adv.stream, adv.sequence) in sources
    && var raw := sources[(adv.stream, adv.sequence)];
    && exists name ::
         name in dlqs && dlqs[name].subject == DlqDeliverSubject(raw.subject)
           && HoldsRescue(dlqs[name].accepted, adv, raw)
  }

  /** Streams keep their subjects and what they accepted; anything added to one is the given copy. */
  ghost predicate Grew(before: Dlqs, after: Dlqs, copy: Copy) {
    && before.Keys == after.Keys
    && forall name :: name in before ==> GrewBy(before[name], after[name], copy)
  }

  ghost predicate GrewBy(before: Dlq, after: Dlq, copy: Copy) {
    after.subject == before.subject && (after.accepted == before.accepted || after.accepted == before.accepted + [copy])
      && (after.accepted != before.accepted ==>
        !HoldsId(before.accepted, copy.id) && copy.msg.subject == before.subject)
  }

  lemma AcceptGrows(before: Dlqs, after: Dlqs, at: Option<string>, copy: Copy)
    requires at.Some? ==> at.value in before && before[at.value].subject == copy.msg.subject
    requires after == if at.Some? then before[at.value := Accept(before[at.value], copy)] else before
    ensures Grew(before, after, copy)
  {
  }

  lemma GrewNot(dlqs: Dlqs, copy: Copy)
    ensures Grew(dlqs, dlqs, copy)
  {
  }

  lemma GrewTwice(a: Dlqs, b: Dlqs, c: Dlqs, copy: Copy)
    requires Grew(a, b, copy) && Grew(b, c, copy)
    ensures Grew(a, c, copy)
  {
    forall name | name in a
      ensures GrewBy(a[name], c[name], copy)
    {
      assert GrewBy(a[name], b[name], copy) && GrewBy(b[name], c[name], copy);
      assert a[name].accepted != b[name].accepted ==> b[name].accepted[|a[name].accepted|] == copy;
    }
  }
}
