/**
A subscriber's delivery loop: polls a consumer, filters what arrives, delivers it in order, settles every message once
and closes behind the terminal event of the run it follows.
*/
module Subscriber {
  import opened Text
  import opened Naming

  datatype CloudEvent = CloudEvent(id: string, eventType: string, workflowId: string, data: string)

  datatype Message = Garbled | Carries(event: CloudEvent)

  /** An empty `workflowId` means every workflow. */
  datatype SubscribeRequest = SubscribeRequest(typePattern: string, workflowId: string)

  datatype Settlement = Ack | Nak

  /**
  One turn of the loop, as the outside decides it: the context is found cancelled; the consumer times out; it is gone;
  or a message arrives and, if it is offered to the channel, is taken or overtaken by cancellation.
  */
  datatype Poll = Cancelled | Quiet | Gone | Arrives(message: Message, taken: bool)

  const TERMINAL_VERBS := ["workflow.completed", "workflow.failed", "workflow.terminated", "workflow.canceled",
    "workflow.timed_out"]

  /** The last dot-separated segments of `s` are those of `tail`. */
  ghost predicate EndsInSegments(s: string, tail: string) {
    && |Split(tail)| <= |Split(s)|
    && Split(s)[|Split(s)| - |Split(tail)|..] == Split(tail)
  }

  ghost predicate Terminal(eventType: string) {
    exists i :: 0 <= i < |TERMINAL_VERBS| && EndsInSegments(eventType, TERMINAL_VERBS[i])
  }

  lemma SuffixIsSegments(s: string, verb: string)
    ensures s == verb || HasSuffix(s, "." + verb) <==> EndsInSegments(s, verb)
  {
    hide Split;
    if HasSuffix(s, "." + verb) {
      var head := s[..|s| - |verb| - 1];
      assert s == head + "." + verb;
      SplitAppend(head, verb);
    }
    if EndsInSegments(s, verb) {
      var k := |Split(s)| - |Split(verb)|;
      var front := Split(s)[..k];
      assert Split(s) == front + Split(verb);
      if front == [] {
        assert Split(s) == Split(verb);
      } else {
        JoinAppend(front, Split(verb));
        EndsIn(Join(front), "." + verb);
      }
    }
  }

  lemma EndsIn(a: string, b: string)
    ensures HasSuffix(a + b, b)
  {
  }

  lemma FiveVerbs(eventType: string)
    ensures Terminal(eventType) <==>
      || EndsInSegments(eventType, "workflow.completed") || EndsInSegments(eventType, "workflow.failed")
      || EndsInSegments(eventType, "workflow.terminated") || EndsInSegments(eventType, "workflow.canceled")
      || EndsInSegments(eventType, "workflow.timed_out")
  {
    hide EndsInSegments;
    var verbs := TERMINAL_VERBS;
    assert verbs[0] == "workflow.completed" && verbs[1] == "workflow.failed" && verbs[2] == "workflow.terminated";
    assert verbs[3] == "workflow.canceled" && verbs[4] == "workflow.timed_out" && |verbs| == 5;
  }

  /** The suffix test is a test on whole segments, whatever the prefix. */
  method IsTerminalEventType(eventType: string) returns (r: bool)
    ensures r <==> Terminal(eventType)
    ensures r <==>
      || EndsInSegments(eventType, "workflow.completed") || EndsInSegments(eventType, "workflow.failed")
      || EndsInSegments(eventType, "workflow.terminated") || EndsInSegments(eventType, "workflow.canceled")
      || EndsInSegments(eventType, "workflow.timed_out")
  {
    hide EndsInSegments;
    FiveVerbs(eventType);
    for i := 0 to |TERMINAL_VERBS|
      invariant forall j :: 0 <= j < i ==> !EndsInSegments(eventType, TERMINAL_VERBS[j])
    {
      var verb := TERMINAL_VERBS[i];
      SuffixIsSegments(eventType, verb);
      if eventType == verb || HasSuffix(eventType, "." + verb) {
        return true;
      }
    }
    return false;
  }

  // ---------------------------------------------------------------------------------------------------------------

  ghost predicate Wanted(req: SubscribeRequest, m: Message) {
    && m.Carries?
    && MatchesGlob(req.typePattern, m.event.eventType)
    && (req.workflowId == "" || m.event.workflowId == req.workflowId)
  }

  /** A message behind which a follower of one run closes. */
  ghost predicate Concludes(req: SubscribeRequest, m: Message) {
    Wanted(req, m) && req.workflowId != "" && Terminal(m.event.eventType)
  }

  ghost function Verdict(req: SubscribeRequest, m: Message, taken: bool): Settlement {
    if m.Garbled? || (Wanted(req, m) && !taken) then Nak else Ack
  }

  ghost function Delivers(req: SubscribeRequest, m: Message, taken: bool): seq<CloudEvent> {
    if Wanted(req, m) && taken then [m.event] else []
  }

  ghost predicate Stops(req: SubscribeRequest, m: Message, taken: bool) {
    Wanted(req, m) && (taken ==> Concludes(req, m))
  }

  ghost predicate Halts(req: SubscribeRequest, p: Poll) {
    p.Cancelled? || p.Gone? || (p.Arrives? && Stops(req, p.message, p.taken))
  }

  /** What becomes of a message, said of the message: delivered, settled, and whether the loop ends behind it. */
  lemma MessageIsTreated(req: SubscribeRequest, m: Message, taken: bool)
    ensures var wanted :=
        && m.Carries? && GlobMatches(Split(req.typePattern), Split(m.event.eventType))
        && (req.workflowId == "" || m.event.workflowId == req.workflowId);
      && Delivers(req, m, taken) == (if wanted && taken then [m.event] else [])
      && Verdict(req, m, taken) == (if m.Garbled? || (wanted && !taken) then Nak else Ack)
      && (Stops(req, m, taken) <==> wanted && (!taken || (req.workflowId != "" && Terminal(m.event.eventType))))
    ensures Halts(req, Arrives(m, taken)) <==> Stops(req, m, taken)
    ensures Halts(req, Cancelled) && Halts(req, Gone) && !Halts(req, Quiet)
  {
    hide Terminal, GlobMatches;
  }

  /** What a stretch of polls delivers, and how it settles what it took. */
  ghost function Deliveries(req: SubscribeRequest, polls: seq<Poll>): seq<CloudEvent> {
    if polls == [] then []
    else
      var p := polls[|polls| - 1];
      Deliveries(req, polls[..|polls| - 1]) + if p.Arrives? then Delivers(req, p.message, p.taken) else []
  }

  ghost function Verdicts(req: SubscribeRequest, polls: seq<Poll>): seq<Settlement> {
    if polls == [] then []
    else
      var p := polls[|polls| - 1];
      Verdicts(req, polls[..|polls| - 1]) + if p.Arrives? then [Verdict(req, p.message, p.taken)] else []
  }

  ghost function Inbox(polls: seq<Poll>): seq<Message> {
    if polls == [] then []
    else Inbox(polls[..|polls| - 1]) + if polls[|polls| - 1].Arrives? then [polls[|polls| - 1].message] else []
  }

  /** The length of `s` up to and including the first element that ends it, or all of it. */
  ghost function Through<T>(s: seq<T>, ends: T -> bool): (n: nat)
    ensures n <= |s| && (s != [] ==> n > 0)
    ensures forall i :: 0 <= i < n - 1 ==> !ends(s[i])
    ensures n < |s| ==> n > 0 && ends(s[n - 1])
  {
    if s == [] then 0
    else if ends(s[0]) then 1
    else
      var n := Through(s[1..], ends);
      assert forall i :: 0 < i < n ==> s[i] == s[1..][i - 1];
      1 + n
  }

  /** How many polls are made before the loop ends, or the story does. */
  ghost function Made(req: SubscribeRequest, polls: seq<Poll>): nat {
    Through(polls, p => Halts(req, p))
  }

  class Follower {
    const req: SubscribeRequest
    var delivered: seq<CloudEvent>
    var settled: seq<Settlement>

    constructor (req: SubscribeRequest)
      ensures this.req == req && delivered == [] && settled == []
    {
      this.req, delivered, settled := req, [], [];
    }

    method DispatchMsg(m: Message, taken: bool) returns (stop: bool)
      modifies this
      ensures delivered == old(delivered) + Delivers(req, m, taken)
      ensures settled == old(settled) + [Verdict(req, m, taken)]
      ensures stop <==> Stops(req, m, taken)
    {
      hide Terminal;
      if m.Garbled? {
        settled := settled + [Nak];
        return false;
      }
      var matches := MatchGlobSegments(Split(req.typePattern), Split(m.event.eventType));
      if !matches {
        settled := settled + [Ack];
        return false;
      }
      if req.workflowId != "" && m.event.workflowId != req.workflowId {
        settled := settled + [Ack];
        return false;
      }
      if !taken {
        settled := settled + [Nak];
        return true;
      }
      delivered := delivered + [m.event];
      settled := settled + [Ack];
      if req.workflowId != "" {
        stop := IsTerminalEventType(m.event.eventType);
        return;
      }
      return false;
    }

    method Follow(polls: seq<Poll>)
      modifies this
      ensures delivered == old(delivered) + Deliveries(req, polls[..Made(req, polls)])
      ensures settled == old(settled) + Verdicts(req, polls[..Made(req, polls)])
    {
      hide Made, Deliveries, Verdicts, Delivers, Verdict, Stops;
      assert polls[..0] == [];
      NothingHappens(req);
      for i := 0 to |polls|
        invariant forall j :: 0 <= j < i ==> !Halts(req, polls[j])
        invariant delivered == old(delivered) + Deliveries(req, polls[..i])
        invariant settled == old(settled) + Verdicts(req, polls[..i])
      {
        var p := polls[i];
        OnePoll(req, polls, i);
        if p.Cancelled? {
          MadeIs(req, polls, i + 1);
          return;
        }
        if p.Gone? {
          MadeIs(req, polls, i + 1);
          return;
        }
        if p.Quiet? {
          continue;
        }
        var stop := DispatchMsg(p.message, p.taken);
        if stop {
          MadeIs(req, polls, i + 1);
          return;
        }
      }
      MadeIs(req, polls, |polls|);
    }
  }

  lemma NothingHappens(req: SubscribeRequest)
    ensures Deliveries(req, []) == [] && Verdicts(req, []) == []
  {
  }

  lemma OnePoll(req: SubscribeRequest, polls: seq<Poll>, i: nat)
    requires i < |polls|
    ensures polls[i].Arrives? ==>
      && Deliveries(req, polls[..i + 1]) ==
        Deliveries(req, polls[..i]) + Delivers(req, polls[i].message, polls[i].taken)
      && Verdicts(req, polls[..i + 1]) == Verdicts(req, polls[..i]) + [Verdict(req, polls[i].message, polls[i].taken)]
      && Inbox(polls[..i + 1]) == Inbox(polls[..i]) + [polls[i].message]
    ensures !polls[i].Arrives? ==>
      && Deliveries(req, polls[..i + 1]) == Deliveries(req, polls[..i])
      && Verdicts(req, polls[..i + 1]) == Verdicts(req, polls[..i])
      && Inbox(polls[..i + 1]) == Inbox(polls[..i])
  {
    hide Delivers, Verdict;
    assert polls[..i + 1][..i] == polls[..i];
    assert polls[..i + 1][i] == polls[i];
  }

  lemma {:induction false} MadeIs(req: SubscribeRequest, polls: seq<Poll>, n: nat)
    requires n <= |polls| && (polls != [] ==> n > 0)
    requires forall j :: 0 <= j < n - 1 ==> !Halts(req, polls[j])
    requires 0 < n < |polls| ==> Halts(req, polls[n - 1])
    ensures Made(req, polls) == n
  {
    hide Halts, Through;
  }

  // ---------------------------------------------------------------------------------------------------------------

  ghost function WantedEvents(req: SubscribeRequest, inbox: seq<Message>): seq<CloudEvent> {
    if inbox == [] then []
    else
      var m := inbox[|inbox| - 1];
      WantedEvents(req, inbox[..|inbox| - 1]) + if Wanted(req, m) then [m.event] else []
  }

  /** What the subscriber should see of an inbox. */
  ghost function Feed(req: SubscribeRequest, inbox: seq<Message>): seq<CloudEvent> {
    WantedEvents(req, inbox[..Through(inbox, m => Concludes(req, m))])
  }

  /** Until the loop halts, every wanted message is delivered and none concludes. */
  lemma {:induction false} BeforeHalting(req: SubscribeRequest, polls: seq<Poll>, n: nat)
    requires n <= |polls| && forall i :: 0 <= i < n ==> !Halts(req, polls[i])
    ensures Deliveries(req, polls[..n]) == WantedEvents(req, Inbox(polls[..n]))
    ensures forall i :: 0 <= i < |Inbox(polls[..n])| ==> !Concludes(req, Inbox(polls[..n])[i])
  {
    hide Deliveries, Inbox, WantedEvents, Concludes, Wanted;
    if n == 0 {
      assert polls[..0] == [];
      NothingArrives(req);
    } else {
      BeforeHalting(req, polls, n - 1);
      OnePoll(req, polls, n - 1);
      var p := polls[n - 1];
      if p.Arrives? {
        OneMessage(req, Inbox(polls[..n - 1]), p.message);
        GoesOn(req, p);
      }
    }
  }

  lemma GoesOn(req: SubscribeRequest, p: Poll)
    requires p.Arrives? && !Halts(req, p)
    ensures !Concludes(req, p.message) && Delivers(req, p.message, p.taken) ==
      if Wanted(req, p.message) then [p.message.event] else []
  {
    hide MatchesGlob, Terminal;
  }

  lemma NothingArrives(req: SubscribeRequest)
    ensures Deliveries(req, []) == [] && Inbox([]) == [] && WantedEvents(req, []) == []
  {
  }

  lemma OneMessage(req: SubscribeRequest, inbox: seq<Message>, m: Message)
    ensures WantedEvents(req, inbox + [m]) == WantedEvents(req, inbox) + if Wanted(req, m) then [m.event] else []
  {
    hide Wanted;
    assert (inbox + [m])[..|inbox|] == inbox;
  }

  lemma {:induction false} InboxPrefix(polls: seq<Poll>, n: nat, k: nat)
    requires n <= k <= |polls|
    ensures Inbox(polls[..n]) <= Inbox(polls[..k])
  {
    if n == k {
    } else {
      InboxPrefix(polls, n, k - 1);
      assert polls[..k][..k - 1] == polls[..k - 1];
    }
  }

  lemma {:induction false} WantedPrefix(req: SubscribeRequest, inbox: seq<Message>, n: nat, k: nat)
    requires n <= k <= |inbox|
    ensures WantedEvents(req, inbox[..n]) <= WantedEvents(req, inbox[..k])
  {
    hide Wanted;
    if n == k {
    } else {
      WantedPrefix(req, inbox, n, k - 1);
      assert inbox[..k][..k - 1] == inbox[..k - 1];
    }
  }

  /** An inbox whose first `n` messages do not conclude feeds at least those; if message `n` concludes, just it more. */
  lemma FeedBegins(req: SubscribeRequest, inbox: seq<Message>, n: nat)
    requires n <= |inbox| && forall i :: 0 <= i < n ==> !Concludes(req, inbox[i])
    ensures WantedEvents(req, inbox[..n]) <= Feed(req, inbox)
    ensures n == |inbox| ==> Feed(req, inbox) == WantedEvents(req, inbox)
    ensures n < |inbox| ==> WantedEvents(req, inbox[..n + 1]) <= Feed(req, inbox)
    ensures n < |inbox| && Concludes(req, inbox[n]) ==> Feed(req, inbox) == WantedEvents(req, inbox[..n + 1])
  {
    hide Concludes, WantedEvents, Through;
    var k := Through(inbox, m => Concludes(req, m));
    assert inbox[..|inbox|] == inbox;
    WantedPrefix(req, inbox, n, k);
    if n < |inbox| {
      WantedPrefix(req, inbox, n + 1, k);
    }
  }

  /** Nothing outside cuts the story short: no cancellation, no lost consumer, every offer taken. */
  ghost predicate Undisturbed(polls: seq<Poll>) {
    forall i :: 0 <= i < |polls| ==> polls[i].Quiet? || (polls[i].Arrives? && polls[i].taken)
  }

  /**
  A follower sees a prefix of its feed, and all of it when nothing outside cuts it short.
  */
  lemma FollowerSeesItsFeed(req: SubscribeRequest, polls: seq<Poll>)
    ensures Deliveries(req, polls[..Made(req, polls)]) <= Feed(req, Inbox(polls))
    ensures Undisturbed(polls) ==> Deliveries(req, polls[..Made(req, polls)]) == Feed(req, Inbox(polls))
  {
    hide *;
    assert polls[..|polls|] == polls;
    MadeStops(req, polls);
    var n := Made(req, polls);
    if polls == [] {
      assert polls[..n] == [];
      NothingArrives(req);
      FeedBegins(req, [], 0);
    } else {
      LastPoll(req, polls, n - 1);
    }
  }

  lemma MadeStops(req: SubscribeRequest, polls: seq<Poll>)
    ensures Made(req, polls) <= |polls| && (polls != [] ==> Made(req, polls) > 0)
    ensures forall i :: 0 <= i < Made(req, polls) - 1 ==> !Halts(req, polls[i])
    ensures Made(req, polls) < |polls| ==> Made(req, polls) > 0 && Halts(req, polls[Made(req, polls) - 1])
  {
    hide Halts;
  }

  lemma LastPoll(req: SubscribeRequest, polls: seq<Poll>, i: nat)
    requires i < |polls| && forall j :: 0 <= j < i ==> !Halts(req, polls[j])
    requires i + 1 < |polls| ==> Halts(req, polls[i])
    ensures Deliveries(req, polls[..i + 1]) <= Feed(req, Inbox(polls))
    ensures Undisturbed(polls) ==> Deliveries(req, polls[..i + 1]) == Feed(req, Inbox(polls))
  {
    hide Deliveries, Inbox, WantedEvents, Concludes, Wanted, Feed, Verdicts;
    var inbox, p := Inbox(polls), polls[i];
    var before := Inbox(polls[..i]);
    assert polls[..|polls|] == polls;
    BeforeHalting(req, polls, i);
    OnePoll(req, polls, i);
    InboxPrefix(polls, i, |polls|);
    InboxPrefix(polls, i + 1, |polls|);
    assert inbox[..|before|] == before;
    FeedBegins(req, inbox, |before|);
    if p.Arrives? {
      assert inbox[..|before| + 1] == before + [p.message];
      OneMessage(req, before, p.message);
      LastMessage(req, p);
      if i + 1 == |polls| && !Concludes(req, p.message) {
        assert inbox == before + [p.message];
        FeedBegins(req, inbox, |inbox|);
      }
    }
  }

  lemma LastMessage(req: SubscribeRequest, p: Poll)
    requires p.Arrives?
    ensures var e := Delivers(req, p.message, p.taken);
      && (e == [] || (Wanted(req, p.message) && e == [p.message.event]))
      && (p.taken ==> e == if Wanted(req, p.message) then [p.message.event] else [])
      && (p.taken && Halts(req, p) ==> Concludes(req, p.message))
  {
    hide MatchesGlob, Terminal;
  }

  // ---------------------------------------------------------------------------------------------------------------

  /** The events of the wanted messages that were acknowledged. */
  ghost function AckedAndWanted(req: SubscribeRequest, inbox: seq<Message>, settled: seq<Settlement>): seq<CloudEvent>
    requires |inbox| == |settled|
  {
    if inbox == [] then []
    else
      var n := |inbox| - 1;
      AckedAndWanted(req, inbox[..n], settled[..n]) +
        if Wanted(req, inbox[n]) && settled[n] == Ack then [inbox[n].event] else []
  }

  /**
  Every message taken is settled once, in order. What is acknowledged and wanted is exactly what is delivered; only an
  undecodable message, or the last one when it was wanted, is given back.
  */
  lemma SettledOnce(req: SubscribeRequest, polls: seq<Poll>)
    ensures var heeded := polls[..Made(req, polls)];
      var inbox, settled := Inbox(heeded), Verdicts(req, heeded);
      && |settled| == |inbox|
      && AckedAndWanted(req, inbox, settled) == Deliveries(req, heeded)
      && (forall i :: 0 <= i < |inbox| && settled[i] == Nak ==>
        inbox[i].Garbled? || (i == |inbox| - 1 && Wanted(req, inbox[i])))
      && (forall i :: 0 <= i < |inbox| && inbox[i].Garbled? ==> settled[i] == Nak)
  {
    hide *;
    MadeStops(req, polls);
    var n := Made(req, polls);
    Settles(req, polls, n);
    if n == 0 {
      assert polls[..0] == [];
      NothingArrives(req);
    } else {
      NoneGivenBack(req, polls, n - 1);
      OnePoll(req, polls, n - 1);
      Settles(req, polls, n - 1);
    }
  }

  lemma {:induction false} Settles(req: SubscribeRequest, polls: seq<Poll>, n: nat)
    requires n <= |polls|
    ensures |Verdicts(req, polls[..n])| == |Inbox(polls[..n])|
    ensures AckedAndWanted(req, Inbox(polls[..n]), Verdicts(req, polls[..n])) == Deliveries(req, polls[..n])
    ensures forall i :: 0 <= i < |Inbox(polls[..n])| ==>
      var m, v := Inbox(polls[..n])[i], Verdicts(req, polls[..n])[i];
      (m.Garbled? ==> v == Nak) && (v == Nak ==> m.Garbled? || Wanted(req, m))
  {
    hide Deliveries, Verdicts, Inbox, Wanted, AckedAndWanted;
    if n == 0 {
      assert polls[..0] == [];
      NothingArrives(req);
      NothingHappens(req);
      NothingAcked(req);
    } else {
      Settles(req, polls, n - 1);
      OnePoll(req, polls, n - 1);
      var p := polls[n - 1];
      if p.Arrives? {
        var inbox, settled := Inbox(polls[..n - 1]), Verdicts(req, polls[..n - 1]);
        OneAck(req, inbox, settled, p.message, Verdict(req, p.message, p.taken));
        VerdictTells(req, p.message, p.taken);
      }
    }
  }

  lemma NothingAcked(req: SubscribeRequest)
    ensures AckedAndWanted(req, [], []) == []
  {
  }

  lemma OneAck(req: SubscribeRequest, inbox: seq<Message>, settled: seq<Settlement>, m: Message, v: Settlement)
    requires |inbox| == |settled|
    ensures AckedAndWanted(req, inbox + [m], settled + [v]) ==
            AckedAndWanted(req, inbox, settled) + if Wanted(req, m) && v == Ack then [m.event] else []
  {
    hide Wanted;
    assert (inbox + [m])[..|inbox|] == inbox && (settled + [v])[..|inbox|] == settled;
  }

  lemma VerdictTells(req: SubscribeRequest, m: Message, taken: bool)
    ensures var v := Verdict(req, m, taken);
      && (m.Garbled? ==> v == Nak) && (v == Nak ==> m.Garbled? || Wanted(req, m))
      && Delivers(req, m, taken) == if Wanted(req, m) && v == Ack then [m.event] else []
  {
    hide MatchesGlob;
  }

  lemma {:induction false} NoneGivenBack(req: SubscribeRequest, polls: seq<Poll>, n: nat)
    requires n <= |polls| && forall i :: 0 <= i < n ==> !Halts(req, polls[i])
    ensures |Verdicts(req, polls[..n])| == |Inbox(polls[..n])|
    ensures forall i :: 0 <= i < |Inbox(polls[..n])| ==> Verdicts(req, polls[..n])[i] == Nak ==>
      Inbox(polls[..n])[i].Garbled?
  {
    hide Deliveries, Verdicts, Inbox, MatchesGlob, Terminal;
    if n == 0 {
      assert polls[..0] == [];
      NothingArrives(req);
      NothingHappens(req);
    } else {
      NoneGivenBack(req, polls, n - 1);
      OnePoll(req, polls, n - 1);
    }
  }
}
