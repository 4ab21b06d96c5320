/**
From publisher to follower: which stream an event lands in after any sequence of `ensureStream` calls, and what a
follower sees of all that is published.
*/
module Delivery {
  import opened Text
  import opened Collections
  import opened Naming
  import opened Subscriber

  // ---------------------------------------------------------------------------------------------------------------
  // Streams, by name, with the event type each was created for

  type Streams = map<string, string>

  /** `ensureStream`: a name in use is left alone. */
  function EnsureStream(streams: Streams, eventType: string): Streams {
    if StreamName(eventType) in streams then streams else streams[StreamName(eventType) := eventType]
  }

  function EnsureAll(calls: seq<string>): Streams {
    if calls == [] then map[] else EnsureStream(EnsureAll(calls[..|calls| - 1]), calls[|calls| - 1])
  }

  ghost predicate Literal(calls: seq<string>) {
    forall i :: 0 <= i < |calls| ==> NoWildcard(Split(calls[i]))
  }

  /** The index of the call that created the stream of a name. */
  ghost function Creator(calls: seq<string>, name: string): (n: int)
    ensures 0 <= n <= |calls|
    ensures n < |calls| ==> StreamName(calls[n]) == name
    ensures forall i :: 0 <= i < n ==> StreamName(calls[i]) != name
  {
    First(calls, (e: string) => StreamName(e) == name)
  }

  lemma CreatorStays(calls: seq<string>, last: string, name: string)
    ensures Creator(calls + [last], name) ==
            if Creator(calls, name) == |calls| && StreamName(last) != name then |calls| + 1 else Creator(calls, name)
  {
    hide StreamName, First, Creator;
    var all := calls + [last];
    var n := Creator(all, name);
    assert forall i :: 0 <= i < |calls| ==> all[i] == calls[i];
    assert all[|calls|] == last;
  }

  /** A stream exists exactly when some call has its name, and belongs to the first that has. */
  lemma {:induction false} FirstCallCreates(calls: seq<string>, name: string)
    ensures name in EnsureAll(calls) <==> Creator(calls, name) < |calls|
    ensures name in EnsureAll(calls) ==> EnsureAll(calls)[name] == calls[Creator(calls, name)]
  {
    hide StreamName, First;
    if calls == [] {
    } else {
      var before, last := calls[..|calls| - 1], calls[|calls| - 1];
      FirstCallCreates(before, name);
      CreatorStays(before, last, name);
      assert before + [last] == calls;
    }
  }

  /** The stream the event is published to takes it. */
  ghost predicate Lands(streams: Streams, eventType: string) {
    StreamName(eventType) in streams && Captures(streams[StreamName(eventType)], eventType)
  }

  /** The first call for a stream name decides for all events of that name. */
  ghost predicate CreatedFor(creator: string, eventType: string) {
    if |Split(creator)| > STREAM_SUBJECT_DEPTH then StreamPrefix(eventType) == StreamPrefix(creator)
      else eventType == creator
  }

  /**
  After any calls among which the event's own is one, the event lands in the stream of its name if and only if the first
  call of that name was for the same prefix and had a verb, or was for the event type itself. No other stream ever takes
  it.
  */
  lemma LandsIff(calls: seq<string>, eventType: string)
    requires Literal(calls) && eventType in calls
    ensures Creator(calls, StreamName(eventType)) < |calls|
    ensures Lands(EnsureAll(calls), eventType) <==> CreatedFor(calls[Creator(calls, StreamName(eventType))], eventType)
    ensures forall name :: name in EnsureAll(calls) && Captures(EnsureAll(calls)[name], eventType) ==>
      name == StreamName(eventType)
  {
    hide StreamName, StreamPrefix, Split, Captures, EnsureAll, Creator, NoWildcard;
    var i :| 0 <= i < |calls| && calls[i] == eventType;
    var name := StreamName(eventType);
    FirstCallCreates(calls, name);
    CapturesIff(calls[Creator(calls, name)], eventType);
    forall other | other in EnsureAll(calls) && Captures(EnsureAll(calls)[other], eventType)
      ensures other == name
    {
      FirstCallCreates(calls, other);
      var creator := calls[Creator(calls, other)];
      CapturesItself(eventType);
      StreamsAreDisjoint(creator, eventType, eventType);
    }
  }

  /** Published first, the prefix of an event type strands the rest of its stream; published second, it does no harm. */
  lemma PrefixFirstStrandsTheRest(eventType: string)
    requires NoWildcard(Split(eventType)) && |Split(eventType)| > STREAM_SUBJECT_DEPTH
    ensures !Lands(EnsureAll([StreamPrefix(eventType), eventType]), eventType)
    ensures Lands(EnsureAll([eventType, StreamPrefix(eventType)]), eventType)
    ensures Lands(EnsureAll([eventType, StreamPrefix(eventType)]), StreamPrefix(eventType))
  {
    hide Captures, Split, StreamPrefix;
    var prefix := StreamPrefix(eventType);
    PrefixAsEventTypeStrandsTheRest(eventType);
    TwoCalls(prefix, eventType);
    TwoCalls(eventType, prefix);
  }

  lemma TwoCalls(e: string, f: string)
    requires StreamName(e) == StreamName(f)
    ensures EnsureAll([e, f]) == map[StreamName(e) := e]
  {
    hide StreamName;
    var calls := [e, f];
    assert calls[..1] == [e] && [e][..0] == [];
    assert EnsureAll([e]) == map[StreamName(e) := e];
    assert EnsureAll(calls) == EnsureStream(EnsureAll(calls[..1]), calls[1]);
  }

  lemma CapturesItself(eventType: string)
    requires NoWildcard(Split(eventType))
    ensures Captures(eventType, eventType)
  {
    hide Captures, Split, StreamPrefix;
    CapturesIff(eventType, eventType);
  }

  // ---------------------------------------------------------------------------------------------------------------
  // From the stream to the follower

  /** The consumer of a subscription is offered what lands in the stream it binds and passes its filter. */
  ghost predicate IsOffered(streams: Streams, pattern: string, eventType: string) {
    && Lands(streams, eventType)
    && StreamName(eventType) == StreamName(StreamSubject(pattern))
    && SubjectMatches(SubjectFilter(StreamSubject(pattern)), eventType)
  }

  ghost function Offered(streams: Streams, pattern: string, events: seq<CloudEvent>): seq<Message> {
    if events == [] then []
    else (if IsOffered(streams, pattern, events[0].eventType) then [Carries(events[0])] else [])
         + Offered(streams, pattern, events[1..])
  }

  function Sent(events: seq<CloudEvent>): seq<Message> {
    seq(|events|, i requires 0 <= i < |events| => Carries(events[i]))
  }

  /** Everything the pattern matches lands in its stream and is long enough for the filter. */
  ghost predicate AllArrive(streams: Streams, pattern: string, events: seq<CloudEvent>) {
    forall i :: 0 <= i < |events| && MatchesGlob(pattern, events[i].eventType) ==>
      && NoWildcard(Split(events[i].eventType))
      && Lands(streams, events[i].eventType)
      && (|Split(events[i].eventType)| > STREAM_SUBJECT_DEPTH || |Split(pattern)| <= STREAM_SUBJECT_DEPTH)
  }

  lemma MatchedIsOffered(streams: Streams, pattern: string, eventType: string)
    requires LiteralHead(Split(pattern)) && MatchesGlob(pattern, eventType) && NoWildcard(Split(eventType))
    requires Lands(streams, eventType)
      && (|Split(eventType)| > STREAM_SUBJECT_DEPTH || |Split(pattern)| <= STREAM_SUBJECT_DEPTH)
    ensures IsOffered(streams, pattern, eventType)
  {
    hide Split, MatchesGlob, StreamPrefix, StreamSubject, Lands, LiteralHead, NoWildcard, SubjectMatches;
    MatchedSharesPrefix(pattern, eventType);
    FilterCoversIff(pattern, eventType);
  }

  /**
  Of the events a literal-headed pattern matches its consumer is offered exactly those that the first call of their
  stream's name was for, and that have a verb if the pattern does.
  */
  lemma OfferedIff(calls: seq<string>, pattern: string, eventType: string)
    requires Literal(calls) && eventType in calls && LiteralHead(Split(pattern)) && MatchesGlob(pattern, eventType)
    ensures Creator(calls, StreamName(eventType)) < |calls|
    ensures IsOffered(EnsureAll(calls), pattern, eventType) <==>
      && CreatedFor(calls[Creator(calls, StreamName(eventType))], eventType)
      && (|Split(eventType)| > STREAM_SUBJECT_DEPTH || |Split(pattern)| <= STREAM_SUBJECT_DEPTH)
  {
    hide Split, MatchesGlob, StreamPrefix, StreamSubject, Lands, LiteralHead, SubjectMatches, EnsureAll, Creator,
      CreatedFor;
    var i :| 0 <= i < |calls| && calls[i] == eventType;
    LandsIff(calls, eventType);
    MatchedSharesPrefix(pattern, eventType);
    FilterCoversIff(pattern, eventType);
  }

  lemma {:induction false} OfferedIsEnough(streams: Streams, req: SubscribeRequest, events: seq<CloudEvent>)
    requires LiteralHead(Split(req.typePattern)) && AllArrive(streams, req.typePattern, events)
    ensures Feed(req, Offered(streams, req.typePattern, events)) == Feed(req, Sent(events))
  {
    hide Feed, IsOffered, LiteralHead, MatchesGlob, Lands, Split, NoWildcard, Terminal;
    if events == [] {
      assert Sent(events) == [];
    } else {
      var m, rest := Carries(events[0]), events[1..];
      var offered := Offered(streams, req.typePattern, rest);
      OfferedIsEnough(streams, req, rest);
      assert Sent(events) == [m] + Sent(rest);
      if MatchesGlob(req.typePattern, events[0].eventType) {
        MatchedIsOffered(streams, req.typePattern, events[0].eventType);
      }
      FeedStep(req, m, offered);
      FeedStep(req, m, Sent(rest));
      assert [] + offered == offered;
    }
  }

  /** What a message at the head of an inbox adds to the feed. */
  lemma FeedStep(req: SubscribeRequest, m: Message, rest: seq<Message>)
    ensures Feed(req, [m] + rest) ==
            if !Wanted(req, m) then Feed(req, rest)
            else if Concludes(req, m) then [m.event]
            else [m.event] + Feed(req, rest)
  {
    hide Wanted, WantedEvents;
    var inbox := [m] + rest;
    var ends := (x: Message) => Concludes(req, x);
    assert inbox[1..] == rest;
    var n := Through(rest, ends);
    OneWanted(req, m);
    if Concludes(req, m) {
      assert inbox[..1] == [m] + [];
      WantedCons(req, m, []);
      NothingWanted(req);
    } else {
      assert Through(inbox, ends) == 1 + n;
      assert inbox[..1 + n] == [m] + rest[..n];
      WantedCons(req, m, rest[..n]);
    }
  }

  lemma OneWanted(req: SubscribeRequest, m: Message)
    ensures Concludes(req, m) ==> Wanted(req, m)
    ensures Wanted(req, m) ==> m.Carries?
  {
  }

  lemma NothingWanted(req: SubscribeRequest)
    ensures WantedEvents(req, []) == []
  {
  }

  lemma {:induction false} WantedCons(req: SubscribeRequest, m: Message, rest: seq<Message>)
    ensures WantedEvents(req, [m] + rest) == (if Wanted(req, m) then [m.event] else []) + WantedEvents(req, rest)
  {
    hide Wanted;
    OneWanted(req, m);
    var inbox := [m] + rest;
    if rest == [] {
      assert inbox[..0] == [] && inbox[0] == m;
    } else {
      var n := |rest| - 1;
      OneWanted(req, rest[n]);
      assert inbox[..|inbox| - 1] == [m] + rest[..n] && inbox[|inbox| - 1] == rest[n];
      WantedCons(req, m, rest[..n]);
    }
  }

  /**
  Publisher to follower: if no wildcard stands in the first four segments of the pattern, and what it matches lands and
  has a verb, then a follower that takes all its consumer is offered delivers exactly the published events it asked for,
  in order, up to and including the first that concludes its run.
  */
  lemma FollowerSeesWhatIsPublished(calls: seq<string>, req: SubscribeRequest, events: seq<CloudEvent>,
      polls: seq<Poll>)
    requires LiteralHead(Split(req.typePattern)) && AllArrive(EnsureAll(calls), req.typePattern, events)
    requires Undisturbed(polls) && Inbox(polls) == Offered(EnsureAll(calls), req.typePattern, events)
    ensures Deliveries(req, polls[..Made(req, polls)]) == Feed(req, Sent(events))
  {
    hide *;
    FollowerSeesItsFeed(req, polls);
    OfferedIsEnough(EnsureAll(calls), req, events);
  }
}
