/**
Stream and subject names of the event bus, and the glob patterns subscribers use. Names are dotted strings; a JetStream
server matches subjects token by token, `*` for one token and a final `>` for one or more.
*/
module Naming {
  import opened Text

  /** The leading segments that identify the entity owning a stream. */
  const STREAM_SUBJECT_DEPTH := 4
  const RESERVED_DLQ_PREFIX := "zynax.dlq."

  /** At most the first four segments. */
  function StreamPrefix(eventType: string): string {
    var parts := Split(eventType);
    if |parts| > STREAM_SUBJECT_DEPTH then Join(parts[..STREAM_SUBJECT_DEPTH]) else eventType
  }

  function NameChar(c: char): char {
    if c == '.' || c == '-' then '_'
    else if 'a' <= c <= 'z' then c - 'a' + 'A'
    else c
  }

  function NameOf(s: string): string {
    seq(|s|, i requires 0 <= i < |s| => NameChar(s[i]))
  }

  /** Characters a stream name does not tell apart: in case, or a dot, a dash and an underscore. */
  ghost predicate SameInNames(c: char, d: char) {
    || c == d
    || (c in "._-" && d in "._-")
    || ('a' <= c <= 'z' && d as int == c as int - 32)
    || ('a' <= d <= 'z' && c as int == d as int - 32)
  }

  /**
  The stream name of a type is its prefix in upper case, dots and dashes made underscores; so two types share one
  exactly then.
  */
  lemma StreamNamesAgreeIff(e: string, f: string)
    ensures StreamName(e) == StreamName(f) <==>
      var p, q := StreamPrefix(e), StreamPrefix(f);
      |p| == |q| && forall i :: 0 <= i < |p| ==> SameInNames(p[i], q[i])
    ensures forall i :: 0 <= i < |StreamName(e)| ==>
      var c := StreamName(e)[i]; c != '.' && c != '-' && !('a' <= c <= 'z') && SameInNames(c, StreamPrefix(e)[i])
  {
    hide StreamPrefix;
    var p, q := StreamPrefix(e), StreamPrefix(f);
    if StreamName(e) == StreamName(f) {
      forall i | 0 <= i < |p|
        ensures SameInNames(p[i], q[i])
      {
        assert NameOf(p)[i] == NameOf(q)[i];
      }
    }
    if |p| == |q| && forall i :: 0 <= i < |p| ==> SameInNames(p[i], q[i]) {
      assert forall i :: 0 <= i < |p| ==> NameChar(p[i]) == NameChar(q[i]);
    }
  }

  function StreamName(eventType: string): string {
    NameOf(StreamPrefix(eventType))
  }

  function SubjectFilter(eventType: string): string {
    var prefix := StreamPrefix(eventType);
    if prefix != eventType then prefix + ".>" else eventType
  }

  function StreamSubjects(eventType: string): seq<string> {
    var prefix := StreamPrefix(eventType);
    if prefix != eventType then [prefix, prefix + ".>"] else [eventType]
  }

  function DlqDeliverSubject(eventType: string): string {
    RESERVED_DLQ_PREFIX + StreamPrefix(eventType) + ".dead"
  }

  // ---------------------------------------------------------------------------------------------------------------
  // What a JetStream server makes of a filter

  predicate TokensMatch(filter: seq<string>, subject: seq<string>) {
    if filter == [] then subject == []
    else if filter == [">"] then subject != []
    else subject != [] && (filter[0] == "*" || filter[0] == subject[0]) && TokensMatch(filter[1..], subject[1..])
  }

  predicate SubjectMatches(filter: string, subject: string) {
    TokensMatch(Split(filter), Split(subject))
  }

  /** Some subject of the stream that owns `eventType` matches. */
  ghost predicate Captures(eventType: string, subject: string) {
    exists i :: 0 <= i < |StreamSubjects(eventType)| && SubjectMatches(StreamSubjects(eventType)[i], subject)
  }

  ghost predicate NoWildcard(tokens: seq<string>) {
    forall i :: 0 <= i < |tokens| ==> tokens[i] != "*" && tokens[i] != ">"
  }

  lemma {:induction false} LiteralTokens(filter: seq<string>, subject: seq<string>)
    requires NoWildcard(filter)
    ensures TokensMatch(filter, subject) <==> filter == subject
  {
    if filter == [] || subject == [] {
    } else {
      LiteralTokens(filter[1..], subject[1..]);
      assert filter == [filter[0]] + filter[1..] && subject == [subject[0]] + subject[1..];
    }
  }

  lemma {:induction false} TailTokens(head: seq<string>, subject: seq<string>)
    requires NoWildcard(head)
    ensures TokensMatch(head + [">"], subject) <==> head < subject
  {
    var filter := head + [">"];
    if head == [] {
    } else {
      assert filter[0] == head[0] && filter != [">"];
      assert filter[1..] == head[1..] + [">"];
      if subject != [] {
        TailTokens(head[1..], subject[1..]);
        assert head == [head[0]] + head[1..] && subject == [subject[0]] + subject[1..];
      }
    }
  }

  /** The prefix has the first four segments, or all of them. */
  lemma PrefixSegments(eventType: string)
    ensures var parts := Split(eventType);
            Split(StreamPrefix(eventType)) ==
              if |parts| > STREAM_SUBJECT_DEPTH then parts[..STREAM_SUBJECT_DEPTH] else parts
    ensures StreamPrefix(eventType) == eventType <==> |Split(eventType)| <= STREAM_SUBJECT_DEPTH
  {
    var parts := Split(eventType);
    if |parts| > STREAM_SUBJECT_DEPTH {
      SplitOfJoin(parts[..STREAM_SUBJECT_DEPTH]);
    }
  }

  /**
  Which subjects a stream captures, exactly: those of its own prefix when the event type has a verb, the event type
  alone when it has not.
  */
  lemma CapturesIff(eventType: string, subject: string)
    requires NoWildcard(Split(eventType))
    ensures |Split(eventType)| > STREAM_SUBJECT_DEPTH ==>
      (Captures(eventType, subject) <==> StreamPrefix(subject) == StreamPrefix(eventType))
    ensures |Split(eventType)| <= STREAM_SUBJECT_DEPTH ==> (Captures(eventType, subject) <==> subject == eventType)
  {
    hide Split, TokensMatch, StreamPrefix;
    PrefixSegments(eventType);
    var prefix, s := StreamPrefix(eventType), Split(subject);
    var p := Split(prefix);
    LiteralTokens(p, s);
    if prefix == eventType {
      assert StreamSubjects(eventType) == [eventType] && StreamSubjects(eventType)[0] == eventType;
      assert Captures(eventType, subject) <==> SubjectMatches(eventType, subject);
      assert p == s <==> subject == eventType by { SplitIsInjective(subject, eventType); }
    } else {
      assert Split(prefix + ".>") == p + [">"] by {
        assert prefix + ".>" == prefix + "." + ">";
        SplitAppend(prefix, ">");
        SplitDotFree(">");
      }
      assert NoWildcard(p);
      TailTokens(p, s);
      var subjects := StreamSubjects(eventType);
      assert subjects[0] == prefix && subjects[1] == prefix + ".>";
      assert Captures(eventType, subject) <==> p <= s;
      PrefixSegments(subject);
      SplitIsInjective(StreamPrefix(subject), prefix);
    }
  }

  lemma SplitIsInjective(a: string, b: string)
    ensures Split(a) == Split(b) <==> a == b
  {
    assert Join(Split(a)) == a && Join(Split(b)) == b;
  }

  /**
  Streams are identical or disjoint: a subject captured by two streams gives both the subject's own prefix, so the same
  prefix and the same stream name.
  */
  lemma StreamsAreDisjoint(e: string, f: string, subject: string)
    requires NoWildcard(Split(e)) && NoWildcard(Split(f))
    requires Captures(e, subject) && Captures(f, subject)
    ensures StreamPrefix(e) == StreamPrefix(f) == StreamPrefix(subject)
    ensures StreamName(e) == StreamName(f)
  {
    hide Captures, Split, StreamPrefix;
    CapturesIff(e, subject);
    CapturesIff(f, subject);
  }

  /**
  One stream name, two subject sets: the stream an entity prefix provisions when it is published as an event type of its
  own does not capture any of the entity's other events, and the two share a name.
  */
  lemma PrefixAsEventTypeStrandsTheRest(eventType: string)
    requires NoWildcard(Split(eventType)) && |Split(eventType)| > STREAM_SUBJECT_DEPTH
    ensures StreamName(StreamPrefix(eventType)) == StreamName(eventType)
    ensures Captures(eventType, StreamPrefix(eventType)) && Captures(eventType, eventType)
    ensures !Captures(StreamPrefix(eventType), eventType)
  {
    hide Captures, Split;
    var prefix := StreamPrefix(eventType);
    PrefixSegments(eventType);
    PrefixSegments(prefix);
    CapturesIff(eventType, prefix);
    CapturesIff(eventType, eventType);
    CapturesIff(prefix, eventType);
  }

  // ---------------------------------------------------------------------------------------------------------------
  // Dead-letter subjects

  lemma DlqSubjectIsInjective(e: string, f: string)
    ensures DlqDeliverSubject(e) == DlqDeliverSubject(f) <==> StreamPrefix(e) == StreamPrefix(f)
  {
    hide StreamPrefix;
    CancelAffixes(RESERVED_DLQ_PREFIX, StreamPrefix(e), StreamPrefix(f), ".dead");
  }

  lemma CancelAffixes(a: string, x: string, y: string, b: string)
    ensures a + x + b == a + y + b <==> x == y
  {
    if a + x + b == a + y + b {
      assert x == (a + x + b)[|a|..|a| + |x|];
      assert y == (a + y + b)[|a|..|a| + |y|];
      assert |a + x + b| == |a| + |x| + |b| && |a + y + b| == |a| + |y| + |b|;
    }
  }

  lemma DlqSegments(eventType: string)
    ensures Split(DlqDeliverSubject(eventType)) == ["zynax", "dlq"] + Split(StreamPrefix(eventType)) + ["dead"]
  {
    var prefix := StreamPrefix(eventType);
    var tail := "dlq" + "." + (prefix + "." + "dead");
    assert DlqDeliverSubject(eventType) == "zynax" + "." + tail;
    SplitHead("zynax", tail);
    SplitHead("dlq", prefix + "." + "dead");
    SplitAppend(prefix, "dead");
    SplitDotFree("dead");
  }

  /** A name under the reserved prefix is one whose first two segments are `zynax` and `dlq`, with more to come. */
  lemma ReservedSegments(eventType: string)
    ensures RESERVED_DLQ_PREFIX <= eventType <==>
            |Split(eventType)| > 2 && Split(eventType)[0] == "zynax" && Split(eventType)[1] == "dlq"
  {
    var parts := Split(eventType);
    if RESERVED_DLQ_PREFIX <= eventType {
      var rest := eventType[|RESERVED_DLQ_PREFIX|..];
      assert eventType == RESERVED_DLQ_PREFIX + rest;
      assert eventType == "zynax" + "." + ("dlq" + "." + rest);
      SplitHead("zynax", "dlq" + "." + rest);
      SplitHead("dlq", rest);
    }
    if |parts| > 2 && parts[0] == "zynax" && parts[1] == "dlq" {
      var rest := Join(parts[2..]);
      assert parts[1..][1..] == parts[2..];
      assert Join(parts[1..]) == "dlq" + "." + rest;
      assert eventType == "zynax" + "." + ("dlq" + "." + rest);
      assert eventType == RESERVED_DLQ_PREFIX + rest;
    }
  }

  /** No event type that `Publish` lets through has a stream that captures a dead-letter subject. */
  lemma PublishableNeverCapturesDlq(eventType: string, source: string)
    requires NoWildcard(Split(eventType)) && !(RESERVED_DLQ_PREFIX <= eventType)
    ensures !Captures(eventType, DlqDeliverSubject(source))
  {
    hide Captures, Split, StreamPrefix;
    var dlq := DlqDeliverSubject(source);
    CapturesIff(eventType, dlq);
    DlqSegments(source);
    ReservedSegments(eventType);
    PrefixSegments(eventType);
    PrefixSegments(dlq);
  }

  /** And the reservation is needed: every wildcard-free event type of five or more segments under it captures one. */
  lemma ReservedWouldCaptureDlq(eventType: string)
    requires NoWildcard(Split(eventType)) && RESERVED_DLQ_PREFIX <= eventType
      && |Split(eventType)| > STREAM_SUBJECT_DEPTH
    ensures exists source :: Captures(eventType, DlqDeliverSubject(source))
  {
    hide Captures, Split, StreamPrefix, DlqDeliverSubject;
    var parts := Split(eventType);
    ReservedSegments(eventType);
    var source := Join(parts[2..4]);
    SplitOfJoin(parts[2..4]);
    PrefixSegments(source);
    var dlq := DlqDeliverSubject(source);
    DlqSegments(source);
    assert Split(dlq) == ["zynax", "dlq", parts[2], parts[3], "dead"];
    PrefixSegments(dlq);
    PrefixSegments(eventType);
    assert Split(dlq)[..4] == parts[..4];
    SplitIsInjective(StreamPrefix(dlq), StreamPrefix(eventType));
    CapturesIff(eventType, dlq);
  }

  // ---------------------------------------------------------------------------------------------------------------
  // Globs

  /** The blocks one after another. */
  ghost function Flat(blocks: seq<seq<string>>): seq<string> {
    if blocks == [] then [] else blocks[0] + Flat(blocks[1..])
  }

  /** What one pattern element may stand for. */
  ghost predicate BlockFits(p: string, block: seq<string>) {
    if p == "**" then true else if p == "*" then |block| == 1 else block == [p]
  }

  ghost predicate Cuts(pat: seq<string>, seg: seq<string>, blocks: seq<seq<string>>) {
    |blocks| == |pat| && Flat(blocks) == seg && forall i :: 0 <= i < |pat| ==> BlockFits(pat[i], blocks[i])
  }

  /** The segments can be cut into consecutive blocks, one for each pattern element. */
  ghost predicate GlobMatches(pat: seq<string>, seg: seq<string>) {
    exists blocks :: Cuts(pat, seg, blocks)
  }

  lemma GlobEmpty(seg: seq<string>)
    ensures GlobMatches([], seg) <==> seg == []
  {
    if seg == [] {
      assert Cuts([], [], []);
    }
  }

  lemma CutHead(pat: seq<string>, seg: seq<string>, blocks: seq<seq<string>>)
    requires pat != [] && Cuts(pat, seg, blocks)
    ensures |blocks[0]| <= |seg| && seg[..|blocks[0]|] == blocks[0] && BlockFits(pat[0], blocks[0])
    ensures Cuts(pat[1..], seg[|blocks[0]|..], blocks[1..])
  {
    assert seg == blocks[0] + Flat(blocks[1..]);
  }

  lemma CutCons(pat: seq<string>, seg: seq<string>, n: nat, blocks: seq<seq<string>>)
    requires pat != [] && n <= |seg| && BlockFits(pat[0], seg[..n]) && Cuts(pat[1..], seg[n..], blocks)
    ensures Cuts(pat, seg, [seg[..n]] + blocks)
  {
    var all := [seg[..n]] + blocks;
    assert all[1..] == blocks;
    forall i | 0 <= i < |pat|
      ensures BlockFits(pat[i], all[i])
    {
      if i > 0 {
        assert pat[i] == pat[1..][i - 1] && all[i] == blocks[i - 1];
      }
    }
  }

  /** The first element takes some number of segments, and the rest of the pattern the rest of the segments. */
  lemma GlobStep(pat: seq<string>, seg: seq<string>)
    requires pat != []
    ensures GlobMatches(pat, seg) <==>
      exists n :: 0 <= n <= |seg| && BlockFits(pat[0], seg[..n]) && GlobMatches(pat[1..], seg[n..])
  {
    hide Cuts;
    if GlobMatches(pat, seg) {
      var blocks :| Cuts(pat, seg, blocks);
      assert |blocks| == |pat| by { CutLength(pat, seg, blocks); }
      CutHead(pat, seg, blocks);
      assert GlobMatches(pat[1..], seg[|blocks[0]|..]);
    }
    if n :| 0 <= n <= |seg| && BlockFits(pat[0], seg[..n]) && GlobMatches(pat[1..], seg[n..]) {
      var blocks :| Cuts(pat[1..], seg[n..], blocks);
      CutCons(pat, seg, n, blocks);
    }
  }

  lemma CutLength(pat: seq<string>, seg: seq<string>, blocks: seq<seq<string>>)
    requires Cuts(pat, seg, blocks)
    ensures |blocks| == |pat|
  {
  }

  lemma GlobOne(pat: seq<string>, seg: seq<string>)
    requires pat != [] && pat[0] != "**"
    ensures GlobMatches(pat, seg) <==>
      seg != [] && (pat[0] == "*" || pat[0] == seg[0]) && GlobMatches(pat[1..], seg[1..])
  {
    hide GlobMatches;
    GlobStep(pat, seg);
    if seg != [] {
      assert seg[..1] == [seg[0]];
    }
    forall n | 0 <= n <= |seg| && BlockFits(pat[0], seg[..n])
      ensures n == 1
    {
      assert |seg[..n]| == n;
    }
  }

  lemma GlobTrailing(seg: seq<string>)
    ensures GlobMatches(["**"], seg)
  {
    GlobStep(["**"], seg);
    assert seg[|seg|..] == [] && ["**"][1..] == [];
    GlobEmpty([]);
    assert BlockFits("**", seg[..|seg|]);
    assert GlobMatches([], seg[|seg|..]);
  }

  /** The matcher accepts exactly the segment lists that can be cut along the pattern. */
  method MatchGlobSegments(pattern: seq<string>, segments: seq<string>) returns (ok: bool)
    ensures ok <==> GlobMatches(pattern, segments)
    decreases |pattern|
  {
    hide GlobMatches;
    var pat, seg := pattern, segments;
    while |pat| > 0
      invariant |pat| <= |pattern|
      invariant GlobMatches(pattern, segments) <==> GlobMatches(pat, seg)
      decreases |pat|
    {
      var p := pat[0];
      if p == "**" {
        if |pat| == 1 {
          GlobTrailing(seg);
          assert pat == ["**"];
          return true;
        }
        var rest := pat[1..];
        GlobStep(pat, seg);
        for j := 0 to |seg| + 1
          invariant forall n :: 0 <= n < j ==> !GlobMatches(rest, seg[n..])
        {
          var found := MatchGlobSegments(rest, seg[j..]);
          if found {
            assert BlockFits(p, seg[..j]);
            return true;
          }
        }
        return false;
      }
      GlobOne(pat, seg);
      if |seg| == 0 {
        return false;
      }
      if p != "*" && p != seg[0] {
        return false;
      }
      pat := pat[1..];
      seg := seg[1..];
    }
    GlobEmpty(seg);
    return |seg| == 0;
  }

  ghost predicate MatchesGlob(pattern: string, eventType: string) {
    GlobMatches(Split(pattern), Split(eventType))
  }

  // ---------------------------------------------------------------------------------------------------------------
  // Subscriptions

  predicate Wild(p: string) {
    p == "*" || p == "**"
  }

  /** The pattern up to its first wildcard, which becomes `x`. */
  function Concrete(parts: seq<string>): seq<string> {
    if parts == [] then []
    else if Wild(parts[0]) then ["x"]
    else [parts[0]] + Concrete(parts[1..])
  }

  function StreamSubject(pattern: string): string {
    Join(Concrete(Split(pattern)))
  }

  method StreamSubjectFromPattern(pattern: string) returns (subject: string)
    ensures subject == StreamSubject(pattern)
  {
    var parts := Split(pattern);
    var concrete := [];
    var i := 0;
    while i < |parts|
      invariant 0 <= i <= |parts|
      invariant concrete + Concrete(parts[i..]) == Concrete(parts)
    {
      assert parts[i..][1..] == parts[i + 1..];
      if Wild(parts[i]) {
        concrete := concrete + ["x"];
        return Join(concrete);
      }
      concrete := concrete + [parts[i]];
      i := i + 1;
    }
    assert concrete == Concrete(parts);
    return Join(concrete);
  }

  /** No wildcard among the first four segments. */
  ghost predicate LiteralHead(parts: seq<string>) {
    forall i :: 0 <= i < |parts| && i < STREAM_SUBJECT_DEPTH ==> !Wild(parts[i])
  }

  /** Every event type the pattern matches lives on the stream the subscription binds to. */
  ghost predicate BindsOwner(pattern: string) {
    forall e :: MatchesGlob(pattern, e) ==> StreamName(e) == StreamName(StreamSubject(pattern))
  }

  lemma {:induction false} ConcreteHead(parts: seq<string>, n: nat)
    requires n <= |parts| && forall i :: 0 <= i < n ==> !Wild(parts[i])
    ensures Concrete(parts) == parts[..n] + Concrete(parts[n..])
  {
    if n == 0 {
      assert parts[0..] == parts;
    } else {
      ConcreteHead(parts[1..], n - 1);
      assert parts[1..][..n - 1] == parts[1..n] && parts[1..][n - 1..] == parts[n..];
      assert parts[..n] == [parts[0]] + parts[1..n];
    }
  }

  lemma {:induction false} GlobLiteralHead(pat: seq<string>, seg: seq<string>, n: nat)
    requires n <= |pat| && (forall i :: 0 <= i < n ==> !Wild(pat[i])) && GlobMatches(pat, seg)
    ensures n <= |seg| && seg[..n] == pat[..n] && GlobMatches(pat[n..], seg[n..])
  {
    hide GlobMatches;
    if n == 0 {
      assert pat[0..] == pat && seg[0..] == seg;
    } else {
      GlobOne(pat, seg);
      GlobLiteralHead(pat[1..], seg[1..], n - 1);
      assert pat[1..][n - 1..] == pat[n..] && seg[1..][n - 1..] == seg[n..];
      assert pat[..n] == [pat[0]] + pat[1..][..n - 1] && seg[..n] == [seg[0]] + seg[1..][..n - 1];
    }
  }

  lemma {:induction false} ConcreteIsDotFree(parts: seq<string>)
    requires AllDotFree(parts)
    ensures AllDotFree(Concrete(parts))
    ensures parts != [] ==> Concrete(parts) != []
  {
    if parts == [] || Wild(parts[0]) {
    } else {
      ConcreteIsDotFree(parts[1..]);
    }
  }

  lemma SubjectSegments(pattern: string)
    ensures Split(StreamSubject(pattern)) == Concrete(Split(pattern))
  {
    ConcreteIsDotFree(Split(pattern));
    SplitOfJoin(Concrete(Split(pattern)));
  }

  /** A literal head fixes the first four segments of everything the pattern matches. */
  lemma MatchedSharesPrefix(pattern: string, e: string)
    requires LiteralHead(Split(pattern)) && MatchesGlob(pattern, e)
    ensures StreamPrefix(e) == StreamPrefix(StreamSubject(pattern))
    ensures |Split(pattern)| <= STREAM_SUBJECT_DEPTH ==> e == pattern && StreamSubject(pattern) == pattern
    ensures |Split(pattern)| > STREAM_SUBJECT_DEPTH ==>
      |Split(StreamSubject(pattern))| > STREAM_SUBJECT_DEPTH && Split(pattern)[..STREAM_SUBJECT_DEPTH] <= Split(e)
  {
    hide Split, GlobMatches, StreamPrefix, StreamSubject, Concrete;
    var parts, s, subject := Split(pattern), Split(e), StreamSubject(pattern);
    SubjectSegments(pattern);
    var n := if |parts| > STREAM_SUBJECT_DEPTH then STREAM_SUBJECT_DEPTH else |parts|;
    GlobLiteralHead(parts, s, n);
    ConcreteHead(parts, n);
    PrefixSegments(e);
    PrefixSegments(subject);
    if |parts| <= STREAM_SUBJECT_DEPTH {
      assert parts[n..] == [];
      GlobEmpty(s[n..]);
      assert s == parts;
      SplitIsInjective(e, pattern);
      ConcreteOfNothing();
      SplitIsInjective(subject, pattern);
    } else {
      assert Concrete(parts[n..]) != [] by { ConcreteGoesOn(parts[n..]); }
      assert Split(subject)[..n] == parts[..n];
      SplitIsInjective(StreamPrefix(e), StreamPrefix(subject));
    }
  }

  lemma ConcreteOfNothing()
    ensures Concrete([]) == []
  {
  }

  lemma ConcreteGoesOn(parts: seq<string>)
    requires parts != []
    ensures Concrete(parts) != []
  {
  }

  /** Segments a pattern matches: `y` for one, nothing for any number, itself for a literal. */
  ghost function Sample(parts: seq<string>): seq<string> {
    if parts == [] then []
    else (if parts[0] == "*" then ["y"] else if parts[0] == "**" then [] else [parts[0]]) + Sample(parts[1..])
  }

  lemma {:induction false} SampleMatches(parts: seq<string>)
    requires AllDotFree(parts)
    ensures GlobMatches(parts, Sample(parts)) && AllDotFree(Sample(parts))
  {
    hide GlobMatches;
    if parts == [] {
      GlobEmpty([]);
    } else {
      SampleMatches(parts[1..]);
      var n := if parts[0] == "**" then 0 else 1;
      var s := Sample(parts);
      assert s[n..] == Sample(parts[1..]);
      assert n == 1 ==> s[..1] == [s[0]];
      assert BlockFits(parts[0], s[..n]);
      GlobStep(parts, s);
    }
  }

  /** A pattern with a wildcard among its first four segments matches an event type of another stream. */
  lemma WildHeadMissesOwner(pattern: string, i: nat)
    requires i < |Split(pattern)| && i < STREAM_SUBJECT_DEPTH && Wild(Split(pattern)[i])
    requires forall j :: 0 <= j < i ==> !Wild(Split(pattern)[j])
    ensures exists e :: MatchesGlob(pattern, e) && StreamName(e) != StreamName(StreamSubject(pattern))
  {
    hide Split, GlobMatches, StreamPrefix, StreamSubject, Concrete, Join, Sample;
    var parts := Split(pattern);
    var head, rest := parts[..i], Sample(parts[i + 1..]);
    var seg := head + ["y"] + rest;
    SampleMatches(parts[i + 1..]);
    assert GlobMatches(parts, seg) by { HeadThenWild(parts, i, rest); }
    SplitOfJoin(seg);
    var e := Join(seg);

    var subject := StreamSubject(pattern);
    SubjectSegments(pattern);
    ConcreteHead(parts, i);
    assert Concrete(parts[i..]) == ["x"] by { ConcreteStops(parts[i..]); }
    assert Split(subject) == head + ["x"];
    PrefixSegments(e);
    PrefixSegments(subject);
    assert StreamPrefix(subject) == subject;

    var cut := Split(StreamPrefix(e));
    assert cut[..i] == head && cut[i] == "y";
    assert cut == head + ["y"] + cut[i + 1..];
    LeadChar(head, "x", []);
    LeadChar(head, "y", cut[i + 1..]);
    assert StreamPrefix(e) == Join(cut)
      && subject == Join(head + ["x"] + [])
      by { assert head + ["x"] + [] == head + ["x"]; JoinOfSplit(StreamPrefix(e)); JoinOfSplit(subject); }
    assert StreamName(e)[Lead(head)] == 'Y' && StreamName(subject)[Lead(head)] == 'X';
  }

  lemma JoinOfSplit(s: string)
    ensures Join(Split(s)) == s
  {
  }

  lemma ConcreteStops(parts: seq<string>)
    requires parts != [] && Wild(parts[0])
    ensures Concrete(parts) == ["x"]
  {
  }

  /** Where the segment after `head` begins in the joined name. */
  ghost function Lead(head: seq<string>): nat {
    if head == [] then 0 else |Join(head)| + 1
  }

  lemma LeadChar(head: seq<string>, s: string, rest: seq<string>)
    requires |s| == 1
    ensures var name := Join(head + [s] + rest); Lead(head) < |name| && name[Lead(head)] == s[0]
  {
    var tail := [s] + rest;
    assert head + [s] + rest == head + tail;
    assert |Join(tail)| > 0 && Join(tail)[0] == s[0];
    if head == [] {
      assert head + tail == tail;
    } else {
      JoinAppend(head, tail);
    }
  }

  lemma {:induction false} HeadThenWild(parts: seq<string>, i: nat, rest: seq<string>)
    requires i < |parts| && Wild(parts[i]) && (forall j :: 0 <= j < i ==> !Wild(parts[j]))
    requires GlobMatches(parts[i + 1..], rest)
    ensures GlobMatches(parts, parts[..i] + ["y"] + rest)
    decreases i
  {
    hide GlobMatches;
    var seg := parts[..i] + ["y"] + rest;
    GlobStep(parts, seg);
    assert seg[..1] == [seg[0]];
    assert BlockFits(parts[0], seg[..1]);
    if i == 0 {
      assert seg[1..] == rest;
    } else {
      assert parts[1..][i..] == parts[i + 1..];
      HeadThenWild(parts[1..], i - 1, rest);
      assert seg[1..] == parts[1..][..i - 1] + ["y"] + rest;
    }
  }

  lemma {:induction false} FirstWild(parts: seq<string>, n: nat) returns (i: nat)
    requires n <= |parts| && exists j :: 0 <= j < n && Wild(parts[j])
    ensures i < n && Wild(parts[i]) && forall j :: 0 <= j < i ==> !Wild(parts[j])
  {
    i := 0;
    while !Wild(parts[i])
      invariant i < n && forall j :: 0 <= j < i ==> !Wild(parts[j])
      decreases n - i
    {
      i := i + 1;
    }
  }

  /**
  A subscription binds the stream that owns everything it matches exactly when its pattern has no wildcard among the
  first four segments.
  */
  lemma SubscriptionBindsOwnerIff(pattern: string)
    ensures BindsOwner(pattern) <==> LiteralHead(Split(pattern))
  {
    hide Split, MatchesGlob, StreamPrefix, StreamSubject, Wild;
    if LiteralHead(Split(pattern)) {
      forall e | MatchesGlob(pattern, e)
        ensures StreamName(e) == StreamName(StreamSubject(pattern))
      {
        MatchedSharesPrefix(pattern, e);
      }
    } else {
      var parts := Split(pattern);
      var n := if |parts| > STREAM_SUBJECT_DEPTH then STREAM_SUBJECT_DEPTH else |parts|;
      var i := FirstWild(parts, n);
      WildHeadMissesOwner(pattern, i);
    }
  }

  /**
  And of what it matches, the consumer's filter lets through exactly the event types that have a verb, or everything
  when the pattern itself has none.
  */
  lemma FilterCoversIff(pattern: string, e: string)
    requires LiteralHead(Split(pattern)) && MatchesGlob(pattern, e) && NoWildcard(Split(e))
    ensures SubjectMatches(SubjectFilter(StreamSubject(pattern)), e) <==>
            |Split(e)| > STREAM_SUBJECT_DEPTH || |Split(pattern)| <= STREAM_SUBJECT_DEPTH
  {
    hide Split, MatchesGlob, StreamPrefix, StreamSubject, Wild, TokensMatch;
    MatchedSharesPrefix(pattern, e);
    var subject, s := StreamSubject(pattern), Split(e);
    PrefixSegments(subject);
    PrefixSegments(e);
    var prefix := StreamPrefix(subject);
    if |Split(pattern)| <= STREAM_SUBJECT_DEPTH {
      LiteralTokens(s, s);
    } else {
      assert SubjectFilter(subject) == prefix + ".>";
      assert Split(prefix + ".>") == Split(prefix) + [">"] by {
        assert prefix + ".>" == prefix + "." + ">";
        SplitAppend(prefix, ">");
        SplitDotFree(">");
      }
      TailTokens(Split(prefix), s);
    }
  }
}
