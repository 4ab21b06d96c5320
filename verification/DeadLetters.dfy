/**
Moving messages that exhausted their deliveries into a dead-letter stream: the names, the headers, the server's
deduplicating publish, and the forwarder's handling of one advisory.
*/
module DeadLetters {
  import opened Text
  import opened Naming

  datatype Msg = Msg(subject: string, header: map<string, seq<string>>, body: string)

  /** A max-deliveries advisory. */
  datatype Advisory = Advisory(stream: string, consumer: string, sequence: nat, deliveries: nat)

  /** A message as a dead-letter stream holds it, with the id it was published under. */
  datatype Copy = Copy(id: string, msg: Msg)

  /** A dead-letter stream: its one exact subject, and every message it has accepted within the deduplication window. */
  datatype Dlq = Dlq(subject: string, accepted: seq<Copy>)

  type Sources = map<(string, nat), Msg>
  type Dlqs = map<string, Dlq>

  const DLQ_STREAM_PREFIX := "DLQ_"
  const NATS_HEADER_PREFIX := "Nats-"
  const PUBLISH_ATTEMPTS := 3

  const SOURCE_STREAM := "Zynax-Dlq-Source-Stream"
  const SOURCE_SUBJECT := "Zynax-Dlq-Source-Subject"
  const SOURCE_SEQUENCE := "Zynax-Dlq-Source-Sequence"
  const CONSUMER := "Zynax-Dlq-Consumer"
  const DELIVERIES := "Zynax-Dlq-Deliveries"

  function DlqStreamName(stream: string): string {
    DLQ_STREAM_PREFIX + stream
  }

  /** The deduplication key: the same for every replay of an advisory and every forwarder. */
  function MessageId(stream: string, sequence: nat): string {
    DlqStreamName(stream) + ":" + Digits(sequence)
  }

  predicate Actionable(adv: Advisory) {
    adv.stream != "" && adv.sequence != 0 && !(DLQ_STREAM_PREFIX <= adv.stream)
  }

  predicate SourceForwardable(stream: string, subject: string) {
    !(RESERVED_DLQ_PREFIX <= subject) && StreamName(subject) == stream
  }

  // ---------------------------------------------------------------------------------------------------------------
  // Message ids

  /** The colon before the digits is the last one, so stream and sequence can be read back. */
  lemma LastColon(a: string, m: nat, b: string, n: nat)
    requires a + ":" + Digits(m) == b + ":" + Digits(n)
    ensures a == b && Digits(m) == Digits(n)
  {
    var s, t := a + ":" + Digits(m), b + ":" + Digits(n);
    assert s[|a|] == ':' && t[|b|] == ':';
    assert a == s[..|a|] && b == t[..|b|];
    assert Digits(m) == s[|a| + 1..] && Digits(n) == t[|b| + 1..];
  }

  /** No two source messages share a deduplication key, so no rescue can be mistaken for another. */
  lemma MessageIdIsInjective(s: string, m: nat, t: string, n: nat)
    ensures MessageId(s, m) == MessageId(t, n) <==> s == t && m == n
  {
    if MessageId(s, m) == MessageId(t, n) {
      LastColon(DlqStreamName(s), m, DlqStreamName(t), n);
      CutPrefix(DLQ_STREAM_PREFIX, s);
      CutPrefix(DLQ_STREAM_PREFIX, t);
      ValueOfDigits(m);
      ValueOfDigits(n);
    }
  }

  // ---------------------------------------------------------------------------------------------------------------
  // Headers

  function Kept(src: map<string, seq<string>>): map<string, seq<string>> {
    map k | k in src && !(NATS_HEADER_PREFIX <= k) :: src[k]
  }

  function Forensic(adv: Advisory, subject: string): map<string, seq<string>> {
    map[SOURCE_STREAM := [adv.stream], SOURCE_SUBJECT := [subject], SOURCE_SEQUENCE := [Digits(adv.sequence)],
        CONSUMER := [adv.consumer], DELIVERIES := [Digits(adv.deliveries)]]
  }

  /** The source headers outside the server's reserved namespace, with the forensic trail stamped over them. */
  method DlqHeader(src: map<string, seq<string>>, adv: Advisory, subject: string) returns (h: map<string, seq<string>>)
    ensures h == Kept(src) + Forensic(adv, subject)
  {
    hide Kept;
    h := map[];
    var todo := src.Keys;
    assert Kept(src - todo) == map[] by { NothingKept(src); }
    while todo != {}
      invariant todo <= src.Keys
      invariant h == Kept(src - todo)
      decreases |todo|
    {
      var k :| k in todo;
      KeptStep(src, todo, k);
      todo := todo - {k};
      if NATS_HEADER_PREFIX <= k {
        continue;
      }
      h := h[k := src[k]];
    }
    assert src - todo == src;
    h := h[SOURCE_STREAM := [adv.stream]];
    h := h[SOURCE_SUBJECT := [subject]];
    h := h[SOURCE_SEQUENCE := [Digits(adv.sequence)]];
    h := h[CONSUMER := [adv.consumer]];
    h := h[DELIVERIES := [Digits(adv.deliveries)]];
  }

  lemma NothingKept(src: map<string, seq<string>>)
    ensures Kept(src - src.Keys) == map[]
  {
  }

  lemma KeptStep(src: map<string, seq<string>>, todo: set<string>, k: string)
    requires k in todo && todo <= src.Keys
    ensures Kept(src - (todo - {k})) ==
      if NATS_HEADER_PREFIX <= k then Kept(src - todo) else Kept(src - todo)[k := src[k]]
  {
    assert src - (todo - {k}) == (src - todo)[k := src[k]];
  }

  /**
  No header of the copy is in the reserved namespace: a publisher's own message id cannot displace the forwarder's.
  */
  lemma HeaderIsUnreserved(src: map<string, seq<string>>, adv: Advisory, subject: string, k: string)
    requires k in Kept(src) + Forensic(adv, subject)
    ensures !(NATS_HEADER_PREFIX <= k)
  {
    if k !in Kept(src) {
      assert k in Forensic(adv, subject);
      assert k[0] == 'Z';
    }
  }

  // ---------------------------------------------------------------------------------------------------------------
  // The server's part

  predicate HoldsId(copies: seq<Copy>, id: string) {
    exists i :: 0 <= i < |copies| && copies[i].id == id
  }

  /** A publish under a message id: a stream that holds the id already reports a duplicate and stores nothing. */
  function Accept(d: Dlq, copy: Copy): Dlq {
    if HoldsId(d.accepted, copy.id) then d else d.(accepted := d.accepted + [copy])
  }

  /** `ensureDLQStream`: a stream of that name is left as it is, whatever its subject. */
  function Ensured(dlqs: Dlqs, name: string, subject: string): Dlqs {
    if name in dlqs then dlqs else dlqs[name := Dlq(subject, [])]
  }

  /** Some stream listens on the subject. */
  ghost predicate Routable(dlqs: Dlqs, subject: string) {
    exists name :: name in dlqs && dlqs[name].subject == subject
  }

  function Outgoing(adv: Advisory, raw: Msg): Msg {
    Msg(DlqDeliverSubject(raw.subject), Kept(raw.header) + Forensic(adv, raw.subject), raw.body)
  }

  /** What is rescued at all: a message of a stream named after its subject, never one of a dead-letter stream. */
  ghost predicate Rescuable(adv: Advisory, subject: string) {
    && adv.stream != "" && adv.sequence != 0 && !("DLQ_" <= adv.stream)
    && !("zynax.dlq." <= subject) && StreamName(subject) == adv.stream
  }

  lemma RescuableIff(adv: Advisory, subject: string)
    ensures Rescuable(adv, subject) <==> Actionable(adv) && SourceForwardable(adv.stream, subject)
  {
  }

  /** The five headers of the forensic trail. */
  ghost function Trail(): set<string> {
    {"Zynax-Dlq-Source-Stream", "Zynax-Dlq-Source-Subject", "Zynax-Dlq-Source-Sequence", "Zynax-Dlq-Consumer",
      "Zynax-Dlq-Deliveries"}
  }

  /** The message as it is rescued: its body, its headers but for the server's own, and the trail of the advisory. */
  ghost predicate Rescues(adv: Advisory, raw: Msg, out: Msg) {
    && out.body == raw.body
    && out.subject == "zynax.dlq." + StreamPrefix(raw.subject) + ".dead"
    && (forall k :: k in raw.header && !("Nats-" <= k) && k !in Trail() ==>
      k in out.header && out.header[k] == raw.header[k])
    && (forall k :: k in out.header && k !in Trail() ==> k in raw.header && !("Nats-" <= k))
    && Trail() <= out.header.Keys
    && out.header["Zynax-Dlq-Source-Stream"] == [adv.stream]
    && out.header["Zynax-Dlq-Source-Subject"] == [raw.subject]
    && out.header["Zynax-Dlq-Source-Sequence"] == [Digits(adv.sequence)]
    && out.header["Zynax-Dlq-Consumer"] == [adv.consumer]
    && out.header["Zynax-Dlq-Deliveries"] == [Digits(adv.deliveries)]
  }

  lemma OutgoingRescues(adv: Advisory, raw: Msg)
    ensures Rescues(adv, raw, Outgoing(adv, raw))
  {
    hide StreamPrefix, Digits;
    TrailDiffers();
  }

  lemma TrailDiffers()
    ensures |SOURCE_STREAM| == 23 && |SOURCE_SUBJECT| == 24 && |SOURCE_SEQUENCE| == 25 && |CONSUMER| == 18
      && |DELIVERIES| == 20
  {
  }

  datatype Fetched = Found(msg: Msg) | Missing | Broken

  /** What becomes of one publish: the request is lost, its acknowledgement is lost, or the answer arrives. */
  datatype Fate = RequestLost | AckLost | Acked

  datatype Stats = Stats(forwarded: nat, deduplicated: nat, skipped: nat, failed: nat)

  datatype Outcome = Forwarded | Deduplicated | Skipped | Failed

  function Bump(s: Stats, o: Outcome): Stats {
    match o
    case Forwarded => s.(forwarded := s.forwarded + 1)
    case Deduplicated => s.(deduplicated := s.deduplicated + 1)
    case Skipped => s.(skipped := s.skipped + 1)
    case Failed => s.(failed := s.failed + 1)
  }

  lemma AcceptHolds(d: Dlq, copy: Copy)
    ensures HoldsId(Accept(d, copy).accepted, copy.id)
  {
    var d' := Accept(d, copy);
    if !HoldsId(d.accepted, copy.id) {
      assert d'.accepted[|d.accepted|] == copy;
    }
  }
}
