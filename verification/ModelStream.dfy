/**
The model's reply stream: newline-delimited chunks become one partial event per piece of text and one closing event.
*/
module ModelStream {
  import opened Text
  import opened Collections

  datatype Line = Blank | Undecodable | Chunk(content: string, done: bool, error: string)

  datatype Fault = Fault(message: string, deadline: bool)

  /** What a runner yields: a piece of the reply, a whole turn, or an error. */
  datatype Event = Partial(text: string) | Final(text: string) | Failure(fault: Fault)

  const UNDECODABLE := Fault("ollama: decode stream chunk", false)

  /** An error the model reports itself. */
  function Reported(error: string): Fault {
    Fault("ollama: " + error, false)
  }

  /** The lines after which nothing more is read. */
  predicate Closes(line: Line) {
    line.Undecodable? || (line.Chunk? && (line.error != "" || line.done))
  }

  /** The text a line adds to the reply; an error line adds none. */
  function Adds(line: Line): string {
    if line.Chunk? && line.error == "" then line.content else ""
  }

  /** Everything said up to and including the line that closes the stream. */
  function Spoken(lines: seq<Line>): string {
    if lines == [] then ""
    else Adds(lines[0]) + if Closes(lines[0]) then "" else Spoken(lines[1..])
  }

  /** How the stream ends: with the first closing line, else with the reader. */
  function Ending(lines: seq<Line>, broken: Option<Fault>): Option<Fault> {
    if lines == [] then broken
    else if lines[0].Undecodable? then Some(UNDECODABLE)
    else if lines[0].Chunk? && lines[0].error != "" then Some(Reported(lines[0].error))
    else if lines[0].Chunk? && lines[0].done then None
    else Ending(lines[1..], broken)
  }

  function Piece(line: Line): seq<Event> {
    if Adds(line) == "" then [] else [Partial(Adds(line))]
  }

  /** A partial event for each piece of text up to the closing line, in order. */
  function Pieces(lines: seq<Line>): seq<Event> {
    if lines == [] then []
    else Piece(lines[0]) + if Closes(lines[0]) then [] else Pieces(lines[1..])
  }

  function Closing(ending: Option<Fault>, text: string): Event {
    if ending.Some? then Failure(ending.value) else Final(text)
  }

  function Events(lines: seq<Line>, broken: Option<Fault>): seq<Event> {
    Pieces(lines) + [Closing(Ending(lines, broken), Spoken(lines))]
  }

  function Texts(events: seq<Event>): string {
    if events == [] then ""
    else (if events[0].Partial? then events[0].text else "") + Texts(events[1..])
  }

  lemma {:induction false} TextsAppend(a: seq<Event>, b: seq<Event>)
    ensures Texts(a + b) == Texts(a) + Texts(b)
  {
    if a == [] {
      assert a + b == b;
    } else {
      TextsAppend(a[1..], b);
      assert (a + b)[1..] == a[1..] + b;
      assert (a + b)[0] == a[0];
    }
  }

  /** The pieces are non-empty and together are all that was said. */
  lemma {:induction false} PiecesAreSpoken(lines: seq<Line>)
    ensures Texts(Pieces(lines)) == Spoken(lines)
    ensures forall i :: 0 <= i < |Pieces(lines)| ==> Pieces(lines)[i].Partial? && Pieces(lines)[i].text != ""
  {
    if lines == [] {
    } else {
      PiecesAreSpoken(lines[1..]);
      var first := Piece(lines[0]);
      var rest := if Closes(lines[0]) then [] else Pieces(lines[1..]);
      TextsAppend(first, rest);
      assert Texts(first) == Adds(lines[0]);
    }
  }

  /** The first `limit` of them. */
  function Taken<T>(items: seq<T>, limit: nat): seq<T> {
    if |items| <= limit then items else items[..limit]
  }

  lemma Onward(lines: seq<Line>)
    requires lines != [] && !Closes(lines[0])
    ensures Pieces(lines) == Piece(lines[0]) + Pieces(lines[1..])
    ensures Spoken(lines) == Adds(lines[0]) + Spoken(lines[1..])
  {
  }

  lemma {:induction false} PiecesPrefix(lines: seq<Line>, i: nat)
    requires i <= |lines| && forall j :: 0 <= j < i ==> !Closes(lines[j])
    ensures Pieces(lines) == Pieces(lines[..i]) + Pieces(lines[i..])
    ensures Spoken(lines) == Spoken(lines[..i]) + Spoken(lines[i..])
  {
    hide *;
    if i == 0 {
      NothingSaid();
      assert lines[..0] == [] && lines[0..] == lines;
    } else {
      var rest := lines[1..];
      PiecesPrefix(rest, i - 1);
      assert rest[..i - 1] == lines[..i][1..];
      assert rest[i - 1..] == lines[i..];
      assert lines[..i][0] == lines[0];
      Onward(lines);
      Onward(lines[..i]);
      Regroup(Piece(lines[0]), Pieces(rest[..i - 1]), Pieces(lines[i..]));
      Regroup(Adds(lines[0]), Spoken(rest[..i - 1]), Spoken(lines[i..]));
    }
  }

  lemma Regroup<T>(a: seq<T>, b: seq<T>, c: seq<T>)
    ensures a + (b + c) == (a + b) + c
  {
  }

  lemma {:induction false} EndingPrefix(lines: seq<Line>, i: nat, broken: Option<Fault>)
    requires i <= |lines| && forall j :: 0 <= j < i ==> !Closes(lines[j])
    ensures Ending(lines, broken) == Ending(lines[i..], broken)
  {
    if i == 0 {
    } else {
      EndingPrefix(lines[1..], i - 1, broken);
      assert lines[1..][i - 1..] == lines[i..];
    }
  }

  lemma PiecesStep(lines: seq<Line>, i: nat)
    requires i < |lines| && forall j :: 0 <= j <= i ==> !Closes(lines[j])
    ensures Pieces(lines[..i + 1]) == Pieces(lines[..i]) + Piece(lines[i])
    ensures Spoken(lines[..i + 1]) == Spoken(lines[..i]) + Adds(lines[i])
  {
    var front := lines[..i + 1];
    PiecesPrefix(front, i);
    assert front[..i] == lines[..i];
    assert front[i..] == [lines[i]];
    assert Pieces([lines[i]]) == Piece(lines[i]);
    assert Spoken([lines[i]]) == Adds(lines[i]);
  }

  /** At the closing line the rest no longer matters. */
  lemma AtClose(lines: seq<Line>, i: nat, broken: Option<Fault>)
    requires i < |lines| && Closes(lines[i]) && forall j :: 0 <= j < i ==> !Closes(lines[j])
    ensures Spoken(lines) == Spoken(lines[..i]) + Adds(lines[i])
    ensures Pieces(lines) == Pieces(lines[..i]) + Piece(lines[i])
    ensures Ending(lines, broken) == Ending([lines[i]], broken)
  {
    PiecesPrefix(lines, i);
    EndingPrefix(lines, i, broken);
    assert lines[i..][0] == lines[i];
    assert Ending(lines[i..], broken) == Ending([lines[i]], broken);
  }

  /** At the end of the lines, with nothing closed, all of it was read. */
  lemma AtEnd(lines: seq<Line>, broken: Option<Fault>)
    requires forall j :: 0 <= j < |lines| ==> !Closes(lines[j])
    ensures Ending(lines, broken) == broken
  {
    EndingPrefix(lines, |lines|, broken);
  }

  // ---------------------------------------------------------------------------------------------------------------
  // What was said, by the lines themselves

  /** What stands on a line. */
  function Content(line: Line): string {
    if line.Chunk? then line.content else ""
  }

  ghost function Joined(lines: seq<Line>): string {
    if lines == [] then "" else Joined(lines[..|lines| - 1]) + Content(lines[|lines| - 1])
  }

  /** The line that ends the stream: not blank, and undecodable, an error or the done marker. */
  predicate Stops(line: Line) {
    !line.Blank? && (line.Undecodable? || line.error != "" || line.done)
  }

  ghost function Stop(lines: seq<Line>): (n: int)
    ensures 0 <= n <= |lines| && (n < |lines| ==> Stops(lines[n])) && forall i :: 0 <= i < n ==> !Stops(lines[i])
  {
    First(lines, (line: Line) => Stops(line))
  }

  /** How many lines are part of the reply: those before the one that ends it, and that one if it is the done marker. */
  ghost function Heard(lines: seq<Line>): (n: int)
    ensures 0 <= n <= |lines|
  {
    var n := Stop(lines);
    if n < |lines| && lines[n].Chunk? && lines[n].error == "" then n + 1 else n
  }

  ghost function Said(lines: seq<Line>): string {
    Joined(lines[..Heard(lines)])
  }

  /** The fault the stream ends with, if any: that of its last line, or the reader's if no line ended it. */
  ghost function FaultOf(lines: seq<Line>, broken: Option<Fault>): Option<Fault> {
    var n := Stop(lines);
    if n == |lines| then broken
    else if lines[n].Undecodable? then Some(Fault("ollama: decode stream chunk", false))
    else if lines[n].Chunk? && lines[n].error != "" then Some(Fault("ollama: " + lines[n].error, false))
    else None
  }

  ghost function HasText(lines: seq<Line>): int -> bool {
    k => 0 <= k < |lines| && Content(lines[k]) != ""
  }

  /** One partial event for each of the first `n` lines that has text, in order. */
  ghost predicate OnePerText(lines: seq<Line>, n: int, pieces: seq<Event>) {
    exists at :: Selects(at, n, HasText(lines)) && TextsAt(lines, at, pieces)
  }

  ghost predicate TextsAt(lines: seq<Line>, at: seq<int>, pieces: seq<Event>) {
    && |pieces| == |at|
    && forall i :: 0 <= i < |at| ==> 0 <= at[i] < |lines| && pieces[i] == Partial(Content(lines[at[i]]))
  }

  lemma OneMoreText(lines: seq<Line>, n: nat, pieces: seq<Event>)
    requires n < |lines| && OnePerText(lines, n, pieces)
    ensures OnePerText(lines, n + 1, pieces + if Content(lines[n]) == "" then [] else [Partial(Content(lines[n]))])
  {
    hide Selects;
    var at :| Selects(at, n, HasText(lines)) && TextsAt(lines, at, pieces);
    SelectsNext(at, n, HasText(lines));
    var more := if Content(lines[n]) == "" then at else at + [n];
    assert TextsAt(lines, more, pieces + if Content(lines[n]) == "" then [] else [Partial(Content(lines[n]))]);
  }

  lemma NoText(lines: seq<Line>)
    ensures OnePerText(lines, 0, [])
  {
    assert Selects([], 0, HasText(lines)) && TextsAt(lines, [], []);
  }

  lemma JoinedStep(lines: seq<Line>, n: nat)
    requires n < |lines|
    ensures Joined(lines[..n + 1]) == Joined(lines[..n]) + Content(lines[n])
  {
    assert lines[..n + 1][..n] == lines[..n];
  }

  lemma {:induction false} BeforeTheStop(lines: seq<Line>, n: nat)
    requires n <= |lines| && forall i :: 0 <= i < n ==> !Stops(lines[i])
    ensures Spoken(lines[..n]) == Joined(lines[..n]) && OnePerText(lines, n, Pieces(lines[..n]))
  {
    hide Spoken, Pieces, Joined, OnePerText;
    if n == 0 {
      assert lines[..0] == [];
      NothingSaid();
      NoText(lines);
      assert Joined([]) == "" by { NothingJoined(); }
    } else {
      BeforeTheStop(lines, n - 1);
      PiecesStep(lines, n - 1);
      JoinedStep(lines, n - 1);
      OneMoreText(lines, n - 1, Pieces(lines[..n - 1]));
    }
  }

  lemma NothingJoined()
    ensures Joined([]) == ""
  {
  }

  /**
  The text of the reply is everything that stands on its lines, the closing line's included, and there is a partial
  event for each line that has text; an error or a line that cannot be decoded adds nothing and is the fault reported.
  */
  lemma ReplyIsSaid(lines: seq<Line>, broken: Option<Fault>)
    ensures Spoken(lines) == Said(lines) && Texts(Pieces(lines)) == Said(lines)
    ensures OnePerText(lines, Heard(lines), Pieces(lines))
    ensures Ending(lines, broken) == FaultOf(lines, broken)
  {
    hide Spoken, Pieces, Joined, OnePerText, Texts, Ending;
    PiecesAreSpoken(lines);
    var n := Stop(lines);
    BeforeTheStop(lines, n);
    if n == |lines| {
      assert lines[..n] == lines;
      AtEnd(lines, broken);
    } else {
      AtClose(lines, n, broken);
      ClosesWith(lines[n], broken);
      if Heard(lines) == n + 1 {
        JoinedStep(lines, n);
        OneMoreText(lines, n, Pieces(lines[..n]));
      } else {
        assert Pieces(lines) == Pieces(lines[..n]);
      }
    }
  }

  /** Yields the events in order until the consumer, who takes at most `limit` of them, stops. */
  method StreamChat(lines: seq<Line>, broken: Option<Fault>, limit: nat) returns (yielded: seq<Event>)
    requires limit > 0
    ensures yielded == Taken(Events(lines, broken), limit)
    ensures yielded != [] && !yielded[|yielded| - 1].Partial? ==>
      && Texts(yielded) == Said(lines)
      && yielded[|yielded| - 1] == Closing(FaultOf(lines, broken), Said(lines))
  {
    hide Pieces, Spoken, Ending, Said, FaultOf, Texts;
    ClosedIsAll(lines, broken);
    yielded := [];
    var full := "";
    assert lines[..0] == [];
    assert Pieces([]) == [] && Spoken([]) == "" by { NothingSaid(); }
    for i := 0 to |lines|
      invariant forall j :: 0 <= j < i ==> !Closes(lines[j])
      invariant yielded == Pieces(lines[..i]) && |yielded| < limit
      invariant full == Spoken(lines[..i])
    {
      var line := lines[i];
      if line.Blank? {
        PiecesStep(lines, i);
        continue;
      }
      if line.Undecodable? {
        AtClose(lines, i, broken);
        ClosesWith(line, broken);
        yielded := yielded + [Failure(UNDECODABLE)];
        return;
      }
      if line.error != "" {
        AtClose(lines, i, broken);
        ClosesWith(line, broken);
        yielded := yielded + [Failure(Reported(line.error))];
        return;
      }
      if line.done {
        AtClose(lines, i, broken);
        ClosesWith(line, broken);
        var tail := line.content;
        if tail != "" {
          full := full + tail;
          yielded := yielded + [Partial(tail)];
          if |yielded| == limit {
            assert Events(lines, broken)[..limit] == yielded;
            return;
          }
        }
        assert yielded == Pieces(lines) && full == Spoken(lines);
        yielded := yielded + [Final(full)];
        return;
      }
      PiecesStep(lines, i);
      var delta := line.content;
      if delta == "" {
        continue;
      }
      full := full + delta;
      yielded := yielded + [Partial(delta)];
      if |yielded| == limit {
        PiecesPrefix(lines, i + 1);
        assert Events(lines, broken)[..limit] == yielded;
        return;
      }
    }
    assert lines[..|lines|] == lines;
    AtEnd(lines, broken);
    if broken.Some? {
      yielded := yielded + [Failure(broken.value)];
      return;
    }
    yielded := yielded + [Final(full)];
  }

  /** Events that end otherwise than with a partial one are all of them. */
  lemma ClosedIsAll(lines: seq<Line>, broken: Option<Fault>)
    ensures forall limit: nat ::
      var yielded := Taken(Events(lines, broken), limit);
      yielded != [] && !yielded[|yielded| - 1].Partial? ==>
        && Texts(yielded) == Said(lines)
        && yielded[|yielded| - 1] == Closing(FaultOf(lines, broken), Said(lines))
  {
    hide Pieces, Spoken, Ending, Said, FaultOf, Texts;
    ReplyIsSaid(lines, broken);
    PiecesAreSpoken(lines);
    var pieces, last := Pieces(lines), Closing(Ending(lines, broken), Spoken(lines));
    TextsAppend(pieces, [last]);
    assert Texts([last]) == "" by { NoPartialText(last); }
  }

  lemma NoPartialText(e: Event)
    requires !e.Partial?
    ensures Texts([e]) == ""
  {
  }

  lemma NothingSaid()
    ensures Pieces([]) == [] && Spoken([]) == ""
  {
  }

  lemma ClosesWith(line: Line, broken: Option<Fault>)
    requires Closes(line)
    ensures Ending([line], broken) ==
            if line.Undecodable? then Some(UNDECODABLE)
            else if line.error != "" then Some(Reported(line.error))
            else None
  {
  }
}
