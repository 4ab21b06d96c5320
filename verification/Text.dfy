/**
Dotted names as the Go standard library sees them: `strings.Split(s, ".")`, `strings.Join(parts, ".")`,
`strings.Index`, `strings.HasPrefix` and `strconv.FormatUint`.

Prefix tests use Dafny's own prefix operator: `p <= s` is `strings.HasPrefix(s, p)`.
*/
module Text {

  datatype Option<+T> = None | Some(value: T)

  predicate DotFree(s: string) {
    '.' !in s
  }

  ghost predicate AllDotFree(parts: seq<string>) {
    forall i :: 0 <= i < |parts| ==> DotFree(parts[i])
  }

  predicate HasSuffix(s: string, suffix: string) {
    |suffix| <= |s| && s[|s| - |suffix|..] == suffix
  }

  /** `strings.Join(parts, ".")`. */
  function Join(parts: seq<string>): string {
    if parts == [] then ""
    else if |parts| == 1 then parts[0]
    else parts[0] + "." + Join(parts[1..])
  }

  /** `strings.Split(s, ".")`: never empty, its parts hold no dot, and joining them gives `s` back. */
  function Split(s: string): (parts: seq<string>)
    ensures parts != []
    ensures forall i :: 0 <= i < |parts| ==> DotFree(parts[i])
    ensures Join(parts) == s
  {
    if s == "" then [""]
    else if s[0] == '.' then
      var rest := Split(s[1..]);
      assert ([""] + rest)[1..] == rest;
      [""] + rest
    else
      var rest := Split(s[1..]);
      var parts := [[s[0]] + rest[0]] + rest[1..];
      assert parts[1..] == rest[1..];
      parts
  }

  /** A dot-free head splits off as the first part. */
  lemma {:induction false} SplitHead(head: string, tail: string)
    requires DotFree(head)
    ensures Split(head + "." + tail) == [head] + Split(tail)
    decreases |head|
  {
    var s := head + "." + tail;
    if head == "" {
      assert s[1..] == tail;
    } else {
      assert s[1..] == head[1..] + "." + tail;
      SplitHead(head[1..], tail);
      assert [s[0]] + head[1..] == head;
    }
  }

  lemma {:induction false} SplitDotFree(s: string)
    requires DotFree(s)
    ensures Split(s) == [s]
  {
    if s == "" {
    } else {
      SplitDotFree(s[1..]);
      assert [s[0]] + s[1..] == s;
    }
  }

  /** Splitting undoes joining. With `Join(Split(s)) == s` this makes dotted names and part lists one and the same. */
  lemma {:induction false} SplitOfJoin(parts: seq<string>)
    requires parts != [] && AllDotFree(parts)
    ensures Split(Join(parts)) == parts
  {
    if |parts| == 1 {
      SplitDotFree(parts[0]);
    } else {
      SplitOfJoin(parts[1..]);
      SplitHead(parts[0], Join(parts[1..]));
    }
  }

  /** Joining distributes over a cut between two non-empty part lists. */
  lemma {:induction false} JoinAppend(a: seq<string>, b: seq<string>)
    requires a != [] && b != []
    ensures Join(a + b) == Join(a) + "." + Join(b)
  {
    if |a| == 1 {
      assert (a + b)[1..] == b;
    } else {
      assert (a + b)[1..] == a[1..] + b;
      JoinAppend(a[1..], b);
    }
  }

  lemma {:induction false} SplitAppend(a: string, b: string)
    ensures Split(a + "." + b) == Split(a) + Split(b)
  {
    var parts := Split(a) + Split(b);
    JoinAppend(Split(a), Split(b));
    SplitOfJoin(parts);
  }

  predicate OccursAt(s: string, sub: string, i: nat) {
    i + |sub| <= |s| && s[i..i + |sub|] == sub
  }

  /** `strings.Index(s, sub)`: the first occurrence, or -1. */
  function Index(s: string, sub: string): (i: int)
    ensures i >= 0 ==> OccursAt(s, sub, i)
    ensures forall j: nat :: (i < 0 || j < i) ==> !OccursAt(s, sub, j)
  {
    if sub <= s then
      assert OccursAt(s, sub, 0);
      0
    else if s == "" then -1
    else
      OccursLater(s, sub);
      var i := Index(s[1..], sub);
      if i < 0 then -1 else i + 1
  }

  lemma OccursLater(s: string, sub: string)
    requires s != "" && !(sub <= s)
    ensures forall j: nat :: OccursAt(s, sub, j) ==> j > 0 && OccursAt(s[1..], sub, j - 1)
    ensures forall j: nat :: OccursAt(s[1..], sub, j) ==> OccursAt(s, sub, j + 1)
  {
    forall j: nat | j + 1 + |sub| <= |s|
      ensures OccursAt(s[1..], sub, j) <==> OccursAt(s, sub, j + 1)
    {
      assert s[1..][j..j + |sub|] == s[j + 1..j + 1 + |sub|];
    }
    assert OccursAt(s, sub, 0) ==> sub <= s;
    forall j: nat | OccursAt(s, sub, j)
      ensures j > 0 && OccursAt(s[1..], sub, j - 1)
    {
      assert j == j - 1 + 1;
    }
  }

  lemma CutPrefix(p: string, s: string)
    ensures p <= p + s && (p + s)[|p|..] == s
  {
  }

  lemma PasteParts(s: string, sub: string, i: nat)
    requires OccursAt(s, sub, i)
    ensures s == s[..i] + sub + s[i + |sub|..]
  {
  }

  /** An infix whose first letter is not in `a` occurs first right after `a`. */
  lemma IndexAfter(a: string, sub: string, b: string)
    requires sub != "" && sub[0] !in a
    ensures Index(a + sub + b, sub) == |a|
    ensures (a + sub + b)[..|a|] == a && (a + sub + b)[|a| + |sub|..] == b
  {
    var s := a + sub + b;
    assert s[|a|..|a| + |sub|] == sub;
    assert OccursAt(s, sub, |a|);
    forall j: nat | j < |a|
      ensures !OccursAt(s, sub, j)
    {
      assert s[j] == a[j];
      assert a[j] in a;
    }
  }

  /** `strconv.FormatUint(n, 10)`. */
  function Digits(n: nat): (s: string)
    ensures s != "" && forall i :: 0 <= i < |s| ==> '0' <= s[i] <= '9'
  {
    if n < 10 then [Digit(n)] else Digits(n / 10) + [Digit(n % 10)]
  }

  function Digit(n: nat): char
    requires n < 10
  {
    '0' + n as char
  }

  function Value(s: string): nat
    requires forall i :: 0 <= i < |s| ==> '0' <= s[i] <= '9'
  {
    if s == "" then 0 else 10 * Value(s[..|s| - 1]) + (s[|s| - 1] - '0') as nat
  }

  /** Decimal notation is injective: `Value` reads the number back. */
  lemma {:induction false} ValueOfDigits(n: nat)
    ensures Value(Digits(n)) == n
  {
    if n < 10 {
    } else {
      var s := Digits(n);
      assert s[..|s| - 1] == Digits(n / 10);
      ValueOfDigits(n / 10);
    }
  }
}
