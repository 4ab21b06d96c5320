/**
The two readers of `$.states.<state>.output.<key>`: the workflow compiler's (`parseBindingRef`) and the
engine adapter's (`canonicalRefKey`), and the store key both of them denote.
*/
module References {
  import opened Text

  /** The prefix the compiler takes as the mark of a reference (`inputBindingPrefix`). */
  const STATES_PREFIX := "$.states."
  /** The prefix the runtime takes as the mark of a reference (`dataRefPrefix`). */
  const DATA_PREFIX := "$."
  const OUTPUT_INFIX := ".output."

  datatype Reference = Reference(state: string, key: string)

  /** The compiler's reader. The key may hold dots; the state is whatever precedes the first `.output.`. */
  function ParseBindingRef(ref: string): Option<Reference> {
    if !(STATES_PREFIX <= ref) then None
    else
      var rest := ref[|STATES_PREFIX|..];
      var i := Index(rest, OUTPUT_INFIX);
      if i <= 0 then None
      else
        var state, key := rest[..i], rest[i + |OUTPUT_INFIX|..];
        if state == "" || key == "" then None else Some(Reference(state, key))
  }

  /** The runtime's reader: exactly four non-empty segments, the first and third fixed. */
  function CanonicalRefKey(ref: string): Option<string> {
    var path := if DATA_PREFIX <= ref then ref[|DATA_PREFIX|..] else ref;
    var parts := Split(path);
    if |parts| != 4 || parts[0] != "states" || parts[2] != "output" || parts[1] == "" || parts[3] == ""
    then None
    else Some(path)
  }

  function OutputKey(state: string, key: string): string {
    "states." + state + OUTPUT_INFIX + key
  }

  /** A compiled reference says what it was read from. */
  lemma ParsedRefSpells(ref: string)
    requires ParseBindingRef(ref).Some?
    ensures var r := ParseBindingRef(ref).value;
            ref == DATA_PREFIX + OutputKey(r.state, r.key) && r.state != "" && r.key != ""
  {
    var rest := ref[|STATES_PREFIX|..];
    PasteParts(rest, OUTPUT_INFIX, Index(rest, OUTPUT_INFIX));
    RefSpelling(ParseBindingRef(ref).value.state, ParseBindingRef(ref).value.key);
  }

  lemma RefSpelling(state: string, key: string)
    ensures DATA_PREFIX + OutputKey(state, key) == STATES_PREFIX + (state + OUTPUT_INFIX + key)
  {
    assert STATES_PREFIX == DATA_PREFIX + "states.";
  }

  lemma KeySpelling(state: string, key: string)
    ensures OutputKey(state, key) == "states" + "." + (state + "." + ("output" + "." + key))
  {
    assert OUTPUT_INFIX == "." + "output" + ".";
    assert "states." == "states" + ".";
  }

  lemma SplitOutputKey(state: string, key: string)
    ensures Split(OutputKey(state, key)) == ["states"] + Split(state) + ["output"] + Split(key)
  {
    hide Split, OutputKey;
    var tail := "output" + "." + key;
    KeySpelling(state, key);
    SplitHead("states", state + "." + tail);
    SplitAppend(state, tail);
    SplitHead("output", key);
  }

  lemma ReadersAgreeForward(state: string, key: string)
    requires DotFree(state) && DotFree(key) && state != "" && key != ""
    ensures CanonicalRefKey(DATA_PREFIX + OutputKey(state, key)) == Some(OutputKey(state, key))
    ensures ParseBindingRef(DATA_PREFIX + OutputKey(state, key)) == Some(Reference(state, key))
  {
    CompilerReads(state, key);
    RuntimeReads(state, key);
  }

  lemma CompilerReads(state: string, key: string)
    requires DotFree(state) && state != "" && key != ""
    ensures ParseBindingRef(DATA_PREFIX + OutputKey(state, key)) == Some(Reference(state, key))
  {
    RefSpelling(state, key);
    CutPrefix(STATES_PREFIX, state + OUTPUT_INFIX + key);
    IndexAfter(state, OUTPUT_INFIX, key);
  }

  lemma RuntimeReads(state: string, key: string)
    requires DotFree(state) && DotFree(key) && state != "" && key != ""
    ensures CanonicalRefKey(DATA_PREFIX + OutputKey(state, key)) == Some(OutputKey(state, key))
  {
    CutPrefix(DATA_PREFIX, OutputKey(state, key));
    SplitOutputKey(state, key);
    SplitDotFree(state);
    SplitDotFree(key);
    assert Split(OutputKey(state, key)) == ["states", state, "output", key];
  }

  lemma JoinFour(a: string, b: string, c: string, d: string)
    ensures Join([a, b, c, d]) == a + "." + (b + "." + (c + "." + d))
  {
    assert [a, b, c, d][1..] == [b, c, d];
    assert [b, c, d][1..] == [c, d];
    assert [c, d][1..] == [d];
    assert Join([c, d]) == c + "." + Join([d]);
    assert Join([b, c, d]) == b + "." + Join([c, d]);
  }

  lemma CanonicalShape(ref: string)
    requires DATA_PREFIX <= ref && CanonicalRefKey(ref).Some?
    ensures exists state, key ::
      && ref == DATA_PREFIX + OutputKey(state, key)
      && DotFree(state) && DotFree(key) && state != "" && key != ""
  {
    hide Split, Join, OutputKey;
    var path := ref[|DATA_PREFIX|..];
    var parts := Split(path);
    var state, key := parts[1], parts[3];
    assert parts == ["states", state, "output", key];
    JoinFour("states", state, "output", key);
    KeySpelling(state, key);
    assert ref == DATA_PREFIX + path;
  }

  /**
  Where the two readers agree, exactly: the runtime accepts a `$.` reference just when the compiler reads it as a
  dot-free state and a dot-free key, and the store key it looks up is then the one that state and key are written to.
  */
  lemma ReadersAgree(ref: string)
    requires DATA_PREFIX <= ref
    ensures CanonicalRefKey(ref).Some? <==>
            ParseBindingRef(ref).Some? && DotFree(ParseBindingRef(ref).value.state)
              && DotFree(ParseBindingRef(ref).value.key)
    ensures CanonicalRefKey(ref).Some? ==>
            var r := ParseBindingRef(ref).value; CanonicalRefKey(ref) == Some(OutputKey(r.state, r.key))
  {
    if CanonicalRefKey(ref).Some? {
      CanonicalShape(ref);
      var state, key :| ref == DATA_PREFIX + OutputKey(state, key) && DotFree(state) && DotFree(key) && state != ""
        && key != "";
      ReadersAgreeForward(state, key);
    } else if ParseBindingRef(ref).Some? {
      ParsedRefSpells(ref);
      var r := ParseBindingRef(ref).value;
      if DotFree(r.state) && DotFree(r.key) {
        ReadersAgreeForward(r.state, r.key);
      }
    }
  }

  /** The compiler documents dotted keys as a nested path; the runtime refuses every one of them. */
  lemma DottedKeyIsRefusedAtRunTime(state: string, key: string)
    requires DotFree(state) && state != "" && key != ""
    ensures ParseBindingRef(DATA_PREFIX + OutputKey(state, key)) == Some(Reference(state, key))
    ensures CanonicalRefKey(DATA_PREFIX + OutputKey(state, key)) == None <==> !DotFree(key)
  {
    CutPrefix(DATA_PREFIX, OutputKey(state, key));
    CompilerReads(state, key);
    ReadersAgree(DATA_PREFIX + OutputKey(state, key));
  }

  /** Two state ids whose outputs can land on one store key. */
  predicate MayCollide(s: string, t: string) {
    s + ".output" == t || s + OUTPUT_INFIX <= t || t + ".output" == s || t + OUTPUT_INFIX <= s
  }

  /** An infix that does not repeat its first letter before its last can only overlap itself there. */
  lemma OverlapShape(s: string, mid: string, k: string, t: string, l: string)
    requires s + mid + k == t + mid + l && |s| < |t| && |mid| >= 2
    requires forall i :: 0 < i < |mid| - 1 ==> mid[i] != mid[0]
    ensures s + mid[..|mid| - 1] == t || s + mid <= t
  {
    var a, b := s + mid + k, t + mid + l;
    var d := |t| - |s|;
    assert forall i :: 0 <= i < |mid| ==> a[|s| + i] == mid[i] && b[|t| + i] == mid[i];
    assert forall i :: 0 <= i < |t| ==> a[i] == t[i];
    assert d < |mid| ==> mid[d] == a[|s| + d] == b[|t|] == mid[0];
    assert forall i :: 0 <= i < |s| ==> s[i] == t[i];
  }

  lemma CollisionShape(s: string, k: string, t: string, l: string)
    requires OutputKey(s, k) == OutputKey(t, l) && |s| < |t|
    ensures s + ".output" == t || s + OUTPUT_INFIX <= t
  {
    CancelStates(s, k, t, l);
    OverlapShape(s, OUTPUT_INFIX, k, t, l);
    assert OUTPUT_INFIX[..|OUTPUT_INFIX| - 1] == ".output";
  }

  lemma CancelStates(s: string, k: string, t: string, l: string)
    requires OutputKey(s, k) == OutputKey(t, l)
    ensures s + OUTPUT_INFIX + k == t + OUTPUT_INFIX + l
  {
    var a, b := s + OUTPUT_INFIX + k, t + OUTPUT_INFIX + l;
    assert OutputKey(s, k) == "states." + a && OutputKey(t, l) == "states." + b;
    CutPrefix("states.", a);
    CutPrefix("states.", b);
  }

  lemma EqualPrefix(a: string, b: string, c: string, d: string)
    requires a + b == c + d && |a| == |c|
    ensures a == c && b == d
  {
    assert a == (a + b)[..|a|] && c == (c + d)[..|c|];
    assert b == (a + b)[|a|..] && d == (c + d)[|c|..];
  }

  /**
  Store keys of two different states, for outputs that have names, can collide exactly when one id extends the other by
  `.output`.
  */
  lemma OutputKeysCollideIff(s: string, t: string)
    requires s != t
    ensures (exists k, l :: k != "" && l != "" && OutputKey(s, k) == OutputKey(t, l)) <==> MayCollide(s, t)
    ensures (exists k, l :: OutputKey(s, k) == OutputKey(t, l)) ==> MayCollide(s, t)
  {
    if k, l :| OutputKey(s, k) == OutputKey(t, l) {
      if |s| < |t| {
        CollisionShape(s, k, t, l);
      } else if |t| < |s| {
        CollisionShape(t, l, s, k);
      } else {
        CancelStates(s, k, t, l);
        assert s + (OUTPUT_INFIX + k) == s + OUTPUT_INFIX + k;
        assert t + (OUTPUT_INFIX + l) == t + OUTPUT_INFIX + l;
        EqualPrefix(s, OUTPUT_INFIX + k, t, OUTPUT_INFIX + l);
      }
    }
    if MayCollide(s, t) {
      if s + ".output" == t || s + OUTPUT_INFIX <= t {
        CollisionWitness(s, t);
      } else {
        CollisionWitness(t, s);
      }
    }
  }

  lemma CollisionWitness(s: string, t: string)
    requires s + ".output" == t || s + OUTPUT_INFIX <= t
    ensures exists k, l :: k != "" && l != "" && OutputKey(s, k) == OutputKey(t, l)
  {
    if s + ".output" == t {
      assert OutputKey(s, "output.x") == OutputKey(t, "x");
    } else {
      var x := t[|s| + 8..];
      assert t == s + OUTPUT_INFIX + x;
      assert OutputKey(s, x + OUTPUT_INFIX + "x") == OutputKey(t, "x");
    }
  }

  /** Within one state the key is recovered from the store key. */
  lemma OutputKeyCancels(s: string, k: string, l: string)
    ensures OutputKey(s, k) == OutputKey(s, l) ==> k == l
  {
    if OutputKey(s, k) == OutputKey(s, l) {
      EqualPrefix("states." + s + OUTPUT_INFIX, k, "states." + s + OUTPUT_INFIX, l);
    }
  }

  /** A set of state ids no two of which can collide: for these the store key determines state and key. */
  ghost predicate Separate(ids: set<string>) {
    forall s, t :: s in ids && t in ids && s != t ==> !MayCollide(s, t)
  }

  lemma LongerHasDot(s: string, ext: string, t: string)
    requires ext != "" && ext[0] == '.' && s + ext <= t
    ensures !DotFree(t)
  {
    assert t[|s|] == (s + ext)[|s|] == '.';
  }

  lemma DotFreeIsSeparate(ids: set<string>)
    requires forall s :: s in ids ==> DotFree(s)
    ensures Separate(ids)
  {
    forall s, t | s in ids && t in ids
      ensures !(s + ".output" <= t) && !(s + OUTPUT_INFIX <= t)
    {
      if s + ".output" <= t {
        LongerHasDot(s, ".output", t);
      }
      if s + OUTPUT_INFIX <= t {
        LongerHasDot(s, OUTPUT_INFIX, t);
      }
    }
  }

  lemma SeparateKeysAreInjective(ids: set<string>, s: string, k: string, t: string, l: string)
    requires Separate(ids) && s in ids && t in ids && OutputKey(s, k) == OutputKey(t, l)
    ensures s == t && k == l
  {
    if s != t {
      OutputKeysCollideIff(s, t);
    } else {
      OutputKeyCancels(s, k, l);
    }
  }

  /** A store key the runtime can look up names a dot-free state and key, whatever state and key wrote it. */
  lemma ReadableKeyIsUnambiguous(state: string, key: string, s: string, k: string)
    requires DotFree(state) && DotFree(key) && OutputKey(state, key) == OutputKey(s, k)
    ensures s == state && k == key
  {
    SplitOutputKey(state, key);
    SplitOutputKey(s, k);
    SplitDotFree(state);
    SplitDotFree(key);
    var parts := ["states"] + Split(s) + ["output"] + Split(k);
    assert parts == ["states", state, "output", key];
    assert |Split(s)| == 1 && |Split(k)| == 1;
    assert parts[1] == Split(s)[0] && parts[3] == Split(k)[0];
    assert Split(s)[0] == s && Split(k)[0] == k;
  }
}
