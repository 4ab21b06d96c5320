/**
Context injection for a scenario: the contents of each source's files, in declared order, cut to a budget from the
front.
*/
module ContextBudget {
  import opened Text
  import opened Collections

  datatype ContextSource = ContextSource(key: string, files: seq<string>)

  datatype Overflow = TruncateOldest | ErrorOut

  datatype ContextBlock = ContextBlock(sources: seq<ContextSource>, maxTokens: int, overflow: Overflow)

  datatype ContextError =
    | DuplicateKey(key: string)
    | Outside(key: string, file: string)
    | Unreadable(key: string, file: string)
    | OverBudget(total: nat)

  /** No block, no values. */
  datatype Resolution = NoContext | Values(values: map<string, string>) | Refused(error: ContextError)

  /** `confinePath` under the scenario's directory, and what the disk holds at a path. */
  datatype Disk = Disk(confine: string -> Option<string>, content: string -> Option<string>) {
    function Read(file: string): Option<string> {
      if confine(file).None? then None else content(confine(file).value)
    }
  }

  const TOKEN_CHARS_PER_TOKEN := 4

  ghost predicate DistinctKeys(sources: seq<ContextSource>) {
    forall i, j :: 0 <= i < j < |sources| ==> sources[i].key != sources[j].key
  }

  ghost function KeysOf(sources: seq<ContextSource>): set<string> {
    set i | 0 <= i < |sources| :: sources[i].key
  }

  /** The values one after another, in declared order. */
  ghost function Concat(sources: seq<ContextSource>, values: map<string, string>): string
    requires KeysOf(sources) <= values.Keys
  {
    if sources == [] then ""
    else
      assert sources[|sources| - 1].key in KeysOf(sources);
      assert KeysOf(sources[..|sources| - 1]) <= KeysOf(sources);
      Concat(sources[..|sources| - 1], values) + values[sources[|sources| - 1].key]
  }

  /** The last `n` bytes, or all of it. */
  function LastBytes(s: string, n: int): string {
    if |s| <= n then s else if n <= 0 then "" else s[|s| - n..]
  }

  function DropFirst(s: string, n: nat): string {
    if n >= |s| then "" else s[n..]
  }

  /** `t` is what is left of `s` after something is cut from its front. */
  ghost predicate IsTail(t: string, s: string) {
    |t| <= |s| && s[|s| - |t|..] == t
  }

  ghost function Length(values: map<string, string>): string -> nat {
    k => if k in values then |values[k]| else 0
  }

  lemma {:induction false} TotalIsConcat(sources: seq<ContextSource>, values: map<string, string>)
    requires DistinctKeys(sources) && KeysOf(sources) <= values.Keys
    ensures TotalOver(KeysOf(sources), Length(values)) == |Concat(sources, values)|
  {
    hide TotalOver;
    if sources == [] {
      NoKeysNoLength(values);
      assert KeysOf(sources) == {};
    } else {
      var n := |sources| - 1;
      var front, key := sources[..n], sources[n].key;
      assert KeysOf(sources) == KeysOf(front) + {key};
      TotalIsConcat(front, values);
      TotalOverAdd(KeysOf(front), Length(values), key);
    }
  }

  lemma NoKeysNoLength(values: map<string, string>)
    ensures TotalOver({}, Length(values)) == 0
  {
  }

  method TotalLength(values: map<string, string>) returns (total: nat)
    ensures total == TotalOver(values.Keys, Length(values))
  {
    hide TotalOver;
    NoKeysNoLength(values);
    total := 0;
    var todo := values.Keys;
    assert values.Keys - todo == {};
    while todo != {}
      invariant todo <= values.Keys
      invariant total == TotalOver(values.Keys - todo, Length(values))
      decreases |todo|
    {
      var k :| k in todo;
      total := total + |values[k]|;
      TotalOverAdd(values.Keys - todo, Length(values), k);
      assert values.Keys - (todo - {k}) == values.Keys - todo + {k};
      todo := todo - {k};
    }
    assert values.Keys - todo == values.Keys;
  }

  lemma ConcatStep(sources: seq<ContextSource>, n: nat, values: map<string, string>)
    requires n < |sources| && KeysOf(sources) <= values.Keys
    ensures KeysOf(sources[..n]) <= values.Keys && KeysOf(sources[..n + 1]) <= values.Keys && sources[n].key in values
    ensures Concat(sources[..n + 1], values) == Concat(sources[..n], values) + values[sources[n].key]
  {
    assert sources[..n + 1][..n] == sources[..n];
    assert KeysOf(sources[..n + 1]) <= KeysOf(sources) && KeysOf(sources[..n]) <= KeysOf(sources);
    assert sources[n].key in KeysOf(sources);
  }

  lemma {:induction false} ConcatFrame(sources: seq<ContextSource>, a: map<string, string>, b: map<string, string>)
    requires KeysOf(sources) <= a.Keys && KeysOf(sources) <= b.Keys
    requires forall i :: 0 <= i < |sources| ==> a[sources[i].key] == b[sources[i].key]
    ensures Concat(sources, a) == Concat(sources, b)
  {
    if sources == [] {
    } else {
      var front := sources[..|sources| - 1];
      assert KeysOf(front) <= KeysOf(sources);
      assert forall i :: 0 <= i < |front| ==> front[i] == sources[i];
      ConcatFrame(front, a, b);
    }
  }

  lemma DropAcross(a: string, b: string, n: nat)
    ensures DropFirst(a + b, n) == DropFirst(a, n) + DropFirst(b, if n > |a| then n - |a| else 0)
  {
  }

  /**
  Values cut so that the first `i` sources have together lost `drop` bytes (all they have, if less); the rest untouched.
  */
  ghost predicate Trimmed(sources: seq<ContextSource>, i: nat, was: map<string, string>, now: map<string, string>,
      drop: nat)
  {
    && i <= |sources|
    && KeysOf(sources) <= was.Keys && now.Keys == was.Keys
    && KeysOf(sources[..i]) <= was.Keys
    && Concat(sources[..i], now) == DropFirst(Concat(sources[..i], was), drop)
    && (forall k :: k in was ==> IsTail(now[k], was[k]))
    && (forall j :: i <= j < |sources| ==> now[sources[j].key] == was[sources[j].key])
  }

  lemma TrimConcat(sources: seq<ContextSource>, i: nat, was: map<string, string>, now: map<string, string>, drop: nat,
      overage: nat)
    requires DistinctKeys(sources) && i < |sources| && Trimmed(sources, i, was, now, drop)
    requires overage == if drop > |Concat(sources[..i], was)| then drop - |Concat(sources[..i], was)| else 0
    ensures sources[i].key in was && KeysOf(sources[..i + 1]) <= was.Keys
    ensures var next := now[sources[i].key := DropFirst(was[sources[i].key], overage)];
      next.Keys == was.Keys && Concat(sources[..i + 1], next) == DropFirst(Concat(sources[..i + 1], was), drop)
  {
    hide Concat, DropFirst, IsTail;
    var key := sources[i].key;
    ConcatStep(sources, i, was);
    var next := now[key := DropFirst(was[key], overage)];
    assert next.Keys == was.Keys;
    ConcatStep(sources, i, next);
    ConcatFrame(sources[..i], next, now);
    DropAcross(Concat(sources[..i], was), was[key], drop);
  }

  lemma TrimTails(key: string, was: map<string, string>, now: map<string, string>, overage: nat)
    requires key in was && now.Keys == was.Keys && forall k :: k in was ==> IsTail(now[k], was[k])
    ensures var next := now[key := DropFirst(was[key], overage)];
      forall k :: k in was ==> IsTail(next[k], was[k])
  {
  }

  lemma TrimStep(sources: seq<ContextSource>, i: nat, was: map<string, string>, now: map<string, string>, drop: nat,
      overage: nat)
    requires DistinctKeys(sources) && i < |sources| && Trimmed(sources, i, was, now, drop)
    requires overage == if drop > |Concat(sources[..i], was)| then drop - |Concat(sources[..i], was)| else 0
    ensures sources[i].key in was
    ensures Trimmed(sources, i + 1, was, now[sources[i].key := DropFirst(was[sources[i].key], overage)], drop)
  {
    hide Concat, DropFirst, IsTail;
    TrimConcat(sources, i, was, now, drop, overage);
    TrimTails(sources[i].key, was, now, overage);
  }

  /** Once the drop is spent, what follows is whole, so the trimmed prefix speaks for all of it. */
  lemma {:induction false} TrimmedEnough(sources: seq<ContextSource>, i: nat, was: map<string, string>,
      now: map<string, string>, drop: nat)
    requires DistinctKeys(sources) && Trimmed(sources, i, was, now, drop)
    requires i < |sources| ==> drop <= |Concat(sources[..i], was)|
    ensures Concat(sources, now) == DropFirst(Concat(sources, was), drop)
    decreases |sources| - i
  {
    hide Concat, DropFirst, Trimmed;
    TrimmedConcat(sources, i, was, now, drop);
    if i == |sources| {
      assert sources[..i] == sources;
    } else {
      TrimStep(sources, i, was, now, drop, 0);
      NotYetTrimmed(sources, i, was, now, drop);
      var key := sources[i].key;
      assert DropFirst(was[key], 0) == was[key] by { DropNothing(was[key]); }
      assert now[key := was[key]] == now;
      ConcatStep(sources, i, was);
      TrimmedEnough(sources, i + 1, was, now, drop);
    }
  }

  lemma NothingTrimmed(sources: seq<ContextSource>, was: map<string, string>, drop: nat)
    requires KeysOf(sources) <= was.Keys
    ensures Trimmed(sources, 0, was, was, drop)
  {
    assert sources[..0] == [];
  }

  /**
  Under `error`, refuses exactly a total over the budget and changes nothing. Under `truncate-oldest`, afterwards the
  values in declared order are together the last `budget` bytes of what they were, and each is a tail of what it was.
  */
  method EnforceBudget(block: ContextBlock, values: map<string, string>, budget: int)
      returns (out: map<string, string>, err: Option<ContextError>)
    requires DistinctKeys(block.sources) && values.Keys == KeysOf(block.sources)
    ensures out.Keys == values.Keys
    ensures err.Some? <==> block.overflow == ErrorOut && |Concat(block.sources, values)| > budget
    ensures err.Some? ==> out == values && err.value == OverBudget(|Concat(block.sources, values)|)
    ensures err.None? ==> Concat(block.sources, out) == LastBytes(Concat(block.sources, values), budget)
    ensures forall k :: k in values ==> IsTail(out[k], values[k])
  {
    hide Trimmed, Concat;
    out, err := values, None;
    var total := TotalLength(values);
    TotalIsConcat(block.sources, values);
    if total <= budget {
      return;
    }
    if block.overflow == ErrorOut {
      return out, Some(OverBudget(total));
    }
    var overage := total - budget;
    ghost var drop := overage;
    NothingTrimmed(block.sources, values, drop);
    assert block.sources[..0] == [];
    assert |Concat([], values)| == 0 by { ConcatNothing(values); }
    var i := 0;
    while i < |block.sources| && overage > 0
      invariant 0 <= i <= |block.sources| && overage >= 0
      invariant Trimmed(block.sources, i, values, out, drop)
      invariant KeysOf(block.sources[..i]) <= values.Keys
      invariant overage == if drop > |Concat(block.sources[..i], values)|
        then drop - |Concat(block.sources[..i], values)| else 0
      invariant out.Keys == values.Keys
    {
      var key := block.sources[i].key;
      TrimStep(block.sources, i, values, out, drop, overage);
      ConcatStep(block.sources, i, values);
      assert out[key] == values[key] by { NotYetTrimmed(block.sources, i, values, out, drop); }
      var v := out[key];
      i := i + 1;
      if |v| <= overage {
        overage := overage - |v|;
        out := out[key := ""];
        continue;
      }
      out := out[key := v[overage..]];
      overage := 0;
    }
    TrimmedEnough(block.sources, i, values, out, drop);
    assert forall k :: k in values ==>
      IsTail(out[k], values[k]) by { TrimmedTails(block.sources, i, values, out, drop); }
  }

  lemma ConcatNothing(values: map<string, string>)
    ensures Concat([], values) == ""
  {
  }

  lemma NotYetTrimmed(sources: seq<ContextSource>, i: nat, was: map<string, string>, now: map<string, string>,
      drop: nat)
    requires Trimmed(sources, i, was, now, drop) && i < |sources|
    ensures sources[i].key in was && now[sources[i].key] == was[sources[i].key]
  {
    assert sources[i].key in KeysOf(sources);
  }

  lemma DropNothing(s: string)
    ensures DropFirst(s, 0) == s
  {
  }

  lemma TrimmedConcat(sources: seq<ContextSource>, i: nat, was: map<string, string>, now: map<string, string>,
      drop: nat)
    requires Trimmed(sources, i, was, now, drop)
    ensures i <= |sources| && KeysOf(sources) <= was.Keys && now.Keys == was.Keys && KeysOf(sources[..i]) <= was.Keys
    ensures Concat(sources[..i], now) == DropFirst(Concat(sources[..i], was), drop)
  {
  }

  lemma TrimmedTails(sources: seq<ContextSource>, i: nat, was: map<string, string>, now: map<string, string>, drop: nat)
    requires Trimmed(sources, i, was, now, drop)
    ensures forall k :: k in was ==> IsTail(now[k], was[k])
  {
  }

  // ---------------------------------------------------------------------------------------------------------------

  /** The contents of the files one after another, if all can be read. */
  function Contents(files: seq<string>, read: string -> Option<string>): Option<string> {
    if files == [] then Some("")
    else
      var front, last := Contents(files[..|files| - 1], read), read(files[|files| - 1]);
      if front.Some? && last.Some? then Some(front.value + last.value) else None
  }

  lemma {:induction false} ContentsFail(files: seq<string>, n: nat, read: string -> Option<string>)
    requires n <= |files| && Contents(files[..n], read).None?
    ensures Contents(files, read).None?
    decreases |files|
  {
    if n == |files| {
      assert files[..n] == files;
    } else {
      assert files[..|files| - 1][..n] == files[..n];
      ContentsFail(files[..|files| - 1], n, read);
    }
  }

  /** The parts one after another. */
  ghost function Glued(parts: seq<string>): string {
    if parts == [] then "" else parts[0] + Glued(parts[1..])
  }

  lemma {:induction false} GluedAppend(parts: seq<string>, last: string)
    ensures Glued(parts + [last]) == Glued(parts) + last
  {
    if parts == [] {
      assert parts + [last] == [last] && [last][1..] == [];
    } else {
      GluedAppend(parts[1..], last);
      assert (parts + [last])[1..] == parts[1..] + [last];
    }
  }

  /** The parts are what the files hold, one by one. */
  ghost predicate PartsOf(files: seq<string>, read: string -> Option<string>, parts: seq<string>) {
    |parts| == |files| && forall i :: 0 <= i < |files| ==> read(files[i]) == Some(parts[i])
  }

  lemma {:induction false} AllRead(files: seq<string>, read: string -> Option<string>)
    ensures Contents(files, read).Some? <==> forall i :: 0 <= i < |files| ==> read(files[i]).Some?
  {
    if files == [] {
    } else {
      var n := |files| - 1;
      AllRead(files[..n], read);
      assert forall i :: 0 <= i < n ==> files[..n][i] == files[i];
    }
  }

  /** What a source holds is what its files hold, in the order they are listed. */
  lemma {:induction false} ContentsIs(files: seq<string>, read: string -> Option<string>, parts: seq<string>)
    requires PartsOf(files, read, parts)
    ensures Contents(files, read) == Some(Glued(parts))
  {
    hide Glued;
    if files == [] {
      assert parts == [];
      NothingGlued();
    } else {
      var n := |files| - 1;
      assert PartsOf(files[..n], read, parts[..n]);
      ContentsIs(files[..n], read, parts[..n]);
      GluedAppend(parts[..n], parts[n]);
      assert parts[..n] + [parts[n]] == parts;
    }
  }

  lemma NothingGlued()
    ensures Glued([]) == ""
  {
  }

  method ReadSource(src: ContextSource, read: string -> Option<string>) returns (content: Option<string>, bad: string)
    ensures content == Contents(src.files, read)
    ensures content.None? ==> bad in src.files && read(bad).None?
  {
    var b := "";
    bad := "";
    for i := 0 to |src.files|
      invariant Contents(src.files[..i], read) == Some(b)
    {
      assert src.files[..i + 1][..i] == src.files[..i];
      var c := read(src.files[i]);
      if c.None? {
        ContentsFail(src.files, i + 1, read);
        return None, src.files[i];
      }
      b := b + c.value;
    }
    assert src.files[..|src.files|] == src.files;
    return Some(b), "";
  }

  ghost predicate Readable(sources: seq<ContextSource>, read: string -> Option<string>) {
    forall i :: 0 <= i < |sources| ==> Contents(sources[i].files, read).Some?
  }

  /** Everything the sources hold, in declared order. */
  ghost function Whole(sources: seq<ContextSource>, read: string -> Option<string>): string
    requires Readable(sources, read)
  {
    if sources == [] then ""
    else Whole(sources[..|sources| - 1], read) + Contents(sources[|sources| - 1].files, read).value
  }

  /** The value of every source is what its files hold. */
  ghost predicate Holds(sources: seq<ContextSource>, values: map<string, string>, read: string -> Option<string>) {
    && values.Keys == KeysOf(sources)
    && Readable(sources, read)
    && forall i :: 0 <= i < |sources| ==>
      sources[i].key in values && values[sources[i].key] == Contents(sources[i].files, read).value
  }

  lemma {:induction false} HeldConcat(sources: seq<ContextSource>, n: nat, values: map<string, string>,
      read: string -> Option<string>)
    requires n <= |sources| && Holds(sources, values, read)
    ensures KeysOf(sources[..n]) <= values.Keys && Readable(sources[..n], read)
    ensures Concat(sources[..n], values) == Whole(sources[..n], read)
  {
    hide Contents;
    if n == 0 {
    } else {
      HeldConcat(sources, n - 1, values, read);
      ConcatStep(sources, n - 1, values);
      assert sources[..n][..n - 1] == sources[..n - 1];
    }
  }

  /**
  A block resolves exactly when its keys differ, every file can be read and, under `error`, it all fits. Then the values
  in declared order are together the last `4 * max_tokens` bytes of everything the sources hold, and each value is a
  tail of what its own source holds.
  */
  method ResolveBlock(block: ContextBlock, read: string -> Option<string>) returns (r: Resolution)
    ensures r.Values? || (r.Refused? && !r.error.Outside?)
    ensures r.Values? <==>
      && DistinctKeys(block.sources) && Readable(block.sources, read)
      && (block.overflow == ErrorOut ==> |Whole(block.sources, read)| <= block.maxTokens * TOKEN_CHARS_PER_TOKEN)
    ensures r.Values? ==>
      && r.values.Keys == KeysOf(block.sources)
      && Concat(block.sources, r.values) ==
        LastBytes(Whole(block.sources, read), block.maxTokens * TOKEN_CHARS_PER_TOKEN)
    ensures r.Values? ==> forall i :: 0 <= i < |block.sources| ==>
      && block.sources[i].key in r.values
      && IsTail(r.values[block.sources[i].key], Contents(block.sources[i].files, read).value)
    ensures r.Refused? && r.error.DuplicateKey? ==> !DistinctKeys(block.sources)
    ensures r.Refused? && r.error.Unreadable? ==> !Readable(block.sources, read) && read(r.error.file).None?
    ensures r.Refused? && r.error.OverBudget? ==>
      && Readable(block.sources, read) && r.error.total == |Whole(block.sources, read)|
  {
    hide Concat, Contents, Whole, LastBytes, IsTail;
    var values: map<string, string> := map[];
    var i := 0;
    while i < |block.sources|
      invariant 0 <= i <= |block.sources|
      invariant DistinctKeys(block.sources[..i])
      invariant Holds(block.sources[..i], values, read)
    {
      var src := block.sources[i];
      if src.key in values {
        SeenTwice(block.sources, i);
        return Refused(DuplicateKey(src.key));
      }
      var content, bad := ReadSource(src, read);
      if content.None? {
        return Refused(Unreadable(src.key, bad));
      }
      HoldsStep(block.sources, i, values, content.value, read);
      values := values[src.key := content.value];
      i := i + 1;
    }
    assert block.sources[..i] == block.sources;
    HeldConcat(block.sources, i, values, read);
    var out, err := EnforceBudget(block, values, block.maxTokens * TOKEN_CHARS_PER_TOKEN);
    if err.Some? {
      return Refused(err.value);
    }
    return Values(out);
  }

  /** `ResolveContext`: a block read from the confined part of the disk. */
  method ResolveContext(block: Option<ContextBlock>, disk: Disk) returns (r: Resolution)
    ensures r.NoContext? <==> block.None?
    ensures block.Some? ==>
      var sources, budget := block.value.sources, block.value.maxTokens * 4;
      && (r.Values? <==>
            && DistinctKeys(sources) && Readable(sources, disk.Read)
            && (block.value.overflow == ErrorOut ==> |Whole(sources, disk.Read)| <= budget))
      && (r.Values? ==>
            && r.values.Keys == KeysOf(sources)
            && Concat(sources, r.values) == LastBytes(Whole(sources, disk.Read), budget)
            && forall i :: 0 <= i < |sources| ==>
                 sources[i].key in r.values
                   && IsTail(r.values[sources[i].key], Contents(sources[i].files, disk.Read).value))
      && (r.Refused? && r.error.DuplicateKey? ==> !DistinctKeys(sources))
      && (r.Refused? && r.error.Outside? ==> disk.confine(r.error.file).None?)
      && (r.Refused? && r.error.Unreadable? ==>
        disk.confine(r.error.file).Some? && disk.content(disk.confine(r.error.file).value).None?)
      && (r.Refused? && r.error.OverBudget? ==>
        Readable(sources, disk.Read) && r.error.total == |Whole(sources, disk.Read)|)
  {
    hide Concat, Contents, Whole, LastBytes, IsTail, Readable, DistinctKeys;
    if block.None? {
      return NoContext;
    }
    r := ResolveBlock(block.value, disk.Read);
    if r.Refused? && r.error.Unreadable? && disk.confine(r.error.file).None? {
      r := Refused(Outside(r.error.key, r.error.file));
    }
  }

  lemma SeenTwice(sources: seq<ContextSource>, i: nat)
    requires i < |sources| && sources[i].key in KeysOf(sources[..i])
    ensures !DistinctKeys(sources)
  {
    var j :| 0 <= j < i && sources[..i][j].key == sources[i].key;
    assert sources[j].key == sources[i].key;
  }

  lemma HoldsStep(sources: seq<ContextSource>, i: nat, values: map<string, string>, content: string,
      read: string -> Option<string>)
    requires i < |sources| && DistinctKeys(sources[..i]) && Holds(sources[..i], values, read)
    requires sources[i].key !in values && Contents(sources[i].files, read) == Some(content)
    ensures DistinctKeys(sources[..i + 1]) && Holds(sources[..i + 1], values[sources[i].key := content], read)
  {
    hide Contents;
    var front, next, key := sources[..i], sources[..i + 1], sources[i].key;
    assert next == front + [sources[i]];
    forall j | 0 <= j < i
      ensures next[j] == front[j] && front[j].key in values && front[j].key != key
    {
      assert front[j].key in KeysOf(front);
    }
    KeysStep(sources, i);
  }

  lemma KeysStep(sources: seq<ContextSource>, i: nat)
    requires i < |sources|
    ensures KeysOf(sources[..i + 1]) == KeysOf(sources[..i]) + {sources[i].key}
  {
    var front, next := sources[..i], sources[..i + 1];
    forall j | 0 <= j < |next|
      ensures next[j].key in KeysOf(front) + {sources[i].key}
    {
      if j < i { assert next[j] == front[j]; }
    }
    assert forall j :: 0 <= j < i ==> next[j] == front[j];
    assert next[i] == sources[i];
  }
}
