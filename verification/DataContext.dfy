/**
The run-scoped data context: a store of scalar outputs keyed by `states.<state>.output.<key>`, written by output
bindings, read by references, and closed to every scope but its own.
*/
module DataContext {
  import opened Text
  import opened References

  datatype Result<+T, +E> = Ok(value: T) | Err(error: E)

  /** Decoded JSON. A number carries the text the runtime renders it to. */
  datatype Json =
    | Null
    | Bool(on: bool)
    | Number(rendered: string)
    | Text(text: string)
    | Array(items: seq<Json>)
    | Object(fields: map<string, Json>)

  /** A payload: no bytes, bytes that are not JSON, or the bytes of a document. */
  datatype Payload = Empty | Undecodable(raw: string) | Document(raw: string, json: Json)

  datatype Reason =
    | Malformed
    | NotFound
    | PayloadNotObject
    | EmptyPath
    | PathNotFound
    | PathThroughScalar
    | NotScalar

  datatype Scope = Scope(runId: string, namespace: string)

  datatype Failure = ScopeDenied(owner: Scope, requester: Scope)
      | DataReference(inputKey: string, reference: string, reason: Reason)

  /** `json.Unmarshal` into a map: JSON null decodes to the nil map. */
  function AsObject(j: Json): Option<map<string, Json>> {
    match j
    case Object(fields) => Some(fields)
    case Null => Some(map[])
    case _ => None
  }

  function TopLevel(p: Payload): Option<map<string, Json>> {
    match p
    case Empty => Some(map[])
    case Undecodable(_) => None
    case Document(_, j) => AsObject(j)
  }

  function RawOf(p: Payload): string {
    if p.Empty? then "" else p.raw
  }

  function ScalarString(j: Json): Result<string, Reason> {
    match j
    case Text(s) => Ok(s)
    case Bool(on) => Ok(if on then "true" else "false")
    case Number(s) => Ok(s)
    case _ => Err(NotScalar)
  }

  function Follow(cur: map<string, Json>, segments: seq<string>): Result<string, Reason>
    requires segments != []
    decreases |segments|
  {
    if segments[0] !in cur then Err(PathNotFound)
    else if |segments| == 1 then ScalarString(cur[segments[0]])
    else
      var next := AsObject(cur[segments[0]]);
      if next.None? then Err(PathThroughScalar) else Follow(next.value, segments[1..])
  }

  /** `extractScalar`. */
  function Extract(doc: map<string, Json>, path: string): Result<string, Reason> {
    if path == "" then Err(EmptyPath) else Follow(doc, Split(path))
  }

  // ---------------------------------------------------------------------------------------------------------------
  // What a path means

  /** The value a path leads to, each segment a field of the object before it. */
  ghost function Lookup(j: Json, segments: seq<string>): Option<Json>
    decreases |segments|
  {
    if segments == [] then Some(j)
    else
      var n := |segments| - 1;
      var o := Lookup(j, segments[..n]);
      if o.Some? && o.value.Object? && segments[n] in o.value.fields then Some(o.value.fields[segments[n]]) else None
  }

  /** The text of a scalar. */
  ghost predicate Reads(leaf: Json, v: string) {
    || leaf == Text(v)
    || leaf == Number(v)
    || (leaf == Bool(true) && v == "true")
    || (leaf == Bool(false) && v == "false")
  }

  /** The path leads as far as its first `i` segments, and no further. */
  ghost predicate Breaks(j: Json, segments: seq<string>, i: int) {
    0 <= i < |segments| && Lookup(j, segments[..i]).Some? && Lookup(j, segments[..i + 1]).None?
  }

  ghost predicate LeadsTo(j: Json, segments: seq<string>, v: string) {
    Lookup(j, segments).Some? && Reads(Lookup(j, segments).value, v)
  }

  /**
  Why a path yields nothing: no scalar at its end, a value without fields on the way, or a field that is not there.
  */
  ghost predicate LeadsNowhere(j: Json, segments: seq<string>, r: Reason) {
    match r
    case NotScalar =>
      var leaf := Lookup(j, segments);
      leaf.Some? && (leaf.value.Null? || leaf.value.Array? || leaf.value.Object?)
    case PathThroughScalar =>
      exists i :: Breaks(j, segments, i) && !Lookup(j, segments[..i]).value.Object?
        && !Lookup(j, segments[..i]).value.Null?
    case PathNotFound =>
      exists i :: Breaks(j, segments, i)
        && (Lookup(j, segments[..i]).value.Object? || Lookup(j, segments[..i]).value.Null?)
    case _ => false
  }

  ghost predicate Yields(doc: map<string, Json>, path: string, v: string) {
    path != "" && LeadsTo(Object(doc), Split(path), v)
  }

  ghost predicate YieldsNothing(doc: map<string, Json>, path: string, r: Reason) {
    if path == "" then r == EmptyPath else LeadsNowhere(Object(doc), Split(path), r)
  }

  lemma {:induction false} LookupFront(cur: map<string, Json>, s: string, rest: seq<string>)
    ensures Lookup(Object(cur), [s] + rest) == if s in cur then Lookup(cur[s], rest) else None
    decreases |rest|
  {
    var segments := [s] + rest;
    if rest == [] {
      assert segments[..0] == [];
    } else {
      var n := |rest| - 1;
      LookupFront(cur, s, rest[..n]);
      assert segments[..|segments| - 1] == [s] + rest[..n];
    }
  }

  lemma BreaksFront(cur: map<string, Json>, s: string, rest: seq<string>, i: int)
    requires s in cur && Breaks(cur[s], rest, i)
    ensures Breaks(Object(cur), [s] + rest, i + 1)
    ensures Lookup(Object(cur), ([s] + rest)[..i + 1]) == Lookup(cur[s], rest[..i])
  {
    hide Lookup;
    var segments := [s] + rest;
    assert segments[..i + 1] == [s] + rest[..i] && segments[..i + 2] == [s] + rest[..i + 1];
    LookupFront(cur, s, rest[..i]);
    LookupFront(cur, s, rest[..i + 1]);
  }

  lemma LookupBare(j: Json, s: string)
    requires !j.Object?
    ensures Lookup(j, []) == Some(j) && Lookup(j, [s]) == None
  {
    assert [s][..0] == [];
  }

  lemma {:induction false} FollowIs(cur: map<string, Json>, segments: seq<string>)
    requires segments != []
    ensures var r := Follow(cur, segments);
      if r.Ok? then LeadsTo(Object(cur), segments, r.value) else LeadsNowhere(Object(cur), segments, r.error)
    decreases |segments|
  {
    hide Lookup;
    var s, rest := segments[0], segments[1..];
    assert segments == [s] + rest;
    LookupFront(cur, s, rest);
    LookupNothing(Object(cur));
    if s !in cur {
      assert segments[..0] == [] && segments[..1] == [s] + [];
      LookupFront(cur, s, []);
      assert Breaks(Object(cur), segments, 0);
    } else if rest == [] {
      LookupNothing(cur[s]);
    } else if cur[s].Object? {
      FollowIs(cur[s].fields, rest);
      var r := Follow(cur, segments);
      if r.Err? && r.error != NotScalar {
        var i :| Breaks(cur[s], rest, i)
          && (r.error == PathNotFound <==>
            Lookup(cur[s], rest[..i]).value.Object? || Lookup(cur[s], rest[..i]).value.Null?);
        BreaksFront(cur, s, rest, i);
      }
    } else {
      LookupBare(cur[s], rest[0]);
      assert rest[..0] == [] && rest[..1] == [rest[0]];
      assert Breaks(cur[s], rest, 0);
      BreaksFront(cur, s, rest, 0);
    }
  }

  lemma LookupNothing(j: Json)
    ensures Lookup(j, []) == Some(j)
  {
  }

  lemma {:induction false} LookupStays(j: Json, segments: seq<string>, i: nat, n: nat)
    requires i <= n <= |segments| && Lookup(j, segments[..i]).None?
    ensures Lookup(j, segments[..n]).None?
  {
    if i == n {
    } else {
      LookupStays(j, segments, i, n - 1);
      assert segments[..n][..n - 1] == segments[..n - 1];
    }
  }

  /** A path leads to one thing. */
  lemma OneEnd(j: Json, segments: seq<string>)
    ensures forall v, v' :: LeadsTo(j, segments, v) && LeadsTo(j, segments, v') ==> v == v'
    ensures forall v, r :: !(LeadsTo(j, segments, v) && LeadsNowhere(j, segments, r))
    ensures forall r, r' :: LeadsNowhere(j, segments, r) && LeadsNowhere(j, segments, r') ==> r == r'
  {
    hide Lookup;
    assert segments[..|segments|] == segments;
    forall i | Breaks(j, segments, i)
      ensures Lookup(j, segments).None?
      ensures forall k :: Breaks(j, segments, k) ==> k == i
    {
      LookupStays(j, segments, i + 1, |segments|);
      forall k | Breaks(j, segments, k)
        ensures k == i
      {
        if i < k {
          LookupStays(j, segments, i + 1, k);
        } else if k < i {
          LookupStays(j, segments, k + 1, i);
        }
      }
    }
  }

  /** Extraction gives the scalar the path leads to, if and only if it leads to one, and else the reason it does not. */
  lemma ExtractIff(doc: map<string, Json>, path: string)
    ensures forall v :: Extract(doc, path) == Ok(v) <==> Yields(doc, path, v)
    ensures forall r :: Extract(doc, path) == Err(r) <==> YieldsNothing(doc, path, r)
  {
    hide Follow, LeadsTo, LeadsNowhere;
    if path != "" {
      FollowIs(doc, Split(path));
      OneEnd(Object(doc), Split(path));
    }
  }

  /** `extractScalar`: the loop that goes down one object at a time. */
  method ExtractScalar(doc: map<string, Json>, path: string) returns (r: Result<string, Reason>)
    ensures r == Extract(doc, path)
    ensures r.Ok? ==> Yields(doc, path, r.value)
    ensures r.Err? ==> YieldsNothing(doc, path, r.error)
  {
    hide Yields, YieldsNothing;
    ExtractIff(doc, path);
    if path == "" {
      return Err(EmptyPath);
    }
    var segments := Split(path);
    var cur := doc;
    var i := 0;
    while i < |segments| - 1
      invariant 0 <= i < |segments| && Follow(doc, segments) == Follow(cur, segments[i..])
    {
      if segments[i] !in cur {
        return Err(PathNotFound);
      }
      var next := AsObject(cur[segments[i]]);
      if next.None? {
        return Err(PathThroughScalar);
      }
      assert segments[i..][1..] == segments[i + 1..];
      cur := next.value;
      i := i + 1;
    }
    if segments[i] !in cur {
      return Err(PathNotFound);
    }
    r := ScalarString(cur[segments[i]]);
  }

  // ---------------------------------------------------------------------------------------------------------------
  // Writing and reading

  /** The bindings whose source path yields a scalar, with that scalar. */
  function Extracted(doc: map<string, Json>, bindings: map<string, string>): map<string, string> {
    map k | k in bindings && Extract(doc, bindings[k]).Ok? :: Extract(doc, bindings[k]).value
  }

  /** Values each of which some binding extracts. */
  ghost predicate PartOf(vals: map<string, string>, doc: map<string, Json>, bindings: map<string, string>) {
    forall k :: k in vals ==> k in bindings && Extract(doc, bindings[k]) == Ok(vals[k])
  }

  predicate AllExtract(doc: map<string, Json>, bindings: map<string, string>) {
    forall k :: k in bindings ==> Extract(doc, bindings[k]).Ok?
  }

  /** A write goes through: there is nothing to write, or the payload is an object holding a scalar at every path. */
  predicate Writes(bindings: map<string, string>, payload: Payload) {
    bindings == map[] || (TopLevel(payload).Some? && AllExtract(TopLevel(payload).value, bindings))
  }

  function WrittenBy(bindings: map<string, string>, payload: Payload): map<string, string>
    requires Writes(bindings, payload)
  {
    if bindings == map[] then map[] else Extracted(TopLevel(payload).value, bindings)
  }

  lemma KeysAreInjective(state: string)
    ensures forall k, l :: OutputKey(state, k) == OutputKey(state, l) ==> k == l
  {
    forall k, l | OutputKey(state, k) == OutputKey(state, l)
      ensures k == l
    {
      OutputKeyCancels(state, k, l);
    }
  }

  /** The store entries for a state's values. */
  ghost function Keyed(state: string, vals: map<string, string>): map<string, string> {
    KeysAreInjective(state);
    map k | k in vals :: OutputKey(state, k) := vals[k]
  }

  lemma KeyedEntries(state: string, vals: map<string, string>)
    ensures forall k :: k in vals ==>
      OutputKey(state, k) in Keyed(state, vals) && Keyed(state, vals)[OutputKey(state, k)] == vals[k]
    ensures forall x :: x in Keyed(state, vals) ==> exists k :: k in vals && x == OutputKey(state, k)
  {
    hide OutputKey;
    KeysAreInjective(state);
  }

  lemma KeyedEmpty(state: string)
    ensures Keyed(state, map[]) == map[]
  {
    hide OutputKey;
  }

  /** A binding value: a literal as it stands, or what the store holds for the reference. */
  function Resolve(store: map<string, string>, ref: string): Result<string, Reason> {
    if !(DATA_PREFIX <= ref) then Ok(ref)
    else
      var key := CanonicalRefKey(ref);
      if key.None? then Err(Malformed)
      else if key.value !in store then Err(NotFound)
      else Ok(store[key.value])
  }

  predicate Resolvable(store: map<string, string>, bindings: map<string, string>) {
    forall k :: k in bindings ==> Resolve(store, bindings[k]).Ok?
  }

  function Resolved(store: map<string, string>, bindings: map<string, string>): map<string, string>
    requires Resolvable(store, bindings)
  {
    map k | k in bindings :: Resolve(store, bindings[k]).value
  }

  /** A failure that names a binding which does not resolve, and says why. */
  predicate BlamesBinding(store: map<string, string>, bindings: map<string, string>, e: Failure) {
    && e.DataReference?
    && e.inputKey in bindings
    && e.reference == bindings[e.inputKey]
    && Resolve(store, e.reference) == Err(e.reason)
  }

  /** A failure that names an output path which does not extract. */
  predicate BlamesPath(doc: map<string, Json>, bindings: map<string, string>, e: Failure) {
    && e.DataReference?
    && e.inputKey in bindings
    && e.reference == bindings[e.inputKey]
    && Extract(doc, e.reference) == Err(e.reason)
  }

  /** A failure that names an output path which does not extract, or the payload itself. */
  predicate BlamesOutput(state: string, bindings: map<string, string>, payload: Payload, e: Failure) {
    && e.DataReference?
    && if TopLevel(payload).None? then e == DataReference(state, RawOf(payload), PayloadNotObject)
       else BlamesPath(TopLevel(payload).value, bindings, e)
  }

  /** The payload is the object, or nothing, or null, which both stand for the empty one. */
  ghost predicate Decodes(payload: Payload, doc: map<string, Json>) {
    || (payload == Empty && doc == map[])
    || (payload.Document? && payload.json == Object(doc))
    || (payload.Document? && payload.json == Null && doc == map[])
  }

  /** What writing outputs comes to: the scalars their paths lead to, all of them or else a path that leads to none. */
  ghost predicate Stores(bindings: map<string, string>, doc: map<string, Json>, written: map<string, string>,
      err: Option<Failure>)
  {
    && (forall k :: k in written ==> k in bindings && Yields(doc, bindings[k], written[k]))
    && (err.None? <==> forall k :: k in bindings ==> exists v :: Yields(doc, bindings[k], v))
    && (err.None? ==> written.Keys == bindings.Keys)
    && (err.Some? ==>
          && err.value.DataReference? && err.value.inputKey in bindings
          && err.value.reference == bindings[err.value.inputKey]
          && YieldsNothing(doc, err.value.reference, err.value.reason))
  }

  lemma StoresWhatIsExtracted(bindings: map<string, string>, doc: map<string, Json>, written: map<string, string>,
      err: Option<Failure>)
    requires PartOf(written, doc, bindings)
    requires err.None? ==> written.Keys == bindings.Keys
    requires err.Some? ==> BlamesPath(doc, bindings, err.value)
    ensures Stores(bindings, doc, written, err)
  {
    hide Extract, Yields, YieldsNothing;
    forall k | k in bindings
      ensures forall v :: Extract(doc, bindings[k]) == Ok(v) <==> Yields(doc, bindings[k], v)
      ensures forall r :: Extract(doc, bindings[k]) == Err(r) <==> YieldsNothing(doc, bindings[k], r)
    {
      ExtractIff(doc, bindings[k]);
    }
  }

  lemma DecodesIff(payload: Payload)
    ensures forall doc :: Decodes(payload, doc) <==> TopLevel(payload) == Some(doc)
  {
  }

  class WorkflowDataContext {
    const scope: Scope
    var store: map<string, string>

    constructor (scope: Scope)
      ensures this.scope == scope && store == map[]
    {
      this.scope := scope;
      store := map[];
    }

    /**
    The write loop. `written` is what reached the store: everything on success; on failure, whatever the map's visiting
    order came to before the output that does not extract.
    */
    method WriteAll(state: string, bindings: map<string, string>, doc: map<string, Json>)
      returns (err: Option<Failure>, ghost written: map<string, string>)
      modifies this
      ensures store == old(store) + Keyed(state, written)
      ensures PartOf(written, doc, bindings)
      ensures err.None? ==> written.Keys == bindings.Keys
      ensures err.Some? ==> BlamesPath(doc, bindings, err.value)
    {
      hide OutputKey, Keyed, Extract;
      err, written := None, map[];
      var todo := bindings.Keys;
      KeyedEmpty(state);
      while todo != {}
        invariant todo <= bindings.Keys && written.Keys == bindings.Keys - todo
        invariant PartOf(written, doc, bindings)
        invariant store == old(store) + Keyed(state, written)
        decreases |todo|
      {
        var key :| key in todo;
        var val := ExtractScalar(doc, bindings[key]);
        if val.Err? {
          err := Some(DataReference(key, bindings[key], val.error));
          return;
        }
        KeyedUpdate(state, written, key, val.value);
        OverlayUpdate(old(store), Keyed(state, written), OutputKey(state, key), val.value);
        written := written[key := val.value];
        store := store[OutputKey(state, key) := val.value];
        todo := todo - {key};
      }
    }

    /** Publishes a state's declared outputs, all of them or up to the first that does not extract. */
    method WriteOutputs(requester: Scope, state: string, bindings: map<string, string>, payload: Payload)
      returns (err: Option<Failure>, ghost written: map<string, string>)
      modifies this
      ensures store == old(store) + Keyed(state, written)
      ensures requester != scope ==> err == Some(ScopeDenied(scope, requester)) && written == map[]
      ensures requester == scope ==> (err.None? <==> Writes(bindings, payload))
      ensures err.None? ==> written == WrittenBy(bindings, payload)
      ensures requester == scope && err.Some? ==> BlamesOutput(state, bindings, payload, err.value)
      ensures TopLevel(payload).None? ==> written == map[]
      ensures TopLevel(payload).Some? ==> PartOf(written, TopLevel(payload).value, bindings)
      ensures requester == scope && bindings != map[] && (forall doc :: !Decodes(payload, doc)) ==>
        !payload.Empty? && err == Some(DataReference(state, payload.raw, PayloadNotObject)) && written == map[]
      ensures requester == scope ==> forall doc :: Decodes(payload, doc) ==> Stores(bindings, doc, written, err)
    {
      hide OutputKey, Keyed, Extract, Stores;
      DecodesIff(payload);
      written := map[];
      KeyedEmpty(state);
      if requester != scope {
        return Some(ScopeDenied(scope, requester)), map[];
      }
      if bindings == map[] {
        forall doc
          ensures Stores(map[], doc, map[], None)
        {
          StoresWhatIsExtracted(map[], doc, map[], None);
        }
        return None, map[];
      }
      var doc := TopLevel(payload);
      if doc.None? {
        return Some(DataReference(state, RawOf(payload), PayloadNotObject)), map[];
      }
      err, written := WriteAll(state, bindings, doc.value);
      StoresWhatIsExtracted(bindings, doc.value, written, err);
      assert err.None? ==> written == Extracted(doc.value, bindings);
    }

    /** All bindings or nothing: the resolved map, or a binding that does not resolve. */
    method ResolveInputs(requester: Scope, bindings: map<string, string>)
        returns (r: Result<map<string, string>, Failure>)
      ensures requester != scope ==> r == Err(ScopeDenied(scope, requester))
      ensures requester == scope ==> (r.Ok? <==> Resolvable(store, bindings))
      ensures r.Ok? ==> requester == scope && r.value == Resolved(store, bindings)
      ensures requester == scope && r.Err? ==> BlamesBinding(store, bindings, r.error)
    {
      if requester != scope {
        return Err(ScopeDenied(scope, requester));
      }
      var resolved: map<string, string> := map[];
      var todo := bindings.Keys;
      while todo != {}
        invariant todo <= bindings.Keys
        invariant forall k :: k in bindings && k !in todo ==> Resolve(store, bindings[k]).Ok?
        invariant resolved == map k | k in bindings && k !in todo :: Resolve(store, bindings[k]).value
        decreases |todo|
      {
        var inputKey :| inputKey in todo;
        var ref := bindings[inputKey];
        todo := todo - {inputKey};
        if !(DATA_PREFIX <= ref) {
          resolved := resolved[inputKey := ref];
          continue;
        }
        var key := CanonicalRefKey(ref);
        if key.None? {
          return Err(DataReference(inputKey, ref, Malformed));
        }
        if key.value !in store {
          return Err(DataReference(inputKey, ref, NotFound));
        }
        resolved := resolved[inputKey := store[key.value]];
      }
      return Ok(resolved);
    }
  }

  lemma KeyedUpdate(state: string, vals: map<string, string>, key: string, val: string)
    ensures Keyed(state, vals[key := val]) == Keyed(state, vals)[OutputKey(state, key) := val]
  {
    hide OutputKey;
    KeysAreInjective(state);
    var a, b := Keyed(state, vals[key := val]), Keyed(state, vals)[OutputKey(state, key) := val];
    forall x
      ensures x in a <==> x in b
      ensures x in a && x in b ==> a[x] == b[x]
    {
    }
  }

  lemma OverlayUpdate(base: map<string, string>, over: map<string, string>, key: string, val: string)
    ensures (base + over)[key := val] == base + over[key := val]
  {
  }

  /**
  Reading can go wrong with `Malformed` only on a `$.` value the compiler would not have read as a dot-free state and
  key; every other failed read is of a key not yet written.
  */
  lemma ReadFailures(store: map<string, string>, ref: string)
    ensures Resolve(store, ref) == Err(Malformed) <==>
            DATA_PREFIX <= ref &&
            !(ParseBindingRef(ref).Some? && DotFree(ParseBindingRef(ref).value.state)
              && DotFree(ParseBindingRef(ref).value.key))
    ensures Resolve(store, ref).Err? ==> Resolve(store, ref).error in {Malformed, NotFound}
    ensures DATA_PREFIX <= ref && Resolve(store, ref).Ok? ==>
            var r := ParseBindingRef(ref).value;
            && ParseBindingRef(ref).Some? && DotFree(r.state) && DotFree(r.key)
            && OutputKey(r.state, r.key) in store && Resolve(store, ref).value == store[OutputKey(r.state, r.key)]
  {
    if DATA_PREFIX <= ref {
      ReadersAgree(ref);
    }
  }
}
