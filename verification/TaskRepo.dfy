/**
The in-memory task repository: records behind a lock, and offset pages over a filtered, sorted listing.
*/
module TaskRepo {
  import opened Text
  import opened Collections
  import opened Tasks

  datatype ListFilter = ListFilter(workflowId: string, status: TaskStatus, agentId: string, pageToken: string,
      pageSize: int)

  /** One page; a token that does not decode; or a negative offset, which no token the repository issues decodes to. */
  datatype ListOutcome = Page(tasks: seq<Task>, nextPageToken: string) | BadToken | SliceOutOfRange

  /** Page tokens: decimal offsets in base 64. */
  datatype Codec = Codec(encode: nat -> string, decode: string -> Option<int>) {
    ghost predicate Lawful() {
      forall n: nat :: encode(n) != "" && decode(encode(n)) == Some(n)
    }
  }

  const DEFAULT_PAGE_SIZE := 50
  const MAX_PAGE_SIZE := 500

  function PageSize(requested: int): (n: nat)
    ensures n == if requested <= 0 then 50 else if requested <= 500 then requested else 500
  {
    if requested <= 0 then DEFAULT_PAGE_SIZE else if requested > MAX_PAGE_SIZE then MAX_PAGE_SIZE else requested
  }

  predicate Matches(t: Task, f: ListFilter) {
    && (f.workflowId == "" || t.workflowId == f.workflowId)
    && (f.status == Unspecified || t.status == f.status)
    && (f.agentId == "" || t.dispatchedTo == f.agentId)
  }

  predicate TaskLe(a: Task, b: Task) {
    if a.createdAt == b.createdAt then LexLe(a.id, b.id) else a.createdAt < b.createdAt
  }

  lemma TaskLeOrders()
    ensures forall a, b :: TaskLe(a, b) || TaskLe(b, a)
    ensures forall a, b, c :: TaskLe(a, b) && TaskLe(b, c) ==> TaskLe(a, c)
    ensures forall a, b :: TaskLe(a, b) && TaskLe(b, a) ==> a.id == b.id
  {
    LexLeIsTotalOrder();
  }

  ghost predicate KeyedById(tasks: map<string, Task>) {
    forall id :: id in tasks ==> tasks[id].id == id
  }

  ghost function Matching(tasks: map<string, Task>, f: ListFilter): set<Task> {
    set id | id in tasks && Matches(tasks[id], f) :: tasks[id]
  }

  /** Every matching task once, in creation order, ties by id. */
  ghost predicate IsListing(tasks: map<string, Task>, f: ListFilter, xs: seq<Task>) {
    Sorted(xs, TaskLe) && multiset(xs) == multiset(Matching(tasks, f))
  }

  /** A listing, said of its tasks: each record that matches, once, by creation time and then by id. */
  lemma ListingIs(tasks: map<string, Task>, f: ListFilter, xs: seq<Task>)
    requires KeyedById(tasks) && IsListing(tasks, f, xs)
    ensures forall t :: t in xs <==>
      && t.id in tasks && tasks[t.id] == t
      && (f.workflowId == "" || t.workflowId == f.workflowId)
      && (f.status == Unspecified || t.status == f.status)
      && (f.agentId == "" || t.dispatchedTo == f.agentId)
    ensures forall i, j :: 0 <= i < j < |xs| ==>
      xs[i].createdAt < xs[j].createdAt
        || (xs[i].createdAt == xs[j].createdAt && xs[i].id != xs[j].id && Precedes(xs[i].id, xs[j].id))
  {
    hide LexLe, Precedes;
    ListingIsInjective(xs, Matching(tasks, f));
    forall t
      ensures t in xs <==> t in Matching(tasks, f)
    {
      assert t in xs <==> t in multiset(xs);
    }
    forall i, j | 0 <= i < j < |xs|
      ensures xs[i].id != xs[j].id && (LexLe(xs[i].id, xs[j].id) ==> Precedes(xs[i].id, xs[j].id))
        && TaskLe(xs[i], xs[j])
    {
      assert xs[i] in xs && xs[j] in xs;
      LexLeIff(xs[i].id, xs[j].id);
    }
  }

  /** There is one listing, whatever order the map was visited in. */
  lemma ListingIsUnique(tasks: map<string, Task>, f: ListFilter, xs: seq<Task>, ys: seq<Task>)
    requires KeyedById(tasks) && IsListing(tasks, f, xs) && IsListing(tasks, f, ys)
    ensures xs == ys
  {
    hide TaskLe, Matches;
    TaskLeOrders();
    ListingIsInjective(xs, Matching(tasks, f));
    forall x, y | x in xs && y in xs && TaskLe(x, y) && TaskLe(y, x)
      ensures x == y
    {
      assert x in Matching(tasks, f) && y in Matching(tasks, f);
    }
    SortedIsUnique(xs, ys, TaskLe);
  }

  function Offset(token: string, codec: Codec): Option<int> {
    if token == "" then Some(0) else codec.decode(token)
  }

  function PageOf(xs: seq<Task>, f: ListFilter, codec: Codec): ListOutcome {
    var offset := Offset(f.pageToken, codec);
    if offset.None? then BadToken
    else if offset.value >= |xs| then Page([], "")
    else if offset.value < 0 then SliceOutOfRange
    else
      var end := offset.value + PageSize(f.pageSize);
      if end < |xs| then Page(xs[offset.value..end], codec.encode(end)) else Page(xs[offset.value..], "")
  }

  /**
  Slicing goes out of range exactly on a token that decodes to a negative offset, and a token is refused exactly if it
  does not decode.
  */
  lemma SliceFailsIff(xs: seq<Task>, f: ListFilter, codec: Codec)
    ensures PageOf(xs, f, codec) == SliceOutOfRange <==>
            f.pageToken != "" && codec.decode(f.pageToken).Some? && codec.decode(f.pageToken).value < 0
    ensures PageOf(xs, f, codec) == BadToken <==> f.pageToken != "" && codec.decode(f.pageToken).None?
  {
  }

  /** A page, by its offset: as many tasks as fit from there on, and a token for the rest if there is any. */
  lemma PageIs(xs: seq<Task>, f: ListFilter, codec: Codec, offset: nat)
    requires if f.pageToken == "" then offset == 0 else codec.decode(f.pageToken) == Some(offset)
    ensures var size := if f.pageSize <= 0 then 50 else if f.pageSize <= 500 then f.pageSize else 500;
      var from := if offset < |xs| then offset else |xs|;
      var to := if offset + size < |xs| then offset + size else |xs|;
      PageOf(xs, f, codec) == Page(xs[from..to], if offset + size < |xs| then codec.encode(offset + size) else "")
  {
    if offset >= |xs| {
      assert xs[|xs|..|xs|] == [];
    }
  }

  /** A token the repository has issued gives a page of whatever the repository holds by then. */
  lemma IssuedTokensGivePages(xs: seq<Task>, f: ListFilter, codec: Codec, ys: seq<Task>)
    requires codec.Lawful() && PageOf(xs, f, codec).Page? && PageOf(xs, f, codec).nextPageToken != ""
    ensures PageOf(ys, f.(pageToken := PageOf(xs, f, codec).nextPageToken), codec).Page?
  {
    var end := Offset(f.pageToken, codec).value + PageSize(f.pageSize);
    assert PageOf(xs, f, codec).nextPageToken == codec.encode(end);
  }

  // ---------------------------------------------------------------------------------------------------------------
  // Following page tokens

  ghost predicate AtOffset(f: ListFilter, codec: Codec, offset: nat) {
    Offset(f.pageToken, codec) == Some(offset)
  }

  /** The pages from a token on, one after another. */
  ghost function Walk(xs: seq<Task>, f: ListFilter, codec: Codec, offset: nat): seq<Task>
    requires codec.Lawful() && AtOffset(f, codec, offset)
    decreases |xs| - offset
  {
    var page := PageOf(xs, f, codec);
    if page.nextPageToken == "" then page.tasks
    else page.tasks + Walk(xs, f.(pageToken := page.nextPageToken), codec, offset + PageSize(f.pageSize))
  }

  lemma {:induction false} WalkFrom(xs: seq<Task>, f: ListFilter, codec: Codec, offset: nat)
    requires codec.Lawful() && AtOffset(f, codec, offset) && offset <= |xs|
    ensures Walk(xs, f, codec, offset) == xs[offset..]
    decreases |xs| - offset
  {
    var page := PageOf(xs, f, codec);
    if page.nextPageToken == "" {
    } else {
      var end := offset + PageSize(f.pageSize);
      WalkFrom(xs, f.(pageToken := page.nextPageToken), codec, end);
      assert xs[offset..] == xs[offset..end] + xs[end..];
    }
  }

  /**
  On a repository that does not change, following the tokens from the start gives the whole listing: nothing skipped,
  nothing twice, in order, for every page size.
  */
  lemma PagesAreTheListing(xs: seq<Task>, f: ListFilter, codec: Codec)
    requires codec.Lawful() && f.pageToken == ""
    ensures Walk(xs, f, codec, 0) == xs
  {
    WalkFrom(xs, f, codec, 0);
    assert xs[0..] == xs;
  }

  class MemoryRepo {
    var tasks: map<string, Task>
    const codec: Codec

    constructor (codec: Codec)
      ensures tasks == map[] && this.codec == codec
    {
      this.codec := codec;
      tasks := map[];
    }

    method Save(task: Task)
      modifies this
      ensures tasks == old(tasks)[task.id := task]
      ensures old(KeyedById(tasks)) ==> KeyedById(tasks)
    {
      tasks := tasks[task.id := task];
    }

    method GetByID(id: string) returns (r: Option<Task>)
      ensures r == if id in tasks then Some(tasks[id]) else None
    {
      r := if id in tasks then Some(tasks[id]) else None;
    }

    /** Replaces a record that is there; an unknown id changes nothing. */
    method Update(task: Task) returns (ok: bool)
      modifies this
      ensures ok <==> task.id in old(tasks)
      ensures tasks == if ok then old(tasks)[task.id := task] else old(tasks)
      ensures tasks.Keys == old(tasks).Keys
      ensures old(KeyedById(tasks)) ==> KeyedById(tasks)
    {
      ok := task.id in tasks;
      if ok {
        tasks := tasks[task.id := task];
      }
    }

    method Collect(f: ListFilter) returns (matched: seq<Task>)
      requires KeyedById(tasks)
      ensures multiset(matched) == multiset(Matching(tasks, f))
    {
      hide Matches;
      matched := [];
      var todo := tasks.Keys;
      ghost var seen: set<Task> := {};
      while todo != {}
        invariant todo <= tasks.Keys
        invariant seen == set id | id in tasks && id !in todo && Matches(tasks[id], f) :: tasks[id]
        invariant multiset(matched) == multiset(seen)
        decreases |todo|
      {
        var id :| id in todo;
        todo := todo - {id};
        if Matches(tasks[id], f) {
          assert tasks[id] !in seen;
          seen := seen + {tasks[id]};
          matched := matched + [tasks[id]];
        }
      }
      assert seen == Matching(tasks, f);
    }

    /** A page of the listing of the repository as it is. */
    method List(f: ListFilter) returns (r: ListOutcome, ghost xs: seq<Task>)
      requires KeyedById(tasks)
      ensures IsListing(tasks, f, xs)
      ensures r == PageOf(xs, f, codec)
    {
      hide TaskLe, Matching;
      TaskLeOrders();
      var matched := Collect(f);
      var sorted := Sort(matched, TaskLe);
      xs := sorted;
      var size := PageSize(f.pageSize);
      var offset := 0;
      if f.pageToken != "" {
        var decoded := codec.decode(f.pageToken);
        if decoded.None? {
          return BadToken, xs;
        }
        offset := decoded.value;
      }
      var total := |sorted|;
      if offset >= total {
        return Page([], ""), xs;
      }
      if offset < 0 {
        return SliceOutOfRange, xs;
      }
      var end := offset + size;
      var hasMore := end < total;
      if end > total {
        end := total;
      }
      var next := "";
      if hasMore {
        next := codec.encode(end);
      }
      return Page(sorted[offset..end], next), xs;
    }
  }
}
