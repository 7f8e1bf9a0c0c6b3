/** The task repository: the storage together with its metadata index. */
module TaskStore {
  import opened MachineInts
  import opened Options
  import opened Tasks
  import opened TextOrder
  import opened Storage

  /** For each metadata key and value text, the ids of the tasks that carry it. */
  type Index = map<string, map<string, set<string>>>

  ghost predicate Has(idx: Index, k: string, text: string, id: string) {
    k in idx && text in idx[k] && id in idx[k][text]
  }

  ghost predicate NoEmptyEntry(idx: Index) {
    && (forall k :: k in idx ==> idx[k] != map[])
    && (forall k, text :: k in idx && text in idx[k] ==> idx[k][text] != {})
  }

  predicate Carries(t: Task, k: string, text: string) {
    k in t.metadata && t.metadata[k].Text() == text
  }

  /** The index holds exactly the (key, text, id) triples of the stored tasks, and nothing empty. */
  ghost predicate IndexExact(data: map<string, Task>, idx: Index) {
    && NoEmptyEntry(idx)
    && (forall k, text, id :: Has(idx, k, text, id) <==> id in data && Carries(data[id], k, text))
  }

  ghost predicate WellKeyed(data: map<string, Task>) {
    forall id :: id in data ==> id != "" && data[id].id == id
  }

  predicate Matches(t: Task, filter: Metadata) {
    forall k :: k in filter ==> Carries(t, k, filter[k].Text())
  }

  /** The matching tasks of a list, in its order. */
  function Filter(tasks: seq<Task>, filter: Metadata): seq<Task> {
    if tasks == [] then []
    else
      var last := tasks[|tasks| - 1];
      Filter(tasks[..|tasks| - 1], filter) + if Matches(last, filter) then [last] else []
  }

  /** The linear scan: all stored tasks in id order, those kept that match. */
  ghost function Scan(data: map<string, Task>, filter: Metadata): seq<Task> {
    Filter(Values(data), filter)
  }

  /** An exact index is determined by the stored tasks. */
  lemma IndexUnique(data: map<string, Task>, a: Index, b: Index)
    requires IndexExact(data, a) && IndexExact(data, b)
    ensures a == b
  {
    IndexBelow(data, a, b);
    IndexBelow(data, b, a);
    assert a.Keys == b.Keys;
    forall k | k in a ensures a[k] == b[k] {
      assert a[k].Keys == b[k].Keys;
      forall text | text in a[k] ensures a[k][text] == b[k][text] {
        forall id ensures id in a[k][text] <==> id in b[k][text] {
          assert Has(a, k, text, id) <==> Has(b, k, text, id);
        }
      }
    }
  }

  lemma IndexBelow(data: map<string, Task>, a: Index, b: Index)
    requires IndexExact(data, a) && IndexExact(data, b)
    ensures forall k :: k in a ==> k in b
    ensures forall k, text :: k in a && text in a[k] ==> k in b && text in b[k]
  {
    forall k, text | k in a && text in a[k] ensures k in b && text in b[k] {
      var id :| id in a[k][text];
      assert Has(a, k, text, id);
      assert Has(b, k, text, id);
    }
    forall k | k in a ensures k in b {
      var text :| text in a[k];
    }
  }

  function AddEntry(idx: Index, k: string, text: string, id: string): (r: Index)
    ensures forall k', text', id' :: Has(r, k', text', id') <==>
              Has(idx, k', text', id') || (k', text', id') == (k, text, id)
    ensures NoEmptyEntry(idx) ==> NoEmptyEntry(r)
  {
    var vals := if k in idx then idx[k] else map[];
    var ids := if text in vals then vals[text] else {};
    idx[k := vals[text := ids + {id}]]
  }

  function DropEntry(idx: Index, k: string, text: string, id: string): (r: Index)
    ensures forall k', text', id' :: Has(r, k', text', id') <==>
              Has(idx, k', text', id') && (k', text', id') != (k, text, id)
    ensures NoEmptyEntry(idx) ==> NoEmptyEntry(r)
  {
    if k !in idx || text !in idx[k] then idx
    else
      var ids := idx[k][text] - {id};
      var vals := if ids == {} then idx[k] - {text} else idx[k][text := ids];
      assert forall id' :: id' in ids <==> id' in idx[k][text] && id' != id;
      assert ids != {} ==> text in vals;
      assert forall text' :: text' != text ==> (text' in vals <==> text' in idx[k]);
      if vals == map[] then idx - {k}
      else idx[k := vals]
  }

  /** Strictly ascending ids. */
  ghost predicate ById(tasks: seq<Task>) {
    forall i, j :: 0 <= i < j < |tasks| ==> Le(tasks[i].id, tasks[j].id) && tasks[i].id != tasks[j].id
  }

  function InsertById(t: Task, s: seq<Task>): (r: seq<Task>)
    ensures forall u :: u in r <==> u in s || u == t
  {
    if s == [] then [t]
    else if Le(t.id, s[0].id) then [t] + s
    else [s[0]] + InsertById(t, s[1..])
  }

  /** slices.SortFunc on the ids */
  function SortById(s: seq<Task>): (r: seq<Task>)
    ensures forall u :: u in r <==> u in s
  {
    if s == [] then [] else InsertById(s[0], SortById(s[1..]))
  }

  lemma {:induction false} InsertByIdOrdered(t: Task, s: seq<Task>)
    requires ById(s) && forall u :: u in s ==> u.id != t.id
    ensures ById(InsertById(t, s))
  {
    if s != [] {
      if Le(t.id, s[0].id) {
        forall j | 0 <= j < |s| ensures Le(t.id, s[j].id) && t.id != s[j].id {
          assert s[j] in s;
          if j > 0 {
            LeTransitive(t.id, s[0].id, s[j].id);
          }
        }
      } else {
        LeTotal(t.id, s[0].id);
        InsertByIdOrdered(t, s[1..]);
        var rest := InsertById(t, s[1..]);
        forall j | 0 <= j < |rest| ensures Le(s[0].id, rest[j].id) && s[0].id != rest[j].id {
          assert rest[j] in rest && s[0] in s;
          assert rest[j] == t || rest[j] in s[1..];
        }
      }
    }
  }

  lemma {:induction false} SortByIdOrdered(s: seq<Task>)
    requires UniqueIds(s)
    ensures ById(SortById(s))
  {
    if s != [] {
      SortByIdOrdered(s[1..]);
      InsertByIdOrdered(s[0], SortById(s[1..]));
    }
  }

  lemma {:induction false} ByIdUnique(a: seq<Task>, b: seq<Task>)
    requires ById(a) && ById(b) && forall t :: t in a <==> t in b
    ensures a == b
  {
    if a == [] {
      if b != [] {
        var t := First(b);
      }
    } else {
      assert a[0] in b;
      var i :| 0 <= i < |b| && b[i] == a[0];
      assert b[0] in a;
      var j :| 0 <= j < |a| && a[j] == b[0];
      if i > 0 && j > 0 {
        LeAntisymmetric(a[0].id, b[0].id);
      }
      assert a[0] == b[0];
      forall t ensures t in a[1..] <==> t in b[1..] {
        assert t in a[1..] <==> t in a && t != a[0];
        assert t in b[1..] <==> t in b && t != b[0];
      }
      ByIdUnique(a[1..], b[1..]);
      assert a == [a[0]] + a[1..] && b == [b[0]] + b[1..];
    }
  }

  lemma {:induction false} FilterKeepsOrder(tasks: seq<Task>, filter: Metadata)
    requires ById(tasks)
    ensures ById(Filter(tasks, filter))
    ensures forall t :: t in Filter(tasks, filter) <==> t in tasks && Matches(t, filter)
  {
    if tasks != [] {
      var init, last := tasks[..|tasks| - 1], tasks[|tasks| - 1];
      FilterKeepsOrder(init, filter);
      var f := Filter(init, filter);
      forall i | 0 <= i < |f| ensures Le(f[i].id, last.id) && f[i].id != last.id {
        assert f[i] in f;
      }
      assert tasks == init + [last];
    }
  }

  lemma ValuesInOrder(data: map<string, Task>)
    requires WellKeyed(data)
    ensures ById(Values(data))
    ensures forall t :: t in Values(data) <==> t.id in data && data[t.id] == t
  {
    var keys, vals := Ascending(data.Keys), Values(data);
    AscendingSorted(data.Keys);
    assert forall i :: 0 <= i < |keys| ==> keys[i] in keys && vals[i] == data[keys[i]];
    forall t: Task | t.id in data && data[t.id] == t ensures t in vals {
      var i :| 0 <= i < |keys| && keys[i] == t.id;
      assert vals[i] == t;
    }
  }

  lemma ScanMembers(data: map<string, Task>, filter: Metadata)
    requires WellKeyed(data)
    ensures ById(Scan(data, filter))
    ensures forall t :: t in Scan(data, filter) <==> t.id in data && data[t.id] == t && Matches(t, filter)
  {
    ValuesInOrder(data);
    FilterKeepsOrder(Values(data), filter);
  }

  /** Sorting any listing of the matching tasks gives the scan. */
  lemma SortedListingIsScan(data: map<string, Task>, filter: Metadata, listing: seq<Task>)
    requires WellKeyed(data) && UniqueIds(listing)
    requires forall t :: t in listing <==> t.id in data && data[t.id] == t && Matches(t, filter)
    ensures SortById(listing) == Scan(data, filter)
  {
    hide Scan, ById, Matches;
    ScanMembers(data, filter);
    SortByIdOrdered(listing);
    ByIdUnique(SortById(listing), Scan(data, filter));
  }

  predicate MatchesOn(t: Task, filter: Metadata, keys: set<string>) {
    forall k :: k in keys && k in filter ==> Carries(t, k, filter[k].Text())
  }

  lemma MatchesOneMore(t: Task, filter: Metadata, keys: set<string>, k: string)
    requires k in filter
    ensures MatchesOn(t, filter, keys + {k}) <==> MatchesOn(t, filter, keys) && Carries(t, k, filter[k].Text())
  {
    assert k in keys + {k};
  }

  class TaskRepo {
    const storage: MemoryStorage<Task>
    var metaIdx: Index

    ghost predicate Valid()
      reads this, storage
    {
      WellKeyed(storage.data) && IndexExact(storage.data, metaIdx)
    }

    constructor ()
      ensures Valid() && fresh(storage) && storage.data == map[]
    {
      storage := new MemoryStorage();
      metaIdx := map[];
    }

    method IndexTask(t: Task)
      modifies this
      ensures NoEmptyEntry(old(metaIdx)) ==> NoEmptyEntry(metaIdx)
      ensures forall k, text, id :: Has(metaIdx, k, text, id) <==>
                                    Has(old(metaIdx), k, text, id) || (id == t.id && Carries(t, k, text))
    {
      var rest := t.metadata.Keys;
      while rest != {}
        invariant rest <= t.metadata.Keys
        invariant NoEmptyEntry(old(metaIdx)) ==> NoEmptyEntry(metaIdx)
        invariant forall k, text, id :: Has(metaIdx, k, text, id) <==>
                                        Has(old(metaIdx), k, text, id)
                                          || (id == t.id && k !in rest && Carries(t, k, text))
      {
        var k :| k in rest;
        rest := rest - {k};
        metaIdx := AddEntry(metaIdx, k, t.metadata[k].Text(), t.id);
      }
    }

    method DeindexTask(t: Task)
      modifies this
      ensures NoEmptyEntry(old(metaIdx)) ==> NoEmptyEntry(metaIdx)
      ensures forall k, text, id :: Has(metaIdx, k, text, id) <==>
                                    Has(old(metaIdx), k, text, id) && !(id == t.id && Carries(t, k, text))
    {
      var rest := t.metadata.Keys;
      while rest != {}
        invariant rest <= t.metadata.Keys
        invariant NoEmptyEntry(old(metaIdx)) ==> NoEmptyEntry(metaIdx)
        invariant forall k, text, id :: Has(metaIdx, k, text, id) <==>
                                        Has(old(metaIdx), k, text, id)
                                          && !(id == t.id && k !in rest && Carries(t, k, text))
      {
        var k :| k in rest;
        rest := rest - {k};
        metaIdx := DropEntry(metaIdx, k, t.metadata[k].Text(), t.id);
      }
    }

    method Create(t: Task) returns (r: Result<Task, StoreError>)
      requires Valid()
      modifies this, storage
      ensures Valid()
      ensures r == if t.id == "" then Err(EmptyKey) else if t.id in old(storage.data) then Err(EntityExists) else Ok(t)
      ensures storage.data == if r.Ok? then old(storage.data)[t.id := t] else old(storage.data)
    {
      var e := storage.Create(t.id, t);
      if e.Err? {
        return Err(e.error);
      }
      IndexTask(t);
      return Ok(t);
    }

    method Get(id: string) returns (r: Result<Task, StoreError>)
      requires Valid()
      ensures r == if id == "" then Err(EmptyKey)
                   else if id in storage.data then Ok(storage.data[id])
                   else Err(NotFound)
    {
      r := storage.Get(id);
    }

    method Update(t: Task) returns (r: Result<(), StoreError>)
      requires Valid()
      modifies this, storage
      ensures Valid()
      ensures r == if t.id == "" then Err(EmptyKey) else if t.id !in old(storage.data) then Err(NotFound) else Ok(())
      ensures storage.data == if r.Ok? then old(storage.data)[t.id := t] else old(storage.data)
    {
      var stored := storage.Get(t.id);
      if stored.Ok? {
        DeindexTask(stored.value);
      }
      r := storage.Update(t.id, t);
      if r.Err? {
        return;
      }
      IndexTask(t);
    }

    method Delete(id: string) returns (r: Result<(), StoreError>)
      requires Valid()
      modifies this, storage
      ensures Valid()
      ensures r == if id == "" then Err(EmptyKey) else Ok(())
      ensures storage.data == if r.Ok? then old(storage.data) - {id} else old(storage.data)
    {
      var stored := storage.Get(id);
      if stored.Ok? {
        DeindexTask(stored.value);
      }
      r := storage.Delete(id);
    }

    /** Intersects the index entries of the filter; `false` means that some step left nothing. */
    method FilterIDsByMetadata(filter: Metadata) returns (matchIDs: Option<set<string>>, ok: bool)
      requires Valid()
      ensures ok && matchIDs.None? ==> filter == map[]
      ensures ok && matchIDs.Some? ==>
                forall id :: id in matchIDs.value <==> id in storage.data && Matches(storage.data[id], filter)
      ensures !ok ==> forall id :: id in storage.data ==> !Matches(storage.data[id], filter)
    {
      matchIDs := None;
      var rest := filter.Keys;
      while rest != {}
        invariant rest <= filter.Keys
        invariant matchIDs.None? ==> rest == filter.Keys
        invariant matchIDs.Some? ==>
                    forall id :: id in matchIDs.value <==>
                                 id in storage.data && MatchesOn(storage.data[id], filter, filter.Keys - rest)
      {
        var k :| k in rest;
        ghost var done := filter.Keys - rest;
        rest := rest - {k};
        assert filter.Keys - rest == done + {k};
        var text := filter[k].Text();
        assert forall id :: id in storage.data && Carries(storage.data[id], k, text) ==> Has(metaIdx, k, text, id);
        if k !in metaIdx || text !in metaIdx[k] {
          return None, false;
        }
        var taskIDs := metaIdx[k][text];
        assert forall id :: id in taskIDs <==> Has(metaIdx, k, text, id);
        assert matchIDs.None? ==> done == {};
        forall id | id in storage.data
          ensures MatchesOn(storage.data[id], filter, done + {k})
             <==> MatchesOn(storage.data[id], filter, done) && Carries(storage.data[id], k, text)
        {
          MatchesOneMore(storage.data[id], filter, done, k);
        }
        matchIDs := Some(if matchIDs.None? then taskIDs else matchIDs.value * taskIDs);
        assert forall id :: id in matchIDs.value <==>
                            id in storage.data && MatchesOn(storage.data[id], filter, done + {k});
        if matchIDs.value == {} {
          assert forall id :: id in storage.data ==> id !in matchIDs.value;
          return None, false;
        }
      }
      return matchIDs, true;
    }

    /** The filtered page equals the same page of the linear scan, with the same total. */
    method List(filter: Metadata, offset: nat, limit: nat) returns (r: Listing<Task>)
      requires Valid()
      requires offset < TWO_64 && limit < TWO_64 && |storage.data| < TWO_64
      ensures r.Panics? <==> offset < |Scan(storage.data, filter)| && offset + limit >= TWO_64
      ensures r.Page? ==> && r.items == Cut(Scan(storage.data, filter), offset, limit)
                          && r.total == |Scan(storage.data, filter)|
    {
      if filter == map[] {
        ScanAll(storage.data, filter);
        r := storage.List(offset, limit);
      } else {
        r := ListByMetadata(filter, offset, limit);
      }
    }

    method ListByMetadata(filter: Metadata, offset: nat, limit: nat) returns (r: Listing<Task>)
      requires Valid() && filter != map[]
      requires offset < TWO_64 && limit < TWO_64 && |storage.data| < TWO_64
      ensures r.Panics? <==> offset < |Scan(storage.data, filter)| && offset + limit >= TWO_64
      ensures r.Page? ==> && r.items == Cut(Scan(storage.data, filter), offset, limit)
                          && r.total == |Scan(storage.data, filter)|
    {
      hide Scan, IndexExact, Matches, WellKeyed;
      var matchIDs, ok := FilterIDsByMetadata(filter);
      if !ok || matchIDs.value == {} {
        ScanNothing(storage.data, filter);
        return Page([], 0);
      }
      var tasks := LoadTasks(matchIDs.value);
      SortedListingIsScan(storage.data, filter, tasks);
      tasks := SortById(tasks);
      ScanBound(storage.data, filter);
      var total := |tasks|;
      if offset >= total {
        return Page([], total);
      }
      var end := PageEnd(offset, limit, total);
      if end < offset {
        return Panics;
      }
      return Page(tasks[offset..end], total);
    }

    method ListByWorkflowID(workflowId: string) returns (tasks: seq<Task>)
      requires Valid() && |storage.data| < TWO_64
      ensures tasks == OfWorkflow(storage.data, workflowId)
    {
      hide Values, WellKeyed, IndexExact;
      var page := storage.List(0, TWO_64 - 1);
      var all := page.items;
      tasks := [];
      for i := 0 to |all|
        invariant tasks == InWorkflow(all[..i], workflowId)
      {
        assert all[..i + 1][..i] == all[..i];
        if all[i].workflowId == workflowId {
          tasks := tasks + [all[i]];
        }
      }
      assert all[..|all|] == all;
    }

    method ListByJobID(jobId: string) returns (tasks: seq<Task>)
      requires Valid() && |storage.data| < TWO_64
      ensures tasks == OfJob(storage.data, jobId)
    {
      hide Values, WellKeyed, IndexExact;
      var page := storage.List(0, TWO_64 - 1);
      var all := page.items;
      tasks := [];
      for i := 0 to |all|
        invariant tasks == InJob(all[..i], jobId)
      {
        assert all[..i + 1][..i] == all[..i];
        if all[i].jobId == jobId {
          tasks := tasks + [all[i]];
        }
      }
      assert all[..|all|] == all;
    }

    method LoadTasks(ids: set<string>) returns (tasks: seq<Task>)
      requires Valid()
      ensures UniqueIds(tasks)
      ensures forall t :: t in tasks <==> t.id in ids && t.id in storage.data && storage.data[t.id] == t
    {
      tasks := [];
      var rest := ids;
      while rest != {}
        invariant rest <= ids && UniqueIds(tasks)
        invariant forall t :: t in tasks <==>
                    t.id in ids && t.id !in rest && t.id in storage.data && storage.data[t.id] == t
      {
        var id :| id in rest;
        rest := rest - {id};
        var data := storage.Get(id);
        if data.Ok? {
          assert forall i :: 0 <= i < |tasks| ==> tasks[i] in tasks;
          tasks := tasks + [data.value];
        }
      }
    }
  }

  /** The tasks of one workflow, in id order. */
  ghost function OfWorkflow(data: map<string, Task>, workflowId: string): seq<Task> {
    InWorkflow(Values(data), workflowId)
  }

  function InWorkflow(tasks: seq<Task>, workflowId: string): seq<Task> {
    if tasks == [] then []
    else
      var last := tasks[|tasks| - 1];
      InWorkflow(tasks[..|tasks| - 1], workflowId) + if last.workflowId == workflowId then [last] else []
  }

  lemma {:induction false} InWorkflowKeepsOrder(tasks: seq<Task>, workflowId: string)
    requires ById(tasks)
    ensures ById(InWorkflow(tasks, workflowId))
    ensures forall t :: t in InWorkflow(tasks, workflowId) <==> t in tasks && t.workflowId == workflowId
  {
    if tasks != [] {
      var init, last := tasks[..|tasks| - 1], tasks[|tasks| - 1];
      InWorkflowKeepsOrder(init, workflowId);
      var f := InWorkflow(init, workflowId);
      forall i | 0 <= i < |f| ensures Le(f[i].id, last.id) && f[i].id != last.id {
        assert f[i] in f;
      }
      assert tasks == init + [last];
    }
  }

  lemma OfWorkflowMembers(data: map<string, Task>, workflowId: string)
    requires WellKeyed(data)
    ensures ById(OfWorkflow(data, workflowId))
    ensures forall t :: t in OfWorkflow(data, workflowId) <==>
              t.id in data && data[t.id] == t && t.workflowId == workflowId
  {
    ValuesInOrder(data);
    InWorkflowKeepsOrder(Values(data), workflowId);
  }

  /** The tasks of one job, in id order. */
  ghost function OfJob(data: map<string, Task>, jobId: string): seq<Task> {
    InJob(Values(data), jobId)
  }

  function InJob(tasks: seq<Task>, jobId: string): seq<Task> {
    if tasks == [] then []
    else
      var last := tasks[|tasks| - 1];
      InJob(tasks[..|tasks| - 1], jobId) + if last.jobId == jobId then [last] else []
  }

  lemma {:induction false} InJobKeepsOrder(tasks: seq<Task>, jobId: string)
    requires ById(tasks)
    ensures ById(InJob(tasks, jobId))
    ensures forall t :: t in InJob(tasks, jobId) <==> t in tasks && t.jobId == jobId
  {
    if tasks != [] {
      var init, last := tasks[..|tasks| - 1], tasks[|tasks| - 1];
      InJobKeepsOrder(init, jobId);
      var f := InJob(init, jobId);
      forall i | 0 <= i < |f| ensures Le(f[i].id, last.id) && f[i].id != last.id {
        assert f[i] in f;
      }
      assert tasks == init + [last];
    }
  }

  /** The listing of a job holds exactly its stored tasks, in id order. */
  lemma OfJobMembers(data: map<string, Task>, jobId: string)
    requires WellKeyed(data)
    ensures ById(OfJob(data, jobId))
    ensures forall t :: t in OfJob(data, jobId) <==> t.id in data && data[t.id] == t && t.jobId == jobId
  {
    ValuesInOrder(data);
    InJobKeepsOrder(Values(data), jobId);
  }

  lemma ScanNothing(data: map<string, Task>, filter: Metadata)
    requires WellKeyed(data) && forall id :: id in data ==> !Matches(data[id], filter)
    ensures Scan(data, filter) == []
  {
    ScanMembers(data, filter);
    if Scan(data, filter) != [] {
      var t := First(Scan(data, filter));
    }
  }

  lemma ScanBound(data: map<string, Task>, filter: Metadata)
    ensures |Scan(data, filter)| <= |data|
  {
    FilterBound(Values(data), filter);
  }

  lemma {:induction false} FilterBound(tasks: seq<Task>, filter: Metadata)
    ensures |Filter(tasks, filter)| <= |tasks|
  {
    if tasks != [] {
      FilterBound(tasks[..|tasks| - 1], filter);
    }
  }

  lemma ScanAll(data: map<string, Task>, filter: Metadata)
    requires filter == map[]
    ensures Scan(data, filter) == Values(data)
  {
    FilterAll(Values(data), filter);
  }

  lemma {:induction false} FilterAll(tasks: seq<Task>, filter: Metadata)
    requires filter == map[]
    ensures Filter(tasks, filter) == tasks
  {
    if tasks != [] {
      FilterAll(tasks[..|tasks| - 1], filter);
    }
  }

  // Whole histories of the store.

  datatype StoreOp = CreateOp(task: Task) | UpdateOp(task: Task) | DeleteOp(id: string)

  /** What an operation does to a plain map, failing ones included. */
  function Performed(data: map<string, Task>, op: StoreOp): map<string, Task> {
    match op
    case CreateOp(t) => if t.id == "" || t.id in data then data else data[t.id := t]
    case UpdateOp(t) => if t.id == "" || t.id !in data then data else data[t.id := t]
    case DeleteOp(id) => if id == "" then data else data - {id}
  }

  function Outcome(ops: seq<StoreOp>): map<string, Task> {
    if ops == [] then map[] else Performed(Outcome(ops[..|ops| - 1]), ops[|ops| - 1])
  }

  method Perform(repo: TaskRepo, op: StoreOp)
    requires repo.Valid()
    modifies repo, repo.storage
    ensures repo.Valid() && repo.storage.data == Performed(old(repo.storage.data), op)
  {
    match op {
      case CreateOp(t) => var _ := repo.Create(t);
      case UpdateOp(t) => var _ := repo.Update(t);
      case DeleteOp(id) => var _ := repo.Delete(id);
    }
  }

  /** After any history, a filtered page is cut from the id-sorted scan of what the history leaves behind. */
  method ListAfter(ops: seq<StoreOp>, filter: Metadata, offset: nat, limit: nat) returns (r: Listing<Task>)
    requires offset < TWO_64 && limit < TWO_64 && |Outcome(ops)| < TWO_64
    ensures r.Panics? <==> offset < |Scan(Outcome(ops), filter)| && offset + limit >= TWO_64
    ensures r.Page? ==> && r.items == Cut(Scan(Outcome(ops), filter), offset, limit)
                        && r.total == |Scan(Outcome(ops), filter)|
  {
    var repo := new TaskRepo();
    for i := 0 to |ops|
      invariant repo.Valid() && fresh(repo) && fresh(repo.storage) && repo.storage.data == Outcome(ops[..i])
    {
      Perform(repo, ops[i]);
      assert ops[..i + 1][..i] == ops[..i];
    }
    assert ops[..|ops|] == ops;
    r := repo.List(filter, offset, limit);
  }
}
