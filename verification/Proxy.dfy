/**
 * The proxy's pipeline: a dispatcher that admits container requests, one worker per fetch, and a
 * streamer that publishes chunks and counts them. All of them interleave freely.
 */
module Proxy {
  import opened Chunking
  import opened Options

  const MAX_FETCHES := 50
  const REQUEST_CAPACITY := 100
  const CHUNK_CAPACITY := 10

  datatype Phase = Fetching | Sending | Closing | Done

  /** A fetch from its admission on; `sent` of its chunks are in the channel or already out of it. */
  datatype Worker = Worker(name: string, phase: Phase, data: Bytes, chunks: seq<Chunk>, sent: nat)

  /**
   * The channels and the shared counters, with what has happened so far: the chunks the streamer has
   * taken, those at which it reported a container complete, the containers of which a chunk could not
   * be published, and those whose fetch was given up half way.
   */
  datatype State = State(
    requests: seq<string>,
    fetching: set<string>,
    active: int,
    workers: seq<Worker>,
    channel: seq<Chunk>,
    counts: map<string, nat>,
    cancelled: bool,
    taken: seq<Chunk>,
    reported: seq<Chunk>,
    unpublished: set<string>,
    torn: set<string>)

  const START := State([], {}, 0, [], [], map[], false, [], [], {}, {})

  datatype Step =
    | Request(name: string)
    | Admit
    | Fetched(worker: nat, data: Option<Bytes>)
    | Enqueue(worker: nat)
    | Finish(worker: nat)
    | CancelAll
    | Abort(worker: nat)
    | Cleanup(worker: nat)
    | Stream(ok: bool)

  predicate Enabled(s: State, step: Step) {
    match step
    case Request(_) => |s.requests| < REQUEST_CAPACITY
    case Admit => s.requests != []
    case Fetched(w, _) => w < |s.workers| && s.workers[w].phase.Fetching?
    case Enqueue(w) =>
      w < |s.workers| && s.workers[w].phase.Sending? && s.workers[w].sent < |s.workers[w].chunks|
      && |s.channel| < CHUNK_CAPACITY
    case Finish(w) => w < |s.workers| && s.workers[w].phase.Sending? && s.workers[w].sent == |s.workers[w].chunks|
    case CancelAll => true
    case Abort(w) =>
      s.cancelled && w < |s.workers| && s.workers[w].phase.Sending? && s.workers[w].sent < |s.workers[w].chunks|
    case Cleanup(w) => w < |s.workers| && s.workers[w].phase.Closing?
    case Stream(_) => s.channel != []
  }

  function SetWorker(s: State, w: nat, worker: Worker): State
    requires w < |s.workers|
  {
    s.(workers := s.workers[w := worker])
  }

  /** The dispatcher drops a request at the limit and skips one that is being fetched already. */
  function AdmitNext(s: State): State
    requires s.requests != []
  {
    var name := s.requests[0];
    var t := s.(requests := s.requests[1..]);
    if s.active >= MAX_FETCHES then t
    else if name in s.fetching then t
    else t.(active := s.active + 1, fetching := s.fetching + {name},
            workers := s.workers + [Worker(name, Fetching, [], [], 0)])
  }

  /** What was fetched is small enough for the sum behind its number of chunks. */
  predicate Fitting(step: Step, size: nat) {
    step.Fetched? && step.data.Some? ==> Fits(|step.data.value|, size)
  }

  function FetchedBy(s: State, w: nat, data: Option<Bytes>, size: nat): State
    requires w < |s.workers| && size > 0 && (data.Some? ==> Fits(|data.value|, size))
  {
    var worker := s.workers[w];
    SetWorker(s, w,
              if data.None? then worker.(phase := Closing)
              else worker.(phase := Sending, data := data.value,
                           chunks := Chunks(data.value, worker.name, size), sent := 0))
  }

  function EnqueueFrom(s: State, w: nat): State
    requires Enabled(s, Enqueue(w))
  {
    var worker := s.workers[w];
    SetWorker(s, w, worker.(sent := worker.sent + 1)).(channel := s.channel + [worker.chunks[worker.sent]])
  }

  function CleanupOf(s: State, w: nat): State
    requires w < |s.workers|
  {
    var worker := s.workers[w];
    SetWorker(s, w, worker.(phase := Done)).(fetching := s.fetching - {worker.name}, active := s.active - 1)
  }

  function CountOf(counts: map<string, nat>, name: string): nat {
    if name in counts then counts[name] else 0
  }

  /** Publishes the next chunk; only a chunk that went out is counted. */
  function StreamNext(s: State, ok: bool): State
    requires s.channel != []
  {
    var chunk := s.channel[0];
    var t := s.(channel := s.channel[1..], taken := s.taken + [chunk]);
    if !ok then t.(unpublished := s.unpublished + {chunk.app})
    else
      var count := CountOf(s.counts, chunk.app) + 1;
      if count == chunk.total then
        t.(counts := s.counts[chunk.app := count] - {chunk.app}, reported := s.reported + [chunk])
      else
        t.(counts := s.counts[chunk.app := count])
  }

  function Apply(s: State, step: Step, size: nat): State
    requires Enabled(s, step) && size > 0 && Fitting(step, size)
  {
    match step
    case Request(name) => s.(requests := s.requests + [name])
    case Admit => AdmitNext(s)
    case Fetched(w, data) => FetchedBy(s, w, data, size)
    case Enqueue(w) => EnqueueFrom(s, w)
    case Finish(w) => SetWorker(s, w, s.workers[w].(phase := Closing))
    case CancelAll => s.(cancelled := true)
    case Abort(w) => SetWorker(s, w, s.workers[w].(phase := Closing)).(torn := s.torn + {s.workers[w].name})
    case Cleanup(w) => CleanupOf(s, w)
    case Stream(ok) => StreamNext(s, ok)
  }

  // Admission: the counter is the number of containers being fetched, one live worker for each.

  predicate Live(worker: Worker) {
    !worker.phase.Done?
  }

  /** A worker may only be followed by another for the same container once it is done. */
  ghost predicate OneAtATime(workers: seq<Worker>) {
    forall i, j :: 0 <= i < j < |workers| && Live(workers[i]) ==> workers[i].name != workers[j].name
  }

  ghost predicate FetchingExact(s: State) {
    && (forall i :: 0 <= i < |s.workers| && Live(s.workers[i]) ==> s.workers[i].name in s.fetching)
    && (forall name :: name in s.fetching ==>
          exists i :: 0 <= i < |s.workers| && Live(s.workers[i]) && s.workers[i].name == name)
  }

  ghost predicate Admission(s: State) {
    && OneAtATime(s.workers)
    && FetchingExact(s)
    && s.active == |s.fetching| <= MAX_FETCHES
    && |s.requests| <= REQUEST_CAPACITY
    && |s.channel| <= CHUNK_CAPACITY
  }

  lemma AdmitFetching(s: State, name: string)
    requires FetchingExact(s) && name !in s.fetching
    ensures FetchingExact(s.(fetching := s.fetching + {name},
                             workers := s.workers + [Worker(name, Fetching, [], [], 0)]))
  {
    var t := s.(fetching := s.fetching + {name}, workers := s.workers + [Worker(name, Fetching, [], [], 0)]);
    assert t.workers[|s.workers|].name == name && Live(t.workers[|s.workers|]);
    forall x | x in s.fetching
      ensures exists i :: 0 <= i < |t.workers| && Live(t.workers[i]) && t.workers[i].name == x
    {
      var i :| 0 <= i < |s.workers| && Live(s.workers[i]) && s.workers[i].name == x;
      assert t.workers[i] == s.workers[i];
    }
  }

  lemma FetchingSame(s: State, t: State)
    requires FetchingExact(s) && t.workers == s.workers && t.fetching == s.fetching
    ensures FetchingExact(t)
  {
  }

  lemma AdmitOne(s: State, worker: Worker)
    requires OneAtATime(s.workers) && FetchingExact(s) && worker.name !in s.fetching
    ensures OneAtATime(s.workers + [worker])
  {
    var workers := s.workers + [worker];
    forall i, j | 0 <= i < j < |workers| && Live(workers[i])
      ensures workers[i].name != workers[j].name
    {
      assert workers[i] == s.workers[i];
    }
  }

  lemma AdmitKeeps(s: State)
    requires Admission(s) && s.requests != []
    ensures Admission(AdmitNext(s))
  {
    hide FetchingExact, OneAtATime;
    var name := s.requests[0];
    var t := AdmitNext(s);
    if s.active < MAX_FETCHES && name !in s.fetching {
      var worker := Worker(name, Fetching, [], [], 0);
      AdmitOne(s, worker);
      AdmitFetching(s, name);
      FetchingSame(s.(fetching := s.fetching + {name}, workers := s.workers + [worker]), t);
    } else {
      FetchingSame(s, t);
    }
  }

  lemma LiveUpdateKeeps(s: State, w: nat, worker: Worker)
    requires Admission(s) && w < |s.workers| && Live(s.workers[w]) && Live(worker) && worker.name == s.workers[w].name
    ensures Admission(SetWorker(s, w, worker))
  {
    var t := SetWorker(s, w, worker);
    forall name | name in t.fetching
      ensures exists i :: 0 <= i < |t.workers| && Live(t.workers[i]) && t.workers[i].name == name
    {
      var i :| 0 <= i < |s.workers| && Live(s.workers[i]) && s.workers[i].name == name;
      assert Live(t.workers[i]) && t.workers[i].name == name;
    }
  }

  lemma CleanupKeeps(s: State, w: nat)
    requires Admission(s) && w < |s.workers| && s.workers[w].phase.Closing?
    ensures Admission(CleanupOf(s, w))
  {
    var t := CleanupOf(s, w);
    var gone := s.workers[w].name;
    assert |t.fetching| == |s.fetching| - 1;
    forall name | name in t.fetching
      ensures exists i :: 0 <= i < |t.workers| && Live(t.workers[i]) && t.workers[i].name == name
    {
      var i :| 0 <= i < |s.workers| && Live(s.workers[i]) && s.workers[i].name == name;
      assert t.workers[i] == s.workers[i];
    }
  }

  lemma AdmissionStep(s: State, step: Step, size: nat)
    requires Admission(s) && Enabled(s, step) && size > 0 && Fitting(step, size)
    ensures Admission(Apply(s, step, size))
  {
    match step
    case Admit => AdmitKeeps(s);
    case Fetched(w, data) => LiveUpdateKeeps(s, w, FetchedBy(s, w, data, size).workers[w]);
    case Enqueue(w) => LiveUpdateKeeps(s, w, EnqueueFrom(s, w).workers[w]);
    case Finish(w) => LiveUpdateKeeps(s, w, s.workers[w].(phase := Closing));
    case Abort(w) => LiveUpdateKeeps(s, w, s.workers[w].(phase := Closing));
    case Cleanup(w) => CleanupKeeps(s, w);
    case _ =>
  }

  // What the workers have sent, container by container.

  function OfApp(chunks: seq<Chunk>, name: string): seq<Chunk> {
    if chunks == [] then []
    else
      var last := chunks[|chunks| - 1];
      OfApp(chunks[..|chunks| - 1], name) + if last.app == name then [last] else []
  }

  lemma OfAppSnoc(chunks: seq<Chunk>, c: Chunk, name: string)
    ensures OfApp(chunks + [c], name) == OfApp(chunks, name) + if c.app == name then [c] else []
  {
    assert (chunks + [c])[..|chunks|] == chunks;
  }

  lemma {:induction false} OfAppPrefix(a: seq<Chunk>, b: seq<Chunk>, name: string)
    ensures OfApp(a, name) <= OfApp(a + b, name)
  {
    if b == [] {
      assert a + b == a;
    } else {
      var last := |b| - 1;
      OfAppPrefix(a, b[..last], name);
      assert a + b == a + b[..last] + [b[last]];
      OfAppSnoc(a + b[..last], b[last], name);
    }
  }

  function Part(worker: Worker): seq<Chunk> {
    if worker.sent <= |worker.chunks| then worker.chunks[..worker.sent] else []
  }

  /** The runs for a container one after the other, each as far as its worker has come. */
  function Sent(workers: seq<Worker>, name: string): seq<Chunk> {
    if workers == [] then []
    else
      var last := workers[|workers| - 1];
      Sent(workers[..|workers| - 1], name) + if last.name == name then Part(last) else []
  }

  lemma {:induction false} SentSame(a: seq<Worker>, b: seq<Worker>, name: string)
    requires |a| == |b|
    requires forall i :: 0 <= i < |a| ==> a[i].name == b[i].name && Part(a[i]) == Part(b[i])
    ensures Sent(a, name) == Sent(b, name)
  {
    if a != [] {
      SentSame(a[..|a| - 1], b[..|b| - 1], name);
    }
  }

  lemma SentSnoc(workers: seq<Worker>, worker: Worker, name: string)
    requires Part(worker) == []
    ensures Sent(workers + [worker], name) == Sent(workers, name)
  {
    assert (workers + [worker])[..|workers|] == workers;
  }

  /** A worker that nobody of the same container follows sends at the end. */
  lemma {:induction false} SentGrows(workers: seq<Worker>, w: nat, worker: Worker, c: Chunk, name: string)
    requires w < |workers| && worker.name == workers[w].name && Part(worker) == Part(workers[w]) + [c]
    requires forall j :: w < j < |workers| ==> workers[j].name != worker.name
    ensures Sent(workers[w := worker], name) == Sent(workers, name) + if worker.name == name then [c] else []
  {
    var n := |workers| - 1;
    var after := workers[w := worker];
    if w == n {
      assert after[..n] == workers[..n];
    } else {
      SentGrows(workers[..n], w, worker, c, name);
      assert after[..n] == workers[..n][w := worker];
      assert after[n] == workers[n];
    }
  }

  /** The channel is first in, first out: taken and waiting chunks together are what was sent, in order. */
  ghost predicate Piped(s: State, name: string) {
    OfApp(s.taken + s.channel, name) == Sent(s.workers, name)
  }

  ghost predicate ValidWorker(worker: Worker, size: nat)
    requires size > 0
  {
    && worker.sent <= |worker.chunks|
    && worker.chunks == Chunks(worker.data, worker.name, size)
    && (worker.phase.Fetching? ==> worker.chunks == [])
  }

  /** A worker that is through has sent everything it fetched, unless it was told to stop. */
  ghost predicate Whole(worker: Worker, torn: set<string>) {
    worker.phase.Closing? || worker.phase.Done? ==> worker.sent == |worker.chunks| || worker.name in torn
  }

  ghost predicate Pipeline(s: State, size: nat)
    requires size > 0
  {
    && Admission(s)
    && (forall i :: 0 <= i < |s.workers| ==> ValidWorker(s.workers[i], size) && Whole(s.workers[i], s.torn))
    && (forall name :: Piped(s, name))
    && (s.torn != {} ==> s.cancelled)
  }

  lemma PipedSame(s: State, t: State)
    requires t.taken + t.channel == s.taken + s.channel && |t.workers| == |s.workers|
    requires forall i :: 0 <= i < |s.workers| ==>
               s.workers[i].name == t.workers[i].name && Part(s.workers[i]) == Part(t.workers[i])
    requires forall name :: Piped(s, name)
    ensures forall name :: Piped(t, name)
  {
    forall name
      ensures Piped(t, name)
    {
      assert Piped(s, name);
      SentSame(s.workers, t.workers, name);
    }
  }

  lemma PipedAdmit(s: State, size: nat)
    requires size > 0 && Pipeline(s, size) && s.requests != []
    ensures Pipeline(AdmitNext(s), size)
  {
    hide OfApp, Sent, Admission;
    AdmitKeeps(s);
    var t := AdmitNext(s);
    forall name
      ensures Piped(t, name)
    {
      assert Piped(s, name);
      SentSnoc(s.workers, Worker(s.requests[0], Fetching, [], [], 0), name);
    }
  }

  /** The sending worker is the last of its container, and stays a valid one. */
  lemma EnqueueFacts(s: State, w: nat, size: nat)
    requires size > 0 && OneAtATime(s.workers) && Enabled(s, Enqueue(w)) && ValidWorker(s.workers[w], size)
    ensures var worker := s.workers[w]; var c, worker' := worker.chunks[worker.sent], worker.(sent := worker.sent + 1);
            && c.app == worker.name && Part(worker') == Part(worker) + [c]
            && ValidWorker(worker', size) && Whole(worker', s.torn)
    ensures forall j :: w < j < |s.workers| ==> s.workers[j].name != s.workers[w].name
  {
  }

  lemma EnqueuePiped(s: State, w: nat, size: nat, name: string)
    requires size > 0 && OneAtATime(s.workers) && Enabled(s, Enqueue(w)) && ValidWorker(s.workers[w], size)
    requires Piped(s, name)
    ensures Piped(EnqueueFrom(s, w), name)
  {
    var t, worker := EnqueueFrom(s, w), s.workers[w];
    var c := worker.chunks[worker.sent];
    EnqueueFacts(s, w, size);
    hide OfApp, Sent, Part, ValidWorker, OneAtATime;
    SentGrows(s.workers, w, t.workers[w], c, name);
    OfAppSnoc(s.taken + s.channel, c, name);
    assert t.taken + t.channel == s.taken + s.channel + [c];
  }

  lemma PipedEnqueue(s: State, w: nat, size: nat)
    requires size > 0 && Pipeline(s, size) && Enabled(s, Enqueue(w))
    ensures Pipeline(EnqueueFrom(s, w), size)
  {
    hide Piped, OneAtATime, FetchingExact, ValidWorker, Whole, Chunks;
    AdmissionStep(s, Enqueue(w), size);
    EnqueueFacts(s, w, size);
    var t := EnqueueFrom(s, w);
    forall name
      ensures Piped(t, name)
    {
      EnqueuePiped(s, w, size, name);
    }
  }

  lemma PipedStream(s: State, ok: bool, size: nat)
    requires size > 0 && Pipeline(s, size) && s.channel != []
    ensures Pipeline(StreamNext(s, ok), size)
  {
    hide OfApp, Sent;
    var t := StreamNext(s, ok);
    assert t.taken + t.channel == s.taken + s.channel;
    PipedSame(s, t);
  }

  /** A worker that changes without sending. */
  lemma PipedWorker(s: State, t: State, w: nat, size: nat)
    requires size > 0 && Pipeline(s, size) && w < |s.workers| == |t.workers| && Admission(t)
    requires t.workers == s.workers[w := t.workers[w]]
    requires t.workers[w].name == s.workers[w].name && Part(t.workers[w]) == Part(s.workers[w])
    requires t.taken == s.taken && t.channel == s.channel && t.cancelled == s.cancelled
    requires ValidWorker(t.workers[w], size) && Whole(t.workers[w], t.torn)
    requires s.torn <= t.torn && (t.torn != {} ==> t.cancelled)
    ensures Pipeline(t, size)
  {
    hide OfApp, Sent, Chunks, Admission, ValidWorker, Part;
    PipedSame(s, t);
  }

  lemma PipedMove(s: State, step: Step, size: nat)
    requires size > 0 && Pipeline(s, size) && Enabled(s, step) && Fitting(step, size)
    requires step.Fetched? || step.Finish? || step.Abort? || step.Cleanup?
    ensures Pipeline(Apply(s, step, size), size)
  {
    hide OfApp, Sent, Chunks, Piped;
    AdmissionStep(s, step, size);
    hide Admission;
    PipedWorker(s, Apply(s, step, size), step.worker, size);
  }

  lemma PipedOutside(s: State, step: Step, size: nat)
    requires size > 0 && Pipeline(s, size) && Enabled(s, step) && (step.Request? || step.CancelAll?)
    ensures Pipeline(Apply(s, step, size), size)
  {
    hide OfApp, Sent, Chunks;
    AdmissionStep(s, step, size);
    hide Admission;
    PipedSame(s, Apply(s, step, size));
  }

  lemma PipelineStep(s: State, step: Step, size: nat)
    requires size > 0 && Pipeline(s, size) && Enabled(s, step) && Fitting(step, size)
    ensures Pipeline(Apply(s, step, size), size)
  {
    hide Pipeline, AdmitNext, EnqueueFrom, StreamNext;
    match step
    case Admit => PipedAdmit(s, size);
    case Enqueue(w) => PipedEnqueue(s, w, size);
    case Stream(ok) => PipedStream(s, ok, size);
    case Request(_) => PipedOutside(s, step, size);
    case CancelAll => PipedOutside(s, step, size);
    case _ => PipedMove(s, step, size);
  }

  // Order within a container, and the streamer's count.

  /** The index after a chunk: the next one of its run, or the start of another run. */
  function NextIdx(c: Chunk): nat {
    if c.idx + 1 == c.total then 0 else c.idx + 1
  }

  function Progress(chunks: seq<Chunk>): nat {
    if chunks == [] then 0 else NextIdx(chunks[|chunks| - 1])
  }

  /** Runs 0, 1, .., total - 1 one after the other; the last may be unfinished. */
  ghost predicate InOrder(chunks: seq<Chunk>) {
    && (forall k :: 0 <= k < |chunks| ==> chunks[k].idx < chunks[k].total)
    && (chunks != [] ==> chunks[0].idx == 0)
    && (forall k {:trigger chunks[k].idx} :: 1 <= k < |chunks| ==>
          && chunks[k].idx == NextIdx(chunks[k - 1])
          && (chunks[k].idx > 0 ==> chunks[k].total == chunks[k - 1].total))
  }

  lemma InOrderJoin(a: seq<Chunk>, b: seq<Chunk>)
    requires InOrder(a) && InOrder(b) && Progress(a) == 0
    ensures InOrder(a + b)
    ensures Progress(b) == 0 ==> Progress(a + b) == 0
  {
  }

  lemma InOrderPrefix(a: seq<Chunk>, b: seq<Chunk>)
    requires a <= b && InOrder(b)
    ensures InOrder(a)
    ensures |a| < |b| ==> b[|a|].idx == Progress(a)
  {
    assert forall k :: 0 <= k < |a| ==> a[k] == b[k];
  }

  lemma PartInOrder(worker: Worker, size: nat)
    requires size > 0 && ValidWorker(worker, size)
    ensures InOrder(Part(worker))
    ensures worker.sent == |worker.chunks| ==> Progress(Part(worker)) == 0
  {
  }

  lemma {:induction false} SentInOrder(workers: seq<Worker>, name: string, torn: set<string>, size: nat)
    requires size > 0 && OneAtATime(workers) && name !in torn
    requires forall i :: 0 <= i < |workers| ==> ValidWorker(workers[i], size) && Whole(workers[i], torn)
    ensures InOrder(Sent(workers, name))
    ensures (forall i :: 0 <= i < |workers| && workers[i].name == name ==> workers[i].sent == |workers[i].chunks|) ==>
              Progress(Sent(workers, name)) == 0
  {
    hide ValidWorker, InOrder;
    if workers == [] {
      EmptyInOrder();
    } else {
      var n := |workers| - 1;
      var before, last := workers[..n], workers[n];
      SentInOrder(before, name, torn, size);
      if last.name == name {
        forall i | 0 <= i < n && workers[i].name == name
          ensures before[i].sent == |before[i].chunks|
        {
          assert !Live(workers[i]);
          assert Whole(workers[i], torn);
        }
        PartInOrder(last, size);
        InOrderJoin(Sent(before, name), Part(last));
      } else {
        assert Sent(workers, name) == Sent(before, name);
        assert forall i :: 0 <= i < n ==> workers[i] == before[i];
      }
    }
  }

  lemma EmptyInOrder()
    ensures InOrder([])
  {
  }

  /** The chunks that complete a run. */
  function Lasts(chunks: seq<Chunk>): seq<Chunk> {
    if chunks == [] then []
    else
      var last := chunks[|chunks| - 1];
      Lasts(chunks[..|chunks| - 1]) + if last.idx + 1 == last.total then [last] else []
  }

  lemma LastsSnoc(chunks: seq<Chunk>, c: Chunk)
    ensures Lasts(chunks + [c]) == Lasts(chunks) + if c.idx + 1 == c.total then [c] else []
  {
    assert (chunks + [c])[..|chunks|] == chunks;
  }

  lemma {:induction false} LastsJoin(a: seq<Chunk>, b: seq<Chunk>)
    ensures Lasts(a + b) == Lasts(a) + Lasts(b)
  {
    if b == [] {
      assert a + b == a;
    } else {
      var n := |b| - 1;
      LastsJoin(a, b[..n]);
      assert a + b == a + b[..n] + [b[n]] && b == b[..n] + [b[n]];
      LastsSnoc(a + b[..n], b[n]);
      LastsSnoc(b[..n], b[n]);
      hide Lasts;
    }
  }

  /** As long as every chunk of a container went out, the count is the position in its current run. */
  ghost predicate Counted(s: State, name: string) {
    name !in s.unpublished && name !in s.torn ==>
      && CountOf(s.counts, name) == Progress(OfApp(s.taken, name))
      && OfApp(s.reported, name) == Lasts(OfApp(s.taken, name))
  }

  ghost predicate Inv(s: State, size: nat)
    requires size > 0
  {
    Pipeline(s, size) && forall name :: Counted(s, name)
  }

  /** The next chunk of an undisturbed container is the one the count expects. */
  lemma NextExpected(s: State, size: nat)
    requires size > 0 && Pipeline(s, size) && s.channel != [] && s.channel[0].app !in s.torn
    ensures var c := s.channel[0];
            c.idx < c.total && c.idx == Progress(OfApp(s.taken, c.app))
  {
    var c := s.channel[0];
    var sofar := OfApp(s.taken, c.app);
    OfAppSnoc(s.taken, c, c.app);
    OfAppPrefix(s.taken + [c], s.channel[1..], c.app);
    assert s.taken + [c] + s.channel[1..] == s.taken + s.channel;
    assert Piped(s, c.app);
    SentInOrder(s.workers, c.app, s.torn, size);
    var all := OfApp(s.taken + s.channel, c.app);
    assert sofar + [c] <= all;
    assert all[|sofar|] == (sofar + [c])[|sofar|];
    InOrderPrefix(sofar, all);
  }

  lemma CountedStream(s: State, ok: bool, size: nat, name: string)
    requires size > 0 && Pipeline(s, size) && s.channel != [] && Counted(s, name)
    ensures Counted(StreamNext(s, ok), name)
  {
    hide Pipeline, OfApp, Lasts;
    var c := s.channel[0];
    OfAppSnoc(s.taken, c, name);
    OfAppSnoc(s.reported, c, name);
    if c.app == name && name !in s.torn {
      NextExpected(s, size);
      LastsSnoc(OfApp(s.taken, name), c);
    } else {
      assert OfApp(s.taken, name) + [] == OfApp(s.taken, name);
      assert OfApp(s.reported, name) + [] == OfApp(s.reported, name);
    }
  }

  lemma InvStep(s: State, step: Step, size: nat)
    requires size > 0 && Inv(s, size) && Enabled(s, step) && Fitting(step, size)
    ensures Inv(Apply(s, step, size), size)
  {
    hide Pipeline, OfApp, Lasts, Progress;
    PipelineStep(s, step, size);
    var t := Apply(s, step, size);
    forall name
      ensures Counted(t, name)
    {
      assert Counted(s, name);
      if step.Stream? {
        CountedStream(s, step.ok, size, name);
      }
    }
  }

  ghost predicate IsRun(run: seq<State>, steps: seq<Step>, size: nat)
    requires size > 0
  {
    && |run| == |steps| + 1
    && run[0] == START
    && forall i :: 0 <= i < |steps| ==>
         && Enabled(run[i], steps[i]) && Fitting(steps[i], size)
         && run[i + 1] == Apply(run[i], steps[i], size)
  }

  lemma {:induction false} RunKeepsInv(run: seq<State>, steps: seq<Step>, size: nat, i: nat)
    requires size > 0 && IsRun(run, steps, size) && i < |run|
    ensures Inv(run[i], size)
  {
    if i > 0 {
      RunKeepsInv(run, steps, size, i - 1);
      InvStep(run[i - 1], steps[i - 1], size);
    }
  }

  /** In every run, the counter is the number of containers being fetched, at most fifty, none of them twice. */
  lemma FetchesBounded(run: seq<State>, steps: seq<Step>, size: nat, i: nat)
    requires size > 0 && IsRun(run, steps, size) && i < |run|
    ensures run[i].active == |run[i].fetching| <= 50
    ensures forall v, w :: 0 <= v < w < |run[i].workers| && Live(run[i].workers[v]) && Live(run[i].workers[w]) ==>
              run[i].workers[v].name != run[i].workers[w].name
    ensures forall w :: 0 <= w < |run[i].workers| && Live(run[i].workers[w]) ==>
              run[i].workers[w].name in run[i].fetching
  {
    RunKeepsInv(run, steps, size, i);
  }

  /**
   * In every run, what the streamer has taken of a container is a prefix of what its workers sent, one
   * after the other. Every worker that is through sent all chunks of its data, and the chunks rebuild the
   * data, unless the proxy was cancelled.
   */
  lemma RunsAreComplete(run: seq<State>, steps: seq<Step>, size: nat, i: nat, name: string)
    requires size > 0 && IsRun(run, steps, size) && i < |run|
    ensures OfApp(run[i].taken, name) <= Sent(run[i].workers, name)
    ensures name !in run[i].torn ==> InOrder(OfApp(run[i].taken, name))
    ensures forall w :: 0 <= w < |run[i].workers| && run[i].workers[w].name == name && !Live(run[i].workers[w]) ==>
              Part(run[i].workers[w]) == run[i].workers[w].chunks || name in run[i].torn
    ensures forall w :: 0 <= w < |run[i].workers| ==> Joined(run[i].workers[w].chunks) == run[i].workers[w].data
  {
    hide Pipeline, OfApp, Sent, InOrder, Chunks, Joined;
    RunKeepsInv(run, steps, size, i);
    TakenInOrder(run[i], size, name);
    WorkersWhole(run[i], size, name);
  }

  lemma TakenInOrder(s: State, size: nat, name: string)
    requires size > 0 && Pipeline(s, size)
    ensures OfApp(s.taken, name) <= Sent(s.workers, name)
    ensures name !in s.torn ==> InOrder(OfApp(s.taken, name))
  {
    hide OfApp, Sent, InOrder, ValidWorker, Whole;
    assert Piped(s, name);
    OfAppPrefix(s.taken, s.channel, name);
    if name !in s.torn {
      SentInOrder(s.workers, name, s.torn, size);
      InOrderPrefix(OfApp(s.taken, name), Sent(s.workers, name));
    }
  }

  lemma WorkersWhole(s: State, size: nat, name: string)
    requires size > 0 && Pipeline(s, size)
    ensures forall w :: 0 <= w < |s.workers| && s.workers[w].name == name && !Live(s.workers[w]) ==>
              Part(s.workers[w]) == s.workers[w].chunks || name in s.torn
    ensures forall w :: 0 <= w < |s.workers| ==> Joined(s.workers[w].chunks) == s.workers[w].data
  {
    hide Piped, Admission, Chunks, Joined;
    forall w | 0 <= w < |s.workers|
      ensures Joined(s.workers[w].chunks) == s.workers[w].data
    {
      assert ValidWorker(s.workers[w], size);
      ChunksRebuild(s.workers[w].data, s.workers[w].name, size);
    }
  }

  /** Before it is cancelled, the proxy tears no run. */
  lemma TornOnlyByCancel(run: seq<State>, steps: seq<Step>, size: nat, i: nat)
    requires size > 0 && IsRun(run, steps, size) && i < |run| && !run[i].cancelled
    ensures run[i].torn == {}
  {
    RunKeepsInv(run, steps, size, i);
  }

  /** The completed, non-empty runs for a container. */
  function Completed(workers: seq<Worker>, name: string): nat {
    if workers == [] then 0
    else
      var last := workers[|workers| - 1];
      Completed(workers[..|workers| - 1], name)
      + if last.name == name && last.chunks != [] && last.sent == |last.chunks| then 1 else 0
  }

  lemma {:induction false} LastsOfRun(chunks: seq<Chunk>, sent: nat)
    requires sent <= |chunks|
    requires forall k :: 0 <= k < |chunks| ==> chunks[k].idx == k && chunks[k].total == |chunks|
    ensures |Lasts(chunks[..sent])| == if sent == |chunks| && sent > 0 then 1 else 0
  {
    if sent > 0 {
      LastsOfRun(chunks, sent - 1);
      assert chunks[..sent][..sent - 1] == chunks[..sent - 1];
    }
  }

  lemma LastsOfPart(worker: Worker, size: nat)
    requires size > 0 && ValidWorker(worker, size)
    ensures |Lasts(Part(worker))| == if worker.chunks != [] && worker.sent == |worker.chunks| then 1 else 0
  {
    LastsOfRun(worker.chunks, worker.sent);
  }

  lemma {:induction false} LastsPerRun(workers: seq<Worker>, name: string, size: nat)
    requires size > 0 && forall i :: 0 <= i < |workers| ==> ValidWorker(workers[i], size)
    ensures |Lasts(Sent(workers, name))| == Completed(workers, name)
  {
    if workers != [] {
      var n := |workers| - 1;
      var before, last := workers[..n], workers[n];
      LastsPerRun(before, name, size);
      hide ValidWorker, Lasts, Part;
      if last.name == name {
        assert ValidWorker(last, size);
        LastsJoin(Sent(before, name), Part(last));
        LastsOfPart(last, size);
      } else {
        assert Sent(workers, name) == Sent(before, name);
      }
    }
  }

  /**
   * In every run, a container whose chunks all went out is reported complete at the last chunk of each of
   * its runs and nowhere else; once its chunks are all taken, there is one report for every completed run.
   */
  lemma OneReportPerRun(run: seq<State>, steps: seq<Step>, size: nat, i: nat, name: string)
    requires size > 0 && IsRun(run, steps, size) && i < |run|
    requires name !in run[i].torn && name !in run[i].unpublished
    ensures OfApp(run[i].reported, name) == Lasts(OfApp(run[i].taken, name))
    ensures OfApp(run[i].channel, name) == [] ==>
              |OfApp(run[i].reported, name)| == Completed(run[i].workers, name)
  {
    RunKeepsInv(run, steps, size, i);
    var s := run[i];
    assert Counted(s, name) && Piped(s, name);
    if OfApp(s.channel, name) == [] {
      OfAppNothing(s.taken, s.channel, name);
      LastsPerRun(s.workers, name, size);
    }
  }

  lemma {:induction false} OfAppNothing(a: seq<Chunk>, b: seq<Chunk>, name: string)
    requires OfApp(b, name) == []
    ensures OfApp(a + b, name) == OfApp(a, name)
  {
    if b == [] {
      assert a + b == a;
    } else {
      var n := |b| - 1;
      OfAppNothing(a, b[..n], name);
      assert a + b == a + b[..n] + [b[n]];
      OfAppSnoc(a + b[..n], b[n], name);
    }
  }
}
