/** The resumable multi-stage runner (`run_shuffle_resumable` of python/graphed/checkpoint/runner.py). */
module ShuffleResume {
  import opened Collections
  import opened Checkpoint
  import Resume

  /** A stage's tasks run over the payloads of earlier stages. */
  datatype Stage<!T> = Stage(tasks: seq<T>, inputs: seq<nat>, process: (T, seq<Blob>) -> Blob)

  datatype Plan<!T> = Plan(stages: seq<Stage<T>>, taskId: (nat, T) -> TaskId, listing: seq<Digest> -> Blob)

  predicate Staged<T>(plan: Plan<T>) {
    forall s :: 0 <= s < |plan.stages| ==> Below(plan.stages[s].inputs, s)
  }

  /** Ids name the stage and the task, and digests do not collide. */
  ghost predicate Sound<T>(hash: Hashing, plan: Plan<T>) {
    && CollisionFree(hash) && Staged(plan)
    && forall s, r, i, j :: (0 <= s < |plan.stages| && 0 <= r < |plan.stages|
         && 0 <= i < |plan.stages[s].tasks| && 0 <= j < |plan.stages[r].tasks|
         && plan.taskId(s, plan.stages[s].tasks[i]) == plan.taskId(r, plan.stages[r].tasks[j])) ==>
         s == r && plan.stages[s].tasks[i] == plan.stages[r].tasks[j]
  }

  // ---- the uninterrupted run, without a store ---------------------------------------------------

  function Flattened<A>(xss: seq<seq<A>>, idx: seq<nat>): seq<A>
    requires Below(idx, |xss|)
  {
    if idx == [] then [] else Flattened(xss, idx[..|idx| - 1]) + xss[idx[|idx| - 1]]
  }

  /** The payloads of every block of the first `s` stages. */
  function Payloads<T>(plan: Plan<T>, s: nat): (r: seq<seq<Blob>>)
    requires Staged(plan) && s <= |plan.stages|
    ensures |r| == s
    ensures forall k :: 0 <= k < s ==> |r[k]| == |plan.stages[k].tasks|
  {
    if s == 0 then []
    else
      var before := Payloads(plan, s - 1);
      var stage := plan.stages[s - 1];
      assert Below(stage.inputs, s - 1);
      before + [StagePayloads(stage, Flattened(before, stage.inputs))]
  }

  function StagePayloads<T>(stage: Stage<T>, upstream: seq<Blob>): (r: seq<Blob>)
    ensures |r| == |stage.tasks|
  {
    seq(|stage.tasks|, i requires 0 <= i < |stage.tasks| => stage.process(stage.tasks[i], upstream))
  }

  function Digests(hash: Hashing, blobs: seq<Blob>): (r: seq<Digest>)
    ensures |r| == |blobs|
  {
    Map(hash, blobs)
  }

  function AllDigests(hash: Hashing, payloads: seq<seq<Blob>>): (r: seq<seq<Digest>>)
    ensures |r| == |payloads|
    ensures forall k :: 0 <= k < |r| ==> r[k] == Digests(hash, payloads[k])
  {
    seq(|payloads|, k requires 0 <= k < |payloads| => Digests(hash, payloads[k]))
  }

  lemma {:induction false} PayloadsPrefix<T>(plan: Plan<T>, s: nat, r: nat)
    requires Staged(plan) && s <= r <= |plan.stages|
    ensures Payloads(plan, s) == Payloads(plan, r)[..s]
    decreases r
  {
    if s < r {
      PayloadsPrefix(plan, s, r - 1);
    }
  }

  // ---- a run against a store --------------------------------------------------------------------

  /** The stage being run: its blocks so far, and whether its upstream listing is stored. */
  datatype Block = Block(payloads: seq<Blob>, digests: seq<Digest>, listed: bool)

  /** A run so far; `ran` lists the executed tasks, each by its stage and its place there. */
  datatype Run = Run(disk: Disk, bad: set<Digest>, executed: nat, skipped: nat, past: seq<Disk>, ran: seq<(nat, nat)>)

  function Put(hash: Hashing, run: Run, data: Blob): Run {
    var disk := AfterPut(hash, run.disk, run.bad, data);
    run.(disk := disk, past := run.past + [disk],
         bad := if Rewrites(hash, run.disk, run.bad, data) then run.bad - {hash(data)} else run.bad)
  }

  function Record(run: Run, at: (nat, nat), e: Entry): Run {
    run.(disk := run.disk.(journal := Appended(run.disk.journal, e)),
         past := run.past + OnDiskWith(run.disk, Appending(run.disk.journal, e)),
         executed := run.executed + 1, ran := run.ran + [at])
  }

  /** One task: its stored block, or its process's, committed with the stage's listing if it is the
      stage's first. */
  function Step(hash: Hashing, completed: map<TaskId, Digest>, at: (nat, nat), task: TaskId, payload: Blob,
                listing: Option<Blob>, run: Run, block: Block): (r: (Run, Block))
  {
    match Resume.StoredPartial(hash, run.disk, completed, task)
    case Some(data) => (run.(skipped := run.skipped + 1), block.(payloads := block.payloads + [data], digests := block.digests + [completed[task]]))
    case None =>
      var looked := run.(bad := Resume.BadAfterLookup(hash, run.disk, run.bad, completed, task));
      var put := Put(hash, looked, payload);
      var listed := if block.listed || listing.None? then put else Put(hash, put, listing.value);
      (Record(listed, at, Entry(task, hash(payload))), Block(block.payloads + [payload], block.digests + [hash(payload)], true))
  }

  function Listing<T>(plan: Plan<T>, upstream: seq<Digest>): Option<Blob> {
    if upstream == [] then None else Some(plan.listing(upstream))
  }

  /** The first `k` tasks of stage `s`. */
  function AfterTasks<T>(hash: Hashing, plan: Plan<T>, completed: map<TaskId, Digest>, s: nat, upstream: seq<Blob>,
                         digests: seq<Digest>, run: Run, k: nat): (r: (Run, Block))
    requires s < |plan.stages| && k <= |plan.stages[s].tasks|
  {
    if k == 0 then (run, Block([], [], false))
    else
      var (before, block) := AfterTasks(hash, plan, completed, s, upstream, digests, run, k - 1);
      var t := plan.stages[s].tasks[k - 1];
      Step(hash, completed, (s, k - 1), plan.taskId(s, t), plan.stages[s].process(t, upstream), Listing(plan, digests), before, block)
  }

  /** A run and the payloads and digests of the stages it finished. */
  datatype Progress = Progress(run: Run, payloads: seq<seq<Blob>>, digests: seq<seq<Digest>>)

  function AfterStages<T>(hash: Hashing, plan: Plan<T>, completed: map<TaskId, Digest>, start: Run, s: nat): (r: Progress)
    requires Staged(plan) && s <= |plan.stages|
    ensures |r.payloads| == |r.digests| == s
  {
    if s == 0 then Progress(start, [], [])
    else
      var before := AfterStages(hash, plan, completed, start, s - 1);
      var stage := plan.stages[s - 1];
      assert Below(stage.inputs, s - 1);
      var (run, block) := AfterTasks(hash, plan, completed, s - 1, Flattened(before.payloads, stage.inputs),
                                     Flattened(before.digests, stage.inputs), before.run, |stage.tasks|);
      Progress(run, before.payloads + [block.payloads], before.digests + [block.digests])
  }

  function WholeRun<T>(hash: Hashing, plan: Plan<T>, disk: Disk): Progress
    requires Staged(plan)
  {
    AfterStages(hash, plan, Replayed(disk, |disk.journal|), Run(disk, {}, 0, 0, [], []), |plan.stages|)
  }

  /** The two phases' loops; the value is the last stage's digests. */
  method RunShuffleResumable<T>(plan: Plan<T>, store: CheckpointStore)
    returns (value: seq<Digest>, executed: nat, skipped: nat, ghost ran: seq<(nat, nat)>)
    requires Staged(plan) && plan.stages != []
    modifies store
    ensures var completed := Replayed(old(store.OnDisk()), |old(store.journal)|);
      var p := AfterStages(store.hash, plan, completed, Run(old(store.OnDisk()), old(store.bad), 0, 0, old(store.past), []), |plan.stages|);
      && value == p.digests[|plan.stages| - 1]
      && Run(store.OnDisk(), store.bad, executed, skipped, store.past, ran) == p.run
  {
    hide Replayed, AfterTasks;
    var completed := store.Completed();
    ghost var start := Run(store.OnDisk(), store.bad, 0, 0, store.past, []);
    var payloads: seq<seq<Blob>>, digests: seq<seq<Digest>> := [], [];
    executed, skipped, ran := 0, 0, [];
    for s := 0 to |plan.stages|
      invariant |payloads| == |digests| == s
      invariant Progress(Run(store.OnDisk(), store.bad, executed, skipped, store.past, ran), payloads, digests)
             == AfterStages(store.hash, plan, completed, start, s)
    {
      assert Below(plan.stages[s].inputs, s);
      var block;
      block, executed, skipped, ran := RunStage(plan, store, completed, s, Flattened(payloads, plan.stages[s].inputs),
                                                Flattened(digests, plan.stages[s].inputs), executed, skipped, ran);
      payloads, digests := payloads + [block.payloads], digests + [block.digests];
    }
    value := digests[|plan.stages| - 1];
  }

  method RunStage<T>(plan: Plan<T>, store: CheckpointStore, completed: map<TaskId, Digest>, s: nat, upstream: seq<Blob>,
                     digests: seq<Digest>, executed0: nat, skipped0: nat, ghost ran0: seq<(nat, nat)>)
    returns (block: Block, executed: nat, skipped: nat, ghost ran: seq<(nat, nat)>)
    requires s < |plan.stages|
    modifies store
    ensures (Run(store.OnDisk(), store.bad, executed, skipped, store.past, ran), block)
         == AfterTasks(store.hash, plan, completed, s, upstream, digests,
                       Run(old(store.OnDisk()), old(store.bad), executed0, skipped0, old(store.past), ran0), |plan.stages[s].tasks|)
  {
    hide Step;
    block, executed, skipped, ran := Block([], [], false), executed0, skipped0, ran0;
    ghost var start := Run(store.OnDisk(), store.bad, executed0, skipped0, store.past, ran0);
    for k := 0 to |plan.stages[s].tasks|
      invariant (Run(store.OnDisk(), store.bad, executed, skipped, store.past, ran), block)
             == AfterTasks(store.hash, plan, completed, s, upstream, digests, start, k)
    {
      var t := plan.stages[s].tasks[k];
      block, executed, skipped, ran := RunTask(plan, store, completed, (s, k), plan.taskId(s, t), plan.stages[s].process, t, upstream, digests, block,
                                               executed, skipped, ran);
    }
  }

  method RunTask<T>(plan: Plan<T>, store: CheckpointStore, completed: map<TaskId, Digest>, ghost at: (nat, nat), task: TaskId,
                    process: (T, seq<Blob>) -> Blob, t: T, upstream: seq<Blob>, digests: seq<Digest>, block0: Block,
                    executed0: nat, skipped0: nat, ghost ran0: seq<(nat, nat)>)
    returns (block: Block, executed: nat, skipped: nat, ghost ran: seq<(nat, nat)>)
    modifies store
    ensures (Run(store.OnDisk(), store.bad, executed, skipped, store.past, ran), block)
         == Step(store.hash, completed, at, task, process(t, upstream), Listing(plan, digests),
                 Run(old(store.OnDisk()), old(store.bad), executed0, skipped0, old(store.past), ran0), block0)
  {
    block, executed, skipped, ran := block0, executed0, skipped0, ran0;
    if task in completed {
      var data := store.Get(completed[task]);
      if data.Some? {
        block := block.(payloads := block.payloads + [data.value], digests := block.digests + [completed[task]]);
        skipped := skipped + 1;
        return;
      }
    }
    var payload := process(t, upstream);
    var digest := store.Put(payload);
    if !block.listed && digests != [] {
      var _ := store.Put(plan.listing(digests));
    }
    store.RecordDone(task, digest);
    block := Block(block.payloads + [payload], block.digests + [digest], true);
    executed := executed + 1;
    ran := ran + [at];
  }

  // ---- blobs before records ---------------------------------------------------------------------

  /** The disk and every disk passed have the blobs their records name. */
  ghost predicate AllPresent(run: Run) {
    BlobsPresent(run.disk) && forall n :: 0 <= n < |run.past| ==> BlobsPresent(run.past[n])
  }

  lemma PutIsPresent(hash: Hashing, run: Run, data: Blob)
    requires AllPresent(run)
    ensures AllPresent(Put(hash, run, data)) && hash(data) in Put(hash, run, data).disk.blobs
    ensures forall d :: d in run.disk.blobs ==> d in Put(hash, run, data).disk.blobs
  {
    hide BlobsPresent;
    PutKeepsPresent(hash, run.disk, run.bad, data);
  }

  lemma {:induction false} StepKeepsPresent(hash: Hashing, completed: map<TaskId, Digest>, at: (nat, nat), task: TaskId, payload: Blob,
                                            listing: Option<Blob>, run: Run, block: Block)
    requires AllPresent(run)
    ensures AllPresent(Step(hash, completed, at, task, payload, listing, run, block).0)
  {
    hide BlobsPresent, Put, Appended, Appending;
    if Resume.StoredPartial(hash, run.disk, completed, task).None? {
      var looked := run.(bad := Resume.BadAfterLookup(hash, run.disk, run.bad, completed, task));
      PutIsPresent(hash, looked, payload);
      var put := Put(hash, looked, payload);
      if listing.Some? { PutIsPresent(hash, put, listing.value); }
      var listed := if block.listed || listing.None? then put else Put(hash, put, listing.value);
      AppendKeepsPresent(listed.disk, Entry(task, hash(payload)));
    }
  }

  lemma {:induction false} TasksKeepPresent<T>(hash: Hashing, plan: Plan<T>, completed: map<TaskId, Digest>, s: nat, upstream: seq<Blob>,
                                               digests: seq<Digest>, run: Run, k: nat)
    requires s < |plan.stages| && k <= |plan.stages[s].tasks| && AllPresent(run)
    ensures AllPresent(AfterTasks(hash, plan, completed, s, upstream, digests, run, k).0)
  {
    hide AllPresent, Step;
    if k > 0 {
      TasksKeepPresent(hash, plan, completed, s, upstream, digests, run, k - 1);
      var (before, block) := AfterTasks(hash, plan, completed, s, upstream, digests, run, k - 1);
      var t := plan.stages[s].tasks[k - 1];
      StepKeepsPresent(hash, completed, (s, k - 1), plan.taskId(s, t), plan.stages[s].process(t, upstream), Listing(plan, digests), before, block);
    }
  }

  /** A block and its listing are stored before the block is journaled: wherever a shuffle is cut short, each record on
      the disk has its blob. */
  lemma {:induction false} BlobsComeFirst<T>(hash: Hashing, plan: Plan<T>, completed: map<TaskId, Digest>, start: Run, s: nat)
    requires Staged(plan) && s <= |plan.stages| && AllPresent(start)
    ensures AllPresent(AfterStages(hash, plan, completed, start, s).run)
  {
    hide AllPresent, AfterTasks;
    if s > 0 {
      BlobsComeFirst(hash, plan, completed, start, s - 1);
      var before := AfterStages(hash, plan, completed, start, s - 1);
      var stage := plan.stages[s - 1];
      assert Below(stage.inputs, s - 1);
      TasksKeepPresent(hash, plan, completed, s - 1, Flattened(before.payloads, stage.inputs), Flattened(before.digests, stage.inputs),
                       before.run, |stage.tasks|);
    }
  }

  // ---- what a task receives ---------------------------------------------------------------------

  /** A stage receives the blocks of its input stages, one input stage after the other, each in task order. */
  lemma {:induction false} FlattenedIsConcat<A>(xss: seq<seq<A>>, idx: seq<nat>)
    requires Below(idx, |xss|)
    ensures Flattened(xss, idx) == Concat(Gather(xss, idx))
  {
    if idx != [] {
      var m := |idx| - 1;
      FlattenedIsConcat(xss, idx[..m]);
      assert Gather(xss, idx)[..m] == Gather(xss, idx[..m]);
    }
  }

  /** So block `j` of the `k`-th input stage stands after all the blocks of the input stages before it. */
  lemma {:induction false} ReceivedAt<A>(xss: seq<seq<A>>, idx: seq<nat>, k: nat, j: nat)
    requires Below(idx, |xss|) && k < |idx| && j < |xss[idx[k]]|
    ensures var at := |Concat(Gather(xss, idx[..k]))| + j;
      at < |Flattened(xss, idx)| && Flattened(xss, idx)[at] == xss[idx[k]][j]
  {
    FlattenedIsConcat(xss, idx);
    ConcatAt(Gather(xss, idx), k, j);
    assert Gather(xss, idx)[..k] == Gather(xss, idx[..k]);
  }

  /** Every block is what its stage's process makes of its task and those blocks. */
  lemma {:induction false} BlocksAreProcessed<T>(plan: Plan<T>, n: nat, s: nat, i: nat)
    requires Staged(plan) && s < n <= |plan.stages| && i < |plan.stages[s].tasks|
    ensures var stage := plan.stages[s]; var blocks := Payloads(plan, n);
      && Below(stage.inputs, s)
      && blocks[s][i] == stage.process(stage.tasks[i], Concat(Gather(blocks, stage.inputs)))
  {
    var stage := plan.stages[s];
    var blocks := Payloads(plan, n);
    assert Below(stage.inputs, s);
    PayloadsPrefix(plan, s, n);
    PayloadsPrefix(plan, s + 1, n);
    assert blocks[..s + 1][s] == blocks[s];
    OwnIsProcessed(plan, s, i);
    FlattenedIsConcat(Payloads(plan, s), stage.inputs);
    assert Gather(Payloads(plan, s), stage.inputs) == Gather(blocks, stage.inputs);
  }

  /** Which leaves one choice of blocks. */
  lemma {:induction false} BlocksUnique<T>(plan: Plan<T>, n: nat, blocks: seq<seq<Blob>>)
    requires Staged(plan) && |blocks| == n <= |plan.stages|
    requires forall s :: 0 <= s < n ==> |blocks[s]| == |plan.stages[s].tasks| && Below(plan.stages[s].inputs, s)
    requires forall s, i :: 0 <= s < n && 0 <= i < |blocks[s]| ==>
      blocks[s][i] == plan.stages[s].process(plan.stages[s].tasks[i], Concat(Gather(blocks, plan.stages[s].inputs)))
    ensures blocks == Payloads(plan, n)
  {
    if n > 0 {
      var m := n - 1;
      var stage := plan.stages[m];
      forall s | 0 <= s < m ensures Gather(blocks[..m], plan.stages[s].inputs) == Gather(blocks, plan.stages[s].inputs) {
      }
      BlocksUnique(plan, m, blocks[..m]);
      assert Gather(blocks[..m], stage.inputs) == Gather(blocks, stage.inputs);
      FlattenedIsConcat(blocks[..m], stage.inputs);
      assert blocks[m] == StagePayloads(stage, Flattened(blocks[..m], stage.inputs));
      assert blocks == blocks[..m] + [blocks[m]];
    }
  }

  // ---- resume equals uninterrupted --------------------------------------------------------------

  /** Every readable record of one of the plan's tasks names that task's own block. */
  ghost predicate Honest<T>(hash: Hashing, plan: Plan<T>, disk: Disk)
    requires Staged(plan)
  {
    forall k, s, i :: 0 <= k < |disk.journal| && 0 <= s < |plan.stages| && 0 <= i < |plan.stages[s].tasks| ==>
      HonestAt(hash, plan, disk.journal[k], s, i)
  }

  ghost predicate HonestAt<T>(hash: Hashing, plan: Plan<T>, line: Line, s: nat, i: nat)
    requires Staged(plan) && s < |plan.stages| && i < |plan.stages[s].tasks|
  {
    match Readable(line)
    case None => true
    case Some(e) => e.task == plan.taskId(s, plan.stages[s].tasks[i]) ==> e.blob == hash(Own(plan, s, i))
  }

  /** The block task `i` of stage `s` makes. */
  function Own<T>(plan: Plan<T>, s: nat, i: nat): Blob
    requires Staged(plan) && s < |plan.stages| && i < |plan.stages[s].tasks|
  {
    Payloads(plan, s + 1)[s][i]
  }

  lemma OwnIsProcessed<T>(plan: Plan<T>, s: nat, i: nat)
    requires Staged(plan) && s < |plan.stages| && i < |plan.stages[s].tasks|
    ensures Below(plan.stages[s].inputs, s)
    ensures Own(plan, s, i) == plan.stages[s].process(plan.stages[s].tasks[i], Flattened(Payloads(plan, s), plan.stages[s].inputs))
  {
  }

  lemma {:induction false} ReplayIsHonest<T>(hash: Hashing, plan: Plan<T>, disk: Disk, n: nat, s: nat, i: nat)
    requires Staged(plan) && Honest(hash, plan, disk) && n <= |disk.journal| && s < |plan.stages| && i < |plan.stages[s].tasks|
    ensures var task := plan.taskId(s, plan.stages[s].tasks[i]);
      task in Replayed(disk, n) ==> Replayed(disk, n)[task] == hash(Own(plan, s, i))
  {
    if n > 0 {
      ReplayIsHonest(hash, plan, disk, n - 1, s, i);
      assert HonestAt(hash, plan, disk.journal[n - 1], s, i);
    }
  }

  /** A stored block is the task's own block. */
  lemma {:induction false} StoredIsOwn<T>(hash: Hashing, plan: Plan<T>, from: Disk, disk: Disk, s: nat, i: nat)
    requires Sound(hash, plan) && Honest(hash, plan, from) && s < |plan.stages| && i < |plan.stages[s].tasks|
    requires Resume.StoredPartial(hash, disk, Replayed(from, |from.journal|), plan.taskId(s, plan.stages[s].tasks[i])).Some?
    ensures var task := plan.taskId(s, plan.stages[s].tasks[i]); var completed := Replayed(from, |from.journal|);
      task in completed && completed[task] == hash(Own(plan, s, i))
      && Resume.StoredPartial(hash, disk, completed, task) == Some(Own(plan, s, i))
  {
    ReplayIsHonest(hash, plan, from, |from.journal|, s, i);
    var data := Resume.StoredPartial(hash, disk, Replayed(from, |from.journal|), plan.taskId(s, plan.stages[s].tasks[i])).value;
    assert hash(data) == hash(Own(plan, s, i));
  }

  /** The disk and every disk passed are honest. */
  ghost predicate AllHonest<T>(hash: Hashing, plan: Plan<T>, run: Run)
    requires Staged(plan)
  {
    Honest(hash, plan, run.disk) && forall n :: 0 <= n < |run.past| ==> Honest(hash, plan, run.past[n])
  }

  lemma PutStaysHonest<T>(hash: Hashing, plan: Plan<T>, run: Run, data: Blob)
    requires Staged(plan) && AllHonest(hash, plan, run)
    ensures AllHonest(hash, plan, Put(hash, run, data))
  {
    BlobsStayHonest(hash, plan, run.disk, AfterPut(hash, run.disk, run.bad, data).blobs);
  }

  /** Honesty is about the journal: losing or corrupting any blobs keeps it. */
  lemma BlobsStayHonest<T>(hash: Hashing, plan: Plan<T>, disk: Disk, blobs: map<Digest, Blob>)
    requires Staged(plan) && Honest(hash, plan, disk)
    ensures Honest(hash, plan, disk.(blobs := blobs))
  {
    forall k, s, i | 0 <= k < |disk.journal| && 0 <= s < |plan.stages| && 0 <= i < |plan.stages[s].tasks|
      ensures HonestAt(hash, plan, disk.(blobs := blobs).journal[k], s, i)
    {
      assert HonestAt(hash, plan, disk.journal[k], s, i);
    }
  }

  lemma {:induction false} OwnEntryIsHonest<T>(hash: Hashing, plan: Plan<T>, s: nat, i: nat, r: nat, j: nat)
    requires Sound(hash, plan) && s < |plan.stages| && i < |plan.stages[s].tasks| && r < |plan.stages| && j < |plan.stages[r].tasks|
    ensures HonestAt(hash, plan, Line.Record(Entry(plan.taskId(s, plan.stages[s].tasks[i]), hash(Own(plan, s, i)))), r, j)
  {
    if plan.taskId(s, plan.stages[s].tasks[i]) == plan.taskId(r, plan.stages[r].tasks[j]) {
      OwnIsProcessed(plan, s, i);
      OwnIsProcessed(plan, r, j);
    }
  }

  lemma {:induction false} AppendingIsHonest<T>(hash: Hashing, plan: Plan<T>, disk: Disk, e: Entry, k: nat)
    requires Staged(plan) && Honest(hash, plan, disk) && k < |Appending(disk.journal, e)|
    requires forall s, i :: 0 <= s < |plan.stages| && 0 <= i < |plan.stages[s].tasks| ==> HonestAt(hash, plan, Line.Record(e), s, i)
    ensures Honest(hash, plan, disk.(journal := Appending(disk.journal, e)[k]))
  {
    hide Own;
    var journal := Appending(disk.journal, e)[k];
    forall l, s, i | 0 <= l < |journal| && 0 <= s < |plan.stages| && 0 <= i < |plan.stages[s].tasks|
      ensures HonestAt(hash, plan, journal[l], s, i)
    {
      if l < |disk.journal| && journal[l] == disk.journal[l] {
        assert HonestAt(hash, plan, disk.journal[l], s, i);
      } else {
        assert HonestAt(hash, plan, Line.Record(e), s, i);
      }
    }
  }

  lemma {:induction false} RecordStaysHonest<T>(hash: Hashing, plan: Plan<T>, run: Run, s: nat, i: nat)
    requires Sound(hash, plan) && AllHonest(hash, plan, run) && s < |plan.stages| && i < |plan.stages[s].tasks|
    ensures AllHonest(hash, plan, Record(run, (s, i), Entry(plan.taskId(s, plan.stages[s].tasks[i]), hash(Own(plan, s, i)))))
  {
    hide Honest, HonestAt, Own;
    var e := Entry(plan.taskId(s, plan.stages[s].tasks[i]), hash(Own(plan, s, i)));
    forall r, j | 0 <= r < |plan.stages| && 0 <= j < |plan.stages[r].tasks| ensures HonestAt(hash, plan, Line.Record(e), r, j) {
      OwnEntryIsHonest(hash, plan, s, i, r, j);
    }
    var all := Appending(run.disk.journal, e);
    forall k | 0 <= k < |all| ensures Honest(hash, plan, run.disk.(journal := all[k])) {
      AppendingIsHonest(hash, plan, run.disk, e, k);
    }
    assert all[|all| - 1] == Appended(run.disk.journal, e);
  }

  /** What a stage's tasks keep: honest disks, and the blocks the uninterrupted run makes. */
  ghost predicate OnTrack<T>(hash: Hashing, plan: Plan<T>, s: nat, k: nat, run: Run, block: Block)
    requires Staged(plan) && s < |plan.stages| && k <= |plan.stages[s].tasks|
  {
    && AllHonest(hash, plan, run)
    && block.payloads == Payloads(plan, s + 1)[s][..k]
    && block.digests == Digests(hash, block.payloads)
  }

  lemma {:induction false} StepStaysOnTrack<T>(hash: Hashing, plan: Plan<T>, from: Disk, s: nat, k: nat, run: Run, block: Block, listing: Option<Blob>)
    requires Sound(hash, plan) && Honest(hash, plan, from) && s < |plan.stages| && k < |plan.stages[s].tasks|
    requires OnTrack(hash, plan, s, k, run, block)
    ensures var (after, more) := Step(hash, Replayed(from, |from.journal|), (s, k), plan.taskId(s, plan.stages[s].tasks[k]), Own(plan, s, k), listing, run, block);
      OnTrack(hash, plan, s, k + 1, after, more)
  {
    hide AllHonest, Honest, Replayed, Sound, Put, Record;
    SoundIsStaged(hash, plan);
    var completed := Replayed(from, |from.journal|);
    var task := plan.taskId(s, plan.stages[s].tasks[k]);
    TakeMore(Payloads(plan, s + 1)[s], k);
    if Resume.StoredPartial(hash, run.disk, completed, task).Some? {
      StoredIsOwn(hash, plan, from, run.disk, s, k);
      SkipStaysHonest(hash, plan, run);
    } else {
      var looked := run.(bad := Resume.BadAfterLookup(hash, run.disk, run.bad, completed, task));
      LookStaysHonest(hash, plan, run, looked.bad);
      PutStaysHonest(hash, plan, looked, Own(plan, s, k));
      var put := Put(hash, looked, Own(plan, s, k));
      if listing.Some? { PutStaysHonest(hash, plan, put, listing.value); }
      var listed := if block.listed || listing.None? then put else Put(hash, put, listing.value);
      RecordStaysHonest(hash, plan, listed, s, k);
    }
  }

  lemma SkipStaysHonest<T>(hash: Hashing, plan: Plan<T>, run: Run)
    requires Staged(plan)
    ensures AllHonest(hash, plan, run.(skipped := run.skipped + 1)) <==> AllHonest(hash, plan, run)
  {
  }

  lemma LookStaysHonest<T>(hash: Hashing, plan: Plan<T>, run: Run, bad: set<Digest>)
    requires Staged(plan)
    ensures AllHonest(hash, plan, run.(bad := bad)) <==> AllHonest(hash, plan, run)
  {
  }

  lemma {:induction false} TasksStayOnTrack<T>(hash: Hashing, plan: Plan<T>, from: Disk, s: nat, k: nat, digests: seq<Digest>, run: Run)
    requires Sound(hash, plan) && Honest(hash, plan, from) && s < |plan.stages| && k <= |plan.stages[s].tasks| && AllHonest(hash, plan, run)
    ensures Below(plan.stages[s].inputs, s)
    ensures var (after, block) := AfterTasks(hash, plan, Replayed(from, |from.journal|), s,
                                             Flattened(Payloads(plan, s), plan.stages[s].inputs), digests, run, k);
      OnTrack(hash, plan, s, k, after, block)
  {
    hide AllHonest, Honest, Replayed, Step;
    if k > 0 {
      TasksStayOnTrack(hash, plan, from, s, k - 1, digests, run);
      var (before, block) := AfterTasks(hash, plan, Replayed(from, |from.journal|), s,
                                        Flattened(Payloads(plan, s), plan.stages[s].inputs), digests, run, k - 1);
      OwnIsProcessed(plan, s, k - 1);
      StepStaysOnTrack(hash, plan, from, s, k - 1, before, block, Listing(plan, digests));
    }
  }

  lemma {:induction false} StagesStayOnTrack<T>(hash: Hashing, plan: Plan<T>, from: Disk, start: Run, s: nat)
    requires Sound(hash, plan) && Honest(hash, plan, from) && s <= |plan.stages| && AllHonest(hash, plan, start)
    ensures var p := AfterStages(hash, plan, Replayed(from, |from.journal|), start, s);
      AllHonest(hash, plan, p.run) && p.payloads == Payloads(plan, s) && p.digests == AllDigests(hash, p.payloads)
  {
    hide AllHonest, Honest, Replayed, AfterTasks, Sound, Payloads, AllDigests;
    SoundIsStaged(hash, plan);
    if s > 0 {
      StagesStayOnTrack(hash, plan, from, start, s - 1);
      var before := AfterStages(hash, plan, Replayed(from, |from.journal|), start, s - 1);
      var stage := plan.stages[s - 1];
      assert Below(stage.inputs, s - 1);
      TasksStayOnTrack(hash, plan, from, s - 1, |stage.tasks|, Flattened(before.digests, stage.inputs), before.run);
      StageEnds(hash, plan, s - 1);
    } else {
      assert Payloads(plan, 0) == [] && AllDigests(hash, []) == [];
    }
  }

  /** A stage's blocks end the blocks so far. */
  lemma StageEnds<T>(hash: Hashing, plan: Plan<T>, s: nat)
    requires Staged(plan) && s < |plan.stages|
    ensures var all := Payloads(plan, s + 1)[s];
      && all[..|plan.stages[s].tasks|] == all && Payloads(plan, s + 1) == Payloads(plan, s) + [all]
      && AllDigests(hash, Payloads(plan, s + 1)) == AllDigests(hash, Payloads(plan, s)) + [Digests(hash, all)]
  {
    PayloadsPrefix(plan, s, s + 1);
  }

  lemma SoundIsStaged<T>(hash: Hashing, plan: Plan<T>)
    requires Sound(hash, plan)
    ensures Staged(plan)
  {
  }

  /** From any honest disk a run ends with the blocks of the uninterrupted run, and its digests; every disk
      behind it is honest. */
  lemma {:induction false} ResumeEqualsUninterrupted<T>(hash: Hashing, plan: Plan<T>, disk: Disk)
    requires Sound(hash, plan) && Honest(hash, plan, disk)
    ensures var p := WholeRun(hash, plan, disk);
      AllHonest(hash, plan, p.run) && p.payloads == Payloads(plan, |plan.stages|) && p.digests == AllDigests(hash, p.payloads)
  {
    hide AfterStages;
    StagesStayOnTrack(hash, plan, disk, Run(disk, {}, 0, 0, [], []), |plan.stages|);
  }

  /** Each disk is what a crash somewhere in a run on the one before it left, some blobs lost or corrupted. */
  ghost predicate Crashes<T>(hash: Hashing, plan: Plan<T>, disks: seq<Disk>)
    requires Staged(plan)
  {
    && disks != [] && disks[0] == EMPTY
    && forall n :: 0 < n < |disks| ==> CrashedFrom(hash, plan, disks[n - 1], disks[n])
  }

  ghost predicate CrashedFrom<T>(hash: Hashing, plan: Plan<T>, before: Disk, after: Disk)
    requires Staged(plan)
  {
    exists k :: 0 <= k < |WholeRun(hash, plan, before).run.past| && Resume.SameButBlobs(WholeRun(hash, plan, before).run.past[k], after)
  }

  /** However often the run crashed, and wherever, running it to the end gives the uninterrupted digests. */
  lemma {:induction false} CrashesChangeNothing<T>(hash: Hashing, plan: Plan<T>, disks: seq<Disk>)
    requires Sound(hash, plan) && Crashes(hash, plan, disks)
    ensures Honest(hash, plan, disks[|disks| - 1])
    ensures WholeRun(hash, plan, disks[|disks| - 1]).digests == AllDigests(hash, Payloads(plan, |plan.stages|))
    decreases |disks|
  {
    hide Honest, Sound, WholeRun, HonestAt;
    SoundIsStaged(hash, plan);
    var n := |disks| - 1;
    if n == 0 {
      EmptyIsHonest(hash, plan);
    } else {
      var before := disks[..n];
      assert before[n - 1] == disks[n - 1];
      CrashesChangeNothing(hash, plan, before);
      assert CrashedFrom(hash, plan, disks[n - 1], disks[n]);
      ResumeEqualsUninterrupted(hash, plan, disks[n - 1]);
      var k :| 0 <= k < |WholeRun(hash, plan, disks[n - 1]).run.past| && Resume.SameButBlobs(WholeRun(hash, plan, disks[n - 1]).run.past[k], disks[n]);
      var passed := WholeRun(hash, plan, disks[n - 1]).run.past[k];
      BlobsStayHonest(hash, plan, passed, disks[n].blobs);
      assert disks[n] == passed.(blobs := disks[n].blobs);
    }
    ResumeEqualsUninterrupted(hash, plan, disks[n]);
  }

  lemma EmptyIsHonest<T>(hash: Hashing, plan: Plan<T>)
    requires Staged(plan)
    ensures Honest(hash, plan, EMPTY)
  {
  }

  // ---- no finished task runs again --------------------------------------------------------------

  /** The tasks of the first `s` stages. */
  function TaskCount<T>(plan: Plan<T>, s: nat): nat
    requires s <= |plan.stages|
  {
    if s == 0 then 0 else TaskCount(plan, s - 1) + |plan.stages[s - 1].tasks|
  }

  predicate Earlier(a: (nat, nat), b: (nat, nat)) {
    a.0 < b.0 || (a.0 == b.0 && a.1 < b.1)
  }

  /** The executed tasks come before task `k` of stage `s`, in plan order, and each had no journaled block
      that verified when the run started. */
  ghost predicate RanMissing<T>(hash: Hashing, plan: Plan<T>, completed: map<TaskId, Digest>, disk: Disk, ran: seq<(nat, nat)>, s: nat, k: nat) {
    && (forall n :: 0 <= n < |ran| ==> Missing(hash, plan, completed, disk, ran[n]) && Earlier(ran[n], (s, k)))
    && forall m, n :: 0 <= m < n < |ran| ==> Earlier(ran[m], ran[n])
  }

  ghost predicate Missing<T>(hash: Hashing, plan: Plan<T>, completed: map<TaskId, Digest>, disk: Disk, at: (nat, nat)) {
    && at.0 < |plan.stages| && at.1 < |plan.stages[at.0].tasks|
    && Resume.StoredPartial(hash, disk, completed, plan.taskId(at.0, plan.stages[at.0].tasks[at.1])).None?
  }

  /** What verified on the disk `from` verifies on `to`. */
  ghost predicate KeepsVerified(hash: Hashing, from: Disk, to: Disk) {
    forall d :: Fetched(hash, from, d).Some? ==> Fetched(hash, to, d).Some?
  }

  lemma {:induction false} StepRuns<T>(hash: Hashing, plan: Plan<T>, completed: map<TaskId, Digest>, s: nat, k: nat, payload: Blob,
                                       listing: Option<Blob>, from: Disk, run: Run, block: Block)
    requires s < |plan.stages| && k < |plan.stages[s].tasks|
    requires KeepsVerified(hash, from, run.disk) && RanMissing(hash, plan, completed, from, run.ran, s, k)
    requires run.executed == |run.ran|
    ensures var after := Step(hash, completed, (s, k), plan.taskId(s, plan.stages[s].tasks[k]), payload, listing, run, block).0;
      && KeepsVerified(hash, from, after.disk) && RanMissing(hash, plan, completed, from, after.ran, s, k + 1)
      && after.executed == |after.ran| && after.executed + after.skipped == run.executed + run.skipped + 1
  {
    hide Fetched, AfterPut, Appended, Appending;
    var task := plan.taskId(s, plan.stages[s].tasks[k]);
    if Resume.StoredPartial(hash, run.disk, completed, task).None? {
      var looked := run.(bad := Resume.BadAfterLookup(hash, run.disk, run.bad, completed, task));
      var put := Put(hash, looked, payload);
      PutKeeps(hash, from, looked, payload);
      if listing.Some? { PutKeeps(hash, from, put, listing.value); }
      var listed := if block.listed || listing.None? then put else Put(hash, put, listing.value);
      AppendKeeps(hash, from, listed.disk, Entry(task, hash(payload)));
    }
  }

  lemma PutKeeps(hash: Hashing, from: Disk, run: Run, data: Blob)
    requires KeepsVerified(hash, from, run.disk)
    ensures KeepsVerified(hash, from, Put(hash, run, data).disk) && Put(hash, run, data).ran == run.ran
  {
    forall d | Fetched(hash, from, d).Some? ensures Fetched(hash, Put(hash, run, data).disk, d).Some? {
      PutKeepsVerified(hash, run.disk, run.bad, data, d);
    }
  }

  lemma AppendKeeps(hash: Hashing, from: Disk, disk: Disk, e: Entry)
    requires KeepsVerified(hash, from, disk)
    ensures KeepsVerified(hash, from, disk.(journal := Appended(disk.journal, e)))
  {
  }

  lemma {:induction false} TasksRun<T>(hash: Hashing, plan: Plan<T>, completed: map<TaskId, Digest>, s: nat, upstream: seq<Blob>,
                                       digests: seq<Digest>, from: Disk, run: Run, k: nat)
    requires s < |plan.stages| && k <= |plan.stages[s].tasks|
    requires KeepsVerified(hash, from, run.disk) && RanMissing(hash, plan, completed, from, run.ran, s, 0)
    requires run.executed == |run.ran|
    ensures var after := AfterTasks(hash, plan, completed, s, upstream, digests, run, k).0;
      && KeepsVerified(hash, from, after.disk) && RanMissing(hash, plan, completed, from, after.ran, s, k)
      && after.executed == |after.ran| && after.executed + after.skipped == run.executed + run.skipped + k
  {
    hide Step, KeepsVerified, RanMissing;
    if k > 0 {
      TasksRun(hash, plan, completed, s, upstream, digests, from, run, k - 1);
      var (before, block) := AfterTasks(hash, plan, completed, s, upstream, digests, run, k - 1);
      var t := plan.stages[s].tasks[k - 1];
      StepRuns(hash, plan, completed, s, k - 1, plan.stages[s].process(t, upstream), Listing(plan, digests), from, before, block);
    }
  }

  lemma StageRan<T>(hash: Hashing, plan: Plan<T>, completed: map<TaskId, Digest>, disk: Disk, ran: seq<(nat, nat)>, s: nat, k: nat)
    requires RanMissing(hash, plan, completed, disk, ran, s, k)
    ensures RanMissing(hash, plan, completed, disk, ran, s + 1, 0)
  {
  }

  /** A task journaled with a block that verifies when the run starts is not run; each task is run at most
      once, in plan order; and every task of the stages is run or skipped. */
  lemma {:induction false} FinishedTasksAreSkipped<T>(hash: Hashing, plan: Plan<T>, completed: map<TaskId, Digest>, disk: Disk,
                                                      bad: set<Digest>, past: seq<Disk>, s: nat)
    requires Staged(plan) && s <= |plan.stages|
    ensures var run := AfterStages(hash, plan, completed, Run(disk, bad, 0, 0, past, []), s).run;
      && KeepsVerified(hash, disk, run.disk) && RanMissing(hash, plan, completed, disk, run.ran, s, 0)
      && run.executed == |run.ran| && run.executed + run.skipped == TaskCount(plan, s)
  {
    hide AfterTasks, KeepsVerified, RanMissing;
    var start := Run(disk, bad, 0, 0, past, []);
    if s > 0 {
      FinishedTasksAreSkipped(hash, plan, completed, disk, bad, past, s - 1);
      var before := AfterStages(hash, plan, completed, start, s - 1);
      var stage := plan.stages[s - 1];
      assert Below(stage.inputs, s - 1);
      var upstream, digests := Flattened(before.payloads, stage.inputs), Flattened(before.digests, stage.inputs);
      TasksRun(hash, plan, completed, s - 1, upstream, digests, disk, before.run, |stage.tasks|);
      StageRan(hash, plan, completed, disk, AfterTasks(hash, plan, completed, s - 1, upstream, digests, before.run, |stage.tasks|).0.ran, s - 1, |stage.tasks|);
    } else {
      NothingRan(hash, plan, completed, disk);
    }
  }

  lemma NothingRan<T>(hash: Hashing, plan: Plan<T>, completed: map<TaskId, Digest>, disk: Disk)
    ensures KeepsVerified(hash, disk, disk) && RanMissing(hash, plan, completed, disk, [], 0, 0)
  {
  }
}
