/** `run_resumable` through crashes (python/graphed/checkpoint/runner.py). */
module Resume {
  import opened Collections
  import opened Checkpoint

  /** A durable plan over partitions `P` with partials `V`; `process` includes what its retry policy
      recovers, and fails with what is left. */
  datatype Plan<!P, !V> = Plan(
    parts: seq<P>,
    taskId: P -> TaskId,
    process: P -> Result<V, string>,
    combine: (V, V) -> V,
    empty: V,
    finalize: V -> V,
    budget: Option<nat>,
    encode: V -> Blob,
    decode: Blob -> V)

  datatype Report = Report(executed: nat, skipped: nat, dead: nat, stopped: bool)

  /** Task ids name the work, the codec gives values back, digests do not collide. */
  ghost predicate Sound<P, V(!new)>(hash: Hashing, plan: Plan<P, V>) {
    && CollisionFree(hash)
    && (forall v :: plan.decode(plan.encode(v)) == v)
    && forall i, j :: (0 <= i < |plan.parts| && 0 <= j < |plan.parts|
         && plan.taskId(plan.parts[i]) == plan.taskId(plan.parts[j])) ==>
         plan.process(plan.parts[i]) == plan.process(plan.parts[j])
  }

  // ---- the uninterrupted run, without a store ---------------------------------------------------

  /** The partials of the first partitions in task order, how many failed, and whether the error budget
      stopped the run there. */
  datatype Tally<+V> = Tally(values: seq<V>, dead: nat, stopped: bool)

  function OverBudget<P, V>(plan: Plan<P, V>, dead: nat): bool {
    plan.budget.Some? && dead > plan.budget.value
  }

  function Uninterrupted<P, V>(plan: Plan<P, V>, k: nat): Tally<V>
    requires k <= |plan.parts|
  {
    if k == 0 then Tally([], 0, false)
    else
      var t := Uninterrupted(plan, k - 1);
      if t.stopped then t
      else
        match plan.process(plan.parts[k - 1])
        case Ok(v) => t.(values := t.values + [v])
        case Err(_) => t.(dead := t.dead + 1, stopped := OverBudget(plan, t.dead + 1))
  }

  /** The partials combined left to right, each once. */
  function Folded<V>(combine: (V, V) -> V, values: seq<V>): Option<V> {
    if values == [] then None else Join(combine, Folded(combine, values[..|values| - 1]), values[|values| - 1])
  }

  function Join<V>(combine: (V, V) -> V, acc: Option<V>, v: V): Option<V> {
    match acc case None => Some(v) case Some(a) => Some(combine(a, v))
  }

  function ValueOf<P, V>(plan: Plan<P, V>, acc: Option<V>): V {
    plan.finalize(match acc case None => plan.empty case Some(a) => a)
  }

  // ---- a run against a store --------------------------------------------------------------------

  /** A run so far: the disk, the process's own state, what it did, and every disk it passed through. */
  datatype Run<V> = Run(disk: Disk, bad: set<Digest>, acc: Option<V>, report: Report, ran: seq<nat>, past: seq<Disk>)

  function Start<V>(disk: Disk, bad: set<Digest>, past: seq<Disk>): Run<V> {
    Run(disk, bad, None, Report(0, 0, 0, false), [], past)
  }

  /** The partial a journal entry committed. */
  function StoredPartial(hash: Hashing, disk: Disk, completed: map<TaskId, Digest>, task: TaskId): Option<Blob> {
    if task in completed then Fetched(hash, disk, completed[task]) else None
  }

  function BadAfterLookup(hash: Hashing, disk: Disk, bad: set<Digest>, completed: map<TaskId, Digest>, task: TaskId): set<Digest> {
    if task in completed then BadAfterGet(hash, disk, bad, completed[task]) else bad
  }

  function Skip<P, V>(plan: Plan<P, V>, run: Run<V>, data: Blob): Run<V> {
    run.(acc := Join(plan.combine, run.acc, plan.decode(data)), report := run.report.(skipped := run.report.skipped + 1))
  }

  function Bury<P, V>(plan: Plan<P, V>, run: Run<V>, task: TaskId): Run<V> {
    var disk := run.disk.(dead := run.disk.dead + [task]);
    run.(disk := disk, past := run.past + [disk],
         report := run.report.(dead := run.report.dead + 1, stopped := OverBudget(plan, run.report.dead + 1)))
  }

  function Commit<P, V>(hash: Hashing, plan: Plan<P, V>, run: Run<V>, i: nat, v: V): Run<V>
    requires i < |plan.parts|
  {
    var data := plan.encode(v);
    var e := Entry(plan.taskId(plan.parts[i]), hash(data));
    var stored := AfterPut(hash, run.disk, run.bad, data);
    Run(stored.(journal := Appended(stored.journal, e)),
        if Rewrites(hash, run.disk, run.bad, data) then run.bad - {hash(data)} else run.bad,
        Join(plan.combine, run.acc, v),
        run.report.(executed := run.report.executed + 1),
        run.ran + [i],
        run.past + [stored] + OnDiskWith(stored, Appending(stored.journal, e)))
  }

  /** What partition `i` does to a run. */
  function Step<P, V>(hash: Hashing, plan: Plan<P, V>, completed: map<TaskId, Digest>, run: Run<V>, i: nat): Run<V>
    requires i < |plan.parts|
  {
    var task := plan.taskId(plan.parts[i]);
    if run.report.stopped then run
    else
      match StoredPartial(hash, run.disk, completed, task)
      case Some(data) => Skip(plan, run, data)
      case None =>
        var looked := run.(bad := BadAfterLookup(hash, run.disk, run.bad, completed, task));
        match plan.process(plan.parts[i])
        case Err(_) => Bury(plan, looked, task)
        case Ok(v) => Commit(hash, plan, looked, i, v)
  }

  function After<P, V>(hash: Hashing, plan: Plan<P, V>, completed: map<TaskId, Digest>, start: Run<V>, k: nat): Run<V>
    requires k <= |plan.parts|
  {
    if k == 0 then start else Step(hash, plan, completed, After(hash, plan, completed, start, k - 1), k - 1)
  }

  /** The whole run of a fresh process on a disk. */
  function WholeRun<P, V>(hash: Hashing, plan: Plan<P, V>, disk: Disk): Run<V> {
    After(hash, plan, Replayed(disk, |disk.journal|), Start(disk, {}, []), |plan.parts|)
  }

  lemma {:induction false} StoppedStays<P, V>(hash: Hashing, plan: Plan<P, V>, completed: map<TaskId, Digest>, start: Run<V>, k: nat)
    requires k <= |plan.parts| && After(hash, plan, completed, start, k).report.stopped
    ensures After(hash, plan, completed, start, |plan.parts|) == After(hash, plan, completed, start, k)
    decreases |plan.parts| - k
  {
    if k < |plan.parts| { StoppedStays(hash, plan, completed, start, k + 1); }
  }

  // ---- what a report says -----------------------------------------------------------------------

  /** The failing ones among the first `k` partitions, ascending. */
  function Failing<P, V>(plan: Plan<P, V>, k: nat): (r: seq<nat>)
    requires k <= |plan.parts|
    ensures forall i :: i in r <==> 0 <= i < k && plan.process(plan.parts[i]).Err?
    ensures Below(r, |plan.parts|)
  {
    if k == 0 then [] else Failing(plan, k - 1) + if plan.process(plan.parts[k - 1]).Err? then [k - 1] else []
  }

  function TaskIds<P, V>(plan: Plan<P, V>, at: seq<nat>): (r: seq<TaskId>)
    requires Below(at, |plan.parts|)
    ensures |r| == |at|
  {
    seq(|at|, n requires 0 <= n < |at| => plan.taskId(plan.parts[at[n]]))
  }

  lemma NoneFailing<P, V>(plan: Plan<P, V>)
    ensures Failing(plan, 0) == [] && TaskIds(plan, []) == []
  {
  }

  /** One more partition leaves the first failing ones as they are, and comes last if it fails. */
  lemma FailingNext<P, V>(plan: Plan<P, V>, k: nat, m: nat)
    requires k < |plan.parts| && m <= |Failing(plan, k)|
    ensures |Failing(plan, k + 1)| == |Failing(plan, k)| + if plan.process(plan.parts[k]).Err? then 1 else 0
    ensures Failing(plan, k + 1)[..m] == Failing(plan, k)[..m]
    ensures plan.process(plan.parts[k]).Err? && m == |Failing(plan, k)| ==>
      TaskIds(plan, Failing(plan, k + 1)[..m + 1]) == TaskIds(plan, Failing(plan, k)[..m]) + [plan.taskId(plan.parts[k])]
  {
  }

  /** A run stops exactly when more partitions failed than its budget allows; one that does not stop accounts for
      every partition once; and no more fail in it than fail in the plan. */
  lemma {:induction false} ReportAddsUp<P, V>(hash: Hashing, plan: Plan<P, V>, completed: map<TaskId, Digest>,
                                              disk: Disk, bad: set<Digest>, past: seq<Disk>, k: nat)
    requires k <= |plan.parts|
    ensures var report := After(hash, plan, completed, Start(disk, bad, past), k).report;
      && (report.stopped <==> plan.budget.Some? && report.dead > plan.budget.value)
      && (!report.stopped ==> report.executed + report.skipped + report.dead == k)
      && report.dead <= |Failing(plan, k)|
  {
    hide Step, Failing;
    if k == 0 {
      NoneFailing(plan);
    } else {
      ReportAddsUp(hash, plan, completed, disk, bad, past, k - 1);
      StepReports(hash, plan, completed, After(hash, plan, completed, Start(disk, bad, past), k - 1), k - 1);
      FailingNext(plan, k - 1, 0);
    }
  }

  /** One partition is counted once, unless the run has stopped; only a failing one is counted dead, and only that
      can stop the run. */
  lemma StepReports<P, V>(hash: Hashing, plan: Plan<P, V>, completed: map<TaskId, Digest>, run: Run<V>, i: nat)
    requires i < |plan.parts|
    ensures var before, after := run.report, Step(hash, plan, completed, run, i).report;
      && (before.stopped ==> after == before)
      && (!before.stopped ==> after.executed + after.skipped + after.dead == before.executed + before.skipped + before.dead + 1)
      && (after.dead == before.dead ==> after.stopped == before.stopped)
      && (after.dead != before.dead ==>
            (after.dead == before.dead + 1 && plan.process(plan.parts[i]).Err?
             && (after.stopped <==> plan.budget.Some? && after.dead > plan.budget.value)))
  {
    hide StoredPartial, AfterPut, Rewrites, Appended, Appending, BadAfterLookup;
  }

  /** `run_resumable`. */
  method RunResumable<P, V>(plan: Plan<P, V>, store: CheckpointStore) returns (value: V, report: Report, ghost ran: seq<nat>)
    modifies store
    ensures var completed := Replayed(old(store.OnDisk()), |old(store.journal)|);
      var r := After(store.hash, plan, completed, Start(old(store.OnDisk()), old(store.bad), old(store.past)), |plan.parts|);
      && store.OnDisk() == r.disk && store.bad == r.bad && store.past == r.past
      && value == ValueOf(plan, r.acc) && report == r.report && ran == r.ran
    ensures report.stopped <==> plan.budget.Some? && report.dead > plan.budget.value
    ensures !report.stopped ==> report.executed + report.skipped + report.dead == |plan.parts|
    ensures plan.budget.None? || |Failing(plan, |plan.parts|)| <= plan.budget.value ==> !report.stopped
  {
    hide Commit, Skip, Bury, Replayed, Fetched;
    ReportAddsUp(store.hash, plan, Replayed(store.OnDisk(), |store.journal|), store.OnDisk(), store.bad, store.past, |plan.parts|);
    var completed := store.Completed();
    ghost var start := Start<V>(store.OnDisk(), store.bad, store.past);
    var acc: Option<V> := None;
    report, ran := Report(0, 0, 0, false), [];
    for i := 0 to |plan.parts|
      invariant Run(store.OnDisk(), store.bad, acc, report, ran, store.past) == After(store.hash, plan, completed, start, i)
      invariant !report.stopped
    {
      acc, report, ran := RunTask(plan, store, completed, i, acc, report, ran);
      if report.stopped {
        StoppedStays(store.hash, plan, completed, start, i + 1);
        break;
      }
    }
    value := ValueOf(plan, acc);
  }

  /** One partition: reuse its stored partial, or run it and commit the result. */
  method RunTask<P, V>(plan: Plan<P, V>, store: CheckpointStore, completed: map<TaskId, Digest>, i: nat,
                       acc0: Option<V>, report0: Report, ghost ran0: seq<nat>)
    returns (acc: Option<V>, report: Report, ghost ran: seq<nat>)
    requires i < |plan.parts| && !report0.stopped
    modifies store
    ensures Run(store.OnDisk(), store.bad, acc, report, ran, store.past)
         == Step(store.hash, plan, completed, Run(old(store.OnDisk()), old(store.bad), acc0, report0, ran0, old(store.past)), i)
  {
    acc, report, ran := acc0, report0, ran0;
    var task := plan.taskId(plan.parts[i]);
    if task in completed {
      var data := store.Get(completed[task]);
      if data.Some? {
        acc := Join(plan.combine, acc, plan.decode(data.value));
        report := report.(skipped := report.skipped + 1);
        return;
      }
    }
    match plan.process(plan.parts[i])
    case Err(_) =>
      store.RecordDead(task);
      report := report.(dead := report.dead + 1, stopped := OverBudget(plan, report.dead + 1));
    case Ok(v) =>
      var digest := store.Put(plan.encode(v));
      store.RecordDone(task, digest);
      acc := Join(plan.combine, acc, v);
      report := report.(executed := report.executed + 1);
      ran := ran + [i];
  }

  // ---- resume equals uninterrupted --------------------------------------------------------------

  /** The digest of a partition's own result, none if it fails. */
  function ResultOf<P, V>(hash: Hashing, plan: Plan<P, V>, p: P): Option<Digest> {
    match plan.process(p) case Ok(v) => Some(hash(plan.encode(v))) case Err(_) => None
  }

  /** Every readable record of one of the plan's tasks names that task's own result. */
  ghost predicate Honest<P, V>(hash: Hashing, plan: Plan<P, V>, disk: Disk) {
    forall k, i :: 0 <= k < |disk.journal| && 0 <= i < |plan.parts| ==> HonestAt(hash, plan, disk.journal[k], plan.parts[i])
  }

  ghost predicate HonestAt<P, V>(hash: Hashing, plan: Plan<P, V>, line: Line, p: P) {
    match Readable(line)
    case None => true
    case Some(e) => e.task == plan.taskId(p) ==> ResultOf(hash, plan, p) == Some(e.blob)
  }

  lemma EmptyIsHonest<P, V>(hash: Hashing, plan: Plan<P, V>)
    ensures Honest(hash, plan, EMPTY)
  {
  }

  /** Honesty is about the journal: losing or corrupting any blobs keeps it. */
  lemma CorruptionStaysHonest<P, V>(hash: Hashing, plan: Plan<P, V>, disk: Disk, blobs: map<Digest, Blob>)
    requires Honest(hash, plan, disk)
    ensures Honest(hash, plan, disk.(blobs := blobs))
  {
  }

  lemma {:induction false} ReplayIsHonest<P, V>(hash: Hashing, plan: Plan<P, V>, disk: Disk, n: nat, i: nat)
    requires Honest(hash, plan, disk) && n <= |disk.journal| && i < |plan.parts|
    ensures var task := plan.taskId(plan.parts[i]);
      task in Replayed(disk, n) ==> ResultOf(hash, plan, plan.parts[i]) == Some(Replayed(disk, n)[task])
  {
    if n > 0 {
      ReplayIsHonest(hash, plan, disk, n - 1, i);
      assert HonestAt(hash, plan, disk.journal[n - 1], plan.parts[i]);
    }
  }

  /** Committing a partition's result, and every disk on the way there, is honest. */
  lemma {:induction false} CommitIsHonest<P, V(!new)>(hash: Hashing, plan: Plan<P, V>, disk: Disk, i: nat, v: V)
    requires Sound(hash, plan) && Honest(hash, plan, disk) && i < |plan.parts| && plan.process(plan.parts[i]) == Ok(v)
    ensures var e := Entry(plan.taskId(plan.parts[i]), hash(plan.encode(v)));
      && Honest(hash, plan, disk.(journal := Appended(disk.journal, e)))
      && forall k :: 0 <= k < |Appending(disk.journal, e)| ==> Honest(hash, plan, disk.(journal := Appending(disk.journal, e)[k]))
  {
    var e := Entry(plan.taskId(plan.parts[i]), hash(plan.encode(v)));
    forall j | 0 <= j < |plan.parts| ensures HonestAt(hash, plan, Record(e), plan.parts[j]) {
    }
    forall k | 0 <= k < |Appending(disk.journal, e)|
      ensures Honest(hash, plan, disk.(journal := Appending(disk.journal, e)[k]))
    {
      AppendingIsHonest(hash, plan, disk, e, k);
    }
  }

  lemma {:induction false} AppendingIsHonest<P, V>(hash: Hashing, plan: Plan<P, V>, disk: Disk, e: Entry, k: nat)
    requires Honest(hash, plan, disk) && k < |Appending(disk.journal, e)|
    requires forall j :: 0 <= j < |plan.parts| ==> HonestAt(hash, plan, Record(e), plan.parts[j])
    ensures Honest(hash, plan, disk.(journal := Appending(disk.journal, e)[k]))
  {
    var journal := Appending(disk.journal, e)[k];
    forall l, j | 0 <= l < |journal| && 0 <= j < |plan.parts| ensures HonestAt(hash, plan, journal[l], plan.parts[j]) {
      if l < |disk.journal| && journal[l] == disk.journal[l] {
        assert HonestAt(hash, plan, disk.journal[l], plan.parts[j]);
      } else {
        assert HonestAt(hash, plan, Record(e), plan.parts[j]);
      }
    }
  }

  /** What a run keeps: its own and every passed disk honest, and its tally the uninterrupted one. */
  ghost predicate OnTrack<P, V>(hash: Hashing, plan: Plan<P, V>, run: Run<V>, k: nat)
    requires k <= |plan.parts|
  {
    var t := Uninterrupted(plan, k);
    && Honest(hash, plan, run.disk) && (forall n :: 0 <= n < |run.past| ==> Honest(hash, plan, run.past[n]))
    && run.acc == Folded(plan.combine, t.values)
    && run.report.dead == t.dead && run.report.stopped == t.stopped
    && run.report.executed + run.report.skipped == |t.values| && run.report.executed == |run.ran|
  }

  lemma FoldMore<V>(combine: (V, V) -> V, values: seq<V>, v: V)
    ensures Folded(combine, values + [v]) == Join(combine, Folded(combine, values), v)
  {
    assert (values + [v])[..|values|] == values;
  }

  /** A stored partial is the partition's own partial. */
  lemma {:induction false} StoredIsOwn<P, V(!new)>(hash: Hashing, plan: Plan<P, V>, journal: Disk, disk: Disk, i: nat)
    requires Sound(hash, plan) && Honest(hash, plan, journal) && i < |plan.parts|
    requires StoredPartial(hash, disk, Replayed(journal, |journal.journal|), plan.taskId(plan.parts[i])).Some?
    ensures var data := StoredPartial(hash, disk, Replayed(journal, |journal.journal|), plan.taskId(plan.parts[i])).value;
      plan.process(plan.parts[i]) == Ok(plan.decode(data))
  {
    ReplayIsHonest(hash, plan, journal, |journal.journal|, i);
    var v := plan.process(plan.parts[i]).value;
    var data := StoredPartial(hash, disk, Replayed(journal, |journal.journal|), plan.taskId(plan.parts[i])).value;
    assert hash(data) == hash(plan.encode(v));
    assert data == plan.encode(v);
  }

  lemma {:induction false} StepStaysOnTrack<P, V(!new)>(hash: Hashing, plan: Plan<P, V>, from: Disk, run: Run<V>, i: nat)
    requires Sound(hash, plan) && Honest(hash, plan, from) && i < |plan.parts| && OnTrack(hash, plan, run, i)
    ensures OnTrack(hash, plan, Step(hash, plan, Replayed(from, |from.journal|), run, i), i + 1)
  {
    hide Honest, Replayed, Sound, Appending, Appended, Fetched;
    var completed := Replayed(from, |from.journal|);
    var task := plan.taskId(plan.parts[i]);
    var t := Uninterrupted(plan, i);
    if !run.report.stopped {
      match StoredPartial(hash, run.disk, completed, task)
      case Some(data) =>
        StoredIsOwn(hash, plan, from, run.disk, i);
        FoldMore(plan.combine, t.values, plan.decode(data));
      case None =>
        match plan.process(plan.parts[i])
        case Err(_) => DeadStaysHonest(hash, plan, run.disk, task);
        case Ok(v) =>
          FoldMore(plan.combine, t.values, v);
          var bad := BadAfterLookup(hash, run.disk, run.bad, completed, task);
          PutStaysHonest(hash, plan, run.disk, bad, plan.encode(v));
          CommitIsHonest(hash, plan, AfterPut(hash, run.disk, bad, plan.encode(v)), i, v);
    }
  }

  lemma DeadStaysHonest<P, V>(hash: Hashing, plan: Plan<P, V>, disk: Disk, task: TaskId)
    requires Honest(hash, plan, disk)
    ensures Honest(hash, plan, disk.(dead := disk.dead + [task]))
  {
  }

  lemma PutStaysHonest<P, V>(hash: Hashing, plan: Plan<P, V>, disk: Disk, bad: set<Digest>, data: Blob)
    requires Honest(hash, plan, disk)
    ensures Honest(hash, plan, AfterPut(hash, disk, bad, data))
  {
  }

  lemma {:induction false} AfterStaysOnTrack<P, V(!new)>(hash: Hashing, plan: Plan<P, V>, from: Disk, start: Run<V>, k: nat)
    requires Sound(hash, plan) && Honest(hash, plan, from) && k <= |plan.parts| && OnTrack(hash, plan, start, 0)
    ensures OnTrack(hash, plan, After(hash, plan, Replayed(from, |from.journal|), start, k), k)
  {
    hide Honest, Replayed, Sound, Step, OnTrack;
    if k > 0 {
      AfterStaysOnTrack(hash, plan, from, start, k - 1);
      StepStaysOnTrack(hash, plan, from, After(hash, plan, Replayed(from, |from.journal|), start, k - 1), k - 1);
    }
  }

  /** From any honest disk, a run folds exactly the partials of the uninterrupted run, each once and in
      task order, fails and stops where it does, and leaves only honest disks behind it. */
  lemma {:induction false} ResumeEqualsUninterrupted<P, V(!new)>(hash: Hashing, plan: Plan<P, V>, disk: Disk)
    requires Sound(hash, plan) && Honest(hash, plan, disk)
    ensures OnTrack(hash, plan, WholeRun(hash, plan, disk), |plan.parts|)
    ensures WholeRun(hash, plan, disk).acc == WholeRun(hash, plan, EMPTY).acc
  {
    hide Honest, Replayed, Sound, Step, After;
    EmptyIsHonest(hash, plan);
    AfterStaysOnTrack(hash, plan, disk, Start(disk, {}, []), |plan.parts|);
    AfterStaysOnTrack(hash, plan, EMPTY, Start(EMPTY, {}, []), |plan.parts|);
  }

  // ---- what a run comes to ----------------------------------------------------------------------

  /** The partials of the succeeding ones among the first `k` partitions, in task order. */
  function Partials<P, V>(plan: Plan<P, V>, k: nat): (r: seq<V>)
    requires k <= |plan.parts|
  {
    if k == 0 then []
    else Partials(plan, k - 1) + match plan.process(plan.parts[k - 1]) case Ok(v) => [v] case Err(_) => []
  }

  /** `functools.reduce`: the running value is the left argument. */
  function Reduced<V>(combine: (V, V) -> V, acc: V, values: seq<V>): V {
    if values == [] then acc else Reduced(combine, combine(acc, values[0]), values[1..])
  }

  lemma {:induction false} ReducedMore<V>(combine: (V, V) -> V, acc: V, values: seq<V>, v: V)
    ensures Reduced(combine, acc, values + [v]) == combine(Reduced(combine, acc, values), v)
  {
    if values != [] {
      assert (values + [v])[1..] == values[1..] + [v];
      ReducedMore(combine, combine(acc, values[0]), values[1..], v);
    } else {
      assert [v][1..] == [];
    }
  }

  lemma {:induction false} FoldedIsReduced<V>(combine: (V, V) -> V, values: seq<V>)
    ensures Folded(combine, values) == if values == [] then None else Some(Reduced(combine, values[0], values[1..]))
  {
    if values != [] {
      var m := |values| - 1;
      FoldedIsReduced(combine, values[..m]);
      if m > 0 {
        ReducedMore(combine, values[0], values[1..m], values[m]);
        assert values[..m][1..] == values[1..m] && values[1..] == values[1..m] + [values[m]];
      }
    }
  }

  /** Without a store the run takes every partial until more fail than the budget allows. */
  lemma {:induction false} UninterruptedIs<P, V>(plan: Plan<P, V>, k: nat)
    requires k <= |plan.parts|
    ensures var t := Uninterrupted(plan, k); var failing := |Failing(plan, k)|;
      && (t.stopped <==> plan.budget.Some? && failing > plan.budget.value)
      && t.dead == (if t.stopped then plan.budget.value + 1 else failing)
      && (!t.stopped ==> t.values == Partials(plan, k))
  {
    if k > 0 { UninterruptedIs(plan, k - 1); }
  }

  /** A run's dead letters are the failing partitions' tasks, in order, as many as its report counts. */
  lemma {:induction false} DeadLetters<P, V(!new)>(hash: Hashing, plan: Plan<P, V>, from: Disk, disk: Disk, k: nat)
    requires Sound(hash, plan) && Honest(hash, plan, from) && k <= |plan.parts|
    ensures var r := After(hash, plan, Replayed(from, |from.journal|), Start(disk, {}, []), k);
      && r.report.dead <= |Failing(plan, k)| && (!r.report.stopped ==> r.report.dead == |Failing(plan, k)|)
      && r.disk.dead == disk.dead + TaskIds(plan, Failing(plan, k)[..r.report.dead])
  {
    hide Sound, Honest, Step, Failing, TaskIds, Replayed;
    var completed := Replayed(from, |from.journal|);
    if k == 0 {
      NoneFailing(plan);
    } else {
      DeadLetters(hash, plan, from, disk, k - 1);
      var before := After(hash, plan, completed, Start(disk, {}, []), k - 1);
      var dead := before.report.dead;
      StepBuries(hash, plan, from, before, k - 1);
      FailingNext(plan, k - 1, dead);
    }
  }

  /** A partition is buried exactly when it fails and the run has not stopped. */
  lemma {:induction false} StepBuries<P, V(!new)>(hash: Hashing, plan: Plan<P, V>, from: Disk, run: Run<V>, i: nat)
    requires Sound(hash, plan) && Honest(hash, plan, from) && i < |plan.parts|
    ensures var r := Step(hash, plan, Replayed(from, |from.journal|), run, i);
      if !run.report.stopped && plan.process(plan.parts[i]).Err?
      then r.disk.dead == run.disk.dead + [plan.taskId(plan.parts[i])] && r.report.dead == run.report.dead + 1
      else r.disk.dead == run.disk.dead && r.report.dead == run.report.dead && r.report.stopped == run.report.stopped
  {
    hide Sound, Honest, StoredPartial, Rewrites, Appended, Appending, BadAfterLookup;
    if StoredPartial(hash, run.disk, Replayed(from, |from.journal|), plan.taskId(plan.parts[i])).Some? {
      StoredIsOwn(hash, plan, from, run.disk, i);
    }
  }

  /** From any honest disk, a run stops exactly when more partitions fail than its budget allows. One that does not
      stop returns what `finalize` makes of the succeeding partitions' results combined left to right in task
      order, or of `empty` if there are none, and leaves a dead letter for each failing task, in order. */
  lemma {:induction false} RunIsReduction<P, V(!new)>(hash: Hashing, plan: Plan<P, V>, disk: Disk)
    requires Sound(hash, plan) && Honest(hash, plan, disk)
    ensures var r := WholeRun(hash, plan, disk);
      var failing, partials := Failing(plan, |plan.parts|), Partials(plan, |plan.parts|);
      && (r.report.stopped <==> plan.budget.Some? && |failing| > plan.budget.value)
      && (!r.report.stopped ==>
            && r.disk.dead == disk.dead + TaskIds(plan, failing)
            && ValueOf(plan, r.acc)
               == plan.finalize(if partials == [] then plan.empty else Reduced(plan.combine, partials[0], partials[1..])))
  {
    hide Honest, Replayed, Sound, Step, After, Reduced, Folded;
    var n := |plan.parts|;
    ResumeEqualsUninterrupted(hash, plan, disk);
    UninterruptedIs(plan, n);
    FoldedIsReduced(plan.combine, Partials(plan, n));
    DeadLetters(hash, plan, disk, disk, n);
    assert Failing(plan, n)[..|Failing(plan, n)|] == Failing(plan, n);
  }

  // ---- any number of crashes --------------------------------------------------------------------

  /** Each disk is what a crash somewhere in a run on the one before it left, some blobs lost or corrupted. */
  ghost predicate Crashes<P, V>(hash: Hashing, plan: Plan<P, V>, disks: seq<Disk>) {
    && disks != [] && disks[0] == EMPTY
    && forall n :: 0 < n < |disks| ==> CrashedFrom(hash, plan, disks[n - 1], disks[n])
  }

  ghost predicate CrashedFrom<P, V>(hash: Hashing, plan: Plan<P, V>, before: Disk, after: Disk) {
    exists k :: 0 <= k < |WholeRun(hash, plan, before).past| && SameButBlobs(WholeRun(hash, plan, before).past[k], after)
  }

  ghost predicate SameButBlobs(a: Disk, b: Disk) {
    a.journal == b.journal && a.dead == b.dead
  }

  /** However often the run crashed, and wherever, running it to the end gives the uninterrupted value. */
  lemma {:induction false} CrashesChangeNothing<P, V(!new)>(hash: Hashing, plan: Plan<P, V>, disks: seq<Disk>)
    requires Sound(hash, plan) && Crashes(hash, plan, disks)
    ensures Honest(hash, plan, disks[|disks| - 1])
    ensures ValueOf(plan, WholeRun(hash, plan, disks[|disks| - 1]).acc)
         == ValueOf(plan, Folded(plan.combine, Uninterrupted(plan, |plan.parts|).values))
    ensures var r := WholeRun(hash, plan, disks[|disks| - 1]); var partials := Partials(plan, |plan.parts|);
      !r.report.stopped ==>
        ValueOf(plan, r.acc) == plan.finalize(if partials == [] then plan.empty else Reduced(plan.combine, partials[0], partials[1..]))
    decreases |disks|
  {
    hide Honest, Sound, WholeRun, Partials, Reduced;
    var n := |disks| - 1;
    if n == 0 {
      EmptyIsHonest(hash, plan);
    } else {
      var before := disks[..n];
      assert before[n - 1] == disks[n - 1];
      CrashesChangeNothing(hash, plan, before);
      assert CrashedFrom(hash, plan, disks[n - 1], disks[n]);
      ResumeEqualsUninterrupted(hash, plan, disks[n - 1]);
      var k :| 0 <= k < |WholeRun(hash, plan, disks[n - 1]).past| && SameButBlobs(WholeRun(hash, plan, disks[n - 1]).past[k], disks[n]);
      var passed := WholeRun(hash, plan, disks[n - 1]).past[k];
      CorruptionStaysHonest(hash, plan, passed, disks[n].blobs);
      assert disks[n] == passed.(blobs := disks[n].blobs);
    }
    ResumeEqualsUninterrupted(hash, plan, disks[n]);
    RunIsReduction(hash, plan, disks[n]);
  }

  // ---- blobs before records ---------------------------------------------------------------------

  /** The disk and every disk passed have the blobs their records name. */
  ghost predicate AllPresent<V>(run: Run<V>) {
    BlobsPresent(run.disk) && forall n :: 0 <= n < |run.past| ==> BlobsPresent(run.past[n])
  }

  lemma {:induction false} StepKeepsPresent<P, V>(hash: Hashing, plan: Plan<P, V>, completed: map<TaskId, Digest>, run: Run<V>, i: nat)
    requires i < |plan.parts| && AllPresent(run)
    ensures AllPresent(Step(hash, plan, completed, run, i))
  {
    hide BlobsPresent, Appended, Appending, Rewrites, Fetched;
    var task := plan.taskId(plan.parts[i]);
    if !run.report.stopped && StoredPartial(hash, run.disk, completed, task).None? {
      match plan.process(plan.parts[i])
      case Err(_) => DeadKeepsPresent(run.disk, task);
      case Ok(v) =>
        var bad := BadAfterLookup(hash, run.disk, run.bad, completed, task);
        var stored := AfterPut(hash, run.disk, bad, plan.encode(v));
        PutKeepsPresent(hash, run.disk, bad, plan.encode(v));
        PutIsThere(hash, run.disk, bad, plan.encode(v));
        AppendKeepsPresent(stored, Entry(task, hash(plan.encode(v))));
    }
  }

  lemma DeadKeepsPresent(disk: Disk, task: TaskId)
    requires BlobsPresent(disk)
    ensures BlobsPresent(disk.(dead := disk.dead + [task]))
  {
    forall k | 0 <= k < |disk.journal| ensures BlobPresent(disk.(dead := disk.dead + [task]), disk.journal[k]) {
      assert BlobPresent(disk, disk.journal[k]);
    }
  }

  lemma PutIsThere(hash: Hashing, disk: Disk, bad: set<Digest>, data: Blob)
    ensures hash(data) in AfterPut(hash, disk, bad, data).blobs
  {
  }

  /** A result is stored before it is journaled: wherever a run is cut short, each record on the disk has its blob. */
  lemma {:induction false} BlobsComeFirst<P, V>(hash: Hashing, plan: Plan<P, V>, completed: map<TaskId, Digest>, disk: Disk, k: nat)
    requires k <= |plan.parts| && BlobsPresent(disk)
    ensures AllPresent(After(hash, plan, completed, Start(disk, {}, []), k))
  {
    hide BlobsPresent, Step;
    if k > 0 {
      BlobsComeFirst(hash, plan, completed, disk, k - 1);
      StepKeepsPresent(hash, plan, completed, After(hash, plan, completed, Start(disk, {}, []), k - 1), k - 1);
    }
  }

  // ---- no finished task runs again --------------------------------------------------------------

  lemma {:induction false} StepKeepsVerified<P, V>(hash: Hashing, plan: Plan<P, V>, completed: map<TaskId, Digest>, run: Run<V>, i: nat, d: Digest)
    requires i < |plan.parts| && Fetched(hash, run.disk, d).Some?
    ensures Fetched(hash, Step(hash, plan, completed, run, i).disk, d).Some?
  {
  }

  /** One partition runs only if its stored partial is missing when it is reached. */
  lemma StepRuns<P, V>(hash: Hashing, plan: Plan<P, V>, completed: map<TaskId, Digest>, run: Run<V>, i: nat)
    requires i < |plan.parts|
    ensures var r := Step(hash, plan, completed, run, i);
      r.ran == run.ran
      || (r.ran == run.ran + [i] && StoredPartial(hash, run.disk, completed, plan.taskId(plan.parts[i])).None?)
  {
    hide Fetched, AfterPut, Appended, Appending;
  }

  /** A task journaled with a blob that verifies when the run starts is not run. */
  lemma {:induction false} FinishedTasksAreSkipped<P, V>(hash: Hashing, plan: Plan<P, V>, completed: map<TaskId, Digest>, start: Run<V>, k: nat)
    requires k <= |plan.parts| && start.ran == []
    ensures var r := After(hash, plan, completed, start, k);
      && (forall d :: Fetched(hash, start.disk, d).Some? ==> Fetched(hash, r.disk, d).Some?)
      && forall n :: 0 <= n < |r.ran| ==>
           r.ran[n] < k && StoredPartial(hash, start.disk, completed, plan.taskId(plan.parts[r.ran[n]])).None?
  {
    hide Fetched, Step;
    if k > 0 {
      FinishedTasksAreSkipped(hash, plan, completed, start, k - 1);
      var before := After(hash, plan, completed, start, k - 1);
      StepRuns(hash, plan, completed, before, k - 1);
      forall d | Fetched(hash, start.disk, d).Some? ensures Fetched(hash, After(hash, plan, completed, start, k).disk, d).Some? {
        StepKeepsVerified(hash, plan, completed, before, k - 1, d);
      }
    }
  }
}
