/** What both resumable runners do to their store, and what a second run still has to do
    (python/graphed/checkpoint/runner.py). */
module Jobs {
  import opened Collections
  import opened Checkpoint
  import Resume

  /** Some readable line of the journal records the task. */
  ghost predicate Recorded(journal: seq<Line>, task: TaskId) {
    exists k :: 0 <= k < |journal| && RecordsAt(journal, k, task)
  }

  predicate RecordsAt(journal: seq<Line>, k: nat, task: TaskId)
    requires k < |journal|
  {
    Readable(journal[k]).Some? && Readable(journal[k]).value.task == task
  }

  /** The journal without the line an append would run into. */
  function Ended(journal: seq<Line>): seq<Line> {
    if Torn(journal) then journal[..|journal| - 1] else journal
  }

  // ---- the part of a runner that touches the store -----------------------------------------------

  /** One unit of a run: its task, the blob it makes unless it fails, and a blob stored beside the first
      result of its group. */
  datatype Job = Job(task: TaskId, result: Option<Blob>, extra: Option<Blob>, group: nat)

  /** What the jobs so far left: the disk, the blobs found not to verify, and which of them ran. */
  datatype Work = Work(disk: Disk, bad: set<Digest>, ran: seq<nat>)

  function PutInto(hash: Hashing, work: Work, data: Blob): Work {
    work.(disk := AfterPut(hash, work.disk, work.bad, data),
          bad := if Rewrites(hash, work.disk, work.bad, data) then work.bad - {hash(data)} else work.bad)
  }

  /** No job of the group is among `ran`. */
  predicate FirstOfGroup(jobs: seq<Job>, ran: seq<nat>, group: nat) {
    forall n :: 0 <= n < |ran| && ran[n] < |jobs| ==> jobs[ran[n]].group != group
  }

  function JobStep(hash: Hashing, completed: map<TaskId, Digest>, jobs: seq<Job>, work: Work, i: nat): Work
    requires i < |jobs|
  {
    var job := jobs[i];
    if Resume.StoredPartial(hash, work.disk, completed, job.task).Some? then work
    else
      var looked := work.(bad := Resume.BadAfterLookup(hash, work.disk, work.bad, completed, job.task));
      if job.result.None? then looked
      else
        var put := PutInto(hash, looked, job.result.value);
        var beside := if job.extra.Some? && FirstOfGroup(jobs, work.ran, job.group) then PutInto(hash, put, job.extra.value) else put;
        Work(beside.disk.(journal := Appended(beside.disk.journal, Entry(job.task, hash(job.result.value)))), beside.bad, work.ran + [i])
  }

  function WorkAfter(hash: Hashing, completed: map<TaskId, Digest>, jobs: seq<Job>, start: Work, k: nat): Work
    requires k <= |jobs|
  {
    if k == 0 then start else JobStep(hash, completed, jobs, WorkAfter(hash, completed, jobs, start, k - 1), k - 1)
  }

  /** Jobs, and the disk a run of them starts from. */
  datatype Setting = Setting(hash: Hashing, jobs: seq<Job>, disk: Disk) {

    function Completed(): map<TaskId, Digest> {
      Replayed(disk, |disk.journal|)
    }

    function WorkAt(k: nat): Work
      requires k <= |jobs|
    {
      WorkAfter(hash, Completed(), jobs, Work(disk, {}, []), k)
    }

    function WholeWork(): Work {
      WorkAt(|jobs|)
    }

    predicate Succeeds(i: nat) {
      i < |jobs| && jobs[i].result.Some?
    }

    function Task(i: nat): TaskId
      requires i < |jobs|
    {
      jobs[i].task
    }

    function Result(i: nat): Blob
      requires Succeeds(i)
    {
      jobs[i].result.value
    }

    function Name(i: nat): Digest
      requires Succeeds(i)
    {
      hash(Result(i))
    }

    /** Every readable record of one of the jobs names that job's own result. */
    ghost predicate Honest() {
      forall k, i :: 0 <= k < |disk.journal| && 0 <= i < |jobs| ==> HonestAt(disk.journal[k], i)
    }

    ghost predicate HonestAt(line: Line, i: nat)
      requires i < |jobs|
    {
      match Readable(line)
      case None => true
      case Some(e) => e.task == Task(i) ==> Succeeds(i) && e.blob == Name(i)
    }

    predicate Stored(i: nat)
      requires i < |jobs|
    {
      Resume.StoredPartial(hash, disk, Completed(), Task(i)).Some?
    }

    /** Nothing is left to run. */
    ghost predicate AllStored() {
      forall i :: 0 <= i < |jobs| && Succeeds(i) ==> Stored(i)
    }

    predicate Absent(d: Digest, size: nat) {
      d !in disk.blobs || |disk.blobs[d]| != size
    }

    /** Putting job `i`'s result would rewrite a blob of it that does not verify: it is absent, its size
        differs, or the job's own lookup reads it first. */
    predicate Mends(i: nat)
      requires Succeeds(i)
    {
      Task(i) in Completed() || Absent(Name(i), |Result(i)|)
    }

    /** Job `r` leaves `d` verifying: with its result, or with the blob it stores beside it. */
    ghost predicate MendsAt(r: nat, d: Digest)
      decreases r, 4
    {
      || (Succeeds(r) && Name(r) == d && Mends(r))
      || (ExtraAt(r) && hash(jobs[r].extra.value) == d && Absent(d, |jobs[r].extra.value|))
    }

    /** Job `r` runs first of its group, and stores a blob beside its result. */
    ghost predicate ExtraAt(r: nat)
      decreases r, 3
    {
      r < |jobs| && jobs[r].extra.Some? && Runs(r) && forall q :: 0 <= q < r && Runs(q) ==> jobs[q].group != jobs[r].group
    }

    /** One of the first `k` jobs leaves `d` verifying. */
    ghost predicate Mended(d: Digest, k: nat)
      decreases k, 0
    {
      exists r :: 0 <= r < k && MendsAt(r, d)
    }

    /** Job `i`'s lookup finds its result: stored at the start, or mended before its turn. */
    ghost predicate Skips(i: nat)
      requires Succeeds(i)
      decreases i, 1
    {
      Task(i) in Completed() && (Fetched(hash, disk, Name(i)).Some? || Mended(Name(i), i))
    }

    ghost predicate Runs(i: nat)
      decreases i, 2
    {
      Succeeds(i) && !Skips(i)
    }

    /** Job `r` runs, and is not the first to. */
    ghost predicate RunsLater(r: nat) {
      Runs(r) && exists q :: 0 <= q < r && Runs(q)
    }

    /** The blob of job `i`'s result is there, of its size, does not verify, and no lookup reads it. */
    ghost predicate Stuck(i: nat)
      requires Succeeds(i)
    {
      && Name(i) in disk.blobs && hash(disk.blobs[Name(i)]) != Name(i) && |disk.blobs[Name(i)]| == |Result(i)|
      && forall j :: 0 <= j < |jobs| && Succeeds(j) && Name(j) == Name(i) ==> Task(j) !in Completed()
    }

    /** Past a torn line, whose record the first append costs together with its own: job `i`'s task has another
        record, or gets one from a job that runs later. */
    ghost predicate StaysRecorded(i: nat)
      requires i < |jobs|
    {
      Torn(disk.journal) ==>
        Recorded(Ended(disk.journal), Task(i)) || exists r :: 0 <= r < |jobs| && RunsLater(r) && Task(r) == Task(i)
    }

    /** The exact condition for a finished run to leave nothing to do. */
    ghost predicate LeavesNothing() {
      AllStored() || forall i :: 0 <= i < |jobs| && Succeeds(i) ==> !Stuck(i) && StaysRecorded(i)
    }

    function EntryOf(i: nat): Entry
      requires Succeeds(i)
    {
      Entry(Task(i), Name(i))
    }

    /** The journal after the jobs `ran` were committed in turn. */
    function JournalOf(ran: seq<nat>): seq<Line>
      requires forall n :: 0 <= n < |ran| ==> Succeeds(ran[n])
    {
      if ran == [] then disk.journal
      else Appended(JournalOf(ran[..|ran| - 1]), EntryOf(ran[|ran| - 1]))
    }
  }

  // ---- what a run does, told from the disk it starts from ----------------------------------------

  /** What verified, or is `good` now, verifies; any other blob is as it was. */
  ghost predicate Seen(s: Setting, disk: Disk, d: Digest, good: bool) {
    if Fetched(s.hash, s.disk, d).Some? || good then Fetched(s.hash, disk, d).Some?
    else (d in disk.blobs <==> d in s.disk.blobs) && (d in s.disk.blobs ==> disk.blobs[d] == s.disk.blobs[d])
  }

  ghost predicate BlobAt(s: Setting, disk: Disk, k: nat, d: Digest) {
    Seen(s, disk, d, s.Mended(d, k))
  }

  ghost predicate BlobsAt(s: Setting, disk: Disk, k: nat) {
    forall d :: BlobAt(s, disk, k, d)
  }

  /** The jobs run among the first `k`, in order. */
  ghost predicate RanAt(s: Setting, ran: seq<nat>, k: nat) {
    && (forall n :: 0 <= n < |ran| ==> ran[n] < k && s.Runs(ran[n]))
    && (forall i :: 0 <= i < k && s.Runs(i) ==> i in ran)
    && forall m, n :: 0 <= m < n < |ran| ==> ran[m] < ran[n]
  }

  ghost predicate Tracks(s: Setting, work: Work, k: nat) {
    && work.bad == {} && RanAt(s, work.ran, k) && work.disk.journal == s.JournalOf(work.ran) && BlobsAt(s, work.disk, k)
  }

  lemma {:induction false} ReplayIsHonest(s: Setting, n: nat, i: nat)
    requires s.Honest() && n <= |s.disk.journal| && i < |s.jobs| && s.Task(i) in Replayed(s.disk, n)
    ensures s.Succeeds(i) && Replayed(s.disk, n)[s.Task(i)] == s.Name(i)
  {
    if n > 0 {
      assert s.HonestAt(s.disk.journal[n - 1], i);
      if s.Task(i) in Replayed(s.disk, n - 1) { ReplayIsHonest(s, n - 1, i); }
    }
  }

  /** A lookup goes to the job's own result. */
  lemma {:induction false} LookupIsOwn(s: Setting, i: nat)
    requires s.Honest() && i < |s.jobs| && s.Task(i) in s.Completed()
    ensures s.Succeeds(i) && s.Completed()[s.Task(i)] == s.Name(i) && s.Name(i) in s.disk.blobs
  {
    ReplayIsHonest(s, |s.disk.journal|, i);
    ReplayIsLatest(s.disk, |s.disk.journal|, s.Task(i));
    var k: nat :| LatestAt(s.disk, |s.disk.journal|, s.Task(i), s.Completed()[s.Task(i)], k);
  }

  lemma MendedNext(s: Setting, d: Digest, k: nat)
    ensures s.Mended(d, k + 1) <==> s.Mended(d, k) || s.MendsAt(k, d)
  {
    hide Setting.MendsAt;
  }

  lemma MendedBy(s: Setting, d: Digest, k: nat) returns (r: nat)
    requires s.Mended(d, k)
    ensures r < k && s.MendsAt(r, d)
  {
    r :| 0 <= r < k && s.MendsAt(r, d);
  }

  lemma MendsByResultOrBeside(s: Setting, r: nat, d: Digest)
    requires s.MendsAt(r, d)
    ensures (s.Succeeds(r) && s.Name(r) == d && s.Mends(r))
         || (s.Runs(r) && s.jobs[r].extra.Some? && s.hash(s.jobs[r].extra.value) == d && s.Absent(d, |s.jobs[r].extra.value|))
  {
    hide Setting.Runs;
  }

  lemma SkipsWhat(s: Setting, i: nat)
    requires s.Succeeds(i) && !s.Runs(i)
    ensures s.Task(i) in s.Completed() && (Fetched(s.hash, s.disk, s.Name(i)).Some? || s.Mended(s.Name(i), i))
  {
    hide Setting.Mended;
  }

  lemma {:induction false} SkippedTracks(s: Setting, work: Work, k: nat)
    requires s.Honest() && Tracks(s, work, k) && k < |s.jobs|
    requires Resume.StoredPartial(s.hash, work.disk, s.Completed(), s.Task(k)).Some?
    ensures !s.Runs(k) && BlobsAt(s, work.disk, k + 1)
  {
    hide Setting.Mended, Setting.Honest;
    LookupIsOwn(s, k);
    assert BlobAt(s, work.disk, k, s.Name(k));
    assert s.Skips(k) && !s.Runs(k) && !s.ExtraAt(k);
    var next := k + 1;
    forall d ensures BlobAt(s, work.disk, next, d) {
      MendedNext(s, d, k);
      assert BlobAt(s, work.disk, k, d);
    }
  }

  lemma {:induction false} FailedTracks(s: Setting, disk: Disk, k: nat)
    requires BlobsAt(s, disk, k) && k < |s.jobs| && !s.Succeeds(k)
    ensures !s.Runs(k) && BlobsAt(s, disk, k + 1)
  {
    hide Setting.Mended;
    assert !s.Runs(k) && !s.ExtraAt(k);
    var next := k + 1;
    forall d ensures BlobAt(s, disk, next, d) {
      MendedNext(s, d, k);
      assert BlobAt(s, disk, k, d);
    }
  }

  /** A job whose lookup finds nothing runs; its lookup reads its own blob, if it reads any. */
  lemma {:induction false} LookedTracks(s: Setting, work: Work, k: nat)
    requires s.Honest() && Tracks(s, work, k) && k < |s.jobs| && s.Succeeds(k)
    requires Resume.StoredPartial(s.hash, work.disk, s.Completed(), s.Task(k)).None?
    ensures s.Runs(k)
    ensures s.Task(k) in s.Completed() ==> Fetched(s.hash, work.disk, s.Name(k)).None?
    ensures Resume.BadAfterLookup(s.hash, work.disk, work.bad, s.Completed(), s.Task(k))
         == if s.Task(k) in s.Completed() then {s.Name(k)} else {}
  {
    hide Setting.Mended, Setting.Honest;
    assert BlobAt(s, work.disk, k, s.Name(k));
    if s.Task(k) in s.Completed() { LookupIsOwn(s, k); }
  }

  /** A put mends its own blob if that does not verify and is known bad, absent, or of another size. */
  lemma {:induction false} PutSeen(s: Setting, work: Work, data: Blob, read: bool, d: Digest, good: bool)
    requires CollisionFree(s.hash) && Seen(s, work.disk, d, good)
    requires work.bad == (if read then {s.hash(data)} else {}) && (read ==> Fetched(s.hash, work.disk, s.hash(data)).None?)
    ensures Seen(s, PutInto(s.hash, work, data).disk, d, good || (d == s.hash(data) && (read || s.Absent(d, |data|))))
  {
    if d == s.hash(data) && Fetched(s.hash, work.disk, d).Some? {
      assert s.hash(work.disk.blobs[d]) == s.hash(data);
    }
  }

  /** Nothing is known bad after a put, if only its own blob was before. */
  lemma PutForgets(hash: Hashing, work: Work, data: Blob, read: bool)
    requires work.bad == if read then {hash(data)} else {}
    ensures var put := PutInto(hash, work, data);
      put.bad == {} && put.ran == work.ran && put.disk.journal == work.disk.journal
  {
  }

  /** Whether the blob beside job `k`'s result is stored now is told by the disk the run started from. */
  lemma {:induction false} FirstIsExtra(s: Setting, ran: seq<nat>, k: nat)
    requires RanAt(s, ran, k) && k < |s.jobs| && s.Runs(k)
    ensures s.jobs[k].extra.Some? && FirstOfGroup(s.jobs, ran, s.jobs[k].group) <==> s.ExtraAt(k)
  {
    hide Setting.Runs;
    if s.jobs[k].extra.Some? && FirstOfGroup(s.jobs, ran, s.jobs[k].group) {
      forall q | 0 <= q < k && s.Runs(q) ensures s.jobs[q].group != s.jobs[k].group {
        assert q in ran && ran[IndexOf(ran, q)] == q;
      }
    }
  }

  /** The blobs after job `k` ran. */
  lemma {:induction false} CommittedTracks(s: Setting, work: Work, k: nat)
    requires CollisionFree(s.hash) && s.Honest() && Tracks(s, work, k) && k < |s.jobs| && s.Succeeds(k)
    requires Resume.StoredPartial(s.hash, work.disk, s.Completed(), s.Task(k)).None?
    ensures s.Runs(k)
    ensures var looked := work.(bad := Resume.BadAfterLookup(s.hash, work.disk, work.bad, s.Completed(), s.Task(k)));
      var put := PutInto(s.hash, looked, s.Result(k));
      var beside := if s.jobs[k].extra.Some? && FirstOfGroup(s.jobs, work.ran, s.jobs[k].group) then PutInto(s.hash, put, s.jobs[k].extra.value) else put;
      BlobsAt(s, beside.disk, k + 1) && beside.bad == {} && beside.disk.journal == work.disk.journal
  {
    hide Setting.Mended, Setting.Honest, Setting.Runs, Setting.ExtraAt, RanAt, Fetched, PutInto, FirstOfGroup, CollisionFree, Seen;
    LookedTracks(s, work, k);
    FirstIsExtra(s, work.ran, k);
    var read := s.Task(k) in s.Completed();
    var looked := work.(bad := Resume.BadAfterLookup(s.hash, work.disk, work.bad, s.Completed(), s.Task(k)));
    var put := PutInto(s.hash, looked, s.Result(k));
    PutForgets(s.hash, looked, s.Result(k), read);
    if s.ExtraAt(k) { PutForgets(s.hash, put, s.jobs[k].extra.value, false); }
    var final := if s.ExtraAt(k) then PutInto(s.hash, put, s.jobs[k].extra.value) else put;
    var next := k + 1;
    forall d ensures BlobAt(s, final.disk, next, d) {
      assert BlobAt(s, work.disk, k, d);
      MendedNext(s, d, k);
      PutSeen(s, looked, s.Result(k), read, d, s.Mended(d, k));
      if s.ExtraAt(k) {
        PutSeen(s, put, s.jobs[k].extra.value, false, d, s.Mended(d, k) || (d == s.Name(k) && s.Mends(k)));
      }
    }
  }

  lemma {:induction false} StepTracks(s: Setting, work: Work, k: nat)
    requires CollisionFree(s.hash) && s.Honest() && k < |s.jobs| && Tracks(s, work, k)
    ensures Tracks(s, JobStep(s.hash, s.Completed(), s.jobs, work, k), k + 1)
  {
    hide Setting.Honest, Setting.Runs, CollisionFree, Replayed, Fetched, Appended, PutInto, BlobsAt, RanAt, FirstOfGroup;
    var after := JobStep(s.hash, s.Completed(), s.jobs, work, k);
    if Resume.StoredPartial(s.hash, work.disk, s.Completed(), s.Task(k)).Some? {
      SkippedTracks(s, work, k);
      RanStays(s, work.ran, k);
    } else if s.Succeeds(k) {
      CommittedTracks(s, work, k);
      RanMore(s, work.ran, k);
      JournalMore(s, work.ran, k);
      var looked := work.(bad := Resume.BadAfterLookup(s.hash, work.disk, work.bad, s.Completed(), s.Task(k)));
      var put := PutInto(s.hash, looked, s.Result(k));
      var beside := if s.jobs[k].extra.Some? && FirstOfGroup(s.jobs, work.ran, s.jobs[k].group) then PutInto(s.hash, put, s.jobs[k].extra.value) else put;
      SameBlobs(s, beside.disk, after.disk, k + 1);
    } else {
      if s.Task(k) in s.Completed() { LookupIsOwn(s, k); }
      FailedTracks(s, work.disk, k);
      RanStays(s, work.ran, k);
    }
  }

  lemma SameBlobs(s: Setting, a: Disk, b: Disk, k: nat)
    requires BlobsAt(s, a, k) && a.blobs == b.blobs
    ensures BlobsAt(s, b, k)
  {
    forall d ensures BlobAt(s, b, k, d) {
      assert BlobAt(s, a, k, d);
    }
  }

  lemma RanStays(s: Setting, ran: seq<nat>, k: nat)
    requires RanAt(s, ran, k) && !s.Runs(k)
    ensures RanAt(s, ran, k + 1)
  {
    hide Setting.Runs;
  }

  lemma RanMore(s: Setting, ran: seq<nat>, k: nat)
    requires RanAt(s, ran, k) && s.Runs(k)
    ensures RanAt(s, ran + [k], k + 1)
  {
    hide Setting.Runs;
    assert (ran + [k])[|ran|] == k;
    forall i | 0 <= i < k + 1 && s.Runs(i) ensures i in ran + [k] {
    }
  }

  lemma RanSucceeds(s: Setting, ran: seq<nat>, k: nat)
    requires RanAt(s, ran, k)
    ensures forall n :: 0 <= n < |ran| ==> s.Succeeds(ran[n])
  {
    hide Setting.Skips;
  }

  lemma JournalMore(s: Setting, ran: seq<nat>, k: nat)
    requires RanAt(s, ran, k) && s.Succeeds(k)
    ensures forall n :: 0 <= n < |ran + [k]| ==> s.Succeeds((ran + [k])[n])
    ensures s.JournalOf(ran + [k]) == Appended(s.JournalOf(ran), s.EntryOf(k))
  {
    RanSucceeds(s, ran, k);
    assert (ran + [k])[..|ran|] == ran;
  }

  lemma {:induction false} WorkTracks(s: Setting, k: nat)
    requires CollisionFree(s.hash) && s.Honest() && k <= |s.jobs|
    ensures Tracks(s, s.WorkAt(k), k)
  {
    hide Setting.Honest, CollisionFree, Replayed, JobStep, Fetched;
    if k > 0 {
      WorkTracks(s, k - 1);
      StepTracks(s, s.WorkAt(k - 1), k - 1);
    }
  }

  // ---- which tasks the journal still records -----------------------------------------------------

  lemma {:induction false} AppendRecords(journal: seq<Line>, e: Entry, task: TaskId)
    ensures !Torn(Appended(journal, e))
    ensures Recorded(Appended(journal, e), task) <==> Recorded(Ended(journal), task) || (!Torn(journal) && e.task == task)
  {
    var after, kept := Appended(journal, e), Ended(journal);
    if k :| 0 <= k < |after| && RecordsAt(after, k, task) {
      if k < |kept| { assert RecordsAt(kept, k, task); }
    }
    if k :| 0 <= k < |kept| && RecordsAt(kept, k, task) {
      assert RecordsAt(after, k, task);
    }
    if !Torn(journal) && e.task == task {
      assert RecordsAt(after, |journal|, task);
    }
  }

  /** The journal after a run: the records it started with, but for a torn line once anything is appended, and
      those of the jobs run, but for the first past a torn line. */
  lemma {:induction false} JournalRecords(s: Setting, ran: seq<nat>, task: TaskId)
    requires forall n :: 0 <= n < |ran| ==> s.Succeeds(ran[n])
    ensures ran != [] ==> !Torn(s.JournalOf(ran))
    ensures ran == [] ==> s.JournalOf(ran) == s.disk.journal
    ensures ran != [] ==>
      (Recorded(s.JournalOf(ran), task) <==>
        Recorded(Ended(s.disk.journal), task)
        || exists n :: (if Torn(s.disk.journal) then 1 else 0) <= n < |ran| && s.Task(ran[n]) == task)
  {
    if ran != [] {
      var m := |ran| - 1;
      var before := ran[..m];
      JournalRecords(s, before, task);
      AppendRecords(s.JournalOf(before), s.EntryOf(ran[m]), task);
      assert forall n :: 0 <= n < m ==> before[n] == ran[n];
    }
  }

  /** A job's result is stored exactly when its task is recorded and its blob verifies. */
  lemma {:induction false} StoredIff(s: Setting, i: nat)
    requires s.Honest() && s.Succeeds(i)
    ensures s.Stored(i) <==> Recorded(s.disk.journal, s.Task(i)) && Fetched(s.hash, s.disk, s.Name(i)).Some?
    ensures s.Task(i) in s.Completed() ==> Recorded(s.disk.journal, s.Task(i))
  {
    var n := |s.disk.journal|;
    ReplayIsLatest(s.disk, n, s.Task(i));
    if s.Task(i) in s.Completed() {
      LookupIsOwn(s, i);
      var k: nat :| LatestAt(s.disk, n, s.Task(i), s.Completed()[s.Task(i)], k);
      assert RecordsAt(s.disk.journal, k, s.Task(i));
    }
    if Recorded(s.disk.journal, s.Task(i)) && Fetched(s.hash, s.disk, s.Name(i)).Some? {
      var k :| 0 <= k < n && RecordsAt(s.disk.journal, k, s.Task(i));
      assert s.HonestAt(s.disk.journal[k], i);
      assert Readable(s.disk.journal[k]) == Some(Entry(s.Task(i), s.Name(i)));
    }
  }

  // ---- when nothing is left ----------------------------------------------------------------------

  /** If everything is skipped, nothing was mended. */
  lemma {:induction false} SkippedIsStored(s: Setting, i: nat)
    requires s.Honest() && s.Succeeds(i) && forall j :: 0 <= j <= i ==> !s.Runs(j)
    ensures s.Stored(i)
    decreases i
  {
    hide Setting.Mended, Setting.MendsAt, Setting.Runs, Setting.Honest;
    SkipsWhat(s, i);
    LookupIsOwn(s, i);
    if Fetched(s.hash, s.disk, s.Name(i)).None? {
      var r := MendedBy(s, s.Name(i), i);
      MendsByResultOrBeside(s, r, s.Name(i));
      SkippedIsStored(s, r);
      SkipsWhat(s, r);
      LookupIsOwn(s, r);
    }
  }

  /** A run has nothing to do exactly when everything is stored. */
  lemma {:induction false} IdleIff(s: Setting)
    requires CollisionFree(s.hash) && s.Honest()
    ensures s.WholeWork().ran == [] <==> s.AllStored()
  {
    hide Setting.Honest, CollisionFree, WorkAfter, BlobsAt, Fetched, Setting.Skips;
    var work := s.WholeWork();
    WorkTracks(s, |s.jobs|);
    if work.ran == [] {
      forall i | 0 <= i < |s.jobs| && s.Succeeds(i) ensures s.Stored(i) {
        SkippedIfNoneRan(s, work, i);
      }
    } else {
      RunIsNotStored(s, work.ran[0]);
    }
  }

  lemma {:induction false} RunIsNotStored(s: Setting, i: nat)
    requires s.Honest() && s.Runs(i)
    ensures !s.Stored(i)
  {
    if s.Task(i) in s.Completed() { LookupIsOwn(s, i); }
  }

  /** Every blob verifies in the end, unless it is stuck. */
  lemma {:induction false} MendedIff(s: Setting, i: nat)
    requires CollisionFree(s.hash) && s.Succeeds(i)
    ensures Fetched(s.hash, s.disk, s.Name(i)).Some? || s.Mended(s.Name(i), |s.jobs|) <==> !s.Stuck(i)
  {
    hide Setting.Mended, Setting.Runs;
    var d := s.Name(i);
    if s.Mended(d, |s.jobs|) {
      var r := MendedBy(s, d, |s.jobs|);
      MendsByResultOrBeside(s, r, d);
      assert s.Succeeds(r) && s.Name(r) == d ==> s.Result(r) == s.Result(i);
    } else if !s.Stuck(i) {
      if s.Mends(i) { MendsIsMended(s, d, i); }
      if d in s.disk.blobs && s.hash(s.disk.blobs[d]) != d {
        var j :| 0 <= j < |s.jobs| && s.Succeeds(j) && s.Name(j) == d && s.Task(j) in s.Completed();
        MendsIsMended(s, d, j);
      }
    }
  }

  lemma MendsIsMended(s: Setting, d: Digest, i: nat)
    requires s.Succeeds(i) && s.Name(i) == d && s.Mends(i)
    ensures s.Mended(d, |s.jobs|)
  {
    assert s.MendsAt(i, d);
  }

  /** What a finished run leaves recorded. */
  lemma {:induction false} RecordedIff(s: Setting, ran: seq<nat>, i: nat)
    requires s.Honest() && s.Succeeds(i) && RanAt(s, ran, |s.jobs|) && ran != []
    ensures Recorded(s.JournalOf(ran), s.Task(i)) <==> s.StaysRecorded(i)
  {
    hide Setting.Honest, Setting.Runs, Recorded;
    RanSucceeds(s, ran, |s.jobs|);
    JournalRecords(s, ran, s.Task(i));
    if Torn(s.disk.journal) {
      if r :| 0 <= r < |s.jobs| && s.RunsLater(r) && s.Task(r) == s.Task(i) {
        var q :| 0 <= q < r && s.Runs(q);
        assert q in ran && r in ran;
        var m := IndexOf(ran, q);
        var n := IndexOf(ran, r);
        assert 1 <= n && s.Task(ran[n]) == s.Task(i);
      }
      if n :| 1 <= n < |ran| && s.Task(ran[n]) == s.Task(i) {
        assert s.Runs(ran[0]) && ran[0] < ran[n];
        assert s.RunsLater(ran[n]);
      }
    } else if i in ran {
      assert s.Task(ran[IndexOf(ran, i)]) == s.Task(i);
    } else {
      SkippedIsRecorded(s, i);
    }
  }

  lemma {:induction false} SkippedIsRecorded(s: Setting, i: nat)
    requires s.Honest() && s.Succeeds(i) && !s.Runs(i)
    ensures Recorded(s.disk.journal, s.Task(i))
  {
    StoredIff(s, i);
  }

  /** Whether a run leaves job `i` stored. */
  lemma {:induction false} AgainStored(s: Setting, work: Work, i: nat)
    requires CollisionFree(s.hash) && s.Honest() && Setting(s.hash, s.jobs, work.disk).Honest()
    requires Tracks(s, work, |s.jobs|) && s.Succeeds(i)
    ensures Setting(s.hash, s.jobs, work.disk).Stored(i) <==>
      if work.ran == [] then s.Stored(i) else !s.Stuck(i) && s.StaysRecorded(i)
  {
    hide Setting.Honest, CollisionFree, RanAt, Fetched, Recorded, Setting.Stuck, Setting.StaysRecorded, Setting.Mended;
    var t := Setting(s.hash, s.jobs, work.disk);
    StoredIff(s, i);
    StoredIff(t, i);
    MendedIff(s, i);
    assert BlobAt(s, work.disk, |s.jobs|, s.Name(i));
    VerifiesIff(s, work.disk, i);
    if work.ran == [] {
      SkippedIfNoneRan(s, work, i);
    } else {
      RecordedIff(s, work.ran, i);
    }
  }

  /** Done again on the disk a run left, the jobs run none exactly when, on the disk that run started from,
      everything was stored, or no result was stuck and every task stays recorded. */
  lemma {:induction false} SecondWorkIsIdleIff(s: Setting)
    requires CollisionFree(s.hash) && s.Honest() && Setting(s.hash, s.jobs, s.WholeWork().disk).Honest()
    ensures Setting(s.hash, s.jobs, s.WholeWork().disk).WholeWork().ran == [] <==> s.LeavesNothing()
  {
    hide Setting.Honest, CollisionFree, WorkAfter, BlobsAt, Fetched, RanAt, Recorded, Setting.Stuck, Setting.StaysRecorded,
         Setting.Stored, Setting.JournalOf;
    var work := s.WholeWork();
    var t := Setting(s.hash, s.jobs, work.disk);
    WorkTracks(s, |s.jobs|);
    IdleIff(s);
    IdleIff(t);
    forall i | 0 <= i < |s.jobs| && s.Succeeds(i)
      ensures t.Stored(i) <==> if work.ran == [] then s.Stored(i) else !s.Stuck(i) && s.StaysRecorded(i)
    {
      AgainStored(s, work, i);
    }
  }

  lemma {:induction false} VerifiesIff(s: Setting, disk: Disk, i: nat)
    requires s.Succeeds(i) && BlobAt(s, disk, |s.jobs|, s.Name(i))
    ensures Fetched(s.hash, disk, s.Name(i)).Some? <==>
      Fetched(s.hash, s.disk, s.Name(i)).Some? || s.Mended(s.Name(i), |s.jobs|)
  {
  }

  lemma {:induction false} SkippedIfNoneRan(s: Setting, work: Work, i: nat)
    requires s.Honest() && Tracks(s, work, |s.jobs|) && work.ran == [] && s.Succeeds(i)
    ensures s.Stored(i)
  {
    hide Setting.Honest, BlobsAt, Setting.Skips;
    assert forall j :: 0 <= j < |s.jobs| && s.Runs(j) ==> j in work.ran;
    assert forall j :: 0 <= j <= i ==> !s.Runs(j);
    SkippedIsStored(s, i);
  }
}
