/** When a finished run leaves nothing to do (python/graphed/checkpoint/runner.py). */
module Rerun {
  import opened Collections
  import opened Checkpoint
  import opened Resume
  import opened Jobs

  /** The plan's partitions as jobs: a failing one has no result, and nothing is stored beside a result. */
  function JobsOf<P, V>(hash: Hashing, plan: Plan<P, V>): (jobs: seq<Job>)
    ensures |jobs| == |plan.parts|
    ensures forall i :: 0 <= i < |jobs| ==> jobs[i] == Job(plan.taskId(plan.parts[i]), ResultBlob(plan, plan.parts[i]), None, i)
  {
    seq(|plan.parts|, i requires 0 <= i < |plan.parts| => Job(plan.taskId(plan.parts[i]), ResultBlob(plan, plan.parts[i]), None, i))
  }

  function ResultBlob<P, V>(plan: Plan<P, V>, p: P): Option<Blob> {
    match plan.process(p) case Ok(v) => Some(plan.encode(v)) case Err(_) => None
  }

  function WithoutDead(disk: Disk): Disk {
    disk.(dead := [])
  }

  function SettingOf<P, V>(hash: Hashing, plan: Plan<P, V>, disk: Disk): Setting {
    Setting(hash, JobsOf(hash, plan), WithoutDead(disk))
  }

  lemma {:induction false} HonestJobs<P, V>(hash: Hashing, plan: Plan<P, V>, disk: Disk)
    requires Honest(hash, plan, disk)
    ensures SettingOf(hash, plan, disk).Honest()
  {
    var s := SettingOf(hash, plan, disk);
    forall k, i | 0 <= k < |s.disk.journal| && 0 <= i < |s.jobs| ensures s.HonestAt(s.disk.journal[k], i) {
      assert HonestAt(hash, plan, disk.journal[k], plan.parts[i]);
    }
  }

  lemma CompletedSame(disk: Disk)
    ensures Replayed(WithoutDead(disk), |disk.journal|) == Replayed(disk, |disk.journal|)
  {
    ReplayPrefix(WithoutDead(disk), disk, |disk.journal|);
  }

  /** A step of the runner does to the store what its job does. */
  lemma {:induction false} StepIsJob<P, V>(hash: Hashing, plan: Plan<P, V>, completed: map<TaskId, Digest>, run: Run<V>, i: nat)
    requires i < |plan.parts| && !run.report.stopped
    ensures var after := Step(hash, plan, completed, run, i);
      Work(WithoutDead(after.disk), after.bad, after.ran)
      == JobStep(hash, completed, JobsOf(hash, plan), Work(WithoutDead(run.disk), run.bad, run.ran), i)
  {
    hide Appended, Appending;
  }

  lemma {:induction false} AfterIsWork<P, V>(hash: Hashing, plan: Plan<P, V>, disk: Disk, k: nat)
    requires k <= |plan.parts| && !WholeRun(hash, plan, disk).report.stopped
    ensures var run := After(hash, plan, Replayed(disk, |disk.journal|), Start(disk, {}, []), k);
      Work(WithoutDead(run.disk), run.bad, run.ran) == SettingOf(hash, plan, disk).WorkAt(k)
  {
    hide Step, JobStep, Replayed;
    CompletedSame(disk);
    if k > 0 {
      AfterIsWork(hash, plan, disk, k - 1);
      var before := After(hash, plan, Replayed(disk, |disk.journal|), Start(disk, {}, []), k - 1);
      if before.report.stopped { StoppedStays(hash, plan, Replayed(disk, |disk.journal|), Start(disk, {}, []), k - 1); }
      StepIsJob(hash, plan, Replayed(disk, |disk.journal|), before, k - 1);
    }
  }

  /** A finished run executes as many tasks as it lists. */
  lemma {:induction false} FinishedIsWork<P, V(!new)>(hash: Hashing, plan: Plan<P, V>, disk: Disk)
    requires Sound(hash, plan) && Honest(hash, plan, disk) && !WholeRun(hash, plan, disk).report.stopped
    ensures var run := WholeRun(hash, plan, disk); var work := SettingOf(hash, plan, disk).WholeWork();
      && Honest(hash, plan, run.disk) && CollisionFree(hash)
      && run.report.executed == |work.ran| && WithoutDead(run.disk) == work.disk
  {
    hide Honest, After, WorkAfter;
    ResumeEqualsUninterrupted(hash, plan, disk);
    AfterIsWork(hash, plan, disk, |plan.parts|);
  }

  /** A run executes nothing exactly when every succeeding partition's result is stored. */
  lemma {:induction false} IdleRunIff<P, V(!new)>(hash: Hashing, plan: Plan<P, V>, disk: Disk)
    requires Sound(hash, plan) && Honest(hash, plan, disk) && !WholeRun(hash, plan, disk).report.stopped
    ensures WholeRun(hash, plan, disk).report.executed == 0 <==> SettingOf(hash, plan, disk).AllStored()
  {
    hide Honest, Sound, WholeRun, WorkAfter, Setting.Honest;
    FinishedIsWork(hash, plan, disk);
    HonestJobs(hash, plan, disk);
    IdleIff(SettingOf(hash, plan, disk));
  }

  /** Run again after a finished run, the runner executes no task exactly when, on the disk the finished run
      started from, everything was stored, or no result was stuck and every task stays recorded. */
  lemma {:induction false} SecondRunIsIdleIff<P, V(!new)>(hash: Hashing, plan: Plan<P, V>, disk: Disk)
    requires Sound(hash, plan) && Honest(hash, plan, disk) && !WholeRun(hash, plan, disk).report.stopped
    ensures WholeRun(hash, plan, WholeRun(hash, plan, disk).disk).report.executed == 0 <==> SettingOf(hash, plan, disk).LeavesNothing()
  {
    hide Honest, Sound, WholeRun, WorkAfter, Setting.Honest, Setting.LeavesNothing;
    var after := WholeRun(hash, plan, disk).disk;
    FinishedIsWork(hash, plan, disk);
    StoppedAlike(hash, plan, disk, after);
    FinishedIsWork(hash, plan, after);
    HonestJobs(hash, plan, disk);
    HonestJobs(hash, plan, after);
    SecondWorkIsIdleIff(SettingOf(hash, plan, disk));
  }

  lemma {:induction false} StoppedAlike<P, V(!new)>(hash: Hashing, plan: Plan<P, V>, a: Disk, b: Disk)
    requires Sound(hash, plan) && Honest(hash, plan, a) && Honest(hash, plan, b)
    ensures WholeRun(hash, plan, a).report.stopped == WholeRun(hash, plan, b).report.stopped
  {
    hide Honest, Sound, WholeRun;
    ResumeEqualsUninterrupted(hash, plan, a);
    ResumeEqualsUninterrupted(hash, plan, b);
  }

  // ---- what the condition comes to ---------------------------------------------------------------

  /** Every blob verifies and the last line is ended. */
  ghost predicate Intact(hash: Hashing, disk: Disk) {
    (forall d :: d in disk.blobs ==> hash(disk.blobs[d]) == d) && !Torn(disk.journal)
  }

  /** On an intact store a finished run leaves nothing to do. */
  lemma {:induction false} FinishedRunLeavesNothing<P, V(!new)>(hash: Hashing, plan: Plan<P, V>, disk: Disk)
    requires Sound(hash, plan) && Honest(hash, plan, disk) && Intact(hash, disk) && !WholeRun(hash, plan, disk).report.stopped
    ensures WholeRun(hash, plan, WholeRun(hash, plan, disk).disk).report.executed == 0
  {
    hide Honest, Sound, WholeRun;
    SecondRunIsIdleIff(hash, plan, disk);
  }

  /** An example: one partition, a crash inside the very first append, and a finished run. Its record is lost,
      so the next run executes it again. */
  lemma {:induction false} TornDiskReruns<P, V(!new)>(hash: Hashing, plan: Plan<P, V>)
    requires Sound(hash, plan) && |plan.parts| == 1 && plan.process(plan.parts[0]).Ok?
    ensures var disk := Disk(map[], [Unended(None)], []);
      && Honest(hash, plan, disk) && !WholeRun(hash, plan, disk).report.stopped
      && WholeRun(hash, plan, WholeRun(hash, plan, disk).disk).report.executed == 1
  {
    hide Sound, WholeRun;
    OnlyPartRuns(hash, plan, Disk(map[], [Unended(None)], []));
  }

  /** An example: one partition whose result's blob is there, corrupted, and of the right size. Putting the
      result does not look inside, so the next run executes it again. */
  lemma {:induction false} CorruptBlobReruns<P, V(!new)>(hash: Hashing, plan: Plan<P, V>, other: Blob)
    requires Sound(hash, plan) && |plan.parts| == 1 && plan.process(plan.parts[0]).Ok?
    requires other != plan.encode(plan.process(plan.parts[0]).value) && |other| == |plan.encode(plan.process(plan.parts[0]).value)|
    ensures var disk := Disk(map[hash(plan.encode(plan.process(plan.parts[0]).value)) := other], [], []);
      && Honest(hash, plan, disk) && !WholeRun(hash, plan, disk).report.stopped
      && WholeRun(hash, plan, WholeRun(hash, plan, disk).disk).report.executed == 1
  {
    hide WholeRun;
    var disk := Disk(map[hash(plan.encode(plan.process(plan.parts[0]).value)) := other], [], []);
    var s := SettingOf(hash, plan, disk);
    assert s.Completed() == map[];
    assert s.Stuck(0);
    OnlyPartRuns(hash, plan, disk);
  }

  /** An example: one partition whose blob is lost, its record kept before a torn line. It runs, its new record
      is lost to the tear, and the old one serves: the next run executes nothing. */
  lemma {:induction false} OldRecordOutlivesTear<P, V(!new)>(hash: Hashing, plan: Plan<P, V>)
    requires Sound(hash, plan) && |plan.parts| == 1 && plan.process(plan.parts[0]).Ok?
    ensures var e := Entry(plan.taskId(plan.parts[0]), hash(plan.encode(plan.process(plan.parts[0]).value)));
      var disk := Disk(map[], [Record(e), Unended(None)], []);
      && Honest(hash, plan, disk) && !WholeRun(hash, plan, disk).report.stopped
      && WholeRun(hash, plan, disk).report.executed == 1
      && WholeRun(hash, plan, WholeRun(hash, plan, disk).disk).report.executed == 0
  {
    hide WholeRun, Sound;
    var e := Entry(plan.taskId(plan.parts[0]), hash(plan.encode(plan.process(plan.parts[0]).value)));
    var s := SettingOf(hash, plan, Disk(map[], [Record(e), Unended(None)], []));
    OneTally(plan);
    ResumeEqualsUninterrupted(hash, plan, s.disk);
    assert !s.Stored(0);
    IdleRunIff(hash, plan, s.disk);
    var kept := Ended(s.disk.journal);
    assert kept == [Record(e)] && RecordsAt(kept, 0, s.Task(0));
    SecondRunIsIdleIff(hash, plan, s.disk);
  }

  lemma {:induction false} OnlyPartRuns<P, V(!new)>(hash: Hashing, plan: Plan<P, V>, disk: Disk)
    requires Sound(hash, plan) && |plan.parts| == 1 && plan.process(plan.parts[0]).Ok?
    requires var s := SettingOf(hash, plan, disk);
      s.Completed() == map[] && !Recorded(disk.journal, s.Task(0)) && (Torn(disk.journal) || s.Stuck(0))
    ensures Honest(hash, plan, disk) && !WholeRun(hash, plan, disk).report.stopped
    ensures WholeRun(hash, plan, WholeRun(hash, plan, disk).disk).report.executed == 1
  {
    hide Sound, WholeRun;
    var s := SettingOf(hash, plan, disk);
    assert Honest(hash, plan, disk) by {
      forall k, i | 0 <= k < |disk.journal| && 0 <= i < 1 ensures HonestAt(hash, plan, disk.journal[k], plan.parts[i]) {
        assert !RecordsAt(disk.journal, k, s.Task(0));
      }
    }
    OneTally(plan);
    ResumeEqualsUninterrupted(hash, plan, disk);
    ResumeEqualsUninterrupted(hash, plan, WholeRun(hash, plan, disk).disk);
    SecondRunIsIdleIff(hash, plan, disk);
    NotLeft(s);
  }

  lemma OneTally<P, V>(plan: Plan<P, V>)
    requires |plan.parts| == 1 && plan.process(plan.parts[0]).Ok?
    ensures !Uninterrupted(plan, 1).stopped && |Uninterrupted(plan, 1).values| == 1
  {
    assert Uninterrupted(plan, 0) == Tally([], 0, false);
  }

  lemma NotLeft(s: Setting)
    requires |s.jobs| == 1 && s.Succeeds(0)
    requires s.Completed() == map[] && !Recorded(s.disk.journal, s.Task(0)) && (Torn(s.disk.journal) || s.Stuck(0))
    ensures !s.LeavesNothing()
  {
    assert !s.Stored(0);
    if Torn(s.disk.journal) {
      var kept := Ended(s.disk.journal);
      forall k | 0 <= k < |kept| ensures !RecordsAt(kept, k, s.Task(0)) {
        assert !RecordsAt(s.disk.journal, k, s.Task(0));
      }
      assert !s.StaysRecorded(0);
    }
  }
}
