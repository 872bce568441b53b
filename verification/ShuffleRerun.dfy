/** When a finished shuffle leaves nothing to do (python/graphed/checkpoint/runner.py). */
module ShuffleRerun {
  import opened Collections
  import opened Checkpoint
  import opened Jobs
  import Rerun
  import Resume
  import opened ShuffleResume

  // ---- the tasks as jobs -------------------------------------------------------------------------

  /** What is stored beside the first block of stage `s`: the listing of the blocks it reads, if it reads any. */
  function ListingOf<T>(hash: Hashing, plan: Plan<T>, s: nat): Option<Blob>
    requires Staged(plan) && s < |plan.stages|
  {
    assert Below(plan.stages[s].inputs, s);
    Listing(plan, Flattened(AllDigests(hash, Payloads(plan, s)), plan.stages[s].inputs))
  }

  /** The listing names the blocks in the order the stage receives them. */
  lemma {:induction false} ListingIsOrdered<T>(hash: Hashing, plan: Plan<T>, s: nat)
    requires Staged(plan) && s < |plan.stages|
    ensures Below(plan.stages[s].inputs, s)
    ensures var digests := Concat(Gather(AllDigests(hash, Payloads(plan, s)), plan.stages[s].inputs));
      ListingOf(hash, plan, s) == if digests == [] then None else Some(plan.listing(digests))
  {
    assert Below(plan.stages[s].inputs, s);
    FlattenedIsConcat(AllDigests(hash, Payloads(plan, s)), plan.stages[s].inputs);
  }

  function StageJobs<T>(hash: Hashing, plan: Plan<T>, s: nat): (jobs: seq<Job>)
    requires Staged(plan) && s < |plan.stages|
    ensures |jobs| == |plan.stages[s].tasks|
    ensures forall i :: 0 <= i < |jobs| ==>
      jobs[i] == Job(plan.taskId(s, plan.stages[s].tasks[i]), Some(Own(plan, s, i)), ListingOf(hash, plan, s), s)
  {
    seq(|plan.stages[s].tasks|, i requires 0 <= i < |plan.stages[s].tasks| =>
      Job(plan.taskId(s, plan.stages[s].tasks[i]), Some(Own(plan, s, i)), ListingOf(hash, plan, s), s))
  }

  /** The tasks of the first `s` stages, in plan order. */
  function JobsBefore<T>(hash: Hashing, plan: Plan<T>, s: nat): (jobs: seq<Job>)
    requires Staged(plan) && s <= |plan.stages|
    ensures |jobs| == TaskCount(plan, s)
  {
    if s == 0 then [] else JobsBefore(hash, plan, s - 1) + StageJobs(hash, plan, s - 1)
  }

  function JobsOf<T>(hash: Hashing, plan: Plan<T>): (jobs: seq<Job>)
    requires Staged(plan)
  {
    JobsBefore(hash, plan, |plan.stages|)
  }

  /** A task's place among all tasks. */
  function PlaceOf<T>(plan: Plan<T>, at: (nat, nat)): nat {
    if at.0 <= |plan.stages| then TaskCount(plan, at.0) + at.1 else 0
  }

  ghost predicate JobIs<T>(hash: Hashing, plan: Plan<T>, jobs: seq<Job>, s: nat, i: nat)
    requires Staged(plan) && s < |plan.stages| && i < |plan.stages[s].tasks|
  {
    PlaceOf(plan, (s, i)) < |jobs| && jobs[PlaceOf(plan, (s, i))] == StageJobs(hash, plan, s)[i]
  }

  lemma {:induction false} JobBefore<T>(hash: Hashing, plan: Plan<T>, r: nat, s: nat, i: nat)
    requires Staged(plan) && s < r <= |plan.stages| && i < |plan.stages[s].tasks|
    ensures JobIs(hash, plan, JobsBefore(hash, plan, r), s, i)
  {
    hide StageJobs, ListingOf, Own;
    var before := JobsBefore(hash, plan, r - 1);
    assert JobsBefore(hash, plan, r) == before + StageJobs(hash, plan, r - 1);
    if s < r - 1 { JobBefore(hash, plan, r - 1, s, i); } else { assert PlaceOf(plan, (s, i)) == |before| + i; }
  }

  /** Every job is some task's. */
  lemma {:induction false} JobFrom<T>(hash: Hashing, plan: Plan<T>, r: nat, k: nat) returns (s: nat, i: nat)
    requires Staged(plan) && r <= |plan.stages| && k < TaskCount(plan, r)
    ensures s < r && i < |plan.stages[s].tasks| && k == PlaceOf(plan, (s, i))
    ensures JobsBefore(hash, plan, r)[k] == StageJobs(hash, plan, s)[i]
  {
    hide StageJobs;
    if k < TaskCount(plan, r - 1) {
      s, i := JobFrom(hash, plan, r - 1, k);
    } else {
      s, i := r - 1, k - TaskCount(plan, r - 1);
    }
  }

  function SettingOf<T>(hash: Hashing, plan: Plan<T>, disk: Disk): Setting
    requires Staged(plan)
  {
    Setting(hash, JobsOf(hash, plan), Rerun.WithoutDead(disk))
  }

  lemma {:induction false} HonestJobs<T>(hash: Hashing, plan: Plan<T>, disk: Disk)
    requires Staged(plan) && Honest(hash, plan, disk)
    ensures SettingOf(hash, plan, disk).Honest()
  {
    hide Own, JobsBefore, ListingOf;
    var t := SettingOf(hash, plan, disk);
    forall l, k | 0 <= l < |t.disk.journal| && 0 <= k < |t.jobs| ensures t.HonestAt(t.disk.journal[l], k) {
      var s, i := JobFrom(hash, plan, |plan.stages|, k);
      assert HonestAt(hash, plan, disk.journal[l], s, i);
    }
  }

  // ---- a run does to the store what its jobs do --------------------------------------------------

  function Places<T>(plan: Plan<T>, ran: seq<(nat, nat)>): (r: seq<nat>)
    ensures |r| == |ran| && forall n :: 0 <= n < |r| ==> r[n] == PlaceOf(plan, ran[n])
  {
    seq(|ran|, n requires 0 <= n < |ran| => PlaceOf(plan, ran[n]))
  }

  function WorkOf<T>(plan: Plan<T>, run: Run): Work {
    Work(Rerun.WithoutDead(run.disk), run.bad, Places(plan, run.ran))
  }

  lemma PutIsInto<T>(hash: Hashing, plan: Plan<T>, run: Run, data: Blob)
    ensures WorkOf(plan, Put(hash, run, data)) == PutInto(hash, WorkOf(plan, run), data)
  {
  }

  /** What the jobs of stage `s` see while the stage runs: whether one of them ran is what `listed` says. */
  ghost predicate InStage<T>(hash: Hashing, plan: Plan<T>, s: nat, run: Run, block: Block)
    requires Staged(plan)
  {
    block.listed <==> !FirstOfGroup(JobsOf(hash, plan), Places(plan, run.ran), s)
  }

  /** One task. */
  lemma {:induction false} StepIsJob<T>(hash: Hashing, plan: Plan<T>, completed: map<TaskId, Digest>, s: nat, i: nat, run: Run, block: Block)
    requires Staged(plan) && s < |plan.stages| && i < |plan.stages[s].tasks| && InStage(hash, plan, s, run, block)
    ensures JobIs(hash, plan, JobsOf(hash, plan), s, i)
    ensures var (after, more) := Step(hash, completed, (s, i), plan.taskId(s, plan.stages[s].tasks[i]), Own(plan, s, i),
                                      ListingOf(hash, plan, s), run, block);
      && WorkOf(plan, after) == JobStep(hash, completed, JobsOf(hash, plan), WorkOf(plan, run), PlaceOf(plan, (s, i)))
      && InStage(hash, plan, s, after, more)
  {
    hide Own, ListingOf, JobsBefore, Appended, Appending, PutInto, Put, FirstOfGroup, TaskCount, PlaceOf;
    JobBefore(hash, plan, |plan.stages|, s, i);
    var jobs := JobsOf(hash, plan);
    var task := plan.taskId(s, plan.stages[s].tasks[i]);
    var at := PlaceOf(plan, (s, i));
    assert jobs[at] == Job(task, Some(Own(plan, s, i)), ListingOf(hash, plan, s), s);
    if Resume.StoredPartial(hash, run.disk, completed, task).None? {
      var looked := run.(bad := Resume.BadAfterLookup(hash, run.disk, run.bad, completed, task));
      var put := Put(hash, looked, Own(plan, s, i));
      PutIsInto(hash, plan, looked, Own(plan, s, i));
      PutKeepsRan(hash, looked, Own(plan, s, i));
      if ListingOf(hash, plan, s).Some? {
        PutIsInto(hash, plan, put, ListingOf(hash, plan, s).value);
        PutKeepsRan(hash, put, ListingOf(hash, plan, s).value);
      }
      assert Places(plan, run.ran + [(s, i)]) == Places(plan, run.ran) + [at];
      NotFirstAnymore(jobs, Places(plan, run.ran), at);
    }
  }

  lemma PutKeepsRan(hash: Hashing, run: Run, data: Blob)
    ensures Put(hash, run, data).ran == run.ran && Put(hash, run, data).disk.journal == run.disk.journal
  {
  }

  lemma NotFirstAnymore(jobs: seq<Job>, ran: seq<nat>, at: nat)
    requires at < |jobs|
    ensures !FirstOfGroup(jobs, ran + [at], jobs[at].group)
  {
    assert (ran + [at])[|ran|] == at;
  }

  lemma {:induction false} TasksAreWork<T>(hash: Hashing, plan: Plan<T>, t: Setting, s: nat, run: Run, k: nat)
    requires Staged(plan) && s < |plan.stages| && k <= |plan.stages[s].tasks|
    requires t.hash == hash && t.jobs == JobsOf(hash, plan) && TaskCount(plan, s) + k <= |t.jobs|
    requires WorkOf(plan, run) == t.WorkAt(TaskCount(plan, s)) && InStage(hash, plan, s, run, Block([], [], false))
    ensures Below(plan.stages[s].inputs, s)
    ensures var (after, block) := AfterTasks(hash, plan, t.Completed(), s, Flattened(Payloads(plan, s), plan.stages[s].inputs),
                                             Flattened(AllDigests(hash, Payloads(plan, s)), plan.stages[s].inputs), run, k);
      WorkOf(plan, after) == t.WorkAt(TaskCount(plan, s) + k) && InStage(hash, plan, s, after, block)
  {
    hide Own, Step, JobStep, JobsBefore, InStage, TaskCount, WorkOf, Payloads;
    if k > 0 {
      TasksAreWork(hash, plan, t, s, run, k - 1);
      var (before, block) := AfterTasks(hash, plan, t.Completed(), s, Flattened(Payloads(plan, s), plan.stages[s].inputs),
                                        Flattened(AllDigests(hash, Payloads(plan, s)), plan.stages[s].inputs), run, k - 1);
      OwnIsProcessed(plan, s, k - 1);
      StepIsJob(hash, plan, t.Completed(), s, k - 1, before, block);
      PlaceIs(plan, s, k - 1);
    }
  }

  lemma PlaceIs<T>(plan: Plan<T>, s: nat, i: nat)
    requires s < |plan.stages|
    ensures PlaceOf(plan, (s, i)) == TaskCount(plan, s) + i
  {
  }

  /** Only tasks of earlier stages ran before a stage starts. */
  lemma {:induction false} StageStarts<T>(hash: Hashing, plan: Plan<T>, completed: map<TaskId, Digest>, disk: Disk, s: nat, run: Run)
    requires Staged(plan) && s < |plan.stages| && RanMissing(hash, plan, completed, disk, run.ran, s, 0)
    ensures InStage(hash, plan, s, run, Block([], [], false))
  {
    hide JobsBefore, Own, ListingOf;
    var jobs := JobsOf(hash, plan);
    var places := Places(plan, run.ran);
    forall n | 0 <= n < |places| && places[n] < |jobs| ensures jobs[places[n]].group != s {
      var at := run.ran[n];
      assert Missing(hash, plan, completed, disk, at) && Earlier(at, (s, 0));
      JobBefore(hash, plan, |plan.stages|, at.0, at.1);
      assert JobIs(hash, plan, jobs, at.0, at.1);
    }
  }

  /** A whole run before stage `s`. */
  function RunBefore<T>(hash: Hashing, plan: Plan<T>, disk: Disk, s: nat): Progress
    requires Staged(plan) && s <= |plan.stages|
  {
    AfterStages(hash, plan, Replayed(disk, |disk.journal|), Run(disk, {}, 0, 0, [], []), s)
  }

  lemma {:induction false} CountRises<T>(plan: Plan<T>, s: nat, r: nat)
    requires s <= r <= |plan.stages|
    ensures TaskCount(plan, s) <= TaskCount(plan, r)
  {
    if s < r { CountRises(plan, s, r - 1); }
  }

  /** One stage. */
  lemma {:induction false} StageIsWork<T>(hash: Hashing, plan: Plan<T>, disk: Disk, s: nat)
    requires Sound(hash, plan) && Staged(plan) && Honest(hash, plan, disk) && s < |plan.stages|
    requires TaskCount(plan, s) <= |JobsOf(hash, plan)|
    requires WorkOf(plan, RunBefore(hash, plan, disk, s).run) == SettingOf(hash, plan, disk).WorkAt(TaskCount(plan, s))
    ensures TaskCount(plan, s + 1) <= |JobsOf(hash, plan)|
    ensures WorkOf(plan, RunBefore(hash, plan, disk, s + 1).run) == SettingOf(hash, plan, disk).WorkAt(TaskCount(plan, s + 1))
  {
    hide Honest, AfterTasks, Replayed, WorkAfter, JobsBefore, InStage, Payloads, Sound, AllHonest, RanMissing, WorkOf, Setting.WorkAt;
    var t := SettingOf(hash, plan, disk);
    Rerun.CompletedSame(disk);
    CountRises(plan, s + 1, |plan.stages|);
    assert Below(plan.stages[s].inputs, s);
    BeforeStage(hash, plan, disk, s);
    TasksAreWork(hash, plan, t, s, RunBefore(hash, plan, disk, s).run, |plan.stages[s].tasks|);
  }

  /** What a stage starts from: the uninterrupted payloads, none of its own tasks run. */
  lemma {:induction false} BeforeStage<T>(hash: Hashing, plan: Plan<T>, disk: Disk, s: nat)
    requires Sound(hash, plan) && Staged(plan) && Honest(hash, plan, disk) && s < |plan.stages|
    ensures var before := RunBefore(hash, plan, disk, s);
      && before.payloads == Payloads(plan, s) && before.digests == AllDigests(hash, Payloads(plan, s))
      && InStage(hash, plan, s, before.run, Block([], [], false))
  {
    hide Honest, AfterStages, Replayed, JobsBefore, InStage, Payloads, Sound, AllHonest, RanMissing, KeepsVerified, TaskCount;
    StartIsHonest(hash, plan, disk);
    StagesStayOnTrack(hash, plan, disk, Run(disk, {}, 0, 0, [], []), s);
    FinishedTasksAreSkipped(hash, plan, Replayed(disk, |disk.journal|), disk, {}, [], s);
    StageStarts(hash, plan, Replayed(disk, |disk.journal|), disk, s, RunBefore(hash, plan, disk, s).run);
  }

  lemma {:induction false} StagesAreWork<T>(hash: Hashing, plan: Plan<T>, disk: Disk, s: nat)
    requires Sound(hash, plan) && Staged(plan) && Honest(hash, plan, disk) && s <= |plan.stages|
    ensures TaskCount(plan, s) <= |JobsOf(hash, plan)|
    ensures WorkOf(plan, RunBefore(hash, plan, disk, s).run) == SettingOf(hash, plan, disk).WorkAt(TaskCount(plan, s))
  {
    hide Honest, AfterStages, TaskCount, Replayed, WorkAfter, JobsBefore, Sound, SettingOf, RunBefore, WorkOf, JobsOf;
    if s > 0 {
      StagesAreWork(hash, plan, disk, s - 1);
      StageIsWork(hash, plan, disk, s - 1);
    } else {
      NoStages(hash, plan, disk);
    }
  }

  lemma NoStages<T>(hash: Hashing, plan: Plan<T>, disk: Disk)
    requires Staged(plan)
    ensures TaskCount(plan, 0) == 0
    ensures WorkOf(plan, RunBefore(hash, plan, disk, 0).run) == SettingOf(hash, plan, disk).WorkAt(0)
  {
    hide Replayed, JobsOf;
    NoWork(SettingOf(hash, plan, disk));
  }

  lemma NoWork(t: Setting)
    ensures t.WorkAt(0) == Work(t.disk, {}, [])
  {
  }

  lemma StartIsHonest<T>(hash: Hashing, plan: Plan<T>, disk: Disk)
    requires Staged(plan) && Honest(hash, plan, disk)
    ensures AllHonest(hash, plan, Run(disk, {}, 0, 0, [], []))
  {
  }

  /** A whole run executes as many tasks as its jobs do, and leaves what they leave. */
  lemma {:induction false} RunIsWork<T>(hash: Hashing, plan: Plan<T>, disk: Disk)
    requires Sound(hash, plan) && Staged(plan) && Honest(hash, plan, disk)
    ensures var run := WholeRun(hash, plan, disk).run; var work := SettingOf(hash, plan, disk).WholeWork();
      && CollisionFree(hash) && Honest(hash, plan, run.disk)
      && run.executed == |work.ran| && Rerun.WithoutDead(run.disk) == work.disk
  {
    hide Honest, AfterStages, WorkAfter, JobsBefore, TaskCount, RanMissing, KeepsVerified;
    ResumeEqualsUninterrupted(hash, plan, disk);
    StagesAreWork(hash, plan, disk, |plan.stages|);
    FinishedTasksAreSkipped(hash, plan, Replayed(disk, |disk.journal|), disk, {}, [], |plan.stages|);
  }

  /** Run again, a shuffle executes nothing exactly when, on the disk the first run started from, every block
      was stored, or no block was stuck and every task stays recorded. */
  lemma {:induction false} SecondShuffleIsIdleIff<T>(hash: Hashing, plan: Plan<T>, disk: Disk)
    requires Sound(hash, plan) && Staged(plan) && Honest(hash, plan, disk)
    ensures WholeRun(hash, plan, WholeRun(hash, plan, disk).run.disk).run.executed == 0 <==> SettingOf(hash, plan, disk).LeavesNothing()
  {
    hide Honest, Sound, WholeRun, WorkAfter, JobsBefore, Setting.Honest, Setting.LeavesNothing;
    var after := WholeRun(hash, plan, disk).run.disk;
    RunIsWork(hash, plan, disk);
    RunIsWork(hash, plan, after);
    HonestJobs(hash, plan, disk);
    HonestJobs(hash, plan, after);
    SecondWorkIsIdleIff(SettingOf(hash, plan, disk));
  }

  /** A shuffle executes nothing exactly when every block is stored. */
  lemma {:induction false} IdleShuffleIff<T>(hash: Hashing, plan: Plan<T>, disk: Disk)
    requires Sound(hash, plan) && Staged(plan) && Honest(hash, plan, disk)
    ensures WholeRun(hash, plan, disk).run.executed == 0 <==> SettingOf(hash, plan, disk).AllStored()
  {
    hide Honest, Sound, WholeRun, WorkAfter, JobsBefore, Setting.Honest;
    RunIsWork(hash, plan, disk);
    HonestJobs(hash, plan, disk);
    IdleIff(SettingOf(hash, plan, disk));
  }
}
