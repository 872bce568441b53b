/** The checkpoint store and its crashes (python/graphed/checkpoint/store.py). */
module Checkpoint {
  import opened Collections
  import opened Bytes

  type Blob = seq<byte>
  type Digest = string
  type TaskId = string
  type Hashing = Blob -> Digest

  datatype Entry = Entry(task: TaskId, blob: Digest)

  /** A journal line: a record; the file's end inside an append, with what parses of it; or garbage. */
  datatype Line = Record(entry: Entry) | Unended(held: Option<Entry>) | Broken

  datatype Disk = Disk(blobs: map<Digest, Blob>, journal: seq<Line>, dead: seq<TaskId>)

  const EMPTY := Disk(map[], [], [])

  ghost predicate CollisionFree(hash: Hashing) {
    forall a, b :: hash(a) == hash(b) ==> a == b
  }

  // ---- blobs ------------------------------------------------------------------------------------

  /** The blob named `d`, unless it is absent or its bytes do not hash to its name. */
  function Fetched(hash: Hashing, disk: Disk, d: Digest): (r: Option<Blob>)
    ensures r.Some? ==> hash(r.value) == d
  {
    if d in disk.blobs && hash(disk.blobs[d]) == d then Some(disk.blobs[d]) else None
  }

  /** The blobs this process found not to verify. */
  function BadAfterGet(hash: Hashing, disk: Disk, bad: set<Digest>, d: Digest): set<Digest> {
    if d in disk.blobs && hash(disk.blobs[d]) != d then bad + {d} else bad
  }

  predicate Rewrites(hash: Hashing, disk: Disk, bad: set<Digest>, data: Blob) {
    var d := hash(data);
    d in bad || d !in disk.blobs || |disk.blobs[d]| != |data|
  }

  /** The disk after `data` is put: a present blob of its size is left as it is. */
  function AfterPut(hash: Hashing, disk: Disk, bad: set<Digest>, data: Blob): Disk {
    if Rewrites(hash, disk, bad, data) then disk.(blobs := disk.blobs[hash(data) := data]) else disk
  }

  // ---- the journal ------------------------------------------------------------------------------

  /** The file ends inside a line. */
  predicate Torn(journal: seq<Line>) {
    journal != [] && journal[|journal| - 1].Unended?
  }

  /** An append after an unended line runs into it, and neither can be read. */
  function Appended(journal: seq<Line>, e: Entry): (r: seq<Line>) {
    if Torn(journal) then journal[..|journal| - 1] + [Broken] else journal + [Record(e)]
  }

  /** The journals an append passes through. */
  function Appending(journal: seq<Line>, e: Entry): (r: seq<seq<Line>>) {
    if Torn(journal)
    then [journal[..|journal| - 1] + [Unended(None)], Appended(journal, e)]
    else [journal + [Unended(None)], journal + [Unended(Some(e))], Appended(journal, e)]
  }

  /** What a line says, if it can be read. */
  function Readable(line: Line): Option<Entry> {
    match line case Record(e) => Some(e) case Unended(held) => held case Broken => None
  }

  /** `_replay`: the later record wins, honouring only records whose blob is there. */
  function Replayed(disk: Disk, n: nat): (done: map<TaskId, Digest>)
    requires n <= |disk.journal|
  {
    if n == 0 then map[]
    else
      var before := Replayed(disk, n - 1);
      match Readable(disk.journal[n - 1])
      case None => before
      case Some(e) => if e.blob in disk.blobs then before[e.task := e.blob] else before
  }

  /** The latest readable record of `task` among the first `n` lines whose blob is there. */
  ghost predicate LatestAt(disk: Disk, n: nat, task: TaskId, blob: Digest, k: nat) {
    && k < n <= |disk.journal| && Readable(disk.journal[k]) == Some(Entry(task, blob)) && blob in disk.blobs
    && forall j, b :: k < j < n && Readable(disk.journal[j]) == Some(Entry(task, b)) ==> b !in disk.blobs
  }

  /** A task is done exactly when some readable record of it has its blob, and then by the latest. */
  lemma {:induction false} ReplayIsLatest(disk: Disk, n: nat, task: TaskId)
    requires n <= |disk.journal|
    ensures task in Replayed(disk, n) <==>
      exists k, b :: 0 <= k < n && Readable(disk.journal[k]) == Some(Entry(task, b)) && b in disk.blobs
    ensures task in Replayed(disk, n) ==> exists k: nat :: LatestAt(disk, n, task, Replayed(disk, n)[task], k)
  {
    if n > 0 {
      ReplayIsLatest(disk, n - 1, task);
      var before := Replayed(disk, n - 1);
      var last := Readable(disk.journal[n - 1]);
      if last.Some? && last.value.task == task && last.value.blob in disk.blobs {
        assert last == Some(Entry(task, last.value.blob));
        assert LatestAt(disk, n, task, last.value.blob, n - 1);
      } else if task in before {
        var k: nat :| LatestAt(disk, n - 1, task, before[task], k);
        assert LatestAt(disk, n, task, before[task], k);
      }
    }
  }

  // ---- the store --------------------------------------------------------------------------------

  class CheckpointStore {
    const hash: Hashing
    var blobs: map<Digest, Blob>
    var journal: seq<Line>
    var dead: seq<TaskId>
    /** This process's blobs that did not verify; a crash forgets them. */
    var bad: set<Digest>
    /** Every disk an operation passed through: where a crash can leave it. */
    ghost var past: seq<Disk>

    ghost function OnDisk(): Disk
      reads this
    {
      Disk(blobs, journal, dead)
    }

    /** A process opens whatever a disk holds. */
    constructor (hash: Hashing, disk: Disk)
      ensures OnDisk() == disk && bad == {} && past == [] && this.hash == hash
    {
      this.hash := hash;
      blobs, journal, dead, bad, past := disk.blobs, disk.journal, disk.dead, {}, [];
    }

    method Put(data: Blob) returns (digest: Digest)
      modifies this
      ensures digest == hash(data) && OnDisk() == AfterPut(hash, old(OnDisk()), old(bad), data)
      ensures bad == if Rewrites(hash, old(OnDisk()), old(bad), data) then old(bad) - {digest} else old(bad)
      ensures past == old(past) + [OnDisk()]
    {
      digest := hash(data);
      if digest in bad || digest !in blobs || |blobs[digest]| != |data| {
        blobs := blobs[digest := data];
        bad := bad - {digest};
      }
      past := past + [OnDisk()];
    }

    method Get(digest: Digest) returns (data: Option<Blob>)
      modifies this`bad
      ensures data == Fetched(hash, OnDisk(), digest)
      ensures bad == BadAfterGet(hash, OnDisk(), old(bad), digest)
    {
      if digest !in blobs { return None; }
      if hash(blobs[digest]) == digest { return Some(blobs[digest]); }
      bad := bad + {digest};
      return None;
    }

    method RecordDone(task: TaskId, blob: Digest)
      modifies this
      ensures blobs == old(blobs) && dead == old(dead) && bad == old(bad)
      ensures journal == Appended(old(journal), Entry(task, blob))
      ensures past == old(past) + OnDiskWith(old(OnDisk()), Appending(old(journal), Entry(task, blob)))
    {
      past := past + OnDiskWith(OnDisk(), Appending(journal, Entry(task, blob)));
      journal := Appended(journal, Entry(task, blob));
    }

    method RecordDead(task: TaskId)
      modifies this
      ensures OnDisk() == old(OnDisk()).(dead := old(dead) + [task]) && bad == old(bad)
      ensures past == old(past) + [OnDisk()]
    {
      dead := dead + [task];
      past := past + [OnDisk()];
    }

    method Completed() returns (done: map<TaskId, Digest>)
      ensures done == Replayed(OnDisk(), |journal|)
    {
      done := map[];
      for n := 0 to |journal|
        invariant done == Replayed(OnDisk(), n)
      {
        match Readable(journal[n])
        case None =>
        case Some(e) =>
          if e.blob in blobs { done := done[e.task := e.blob]; }
      }
    }
  }

  function OnDiskWith(disk: Disk, journals: seq<seq<Line>>): (r: seq<Disk>)
    ensures |r| == |journals|
    ensures forall k :: 0 <= k < |r| ==> r[k] == disk.(journal := journals[k])
  {
    seq(|journals|, k requires 0 <= k < |journals| => disk.(journal := journals[k]))
  }

  // ---- what a crash cannot undo ------------------------------------------------------------------

  /** What verifies keeps verifying, whatever is put. */
  lemma {:induction false} PutKeepsVerified(hash: Hashing, disk: Disk, bad: set<Digest>, data: Blob, d: Digest)
    requires Fetched(hash, disk, d).Some?
    ensures Fetched(hash, AfterPut(hash, disk, bad, data), d).Some?
  {
  }

  /** A put leaves its result readable unless a blob of its name and size is there that does not verify and is not
      known to be bad; and it touches no other blob. */
  lemma PutStores(hash: Hashing, disk: Disk, bad: set<Digest>, data: Blob)
    requires CollisionFree(hash)
    ensures var after := AfterPut(hash, disk, bad, data); var d := hash(data);
      && d in after.blobs && after.journal == disk.journal && after.dead == disk.dead
      && (forall other :: other != d ==>
            ((other in after.blobs <==> other in disk.blobs)
             && (other in disk.blobs ==> after.blobs[other] == disk.blobs[other])))
      && (Fetched(hash, after, d) == Some(data) <==>
            !(d in disk.blobs && disk.blobs[d] != data && |disk.blobs[d]| == |data| && d !in bad))
  {
  }

  /** Every readable record's blob is there. */
  ghost predicate BlobsPresent(disk: Disk) {
    forall k :: 0 <= k < |disk.journal| ==> BlobPresent(disk, disk.journal[k])
  }

  predicate BlobPresent(disk: Disk, line: Line) {
    match Readable(line) case None => true case Some(e) => e.blob in disk.blobs
  }

  lemma PutKeepsPresent(hash: Hashing, disk: Disk, bad: set<Digest>, data: Blob)
    requires BlobsPresent(disk)
    ensures BlobsPresent(AfterPut(hash, disk, bad, data))
  {
    var after := AfterPut(hash, disk, bad, data);
    forall k | 0 <= k < |after.journal| ensures BlobPresent(after, after.journal[k]) {
      assert BlobPresent(disk, disk.journal[k]);
    }
  }

  /** Journaling what is stored keeps every record's blob there, wherever the append stops. */
  lemma AppendKeepsPresent(disk: Disk, e: Entry)
    requires BlobsPresent(disk) && e.blob in disk.blobs
    ensures BlobsPresent(disk.(journal := Appended(disk.journal, e)))
    ensures forall n :: 0 <= n < |Appending(disk.journal, e)| ==> BlobsPresent(disk.(journal := Appending(disk.journal, e)[n]))
  {
    forall n | 0 <= n < |Appending(disk.journal, e)| ensures BlobsPresent(disk.(journal := Appending(disk.journal, e)[n])) {
      var after := disk.(journal := Appending(disk.journal, e)[n]);
      forall k | 0 <= k < |after.journal| ensures BlobPresent(after, after.journal[k]) {
        assert k < |disk.journal| ==> BlobPresent(disk, disk.journal[k]);
      }
    }
    assert Appending(disk.journal, e)[|Appending(disk.journal, e)| - 1] == Appended(disk.journal, e);
  }

  // ---- what a torn line costs -------------------------------------------------------------------

  /** A completed append is readable exactly when it did not run into a torn line, and the one earlier
      record it can cost is the one a torn line still held. */
  lemma TornLineSwallowsNext(journal: seq<Line>, e: Entry)
    ensures var after := Appended(journal, e);
      && |journal| <= |after| && after != [] && !Torn(after)
      && Readable(after[|after| - 1]) == (if Torn(journal) then None else Some(e))
      && forall k :: 0 <= k < |journal| ==>
           (Readable(after[k]) != Readable(journal[k]) <==> k == |journal| - 1 && journal[k].Unended? && journal[k].held.Some?)
  {
  }

  /** An append can be cut short with nothing of its record readable, or with all of it but its end. */
  lemma AppendCanTear(journal: seq<Line>, e: Entry)
    ensures !Torn(journal) ==>
      journal + [Unended(None)] in Appending(journal, e) && journal + [Unended(Some(e))] in Appending(journal, e)
    ensures Torn(journal) ==> journal[..|journal| - 1] + [Unended(None)] in Appending(journal, e)
    ensures Appended(journal, e) in Appending(journal, e)
  {
    var states := Appending(journal, e);
    assert states[0] in states && states[1] in states && states[|states| - 1] in states;
  }

  lemma {:induction false} ReplayPrefix(a: Disk, b: Disk, n: nat)
    requires n <= |a.journal| && n <= |b.journal| && a.blobs == b.blobs && a.journal[..n] == b.journal[..n]
    ensures Replayed(a, n) == Replayed(b, n)
  {
    if n > 0 {
      assert a.journal[n - 1] == a.journal[..n][n - 1] == b.journal[n - 1];
      assert a.journal[..n - 1] == a.journal[..n][..n - 1] == b.journal[..n - 1];
      ReplayPrefix(a, b, n - 1);
    }
  }

  /** After an append whose blob is there, what is done: what was, and the new record; or, past a torn line,
      what was done without that line. */
  lemma {:induction false} AppendReplays(disk: Disk, e: Entry)
    requires e.blob in disk.blobs
    ensures var after := disk.(journal := Appended(disk.journal, e));
      Replayed(after, |after.journal|) ==
        if Torn(disk.journal) then Replayed(disk, |disk.journal| - 1) else Replayed(disk, |disk.journal|)[e.task := e.blob]
  {
    var after := disk.(journal := Appended(disk.journal, e));
    var n := |after.journal| - 1;
    assert after.journal[..n] == disk.journal[..n];
    ReplayPrefix(after, disk, n);
  }

  /** Putting a result and journaling it makes its task done exactly when the journal's last line was ended,
      or an earlier readable record of the task has its blob. */
  lemma {:induction false} RecordedIsDone(hash: Hashing, disk: Disk, bad: set<Digest>, data: Blob, task: TaskId)
    ensures var stored := AfterPut(hash, disk, bad, data);
      var after := stored.(journal := Appended(stored.journal, Entry(task, hash(data))));
      task in Replayed(after, |after.journal|) <==>
        (Torn(disk.journal) ==> exists k, b :: 0 <= k < |disk.journal| - 1 && Readable(disk.journal[k]) == Some(Entry(task, b)) && b in stored.blobs)
  {
    var stored := AfterPut(hash, disk, bad, data);
    AppendReplays(stored, Entry(task, hash(data)));
    if Torn(disk.journal) {
      ReplayIsLatest(stored, |disk.journal| - 1, task);
    }
  }

  /** An example: on a disk whose only line is torn, a task put and journaled is not done. */
  lemma {:induction false} RecordLostAfterTear(hash: Hashing, data: Blob, task: TaskId)
    ensures var stored := AfterPut(hash, Disk(map[], [Unended(None)], []), {}, data);
      var after := stored.(journal := Appended(stored.journal, Entry(task, hash(data))));
      hash(data) in after.blobs && task !in Replayed(after, |after.journal|)
  {
    RecordedIsDone(hash, Disk(map[], [Unended(None)], []), {}, data, task);
  }
}
