/** Arrays stored element by element behind a directory of indices, written by several workers
    (array_ops.go). */
module ArrayStore {
  import opened Arithmetic
  import opened ColumnPages
  import opened BulkGet
  import opened Chunks
  import opened ChunkStore

  const ARR_IDX_LEN: nat := 3
  const MAX_ARR_KEY: nat := 3
  const MAX_LEN: nat := 0x100_0000

  function ElemKey(idx: nat, key: Bytes): (k: Bytes)
    ensures |k| == ARR_IDX_LEN + |key|
  {
    IndexBytes(idx, ARR_IDX_LEN) + key
  }

  lemma {:induction false} ThreePower()
    ensures Power(ARR_IDX_LEN) == MAX_LEN
  {
    assert Power(1) == 256 && Power(2) == 65536;
  }

  /** Three bytes of index tell elements apart up to `2^24 - 1`; the next one is index 0 again, the
      key of the directory. */
  lemma {:induction false} ElemKeysEqualIff(i: nat, j: nat, key: Bytes)
    requires |key| <= MAX_ARR_KEY
    ensures Fill(ElemKey(i, key)) == Fill(ElemKey(j, key)) <==> i % MAX_LEN == j % MAX_LEN
  {
    hide IndexBytes, Power;
    var a, b := Fill(ElemKey(i, key)), Fill(ElemKey(j, key));
    var rest := key + seq(MAX_KEY - |ElemKey(i, key)|, _ => 0);
    assert a == IndexBytes(i, 3) + rest && b == IndexBytes(j, 3) + rest;
    assert a[..3] == IndexBytes(i, 3) && b[..3] == IndexBytes(j, 3);
    IndexBytesEqualIff(i, j, 3);
    ThreePower();
  }

  /** The indices 1 to `n`. */
  function Dir(n: nat): (d: Bytes)
    ensures |d| == 3 * n
  {
    if n == 0 then [] else Dir(n - 1) + IndexBytes(n, ARR_IDX_LEN)
  }

  lemma {:induction false} DirAt(n: nat, i: nat)
    requires i < n
    ensures Dir(n)[3 * i..3 * i + 3] == IndexBytes(i + 1, ARR_IDX_LEN)
    decreases n
  {
    hide IndexBytes;
    if i < n - 1 {
      DirAt(n - 1, i);
      assert Dir(n)[3 * i..3 * i + 3] == Dir(n - 1)[3 * i..3 * i + 3];
    }
  }

  // ----- jobs and workers -----

  datatype Job = Job(index: nat, value: Bytes)

  /** The elements first, then the directory. */
  function JobsOf(vls: seq<Bytes>): (jobs: seq<Job>)
    ensures |jobs| == |vls| + 1
  {
    seq(|vls|, i requires 0 <= i < |vls| => Job(i + 1, vls[i])) + [Job(0, Dir(|vls|))]
  }

  predicate TooBig(job: Job) {
    NumOps(|job.value|) > MAX_OPS
  }

  /** The requests that a worker sends for a job; none if the value is too long. */
  function JobOps(key: Bytes, job: Job): (ops: seq<Op>)
    requires |key| <= MAX_ARR_KEY
  {
    if TooBig(job) then [] else OpsOf(ElemKey(job.index, key), ChunksOf(job.value), false)
  }

  function AllOps(key: Bytes, jobs: seq<Job>): (ops: seq<Op>)
    requires |key| <= MAX_ARR_KEY
  {
    if jobs == [] then [] else JobOps(key, jobs[0]) + AllOps(key, jobs[1..])
  }

  function Failures(jobs: seq<Job>): (n: nat) {
    if jobs == [] then 0 else (if TooBig(jobs[0]) then 1 else 0) + Failures(jobs[1..])
  }

  /** Jobs not yet taken, what each worker still has to send, what reached the store, and how many
      jobs failed. */
  datatype State = State(jobs: seq<Job>, busy: seq<seq<Op>>, done: seq<Op>, errors: nat)

  datatype Step = Take(worker: nat) | Send(worker: nat)

  predicate Enabled(s: State, step: Step) {
    && step.worker < |s.busy|
    && match step
       case Take(w) => s.busy[w] == [] && s.jobs != []
       case Send(w) => s.busy[w] != []
  }

  function Next(key: Bytes, s: State, step: Step): (t: State)
    requires |key| <= MAX_ARR_KEY && Enabled(s, step)
  {
    match step
    case Take(w) => State(s.jobs[1..], s.busy[w := JobOps(key, s.jobs[0])], s.done,
          s.errors + if TooBig(s.jobs[0]) then 1 else 0)
    case Send(w) => State(s.jobs, s.busy[w := s.busy[w][1..]], s.done + [s.busy[w][0]], s.errors)
  }

  function Start(jobs: seq<Job>, np: nat): (s: State) {
    State(jobs, seq(np, _ => []), [], 0)
  }

  predicate Finished(s: State) {
    s.jobs == [] && forall w :: 0 <= w < |s.busy| ==> s.busy[w] == []
  }

  /** Whether the steps can be made one after the other, and where they lead. */
  predicate CanRun(key: Bytes, s: State, steps: seq<Step>)
    requires |key| <= MAX_ARR_KEY
    decreases |steps|
  {
    steps == [] || (Enabled(s, steps[0]) && CanRun(key, Next(key, s, steps[0]), steps[1..]))
  }

  function RunAll(key: Bytes, s: State, steps: seq<Step>): (t: State)
    requires |key| <= MAX_ARR_KEY && CanRun(key, s, steps)
    decreases |steps|
  {
    if steps == [] then s else RunAll(key, Next(key, s, steps[0]), steps[1..])
  }

  // ----- nothing is lost or invented -----

  predicate Pending(key: Bytes, s: State, op: Op)
    requires |key| <= MAX_ARR_KEY
  {
    op in s.done || (exists w :: 0 <= w < |s.busy| && op in s.busy[w]) || op in AllOps(key, s.jobs)
  }

  lemma {:induction false} StepKeepsPending(key: Bytes, s: State, step: Step, op: Op)
    requires |key| <= MAX_ARR_KEY && Enabled(s, step)
    ensures Pending(key, Next(key, s, step), op) <==> Pending(key, s, op)
  {
    hide JobOps;
    var t := Next(key, s, step);
    var w := step.worker;
    assert forall v :: 0 <= v < |s.busy| && v != w ==> t.busy[v] == s.busy[v];
    match step {
      case Take(_) =>
        assert t.busy[w] == JobOps(key, s.jobs[0]);
        assert op in AllOps(key, s.jobs) <==> op in t.busy[w] || op in AllOps(key, t.jobs);
      case Send(_) =>
        assert s.busy[w] == [s.busy[w][0]] + t.busy[w];
        assert op in s.busy[w] <==> op == s.busy[w][0] || op in t.busy[w];
    }
  }

  lemma {:induction false} RunKeepsPending(key: Bytes, s: State, steps: seq<Step>, op: Op)
    requires |key| <= MAX_ARR_KEY && CanRun(key, s, steps)
    ensures Pending(key, RunAll(key, s, steps), op) <==> Pending(key, s, op)
    decreases |steps|
  {
    hide Pending, Next, Enabled;
    if steps != [] {
      StepKeepsPending(key, s, steps[0], op);
      RunKeepsPending(key, Next(key, s, steps[0]), steps[1..], op);
    }
  }

  lemma {:induction false} RunCountsErrors(key: Bytes, s: State, steps: seq<Step>)
    requires |key| <= MAX_ARR_KEY && CanRun(key, s, steps)
    ensures var t := RunAll(key, s, steps); t.errors + Failures(t.jobs) == s.errors + Failures(s.jobs)
    decreases |steps|
  {
    if steps != [] {
      RunCountsErrors(key, Next(key, s, steps[0]), steps[1..]);
    }
  }

  function Sum(busy: seq<seq<Op>>): (n: nat) {
    if busy == [] then 0 else |busy[0]| + Sum(busy[1..])
  }

  function Work(key: Bytes, s: State): (n: nat)
    requires |key| <= MAX_ARR_KEY
  {
    |s.jobs| + |AllOps(key, s.jobs)| + Sum(s.busy)
  }

  lemma {:induction false} SumUpdated(busy: seq<seq<Op>>, w: nat, ops: seq<Op>)
    requires w < |busy|
    ensures Sum(busy[w := ops]) == Sum(busy) - |busy[w]| + |ops|
    decreases |busy|
  {
    if w == 0 {
      assert busy[0 := ops][1..] == busy[1..];
    } else {
      SumUpdated(busy[1..], w - 1, ops);
      assert busy[w := ops][1..] == busy[1..][w - 1 := ops];
    }
  }

  lemma {:induction false} SumIsZero(busy: seq<seq<Op>>)
    ensures Sum(busy) == 0 <==> forall w :: 0 <= w < |busy| ==> busy[w] == []
  {
    if busy != [] {
      SumIsZero(busy[1..]);
      if Sum(busy[1..]) == 0 {
        assert forall w :: 1 <= w < |busy| ==> busy[w] == busy[1..][w - 1];
      } else {
        var w :| 0 <= w < |busy[1..]| && busy[1..][w] != [];
        assert busy[w + 1] != [];
      }
    }
  }

  /** Every step does one piece of work. With at least one worker, some step is possible until all
      is done; with none, no step ever is. */
  lemma {:induction false} WorkGetsDone(key: Bytes, s: State)
    requires |key| <= MAX_ARR_KEY
    ensures forall step :: Enabled(s, step) ==> Work(key, Next(key, s, step)) == Work(key, s) - 1
    ensures Finished(s) <==> Work(key, s) == 0
    ensures |s.busy| > 0 && !Finished(s) ==> exists step :: Enabled(s, step)
    ensures |s.busy| == 0 ==> forall step :: !Enabled(s, step)
  {
    forall step | Enabled(s, step)
      ensures Work(key, Next(key, s, step)) == Work(key, s) - 1
    {
      StepWorks(key, s, step);
    }
    SumIsZero(s.busy);
    if |s.busy| > 0 && !Finished(s) {
      if s.busy[0] == [] && s.jobs != [] {
        assert Enabled(s, Take(0));
      } else if s.busy[0] != [] {
        assert Enabled(s, Send(0));
      } else {
        var w :| 0 <= w < |s.busy| && s.busy[w] != [];
        assert Enabled(s, Send(w));
      }
    }
  }

  lemma {:induction false} StepWorks(key: Bytes, s: State, step: Step)
    requires |key| <= MAX_ARR_KEY && Enabled(s, step)
    ensures Work(key, Next(key, s, step)) == Work(key, s) - 1
  {
    hide JobOps;
    match step {
      case Take(w) => SumUpdated(s.busy, w, JobOps(key, s.jobs[0]));
      case Send(w) => SumUpdated(s.busy, w, s.busy[w][1..]);
    }
  }

  lemma {:induction false} RunLength(key: Bytes, s: State, steps: seq<Step>)
    requires |key| <= MAX_ARR_KEY && CanRun(key, s, steps) && Finished(RunAll(key, s, steps))
    ensures |steps| == Work(key, s)
    decreases |steps|
  {
    hide Work, Finished, Next, Enabled;
    if steps == [] {
      WorkGetsDone(key, s);
    } else {
      StepWorks(key, s, steps[0]);
      RunLength(key, Next(key, s, steps[0]), steps[1..]);
    }
  }

  // ----- the keys of the jobs -----

  /** Where a request comes from. */
  lemma {:induction false} FromJob(key: Bytes, jobs: seq<Job>, op: Op) returns (a: nat, i: nat)
    requires |key| <= MAX_ARR_KEY && op in AllOps(key, jobs)
    ensures a < |jobs| && !TooBig(jobs[a]) && i < |ChunksOf(jobs[a].value)| && i < MAX_OPS
    ensures op == Set(KeyOf(i, ElemKey(jobs[a].index, key)), ChunksOf(jobs[a].value)[i], false)
    decreases |jobs|
  {
    hide KeyOf, ElemKey, ChunksOf;
    var first := JobOps(key, jobs[0]);
    if op in first {
      a := 0;
      var k :| 0 <= k < |first| && first[k] == op;
      i := k;
      ChunksSplit(jobs[0].value);
    } else {
      a, i := FromJob(key, jobs[1..], op);
      a := a + 1;
    }
  }

  lemma {:induction false} InAllOps(key: Bytes, jobs: seq<Job>, a: nat, i: nat)
    requires |key| <= MAX_ARR_KEY && a < |jobs| && !TooBig(jobs[a]) && i < |ChunksOf(jobs[a].value)|
    ensures Set(KeyOf(i, ElemKey(jobs[a].index, key)), ChunksOf(jobs[a].value)[i], false) in AllOps(key, jobs)
    decreases |jobs|
  {
    hide KeyOf, ElemKey, ChunksOf, TooBig;
    if a == 0 {
      var ops := JobOps(key, jobs[0]);
      OpsAre(ElemKey(jobs[0].index, key), ChunksOf(jobs[0].value), false, i);
      assert ops[i] in ops;
    } else {
      InAllOps(key, jobs[1..], a - 1, i);
    }
  }

  lemma {:induction false} JobIs(vls: seq<Bytes>, a: nat)
    requires a <= |vls|
    ensures JobsOf(vls)[a] == if a < |vls| then Job(a + 1, vls[a]) else Job(0, Dir(|vls|))
  {
  }

  lemma {:induction false} JobKeysDiffer(vls: seq<Bytes>, a: nat, b: nat)
    requires |vls| < MAX_LEN && a <= |vls| && b <= |vls|
    requires JobsOf(vls)[a].index % MAX_LEN == JobsOf(vls)[b].index % MAX_LEN
    ensures a == b
  {
    hide JobsOf, Dir;
    JobIs(vls, a);
    JobIs(vls, b);
  }

  lemma {:induction false} JobsConsistent(key: Bytes, vls: seq<Bytes>)
    requires |key| <= MAX_ARR_KEY && |vls| < MAX_LEN
    ensures Consistent(AllOps(key, JobsOf(vls)))
  {
    hide KeyOf, ElemKey, ChunksOf, TooBig, Word, Fill, AllOps, JobsOf;
    var jobs := JobsOf(vls);
    var ops := AllOps(key, jobs);
    forall op | op in ops
      ensures op.Set?
    {
      var a, i := FromJob(key, jobs, op);
    }
    forall x, y | x in ops && y in ops && Word(x.key) == Word(y.key)
      ensures x.value == y.value
    {
      var a, i := FromJob(key, jobs, x);
      var b, j := FromJob(key, jobs, y);
      WordsEqualIff(i, ElemKey(jobs[a].index, key), j, ElemKey(jobs[b].index, key));
      ElemKeysEqualIff(jobs[a].index, jobs[b].index, key);
      JobKeysDiffer(vls, a, b);
    }
  }

  // ----- the store after a run -----

  lemma {:induction false} FinishedIsDone(key: Bytes, s: State, op: Op)
    requires |key| <= MAX_ARR_KEY && Finished(s)
    ensures Pending(key, s, op) <==> op in s.done
  {
  }

  lemma {:induction false} StartIsJobs(key: Bytes, jobs: seq<Job>, np: nat, op: Op)
    requires |key| <= MAX_ARR_KEY
    ensures Pending(key, Start(jobs, np), op) <==> op in AllOps(key, jobs)
  {
  }

  /** However many workers there are and however their requests interleave, a finished run leaves the
      same store, and reports an error exactly when some value was too long. */
  lemma {:induction false} InterleavingDoesNotMatter(store: Store, key: Bytes, vls: seq<Bytes>, np: nat,
        steps: seq<Step>)
    requires |key| <= MAX_ARR_KEY && |vls| < MAX_LEN
    requires CanRun(key, Start(JobsOf(vls), np), steps) && Finished(RunAll(key, Start(JobsOf(vls), np), steps))
    ensures var s := RunAll(key, Start(JobsOf(vls), np), steps);
            DoAll(store, s.done) == DoAll(store, AllOps(key, JobsOf(vls))) && s.errors == Failures(JobsOf(vls))
  {
    hide AllOps, DoAll, CanRun, RunAll, JobsOf, Pending, Consistent, Failures;
    var jobs := JobsOf(vls);
    var s := RunAll(key, Start(jobs, np), steps);
    forall op
      ensures op in AllOps(key, jobs) <==> op in s.done
    {
      StartIsJobs(key, jobs, np, op);
      RunKeepsPending(key, Start(jobs, np), steps, op);
      FinishedIsDone(key, s, op);
    }
    JobsConsistent(key, vls);
    AnyOrder(store, AllOps(key, jobs), s.done);
    RunCountsErrors(key, Start(jobs, np), steps);
    NoFailures();
  }

  lemma {:induction false} NoFailures()
    ensures Failures([]) == 0
  {
  }

  /** An array of `2^24` elements is accepted, but its last element is stored under the key of the directory. */
  lemma {:induction false} LastElementHitsDirectory(key: Bytes, vls: seq<Bytes>)
    requires |key| <= MAX_ARR_KEY && |vls| == MAX_LEN
    ensures var jobs := JobsOf(vls);
            jobs[|vls| - 1].index != jobs[|vls|].index
            && Word(KeyOf(0, ElemKey(jobs[|vls| - 1].index, key))) == Word(KeyOf(0, ElemKey(jobs[|vls|].index, key)))
  {
    hide KeyOf, Word, ElemKey, Fill;
    JobIs(vls, |vls| - 1);
    JobIs(vls, |vls|);
    ElemKeysEqualIff(MAX_LEN, 0, key);
    WordsEqualIff(0, ElemKey(MAX_LEN, key), 0, ElemKey(0, key));
  }

  // ----- reading -----

  datatype Elements = Elements(values: seq<Option<Bytes>>) | NoArray | BadArrayKey

  function ElementsOf(store: Store, key: Bytes, dir: Bytes): (vs: seq<Option<Bytes>>)
    requires |key| <= MAX_ARR_KEY
    ensures |vs| == |dir| / 3
  {
    seq(|dir| / 3, i requires 0 <= i < |dir| / 3 && |key| <= MAX_ARR_KEY => Get(store, dir[3 * i..3 * i + 3] + key))
  }

  function ReadArray(store: Store, key: Bytes): (e: Elements) {
    if |key| > MAX_ARR_KEY then BadArrayKey
    else
      match Get(store, [0, 0, 0] + key)
      case None => NoArray
      case Some(dir) => Elements(ElementsOf(store, key, dir))
  }

  /** How many directory entries fit the one chunk that is read back. */
  const DIR_LEN: nat := 2729

  lemma {:induction false} StoredFirst(store: Store, key: Bytes, vls: seq<Bytes>, a: nat)
    requires |key| <= MAX_ARR_KEY && |vls| < MAX_LEN && a <= |vls| && !TooBig(JobsOf(vls)[a])
    ensures Get(DoAll(store, AllOps(key, JobsOf(vls))), ElemKey(JobsOf(vls)[a].index, key))
          == Fetch(JobsOf(vls)[a].value)
  {
    var jobs := JobsOf(vls);
    var value := jobs[a].value;
    JobsConsistent(key, vls);
    InAllOps(key, jobs, a, 0);
    FirstPieces(value);
    hide KeyOf, ElemKey, ChunksOf, TooBig, Word, AllOps, JobsOf, Consistent, DoAll;
    Written(store, AllOps(key, jobs), Set(KeyOf(0, ElemKey(jobs[a].index, key)), ChunksOf(value)[0], false));
    var k := Min(|value|, CLEN);
    assert value[..k][..k] == value[..k];
  }

  lemma {:induction false} DirectoryFits(n: nat)
    requires n <= MAX_LEN
    ensures NumOps(3 * n) <= MAX_OPS
  {
    TooLongIff(3 * n);
  }

  lemma {:induction false} NoneTooBig(jobs: seq<Job>)
    ensures Failures(jobs) == 0 <==> forall a :: 0 <= a < |jobs| ==> !TooBig(jobs[a])
  {
    if jobs != [] {
      NoneTooBig(jobs[1..]);
      if Failures(jobs[1..]) == 0 {
        assert forall a :: 1 <= a < |jobs| ==> jobs[a] == jobs[1..][a - 1];
      } else {
        var a :| 0 <= a < |jobs[1..]| && TooBig(jobs[1..][a]);
        assert TooBig(jobs[a + 1]);
      }
    }
  }

  lemma {:induction false} DirectoryKey(key: Bytes)
    ensures ElemKey(0, key) == [0, 0, 0] + key
  {
    TwoIndexBytes(0);
    assert IndexBytes(0, 3) == IndexBytes(0, 2) + [0];
  }

  /** A directory cut to one chunk still lists whole entries. */
  lemma {:induction false} CutDirectory(len: nat)
    requires len > 0
    ensures Fetch(Dir(len)).Some? && |Fetch(Dir(len)).value| / 3 == Min(len, DIR_LEN)
    ensures forall i :: 0 <= i < Min(len, DIR_LEN) ==>
          Fetch(Dir(len)).value[3 * i..3 * i + 3] == IndexBytes(i + 1, ARR_IDX_LEN)
  {
    hide IndexBytes, Dir;
    var dir := Dir(len)[..Min(3 * len, CLEN)];
    forall i | 0 <= i < Min(len, DIR_LEN)
      ensures dir[3 * i..3 * i + 3] == IndexBytes(i + 1, ARR_IDX_LEN)
    {
      DirAt(len, i);
      assert dir[3 * i..3 * i + 3] == Dir(len)[3 * i..3 * i + 3];
    }
  }

  lemma {:induction false} ReadsDirectory(s: Store, key: Bytes, vls: seq<Bytes>)
    requires |key| <= MAX_ARR_KEY && |vls| > 0
    requires Get(s, [0, 0, 0] + key) == Fetch(Dir(|vls|))
    requires forall i :: 0 <= i < |vls| ==> Get(s, ElemKey(i + 1, key)) == Fetch(vls[i])
    ensures ReadArray(s, key)
          == Elements(seq(Min(|vls|, DIR_LEN), i requires 0 <= i < Min(|vls|, DIR_LEN) => Fetch(vls[i])))
  {
    hide Get, IndexBytes, Dir, Fetch;
    CutDirectory(|vls|);
    var dir := Fetch(Dir(|vls|)).value;
    var n := Min(|vls|, DIR_LEN);
    forall i | 0 <= i < n
      ensures Get(s, dir[3 * i..3 * i + 3] + key) == Fetch(vls[i])
    {
      assert dir[3 * i..3 * i + 3] + key == ElemKey(i + 1, key);
    }
    assert ElementsOf(s, key, dir) == seq(n, i requires 0 <= i < n => Fetch(vls[i]));
  }

  /** What is read back after an array was written without error: the first elements, as many as one
      chunk of directory can list, each as `Get` brings it back. The directory of an empty array is an
      empty value, which comes back as no array at all. */
  lemma {:induction false} ArrayReadsBack(store: Store, key: Bytes, vls: seq<Bytes>)
    requires |key| <= MAX_ARR_KEY && |vls| < MAX_LEN && Failures(JobsOf(vls)) == 0
    ensures ReadArray(DoAll(store, AllOps(key, JobsOf(vls))), key)
         == if vls == [] then NoArray
            else Elements(seq(Min(|vls|, DIR_LEN), i requires 0 <= i < Min(|vls|, DIR_LEN) => Fetch(vls[i])))
  {
    hide DoAll, AllOps, TooBig, JobsOf, Failures, IndexBytes, Dir, Get, Fetch, ElemKey, ReadArray;
    var s := DoAll(store, AllOps(key, JobsOf(vls)));
    NoneTooBig(JobsOf(vls));
    JobIs(vls, |vls|);
    DirectoryKey(key);
    StoredFirst(store, key, vls, |vls|);
    if vls == [] {
      ReadsNothing(s, key);
      return;
    }
    forall i | 0 <= i < |vls|
      ensures Get(s, ElemKey(i + 1, key)) == Fetch(vls[i])
    {
      JobIs(vls, i);
      StoredFirst(store, key, vls, i);
    }
    ReadsDirectory(s, key, vls);
  }

  lemma {:induction false} ReadsNothing(s: Store, key: Bytes)
    requires |key| <= MAX_ARR_KEY && Get(s, [0, 0, 0] + key) == Fetch(Dir(0))
    ensures ReadArray(s, key) == NoArray
  {
    NoDir();
  }

  /** One chunk of directory never lists more elements than it has room for. */
  lemma {:induction false} ReadsFew(s: Store, key: Bytes)
    requires |key| <= MAX_ARR_KEY
    ensures ReadArray(s, key).Elements? ==> 3 * |ReadArray(s, key).values| <= CLEN
  {
    hide Word, KeyOf;
  }

  /** Exactly the stored list comes back if and only if it is not empty, the directory and every element
      fit one chunk, and no element is empty. */
  lemma {:induction false} ArrayRoundTripIff(store: Store, key: Bytes, vls: seq<Bytes>, np: nat, steps: seq<Step>)
    requires |key| <= MAX_ARR_KEY && |vls| <= MAX_LEN
    requires CanRun(key, Start(JobsOf(vls), np), steps) && Finished(RunAll(key, Start(JobsOf(vls), np), steps))
    requires RunAll(key, Start(JobsOf(vls), np), steps).errors == 0
    ensures ReadArray(DoAll(store, RunAll(key, Start(JobsOf(vls), np), steps).done), key)
         == Elements(seq(|vls|, i requires 0 <= i < |vls| => Some(vls[i])))
       <==> vls != [] && 3 * |vls| <= CLEN && forall i :: 0 <= i < |vls| ==> 1 <= |vls[i]| <= CLEN
  {
    hide DoAll, AllOps, JobsOf, Failures, CanRun, RunAll, ReadArray;
    if |vls| == MAX_LEN {
      ReadsFew(DoAll(store, RunAll(key, Start(JobsOf(vls), np), steps).done), key);
      return;
    }
    InterleavingDoesNotMatter(store, key, vls, np, steps);
    ArrayReadsBack(store, key, vls);
    var n := Min(|vls|, DIR_LEN);
    var got := seq(n, i requires 0 <= i < n => Fetch(vls[i]));
    var whole := seq(|vls|, i requires 0 <= i < |vls| => Some(vls[i]));
    forall i | 0 <= i < |vls|
      ensures Fetch(vls[i]) == Some(vls[i]) <==> 1 <= |vls[i]| <= CLEN
    {
      FetchWholeIff(vls[i]);
    }
    if got == whole {
      assert |got| == |whole|;
      assert forall i :: 0 <= i < n ==> got[i] == Fetch(vls[i]) && whole[i] == Some(vls[i]);
    }
  }

  lemma {:induction false} FetchWholeIff(value: Bytes)
    ensures Fetch(value) == Some(value) <==> 1 <= |value| <= CLEN
  {
    if |value| <= CLEN {
      assert value[..|value|] == value;
    }
  }

  // ----- the code -----

  method BuildDir(n: nat) returns (dirVal: array<Byte>)
    ensures fresh(dirVal) && dirVal[..] == Dir(n)
  {
    hide IndexBytes, Shr8, Dir;
    dirVal := new Byte[n * ARR_IDX_LEN](_ => 0);
    NoDir();
    for i := 0 to n
      invariant dirVal[..3 * i] == Dir(i)
    {
      ghost var bytes := IndexBytes(i + 1, ARR_IDX_LEN);
      var j := ARR_IDX_LEN - 1;
      while j >= 0
        invariant -1 <= j < 3 && dirVal[..3 * i] == Dir(i)
        invariant forall k :: 0 <= k < 2 - j ==> dirVal[3 * i + k] == bytes[k]
      {
        IndexByteAt(i + 1, ARR_IDX_LEN, j);
        dirVal[i * ARR_IDX_LEN + ARR_IDX_LEN - j - 1] := Shr8(i + 1, j) % 256;
        j := j - 1;
      }
      NextDir(i);
      assert dirVal[3 * i..3 * i + 3] == bytes;
      assert dirVal[..3 * (i + 1)] == dirVal[..3 * i] + dirVal[3 * i..3 * i + 3];
    }
    assert dirVal[..] == dirVal[..3 * n];
  }

  lemma {:induction false} NoDir()
    ensures Dir(0) == []
  {
  }

  lemma {:induction false} NextDir(i: nat)
    ensures Dir(i + 1) == Dir(i) + IndexBytes(i + 1, ARR_IDX_LEN)
  {
  }

  datatype SetOutcome = Queued(jobs: seq<Job>) | ArrayKeyError | NoValues | ArrayTooBig

  /** The jobs that `ArraySetN` queues for its workers; `vls` is absent for a nil slice. */
  method QueueJobs(key: Bytes, vls: Option<seq<Bytes>>) returns (o: SetOutcome)
    ensures o == if |key| > MAX_ARR_KEY then ArrayKeyError
                 else if vls.None? then NoValues
                 else if |vls.value| > MAX_LEN then ArrayTooBig
                 else Queued(JobsOf(vls.value))
  {
    if |key| > MAX_ARR_KEY {
      return ArrayKeyError;
    }
    if vls.None? {
      return NoValues;
    }
    var values := vls.value;
    if |values| > MAX_LEN {
      return ArrayTooBig;
    }
    var dirVal := BuildDir(|values|);
    var jobs: seq<Job> := [];
    for i := 1 to |values| + 1
      invariant |jobs| == i - 1 && forall k :: 0 <= k < i - 1 ==> jobs[k] == Job(k + 1, values[k])
    {
      jobs := jobs + [Job(i, values[i - 1])];
    }
    jobs := jobs + [Job(0, dirVal[..])];
    assert jobs == JobsOf(values);
    o := Queued(jobs);
  }

  method ArrayGet(store: Store, key: Bytes) returns (e: Elements)
    ensures e == ReadArray(store, key)
  {
    hide Get;
    if |key| > MAX_ARR_KEY {
      return BadArrayKey;
    }
    var dirVal := Get(store, [0, 0, 0] + key);
    if dirVal.None? {
      return NoArray;
    }
    var dir := dirVal.value;
    var res := new Option<Bytes>[|dir| / ARR_IDX_LEN](_ => None);
    for i := 0 to |dir| / ARR_IDX_LEN
      invariant forall k :: 0 <= k < i ==> res[k] == Get(store, dir[3 * k..3 * k + 3] + key)
    {
      var curKey := dir[i * ARR_IDX_LEN..(i + 1) * ARR_IDX_LEN] + key;
      res[i] := Get(store, curKey);
    }
    assert res[..] == ElementsOf(store, key, dir);
    e := Elements(res[..]);
  }
}
