/** The one length at which the order of the workers matters: an array of `2^24` elements, which
    `ArraySetN` accepts (array_ops.go, lines 89-91). */
module ArrayRace {
  import opened ColumnPages
  import opened BulkGet
  import opened Chunks
  import opened ChunkStore
  import opened ArrayStore

  function FirstWord(key: Bytes, job: Job): (w: Bytes)
    requires |key| <= MAX_ARR_KEY
  {
    Word(KeyOf(0, ElemKey(job.index, key)))
  }

  /** No two jobs write under the same key. */
  predicate JobWordsDiffer(key: Bytes, jobs: seq<Job>)
    requires |key| <= MAX_ARR_KEY
  {
    forall a, b :: 0 <= a < b < |jobs| ==> FirstWord(key, jobs[a]) != FirstWord(key, jobs[b])
  }

  lemma {:induction false} FirstWordsEqualIff(key: Bytes, j: Job, k: Job)
    requires |key| <= MAX_ARR_KEY
    ensures FirstWord(key, j) == FirstWord(key, k) <==> j.index % MAX_LEN == k.index % MAX_LEN
  {
    hide Fill, ElemKey, Word, KeyOf;
    WordsEqualIff(0, ElemKey(j.index, key), 0, ElemKey(k.index, key));
    ElemKeysEqualIff(j.index, k.index, key);
  }

  /** Of the lengths that are accepted, the largest is the only one with colliding keys. */
  lemma {:induction false} JobWordsDifferIff(key: Bytes, vls: seq<Bytes>)
    requires |key| <= MAX_ARR_KEY && |vls| <= MAX_LEN
    ensures JobWordsDiffer(key, JobsOf(vls)) <==> |vls| < MAX_LEN
  {
    hide FirstWord, JobsOf;
    var jobs := JobsOf(vls);
    if |vls| < MAX_LEN {
      forall a, b | 0 <= a < b < |jobs|
        ensures FirstWord(key, jobs[a]) != FirstWord(key, jobs[b])
      {
        FirstWordsEqualIff(key, jobs[a], jobs[b]);
        if jobs[a].index % MAX_LEN == jobs[b].index % MAX_LEN {
          JobKeysDiffer(vls, a, b);
        }
      }
    } else {
      JobIs(vls, |vls| - 1);
      JobIs(vls, |vls|);
      FirstWordsEqualIff(key, jobs[|vls| - 1], jobs[|vls|]);
    }
  }

  // ----- making runs -----

  lemma {:induction false} RunJoin(key: Bytes, s: State, a: seq<Step>, b: seq<Step>)
    requires |key| <= MAX_ARR_KEY && CanRun(key, s, a) && CanRun(key, RunAll(key, s, a), b)
    ensures CanRun(key, s, a + b) && RunAll(key, s, a + b) == RunAll(key, RunAll(key, s, a), b)
    decreases |a|
  {
    hide Enabled, Next;
    if a == [] {
      assert a + b == b;
    } else {
      RunJoin(key, Next(key, s, a[0]), a[1..], b);
      assert (a + b)[1..] == a[1..] + b;
    }
  }

  lemma {:induction false} OneStep(key: Bytes, s: State, step: Step)
    requires |key| <= MAX_ARR_KEY && Enabled(s, step)
    ensures CanRun(key, s, [step]) && RunAll(key, s, [step]) == Next(key, s, step)
  {
    hide Enabled, Next;
    assert [step][1..] == [];
  }

  lemma {:induction false} NoStep(key: Bytes, s: State)
    requires |key| <= MAX_ARR_KEY
    ensures CanRun(key, s, []) && RunAll(key, s, []) == s
  {
  }

  /** Worker `w` sends all it has. */
  lemma {:induction false} SendRest(key: Bytes, s: State, w: nat) returns (steps: seq<Step>)
    requires |key| <= MAX_ARR_KEY && w < |s.busy|
    ensures CanRun(key, s, steps)
    ensures RunAll(key, s, steps) == s.(busy := s.busy[w := []], done := s.done + s.busy[w])
    decreases |s.busy[w]|
  {
    hide CanRun, RunAll;
    if s.busy[w] == [] {
      steps := [];
      NoStep(key, s);
      assert s.busy[w := []] == s.busy && s.done + [] == s.done;
    } else {
      var t := Next(key, s, Send(w));
      OneStep(key, s, Send(w));
      var more := SendRest(key, t, w);
      RunJoin(key, s, [Send(w)], more);
      steps := [Send(w)] + more;
      assert s.done + [s.busy[w][0]] + s.busy[w][1..] == s.done + s.busy[w];
      assert t.busy[w := []] == s.busy[w := []];
    }
  }

  /** Worker 0 does the next job from beginning to end. */
  lemma {:induction false} DoJob(key: Bytes, s: State) returns (steps: seq<Step>)
    requires |key| <= MAX_ARR_KEY && |s.busy| > 0 && s.busy[0] == [] && s.jobs != []
    ensures CanRun(key, s, steps)
    ensures RunAll(key, s, steps)
         == State(s.jobs[1..], s.busy, s.done + JobOps(key, s.jobs[0]), s.errors + if TooBig(s.jobs[0]) then 1 else 0)
  {
    hide CanRun, RunAll, JobOps, TooBig;
    var t := Next(key, s, Take(0));
    OneStep(key, s, Take(0));
    var more := SendRest(key, t, 0);
    RunJoin(key, s, [Take(0)], more);
    steps := [Take(0)] + more;
    assert t.busy[0 := []] == s.busy;
  }

  /** Worker 0 does the next `n` jobs alone. */
  lemma {:induction false} DoJobs(key: Bytes, s: State, n: nat) returns (steps: seq<Step>)
    requires |key| <= MAX_ARR_KEY && |s.busy| > 0 && s.busy[0] == [] && n <= |s.jobs|
    ensures CanRun(key, s, steps)
    ensures var t := RunAll(key, s, steps); t.jobs == s.jobs[n..] && t.busy == s.busy
    decreases n
  {
    hide CanRun, RunAll, JobOps, TooBig;
    if n == 0 {
      steps := [];
      NoStep(key, s);
    } else {
      var first := DoJob(key, s);
      var t := RunAll(key, s, first);
      var more := DoJobs(key, t, n - 1);
      RunJoin(key, s, first, more);
      steps := first + more;
    }
  }

  // ----- the race -----

  lemma {:induction false} LastWriteStays(store: Store, before: seq<Op>, key: Bytes, job: Job)
    requires |key| <= MAX_ARR_KEY && !TooBig(job)
    ensures var s := DoAll(store, before + JobOps(key, job)); var w := FirstWord(key, job);
            w in s && s[w] == ChunksOf(job.value)[0]
  {
    ChunksSplit(job.value);
    hide DoAll, ChunksOf, NumOps, KeyOf, Word, ElemKey;
    DoJoins(store, before, JobOps(key, job));
    ChunkStored(DoAll(store, before), ElemKey(job.index, key), ChunksOf(job.value), false, 0);
  }

  /** Two workers, the last two jobs: the directory can be written after the last element or before it. */
  lemma {:induction false} LastTwoJobs(key: Bytes, s: State) returns (a: seq<Step>, b: seq<Step>)
    requires |key| <= MAX_ARR_KEY && |s.jobs| == 2 && s.busy == [[], []]
    ensures CanRun(key, s, a) && Finished(RunAll(key, s, a))
    ensures RunAll(key, s, a).done == s.done + JobOps(key, s.jobs[0]) + JobOps(key, s.jobs[1])
    ensures CanRun(key, s, b) && Finished(RunAll(key, s, b))
    ensures RunAll(key, s, b).done == s.done + JobOps(key, s.jobs[1]) + JobOps(key, s.jobs[0])
  {
    hide CanRun, RunAll, JobOps, TooBig;
    var a1 := DoJob(key, s);
    var t1 := RunAll(key, s, a1);
    var a2 := DoJob(key, t1);
    RunJoin(key, s, a1, a2);
    a := a1 + a2;
    var u1 := Next(key, s, Take(1));
    OneStep(key, s, Take(1));
    var b2 := DoJob(key, u1);
    var u2 := RunAll(key, u1, b2);
    var b3 := SendRest(key, u2, 1);
    RunJoin(key, u1, b2, b3);
    RunJoin(key, s, [Take(1)], b2 + b3);
    b := [Take(1)] + (b2 + b3);
  }

  /** With two workers, `2^24` elements can leave the directory or the last element under their common
      key: two finished runs, two stores unless both values begin alike. */
  lemma {:induction false} FullLengthRaces(store: Store, key: Bytes, vls: seq<Bytes>)
    returns (a: seq<Step>, b: seq<Step>)
    requires |key| <= MAX_ARR_KEY && |vls| == MAX_LEN && NumOps(|vls[MAX_LEN - 1]|) <= MAX_OPS
    ensures var s := Start(JobsOf(vls), 2); var w := FirstWord(key, Job(0, Dir(MAX_LEN)));
            && CanRun(key, s, a) && Finished(RunAll(key, s, a)) && CanRun(key, s, b) && Finished(RunAll(key, s, b))
            && var x, y := DoAll(store, RunAll(key, s, a).done), DoAll(store, RunAll(key, s, b).done);
               w in x && x[w] == ChunksOf(Dir(MAX_LEN))[0] && w in y && y[w] == ChunksOf(vls[MAX_LEN - 1])[0]
  {
    hide CanRun, RunAll, JobOps, DoAll, ChunksOf, Dir, JobsOf, FirstWord, NumOps;
    var jobs := JobsOf(vls);
    var s := Start(jobs, 2);
    var n := |vls| - 1;
    var front := DoJobs(key, s, n);
    var t := RunAll(key, s, front);
    var a', b' := LastTwoJobs(key, t);
    RunJoin(key, s, front, a');
    RunJoin(key, s, front, b');
    a, b := front + a', front + b';
    JobIs(vls, n);
    JobIs(vls, n + 1);
    DirectoryFits(MAX_LEN);
    assert t.jobs[0] == jobs[n] && t.jobs[1] == jobs[n + 1];
    LastWriteStays(store, t.done + JobOps(key, jobs[n]), key, jobs[n + 1]);
    LastWriteStays(store, t.done + JobOps(key, jobs[n + 1]), key, jobs[n]);
    FirstWordsEqualIff(key, jobs[n], jobs[n + 1]);
  }

  /** For instance when all elements are empty. */
  lemma {:induction false} SchedulesDisagree(store: Store, key: Bytes)
    returns (vls: seq<Bytes>, a: seq<Step>, b: seq<Step>)
    requires |key| <= MAX_ARR_KEY
    ensures |vls| == MAX_LEN
    ensures var s := Start(JobsOf(vls), 2);
            && CanRun(key, s, a) && Finished(RunAll(key, s, a)) && CanRun(key, s, b) && Finished(RunAll(key, s, b))
            && DoAll(store, RunAll(key, s, a).done) != DoAll(store, RunAll(key, s, b).done)
  {
    hide CanRun, RunAll, DoAll, JobsOf, FirstWord, Dir;
    vls := seq(MAX_LEN, _ => []);
    a, b := FullLengthRaces(store, key, vls);
    ChunksSplit([]);
    ChunksSplit(Dir(MAX_LEN));
    hide ChunksOf;
    assert |ChunksOf(Dir(MAX_LEN))[0]| != |ChunksOf([])[0]|;
  }
}
