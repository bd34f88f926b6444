/**
 * `main()` of calculate_aerodynamics.py: keep the .dat names of the
 * airfoil_data listing, run one job per name, collect the tables of the jobs
 * that returned one, and save their concatenation to xfoil_data.csv only
 * when there is at least one. The worker pool is modelled by running the
 * jobs one after another in their completion order, which is any order of
 * the .dat names.
 */
module Batch {
  import opened Wrappers
  import opened Text
  import opened Anomaly
  import opened Job
  import opened Multisets

  /** One submitted job as it completes: its file name and how its solver run ended. */
  datatype Completion = Completion(file: string, run: SolverRun)

  datatype BatchState = BatchState(files: Files, outcomes: seq<Outcome>)

  /** `[f for f in os.listdir(airfoil_folder) if f.lower().endswith(".dat")]` */
  function DatFiles(listing: seq<string>): (r: seq<string>)
    ensures forall f :: f in r <==> f in listing && IsDatName(f)
    ensures multiset(r) <= multiset(listing)
  {
    Filter(listing, IsDatName)
  }

  /** The file of each completed future, in completion order. */
  function CompletedFiles(jobs: seq<Completion>): seq<string>
  {
    Map((c: Completion) => c.file, jobs)
  }

  /** The jobs run in completion order, each seeing the files the earlier ones left. */
  function RunJobs(files: Files, jobs: seq<Completion>): (b: BatchState)
    ensures |b.outcomes| == |jobs|
  {
    if jobs == [] then BatchState(files, [])
    else
      var before := RunJobs(files, jobs[..|jobs| - 1]);
      var last := jobs[|jobs| - 1];
      var s := Process(before.files, last.file, last.run);
      BatchState(s.files, before.outcomes + [s.outcome])
  }

  /** The `records` list: the tables of the jobs that returned one, in completion order. */
  function Successes(outcomes: seq<Outcome>): (records: seq<seq<OutRow>>)
    ensures |records| <= |outcomes|
    ensures forall t :: t in records <==> Succeeded(t) in outcomes
  {
    if outcomes == [] then []
    else
      var rest := Successes(outcomes[1..]);
      assert outcomes == [outcomes[0]] + outcomes[1..];
      if outcomes[0].Succeeded? then [outcomes[0].table] + rest else rest
  }

  /** `pd.concat(records, ignore_index=True)` */
  function Concat(records: seq<seq<OutRow>>): (rows: seq<OutRow>)
    ensures forall r :: r in rows <==> exists k :: 0 <= k < |records| && r in records[k]
  {
    if records == [] then []
    else
      var rest := Concat(records[1..]);
      assert forall k :: 1 <= k < |records| ==> records[k] == records[1..][k - 1];
      records[0] + rest
  }

  /**
   * `main()`. `listing` is `os.listdir(airfoil_folder)`; `jobs` are the
   * submitted jobs in the order they complete. Returns the outcomes, the
   * `records` list and the valid-airfoil count printed at the end.
   */
  method RunBatch(ws: Workspace, listing: seq<string>, jobs: seq<Completion>)
    returns (outcomes: seq<Outcome>, records: seq<seq<OutRow>>, valid: nat)
    requires multiset(CompletedFiles(jobs)) == multiset(DatFiles(listing))
    modifies ws
    ensures BatchState(ws.files, outcomes) == RunJobs(old(ws.files), jobs)
    ensures records == Successes(outcomes)
    ensures valid == |records|
    ensures ws.savedCsv == if records == [] then old(ws.savedCsv) else Some(Concat(records))
    ensures DatFiles(listing) == [] ==> ws.files == old(ws.files) && ws.savedCsv == old(ws.savedCsv)
  {
    var datFiles := DatFiles(listing);
    if datFiles == [] {
      assert |jobs| == |CompletedFiles(jobs)| == 0;
    }
    ghost var files0 := ws.files;
    outcomes, records := [], [];
    var i := 0;
    while i < |jobs|
      invariant 0 <= i <= |jobs|
      invariant ws.files == RunJobs(files0, jobs[..i]).files
      invariant outcomes == RunJobs(files0, jobs[..i]).outcomes
      invariant records == Successes(outcomes)
      invariant ws.savedCsv == old(ws.savedCsv)
    {
      RunJobsStep(files0, jobs, i);
      var result, _ := ProcessAirfoil(ws, jobs[i].file, jobs[i].run);
      SuccessesAppend(outcomes, [result]);
      assert Successes([result]) == if result.Succeeded? then [result.table] else [];
      outcomes := outcomes + [result];
      if result.Succeeded? {
        records := records + [result.table];
      }
      i := i + 1;
    }
    assert jobs[..i] == jobs;
    if records != [] {
      ws.SaveCsv(Concat(records));
    }
    valid := |records|;
  }

  /** The state after one more job, from the state after the jobs before it. */
  lemma RunJobsStep(files: Files, jobs: seq<Completion>, i: nat)
    requires i < |jobs|
    ensures var before := RunJobs(files, jobs[..i]);
      var s := Process(before.files, jobs[i].file, jobs[i].run);
      RunJobs(files, jobs[..i + 1]) == BatchState(s.files, before.outcomes + [s.outcome])
  {
    assert jobs[..i + 1][..i] == jobs[..i];
  }

  // ---------------------------------------------------------------------------
  // Properties of the aggregation

  lemma {:induction false} SuccessesAppend(a: seq<Outcome>, b: seq<Outcome>)
    ensures Successes(a + b) == Successes(a) + Successes(b)
  {
    if a == [] {
      assert a + b == b;
    } else {
      assert (a + b)[0] == a[0] && (a + b)[1..] == a[1..] + b;
      SuccessesAppend(a[1..], b);
      if a[0].Succeeded? {
        assert Successes(a + b) == [a[0].table] + Successes(a[1..] + b);
        assert Successes(a) == [a[0].table] + Successes(a[1..]);
      } else {
        assert Successes(a + b) == Successes(a[1..] + b);
      }
    }
  }

  lemma {:induction false} ConcatAppend(a: seq<seq<OutRow>>, b: seq<seq<OutRow>>)
    ensures Concat(a + b) == Concat(a) + Concat(b)
  {
    if a == [] {
      assert a + b == b;
    } else {
      assert (a + b)[0] == a[0] && (a + b)[1..] == a[1..] + b;
      ConcatAppend(a[1..], b);
      assert Concat(a + b) == a[0] + Concat(a[1..] + b);
    }
  }

  /** Each table is collected as many times as a job returned it: the records depend only on the multiset of outcomes. */
  lemma {:induction false} SuccessesCount(outcomes: seq<Outcome>, t: seq<OutRow>)
    ensures multiset(Successes(outcomes))[t] == multiset(outcomes)[Succeeded(t)]
  {
    if outcomes != [] {
      assert outcomes == [outcomes[0]] + outcomes[1..];
      SuccessesCount(outcomes[1..], t);
    }
  }

  /** Taking one table out of the middle removes exactly its rows from the concatenation. */
  lemma ConcatWithout(b: seq<seq<OutRow>>, j: int)
    requires 0 <= j < |b|
    ensures multiset(Concat(b)) == multiset(b[j]) + multiset(Concat(b[..j] + b[j + 1..]))
  {
    var x, pre, post := b[j], b[..j], b[j + 1..];
    SplitAt(b, j);
    ConcatThree(pre, x, post);
    ConcatAppend(pre, post);
    assert multiset(Concat(pre + post)) == multiset(Concat(pre)) + multiset(Concat(post));
  }

  lemma ConcatThree(pre: seq<seq<OutRow>>, x: seq<OutRow>, post: seq<seq<OutRow>>)
    ensures multiset(Concat(pre + ([x] + post))) == multiset(Concat(pre)) + multiset(x) + multiset(Concat(post))
  {
    ConcatAppend(pre, [x] + post);
    ConcatAppend([x], post);
    assert Concat([x]) == x;
    assert Concat(pre + ([x] + post)) == Concat(pre) + (x + Concat(post));
  }

  /** Concatenating the same tables in another order gives the same multiset of rows. */
  lemma {:induction false} ConcatPermutation(a: seq<seq<OutRow>>, b: seq<seq<OutRow>>)
    requires multiset(a) == multiset(b)
    ensures multiset(Concat(a)) == multiset(Concat(b))
    decreases |a|
  {
    if a == [] {
      assert |b| == |multiset(b)| == 0;
    } else {
      var j := PickMatch(a, b);
      ConcatWithout(b, j);
      ConcatPermutation(a[1..], b[..j] + b[j + 1..]);
    }
  }

  /**
   * Aggregation does not depend on completion order: the same job outcomes
   * in any order give the same multiset of dataset rows.
   */
  lemma AggregationOrderIndependent(p: seq<Outcome>, q: seq<Outcome>)
    requires multiset(p) == multiset(q)
    ensures multiset(Successes(p)) == multiset(Successes(q))
    ensures multiset(Concat(Successes(p))) == multiset(Concat(Successes(q)))
  {
    forall t
      ensures multiset(Successes(p))[t] == multiset(Successes(q))[t]
    {
      SuccessesCount(p, t);
      SuccessesCount(q, t);
    }
    ConcatPermutation(Successes(p), Successes(q));
  }

  /**
   * Every row of the saved dataset passed the quality gate: all cells
   * present, CD positive, |CL/CD| at most 500, and CL/CD computed from the
   * row's own CL and CD.
   */
  lemma {:induction false} DatasetRowsValid(files: Files, jobs: seq<Completion>)
    ensures forall r :: r in Concat(Successes(RunJobs(files, jobs).outcomes)) ==> ValidOutRow(r)
  {
    if jobs != [] {
      var init := jobs[..|jobs| - 1];
      var before := RunJobs(files, init);
      var last := jobs[|jobs| - 1];
      var s := Process(before.files, last.file, last.run);
      DatasetRowsValid(files, init);
      SuccessesAppend(before.outcomes, [s.outcome]);
      ConcatAppend(Successes(before.outcomes), Successes([s.outcome]));
      if s.outcome.Succeeded? {
        SucceededRowsValid(before.files, last.file, last.run);
        assert Successes([s.outcome]) == [s.outcome.table];
        assert Concat([s.outcome.table]) == s.outcome.table;
      } else {
        assert Successes([s.outcome]) == [];
      }
    }
  }

  /** The dataset is written exactly when some job returned a table. */
  lemma WrittenIffSomeSuccess(outcomes: seq<Outcome>)
    ensures Successes(outcomes) != [] <==> exists k :: 0 <= k < |outcomes| && outcomes[k].Succeeded?
  {
    if Successes(outcomes) != [] {
      var t := Successes(outcomes)[0];
      assert Succeeded(t) in outcomes;
    }
  }

  // ---------------------------------------------------------------------------
  // Completion order

  /** The four paths a job may change: its geometry file, quarantine copy, temp script and polar report. */
  predicate OwnPath(file: string, p: string)
  {
    p == GeometryPath(file) || p == StrangePath(file) || p == TempPath(Stem(file)) || p == PolarPath(Stem(file))
  }

  /** No two jobs share an airfoil name, so no two share a temp script or a polar report. */
  predicate DistinctStems(jobs: seq<Completion>)
  {
    forall i, j :: 0 <= i < j < |jobs| ==> Stem(jobs[i].file) != Stem(jobs[j].file)
  }

  /** The outcome each job would have if it ran alone on the files the batch starts from. */
  function Alone(files: Files, jobs: seq<Completion>): seq<Outcome>
  {
    Map((c: Completion) => Process(files, c.file, c.run).outcome, jobs)
  }

  /** Jobs with different airfoil names never change the paths another job reads. */
  lemma ForeignPaths(other: string, file: string)
    requires Stem(other) != Stem(file)
    ensures !OwnPath(other, GeometryPath(file))
    ensures !OwnPath(other, PolarPath(Stem(file)))
  {
    JobPathsDistinct(other, Stem(other));
    JobPathsDistinct(file, Stem(file));
    JoinCancel(AirfoilFolder, other, file);
    PolarPathCancel(Stem(other), Stem(file));
  }

  /** Joining the same folder onto two names gives the same path only for the same name. */
  lemma JoinCancel(dir: string, a: string, b: string)
    ensures Join(dir, a) == Join(dir, b) ==> a == b
  {
    if Join(dir, a) == Join(dir, b) {
      assert a == Join(dir, a)[|dir| + 1..];
      assert b == Join(dir, b)[|dir| + 1..];
    }
  }

  /** Two airfoil names share a polar report path only when they are the same name. */
  lemma PolarPathCancel(s1: string, s2: string)
    ensures PolarPath(s1) == PolarPath(s2) ==> s1 == s2
  {
    var a, b := PolarPath(s1), PolarPath(s2);
    if a == b {
      assert s1 == a[|ResultFolder| + 1..|a| - 10];
      assert s2 == b[|ResultFolder| + 1..|b| - 10];
    }
  }

  /**
   * A job's outcome depends on the files only through whether its geometry
   * file is there and what sits at its polar path.
   */
  lemma SameView(f1: Files, f2: Files, file: string, run: SolverRun)
    requires GeometryPath(file) in f1 <==> GeometryPath(file) in f2
    requires PolarPath(Stem(file)) in f1 <==> PolarPath(Stem(file)) in f2
    requires PolarPath(Stem(file)) in f1 ==> f1[PolarPath(Stem(file))] == f2[PolarPath(Stem(file))]
    ensures Process(f1, file, run).outcome == Process(f2, file, run).outcome
  {
    if IsDatName(file) {
      var stem := Stem(file);
      var a1, a2 := AfterRun(f1, file, run), AfterRun(f2, file, run);
      AfterRunChanges(f1, file, run);
      AfterRunChanges(f2, file, run);
      JobPathsDistinct(file, stem);
      assert GeometryPath(file) in a1 <==> GeometryPath(file) in a2;
      if run.Finished? {
        UsableOutputAfterRun(f1, file, run);
        UsableOutputAfterRun(f2, file, run);
        assert UsableOutput(a1, stem) == UsableOutput(a2, stem);
      }
      assert FailureOf(a1, stem, run) == FailureOf(a2, stem, run);
    }
  }

  /** A path that is no job's own keeps its presence and content through the whole batch. */
  lemma {:induction false} RunJobsFrame(files: Files, jobs: seq<Completion>, p: string)
    requires forall k :: 0 <= k < |jobs| ==> !OwnPath(jobs[k].file, p)
    ensures p in RunJobs(files, jobs).files <==> p in files
    ensures p in files ==> RunJobs(files, jobs).files[p] == files[p]
  {
    if jobs != [] {
      var init, c := jobs[..|jobs| - 1], jobs[|jobs| - 1];
      assert forall k :: 0 <= k < |init| ==> init[k] == jobs[k];
      RunJobsFrame(files, init, p);
      OnlyOwnPathsChange(RunJobs(files, init).files, c.file, c.run, p);
    }
  }

  /**
   * The last job of a batch with distinct airfoil names ends as it would
   * alone: the jobs before it never touch the paths it reads.
   */
  lemma LastJobAlone(files: Files, init: seq<Completion>, c: Completion)
    requires forall k :: 0 <= k < |init| ==> Stem(init[k].file) != Stem(c.file)
    ensures Process(RunJobs(files, init).files, c.file, c.run).outcome == Process(files, c.file, c.run).outcome
  {
    forall k | 0 <= k < |init|
      ensures !OwnPath(init[k].file, GeometryPath(c.file)) && !OwnPath(init[k].file, PolarPath(Stem(c.file)))
    {
      ForeignPaths(init[k].file, c.file);
    }
    RunJobsFrame(files, init, GeometryPath(c.file));
    RunJobsFrame(files, init, PolarPath(Stem(c.file)));
    SameView(RunJobs(files, init).files, files, c.file, c.run);
  }

  /** A prefix of a batch with distinct airfoil names has distinct names, none equal to the next job's. */
  lemma DistinctStemsPrefix(jobs: seq<Completion>, n: nat)
    requires DistinctStems(jobs) && n <= |jobs|
    ensures DistinctStems(jobs[..n])
    ensures n < |jobs| ==> forall k :: 0 <= k < n ==> Stem(jobs[k].file) != Stem(jobs[n].file)
  {
  }

  /** Running one more job alone appends its own outcome. */
  lemma AloneSnoc(files: Files, init: seq<Completion>, c: Completion)
    ensures Alone(files, init + [c]) == Alone(files, init) + [Process(files, c.file, c.run).outcome]
  {
  }

  /** With distinct airfoil names, each job in the batch ends as it would alone on the starting files. */
  lemma {:induction false} RunJobsAlone(files: Files, jobs: seq<Completion>)
    requires DistinctStems(jobs)
    ensures RunJobs(files, jobs).outcomes == Alone(files, jobs)
  {
    if jobs != [] {
      var n := |jobs|;
      var init, c := jobs[..n - 1], jobs[n - 1];
      assert jobs == init + [c];
      DistinctStemsPrefix(jobs, n - 1);
      RunJobsAlone(files, init);
      LastJobAlone(files, init, c);
      AloneSnoc(files, init, c);
    }
  }

  /** The same jobs in another order, each run alone, give the same multiset of outcomes. */
  lemma AlonePermutation(files: Files, p: seq<Completion>, q: seq<Completion>)
    requires multiset(p) == multiset(q)
    ensures multiset(Alone(files, p)) == multiset(Alone(files, q))
  {
    MapPermutation((c: Completion) => Process(files, c.file, c.run).outcome, p, q);
  }

  /**
   * Completion order does not matter: when no two jobs share an airfoil
   * name, any two completion orders of the same jobs give the same
   * multiset of outcomes, of collected tables and of dataset rows.
   */
  lemma CompletionOrderIndependent(files: Files, p: seq<Completion>, q: seq<Completion>)
    requires multiset(p) == multiset(q) && DistinctStems(p) && DistinctStems(q)
    ensures multiset(RunJobs(files, p).outcomes) == multiset(RunJobs(files, q).outcomes)
    ensures multiset(Successes(RunJobs(files, p).outcomes)) == multiset(Successes(RunJobs(files, q).outcomes))
    ensures multiset(Concat(Successes(RunJobs(files, p).outcomes))) == multiset(Concat(Successes(RunJobs(files, q).outcomes)))
  {
    RunJobsAlone(files, p);
    RunJobsAlone(files, q);
    AlonePermutation(files, p, q);
    AggregationOrderIndependent(RunJobs(files, p).outcomes, RunJobs(files, q).outcomes);
  }

  /**
   * When every listed geometry file is present at the start and no two jobs
   * share an airfoil name, no job crashes in `shutil.move`: each one returns
   * a table, quarantines, or skips a non-.dat name.
   */
  lemma ListedJobsNeverCrash(files: Files, jobs: seq<Completion>)
    requires DistinctStems(jobs)
    requires forall k :: 0 <= k < |jobs| ==> GeometryPath(jobs[k].file) in files
    ensures forall k :: 0 <= k < |jobs| ==> !RunJobs(files, jobs).outcomes[k].Crashed?
  {
    RunJobsAlone(files, jobs);
    forall k | 0 <= k < |jobs|
      ensures !Alone(files, jobs)[k].Crashed?
    {
      assert Alone(files, jobs)[k] == Process(files, jobs[k].file, jobs[k].run).outcome;
      if IsDatName(jobs[k].file) {
        FailureExits(files, jobs[k].file, jobs[k].run);
      }
    }
  }
}
