/** What an invocation of the campaign runner leaves of every task, whatever the order in which jobs finish
    (scripts/run_terminal_bench_campaign.py, `main`). */
module CampaignOutcome {
  import opened Options
  import opened JobNames
  import opened CampaignModel

  // What a benchmark process does: its return code, and what it leaves in its job's directory.
  datatype Outcome = Outcome(code: int, left: Option<JobDir>)

  type Harbor = (string, string) -> Outcome

  // ---------------------------------------------------------------- task by task

  function RecordsOf(rs: seq<Record>, task: string): seq<Record> {
    if rs == [] then [] else (if rs[0].task == task then [rs[0]] else []) + RecordsOf(rs[1..], task)
  }

  ghost predicate SameFor(d: Disk, e: Disk, task: string) {
    RecordsOf(TasksRun(e), task) == RecordsOf(TasksRun(d), task) && Runs(e, task) == Runs(d, task)
  }

  // Neither settled nor served by a finished run: a new run is called for, under the next number.
  ghost predicate ToRun(d: Disk, task: string, attempts: int) {
    !Settled(TasksRun(d), task, Required(attempts)) && forall j :: !IsAdopted(Runs(d, task), attempts, j)
  }

  function NextJob(d: Disk, task: string): string {
    JobName(|Runs(d, task)| + 1)
  }

  function AfterRun(d: Disk, task: string, harbor: Harbor): map<string, JobDir> {
    match harbor(task, NextJob(d, task)).left
    case None => Runs(d, task)
    case Some(content) => Runs(d, task)[NextJob(d, task) := content]
  }

  function RunRecord(d: Disk, task: string, attempts: int, harbor: Harbor): Record {
    FinalRecord(AfterRun(d, task, harbor), task, NextJob(d, task), harbor(task, NextJob(d, task)).code, attempts)
  }

  predicate Succeeds(d: Disk, task: string, attempts: int, harbor: Harbor) {
    RunRecord(d, task, attempts, harbor).status == Completed
  }

  // The job has run, and its record is on file.
  ghost predicate RunDone(d: Disk, e: Disk, task: string, attempts: int, harbor: Harbor) {
    && Runs(e, task) == AfterRun(d, task, harbor)
    && RecordsOf(TasksRun(e), task) == Upsert(RecordsOf(TasksRun(d), task), RunRecord(d, task, attempts, harbor))
  }

  ghost predicate AdoptDone(d: Disk, e: Disk, task: string, attempts: int) {
    && Runs(e, task) == Runs(d, task)
    && exists j :: IsAdopted(Runs(d, task), attempts, j)
         && RecordsOf(TasksRun(e), task)
            == Upsert(RecordsOf(TasksRun(d), task), CompletedRecord(task, j, None, Runs(d, task)[j].trials))
  }

  // Settled tasks are left alone, and finished runs are adopted.
  ghost predicate Looked(d: Disk, e: Disk, task: string, attempts: int) {
    if Settled(TasksRun(d), task, Required(attempts)) then SameFor(d, e, task)
    else if exists j :: IsAdopted(Runs(d, task), attempts, j) then AdoptDone(d, e, task, attempts)
    else SameFor(d, e, task)
  }

  ghost predicate Handled(d: Disk, e: Disk, task: string, attempts: int, harbor: Harbor, reached: bool) {
    if ToRun(d, task, attempts) && reached then RunDone(d, e, task, attempts, harbor) else Looked(d, e, task, attempts)
  }

  lemma {:induction false} UpsertByTask(rs: seq<Record>, r: Record, task: string)
    ensures RecordsOf(Upsert(rs, r), task) ==
            if r.task == task then Upsert(RecordsOf(rs, task), r) else RecordsOf(rs, task)
  {
    if rs != [] {
      var rest := rs[1..];
      assert Upsert(rs, r)[1..] == if SameKey(rs[0], r) then rest else Upsert(rest, r);
      UpsertByTask(rest, r, task);
      if rs[0].task == task {
        assert RecordsOf(rs, task)[1..] == RecordsOf(rest, task);
      } else {
        assert RecordsOf(rs, task) == RecordsOf(rest, task);
      }
    } else {
      assert [r][1..] == [];
    }
  }

  lemma {:induction false} SettledByTask(rs: seq<Record>, task: string, required: int)
    ensures Settled(rs, task, required) <==> Settled(RecordsOf(rs, task), task, required)
  {
    hide Counts;
    if rs != [] {
      var rest, mine := rs[1..], RecordsOf(rs[1..], task);
      SettledByTask(rest, task, required);
      SettledHead(rs, task, required);
      if rs[0].task == task {
        assert RecordsOf(rs, task)[1..] == mine;
        SettledHead(RecordsOf(rs, task), task, required);
      } else {
        assert RecordsOf(rs, task) == mine;
      }
    }
  }

  lemma SettledHead(rs: seq<Record>, task: string, required: int)
    requires rs != []
    ensures Settled(rs, task, required) <==>
            (rs[0].task == task && Counts(rs[0], required)) || Settled(rs[1..], task, required)
  {
    hide Counts;
    if i :| 0 <= i < |rs| && rs[i].task == task && Counts(rs[i], required) {
      assert i > 0 ==> rs[1..][i - 1] == rs[i];
    }
    if i :| 0 <= i < |rs[1..]| && rs[1..][i].task == task && Counts(rs[1..][i], required) {
      assert rs[i + 1] == rs[1..][i];
    }
  }

  // Filing a record concerns its own task only.
  lemma AppendByTask(d: Disk, r: Record, task: string)
    requires d.manifest.Some?
    ensures var e := Append(d, r);
            && e.manifest.Some? && e.dirs == d.dirs && Runs(e, task) == Runs(d, task)
            && RecordsOf(TasksRun(e), task) ==
               if r.task == task then Upsert(RecordsOf(TasksRun(d), task), r) else RecordsOf(TasksRun(d), task)
  {
    hide Upsert, RecordsOf;
    UpsertByTask(TasksRun(d), r, task);
  }

  // ---------------------------------------------------------------- what follows from the same start

  lemma SameStart(d: Disk, e: Disk, task: string, attempts: int)
    requires SameFor(d, e, task)
    ensures Settled(TasksRun(d), task, Required(attempts)) <==> Settled(TasksRun(e), task, Required(attempts))
    ensures ToRun(d, task, attempts) <==> ToRun(e, task, attempts)
    ensures NextJob(d, task) == NextJob(e, task)
  {
    hide Settled, IsAdopted, JobName, RecordsOf, Required;
    SettledByTask(TasksRun(d), task, Required(attempts));
    SettledByTask(TasksRun(e), task, Required(attempts));
  }

  lemma SameRun(d: Disk, e: Disk, task: string, attempts: int, harbor: Harbor)
    requires SameFor(d, e, task)
    ensures Succeeds(d, task, attempts, harbor) <==> Succeeds(e, task, attempts, harbor)
  {
    hide FinalRecord, JobName, RecordsOf;
  }

  lemma SameTrans(d: Disk, e: Disk, f: Disk, task: string)
    requires SameFor(d, e, task) && SameFor(e, f, task)
    ensures SameFor(d, f, task)
  {
  }

  lemma LookedLater(d: Disk, e: Disk, f: Disk, task: string, attempts: int)
    requires Looked(d, e, task, attempts) && SameFor(e, f, task)
    ensures Looked(d, f, task, attempts)
  {
    hide RecordsOf, Runs, Settled, IsAdopted, Upsert, CompletedRecord;
  }

  lemma LookedFrom(d: Disk, e: Disk, f: Disk, task: string, attempts: int)
    requires SameFor(d, e, task) && Looked(e, f, task, attempts)
    ensures Looked(d, f, task, attempts)
  {
    hide RecordsOf, Runs, Settled, IsAdopted, Upsert, CompletedRecord, Required;
    SettledByTask(TasksRun(d), task, Required(attempts));
    SettledByTask(TasksRun(e), task, Required(attempts));
  }

  lemma RunFrom(d: Disk, e: Disk, f: Disk, task: string, attempts: int, harbor: Harbor)
    requires SameFor(d, e, task) && RunDone(e, f, task, attempts, harbor)
    ensures RunDone(d, f, task, attempts, harbor)
  {
    hide RecordsOf, Runs, JobName, FinalRecord, Upsert;
  }

  lemma RunLater(d: Disk, e: Disk, f: Disk, task: string, attempts: int, harbor: Harbor)
    requires RunDone(d, e, task, attempts, harbor) && SameFor(e, f, task)
    ensures RunDone(d, f, task, attempts, harbor)
  {
    hide RecordsOf, Runs, AfterRun, RunRecord, Upsert;
  }

  lemma LookedToRun(d: Disk, e: Disk, task: string, attempts: int)
    requires Looked(d, e, task, attempts) && ToRun(d, task, attempts)
    ensures SameFor(d, e, task)
  {
    hide SameFor, AdoptDone, Settled, IsAdopted;
  }

  // ---------------------------------------------------------------- when a task ends up settled

  // Does the loop over the tasks get to the k-th one?
  ghost predicate Reached(d: Disk, tasks: seq<string>, k: int, attempts: int, harbor: Harbor, stopEarly: bool) {
    stopEarly ==> forall m :: 0 <= m < k < |tasks| && ToRun(d, tasks[m], attempts) ==> Succeeds(d, tasks[m], attempts, harbor)
  }

  lemma AdoptSettles(d: Disk, e: Disk, task: string, attempts: int)
    requires AdoptDone(d, e, task, attempts) && attempts >= 1 && task != ""
    ensures Settled(TasksRun(e), task, Required(attempts))
  {
    hide RecordsOf, IsAdopted, CompletedRecord, Upsert, Counts, Required;
    var before := RecordsOf(TasksRun(d), task);
    var j :| IsAdopted(Runs(d, task), attempts, j)
             && RecordsOf(TasksRun(e), task) == Upsert(before, CompletedRecord(task, j, None, Adopted(Runs(d, task), attempts, j).trials));
    var r := CompletedRecord(task, j, None, Adopted(Runs(d, task), attempts, j).trials);
    AdoptedCountsIff(Runs(d, task), task, j, attempts);
    CompletedTask(task, j, None, Adopted(Runs(d, task), attempts, j).trials);
    UpsertSettles(before, r, task, Required(attempts));
    SettledByTask(TasksRun(e), task, Required(attempts));
  }

  lemma CompletedTask(task: string, job: string, code: Option<int>, trials: seq<Trial>)
    ensures CompletedRecord(task, job, code, trials).task == task
  {
  }

  lemma UpsertSettles(rs: seq<Record>, r: Record, task: string, required: int)
    requires r.task == task && Counts(r, required)
    ensures Settled(Upsert(rs, r), task, required)
  {
    hide Counts, Upsert;
    UpsertIs(rs, r);
    var i :| 0 <= i < |Upsert(rs, r)| && Upsert(rs, r)[i] == r;
  }

  lemma RunSettlesIff(d: Disk, e: Disk, task: string, attempts: int, harbor: Harbor)
    requires ToRun(d, task, attempts) && RunDone(d, e, task, attempts, harbor) && task != ""
    ensures Settled(TasksRun(e), task, Required(attempts)) <==> Succeeds(d, task, attempts, harbor)
  {
    hide RecordsOf, IsAdopted, FinalRecord, Upsert, Counts, Settled, Required, JobName;
    var before, r := RecordsOf(TasksRun(d), task), RunRecord(d, task, attempts, harbor);
    FinalKey(AfterRun(d, task, harbor), task, NextJob(d, task), harbor(task, NextJob(d, task)).code, attempts);
    FinalCountsIff(AfterRun(d, task, harbor), task, NextJob(d, task), harbor(task, NextJob(d, task)).code, attempts);
    SettledByTask(TasksRun(d), task, Required(attempts));
    SettledByTask(TasksRun(e), task, Required(attempts));
    if Counts(r, Required(attempts)) {
      UpsertSettles(before, r, task, Required(attempts));
    } else {
      UpsertSettlesNot(before, r, task, Required(attempts));
    }
  }

  // A task is settled in the end exactly when no run was called for, or its run was reached and succeeds.
  lemma HandledSettlesIff(d: Disk, e: Disk, task: string, attempts: int, harbor: Harbor, reached: bool)
    requires Handled(d, e, task, attempts, harbor, reached) && attempts >= 1 && task != ""
    ensures Settled(TasksRun(e), task, Required(attempts)) <==>
            !ToRun(d, task, attempts) || (reached && Succeeds(d, task, attempts, harbor))
  {
    hide RecordsOf, IsAdopted, Settled, Required, RunDone, AdoptDone, SameFor, Succeeds;
    if ToRun(d, task, attempts) {
      if reached {
        RunSettlesIff(d, e, task, attempts, harbor);
      } else {
        SameStart(d, e, task, attempts);
      }
    } else if Settled(TasksRun(d), task, Required(attempts)) {
      SameStart(d, e, task, attempts);
    } else {
      AdoptSettles(d, e, task, attempts);
    }
  }

  // Everything called for succeeds exactly when every task is settled in the end.
  lemma AllSettledIff(d: Disk, e: Disk, tasks: seq<string>, attempts: int, harbor: Harbor, stopEarly: bool)
    requires attempts >= 1 && forall k :: 0 <= k < |tasks| ==> tasks[k] != ""
    requires forall k :: 0 <= k < |tasks| ==>
               Handled(d, e, tasks[k], attempts, harbor, Reached(d, tasks, k, attempts, harbor, stopEarly))
    ensures (forall k :: 0 <= k < |tasks| && ToRun(d, tasks[k], attempts) ==> Succeeds(d, tasks[k], attempts, harbor)) <==>
            forall k :: 0 <= k < |tasks| ==> Settled(TasksRun(e), tasks[k], Required(attempts))
  {
    hide Handled, ToRun, Succeeds, Settled, Required, Reached;
    forall k | 0 <= k < |tasks|
      ensures Settled(TasksRun(e), tasks[k], Required(attempts)) <==>
              !ToRun(d, tasks[k], attempts)
              || (Reached(d, tasks, k, attempts, harbor, stopEarly) && Succeeds(d, tasks[k], attempts, harbor))
    {
      HandledSettlesIff(d, e, tasks[k], attempts, harbor, Reached(d, tasks, k, attempts, harbor, stopEarly));
    }
    if forall k :: 0 <= k < |tasks| && ToRun(d, tasks[k], attempts) ==> Succeeds(d, tasks[k], attempts, harbor) {
      forall k | 0 <= k < |tasks| ensures Reached(d, tasks, k, attempts, harbor, stopEarly) {
        AllReached(d, tasks, k, attempts, harbor, stopEarly);
      }
    }
  }

  lemma AllReached(d: Disk, tasks: seq<string>, k: int, attempts: int, harbor: Harbor, stopEarly: bool)
    requires forall m :: 0 <= m < |tasks| && ToRun(d, tasks[m], attempts) ==> Succeeds(d, tasks[m], attempts, harbor)
    ensures Reached(d, tasks, k, attempts, harbor, stopEarly)
  {
    hide ToRun, Succeeds;
  }

  // ---------------------------------------------------------------- the list of jobs

  // The jobs called for, in the order of the tasks.
  ghost function JobsFor(d: Disk, tasks: seq<string>, attempts: int): seq<(string, string)> {
    if tasks == [] then []
    else
      var task := tasks[|tasks| - 1];
      JobsFor(d, tasks[..|tasks| - 1], attempts) + if ToRun(d, task, attempts) then [(task, NextJob(d, task))] else []
  }

  ghost predicate JobsSucceed(d: Disk, jobs: seq<(string, string)>, attempts: int, harbor: Harbor) {
    forall a :: 0 <= a < |jobs| ==> Succeeds(d, jobs[a].0, attempts, harbor)
  }

  lemma {:induction false} JobsAre(d: Disk, tasks: seq<string>, attempts: int, harbor: Harbor)
    ensures var jobs := JobsFor(d, tasks, attempts);
            && (forall a :: 0 <= a < |jobs| ==>
                  jobs[a].0 in tasks && ToRun(d, jobs[a].0, attempts) && jobs[a].1 == NextJob(d, jobs[a].0))
            && (JobsSucceed(d, jobs, attempts, harbor) <==>
                forall m :: 0 <= m < |tasks| && ToRun(d, tasks[m], attempts) ==> Succeeds(d, tasks[m], attempts, harbor))
  {
    hide ToRun, Succeeds, NextJob;
    if tasks != [] {
      var n := |tasks| - 1;
      var init, task := tasks[..n], tasks[n];
      JobsAre(d, init, attempts, harbor);
      var before, jobs := JobsFor(d, init, attempts), JobsFor(d, tasks, attempts);
      assert forall a :: 0 <= a < |before| ==> jobs[a] == before[a];
      if ToRun(d, task, attempts) {
        assert jobs[|before|].0 == task;
      }
    }
  }

  // The place of a task's job in the list: the jobs before it are those of the tasks before it.
  lemma {:induction false} JobAt(d: Disk, tasks: seq<string>, k: nat, attempts: int)
    requires k < |tasks| && ToRun(d, tasks[k], attempts)
    ensures var jobs, before := JobsFor(d, tasks, attempts), JobsFor(d, tasks[..k], attempts);
            |before| < |jobs| && jobs[..|before|] == before && jobs[|before|] == (tasks[k], NextJob(d, tasks[k]))
    decreases |tasks|
  {
    hide ToRun, NextJob;
    var n := |tasks| - 1;
    if k < n {
      JobAt(d, tasks[..n], k, attempts);
      assert tasks[..n][..k] == tasks[..k];
    }
  }

  // Which jobs the loop over the list gets to.
  ghost predicate JobReached(d: Disk, jobs: seq<(string, string)>, a: int, attempts: int, harbor: Harbor, stopEarly: bool) {
    stopEarly ==> forall b :: 0 <= b < a < |jobs| ==> Succeeds(d, jobs[b].0, attempts, harbor)
  }

  lemma ReachedAlike(d: Disk, tasks: seq<string>, k: nat, attempts: int, harbor: Harbor, stopEarly: bool)
    requires k < |tasks| && ToRun(d, tasks[k], attempts)
    ensures JobReached(d, JobsFor(d, tasks, attempts), |JobsFor(d, tasks[..k], attempts)|, attempts, harbor, stopEarly)
            <==> Reached(d, tasks, k, attempts, harbor, stopEarly)
  {
    hide ToRun, Succeeds, NextJob, JobsFor;
    JobAt(d, tasks, k, attempts);
    JobsAre(d, tasks[..k], attempts, harbor);
    var jobs, before := JobsFor(d, tasks, attempts), JobsFor(d, tasks[..k], attempts);
    assert forall b :: 0 <= b < |before| ==> jobs[..|before|][b] == jobs[b] == before[b];
    assert forall m :: 0 <= m < k ==> tasks[..k][m] == tasks[m];
  }

  lemma NotAJob(d: Disk, tasks: seq<string>, task: string, attempts: int, harbor: Harbor)
    requires !ToRun(d, task, attempts) || task !in tasks
    ensures forall a :: 0 <= a < |JobsFor(d, tasks, attempts)| ==> JobsFor(d, tasks, attempts)[a].0 != task
  {
    hide ToRun, JobsFor;
    JobsAre(d, tasks, attempts, harbor);
  }

  // ---------------------------------------------------------------- the loop over the jobs

  ghost function Names(jobs: seq<(string, string)>): set<string> {
    set a | 0 <= a < |jobs| :: jobs[a].0
  }

  predicate DistinctNames(jobs: seq<(string, string)>) {
    forall a, b :: 0 <= a < b < |jobs| ==> jobs[a].0 != jobs[b].0
  }

  // Of the pending jobs all but the rest have run, and nothing else has changed.
  ghost predicate Partly(d: Disk, now: Disk, pending: seq<(string, string)>, rest: seq<(string, string)>, attempts: int,
                         harbor: Harbor) {
    && Names(rest) <= Names(pending) && (forall b :: 0 <= b < |rest| ==> rest[b].1 == NextJob(d, rest[b].0))
    && (forall u :: u in Names(pending) && u !in Names(rest) ==> RunDone(d, now, u, attempts, harbor))
    && (forall u :: u !in Names(pending) || u in Names(rest) ==> SameFor(d, now, u))
  }

  ghost predicate SomeFailed(d: Disk, pending: seq<(string, string)>, rest: seq<(string, string)>, attempts: int, harbor: Harbor) {
    exists u :: u in Names(pending) && u !in Names(rest) && !Succeeds(d, u, attempts, harbor)
  }

  // What the loop leaves: the jobs it reached have run, the others are as before.
  ghost predicate JobsDone(d: Disk, e: Disk, jobs: seq<(string, string)>, attempts: int, harbor: Harbor, stopEarly: bool) {
    && (forall a :: 0 <= a < |jobs| ==>
          if JobReached(d, jobs, a, attempts, harbor, stopEarly) then RunDone(d, e, jobs[a].0, attempts, harbor)
          else SameFor(d, e, jobs[a].0))
    && (forall u :: u !in Names(jobs) ==> SameFor(d, e, u))
  }

  ghost predicate FirstFailure(d: Disk, jobs: seq<(string, string)>, a: int, attempts: int, harbor: Harbor) {
    && 0 <= a < |jobs| && !Succeeds(d, jobs[a].0, attempts, harbor)
    && forall b :: 0 <= b < a ==> Succeeds(d, jobs[b].0, attempts, harbor)
  }

  lemma NothingChanged(d: Disk)
    ensures forall u :: SameFor(d, d, u)
  {
  }

  lemma PartlyAtFirst(d: Disk, pending: seq<(string, string)>, attempts: int, harbor: Harbor)
    requires forall a :: 0 <= a < |pending| ==> pending[a].1 == NextJob(d, pending[a].0)
    ensures Partly(d, d, pending, pending, attempts, harbor) && !SomeFailed(d, pending, pending, attempts, harbor)
  {
    hide SameFor, RunDone, NextJob;
    NothingChanged(d);
  }

  lemma NamesTake(rest: seq<(string, string)>, k: nat)
    requires DistinctNames(rest) && k < |rest|
    ensures rest[k].0 in Names(rest) && Names(rest[..k] + rest[k + 1..]) == Names(rest) - {rest[k].0}
  {
    var fewer := rest[..k] + rest[k + 1..];
    assert forall a :: 0 <= a < |fewer| ==> fewer[a] == rest[if a < k then a else a + 1];
    forall u | u in Names(rest) && u != rest[k].0 ensures u in Names(fewer) {
      var a :| 0 <= a < |rest| && rest[a].0 == u;
      assert fewer[if a < k then a else a - 1].0 == u;
    }
  }

  lemma NextUp(d: Disk, now: Disk, pending: seq<(string, string)>, rest: seq<(string, string)>, k: nat, attempts: int,
               harbor: Harbor)
    requires Partly(d, now, pending, rest, attempts, harbor) && k < |rest|
    ensures SameFor(d, now, rest[k].0) && rest[k].1 == NextJob(now, rest[k].0)
    ensures Succeeds(d, rest[k].0, attempts, harbor) <==> Succeeds(now, rest[k].0, attempts, harbor)
  {
    hide SameFor, RunDone, NextJob, Succeeds;
    assert rest[k].0 in Names(rest);
    SameStart(d, now, rest[k].0, attempts);
    SameRun(d, now, rest[k].0, attempts, harbor);
  }

  lemma OneMore(d: Disk, now: Disk, after: Disk, pending: seq<(string, string)>, rest: seq<(string, string)>, k: nat,
                attempts: int, harbor: Harbor)
    requires Partly(d, now, pending, rest, attempts, harbor) && DistinctNames(rest) && k < |rest|
    requires RunDone(now, after, rest[k].0, attempts, harbor)
    requires forall u :: u != rest[k].0 ==> SameFor(now, after, u)
    ensures Partly(d, after, pending, rest[..k] + rest[k + 1..], attempts, harbor)
    ensures SomeFailed(d, pending, rest[..k] + rest[k + 1..], attempts, harbor) <==>
            SomeFailed(d, pending, rest, attempts, harbor) || !Succeeds(d, rest[k].0, attempts, harbor)
  {
    hide SameFor, RunDone, NextJob, Succeeds, Names;
    var fewer, task := rest[..k] + rest[k + 1..], rest[k].0;
    NamesTake(rest, k);
    assert forall b :: 0 <= b < |fewer| ==> fewer[b] == rest[if b < k then b else b + 1];
    forall u | u in Names(pending) && u !in Names(fewer) ensures RunDone(d, after, u, attempts, harbor) {
      if u == task {
        RunFrom(d, now, after, task, attempts, harbor);
      } else {
        RunLater(d, now, after, u, attempts, harbor);
      }
    }
    forall u | u !in Names(pending) || u in Names(fewer) ensures SameFor(d, after, u) {
      SameTrans(d, now, after, u);
    }
  }

  lemma NamesOfTail(pending: seq<(string, string)>, n: nat, a: nat)
    requires DistinctNames(pending) && n <= |pending| && a < |pending|
    ensures pending[a].0 in Names(pending)
    ensures pending[a].0 in Names(pending[n..]) <==> n <= a
  {
    if n <= a {
      assert pending[n..][a - n] == pending[a];
    }
  }

  lemma FailedBefore(d: Disk, pending: seq<(string, string)>, n: nat, attempts: int, harbor: Harbor)
    requires DistinctNames(pending) && n <= |pending|
    ensures SomeFailed(d, pending, pending[n..], attempts, harbor) <==>
            exists a :: 0 <= a < n && !Succeeds(d, pending[a].0, attempts, harbor)
  {
    hide Succeeds;
    forall a | 0 <= a < |pending| ensures pending[a].0 in Names(pending[n..]) <==> n <= a {
      NamesOfTail(pending, n, a);
    }
  }

  // A loop that stops at the n-th job, the first that fails.
  lemma StoppedAt(d: Disk, e: Disk, pending: seq<(string, string)>, n: nat, attempts: int, harbor: Harbor)
    requires DistinctNames(pending) && n < |pending| && Partly(d, e, pending, pending[n + 1..], attempts, harbor)
    requires FirstFailure(d, pending, n, attempts, harbor)
    ensures JobsDone(d, e, pending, attempts, harbor, true) && !JobsSucceed(d, pending, attempts, harbor)
    ensures forall a :: FirstFailure(d, pending, a, attempts, harbor) ==> a == n
  {
    hide SameFor, RunDone, NextJob, Succeeds, Names;
    forall a | 0 <= a < |pending|
      ensures if JobReached(d, pending, a, attempts, harbor, true) then RunDone(d, e, pending[a].0, attempts, harbor)
              else SameFor(d, e, pending[a].0)
    {
      NamesOfTail(pending, n + 1, a);
    }
  }

  // A loop that goes on to the end.
  lemma AllOver(d: Disk, e: Disk, pending: seq<(string, string)>, attempts: int, harbor: Harbor, stopEarly: bool)
    requires DistinctNames(pending) && Partly(d, e, pending, [], attempts, harbor)
    requires stopEarly ==> !SomeFailed(d, pending, [], attempts, harbor)
    ensures JobsDone(d, e, pending, attempts, harbor, stopEarly)
    ensures JobsSucceed(d, pending, attempts, harbor) <==> !SomeFailed(d, pending, [], attempts, harbor)
  {
    hide SameFor, RunDone, NextJob, Succeeds;
    assert pending[|pending|..] == [];
    FailedBefore(d, pending, |pending|, attempts, harbor);
    forall a | 0 <= a < |pending| ensures pending[a].0 in Names(pending) && pending[a].0 !in Names([]) {
    }
  }

  // ---------------------------------------------------------------- an invocation as a whole

  lemma JobsSame(d: Disk, e: Disk, tasks: seq<string>, attempts: int)
    requires forall u :: SameFor(d, e, u)
    ensures JobsFor(d, tasks, attempts) == JobsFor(e, tasks, attempts)
  {
    hide SameFor, ToRun, NextJob;
    if tasks != [] {
      JobsSame(d, e, tasks[..|tasks| - 1], attempts);
      SameStart(d, e, tasks[|tasks| - 1], attempts);
    }
  }

  // The tasks with a job have not changed while the tasks were prepared.
  lemma JobsStillNext(d: Disk, e: Disk, tasks: seq<string>, attempts: int, harbor: Harbor)
    requires forall k :: 0 <= k < |tasks| ==> Looked(d, e, tasks[k], attempts)
    ensures var jobs := JobsFor(d, tasks, attempts);
            forall a :: 0 <= a < |jobs| ==>
              && SameFor(d, e, jobs[a].0) && jobs[a].1 == NextJob(e, jobs[a].0)
              && (Succeeds(d, jobs[a].0, attempts, harbor) <==> Succeeds(e, jobs[a].0, attempts, harbor))
  {
    hide SameFor, ToRun, NextJob, Looked, JobsFor, Succeeds;
    var jobs := JobsFor(d, tasks, attempts);
    JobsAre(d, tasks, attempts, harbor);
    forall a | 0 <= a < |jobs|
      ensures SameFor(d, e, jobs[a].0) && jobs[a].1 == NextJob(e, jobs[a].0)
      ensures Succeeds(d, jobs[a].0, attempts, harbor) <==> Succeeds(e, jobs[a].0, attempts, harbor)
    {
      LookedToRun(d, e, jobs[a].0, attempts);
      SameStart(d, e, jobs[a].0, attempts);
      SameRun(d, e, jobs[a].0, attempts, harbor);
    }
  }

  lemma NotNamed(jobs: seq<(string, string)>, task: string)
    requires forall a :: 0 <= a < |jobs| ==> jobs[a].0 != task
    ensures task !in Names(jobs)
  {
  }

  lemma JobReachedSame(d: Disk, e: Disk, jobs: seq<(string, string)>, a: int, attempts: int, harbor: Harbor, stopEarly: bool)
    requires forall b :: 0 <= b < |jobs| ==>
               (Succeeds(d, jobs[b].0, attempts, harbor) <==> Succeeds(e, jobs[b].0, attempts, harbor))
    ensures JobReached(d, jobs, a, attempts, harbor, stopEarly) <==> JobReached(e, jobs, a, attempts, harbor, stopEarly)
  {
    hide Succeeds;
  }

  // First every task is looked at, then the jobs called for are run: each task is handled.
  lemma TaskHandled(d: Disk, e: Disk, f: Disk, tasks: seq<string>, k: nat, attempts: int, harbor: Harbor, stopEarly: bool)
    requires k < |tasks| && forall m :: 0 <= m < |tasks| ==> Looked(d, e, tasks[m], attempts)
    requires JobsDone(e, f, JobsFor(d, tasks, attempts), attempts, harbor, stopEarly)
    ensures Handled(d, f, tasks[k], attempts, harbor, Reached(d, tasks, k, attempts, harbor, stopEarly))
  {
    hide SameFor, ToRun, NextJob, Looked, JobsFor, Succeeds, RunDone, Reached, JobReached;
    var jobs, task := JobsFor(d, tasks, attempts), tasks[k];
    if ToRun(d, task, attempts) {
      var a := |JobsFor(d, tasks[..k], attempts)|;
      JobAt(d, tasks, k, attempts);
      JobsStillNext(d, e, tasks, attempts, harbor);
      ReachedAlike(d, tasks, k, attempts, harbor, stopEarly);
      JobReachedSame(d, e, jobs, a, attempts, harbor, stopEarly);
      assert jobs[a].0 == task;
      if JobReached(e, jobs, a, attempts, harbor, stopEarly) {
        RunFrom(d, e, f, task, attempts, harbor);
      } else {
        LookedLater(d, e, f, task, attempts);
      }
    } else {
      NotAJob(d, tasks, task, attempts, harbor);
      NotNamed(jobs, task);
      LookedLater(d, e, f, task, attempts);
    }
  }

  lemma OtherUntouched(d: Disk, e: Disk, f: Disk, tasks: seq<string>, other: string, attempts: int, harbor: Harbor, stopEarly: bool)
    requires other !in tasks && SameFor(d, e, other)
    requires JobsDone(e, f, JobsFor(d, tasks, attempts), attempts, harbor, stopEarly)
    ensures SameFor(d, f, other)
  {
    hide SameFor, ToRun, JobsFor, RunDone;
    NotAJob(d, tasks, other, attempts, harbor);
    NotNamed(JobsFor(d, tasks, attempts), other);
    SameTrans(d, e, f, other);
  }

  lemma SuccessAlike(d: Disk, e: Disk, tasks: seq<string>, attempts: int, harbor: Harbor)
    requires forall k :: 0 <= k < |tasks| ==> Looked(d, e, tasks[k], attempts)
    ensures JobsSucceed(e, JobsFor(d, tasks, attempts), attempts, harbor) <==>
            forall k :: 0 <= k < |tasks| && ToRun(d, tasks[k], attempts) ==> Succeeds(d, tasks[k], attempts, harbor)
  {
    hide ToRun, JobsFor, Succeeds, Looked, SameFor, NextJob;
    JobsAre(d, tasks, attempts, harbor);
    JobsStillNext(d, e, tasks, attempts, harbor);
  }

  // The first task in the list whose run fails is the first job that fails.
  lemma FailureAlike(d: Disk, e: Disk, tasks: seq<string>, k: nat, attempts: int, harbor: Harbor) returns (a: nat)
    requires forall m :: 0 <= m < |tasks| ==> Looked(d, e, tasks[m], attempts)
    requires k < |tasks| && ToRun(d, tasks[k], attempts) && !Succeeds(d, tasks[k], attempts, harbor)
    requires Reached(d, tasks, k, attempts, harbor, true)
    ensures FirstFailure(e, JobsFor(d, tasks, attempts), a, attempts, harbor)
    ensures JobsFor(d, tasks, attempts)[a] == (tasks[k], NextJob(d, tasks[k]))
  {
    hide ToRun, JobsFor, Succeeds, Looked, SameFor, NextJob, Reached;
    a := |JobsFor(d, tasks[..k], attempts)|;
    JobAt(d, tasks, k, attempts);
    JobsStillNext(d, e, tasks, attempts, harbor);
    ReachedAlike(d, tasks, k, attempts, harbor, true);
  }
}
