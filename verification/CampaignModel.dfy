/** The benchmark campaign as a state machine over its manifest, its mirrored log and its run
    directories (scripts/run_terminal_bench_campaign.py). */
module CampaignModel {
  import opened Options
  import opened JobNames
  import opened TextOrder
  import opened Listing

  datatype Trial = Trial(name: string, reward: Option<real>)

  // A run directory: is there a job result, and which per-trial results.
  datatype JobDir = JobDir(hasResult: bool, trials: seq<Trial>)

  datatype Status =
    | Completed
    | CompletedWithPartialNumericReward
    | CompletedWithoutNumericReward
    | FailedToProduceResult
    | MissingTrialResults

  datatype Record = Record(task: string, job: string, status: Status, returnCode: Option<int>,
                           meanReward: Option<real>, trials: seq<Trial>)

  // The settings every invocation must agree on, and the rest.
  datatype Settings = Settings(pinned: Pinned, createdAt: string, gitHead: string)

  datatype Pinned = Pinned(
    runnerScript: string, model: string, reasoningEffort: string, serviceTier: string,
    binaryPath: string, binarySha256: string, openaiAuthPath: string, dataset: string,
    path: Option<string>, attemptsPerTask: int, nConcurrent: int, timeoutMultiplier: real)

  datatype Manifest = Manifest(settings: Settings, tasksRun: seq<Record>)

  type Dirs = map<string, map<string, JobDir>>

  datatype Disk = Disk(manifest: Option<Manifest>, log: Option<seq<Record>>, dirs: Dirs)

  // ---------------------------------------------------------------- records

  function Numeric(trials: seq<Trial>): seq<real> {
    if trials == [] then []
    else if trials[0].reward.Some? then [trials[0].reward.value] + Numeric(trials[1..])
    else Numeric(trials[1..])
  }

  function SumOf(xs: seq<real>): real {
    if xs == [] then 0.0 else xs[0] + SumOf(xs[1..])
  }

  function Mean(trials: seq<Trial>): Option<real> {
    var xs := Numeric(trials);
    if xs == [] then None else Some(SumOf(xs) / |xs| as real)
  }

  function Required(attempts: int): int {
    if attempts == 0 then 1 else attempts
  }

  // Does this record settle its task?
  predicate Counts(r: Record, required: int) {
    r.status == Completed && r.task != "" && r.meanReward.Some? && |Numeric(r.trials)| >= required
  }

  predicate SameKey(a: Record, b: Record) {
    a.task == b.task && a.job == b.job
  }

  function Upsert(rs: seq<Record>, r: Record): seq<Record> {
    if rs == [] then [r]
    else if SameKey(rs[0], r) then [r] + rs[1..]
    else [rs[0]] + Upsert(rs[1..], r)
  }

  predicate UniqueKeys(rs: seq<Record>) {
    forall i, j :: 0 <= i < j < |rs| ==> !SameKey(rs[i], rs[j])
  }

  predicate HasKey(rs: seq<Record>, task: string, job: string) {
    exists i :: 0 <= i < |rs| && rs[i].task == task && rs[i].job == job
  }

  predicate Settled(rs: seq<Record>, task: string, required: int) {
    exists i :: 0 <= i < |rs| && rs[i].task == task && Counts(rs[i], required)
  }

  lemma {:induction false} UpsertMembers(rs: seq<Record>, r: Record, i: nat)
    requires i < |Upsert(rs, r)|
    ensures Upsert(rs, r)[i] == r || (i < |rs| && Upsert(rs, r)[i] == rs[i])
  {
    if rs != [] && !SameKey(rs[0], r) && i > 0 {
      UpsertMembers(rs[1..], r, i - 1);
    }
  }

  // Upserting replaces the record of that key in place, or appends; nothing else moves.
  lemma {:induction false} UpsertIs(rs: seq<Record>, r: Record)
    ensures var u := Upsert(rs, r);
            && r in u
            && |rs| <= |u|
            && (forall i :: 0 <= i < |rs| && !SameKey(rs[i], r) ==> u[i] == rs[i])
            && (|u| != |rs| ==> u == rs + [r])
  {
    if rs == [] {
      assert Upsert(rs, r)[0] == r;
    } else if SameKey(rs[0], r) {
      assert Upsert(rs, r)[0] == r;
    } else {
      UpsertIs(rs[1..], r);
      assert forall i :: 0 < i < |rs| ==> rs[1..][i - 1] == rs[i];
    }
  }

  // The first record of the key is the one that is replaced.
  lemma {:induction false} UpsertAt(rs: seq<Record>, idx: nat, r: Record)
    requires idx <= |rs| && forall j :: 0 <= j < idx ==> !SameKey(rs[j], r)
    ensures idx < |rs| && SameKey(rs[idx], r) ==> Upsert(rs, r) == rs[idx := r]
    ensures idx == |rs| ==> Upsert(rs, r) == rs + [r]
  {
    hide SameKey;
    if idx > 0 {
      assert forall j :: 0 <= j < |rs[1..]| ==> rs[1..][j] == rs[j + 1];
      UpsertAt(rs[1..], idx - 1, r);
    }
  }

  // It appends exactly when the key is new.
  lemma {:induction false} UpsertAppendsIff(rs: seq<Record>, r: Record)
    ensures |Upsert(rs, r)| == |rs| <==> HasKey(rs, r.task, r.job)
  {
    if rs != [] && !SameKey(rs[0], r) {
      UpsertIs(rs[1..], r);
      UpsertAppendsIff(rs[1..], r);
      if HasKey(rs, r.task, r.job) {
        var i :| 0 <= i < |rs| && rs[i].task == r.task && rs[i].job == r.job;
        assert rs[1..][i - 1] == rs[i];
      }
      if HasKey(rs[1..], r.task, r.job) {
        var i :| 0 <= i < |rs[1..]| && rs[1..][i].task == r.task && rs[1..][i].job == r.job;
        assert rs[i + 1] == rs[1..][i];
      }
    }
  }

  lemma {:induction false} UpsertUnique(rs: seq<Record>, r: Record)
    requires UniqueKeys(rs)
    ensures UniqueKeys(Upsert(rs, r))
    ensures forall i :: 0 <= i < |Upsert(rs, r)| && SameKey(Upsert(rs, r)[i], r) ==> Upsert(rs, r)[i] == r
  {
    if rs != [] {
      assert forall i :: 0 <= i < |rs[1..]| ==> rs[1..][i] == rs[i + 1];
      if !SameKey(rs[0], r) {
        UpsertUnique(rs[1..], r);
        forall i | 0 <= i < |Upsert(rs[1..], r)| ensures !SameKey(rs[0], Upsert(rs[1..], r)[i]) {
          UpsertMembers(rs[1..], r, i);
        }
      }
    }
  }

  lemma {:induction false} UpsertTwice(rs: seq<Record>, r: Record)
    ensures Upsert(Upsert(rs, r), r) == Upsert(rs, r)
  {
    if rs != [] && !SameKey(rs[0], r) {
      UpsertTwice(rs[1..], r);
    }
  }


  // ---------------------------------------------------------------- disk operations

  function TasksRun(d: Disk): seq<Record> {
    if d.manifest.Some? then d.manifest.value.tasksRun else []
  }

  // An absent log counts as empty.
  function LogOf(d: Disk): seq<Record> {
    if d.log.Some? then d.log.value else []
  }

  // Filing a record takes two writes: the manifest, and then the log with the same list.
  function WriteManifest(d: Disk, r: Record): Disk
    requires d.manifest.Some?
  {
    d.(manifest := Some(d.manifest.value.(tasksRun := Upsert(d.manifest.value.tasksRun, r))))
  }

  function FlushLog(d: Disk): Disk {
    d.(log := Some(TasksRun(d)))
  }

  // There is nothing to write when the list stays the same.
  predicate Changes(d: Disk, r: Record) {
    Upsert(TasksRun(d), r) != TasksRun(d)
  }

  function Append(d: Disk, r: Record): Disk
    requires d.manifest.Some?
  {
    if Changes(d, r) then FlushLog(WriteManifest(d, r)) else d
  }

  function Runs(d: Disk, task: string): map<string, JobDir> {
    if task in d.dirs then d.dirs[task] else map[]
  }

  function MakeTaskDir(d: Disk, task: string): Disk {
    d.(dirs := d.dirs[task := Runs(d, task)])
  }

  function Write(d: Disk, task: string, job: string, content: JobDir): Disk {
    d.(dirs := d.dirs[task := Runs(d, task)[job := content]])
  }

  predicate Adoptable(j: JobDir, required: int) {
    j.hasResult && j.trials != [] && |Numeric(j.trials)| >= required
  }

  // The adoptable run whose name sorts last.
  predicate IsAdopted(runs: map<string, JobDir>, required: int, job: string) {
    && job in runs && Adoptable(runs[job], required)
    && forall other :: other in runs && Adoptable(runs[other], required) ==> other == job || NameLess(other, job)
  }

  function CompletedRecord(task: string, job: string, code: Option<int>, trials: seq<Trial>): Record {
    Record(task, job, Completed, code, Mean(trials), trials)
  }

  // The record a finished process leaves; a missing directory has no result and no trials.
  function FinalRecord(runs: map<string, JobDir>, task: string, job: string, code: int, required: int): Record {
    var dir := if job in runs then runs[job] else JobDir(false, []);
    if dir.hasResult && dir.trials != [] then
      var r := CompletedRecord(task, job, Some(code), dir.trials);
      if r.meanReward.Some? && |Numeric(dir.trials)| >= required then r
      else if Numeric(dir.trials) != [] then r.(status := CompletedWithPartialNumericReward)
      else r.(status := CompletedWithoutNumericReward)
    else if code != 0 || !dir.hasResult then Record(task, job, FailedToProduceResult, Some(code), None, [])
    else Record(task, job, MissingTrialResults, Some(code), None, [])
  }

  // ---------------------------------------------------------------- the machine

  // An invocation in progress: which tasks it has prepared, the job each pending task waits for, and whether it
  // has written the manifest but not yet the log.
  datatype Proc = Idle | Running(attempts: int, prepared: set<string>, pending: map<string, string>, writing: bool)

  predicate Writing(s: Sys) {
    s.proc.Running? && s.proc.writing
  }

  datatype Sys = Sys(disk: Disk, proc: Proc)

  datatype Event =
    | Boot(settings: Settings)
    | MakeDir(task: string)
    | Prepare(task: string)
    | Harbor(task: string, content: JobDir)
    | Rewrite(task: string, job: string, content: JobDir)
    | Finalize(task: string, code: int)
    | Flush
    | Stop

  ghost predicate BootStep(s: Sys, t: Sys, settings: Settings) {
    && s.proc.Idle?
    && if s.disk.manifest.None? then
         t == Sys(s.disk.(manifest := Some(Manifest(settings, []))), Running(settings.pinned.attemptsPerTask, {}, map[], false))
       else if s.disk.manifest.value.settings.pinned == settings.pinned then
         t == Sys(s.disk, Running(settings.pinned.attemptsPerTask, {}, map[], false))
       else t == s
  }

  // Busy with the next step, not in between the two writes of a record.
  predicate Ready(s: Sys) {
    s.proc.Running? && s.disk.manifest.Some? && !s.proc.writing
  }

  function AttemptsOf(d: Disk): int
    requires d.manifest.Some?
  {
    d.manifest.value.settings.pinned.attemptsPerTask
  }

  ghost predicate MakeDirStep(s: Sys, t: Sys, task: string) {
    && Ready(s) && task !in s.proc.prepared
    && !Settled(TasksRun(s.disk), task, Required(AttemptsOf(s.disk)))
    && t == Sys(MakeTaskDir(s.disk, task), s.proc)
  }

  // Skips a settled task; otherwise, in its directory, adopts a run or schedules the next one.
  ghost predicate PrepareStep(s: Sys, t: Sys, task: string) {
    && Ready(s) && task !in s.proc.prepared && t.proc.Running?
    && t.proc.attempts == s.proc.attempts && t.proc.prepared == s.proc.prepared + {task}
    && if Settled(TasksRun(s.disk), task, Required(AttemptsOf(s.disk))) then
         t.disk == s.disk && t.proc.pending == s.proc.pending && !t.proc.writing
       else
         && task in s.disk.dirs
         && var runs := s.disk.dirs[task];
            if exists job :: IsAdopted(runs, s.proc.attempts, job) then
              && t.proc.pending == s.proc.pending
              && exists job :: IsAdopted(runs, s.proc.attempts, job)
                   && var r := CompletedRecord(task, job, None, runs[job].trials);
                      t.disk == WriteManifest(s.disk, r) && t.proc.writing == Changes(s.disk, r)
            else
              && t.disk == s.disk && !t.proc.writing
              && t.proc.pending == s.proc.pending[task := JobName(|runs| + 1)]
  }

  // The benchmark process creates, or keeps writing, the directory of its job.
  ghost predicate HarborStep(s: Sys, t: Sys, task: string, content: JobDir) {
    && s.proc.Running? && task in s.proc.pending && t.proc == s.proc
    && t.disk == Write(s.disk, task, s.proc.pending[task], content)
  }

  // Contents of an existing directory may change at any time.
  ghost predicate RewriteStep(s: Sys, t: Sys, task: string, job: string, content: JobDir) {
    && job in Runs(s.disk, task) && t.proc == s.proc
    && t.disk == Write(s.disk, task, job, content)
  }

  ghost predicate FinalizeStep(s: Sys, t: Sys, task: string, code: int) {
    && Ready(s) && task in s.proc.pending
    && var r := FinalRecord(Runs(s.disk, task), task, s.proc.pending[task], code, s.proc.attempts);
       t == Sys(WriteManifest(s.disk, r), s.proc.(pending := s.proc.pending - {task}, writing := Changes(s.disk, r)))
  }

  ghost predicate FlushStep(s: Sys, t: Sys) {
    Writing(s) && t == Sys(FlushLog(s.disk), s.proc.(writing := false))
  }

  // A normal end, an early return on failure or a crash between two steps.
  ghost predicate StopStep(s: Sys, t: Sys) {
    t == Sys(s.disk, Idle)
  }

  ghost predicate Step(s: Sys, t: Sys, e: Event) {
    match e
    case Boot(settings) => BootStep(s, t, settings)
    case MakeDir(task) => MakeDirStep(s, t, task)
    case Prepare(task) => PrepareStep(s, t, task)
    case Harbor(task, content) => HarborStep(s, t, task, content)
    case Rewrite(task, job, content) => RewriteStep(s, t, task, job, content)
    case Finalize(task, code) => FinalizeStep(s, t, task, code)
    case Flush => FlushStep(s, t)
    case Stop => StopStep(s, t)
  }

  // ---------------------------------------------------------------- what every reachable state satisfies

  // Directories are numbered 1, 2, ..., without a gap.
  ghost predicate Numbered(runs: map<string, JobDir>) {
    forall job :: job in runs <==> exists i :: 1 <= i <= |runs| && job == JobName(i)
  }

  ghost predicate Mirrored(d: Disk) {
    LogOf(d) == TasksRun(d)
  }

  function DiskRequired(d: Disk): int {
    if d.manifest.Some? then Required(d.manifest.value.settings.pinned.attemptsPerTask) else 1
  }

  // Settling records name a directory that exists.
  ghost predicate Backed(d: Disk) {
    forall i :: 0 <= i < |TasksRun(d)| && Counts(TasksRun(d)[i], DiskRequired(d))
                ==> TasksRun(d)[i].job in Runs(d, TasksRun(d)[i].task)
  }

  // A pending task is unsettled, and its job is the newest directory or the next one.
  ghost predicate PendingOk(d: Disk, p: Proc) {
    p.Running? ==>
      && d.manifest.Some? && p.attempts == d.manifest.value.settings.pinned.attemptsPerTask
      && p.pending.Keys <= p.prepared
      && forall task :: task in p.pending ==>
           && task in d.dirs
           && !Settled(TasksRun(d), task, DiskRequired(d))
           && ((p.pending[task] in d.dirs[task] && p.pending[task] == JobName(|d.dirs[task]|)) ||
               p.pending[task] == JobName(|d.dirs[task]| + 1))
  }

  ghost predicate Inv(s: Sys) {
    && UniqueKeys(TasksRun(s.disk))
    && (forall task :: task in s.disk.dirs ==> Numbered(s.disk.dirs[task]))
    && Backed(s.disk)
    && PendingOk(s.disk, s.proc)
  }

  lemma InitialInv()
    ensures Inv(Sys(Disk(None, None, map[]), Idle))
  {
  }

  // The next name is not taken.
  lemma NextIsFresh(runs: map<string, JobDir>)
    requires Numbered(runs)
    ensures JobName(|runs| + 1) !in runs
  {
    hide JobName;
    if JobName(|runs| + 1) in runs {
      var i :| 1 <= i <= |runs| && JobName(|runs| + 1) == JobName(i);
      JobNameInjective(|runs| + 1, i);
    }
  }

  lemma NumberedGrows(runs: map<string, JobDir>, job: string, content: JobDir)
    requires Numbered(runs) && (job in runs || job == JobName(|runs| + 1))
    ensures Numbered(runs[job := content])
    ensures |runs[job := content]| == if job in runs then |runs| else |runs| + 1
  {
    hide JobName, Numbered;
    var next := runs[job := content];
    assert next.Keys == runs.Keys + {job};
    if job in runs {
      assert next.Keys == runs.Keys;
      SameNames(runs, next);
    } else {
      assert next.Keys - {job} == runs.Keys;
      OneMoreName(runs, next, job);
    }
  }

  lemma SameNames(runs: map<string, JobDir>, next: map<string, JobDir>)
    requires Numbered(runs) && next.Keys == runs.Keys
    ensures Numbered(next) && |next| == |runs|
  {
    hide JobName;
    assert |next.Keys| == |next| && |runs.Keys| == |runs|;
  }

  lemma OneMoreName(runs: map<string, JobDir>, next: map<string, JobDir>, job: string)
    requires Numbered(runs) && job !in runs && job == JobName(|runs| + 1) && next.Keys == runs.Keys + {job}
    ensures Numbered(next) && |next| == |runs| + 1
  {
    hide JobName;
    assert |next.Keys| == |next| && |runs.Keys| == |runs|;
    forall j ensures j in next <==> exists i :: 1 <= i <= |next| && j == JobName(i) {
      if j in runs {
        var i :| 1 <= i <= |runs| && j == JobName(i);
      } else if j == job {
        assert j == JobName(|next|);
      }
    }
  }

  lemma EmptyNumbered()
    ensures Numbered(map[])
  {
  }

  // ---------------------------------------------------------------- appending a record

  lemma WriteFacts(d: Disk, r: Record)
    requires d.manifest.Some? && UniqueKeys(TasksRun(d))
    ensures var e := WriteManifest(d, r);
            && e.manifest.Some? && e.manifest.value.settings == d.manifest.value.settings
            && e.dirs == d.dirs && e.log == d.log
            && TasksRun(e) == Upsert(TasksRun(d), r) && UniqueKeys(TasksRun(e))
  {
    hide Upsert, UniqueKeys;
    UpsertUnique(TasksRun(d), r);
  }

  lemma RecordBacked(d: Disk, r: Record)
    requires d.manifest.Some? && UniqueKeys(TasksRun(d)) && Backed(d)
    requires Counts(r, DiskRequired(d)) ==> r.job in Runs(d, r.task)
    ensures Backed(WriteManifest(d, r))
  {
    var e := WriteManifest(d, r);
    hide Upsert, UniqueKeys, Counts, WriteManifest;
    WriteFacts(d, r);
    forall i | 0 <= i < |TasksRun(e)| && Counts(TasksRun(e)[i], DiskRequired(e))
      ensures TasksRun(e)[i].job in Runs(e, TasksRun(e)[i].task)
    {
      UpsertMembers(TasksRun(d), r, i);
    }
  }

  // Records of other tasks are untouched.
  lemma {:induction false} UpsertOthers(rs: seq<Record>, r: Record, task: string, required: int)
    requires r.task != task
    ensures Settled(Upsert(rs, r), task, required) <==> Settled(rs, task, required)
  {
    hide Counts;
    UpsertIs(rs, r);
    var u := Upsert(rs, r);
    if Settled(rs, task, required) {
      var i :| 0 <= i < |rs| && rs[i].task == task && Counts(rs[i], required);
      assert u[i] == rs[i];
    }
    if Settled(u, task, required) {
      var i :| 0 <= i < |u| && u[i].task == task && Counts(u[i], required);
      UpsertMembers(rs, r, i);
      assert u[i] in rs;
    }
  }

  // ---------------------------------------------------------------- every step keeps the invariant

  lemma MadeKeeps(d: Disk, task: string)
    requires forall t :: t in d.dirs ==> Numbered(d.dirs[t])
    ensures var e := MakeTaskDir(d, task);
            && (forall t :: t in e.dirs ==> Numbered(e.dirs[t]))
            && (forall t :: Runs(e, t) == Runs(d, t))
            && (forall t :: t in d.dirs ==> t in e.dirs && e.dirs[t] == d.dirs[t]) && task in e.dirs
            && TasksRun(e) == TasksRun(d) && e.manifest == d.manifest && e.log == d.log
  {
    hide Numbered;
    EmptyNumbered();
  }

  lemma RecordPending(d: Disk, p: Proc, r: Record)
    requires d.manifest.Some? && UniqueKeys(TasksRun(d)) && PendingOk(d, p)
    requires p.Running? ==> r.task !in p.pending
    ensures PendingOk(WriteManifest(d, r), p)
  {
    hide JobName, Settled, UniqueKeys, WriteManifest, Upsert, Required;
    WriteFacts(d, r);
    if p.Running? {
      forall u | u in p.pending ensures !Settled(TasksRun(WriteManifest(d, r)), u, DiskRequired(WriteManifest(d, r))) {
        UpsertOthers(TasksRun(d), r, u, DiskRequired(d));
      }
    }
  }

  // Everything but the pending tasks survives filing an honest record.
  lemma RecordInv(d: Disk, p: Proc, r: Record)
    requires Inv(Sys(d, p)) && d.manifest.Some?
    requires Counts(r, DiskRequired(d)) ==> r.job in Runs(d, r.task)
    requires p.Running? ==> r.task !in p.pending
    ensures Inv(Sys(WriteManifest(d, r), p))
  {
    hide UniqueKeys, Numbered, Backed, PendingOk, WriteManifest, Counts, Upsert;
    WriteFacts(d, r);
    RecordBacked(d, r);
    RecordPending(d, p, r);
  }

  // Whether a write is under way does not matter to the invariant, and neither does the log.
  lemma FlagInv(d: Disk, p: Proc, writing: bool)
    requires Inv(Sys(d, p)) && p.Running?
    ensures Inv(Sys(d, p.(writing := writing)))
  {
    hide UniqueKeys, Numbered, Backed, Settled, JobName;
  }

  lemma FlushInv(s: Sys, t: Sys)
    requires Inv(s) && FlushStep(s, t)
    ensures Inv(t)
  {
    hide UniqueKeys, Numbered, Settled, JobName, Counts;
  }

  lemma PreparedMore(d: Disk, p: Proc, task: string)
    requires PendingOk(d, p) && p.Running?
    ensures PendingOk(d, p.(prepared := p.prepared + {task}))
  {
  }

  lemma MadeInv(d: Disk, p: Proc, task: string)
    requires Inv(Sys(d, p))
    ensures Inv(Sys(MakeTaskDir(d, task), p))
  {
    hide JobName, Numbered, Settled, UniqueKeys, Counts, Required, MakeTaskDir;
    MadeKeeps(d, task);
  }

  lemma ScheduleInv(d: Disk, p: Proc, task: string)
    requires Inv(Sys(d, p)) && p.Running? && task !in p.prepared && task in d.dirs
    requires !Settled(TasksRun(d), task, DiskRequired(d))
    ensures Inv(Sys(d, Running(p.attempts, p.prepared + {task}, p.pending[task := JobName(|d.dirs[task]| + 1)], p.writing)))
  {
    hide JobName, Numbered, Settled, UniqueKeys, Counts, Required, Backed;
  }

  lemma PrepareInv(s: Sys, t: Sys, task: string)
    requires Inv(s) && PrepareStep(s, t, task)
    ensures Inv(t)
  {
    hide JobName, Numbered, Settled, UniqueKeys, Counts, WriteManifest, Backed, PendingOk, Required;
    var p := s.proc.(prepared := s.proc.prepared + {task});
    PreparedMore(s.disk, s.proc, task);
    if Settled(TasksRun(s.disk), task, Required(AttemptsOf(s.disk))) {
      assert t == Sys(s.disk, p);
    } else if exists job :: IsAdopted(s.disk.dirs[task], s.proc.attempts, job) {
      var runs := s.disk.dirs[task];
      var job :| IsAdopted(runs, s.proc.attempts, job)
                 && t.disk == WriteManifest(s.disk, CompletedRecord(task, job, None, runs[job].trials));
      PendingPrepared(s.disk, s.proc);
      RecordInv(s.disk, p, CompletedRecord(task, job, None, runs[job].trials));
      FlagInv(t.disk, p, t.proc.writing);
      assert t == Sys(t.disk, p.(writing := t.proc.writing));
    } else {
      ScheduleInv(s.disk, s.proc, task);
      assert t == Sys(s.disk, Running(s.proc.attempts, p.prepared, t.proc.pending, false));
    }
  }

  lemma PendingPrepared(d: Disk, p: Proc)
    requires PendingOk(d, p) && p.Running?
    ensures p.pending.Keys <= p.prepared
  {
  }

  lemma PendingFewer(d: Disk, p: Proc, task: string)
    requires PendingOk(d, p) && p.Running?
    ensures PendingOk(d, p.(pending := p.pending - {task}))
  {
  }

  lemma FinalizeInv(s: Sys, t: Sys, task: string, code: int)
    requires Inv(s) && FinalizeStep(s, t, task, code)
    ensures Inv(t)
  {
    hide JobName, Numbered, UniqueKeys, WriteManifest, Backed, PendingOk, Counts, FinalRecord, Required, Changes;
    var job := s.proc.pending[task];
    var p := s.proc.(pending := s.proc.pending - {task});
    PendingFewer(s.disk, s.proc, task);
    FinalKey(Runs(s.disk, task), task, job, code, s.proc.attempts);
    RecordInv(s.disk, p, FinalRecord(Runs(s.disk, task), task, job, code, s.proc.attempts));
    FlagInv(t.disk, p, t.proc.writing);
  }

  // The record is filed under its job, and settles only if that job left a directory.
  lemma FinalKey(runs: map<string, JobDir>, task: string, job: string, code: int, required: int)
    ensures var r := FinalRecord(runs, task, job, code, required); r.task == task && r.job == job
    ensures forall n :: Counts(FinalRecord(runs, task, job, code, required), n) ==> job in runs
  {
  }

  // Writing into a run directory that exists, or that a pending task is about to create.
  lemma WriteBacked(d: Disk, task: string, job: string, content: JobDir)
    requires Backed(d)
    ensures Backed(Write(d, task, job, content))
  {
    hide Counts, Required;
    var e := Write(d, task, job, content);
    forall i | 0 <= i < |TasksRun(e)| && Counts(TasksRun(e)[i], DiskRequired(e))
      ensures TasksRun(e)[i].job in Runs(e, TasksRun(e)[i].task)
    {
      assert TasksRun(d)[i].job in Runs(d, TasksRun(d)[i].task);
    }
  }

  lemma WriteNumbered(d: Disk, p: Proc, task: string, job: string, content: JobDir)
    requires (forall t :: t in d.dirs ==> Numbered(d.dirs[t])) && PendingOk(d, p)
    requires job in Runs(d, task) || (p.Running? && task in p.pending && p.pending[task] == job)
    ensures task in d.dirs
    ensures var runs := Write(d, task, job, content).dirs[task];
            Numbered(runs) && |runs| == if job in d.dirs[task] then |d.dirs[task]| else |d.dirs[task]| + 1
  {
    hide JobName, Numbered, Settled, Required;
    NumberedGrows(d.dirs[task], job, content);
  }

  lemma WritePending(d: Disk, p: Proc, task: string, job: string, content: JobDir)
    requires (forall t :: t in d.dirs ==> Numbered(d.dirs[t])) && PendingOk(d, p)
    requires job in Runs(d, task) || (p.Running? && task in p.pending && p.pending[task] == job)
    ensures PendingOk(Write(d, task, job, content), p)
  {
    hide JobName, Numbered, Settled, Required;
    WriteNumbered(d, p, task, job, content);
  }

  lemma WriteInv(s: Sys, t: Sys, task: string, job: string, content: JobDir)
    requires Inv(s) && t == Sys(Write(s.disk, task, job, content), s.proc)
    requires job in Runs(s.disk, task) || (s.proc.Running? && task in s.proc.pending && s.proc.pending[task] == job)
    ensures Inv(t)
  {
    hide JobName, Numbered, Settled, UniqueKeys, Counts, Required, PendingOk, Backed;
    WriteNumbered(s.disk, s.proc, task, job, content);
    WritePending(s.disk, s.proc, task, job, content);
    WriteBacked(s.disk, task, job, content);
  }

  lemma StepInv(s: Sys, t: Sys, e: Event)
    requires Inv(s) && Step(s, t, e)
    ensures Inv(t)
  {
    hide JobName, Numbered, Settled, UniqueKeys, Counts, Required, IsAdopted, FinalRecord, WriteManifest, MakeTaskDir;
    match e
    case Boot(_) =>
    case MakeDir(task) => MadeInv(s.disk, s.proc, task);
    case Prepare(task) => PrepareInv(s, t, task);
    case Harbor(task, content) => WriteInv(s, t, task, s.proc.pending[task], content);
    case Rewrite(task, job, content) => WriteInv(s, t, task, job, content);
    case Finalize(task, code) => FinalizeInv(s, t, task, code);
    case Flush => FlushInv(s, t);
    case Stop =>
  }

  // ---------------------------------------------------------------- what no step undoes

  // Settling records stay where they are, directories stay, and the pinned settings stay.
  ghost predicate Keeps(d: Disk, e: Disk) {
    && (d.manifest.Some? ==> e.manifest.Some? && e.manifest.value.settings == d.manifest.value.settings)
    && (forall task :: Runs(d, task).Keys <= Runs(e, task).Keys)
    && (forall i :: 0 <= i < |TasksRun(d)| && Counts(TasksRun(d)[i], DiskRequired(d)) ==>
          i < |TasksRun(e)| && TasksRun(e)[i] == TasksRun(d)[i])
  }

  lemma KeepsTrans(d: Disk, e: Disk, f: Disk)
    requires Keeps(d, e) && Keeps(e, f)
    ensures Keeps(d, f)
  {
  }

  lemma KeepsSettled(d: Disk, e: Disk, task: string)
    requires Keeps(d, e) && Settled(TasksRun(d), task, DiskRequired(d))
    ensures Settled(TasksRun(e), task, DiskRequired(e))
  {
  }

  // A record of an unsettled task displaces no settling record.
  lemma RecordKeeps(d: Disk, r: Record)
    requires d.manifest.Some? && UniqueKeys(TasksRun(d))
    requires !Settled(TasksRun(d), r.task, DiskRequired(d))
    ensures Keeps(d, WriteManifest(d, r))
  {
    hide Counts, Required, UniqueKeys, WriteManifest, Upsert;
    WriteFacts(d, r);
    UpsertIs(TasksRun(d), r);
  }

  lemma MadeKeepsDisk(d: Disk, task: string)
    ensures Keeps(d, MakeTaskDir(d, task))
  {
  }

  lemma PrepareKeeps(s: Sys, t: Sys, task: string)
    requires Inv(s) && PrepareStep(s, t, task)
    ensures Keeps(s.disk, t.disk)
  {
    hide Keeps, WriteManifest, Settled, UniqueKeys, Numbered, Backed, PendingOk, IsAdopted, Adoptable, Runs;
    KeepsSelf(s.disk);
    if t.disk != s.disk {
      var runs := s.disk.dirs[task];
      var job :| IsAdopted(runs, s.proc.attempts, job)
                 && t.disk == WriteManifest(s.disk, CompletedRecord(task, job, None, Adopted(runs, s.proc.attempts, job).trials));
      RecordKeeps(s.disk, CompletedRecord(task, job, None, Adopted(runs, s.proc.attempts, job).trials));
    }
  }

  // The contents of an adopted run.
  function Adopted(runs: map<string, JobDir>, required: int, job: string): JobDir
    requires IsAdopted(runs, required, job)
  {
    runs[job]
  }

  lemma KeepsSelf(d: Disk)
    ensures Keeps(d, d)
  {
  }

  lemma FinalizeKeeps(s: Sys, t: Sys, task: string, code: int)
    requires Inv(s) && FinalizeStep(s, t, task, code)
    ensures Keeps(s.disk, t.disk)
  {
    hide Keeps, WriteManifest, UniqueKeys, Numbered, Backed, FinalRecord, Runs, JobName, Counts, Changes;
    FinalKey(Runs(s.disk, task), task, s.proc.pending[task], code, s.proc.attempts);
    RecordKeeps(s.disk, FinalRecord(Runs(s.disk, task), task, s.proc.pending[task], code, s.proc.attempts));
  }

  lemma FlushKeeps(s: Sys, t: Sys)
    requires FlushStep(s, t)
    ensures Keeps(s.disk, t.disk)
  {
    hide Counts;
  }

  lemma StepKeeps(s: Sys, t: Sys, e: Event)
    requires Inv(s) && Step(s, t, e)
    ensures Keeps(s.disk, t.disk)
  {
    hide Counts, WriteManifest, UniqueKeys, Numbered, Backed, FinalRecord, JobName, IsAdopted, Settled, MakeTaskDir, PendingOk;
    match e
    case Boot(_) =>
    case MakeDir(task) => MadeKeepsDisk(s.disk, task);
    case Prepare(task) => PrepareKeeps(s, t, task);
    case Harbor(task, content) =>
    case Rewrite(task, job, content) =>
    case Finalize(task, code) => FinalizeKeeps(s, t, task, code);
    case Flush => FlushKeeps(s, t);
    case Stop =>
  }

  // ---------------------------------------------------------------- whole runs

  // States and the events between them.
  ghost predicate Chain(states: seq<Sys>, events: seq<Event>) {
    && |states| == |events| + 1
    && forall i :: 0 <= i < |events| ==> Step(states[i], states[i + 1], events[i])
  }

  // A history of the campaign starts on an empty disk.
  ghost predicate History(states: seq<Sys>, events: seq<Event>) {
    Chain(states, events) && states[0] == Sys(Disk(None, None, map[]), Idle)
  }

  lemma {:induction false} HistoryInv(states: seq<Sys>, events: seq<Event>, j: nat)
    requires History(states, events) && j < |states|
    ensures Inv(states[j])
  {
    hide Inv, Step;
    if j == 0 {
      InitialInv();
    } else {
      HistoryInv(states, events, j - 1);
      StepInv(states[j - 1], states[j], events[j - 1]);
    }
  }

  lemma {:induction false} HistoryKeeps(states: seq<Sys>, events: seq<Event>, i: nat, j: nat)
    requires History(states, events) && i <= j < |states|
    ensures Keeps(states[i].disk, states[j].disk)
    decreases j
  {
    hide Inv, Step, Keeps;
    if i == j {
      KeepsSelf(states[i].disk);
    } else {
      HistoryKeeps(states, events, i, j - 1);
      HistoryInv(states, events, j - 1);
      StepKeeps(states[j - 1], states[j], events[j - 1]);
      KeepsTrans(states[i].disk, states[j - 1].disk, states[j].disk);
    }
  }

  // Once a task is settled it stays settled, by the same record, and is never pending again.
  lemma SettledForGood(states: seq<Sys>, events: seq<Event>, i: nat, j: nat, task: string)
    requires History(states, events) && i <= j < |states|
    requires Settled(TasksRun(states[i].disk), task, DiskRequired(states[i].disk))
    ensures Keeps(states[i].disk, states[j].disk)
    ensures Settled(TasksRun(states[j].disk), task, DiskRequired(states[j].disk))
    ensures states[j].proc.Running? ==> task !in states[j].proc.pending
  {
    hide Step, Keeps, Settled, UniqueKeys, Numbered, Backed, JobName, History;
    HistoryInv(states, events, j);
    HistoryKeeps(states, events, i, j);
    KeepsSettled(states[i].disk, states[j].disk, task);
  }

  // A newly scheduled job is named after the next free number, so its directory does not exist yet.
  lemma ScheduledJobIsFresh(states: seq<Sys>, events: seq<Event>, i: nat, task: string)
    requires History(states, events) && i < |events| && events[i] == Prepare(task)
    requires states[i + 1].proc.Running? && task in states[i + 1].proc.pending
    ensures var runs := Runs(states[i].disk, task);
            && states[i + 1].proc.pending[task] == JobName(|runs| + 1)
            && states[i + 1].proc.pending[task] !in runs
            && (forall n :: 1 <= n <= |runs| ==> JobName(n) in runs)
  {
    hide JobName, UniqueKeys, Backed, Counts, WriteManifest, MakeTaskDir, IsAdopted, Settled, Required;
    assert Step(states[i], states[i + 1], events[i]);
    HistoryInv(states, events, i);
    var runs := Runs(states[i].disk, task);
    EmptyNumbered();
    assert Numbered(runs);
    NextIsFresh(runs);
  }

  // At every moment the manifest has one record per task and job, and every task's directories are numbered
  // without a gap.
  lemma ReachableDisk(states: seq<Sys>, events: seq<Event>, j: nat)
    requires History(states, events) && j < |states|
    ensures UniqueKeys(TasksRun(states[j].disk))
    ensures forall task :: Numbered(Runs(states[j].disk, task))
    ensures Backed(states[j].disk)
  {
    hide Step, UniqueKeys, Numbered, Backed, JobName, History, PendingOk;
    HistoryInv(states, events, j);
    EmptyNumbered();
  }

  // ---------------------------------------------------------------- how far the log mirrors the manifest

  // Only a flush writes the log, and a list that changes waits for one.
  lemma StepLog(s: Sys, t: Sys, e: Event)
    requires Step(s, t, e)
    ensures if e.Flush? then t.disk.log == Some(TasksRun(t.disk)) else t.disk.log == s.disk.log
    ensures TasksRun(t.disk) != TasksRun(s.disk) ==> Writing(t)
    ensures Writing(s) ==> e.Flush? || e.Stop? || (Writing(t) && TasksRun(t.disk) == TasksRun(s.disk))
  {
    hide Upsert, FinalRecord, JobName, IsAdopted, Settled, Required;
  }

  ghost predicate LastFlush(events: seq<Event>, k: int, j: int) {
    0 <= k < j <= |events| && events[k].Flush? && forall m :: k < m < j ==> !events[m].Flush?
  }

  lemma {:induction false} LogSince(states: seq<Sys>, events: seq<Event>, i: nat, j: nat)
    requires Chain(states, events) && i <= j < |states|
    requires forall m :: i <= m < j ==> !events[m].Flush?
    ensures states[j].disk.log == states[i].disk.log
    decreases j
  {
    hide Step;
    if i < j {
      LogSince(states, events, i, j - 1);
      StepLog(states[j - 1], states[j], events[j - 1]);
    }
  }

  // The log is the list of the last flush, so it mirrors the manifest exactly when the list is that one again.
  lemma LogIsLastFlush(states: seq<Sys>, events: seq<Event>, j: nat)
    requires History(states, events) && j < |states|
    ensures forall k :: LastFlush(events, k, j) ==>
              && states[j].disk.log == Some(TasksRun(states[k + 1].disk))
              && (Mirrored(states[j].disk) <==> TasksRun(states[j].disk) == TasksRun(states[k + 1].disk))
    ensures (forall k :: !LastFlush(events, k, j)) ==>
              states[j].disk.log == None && (Mirrored(states[j].disk) <==> TasksRun(states[j].disk) == [])
  {
    hide Step;
    forall k | LastFlush(events, k, j) ensures states[j].disk.log == Some(TasksRun(states[k + 1].disk)) {
      StepLog(states[k], states[k + 1], events[k]);
      LogSince(states, events, k + 1, j);
    }
    if forall k :: !LastFlush(events, k, j) {
      NoFlush(events, j);
      LogSince(states, events, 0, j);
    }
  }

  lemma {:induction false} NoFlush(events: seq<Event>, j: nat)
    requires j <= |events| && forall k :: !LastFlush(events, k, j)
    ensures forall m :: 0 <= m < j ==> !events[m].Flush?
    decreases j
  {
    if j > 0 {
      var last := j - 1;
      assert !LastFlush(events, last, j);
      forall k ensures !LastFlush(events, k, last) {
        assert !LastFlush(events, k, j);
      }
      NoFlush(events, last);
    }
  }

  // The log was brought up to date, or neither file's list has changed.
  ghost predicate MirroredOrSame(d: Disk, e: Disk) {
    Mirrored(e) || (LogOf(e) == LogOf(d) && TasksRun(e) == TasksRun(d))
  }

  // Unless a stop falls between two writes, the log is up to date whenever something was written.
  lemma {:induction false} MirroredUnlessTorn(states: seq<Sys>, events: seq<Event>, i: nat, j: nat)
    requires Chain(states, events) && i <= j < |states| && !Writing(states[i])
    requires forall k :: i <= k < j && events[k].Stop? ==> !Writing(states[k])
    ensures Writing(states[j]) || MirroredOrSame(states[i].disk, states[j].disk)
    decreases j
  {
    hide Step;
    if i < j {
      MirroredUnlessTorn(states, events, i, j - 1);
      StepLog(states[j - 1], states[j], events[j - 1]);
    }
  }

  // No step is under way and none will be.
  ghost predicate Resting(s: Sys) {
    s.proc.Running? ==> s.proc.pending == map[] && !s.proc.writing
  }

  lemma RestingStep(s: Sys, t: Sys, e: Event)
    requires Step(s, t, e) && Resting(s)
    requires e.Prepare? ==> Settled(TasksRun(s.disk), e.task, DiskRequired(s.disk))
    ensures Resting(t) && TasksRun(t.disk) == TasksRun(s.disk) && t.disk.log == s.disk.log
  {
    hide Upsert, FinalRecord, JobName, IsAdopted, Settled, Required;
  }

  // When all that is asked for is settled, no number of invocations touches either list: what a stop between
  // two writes has torn apart stays apart.
  lemma {:induction false} SettledRepairsNothing(states: seq<Sys>, events: seq<Event>, i: nat, j: nat)
    requires History(states, events) && i <= j < |states| && states[i].proc.Idle?
    requires forall k :: i <= k < j && events[k].Prepare? ==>
               Settled(TasksRun(states[i].disk), events[k].task, DiskRequired(states[i].disk))
    ensures Resting(states[j])
    ensures TasksRun(states[j].disk) == TasksRun(states[i].disk) && states[j].disk.log == states[i].disk.log
    decreases j
  {
    hide Step, Settled, Keeps, Inv, Required;
    if i < j {
      SettledRepairsNothing(states, events, i, j - 1);
      if events[j - 1].Prepare? {
        HistoryKeeps(states, events, i, j - 1);
        KeepsSettled(states[i].disk, states[j - 1].disk, events[j - 1].task);
      }
      RestingStep(states[j - 1], states[j], events[j - 1]);
    }
  }

  // Such a stop does happen: here the task is settled in the manifest, and there is no log.
  lemma TornHistory(settings: Settings) returns (states: seq<Sys>, events: seq<Event>)
    requires settings.pinned.attemptsPerTask == 1
    ensures History(states, events) && |events| == 6
    ensures states[6].proc.Idle? && Settled(TasksRun(states[6].disk), "a", DiskRequired(states[6].disk))
    ensures states[6].disk.log == None && !Mirrored(states[6].disk)
  {
    hide JobName, PrepareStep, FinalizeStep, CompletedRecord;
    var done := JobDir(true, [Trial("t", Some(1.0))]);
    var job := JobName(1);
    var r := CompletedRecord("a", job, Some(0), done.trials);
    var d0 := Disk(None, None, map[]);
    var d1 := Disk(Some(Manifest(settings, [])), None, map[]);
    var d2 := d1.(dirs := map["a" := map[]]);
    var d4 := d1.(dirs := map["a" := map[job := done]]);
    var d5 := d4.(manifest := Some(Manifest(settings, [r])));
    var s0, s1 := Sys(d0, Idle), Sys(d1, Running(1, {}, map[], false));
    var s2 := Sys(d2, s1.proc);
    var s3 := Sys(d2, Running(1, {"a"}, map["a" := job], false));
    var s4 := Sys(d4, s3.proc);
    var s5 := Sys(d5, Running(1, {"a"}, map[], true));
    assert Step(s0, s1, Boot(settings));
    assert Step(s1, s2, MakeDir("a"));
    TornPrepare(s2, s3, job);
    assert Step(s3, s4, Harbor("a", done));
    TornFinalize(s4, s5, job, done, r);
    states := [s0, s1, s2, s3, s4, s5, Sys(d5, Idle)];
    events := [Boot(settings), MakeDir("a"), Prepare("a"), Harbor("a", done), Finalize("a", 0), Stop];
  }

  lemma TornPrepare(s: Sys, t: Sys, job: string)
    requires Ready(s) && s.disk.manifest.value.tasksRun == [] && s.disk.dirs == map["a" := map[]]
    requires s.proc == Running(1, {}, map[], false) && job == JobName(1)
    requires t == Sys(s.disk, Running(1, {"a"}, map["a" := job], false))
    ensures PrepareStep(s, t, "a")
  {
    hide JobName;
  }

  lemma TornFinalize(s: Sys, t: Sys, job: string, done: JobDir, r: Record)
    requires Ready(s) && s.disk.manifest.value.tasksRun == [] && s.disk.dirs == map["a" := map[job := done]]
    requires s.proc == Running(1, {"a"}, map["a" := job], false) && done == JobDir(true, [Trial("t", Some(1.0))])
    requires r == CompletedRecord("a", job, Some(0), done.trials)
    requires t == Sys(s.disk.(manifest := Some(Manifest(s.disk.manifest.value.settings, [r]))), Running(1, {"a"}, map[], true))
    ensures FinalizeStep(s, t, "a", 0)
    ensures Settled([r], "a", 1)
  {
    hide Numeric, SumOf;
    OneReward();
    assert s.proc.pending - {"a"} == map[];
    assert [r][0] == r && Counts(r, 1);
  }

  lemma OneReward()
    ensures Numeric([Trial("t", Some(1.0))]) == [1.0]
  {
    assert [Trial("t", Some(1.0))][1..] == [];
  }

  // ---------------------------------------------------------------- what a record says of its directory

  function RewardAt(trials: seq<Trial>): (int, real) -> bool {
    (i, x) => 0 <= i < |trials| && trials[i].reward == Some(x)
  }

  lemma {:induction false} NumericMore(trials: seq<Trial>, t: Trial)
    ensures Numeric(trials + [t]) == Numeric(trials) + if t.reward.Some? then [t.reward.value] else []
  {
    if trials == [] {
      assert [t][1..] == [] && trials + [t] == [t];
    } else {
      assert (trials + [t])[1..] == trials[1..] + [t];
      NumericMore(trials[1..], t);
    }
  }

  // The numeric rewards are those of the trials, in order.
  lemma {:induction false} RewardsList(trials: seq<Trial>, n: nat)
    requires n <= |trials|
    ensures Lists(Numeric(trials[..n]), n, RewardAt(trials))
  {
    hide Lists, Numeric;
    if n == 0 {
      ListsNothing(RewardAt(trials));
      assert Numeric(trials[..0]) == [] by { NoRewards(trials[..0]); }
    } else {
      RewardsList(trials, n - 1);
      assert trials[..n] == trials[..n - 1] + [trials[n - 1]];
      NumericMore(trials[..n - 1], trials[n - 1]);
      if trials[n - 1].reward.Some? {
        ListsMore(Numeric(trials[..n - 1]), n - 1, RewardAt(trials), trials[n - 1].reward.value);
      } else {
        ListsOn(Numeric(trials[..n - 1]), n - 1, RewardAt(trials));
        assert Numeric(trials[..n - 1]) + [] == Numeric(trials[..n - 1]);
      }
    }
  }

  lemma NoRewards(trials: seq<Trial>)
    requires trials == []
    ensures Numeric(trials) == []
  {
  }

  lemma RewardsAre(trials: seq<Trial>, rewards: seq<real>)
    requires Lists(rewards, |trials|, RewardAt(trials))
    ensures rewards == Numeric(trials)
  {
    RewardsList(trials, |trials|);
    assert trials[..|trials|] == trials;
    ListsOnce(rewards, Numeric(trials), |trials|, RewardAt(trials));
  }

  // The record of a finished process, by what its directory holds and the process returned.
  lemma FinalRecordIs(runs: map<string, JobDir>, task: string, job: string, code: int, required: int, rewards: seq<real>)
    requires Lists(rewards, if job in runs then |runs[job].trials| else 0, RewardAt(if job in runs then runs[job].trials else []))
    ensures var r := FinalRecord(runs, task, job, code, required);
            var hasResult := job in runs && runs[job].hasResult;
            var trials := if job in runs then runs[job].trials else [];
            && r.task == task && r.job == job && r.returnCode == Some(code)
            && r.trials == (if hasResult then trials else [])
            && (r.status == Completed <==> hasResult && trials != [] && |rewards| >= 1 && |rewards| >= required)
            && (r.status == CompletedWithPartialNumericReward <==> hasResult && trials != [] && 1 <= |rewards| < required)
            && (r.status == CompletedWithoutNumericReward <==> hasResult && trials != [] && rewards == [])
            && (r.status == MissingTrialResults <==> hasResult && trials == [] && code == 0)
            && (r.status == FailedToProduceResult <==> !hasResult || (trials == [] && code != 0))
            && r.meanReward == (if hasResult then Mean(trials) else None)
  {
    hide SumOf;
    RewardsAre(if job in runs then runs[job].trials else [], rewards);
  }

  // What the rewards differ from m by, in sum.
  function Deviations(trials: seq<Trial>, m: real): real {
    if trials == [] then 0.0
    else (if trials[0].reward.Some? then trials[0].reward.value - m else 0.0) + Deviations(trials[1..], m)
  }

  lemma {:induction false} DeviationsAre(trials: seq<Trial>, m: real)
    ensures Deviations(trials, m) == SumOf(Numeric(trials)) - m * |Numeric(trials)| as real
  {
    if trials != [] {
      DeviationsAre(trials[1..], m);
      if trials[0].reward.Some? {
        var rest := Numeric(trials[1..]);
        assert Numeric(trials)[1..] == rest;
        assert m * (|rest| + 1) as real == m * |rest| as real + m;
      }
    }
  }

  lemma {:induction false} SomeReward(trials: seq<Trial>)
    ensures Numeric(trials) != [] <==> exists i :: 0 <= i < |trials| && trials[i].reward.Some?
  {
    if trials != [] {
      SomeReward(trials[1..]);
      if i :| 0 <= i < |trials[1..]| && trials[1..][i].reward.Some? {
        assert trials[i + 1].reward.Some?;
      }
      if i :| 0 <= i < |trials| && trials[i].reward.Some? {
        assert i > 0 ==> trials[1..][i - 1].reward.Some?;
      }
    }
  }

  // The mean is the number that the rewards differ from by nothing in sum; without rewards there is none.
  lemma MeanBalances(trials: seq<Trial>, m: real)
    ensures Mean(trials) == Some(m) <==>
            (exists i :: 0 <= i < |trials| && trials[i].reward.Some?) && Deviations(trials, m) == 0.0
  {
    hide SumOf, Deviations, Numeric;
    SomeReward(trials);
    DeviationsAre(trials, m);
    var xs := Numeric(trials);
    if xs != [] {
      var sum, count := SumOf(xs), |xs| as real;
      QuotientIff(sum, count, m);
      assert Mean(trials) == Some(sum / count);
    }
  }

  lemma QuotientIff(a: real, b: real, m: real)
    requires b > 0.0
    ensures a / b == m <==> a - m * b == 0.0
  {
    assert a / b * b == a;
    if a == m * b {
      assert (a / b - m) * b == 0.0;
    }
  }

  // A record settles its task if it is a completed one, of a named task, with a mean and enough rewards.
  lemma CountsIff(r: Record, required: int)
    ensures Counts(r, required) <==>
            && r.status == Completed && r.task != "" && r.meanReward.Some?
            && exists rewards :: Lists(rewards, |r.trials|, RewardAt(r.trials)) && |rewards| >= required
  {
    hide Lists;
    if rewards :| Lists(rewards, |r.trials|, RewardAt(r.trials)) && |rewards| >= required {
      RewardsAre(r.trials, rewards);
    }
    RewardsList(r.trials, |r.trials|);
    assert r.trials[..|r.trials|] == r.trials;
  }

  // A run worth adopting: a job result, trials, and enough of them with a reward.
  ghost predicate Worth(dir: JobDir, required: int) {
    dir.hasResult && |dir.trials| > 0
    && exists rewards :: Lists(rewards, |dir.trials|, RewardAt(dir.trials)) && |rewards| >= required
  }

  lemma WorthIff(dir: JobDir, required: int)
    ensures Worth(dir, required) <==> Adoptable(dir, required)
  {
    hide Lists;
    if Worth(dir, required) {
      var rewards :| Lists(rewards, |dir.trials|, RewardAt(dir.trials)) && |rewards| >= required;
      RewardsAre(dir.trials, rewards);
    }
    RewardsList(dir.trials, |dir.trials|);
    assert dir.trials[..|dir.trials|] == dir.trials;
  }

  // The adopted run is the one worth it whose name sorts last.
  lemma AdoptedIff(runs: map<string, JobDir>, required: int, job: string)
    ensures IsAdopted(runs, required, job) <==>
            job in runs && Worth(runs[job], required)
            && forall other :: other in runs && Worth(runs[other], required) && other != job ==> NameLess(other, job)
  {
    hide Adoptable, Worth, NameLess;
    forall other | other in runs ensures Worth(runs[other], required) <==> Adoptable(runs[other], required) {
      WorthIff(runs[other], required);
    }
  }

  // ---------------------------------------------------------------- when does a record count

  // Finalizing reports success exactly when the record settles its task.
  lemma FinalCountsIff(runs: map<string, JobDir>, task: string, job: string, code: int, attempts: int)
    requires task != ""
    ensures var r := FinalRecord(runs, task, job, code, attempts);
            Counts(r, Required(attempts)) <==> r.status == Completed
  {
  }

  // An adopted run settles its task exactly when it has a numeric reward, which a positive
  // number of attempts guarantees.
  lemma AdoptedCountsIff(runs: map<string, JobDir>, task: string, job: string, attempts: int)
    requires task != "" && IsAdopted(runs, attempts, job)
    ensures var r := CompletedRecord(task, job, None, runs[job].trials);
            Counts(r, Required(attempts)) <==> Numeric(runs[job].trials) != []
    ensures attempts >= 1 ==> Numeric(runs[job].trials) != []
  {
  }

  // With no attempts required, a run without any numeric reward is adopted and settles nothing.
  lemma AdoptedWithoutReward()
    ensures var runs := map["run-001" := JobDir(true, [Trial("t", None)])];
            && IsAdopted(runs, 0, "run-001")
            && !Counts(CompletedRecord("a", "run-001", None, runs["run-001"].trials), Required(0))
  {
  }

  // A task whose adoptable run has no numeric reward: unsettled, and not waiting for a run either.
  ghost predicate InVain(s: Sys, task: string, job: string) {
    && s.disk.manifest.Some? && !Settled(TasksRun(s.disk), task, DiskRequired(s.disk))
    && IsAdopted(Runs(s.disk, task), AttemptsOf(s.disk), job)
    && Numeric(Runs(s.disk, task)[job].trials) == []
    && (s.proc.Running? ==> task !in s.proc.pending)
  }

  lemma AdoptedUnique(runs: map<string, JobDir>, required: int, a: string, b: string)
    requires IsAdopted(runs, required, a) && IsAdopted(runs, required, b)
    ensures a == b
  {
    hide NameLess, Adoptable;
    if a != b {
      NameTransitive(a, b, a);
      NameIrreflexive(a);
    }
  }

  lemma UpsertSettlesNot(rs: seq<Record>, r: Record, task: string, required: int)
    requires !Settled(rs, task, required) && !Counts(r, required)
    ensures !Settled(Upsert(rs, r), task, required)
  {
    hide Counts;
    forall i | 0 <= i < |Upsert(rs, r)| ensures !(Upsert(rs, r)[i].task == task && Counts(Upsert(rs, r)[i], required)) {
      UpsertMembers(rs, r, i);
    }
  }

  lemma RewardlessCountsNot(task: string, job: string, trials: seq<Trial>, required: int)
    requires Numeric(trials) == []
    ensures !Counts(CompletedRecord(task, job, None, trials), required)
  {
  }

  lemma PrepareInVain(s: Sys, t: Sys, task: string, job: string)
    requires Inv(s) && InVain(s, task, job) && PrepareStep(s, t, task)
    ensures InVain(t, task, job) && Runs(t.disk, task) == Runs(s.disk, task)
    ensures CompletedRecord(task, job, None, Runs(s.disk, task)[job].trials) in TasksRun(t.disk)
  {
    hide IsAdopted, Counts, Upsert, UniqueKeys, Backed, Numbered, Numeric, JobName, Settled, Mean;
    var runs := s.disk.dirs[task];
    assert IsAdopted(runs, s.proc.attempts, job);
    var other :| IsAdopted(runs, s.proc.attempts, other)
                 && t.disk == WriteManifest(s.disk, CompletedRecord(task, other, None, Adopted(runs, s.proc.attempts, other).trials));
    AdoptedUnique(runs, s.proc.attempts, job, other);
    var r := CompletedRecord(task, job, None, Adopted(runs, s.proc.attempts, job).trials);
    RewardlessCountsNot(task, job, r.trials, DiskRequired(s.disk));
    UpsertSettlesNot(TasksRun(s.disk), r, task, DiskRequired(s.disk));
    UpsertIs(TasksRun(s.disk), r);
  }

  lemma StepInVain(s: Sys, t: Sys, e: Event, task: string, job: string)
    requires Inv(s) && InVain(s, task, job) && Step(s, t, e)
    requires !(e.Rewrite? && e.task == task)
    ensures InVain(t, task, job) && Runs(t.disk, task) == Runs(s.disk, task)
    ensures e == Prepare(task) ==> CompletedRecord(task, job, None, Runs(s.disk, task)[job].trials) in TasksRun(t.disk)
  {
    hide IsAdopted, Counts, Upsert, UniqueKeys, Backed, Numbered, Numeric, JobName, Settled, FinalRecord, Mean, Required,
         PrepareStep, FinalizeStep;
    match e
    case Boot(_) =>
    case MakeDir(_) =>
    case Prepare(other) =>
      if other == task {
        PrepareInVain(s, t, task, job);
      } else {
        PrepareOther(s, t, other, task);
      }
    case Harbor(_, _) =>
    case Rewrite(_, _, _) =>
    case Finalize(other, code) => FinalizeOther(s, t, other, code, task);
    case Flush =>
    case Stop =>
  }

  lemma FinalizeOther(s: Sys, t: Sys, other: string, code: int, task: string)
    requires FinalizeStep(s, t, other, code) && (s.proc.Running? ==> task !in s.proc.pending)
    ensures t.disk.manifest.Some? && t.disk.manifest.value.settings == s.disk.manifest.value.settings
    ensures t.disk.dirs == s.disk.dirs
    ensures Settled(TasksRun(t.disk), task, DiskRequired(t.disk)) <==> Settled(TasksRun(s.disk), task, DiskRequired(s.disk))
    ensures t.proc.Running? && s.proc.Running? && (task in t.proc.pending <==> task in s.proc.pending)
  {
    hide FinalRecord, Settled, Upsert, Required;
    FinalKey(Runs(s.disk, other), other, s.proc.pending[other], code, s.proc.attempts);
    UpsertOthers(TasksRun(s.disk), FinalRecord(Runs(s.disk, other), other, s.proc.pending[other], code, s.proc.attempts),
                 task, DiskRequired(s.disk));
  }

  lemma PrepareOther(s: Sys, t: Sys, other: string, task: string)
    requires PrepareStep(s, t, other) && other != task
    ensures t.disk.manifest.Some? && t.disk.manifest.value.settings == s.disk.manifest.value.settings
    ensures t.disk.dirs == s.disk.dirs
    ensures Settled(TasksRun(t.disk), task, DiskRequired(t.disk)) <==> Settled(TasksRun(s.disk), task, DiskRequired(s.disk))
    ensures t.proc.Running? && s.proc.Running? && (task in t.proc.pending <==> task in s.proc.pending)
  {
    hide IsAdopted, Adoptable, Upsert, JobName, Settled, Mean, Required;
    if t.disk != s.disk {
      var runs := s.disk.dirs[other];
      var job :| IsAdopted(runs, s.proc.attempts, job)
                 && t.disk == WriteManifest(s.disk, CompletedRecord(other, job, None, Adopted(runs, s.proc.attempts, job).trials));
      UpsertOthers(TasksRun(s.disk), CompletedRecord(other, job, None, Adopted(runs, s.proc.attempts, job).trials),
                   task, DiskRequired(s.disk));
    }
  }

  // Nothing but a change to its directories gets such a task going: every invocation that asks for it adopts the
  // same run again, and it is neither settled nor ever scheduled.  It takes a campaign without attempts.
  lemma {:induction false} AdoptedForever(states: seq<Sys>, events: seq<Event>, i: nat, j: nat, task: string, job: string)
    requires History(states, events) && i <= j < |states| && InVain(states[i], task, job)
    requires forall k :: i <= k < j ==> !(events[k].Rewrite? && events[k].task == task)
    ensures InVain(states[j], task, job) && Runs(states[j].disk, task) == Runs(states[i].disk, task)
    ensures forall k :: i <= k < j && events[k] == Prepare(task) ==>
              CompletedRecord(task, job, None, Runs(states[i].disk, task)[job].trials) in TasksRun(states[k + 1].disk)
    ensures AttemptsOf(states[i].disk) <= 0
    decreases j
  {
    hide Step, Settled, Inv, Required, Mean, Numeric;
    if i < j {
      AdoptedForever(states, events, i, j - 1, task, job);
      HistoryInv(states, events, j - 1);
      StepInVain(states[j - 1], states[j], events[j - 1], task, job);
    }
  }
}
