/** The campaign runner: the program text over the machine of CampaignModel
    (scripts/run_terminal_bench_campaign.py). */
module Campaign {
  import opened JobNames
  import opened TextOrder
  import opened CampaignModel
  import opened CampaignOutcome
  import opened Options
  import opened Blanks
  import opened Listing

  // ---------------------------------------------------------------- loading the list of tasks

  // First occurrences only, in order.
  function Dedup(tasks: seq<string>): seq<string> {
    if tasks == [] then []
    else
      var init := Dedup(tasks[..|tasks| - 1]);
      if tasks[|tasks| - 1] in init then init else init + [tasks[|tasks| - 1]]
  }

  lemma {:induction false} DedupIs(tasks: seq<string>)
    ensures forall t :: t in Dedup(tasks) <==> t in tasks
    ensures forall i, j :: 0 <= i < j < |Dedup(tasks)| ==> Dedup(tasks)[i] != Dedup(tasks)[j]
  {
    if tasks != [] {
      DedupIs(tasks[..|tasks| - 1]);
      assert tasks == tasks[..|tasks| - 1] + [tasks[|tasks| - 1]];
    }
  }

  function TaskLines(lines: seq<string>): seq<string> {
    if lines == [] then []
    else
      var init := TaskLines(lines[..|lines| - 1]);
      var line := Strip(lines[|lines| - 1]);
      if line == "" || line[0] == '#' then init else init + [line]
  }

  // Line i names the task t: apart from blanks around it the line is t, and no comment.
  ghost predicate NamesTask(lines: seq<string>, i: int, t: string) {
    && 0 <= i < |lines| && t != "" && t[0] != '#' && Stripped(t)
    && exists a, b :: AllBlank(a) && AllBlank(b) && lines[i] == a + t + b
  }

  ghost function NamedIn(lines: seq<string>): (int, string) -> bool {
    (i, t) => NamesTask(lines, i, t)
  }

  function FirstIn(tasks: seq<string>): (int, string) -> bool {
    (i, t) => 0 <= i < |tasks| && tasks[i] == t && t !in tasks[..i]
  }

  lemma NamesStripped(lines: seq<string>, i: nat, t: string)
    requires i < |lines|
    ensures NamesTask(lines, i, t) <==> t == Strip(lines[i]) && t != "" && t[0] != '#'
  {
    hide Strip, Stripped, IsBlank;
    var a, b := StripIs(lines[i]);
    if NamesTask(lines, i, t) {
      var x, y :| AllBlank(x) && AllBlank(y) && lines[i] == x + t + y;
      StripOnce(lines[i], x, t, y);
    }
  }

  // The task lines are what the lines name, in order.
  lemma {:induction false} TaskLinesList(lines: seq<string>, n: nat)
    requires n <= |lines|
    ensures Lists(TaskLines(lines[..n]), n, NamedIn(lines))
  {
    hide Lists, NamesTask, Strip;
    if n == 0 {
      ListsNothing(NamedIn(lines));
    } else {
      var i := n - 1;
      TaskLinesList(lines, i);
      assert lines[..n][..i] == lines[..i];
      var line := Strip(lines[i]);
      forall t ensures NamedIn(lines)(i, t) <==> t == line && t != "" && t[0] != '#' {
        NamesStripped(lines, i, t);
      }
      if line == "" || line[0] == '#' {
        ListsOn(TaskLines(lines[..i]), i, NamedIn(lines));
      } else {
        ListsMore(TaskLines(lines[..i]), i, NamedIn(lines), line);
      }
    }
  }

  // Deduplication lists the first occurrences.
  lemma {:induction false} DedupLists(tasks: seq<string>, n: nat)
    requires n <= |tasks|
    ensures Lists(Dedup(tasks[..n]), n, FirstIn(tasks))
  {
    hide Lists;
    if n == 0 {
      ListsNothing(FirstIn(tasks));
    } else {
      var i := n - 1;
      DedupLists(tasks, i);
      DedupIs(tasks[..i]);
      assert tasks[..n][..i] == tasks[..i];
      if tasks[i] in tasks[..i] {
        ListsOn(Dedup(tasks[..i]), i, FirstIn(tasks));
      } else {
        ListsMore(Dedup(tasks[..i]), i, FirstIn(tasks), tasks[i]);
      }
    }
  }

  method LoadTasks(given: seq<string>, lines: seq<string>) returns (deduped: seq<string>)
    ensures deduped == Dedup(given + TaskLines(lines))
    ensures exists named :: Lists(named, |lines|, NamedIn(lines))
                            && Lists(deduped, |given + named|, FirstIn(given + named))
  {
    hide Lists;
    var tasks := given;
    for i := 0 to |lines|
      invariant tasks == given + TaskLines(lines[..i])
    {
      assert lines[..i + 1][..i] == lines[..i];
      var line := Strip(lines[i]);
      if line == "" || line[0] == '#' {
        continue;
      }
      tasks := tasks + [line];
    }
    assert lines[..|lines|] == lines;
    deduped := [];
    var seen: set<string> := {};
    for i := 0 to |tasks|
      invariant deduped == Dedup(tasks[..i])
      invariant seen == set t | t in deduped
    {
      assert tasks[..i + 1][..i] == tasks[..i];
      if tasks[i] !in seen {
        seen := seen + {tasks[i]};
        deduped := deduped + [tasks[i]];
      }
    }
    assert tasks[..|tasks|] == tasks;
    TaskLinesList(lines, |lines|);
    DedupLists(tasks, |tasks|);
  }

  // ---------------------------------------------------------------- a recorded run of the machine

  ghost predicate Linked(states: seq<Sys>, events: seq<Event>, s: Sys, t: Sys) {
    Chain(states, events) && states[0] == s && states[|events|] == t
  }

  lemma LinkOne(s: Sys)
    ensures Linked([s], [], s, s)
  {
  }

  lemma LinkMore(states: seq<Sys>, events: seq<Event>, s: Sys, t: Sys, u: Sys, e: Event)
    requires Linked(states, events, s, t) && Step(t, u, e)
    ensures Linked(states + [u], events + [e], s, u)
  {
    hide Step;
  }

  lemma LinkJoin(states: seq<Sys>, events: seq<Event>, more: seq<Sys>, next: seq<Event>, s: Sys, t: Sys, u: Sys)
    requires Linked(states, events, s, t) && Linked(more, next, t, u)
    ensures Linked(states + more[1..], events + next, s, u)
  {
    hide Step;
    var all, es := states + more[1..], events + next;
    forall i | 0 <= i < |es| ensures Step(all[i], all[i + 1], es[i]) {
      if i >= |events| {
        assert all[i] == more[i - |events|] && all[i + 1] == more[i + 1 - |events|];
      }
    }
  }

  lemma {:induction false} LinkedKeeps(states: seq<Sys>, events: seq<Event>, s: Sys, t: Sys)
    requires Linked(states, events, s, t) && Inv(s)
    ensures Inv(t) && Keeps(s.disk, t.disk)
    decreases |events|
  {
    hide Step, Inv, Keeps;
    if events == [] {
      KeepsSelf(s.disk);
    } else {
      var k := |events| - 1;
      assert states[..k + 1][k] == states[k];
      LinkedKeeps(states[..k + 1], events[..k], s, states[k]);
      StepInv(states[k], t, events[k]);
      StepKeeps(states[k], t, events[k]);
      KeepsTrans(s.disk, states[k].disk, t.disk);
    }
  }

  predicate NoStop(events: seq<Event>) {
    forall i :: 0 <= i < |events| ==> !events[i].Stop?
  }

  // An invocation carries a history on: whatever holds of every history holds of a campaign
  // built by invoking the runner again and again.
  lemma HistoryGoesOn(states: seq<Sys>, events: seq<Event>, more: seq<Sys>, next: seq<Event>, t: Sys)
    requires History(states, events) && Linked(more, next, states[|events|], t)
    ensures History(states + more[1..], events + next) && (states + more[1..])[|events + next|] == t
  {
    hide Step;
    LinkJoin(states, events, more, next, states[0], states[|events|], t);
  }

  // ---------------------------------------------------------------- calls as steps of the machine

  // What preparing a task does as a whole.
  ghost predicate PrepareEffect(d: Disk, e: Disk, attempts: int, task: string, scheduled: bool, job: string) {
    && d.manifest.Some?
    && if Settled(TasksRun(d), task, Required(AttemptsOf(d))) then e == d && !scheduled
       else
         var made, runs := MakeTaskDir(d, task), Runs(d, task);
         if scheduled then
           e == made && job == JobName(|runs| + 1) && forall j :: !IsAdopted(runs, attempts, j)
         else
           exists j :: IsAdopted(runs, attempts, j) && e == Append(made, CompletedRecord(task, j, None, runs[j].trials))
  }

  // The process state after preparing a task.
  function Prepared(p: Proc, task: string, scheduled: bool, job: string): Proc
    requires p.Running?
  {
    p.(prepared := p.prepared + {task}, pending := if scheduled then p.pending[task := job] else p.pending)
  }

  // A record is filed by a step that writes the manifest, and by a flush if that changed anything.
  lemma FilePath(s: Sys, d: Disk, p: Proc, r: Record, e: Event) returns (states: seq<Sys>, events: seq<Event>)
    requires d.manifest.Some? && p.Running? && !p.writing && !e.Stop?
    requires Step(s, Sys(WriteManifest(d, r), p.(writing := Changes(d, r))), e)
    ensures Linked(states, events, s, Sys(Append(d, r), p)) && NoStop(events) && states != []
  {
    hide Upsert, PrepareStep, FinalizeStep;
    var w := Sys(WriteManifest(d, r), p.(writing := Changes(d, r)));
    LinkOne(s);
    LinkMore([s], [], s, s, w, e);
    states, events := [s] + [w], [] + [e];
    if Changes(d, r) {
      var t := Sys(FlushLog(w.disk), p);
      assert Step(w, t, Flush);
      LinkMore(states, events, s, w, t, Flush);
      states, events := states + [t], events + [Flush];
    } else {
      assert w == Sys(Append(d, r), p);
    }
  }

  lemma MadeSame(d: Disk, task: string)
    requires d.manifest.Some?
    ensures var made := MakeTaskDir(d, task);
            && made.manifest == d.manifest && TasksRun(made) == TasksRun(d) && AttemptsOf(made) == AttemptsOf(d)
            && task in made.dirs && made.dirs[task] == Runs(d, task)
  {
  }

  lemma PreparePath(d: Disk, e: Disk, p: Proc, task: string, scheduled: bool, job: string)
    returns (states: seq<Sys>, events: seq<Event>)
    requires p.Running? && !p.writing && task !in p.prepared && PrepareEffect(d, e, p.attempts, task, scheduled, job)
    ensures Linked(states, events, Sys(d, p), Sys(e, Prepared(p, task, scheduled, job))) && NoStop(events) && states != []
  {
    hide Settled, IsAdopted, Adoptable, JobName, Required, MakeTaskDir, Linked, Runs, WriteManifest, Append, Changes;
    var s, q := Sys(d, p), Prepared(p, task, scheduled, job);
    if Settled(TasksRun(d), task, Required(AttemptsOf(d))) {
      assert Step(s, Sys(e, q), Prepare(task));
      LinkOne(s);
      LinkMore([s], [], s, s, Sys(e, q), Prepare(task));
      return [s] + [Sys(e, q)], [] + [Prepare(task)];
    }
    var made, runs := MakeTaskDir(d, task), Runs(d, task);
    MadeSame(d, task);
    var m := Sys(made, p);
    assert Step(s, m, MakeDir(task));
    LinkOne(s);
    LinkMore([s], [], s, s, m, MakeDir(task));
    if scheduled {
      assert Step(m, Sys(e, q), Prepare(task));
      LinkMore([s] + [m], [] + [MakeDir(task)], s, m, Sys(e, q), Prepare(task));
      return [s] + [m] + [Sys(e, q)], [] + [MakeDir(task)] + [Prepare(task)];
    }
    var j :| IsAdopted(runs, p.attempts, j)
             && e == Append(made, CompletedRecord(task, j, None, Adopted(runs, p.attempts, j).trials));
    var r := CompletedRecord(task, j, None, Adopted(runs, p.attempts, j).trials);
    assert Step(m, Sys(WriteManifest(made, r), q.(writing := Changes(made, r))), Prepare(task));
    var more, next := FilePath(m, made, q, r, Prepare(task));
    LinkJoin([s] + [m], [] + [MakeDir(task)], more, next, s, m, Sys(e, q));
    states, events := [s] + [m] + more[1..], [] + [MakeDir(task)] + next;
  }

  lemma FinalizePath(d: Disk, p: Proc, task: string, code: int) returns (states: seq<Sys>, events: seq<Event>)
    requires d.manifest.Some? && p.Running? && !p.writing && task in p.pending
    ensures var r := FinalRecord(Runs(d, task), task, p.pending[task], code, p.attempts);
            Linked(states, events, Sys(d, p), Sys(Append(d, r), p.(pending := p.pending - {task})))
    ensures NoStop(events) && states != []
  {
    hide FinalRecord, WriteManifest, Append, Changes, Runs, Linked;
    var r := FinalRecord(Runs(d, task), task, p.pending[task], code, p.attempts);
    states, events := FilePath(Sys(d, p), d, p.(pending := p.pending - {task}), r, Finalize(task, code));
  }

  // Among the first n records, r is the last one that settles this task.
  ghost predicate LastSettling(rs: seq<Record>, n: nat, task: string, required: int, r: Record) {
    exists j :: 0 <= j < n <= |rs| && rs[j] == r && r.task == task && Counts(r, required)
                && forall k :: j < k < n && rs[k].task == task ==> !Counts(rs[k], required)
  }

  lemma LastSettlingOn(rs: seq<Record>, n: nat, task: string, required: int, r: Record)
    requires n < |rs| && LastSettling(rs, n, task, required, r)
    ensures !(rs[n].task == task && Counts(rs[n], required)) ==> LastSettling(rs, n + 1, task, required, r)
  {
  }

  lemma LastSettlingNow(rs: seq<Record>, n: nat, required: int)
    requires n < |rs| && Counts(rs[n], required)
    ensures LastSettling(rs, n + 1, rs[n].task, required, rs[n])
  {
  }

  // The name that sorts last.
  method LastName(names: set<string>) returns (last: string)
    requires names != {}
    ensures last in names && forall n :: n in names ==> n == last || NameLess(n, last)
  {
    hide NameLess;
    last :| last in names;
    var todo := names - {last};
    while todo != {}
      invariant todo <= names && last in names
      invariant forall n :: n in names - todo ==> n == last || NameLess(n, last)
      decreases todo
    {
      var n :| n in todo;
      if NameLess(last, n) {
        forall m | m in names - todo ensures m == n || NameLess(m, n) {
          if m != last {
            NameTransitive(m, last, n);
          }
        }
        last := n;
      } else {
        NameTotal(n, last);
      }
      todo := todo - {n};
    }
  }

  class Runner {
    var manifest: Option<Manifest>
    var log: Option<seq<Record>>
    var dirs: Dirs

    function OnDisk(): Disk
      reads this
    {
      Disk(manifest, log, dirs)
    }

    constructor ()
      ensures OnDisk() == Disk(None, None, map[])
    {
      manifest, log, dirs := None, None, map[];
    }

    // Refuses to mix settings: false is the "settings drift" exit.
    method EnsureManifest(settings: Settings) returns (ok: bool)
      modifies this`manifest
      ensures ok <==> (old(manifest).None? || old(manifest).value.settings.pinned == settings.pinned)
      ensures var s := Sys(old(OnDisk()), Idle);
              BootStep(s, if ok then Sys(OnDisk(), Running(settings.pinned.attemptsPerTask, {}, map[], false)) else s, settings)
      ensures !ok ==> OnDisk() == old(OnDisk())
    {
      if manifest.Some? {
        return manifest.value.settings.pinned == settings.pinned;
      }
      manifest := Some(Manifest(settings, []));
      ok := true;
    }

    // `between` is the disk before the log is written.
    method AppendResult(record: Record) returns (ghost between: Disk)
      requires manifest.Some?
      modifies this`manifest, this`log
      ensures OnDisk() == Append(old(OnDisk()), record)
      ensures between == WriteManifest(old(OnDisk()), record)
    {
      hide Upsert;
      var existing := manifest.value.tasksRun;
      var replaced := false;
      var idx := 0;
      while idx < |existing|
        invariant 0 <= idx <= |existing| && !replaced && manifest.Some? && existing == manifest.value.tasksRun
        invariant OnDisk() == old(OnDisk())
        invariant forall j :: 0 <= j < idx ==> !SameKey(existing[j], record)
      {
        if existing[idx].task == record.task && existing[idx].job == record.job {
          UpsertAt(existing, idx, record);
          if existing[idx] == record {
            return OnDisk();
          }
          existing := existing[idx := record];
          replaced := true;
          break;
        }
        idx := idx + 1;
      }
      if !replaced {
        UpsertAt(existing, idx, record);
        existing := existing + [record];
      }
      manifest := Some(manifest.value.(tasksRun := existing));
      between := OnDisk();
      log := Some(existing);
    }

    // The settling record of every settled task; a later one of the same task wins.
    method CompletedRecordedJobs() returns (out: map<string, Record>)
      requires manifest.Some?
      ensures forall task :: task in out <==> Settled(TasksRun(OnDisk()), task, DiskRequired(OnDisk()))
      ensures forall task :: task in out ==> LastSettling(TasksRun(OnDisk()), |TasksRun(OnDisk())|, task, DiskRequired(OnDisk()), out[task])
    {
      var required := if manifest.value.settings.pinned.attemptsPerTask == 0 then 1
                      else manifest.value.settings.pinned.attemptsPerTask;
      var run := manifest.value.tasksRun;
      hide Counts, LastSettling;
      out := map[];
      for i := 0 to |run|
        invariant forall task :: task in out <==> exists j :: 0 <= j < i && run[j].task == task && Counts(run[j], required)
        invariant forall task :: task in out ==> LastSettling(run, i, task, required, out[task])
      {
        forall task, r | LastSettling(run, i, task, required, r)
          ensures !(run[i].task == task && Counts(run[i], required)) ==> LastSettling(run, i + 1, task, required, r)
        {
          LastSettlingOn(run, i, task, required, r);
        }
        if Counts(run[i], required) {
          LastSettlingNow(run, i, required);
          out := out[run[i].task := run[i]];
        }
      }
    }

    // Looks through the runs, last name first, for one with enough numeric rewards.
    method AdoptExistingJob(task: string, required: int) returns (adopted: Option<Record>, ghost job: string)
      requires manifest.Some? && task in dirs
      modifies this`manifest, this`log
      ensures adopted.None? ==> OnDisk() == old(OnDisk()) && forall j :: !IsAdopted(dirs[task], required, j)
      ensures adopted.Some? ==> IsAdopted(dirs[task], required, job)
                                && adopted.value == CompletedRecord(task, job, None, dirs[task][job].trials)
                                && OnDisk() == Append(old(OnDisk()), adopted.value)
    {
      hide NameLess, Numeric, Append;
      var todo := dirs[task].Keys;
      job := "";
      while todo != {}
        invariant todo <= dirs[task].Keys && OnDisk() == old(OnDisk())
        invariant forall j, k :: j in todo && k in dirs[task] && k !in todo ==> NameLess(j, k)
        invariant forall j :: j in dirs[task] && j !in todo ==> !Adoptable(dirs[task][j], required)
        decreases todo
      {
        var name := LastName(todo);
        var dir := dirs[task][name];
        if dir.hasResult && dir.trials != [] && |Numeric(dir.trials)| >= required {
          job := name;
          var record := CompletedRecord(task, name, None, dir.trials);
          ghost var _ := AppendResult(record);
          return Some(record), job;
        }
        todo := todo - {name};
      }
      adopted := None;
    }

    // True when a run is to be made, under the returned job name.
    method PrepareTask(task: string, required: int) returns (scheduled: bool, job: string)
      requires manifest.Some?
      modifies this
      ensures PrepareEffect(old(OnDisk()), OnDisk(), required, task, scheduled, job)
      ensures manifest.Some?
    {
      hide NameLess, Append, Counts, JobName, Adoptable, Upsert;
      ghost var before := OnDisk();
      var recorded := CompletedRecordedJobs();
      if task in recorded {
        return false, "";
      }
      dirs := dirs[task := if task in dirs then dirs[task] else map[]];
      ghost var made := OnDisk();
      assert made == MakeTaskDir(before, task) && Runs(before, task) == dirs[task];
      var adopted;
      ghost var from;
      adopted, from := AdoptExistingJob(task, required);
      if adopted.Some? {
        AppendKeepsManifest(made, adopted.value);
        assert IsAdopted(Runs(before, task), required, from);
        return false, "";
      }
      var runIndex := |dirs[task]| + 1;
      return true, JobName(runIndex);
    }

    method ExecuteTaskProcess(task: string, job: string, harbor: Harbor) returns (code: int)
      requires task in dirs
      modifies this`dirs
      ensures code == harbor(task, job).code
      ensures OnDisk() == match harbor(task, job).left
                          case None => old(OnDisk())
                          case Some(content) => old(OnDisk()).(dirs := old(dirs)[task := old(dirs)[task][job := content]])
    {
      var outcome := harbor(task, job);
      code := outcome.code;
      if outcome.left.Some? {
        dirs := dirs[task := dirs[task][job := outcome.left.value]];
      }
    }

    method FinalizeTaskResult(task: string, job: string, code: int, required: int) returns (ok: bool, record: Record)
      requires manifest.Some? && task in dirs
      modifies this`manifest, this`log
      ensures record == FinalRecord(dirs[task], task, job, code, required)
      ensures OnDisk() == Append(old(OnDisk()), record)
      ensures ok <==> record.status == Completed
    {
      hide Numeric, SumOf, Append;
      var dir := if job in dirs[task] then dirs[task][job] else JobDir(false, []);
      if dir.hasResult && dir.trials != [] {
        record := CompletedRecord(task, job, Some(code), dir.trials);
        if record.meanReward.Some? && |Numeric(dir.trials)| >= required {
          ghost var _ := AppendResult(record);
          return true, record;
        }
        record := record.(status := if Numeric(dir.trials) != [] then CompletedWithPartialNumericReward
                                    else CompletedWithoutNumericReward);
        ghost var _ := AppendResult(record);
        return false, record;
      }
      if code != 0 || !dir.hasResult {
        record := Record(task, job, FailedToProduceResult, Some(code), None, []);
        ghost var _ := AppendResult(record);
        return false, record;
      }
      // The source's last branch: there is a result, so what is missing is the trials.
      assert dir.trials == [];
      record := Record(task, job, MissingTrialResults, Some(code), None, []);
      ghost var _ := AppendResult(record);
      return false, record;
    }

    // The steps taken so far form a run of the machine that ends in the current state.
    ghost predicate Going(start: Sys, states: seq<Sys>, events: seq<Event>, p: Proc)
      reads this
    {
      && Linked(states, events, start, Sys(OnDisk(), p)) && Inv(Sys(OnDisk(), p)) && NoStop(events)
      && p.Running? && !p.writing && manifest.Some? && p.attempts == manifest.value.settings.pinned.attemptsPerTask
    }

    method PrepareNext(task: string, attempts: int, ghost start: Sys, ghost states0: seq<Sys>, ghost events0: seq<Event>, ghost p: Proc)
      returns (scheduled: bool, job: string, ghost states: seq<Sys>, ghost events: seq<Event>)
      requires Going(start, states0, events0, p) && p.attempts == attempts && task !in p.prepared
      modifies this
      ensures Going(start, states, events, Prepared(p, task, scheduled, job))
      ensures Looked(old(OnDisk()), OnDisk(), task, attempts)
      ensures forall other :: other != task ==> SameFor(old(OnDisk()), OnDisk(), other)
      ensures scheduled <==> ToRun(old(OnDisk()), task, attempts)
      ensures scheduled ==> job == NextJob(old(OnDisk()), task)
    {
      hide Inv, PrepareEffect, Linked, Looked, SameFor, ToRun, NextJob;
      ghost var s := Sys(OnDisk(), p);
      scheduled, job := PrepareTask(task, attempts);
      ghost var t := Sys(OnDisk(), Prepared(p, task, scheduled, job));
      ghost var more, next := PreparePath(s.disk, t.disk, p, task, scheduled, job);
      LinkJoin(states0, events0, more, next, start, s, t);
      LinkedKeeps(more, next, s, t);
      states, events := states0 + more[1..], events0 + next;
      KeepsSettings(s.disk, t.disk);
      PrepareLooks(s.disk, t.disk, attempts, task, scheduled, job);
    }

    method RunOne(task: string, job: string, attempts: int, harbor: Harbor,
                  ghost start: Sys, ghost states0: seq<Sys>, ghost events0: seq<Event>, ghost p: Proc)
      returns (ok: bool, code: int, ghost states: seq<Sys>, ghost events: seq<Event>)
      requires Going(start, states0, events0, p) && p.attempts == attempts
      requires task in p.pending && p.pending[task] == job && job == NextJob(OnDisk(), task)
      modifies this
      ensures Going(start, states, events, p.(pending := p.pending - {task}))
      ensures RunDone(old(OnDisk()), OnDisk(), task, attempts, harbor)
      ensures forall other :: other != task ==> SameFor(old(OnDisk()), OnDisk(), other)
      ensures ok <==> Succeeds(old(OnDisk()), task, attempts, harbor)
      ensures code == harbor(task, job).code
    {
      hide Inv, Keeps, Linked, FinalRecord, Append, JobName, RunDone, SameFor;
      ghost var s := Sys(OnDisk(), p);
      PendingHasDir(s, task);
      code := ExecuteTaskProcess(task, job, harbor);
      states, events := states0, events0;
      ghost var t := Sys(OnDisk(), p);
      KeepsSelf(s.disk);
      if harbor(task, job).left.Some? {
        ghost var e := Harbor(task, harbor(task, job).left.value);
        assert Step(s, t, e);
        LinkMore(states, events, start, s, t, e);
        StepInv(s, t, e);
        StepKeeps(s, t, e);
        states, events := states + [t], events + [e];
      }
      var record;
      ok, record := FinalizeTaskResult(task, job, code, attempts);
      ghost var u := Sys(OnDisk(), p.(pending := p.pending - {task}));
      ghost var more, next := FinalizePath(t.disk, p, task, code);
      LinkJoin(states, events, more, next, start, t, u);
      LinkedKeeps(more, next, t, u);
      states, events := states + more[1..], events + next;
      KeepsTrans(s.disk, t.disk, u.disk);
      KeepsSettings(s.disk, u.disk);
      RunOutcome(s.disk, t.disk, u.disk, task, attempts, harbor);
    }

    // Prepares every task; what is neither settled nor adopted is pending.
    method PrepareAll(tasks: seq<string>, attempts: int, ghost start: Sys, ghost states0: seq<Sys>, ghost events0: seq<Event>, ghost p0: Proc)
      returns (pending: seq<(string, string)>, ghost states: seq<Sys>, ghost events: seq<Event>, ghost p: Proc)
      requires Going(start, states0, events0, p0) && p0 == Running(attempts, {}, map[], false)
      requires forall i, j :: 0 <= i < j < |tasks| ==> tasks[i] != tasks[j]
      modifies this
      ensures Going(start, states, events, p) && p.attempts == attempts
      ensures Awaits(p, pending) && pending == JobsFor(old(OnDisk()), tasks, attempts)
      ensures forall k :: 0 <= k < |tasks| ==> Looked(old(OnDisk()), OnDisk(), tasks[k], attempts)
      ensures forall u :: u !in tasks ==> SameFor(old(OnDisk()), OnDisk(), u)
    {
      hide Going, Linked, Inv, Looked, SameFor, ToRun, NextJob, Awaits;
      pending, states, events, p := [], states0, events0, p0;
      ghost var start' := OnDisk();
      NothingChanged(start');
      AwaitsNothing(p);
      for i := 0 to |tasks|
        invariant Going(start, states, events, p) && p.Running? && p.attempts == attempts
        invariant p.prepared == set j | 0 <= j < i :: tasks[j]
        invariant Awaits(p, pending) && pending == JobsFor(start', tasks[..i], attempts)
        invariant forall k :: 0 <= k < i ==> Looked(start', OnDisk(), tasks[k], attempts)
        invariant forall u :: u !in tasks[..i] ==> SameFor(start', OnDisk(), u)
      {
        ghost var before := OnDisk();
        var task := tasks[i];
        SameStart(start', before, task, attempts);
        assert tasks[..i + 1][..i] == tasks[..i];
        var scheduled, job;
        scheduled, job, states, events := PrepareNext(task, attempts, start, states, events, p);
        AwaitsMore(p, pending, task, scheduled, job);
        if scheduled {
          pending := pending + [(task, job)];
        }
        p := Prepared(p, task, scheduled, job);
        LookedFrom(start', before, OnDisk(), task, attempts);
        forall k | 0 <= k < i ensures Looked(start', OnDisk(), tasks[k], attempts) {
          LookedLater(start', before, OnDisk(), tasks[k], attempts);
        }
        forall u | u !in tasks[..i + 1] ensures SameFor(start', OnDisk(), u) {
          SameTrans(start', before, OnDisk(), u);
        }
      }
      assert tasks[..|tasks|] == tasks;
    }

    // Runs the pending jobs, one after the other or all at once and finishing in any order.
    method RunPending(pending: seq<(string, string)>, attempts: int, continueOnFailure: bool, maxParallelTasks: int,
                      harbor: Harbor,
                      ghost start: Sys, ghost states0: seq<Sys>, ghost events0: seq<Event>, ghost p0: Proc)
      returns (exitCode: int, ghost states: seq<Sys>, ghost events: seq<Event>, ghost p: Proc)
      requires Going(start, states0, events0, p0) && p0.attempts == attempts && Awaits(p0, pending)
      requires forall a :: 0 <= a < |pending| ==> pending[a].1 == NextJob(OnDisk(), pending[a].0)
      modifies this
      ensures Going(start, states, events, p) && p.attempts == attempts
      ensures JobsDone(old(OnDisk()), OnDisk(), pending, attempts, harbor, maxParallelTasks <= 1 && !continueOnFailure)
      ensures exitCode == 0 <==> continueOnFailure || JobsSucceed(old(OnDisk()), pending, attempts, harbor)
      ensures forall a :: FirstFailure(old(OnDisk()), pending, a, attempts, harbor) && maxParallelTasks <= 1 && !continueOnFailure ==>
                exitCode == if harbor(pending[a].0, pending[a].1).code != 0 then harbor(pending[a].0, pending[a].1).code else 1
      ensures exitCode == 0 || exitCode == 1 || (maxParallelTasks <= 1 && !continueOnFailure)
    {
      hide Going, Linked, Inv, SameFor, RunDone, Succeeds, NextJob, Awaits, DistinctNames, Partly, SomeFailed, JobsDone,
           JobsSucceed, FirstFailure;
      exitCode, states, events, p := 0, states0, events0, p0;
      ghost var before := OnDisk();
      ghost var stopEarly := maxParallelTasks <= 1 && !continueOnFailure;
      PartlyAtFirst(before, pending, attempts, harbor);
      var rest := pending;
      assert pending[0..] == pending;
      AwaitsDistinct(p0, pending);
      var hadFailure := false;
      while rest != []
        invariant Going(start, states, events, p) && p.Running? && p.attempts == attempts
        invariant Awaits(p, rest) && Partly(before, OnDisk(), pending, rest, attempts, harbor)
        invariant hadFailure <==> SomeFailed(before, pending, rest, attempts, harbor)
        invariant maxParallelTasks <= 1 ==> IsTail(rest, pending)
        invariant stopEarly ==> !hadFailure
        decreases |rest|
      {
        ghost var now := OnDisk();
        var k := 0;
        if maxParallelTasks > 1 {
          k :| 0 <= k < |rest|;
        }
        var (task, job) := rest[k];
        AwaitsTake(p, rest, k);
        TailOn(rest, pending, k);
        NextUp(before, now, pending, rest, k, attempts, harbor);
        var ok, code;
        ok, code, states, events := RunOne(task, job, attempts, harbor, start, states, events, p);
        p := p.(pending := p.pending - {task});
        ghost var was := rest;
        rest := rest[..k] + rest[k + 1..];
        OneMore(before, now, OnDisk(), pending, was, k, attempts, harbor);
        if !ok {
          hadFailure := true;
          if maxParallelTasks <= 1 && !continueOnFailure {
            exitCode := if code != 0 then code else 1;
            StopsHere(before, OnDisk(), p0, pending, was, attempts, harbor);
            return;
          }
        }
      }
      exitCode := if hadFailure && !continueOnFailure then 1 else 0;
      AllOver(before, OnDisk(), pending, attempts, harbor, stopEarly);
      NoFirstFailure(before, pending, attempts, harbor);
    }

    // One invocation of the runner. Its steps are a run of the machine; every task is handled by itself, whatever
    // the order in which jobs finish; and the exit code says whether all that was called for succeeded.
    method Invoke(given: seq<string>, lines: seq<string>, settings: Settings, continueOnFailure: bool,
                  maxParallelTasks: int, harbor: Harbor)
      returns (exitCode: int, ghost tasks: seq<string>, ghost states: seq<Sys>, ghost events: seq<Event>)
      requires Inv(Sys(OnDisk(), Idle))
      modifies this
      ensures exists named :: Lists(named, |lines|, NamedIn(lines)) && Lists(tasks, |given + named|, FirstIn(given + named))
      ensures Linked(states, events, Sys(old(OnDisk()), Idle), Sys(OnDisk(), Idle))
      ensures Inv(Sys(OnDisk(), Idle)) && Keeps(old(OnDisk()), OnDisk())
      ensures MirroredOrSame(old(OnDisk()), OnDisk())
      ensures !Starts(old(OnDisk()), tasks, settings) ==> exitCode == 1 && OnDisk() == old(OnDisk())
      ensures Starts(old(OnDisk()), tasks, settings) ==>
                var d, attempts := old(OnDisk()), settings.pinned.attemptsPerTask;
                var stopEarly := maxParallelTasks <= 1 && !continueOnFailure;
                && (forall k :: 0 <= k < |tasks| ==>
                      Handled(d, OnDisk(), tasks[k], attempts, harbor, Reached(d, tasks, k, attempts, harbor, stopEarly)))
                && (forall other :: other !in tasks ==> SameFor(d, OnDisk(), other))
                && (exitCode == 0 <==>
                      continueOnFailure
                      || forall k :: 0 <= k < |tasks| && ToRun(d, tasks[k], attempts) ==> Succeeds(d, tasks[k], attempts, harbor))
                && (exitCode == 0 || exitCode == 1 || stopEarly)
                && (stopEarly ==> forall k :: 0 <= k < |tasks| && ToRun(d, tasks[k], attempts)
                                              && Reached(d, tasks, k, attempts, harbor, true)
                                              && !Succeeds(d, tasks[k], attempts, harbor) ==>
                      var code := harbor(tasks[k], NextJob(d, tasks[k])).code;
                      exitCode == if code != 0 then code else 1)
      ensures settings.pinned.attemptsPerTask >= 1 && (forall k :: 0 <= k < |tasks| ==> tasks[k] != "") ==>
                (exitCode == 0 <==>
                  && tasks != []
                  && (old(manifest).None? || old(manifest).value.settings.pinned == settings.pinned)
                  && (continueOnFailure
                      || forall k :: 0 <= k < |tasks| ==> Settled(TasksRun(OnDisk()), tasks[k], DiskRequired(OnDisk()))))
    {
      hide Inv, Keeps, Settled, Awaits, Handled, Looked, SameFor, ToRun, Succeeds, Lists, Reached, JobsFor, JobsDone, NextJob,
           MirroredOrSame, Step;
      ghost var start := Sys(OnDisk(), Idle);
      states, events := [start], [];
      LinkOne(start);
      KeepsSelf(OnDisk());
      MirrorSelf(OnDisk());
      var todo := LoadTasks(given, lines);
      tasks := todo;
      DedupIs(given + TaskLines(lines));
      if todo == [] {
        return 1, tasks, states, events;
      }
      var attempts := settings.pinned.attemptsPerTask;
      var ok := EnsureManifest(settings);
      if !ok {
        return 1, tasks, states, events;
      }
      ghost var p := Running(attempts, {}, map[], false);
      ghost var booted := Sys(OnDisk(), p);
      assert Step(start, booted, Boot(settings)) by { BootIsStep(start, booted, settings); }
      LinkMore(states, events, start, start, booted, Boot(settings));
      StepInv(start, booted, Boot(settings));
      states, events := states + [booted], events + [Boot(settings)];
      var pending;
      pending, states, events, p := PrepareAll(todo, attempts, start, states, events, p);
      ghost var d, prepared := start.disk, OnDisk();
      BootedSame(d, booted.disk);
      JobsSame(d, booted.disk, todo, attempts);
      forall k | 0 <= k < |todo| ensures Looked(d, prepared, todo[k], attempts) {
        LookedFrom(d, booted.disk, prepared, todo[k], attempts);
      }
      forall other | other !in todo ensures SameFor(d, prepared, other) {
        SameTrans(d, booted.disk, prepared, other);
      }
      JobsStillNext(d, prepared, todo, attempts, harbor);
      exitCode, states, events, p := RunPending(pending, attempts, continueOnFailure, maxParallelTasks, harbor,
                                                start, states, events, p);
      ghost var last, end := Sys(OnDisk(), p), Sys(OnDisk(), Idle);
      MirroredUnlessTorn(states, events, 0, |events|);
      assert Step(last, end, Stop) by { StopIsStep(last, end); }
      LinkMore(states, events, start, last, end, Stop);
      states, events := states + [end], events + [Stop];
      LinkedKeeps(states, events, start, end);
      ghost var stopEarly := maxParallelTasks <= 1 && !continueOnFailure;
      forall k | 0 <= k < |todo|
        ensures Handled(d, end.disk, todo[k], attempts, harbor, Reached(d, todo, k, attempts, harbor, stopEarly))
      {
        TaskHandled(d, prepared, end.disk, todo, k, attempts, harbor, stopEarly);
      }
      forall other | other !in todo ensures SameFor(d, end.disk, other) {
        OtherUntouched(d, prepared, end.disk, todo, other, attempts, harbor, stopEarly);
      }
      SuccessAlike(d, prepared, todo, attempts, harbor);
      forall k | stopEarly && 0 <= k < |todo| && ToRun(d, todo[k], attempts) && Reached(d, todo, k, attempts, harbor, true)
                 && !Succeeds(d, todo[k], attempts, harbor)
        ensures var code := harbor(todo[k], NextJob(d, todo[k])).code; exitCode == if code != 0 then code else 1
      {
        var a := FailureAlike(d, prepared, todo, k, attempts, harbor);
      }
      if attempts >= 1 && forall k :: 0 <= k < |todo| ==> todo[k] != "" {
        AllSettledIff(d, end.disk, todo, attempts, harbor, stopEarly);
      }
    }
  }

  // There is something to do, and the settings are the campaign's.
  ghost predicate Starts(d: Disk, tasks: seq<string>, settings: Settings) {
    tasks != [] && (d.manifest.None? || d.manifest.value.settings.pinned == settings.pinned)
  }

  lemma BootIsStep(s: Sys, t: Sys, settings: Settings)
    requires BootStep(s, t, settings)
    ensures Step(s, t, Boot(settings))
  {
  }

  lemma StopIsStep(s: Sys, t: Sys)
    requires t == Sys(s.disk, Idle)
    ensures Step(s, t, Stop)
  {
  }

  lemma MirrorSelf(d: Disk)
    ensures MirroredOrSame(d, d)
  {
  }

  lemma BootedSame(d: Disk, e: Disk)
    requires TasksRun(d) == TasksRun(e) && d.dirs == e.dirs
    ensures forall u :: SameFor(d, e, u)
  {
  }

  lemma NoFirstFailure(d: Disk, jobs: seq<(string, string)>, attempts: int, harbor: Harbor)
    ensures JobsSucceed(d, jobs, attempts, harbor) ==> forall a :: !FirstFailure(d, jobs, a, attempts, harbor)
  {
  }

  lemma AppendKeepsManifest(d: Disk, r: Record)
    requires d.manifest.Some?
    ensures Append(d, r).manifest.Some?
  {
  }

  // What preparing a task leaves of it and of all others.
  lemma PrepareLooks(d: Disk, e: Disk, attempts: int, task: string, scheduled: bool, job: string)
    requires PrepareEffect(d, e, attempts, task, scheduled, job) && AttemptsOf(d) == attempts
    ensures Looked(d, e, task, attempts) && forall other :: other != task ==> SameFor(d, e, other)
    ensures scheduled <==> ToRun(d, task, attempts)
    ensures scheduled ==> job == NextJob(d, task)
  {
    hide Settled, IsAdopted, RecordsOf, Required, Upsert, JobName, Append;
    var made, runs := MakeTaskDir(d, task), Runs(d, task);
    MadeSame(d, task);
    if !Settled(TasksRun(d), task, Required(attempts)) && !scheduled {
      var j :| IsAdopted(runs, attempts, j)
               && e == Append(made, CompletedRecord(task, j, None, Adopted(runs, attempts, j).trials));
      var r := CompletedRecord(task, j, None, Adopted(runs, attempts, j).trials);
      forall u ensures Runs(e, u) == Runs(d, u)
      ensures RecordsOf(TasksRun(e), u) ==
              if u == task then Upsert(RecordsOf(TasksRun(d), u), r) else RecordsOf(TasksRun(d), u)
      {
        AppendByTask(made, r, u);
      }
    }
  }

  // What running a job leaves of its task and of all others.
  lemma RunOutcome(d: Disk, t: Disk, e: Disk, task: string, attempts: int, harbor: Harbor)
    requires d.manifest.Some? && task in d.dirs
    requires var job := NextJob(d, task);
             t == match harbor(task, job).left
                  case None => d
                  case Some(content) => d.(dirs := d.dirs[task := d.dirs[task][job := content]])
    requires e == Append(t, FinalRecord(Runs(t, task), task, NextJob(d, task), harbor(task, NextJob(d, task)).code, attempts))
    ensures FinalRecord(Runs(t, task), task, NextJob(d, task), harbor(task, NextJob(d, task)).code, attempts)
            == RunRecord(d, task, attempts, harbor)
    ensures RunDone(d, e, task, attempts, harbor) && forall other :: other != task ==> SameFor(d, e, other)
  {
    hide RecordsOf, FinalRecord, Upsert, JobName, Append;
    var job := NextJob(d, task);
    var r := FinalRecord(Runs(t, task), task, job, harbor(task, job).code, attempts);
    FinalKey(Runs(t, task), task, job, harbor(task, job).code, attempts);
    forall u ensures Runs(e, u) == Runs(t, u)
    ensures RecordsOf(TasksRun(e), u) == if u == task then Upsert(RecordsOf(TasksRun(d), u), r) else RecordsOf(TasksRun(d), u)
    {
      AppendByTask(t, r, u);
    }
  }

  lemma KeepsSettings(d: Disk, e: Disk)
    requires Keeps(d, e) && d.manifest.Some?
    ensures e.manifest.Some? && e.manifest.value.settings == d.manifest.value.settings
  {
  }

  lemma PendingHasDir(s: Sys, task: string)
    requires Inv(s) && s.proc.Running? && task in s.proc.pending
    ensures task in s.disk.dirs
  {
  }

  // The list of pending jobs is exactly what the process still waits for.
  ghost predicate Awaits(p: Proc, pending: seq<(string, string)>) {
    && p.Running? && p.pending.Keys <= p.prepared
    && (forall i, j :: 0 <= i < j < |pending| ==> pending[i].0 != pending[j].0)
    && (forall i :: 0 <= i < |pending| ==> pending[i].0 in p.pending && p.pending[pending[i].0] == pending[i].1)
  }

  lemma AwaitsNothing(p: Proc)
    requires p.Running? && p.pending == map[]
    ensures Awaits(p, [])
  {
  }

  lemma AwaitsMore(p: Proc, pending: seq<(string, string)>, task: string, scheduled: bool, job: string)
    requires Awaits(p, pending) && p.Running? && task !in p.prepared
    ensures Awaits(Prepared(p, task, scheduled, job), if scheduled then pending + [(task, job)] else pending)
  {
  }

  lemma AwaitsTake(p: Proc, rest: seq<(string, string)>, k: nat)
    requires Awaits(p, rest) && k < |rest|
    ensures p.Running? && rest[k].0 in p.pending && p.pending[rest[k].0] == rest[k].1 && DistinctNames(rest)
    ensures Awaits(p.(pending := p.pending - {rest[k].0}), rest[..k] + rest[k + 1..])
  {
  }

  lemma AwaitsDistinct(p: Proc, pending: seq<(string, string)>)
    requires Awaits(p, pending)
    ensures p.Running? && DistinctNames(pending)
  {
  }

  // One job after the other: the rest is the end of the list.
  ghost predicate IsTail(rest: seq<(string, string)>, pending: seq<(string, string)>) {
    |rest| <= |pending| && rest == pending[|pending| - |rest|..]
  }

  lemma TailOn(rest: seq<(string, string)>, pending: seq<(string, string)>, k: nat)
    requires k < |rest|
    ensures k == 0 && IsTail(rest, pending) ==> IsTail(rest[..k] + rest[k + 1..], pending)
    ensures |rest[..k] + rest[k + 1..]| == |rest| - 1
  {
    if k == 0 {
      assert rest[..0] + rest[1..] == rest[1..];
    }
  }

  lemma StopsHere(d: Disk, e: Disk, p: Proc, pending: seq<(string, string)>, rest: seq<(string, string)>, attempts: int, harbor: Harbor)
    requires Awaits(p, pending) && rest != [] && IsTail(rest, pending)
    requires !SomeFailed(d, pending, rest, attempts, harbor) && !Succeeds(d, rest[0].0, attempts, harbor)
    requires Partly(d, e, pending, rest[..0] + rest[0 + 1..], attempts, harbor)
    ensures JobsDone(d, e, pending, attempts, harbor, true) && !JobsSucceed(d, pending, attempts, harbor)
    ensures forall a :: FirstFailure(d, pending, a, attempts, harbor) ==> 0 <= a < |pending| && pending[a] == rest[0]
  {
    hide Partly, SomeFailed, Succeeds, JobsDone, JobsSucceed;
    var n := |pending| - |rest|;
    AwaitsDistinct(p, pending);
    FailedBefore(d, pending, n, attempts, harbor);
    assert rest[0] == pending[n] && rest[..0] + rest[0 + 1..] == pending[n + 1..];
    StoppedAt(d, e, pending, n, attempts, harbor);
  }
}
