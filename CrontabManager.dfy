/** The state logic of the crontab console (`frontend/CrontabManager.jsx`):
  * the job list and the log, which are replaced as whole values, the table
  * of pending completion timers, which is changed in place, and the pure
  * status badge and success rate.
  *
  * Server answers, the clock reading, the random outcome and duration of a
  * run, and the id a timer is given are parameters of the operations. */
module CrontabManager {
  import opened Common
  import CrontabService

  /** A job as the console holds it; `lastExitCode` may be missing. */
  datatype JobRow = JobRow(id: int, enabled: bool, schedule: string, comment: string, command: string,
                           lastExitCode: Option<int>, lastDuration: string, lastRunAt: string,
                           status: string, pid: Option<int>)

  datatype LogKind = Info | Success | Error | Warn | Cmd

  datatype LogEntry = LogEntry(text: string, kind: LogKind, jobId: Option<int>)

  /** A pending completion: the timer's id and the process id it reports. */
  datatype Timer = Timer(timeoutId: int, pid: Option<int>)

  // ---------------------------------------------------------------------------
  // addLog and visibleLogs

  const LogKeep: nat := 100

  /** `addLog`: the last 100 entries (or all when fewer) and the new one. */
  function AppendLog(logs: seq<LogEntry>, e: LogEntry): (r: seq<LogEntry>)
    ensures |r| == Min(|logs|, LogKeep) + 1 && |r| <= LogKeep + 1
    ensures r[|r| - 1] == e
    ensures r[..|r| - 1] == logs[|logs| - Min(|logs|, LogKeep)..]
  {
    var kept := if |logs| <= LogKeep then logs else logs[|logs| - LogKeep..];
    assert kept + [e] == (kept + [e])[..|kept|] + [e];
    kept + [e]
  }

  /** Several `addLog` calls in order. */
  function AppendLogs(logs: seq<LogEntry>, es: seq<LogEntry>): seq<LogEntry>
  {
    if es == [] then logs else AppendLog(AppendLogs(logs, es[..|es| - 1]), es[|es| - 1])
  }

  /** However many entries are added, the log stays within 101 entries (or
    * its old length). */
  lemma {:induction false} AppendLogsBounded(logs: seq<LogEntry>, es: seq<LogEntry>)
    ensures |AppendLogs(logs, es)| <= Max(|logs|, LogKeep + 1)
    ensures es != [] ==> |AppendLogs(logs, es)| <= LogKeep + 1
  {
  }

  /** `b` is the last part of `a`. */
  predicate EndsWith(a: seq<LogEntry>, b: seq<LogEntry>)
  {
    |b| <= |a| && a[|a| - |b|..] == b
  }

  /** The log ends with the newest entries, up to 101 of them. */
  lemma {:induction false} AppendLogsKeepsNewest(logs: seq<LogEntry>, es: seq<LogEntry>)
    requires |es| <= LogKeep + 1
    ensures EndsWith(AppendLogs(logs, es), es)
  {
    if es != [] {
      var init := es[..|es| - 1];
      var e := es[|es| - 1];
      var before := AppendLogs(logs, init);
      AppendLogsKeepsNewest(logs, init);
      AppendLogKeepsTail(before, init, e);
      assert init + [e] == es;
      assert AppendLogs(logs, es) == AppendLog(before, e);
    }
  }

  lemma AppendLogKeepsTail(before: seq<LogEntry>, tail: seq<LogEntry>, e: LogEntry)
    requires |tail| <= LogKeep && EndsWith(before, tail)
    ensures EndsWith(AppendLog(before, e), tail + [e])
  {
    var r := AppendLog(before, e);
    var m := Min(|before|, LogKeep);
    var kept := r[..|r| - 1];
    assert kept == before[|before| - m..];
    assert kept[|kept| - |tail|..] == tail;
    assert r == kept + [e];
    assert r[|r| - |tail| - 1..] == kept[|kept| - |tail|..] + [e];
  }

  /** A selection counts only when it is a truthy id. */
  predicate Selecting(selected: Option<int>)
  {
    selected.Some? && selected.value != 0
  }

  predicate Shown(e: LogEntry, selected: Option<int>)
  {
    !Selecting(selected) || e.jobId == selected || e.jobId.None?
  }

  /** `visibleLogs`: all entries, or with a job selected the entries of that
    * job and the general ones, in log order. */
  function VisibleLogs(logs: seq<LogEntry>, selected: Option<int>): (r: seq<LogEntry>)
    ensures forall e :: e in r <==> e in logs && Shown(e, selected)
    ensures |r| <= |logs|
  {
    if logs == [] then []
    else
      var last := logs[|logs| - 1];
      var init := VisibleLogs(logs[..|logs| - 1], selected);
      assert logs == logs[..|logs| - 1] + [last];
      init + (if Shown(last, selected) then [last] else [])
  }

  /** The filter keeps the log's order: filtering two runs of entries one
    * after the other is filtering each of them. */
  lemma {:induction false} VisibleLogsKeepsOrder(a: seq<LogEntry>, b: seq<LogEntry>, selected: Option<int>)
    ensures VisibleLogs(a + b, selected) == VisibleLogs(a, selected) + VisibleLogs(b, selected)
    decreases |b|
  {
    if b == [] {
      assert a + b == a;
    } else {
      var init := b[..|b| - 1];
      var last := b[|b| - 1];
      assert (a + b)[..|a + b| - 1] == a + init;
      assert (a + b)[|a + b| - 1] == last;
      VisibleLogsKeepsOrder(a, init, selected);
    }
  }

  /** With no job selected every entry is visible. */
  lemma {:induction false} NoSelectionShowsAll(logs: seq<LogEntry>, selected: Option<int>)
    requires !Selecting(selected)
    ensures VisibleLogs(logs, selected) == logs
  {
    if logs != [] {
      NoSelectionShowsAll(logs[..|logs| - 1], selected);
      assert logs == logs[..|logs| - 1] + [logs[|logs| - 1]];
    }
  }

  // ---------------------------------------------------------------------------
  // The job-list updates

  /** `jobs.map(j => j.id === id ? f(j) : j)`. */
  function MapMatching(jobs: seq<JobRow>, id: int, f: JobRow -> JobRow): (r: seq<JobRow>)
    ensures |r| == |jobs|
    ensures forall k :: 0 <= k < |jobs| ==> r[k] == if jobs[k].id == id then f(jobs[k]) else jobs[k]
  {
    if jobs == [] then []
    else
      var last := jobs[|jobs| - 1];
      MapMatching(jobs[..|jobs| - 1], id, f) + [if last.id == id then f(last) else last]
  }

  function Started(status: string, pid: Option<int>): JobRow -> JobRow
  {
    (j: JobRow) => j.(status := status, pid := pid)
  }

  /** The completion of a run: idle, no process, exit code and time of the run. */
  function Completed(exitCode: int, duration: string, runAt: string): JobRow -> JobRow
  {
    (j: JobRow) => j.(status := "idle", pid := None, lastExitCode := Some(exitCode), lastDuration := duration, lastRunAt := runAt)
  }

  const KilledExitCode := 137

  function Killed(runAt: string): JobRow -> JobRow
  {
    (j: JobRow) => j.(status := "idle", pid := None, lastExitCode := Some(KilledExitCode), lastDuration := "Terminated", lastRunAt := runAt)
  }

  function Toggled(): JobRow -> JobRow
  {
    (j: JobRow) => j.(enabled := !j.enabled)
  }

  /** `{ ...editForm, id: editingId }`. */
  function SavedAs(form: JobRow, editingId: int): JobRow -> JobRow
  {
    (j: JobRow) => form.(id := editingId)
  }

  /** Every update keeps the ids of the jobs, so it never touches another
    * job, and toggling twice restores the list. */
  lemma UpdatesKeepIds(jobs: seq<JobRow>, id: int, f: JobRow -> JobRow)
    requires forall j: JobRow :: j.id == id ==> f(j).id == id
    ensures forall k :: 0 <= k < |jobs| ==> MapMatching(jobs, id, f)[k].id == jobs[k].id
    ensures MapMatching(MapMatching(jobs, id, Toggled()), id, Toggled()) == jobs
  {
    var once := MapMatching(jobs, id, Toggled());
    var twice := MapMatching(once, id, Toggled());
    assert forall k :: 0 <= k < |jobs| ==> twice[k] == jobs[k];
  }

  /** The updates of run, completion, kill, toggle and save all keep ids. */
  lemma EveryUpdateKeepsIds(status: string, pid: Option<int>, exitCode: int, duration: string, runAt: string, form: JobRow, id: int)
    ensures forall j: JobRow :: j.id == id ==>
              Started(status, pid)(j).id == id && Completed(exitCode, duration, runAt)(j).id == id
              && Killed(runAt)(j).id == id && Toggled()(j).id == id && SavedAs(form, id)(j).id == id
  {
  }

  /** The first job with the id. */
  function FindJob(jobs: seq<JobRow>, id: int): (r: Option<JobRow>)
    ensures r.None? <==> forall k :: 0 <= k < |jobs| ==> jobs[k].id != id
    ensures r.Some? ==> r.value in jobs && r.value.id == id
  {
    if jobs == [] then None else if jobs[0].id == id then Some(jobs[0]) else FindJob(jobs[1..], id)
  }

  /** The entries `toggleEnabled` logs, one per matching job. */
  function ToggleEntries(jobs: seq<JobRow>, id: int): seq<LogEntry>
  {
    if jobs == [] then []
    else
      var last := jobs[|jobs| - 1];
      ToggleEntries(jobs[..|jobs| - 1], id)
        + (if last.id == id then [ToggleEntry(id, !last.enabled)] else [])
  }

  function ToggleEntry(id: int, enabled: bool): LogEntry
  {
    LogEntry("Job " + IntToString(id) + " is now " + (if enabled then "ENABLED" else "DISABLED"), Info, Some(id))
  }

  // ---------------------------------------------------------------------------
  // StatusBadge and successRate

  datatype Badge = Running(pid: Option<int>) | Exit0 | SigKill | Pending | ExitCode(code: int)

  function StatusBadge(status: string, exitCode: Option<int>, pid: Option<int>): (b: Badge)
    ensures b.Running? <==> status == "running"
    ensures b == Exit0 <==> status != "running" && exitCode == Some(0)
    ensures b == SigKill <==> status != "running" && exitCode == Some(137)
    ensures b == Pending <==> status != "running" && exitCode.None?
    ensures b.ExitCode? ==> exitCode == Some(b.code) && b.code != 0 && b.code != 137
  {
    if status == "running" then Running(pid)
    else match exitCode
      case Some(0) => Exit0
      case Some(137) => SigKill
      case None => Pending
      case Some(n) => ExitCode(n)
  }

  function BadgeOf(j: JobRow): Badge
  {
    StatusBadge(j.status, j.lastExitCode, j.pid)
  }

  /** A job started by the backend's mock runner shows as running with the
    * pid it was given; a completed job shows EXIT 0 or EXIT 1 and a killed
    * one SIGKILL. */
  lemma BadgesAfterUpdates(j: JobRow, success: bool, duration: string, runAt: string)
    ensures var a := CrontabService.MockRunJob(j.id);
            BadgeOf(Started(a.status, a.pid)(j)) == Running(Some(1234 + j.id))
    ensures BadgeOf(Completed(if success then 0 else 1, duration, runAt)(j))
            == (if success then Exit0 else ExitCode(1))
    ensures BadgeOf(Killed(runAt)(j)) == SigKill
  {
  }

  function SuccessCount(exitCodes: seq<int>): (n: nat)
    ensures n <= |exitCodes|
  {
    if exitCodes == [] then 0
    else SuccessCount(exitCodes[..|exitCodes| - 1]) + (if exitCodes[|exitCodes| - 1] == 0 then 1 else 0)
  }

  /** The success rate of a run history, in whole percent. */
  function SuccessRate(exitCodes: seq<int>): (rate: int)
    ensures exitCodes == [] ==> rate == 0
    ensures exitCodes != [] ==>
              0 <= rate <= 100
              && Abs(rate as real - SuccessCount(exitCodes) as real / |exitCodes| as real * 100.0) <= 0.5
  {
    if |exitCodes| > 0 then
      var r := JsRound(SuccessCount(exitCodes) as real / |exitCodes| as real * 100.0);
      RateBounds(SuccessCount(exitCodes), |exitCodes|);
      r
    else 0
  }

  lemma RateBounds(count: nat, total: nat)
    requires 0 < total && count <= total
    ensures 0 <= JsRound(count as real / total as real * 100.0) <= 100
  {
    var x := count as real / total as real;
    assert 0.0 <= x <= 1.0 by {
      assert count as real <= total as real;
    }
  }

  /** All runs succeeding gives 100, none succeeding gives 0. */
  lemma {:induction false} SuccessRateExtremes(exitCodes: seq<int>)
    ensures (forall k :: 0 <= k < |exitCodes| ==> exitCodes[k] == 0) ==> SuccessCount(exitCodes) == |exitCodes|
    ensures (forall k :: 0 <= k < |exitCodes| ==> exitCodes[k] != 0) ==> SuccessCount(exitCodes) == 0
    ensures exitCodes != [] && SuccessCount(exitCodes) == |exitCodes| ==> SuccessRate(exitCodes) == 100
    ensures SuccessCount(exitCodes) == 0 ==> SuccessRate(exitCodes) == 0
  {
    if exitCodes != [] {
      SuccessRateExtremes(exitCodes[..|exitCodes| - 1]);
      var n := |exitCodes| as real;
      if SuccessCount(exitCodes) == |exitCodes| {
        assert |exitCodes| as real / n * 100.0 == 100.0;
      }
    }
  }

  // ---------------------------------------------------------------------------
  // The console

  datatype RunAnswer = RunOk(pid: Option<int>, status: string) | RunFailed(message: string)

  datatype LoadAnswer = LoadOk(jobs: seq<JobRow>) | LoadFailed(message: string)

  /** What the browser reports when the job to run is not in the list. */
  const MissingJobError := "Cannot read properties of undefined (reading 'command')"

  function PidText(pid: Option<int>): string
  {
    if pid.Some? then IntToString(pid.value) else "null"
  }

  function Prefix(s: string, n: nat): (p: string)
    ensures |p| == Min(|s|, n) && p == s[..|p|]
  {
    if |s| <= n then s else s[..n]
  }

  class Console {
    var jobs: seq<JobRow>
    var logs: seq<LogEntry>
    var timers: map<int, Timer>
    var editingId: Option<int>
    var editForm: JobRow

    ghost predicate Valid()
      reads this
    {
      |logs| <= LogKeep + 1
    }

    /** The console opens with no jobs and the connecting message logged. */
    constructor (blank: JobRow)
      ensures jobs == [] && logs == [LogEntry("Connecting to system...", Info, None)]
      ensures timers == map[] && editingId == None && Valid()
    {
      jobs, timers := [], map[];
      logs := [LogEntry("Connecting to system...", Info, None)];
      editingId, editForm := None, blank;
    }

    method AddLog(e: LogEntry)
      modifies this
      ensures logs == AppendLog(old(logs), e) && Valid()
      ensures jobs == old(jobs) && timers == old(timers) && editingId == old(editingId) && editForm == old(editForm)
    {
      logs := AppendLog(logs, e);
    }

    /** The first fetch of the job list. */
    method Load(answer: LoadAnswer)
      modifies this
      ensures answer.LoadOk? ==> jobs == answer.jobs
                                  && logs == AppendLog(old(logs), LogEntry("Loaded jobs from backend configuration.", Info, None))
      ensures answer.LoadFailed? ==> jobs == old(jobs)
                                      && logs == AppendLog(old(logs), LogEntry("Failed to load jobs: " + answer.message, Error, None))
      ensures timers == old(timers) && editingId == old(editingId) && editForm == old(editForm) && Valid()
    {
      match answer {
        case LoadOk(fetched) =>
          jobs := fetched;
          AddLog(LogEntry("Loaded jobs from backend configuration.", Info, None));
        case LoadFailed(message) =>
          AddLog(LogEntry("Failed to load jobs: " + message, Error, None));
      }
    }

    /** `handleRun`, its answer and `simulateCompletion`'s arming of a timer. */
    method Run(id: int, answer: RunAnswer, timeoutId: int)
      modifies this
      ensures var request := AppendLog(old(logs), LogEntry("Requesting manual execution for Job #" + IntToString(id) + "...", Info, Some(id)));
              match answer
              case RunFailed(message) =>
                jobs == old(jobs) && timers == old(timers)
                && logs == AppendLog(request, LogEntry("Failed to run job: " + message, Error, Some(id)))
              case RunOk(pid, status) =>
                jobs == MapMatching(old(jobs), id, Started(status, pid))
                && match FindJob(old(jobs), id)
                   case None =>
                     timers == old(timers)
                     && logs == AppendLog(request, LogEntry("Failed to run job: " + MissingJobError, Error, Some(id)))
                   case Some(job) =>
                     timers == old(timers)[id := Timer(timeoutId, pid)]
                     && logs == AppendLog(request, LogEntry("Spawned process (PID: " + PidText(pid) + "): "
                                                             + Prefix(job.command, 50) + "...", Cmd, Some(id)))
      ensures editingId == old(editingId) && editForm == old(editForm) && Valid()
    {
      var job := FindJob(jobs, id);
      AddLog(LogEntry("Requesting manual execution for Job #" + IntToString(id) + "...", Info, Some(id)));
      match answer {
        case RunFailed(message) =>
          AddLog(LogEntry("Failed to run job: " + message, Error, Some(id)));
        case RunOk(pid, status) =>
          jobs := MapMatching(jobs, id, Started(status, pid));
          if job.None? {
            AddLog(LogEntry("Failed to run job: " + MissingJobError, Error, Some(id)));
          } else {
            AddLog(LogEntry("Spawned process (PID: " + PidText(pid) + "): " + Prefix(job.value.command, 50) + "...", Cmd, Some(id)));
            timers := timers[id := Timer(timeoutId, pid)];
          }
      }
    }

    /** The completion timer firing: the run ends with exit code 0 or 1 and
      * the timer entry for the job is removed. */
    method Complete(id: int, pid: Option<int>, success: bool, duration: string, runAt: string)
      modifies this
      ensures jobs == MapMatching(old(jobs), id, Completed(if success then 0 else 1, duration, runAt))
      ensures success ==> logs == AppendLog(old(logs), LogEntry("[PID:" + PidText(pid) + "] Process completed successfully. Duration: " + duration, Success, Some(id)))
      ensures !success ==> logs == AppendLog(old(logs), LogEntry("[PID:" + PidText(pid) + "] Process failed with Exit Code 1. Check stderr for details.", Error, Some(id)))
      ensures timers == old(timers) - {id} && editingId == old(editingId) && editForm == old(editForm) && Valid()
    {
      var exitCode := if success then 0 else 1;
      jobs := MapMatching(jobs, id, Completed(exitCode, duration, runAt));
      if success {
        AddLog(LogEntry("[PID:" + PidText(pid) + "] Process completed successfully. Duration: " + duration, Success, Some(id)));
      } else {
        AddLog(LogEntry("[PID:" + PidText(pid) + "] Process failed with Exit Code 1. Check stderr for details.", Error, Some(id)));
      }
      timers := timers - {id};
    }

    /** `handleKill`: the pending completion is cancelled at once; the job is
      * marked killed when the server answers. */
    method Kill(id: int, answered: bool, runAt: string)
      modifies this
      ensures timers == old(timers) - {id} && id !in timers
      ensures answered ==> jobs == MapMatching(old(jobs), id, Killed(runAt))
                           && logs == AppendLog(old(logs), LogEntry("[PID:?] Received SIGKILL. Process terminated by user.", Error, Some(id)))
      ensures !answered ==> jobs == old(jobs) && logs == old(logs)
      ensures editingId == old(editingId) && editForm == old(editForm) && (old(Valid()) ==> Valid())
    {
      if id in timers {
        timers := timers - {id};
      }
      if answered {
        jobs := MapMatching(jobs, id, Killed(runAt));
        AddLog(LogEntry("[PID:?] Received SIGKILL. Process terminated by user.", Error, Some(id)));
      }
    }

    method Edit(job: JobRow)
      modifies this
      ensures editingId == Some(job.id) && editForm == job
      ensures jobs == old(jobs) && logs == old(logs) && timers == old(timers)
    {
      editingId, editForm := Some(job.id), job;
    }

    /** The schedule input of the edit row. */
    method EditSchedule(value: string)
      modifies this
      ensures editForm == old(editForm).(schedule := value)
      ensures jobs == old(jobs) && logs == old(logs) && timers == old(timers) && editingId == old(editingId)
    {
      editForm := editForm.(schedule := value);
    }

    /** The comment input of the edit row. */
    method EditComment(value: string)
      modifies this
      ensures editForm == old(editForm).(comment := value)
      ensures jobs == old(jobs) && logs == old(logs) && timers == old(timers) && editingId == old(editingId)
    {
      editForm := editForm.(comment := value);
    }

    /** The command text area of the edit row. */
    method EditCommand(value: string)
      modifies this
      ensures editForm == old(editForm).(command := value)
      ensures jobs == old(jobs) && logs == old(logs) && timers == old(timers) && editingId == old(editingId)
    {
      editForm := editForm.(command := value);
    }

    /** `handleSave`: the edited job becomes the form, keeping its id. */
    method Save()
      modifies this
      ensures old(editingId).Some? ==> jobs == MapMatching(old(jobs), old(editingId).value, SavedAs(old(editForm), old(editingId).value))
      ensures old(editingId).None? ==> jobs == old(jobs)
      ensures logs == AppendLog(old(logs), LogEntry("Crontab updated for job ID: "
                                 + (if old(editingId).Some? then IntToString(old(editingId).value) else "null"), Warn, old(editingId)))
      ensures editingId == None && editForm == old(editForm) && timers == old(timers) && Valid()
    {
      var saved := editingId;
      if saved.Some? {
        jobs := MapMatching(jobs, saved.value, SavedAs(editForm, saved.value));
      }
      editingId := None;
      AddLog(LogEntry("Crontab updated for job ID: " + (if saved.Some? then IntToString(saved.value) else "null"), Warn, saved));
    }

    /** `toggleEnabled`: flips the matching jobs, logging each new state. */
    method ToggleEnabled(id: int)
      modifies this
      ensures jobs == MapMatching(old(jobs), id, Toggled())
      ensures logs == AppendLogs(old(logs), ToggleEntries(old(jobs), id))
      ensures timers == old(timers) && editingId == old(editingId) && editForm == old(editForm)
      ensures old(Valid()) ==> Valid()
    {
      var before := jobs;
      var updated: seq<JobRow> := [];
      ghost var startLogs := logs;
      for i := 0 to |before|
        invariant updated == MapMatching(before[..i], id, Toggled())
        invariant logs == AppendLogs(startLogs, ToggleEntries(before[..i], id))
        invariant jobs == before && timers == old(timers) && editingId == old(editingId) && editForm == old(editForm)
      {
        assert before[..i + 1][..i] == before[..i];
        var j := before[i];
        if j.id == id {
          var newState := !j.enabled;
          ghost var entries := ToggleEntries(before[..i], id);
          AddLog(ToggleEntry(id, newState));
          assert ToggleEntries(before[..i + 1], id) == entries + [ToggleEntry(id, newState)];
          assert (entries + [ToggleEntry(id, newState)])[..|entries|] == entries;
          updated := updated + [j.(enabled := newState)];
        } else {
          assert ToggleEntries(before[..i + 1], id) == ToggleEntries(before[..i], id) + [];
          assert ToggleEntries(before[..i], id) + [] == ToggleEntries(before[..i], id);
          updated := updated + [j];
        }
      }
      assert before[..|before|] == before;
      jobs := updated;
      AppendLogsBounded(startLogs, ToggleEntries(before, id));
    }
  }
}
