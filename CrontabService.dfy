/** `CrontabService` (`library/crontab_service.py`): the jobs listed in the
  * bash code blocks of `CRONTAB.md`, and the mock run and kill answers.
  *
  * Reading the file and extracting the code blocks are left to the caller:
  * the model starts from whether the file exists and the blocks' text. */
module CrontabService {
  import opened Common

  // ---------------------------------------------------------------------------
  // str.split() and " ".join

  predicate IsWord(w: string)
  {
    |w| > 0 && forall k :: 0 <= k < |w| ==> !IsSpace(w[k])
  }

  /** The longest prefix of `s` without a separator. */
  function WordPrefix(s: string): (w: string)
    ensures |w| <= |s| && w == s[..|w|]
    ensures forall k :: 0 <= k < |w| ==> !IsSpace(w[k])
    ensures |w| < |s| ==> IsSpace(s[|w|])
    ensures s != [] && !IsSpace(s[0]) ==> |w| > 0
  {
    if s == [] || IsSpace(s[0]) then [] else [s[0]] + WordPrefix(s[1..])
  }

  /** `s.split()`: the maximal runs of non-separators, in order. */
  function SplitWords(s: string): (ws: seq<string>)
    ensures forall k :: 0 <= k < |ws| ==> IsWord(ws[k])
    decreases |s|
  {
    if s == [] then []
    else if IsSpace(s[0]) then SplitWords(s[1..])
    else
      var w := WordPrefix(s);
      [w] + SplitWords(s[|w|..])
  }

  /** `" ".join(ws)`. */
  function Join(ws: seq<string>): string
  {
    if ws == [] then "" else if |ws| == 1 then ws[0] else ws[0] + " " + Join(ws[1..])
  }

  lemma {:induction false} WordPrefixOf(w: string, rest: string)
    requires IsWord(w) && (rest == [] || IsSpace(rest[0]))
    ensures WordPrefix(w + rest) == w
  {
    if |w| > 1 {
      assert (w + rest)[1..] == w[1..] + rest;
      WordPrefixOf(w[1..], rest);
    } else {
      assert (w + rest)[1..] == rest;
    }
  }

  /** Splitting words joined by single spaces gives the words back. */
  lemma {:induction false} SplitJoin(ws: seq<string>)
    requires forall k :: 0 <= k < |ws| ==> IsWord(ws[k])
    ensures SplitWords(Join(ws)) == ws
  {
    if ws == [] {
    } else if |ws| == 1 {
      WordPrefixOf(ws[0], "");
      assert ws[0] + "" == ws[0];
      assert ws[0][|ws[0]|..] == [];
    } else {
      var rest := " " + Join(ws[1..]);
      var s := ws[0] + rest;
      assert Join(ws) == s;
      WordPrefixOf(ws[0], rest);
      assert s[|ws[0]|..] == rest;
      assert rest[1..] == Join(ws[1..]);
      SplitJoin(ws[1..]);
      assert SplitWords(s) == [ws[0]] + SplitWords(rest);
    }
  }

  // ---------------------------------------------------------------------------
  // parse_crontab_md

  datatype Job = Job(id: int, enabled: bool, schedule: string, command: string, comment: string,
                     lastExitCode: int, lastDuration: string, lastRunAt: string, nextRunAt: string,
                     status: string, pid: Option<int>)

  /** The job of block number `id` (1-based) whose tokens are `parts`. */
  function MakeJob(id: int, parts: seq<string>): Job
    requires |parts| >= 6
  {
    Job(id, true, Join(parts[..5]), Join(parts[5..]), "# Job from CRONTAB.md Section " + IntToString(id),
        0, "Unknown", "-", "-", "idle", None)
  }

  /** The jobs of the blocks, in order, skipping blocks of fewer than six tokens. */
  function JobsOf(blocks: seq<string>): seq<Job>
  {
    if blocks == [] then []
    else
      var parts := SplitWords(blocks[|blocks| - 1]);
      JobsOf(blocks[..|blocks| - 1]) + (if |parts| < 6 then [] else [MakeJob(|blocks|, parts)])
  }

  /** `parse_crontab_md`. */
  method ParseCrontab(fileExists: bool, codeBlocks: seq<string>) returns (jobs: seq<Job>)
    ensures !fileExists ==> jobs == []
    ensures fileExists ==> jobs == JobsOf(codeBlocks)
  {
    jobs := [];
    if !fileExists {
      return [];
    }
    for i := 0 to |codeBlocks|
      invariant jobs == JobsOf(codeBlocks[..i])
    {
      assert codeBlocks[..i + 1][..i] == codeBlocks[..i];
      var parts := SplitWords(codeBlocks[i]);
      if |parts| < 6 {
        continue;
      }
      var schedule := Join(parts[..5]);
      var command := Join(parts[5..]);
      var jobId := i + 1;
      jobs := jobs + [Job(jobId, true, schedule, command, "# Job from CRONTAB.md Section " + IntToString(jobId),
                          0, "Unknown", "-", "-", "idle", None)];
    }
    assert codeBlocks[..|codeBlocks|] == codeBlocks;
  }

  /** `job` is the job of block number `job.id`, which has at least six tokens. */
  predicate JobOfBlock(blocks: seq<string>, job: Job)
  {
    1 <= job.id <= |blocks| && |SplitWords(blocks[job.id - 1])| >= 6
    && job == MakeJob(job.id, SplitWords(blocks[job.id - 1]))
  }

  predicate HasJob(jobs: seq<Job>, id: int)
  {
    exists k :: 0 <= k < |jobs| && jobs[k].id == id
  }

  /** Job ids are the 1-based numbers of the blocks with at least six tokens,
    * increasing, and every such block gives a job; the ids are the blocks'
    * places among all blocks, so skipped blocks leave gaps. */
  lemma JobsFollowBlocks(blocks: seq<string>)
    ensures forall k :: 0 <= k < |JobsOf(blocks)| ==> JobOfBlock(blocks, JobsOf(blocks)[k])
    ensures forall i, j :: 0 <= i < j < |JobsOf(blocks)| ==> JobsOf(blocks)[i].id < JobsOf(blocks)[j].id
    ensures forall b :: 0 <= b < |blocks| && |SplitWords(blocks[b])| >= 6 ==>
              HasJob(JobsOf(blocks), b + 1)
  {
    JobsComeFromBlocks(blocks);
    JobIdsIncrease(blocks);
    LongBlocksGiveJobs(blocks);
  }

  lemma {:induction false} JobsComeFromBlocks(blocks: seq<string>)
    ensures forall k :: 0 <= k < |JobsOf(blocks)| ==> JobOfBlock(blocks, JobsOf(blocks)[k])
  {
    if blocks != [] {
      var n := |blocks| - 1;
      var init := blocks[..n];
      JobsComeFromBlocks(init);
      var parts := SplitWords(blocks[n]);
      var js := JobsOf(blocks);
      assert js == JobsOf(init) + (if |parts| < 6 then [] else [MakeJob(n + 1, parts)]);
      forall k | 0 <= k < |js|
        ensures JobOfBlock(blocks, js[k])
      {
        if k < |JobsOf(init)| {
          assert js[k] == JobsOf(init)[k];
          assert JobOfBlock(init, js[k]);
          assert init[js[k].id - 1] == blocks[js[k].id - 1];
        }
      }
    }
  }

  lemma {:induction false} JobIdsIncrease(blocks: seq<string>)
    ensures forall i, j :: 0 <= i < j < |JobsOf(blocks)| ==> JobsOf(blocks)[i].id < JobsOf(blocks)[j].id
  {
    if blocks != [] {
      var n := |blocks| - 1;
      var init := blocks[..n];
      JobIdsIncrease(init);
      JobsComeFromBlocks(init);
      var parts := SplitWords(blocks[n]);
      var js := JobsOf(blocks);
      var earlier := JobsOf(init);
      assert js == earlier + (if |parts| < 6 then [] else [MakeJob(n + 1, parts)]);
      forall i, j | 0 <= i < j < |js|
        ensures js[i].id < js[j].id
      {
        assert js[i] == earlier[i];
        assert JobOfBlock(init, earlier[i]);
        if j < |earlier| {
          assert js[j] == earlier[j];
        }
      }
    }
  }

  lemma {:induction false} LongBlocksGiveJobs(blocks: seq<string>)
    ensures forall b :: 0 <= b < |blocks| && |SplitWords(blocks[b])| >= 6 ==>
              HasJob(JobsOf(blocks), b + 1)
  {
    if blocks != [] {
      var n := |blocks| - 1;
      var init := blocks[..n];
      LongBlocksGiveJobs(init);
      var parts := SplitWords(blocks[n]);
      var js := JobsOf(blocks);
      assert js == JobsOf(init) + (if |parts| < 6 then [] else [MakeJob(n + 1, parts)]);
      forall b | 0 <= b < |blocks| && |SplitWords(blocks[b])| >= 6
        ensures HasJob(js, b + 1)
      {
        if b < n {
          assert init[b] == blocks[b];
          assert HasJob(JobsOf(init), b + 1);
          var k :| 0 <= k < |JobsOf(init)| && JobsOf(init)[k].id == b + 1;
          assert js[k] == JobsOf(init)[k];
        } else {
          assert js[|js| - 1].id == b + 1;
        }
      }
    }
  }

  /** A job's schedule is its block's first five tokens and its command the
    * rest, each joined by single spaces, so splitting them gives the tokens
    * back. */
  lemma ScheduleAndCommand(id: int, parts: seq<string>)
    requires |parts| >= 6 && forall k :: 0 <= k < |parts| ==> IsWord(parts[k])
    ensures SplitWords(MakeJob(id, parts).schedule) == parts[..5]
    ensures SplitWords(MakeJob(id, parts).command) == parts[5..]
    ensures var j := MakeJob(id, parts);
            j.enabled && j.status == "idle" && j.pid == None && j.lastExitCode == 0 && j.id == id
  {
    SplitJoin(parts[..5]);
    SplitJoin(parts[5..]);
  }

  // ---------------------------------------------------------------------------
  // mock_run_job / mock_kill_job

  datatype JobAnswer = JobAnswer(jobId: int, pid: Option<int>, status: string)

  function MockRunJob(jobId: int): (a: JobAnswer)
    ensures a.jobId == jobId && a.status == "running" && a.pid.Some? && a.pid.value - jobId == 1234
  {
    JobAnswer(jobId, Some(1234 + jobId), "running")
  }

  function MockKillJob(jobId: int): (a: JobAnswer)
    ensures a.jobId == jobId && a.status == "killed" && a.pid.None?
  {
    JobAnswer(jobId, None, "killed")
  }

  /** Different jobs are given different pids. */
  lemma RunPidsAreDistinct(a: int, b: int)
    ensures a != b ==> MockRunJob(a).pid != MockRunJob(b).pid
  {
  }
}
