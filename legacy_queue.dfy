/**
 * The job queue of the first version of the program (SendorQueue.py at the
 * repository root).  Each added job gets the next id from a counter and the queue's
 * one job work directory; its tasks are numbered from 0 in list order and each gets
 * its own directory inside the job's.  Jobs wait in a first-in first-out queue for
 * the worker thread, which is not modelled: the queue is the list of jobs put on it.
 */
module LegacyQueue {
  import opened Common
  import opened Text
  import opened Lists
  import opened LegacyJob

  /** `os.path.join(job_work_directory, str(task_id))`. */
  function TaskDirectory(jobDirectory: string, taskId: nat): string {
    PathJoin(jobDirectory, NatToString(taskId))
  }

  /** Task directories lie inside the job directory and differ between tasks. */
  lemma TaskDirectoriesDistinct(jobDirectory: string, i: nat, j: nat)
    ensures jobDirectory <= TaskDirectory(jobDirectory, i)
    ensures TaskDirectory(jobDirectory, i) == TaskDirectory(jobDirectory, j) <==> i == j
  {
    var si, sj := NatToString(i), NatToString(j);
    assert IsDigit(si[0]) && IsDigit(sj[0]);
    PathJoinParts(jobDirectory, si);
    PathJoinParts(jobDirectory, sj);
    var base := if jobDirectory == [] || jobDirectory[|jobDirectory| - 1] == '/' then jobDirectory
      else jobDirectory + "/";
    assert TaskDirectory(jobDirectory, i) == base + si;
    assert TaskDirectory(jobDirectory, j) == base + sj;
    if base + si == base + sj {
      assert si == (base + si)[|base|..];
      assert sj == (base + sj)[|base|..];
      NatToStringInjective(i, j);
    }
  }

  class JobQueue {
    const workDirectory: string
    /** `os.path.join(work_directory, 'current_job')`, shared by every job. */
    const jobWorkDirectory: string
    var uniqueId: nat
    /** `pending_jobs`, oldest first. */
    var pendingJobs: seq<LegacyJob>

    constructor(workDirectory: string)
      ensures this.workDirectory == workDirectory
      ensures jobWorkDirectory == PathJoin(workDirectory, "current_job")
      ensures uniqueId == 0 && pendingJobs == []
    {
      this.workDirectory := workDirectory;
      jobWorkDirectory := PathJoin(workDirectory, "current_job");
      uniqueId := 0;
      pendingJobs := [];
    }

    /** `add`: the job gets the counter's value as its id and the job directory, the
        counter moves on, task `k` of the job gets id `k` and directory
        `<job directory>/k`, and the job joins the end of the queue and is returned.
        A task that appears twice in the list would be numbered twice; the model
        takes distinct tasks. */
    method Add(job: LegacyJob) returns (r: LegacyJob)
      requires NoDuplicates(job.tasks)
      modifies this, job, set t | t in job.tasks
      ensures r == job
      ensures job.jobId == Some(old(uniqueId)) && job.workDirectory == Some(jobWorkDirectory)
      ensures uniqueId == old(uniqueId) + 1
      ensures pendingJobs == old(pendingJobs) + [job]
      ensures forall k :: 0 <= k < |job.tasks| ==>
        && job.tasks[k].taskId == Some(k)
        && job.tasks[k].workDirectory == Some(TaskDirectory(jobWorkDirectory, k))
        && job.tasks[k].View() == old(job.tasks[k].View())
    {
      var jobId := uniqueId;
      job.SetQueueInfo(jobId, jobWorkDirectory);
      uniqueId := uniqueId + 1;
      var taskId := 0;
      while taskId < |job.tasks|
        invariant 0 <= taskId <= |job.tasks|
        invariant job.jobId == Some(jobId) && job.workDirectory == Some(jobWorkDirectory)
        invariant uniqueId == old(uniqueId) + 1 && pendingJobs == old(pendingJobs)
        invariant forall k :: 0 <= k < taskId ==>
          && job.tasks[k].taskId == Some(k)
          && job.tasks[k].workDirectory == Some(TaskDirectory(jobWorkDirectory, k))
        invariant forall k :: 0 <= k < |job.tasks| ==> job.tasks[k].View() == old(job.tasks[k].View())
      {
        job.tasks[taskId].SetQueueInfo(taskId, TaskDirectory(jobWorkDirectory, taskId));
        taskId := taskId + 1;
      }
      pendingJobs := pendingJobs + [job];
      r := job;
    }
  }
}
