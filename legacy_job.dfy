/**
 * Jobs and tasks of the first version of the program (SendorJob.py at the
 * repository root).  A job is a list of tasks; the queue gives the job and each of
 * its tasks an id and a work directory, and the worker moves each task through its
 * states and collects the text it reports in the task's details.  A task's actions
 * are not modelled here: what they report reaches the task through the worker.
 */
module LegacyJob {
  import opened Common
  import opened Text
  import SendorTask

  /** One entry of `SendorJob.progress`. */
  datatype TaskStatus = TaskStatus(description: string, state: string, details: string)

  /** What the worker's result loop can change on a task. */
  datatype TaskView = TaskView(state: int, details: string, progress: Option<string>)

  const NoDescription: string := "No description given"

  class LegacyTask {
    /** `string_description`: a concrete kind of task supplies one; the base class
        raises. */
    const description: Option<string>
    var state: int
    var details: string
    var taskId: Option<nat>
    var workDirectory: Option<string>
    /** The last progress message the worker recorded on the task (`set_progress`,
        see module LegacyWorker). */
    var progressMessage: Option<string>

    constructor(description: Option<string>)
      ensures this.description == description
      ensures state == SendorTask.NotStarted && details == ""
      ensures taskId.None? && workDirectory.None? && progressMessage.None?
    {
      this.description := description;
      state := SendorTask.NotStarted;
      details := "";
      taskId := None;
      workDirectory := None;
      progressMessage := None;
    }

    function View(): TaskView
      reads this
    {
      TaskView(state, details, progressMessage)
    }

    /** `set_queue_info`: exactly the given id and work directory are stored. */
    method SetQueueInfo(id: nat, dir: string)
      modifies this
      ensures taskId == Some(id) && workDirectory == Some(dir)
      ensures View() == old(View())
    {
      taskId := Some(id);
      workDirectory := Some(dir);
    }

    /** `started`, `completed`, `failed` and `canceled`: the new state, whatever the
        state was before. */
    method SetState(newState: int)
      requires newState in {SendorTask.Started, SendorTask.Completed, SendorTask.Failed, SendorTask.Canceled}
      modifies this
      ensures state == newState
      ensures details == old(details) && progressMessage == old(progressMessage)
      ensures taskId == old(taskId) && workDirectory == old(workDirectory)
    {
      state := newState;
    }

    /** `append_details`: the text and a newline go at the end; the earlier details
        stay as they were. */
    method AppendDetails(text: string)
      modifies this
      ensures details == old(details) + text + "\n"
      ensures old(details) <= details
      ensures state == old(state) && progressMessage == old(progressMessage)
      ensures taskId == old(taskId) && workDirectory == old(workDirectory)
    {
      details := details + text + "\n";
    }

    /** Records a progress message (the `set_progress` the worker calls). */
    method SetProgress(message: string)
      modifies this
      ensures progressMessage == Some(message)
      ensures state == old(state) && details == old(details)
      ensures taskId == old(taskId) && workDirectory == old(workDirectory)
    {
      progressMessage := Some(message);
    }

    /** The progress entry of this task: description, state name and details; a task
        without a description, or in an unknown state, raises. */
    function Status(): (r: Result<TaskStatus, string>)
      reads this
      ensures r.Ok? <==> description.Some? && SendorTask.StringState(state).Ok?
      ensures description.None? ==> r == Err(NoDescription)
      ensures r.Ok? ==> r.value == TaskStatus(description.value, SendorTask.StringState(state).value, details)
    {
      if description.None? then Err(NoDescription)
      else match SendorTask.StringState(state)
        case Err(e) => Err(e)
        case Ok(name) => Ok(TaskStatus(description.value, name, details))
    }
  }

  class LegacyJob {
    var jobId: Option<nat>
    var workDirectory: Option<string>
    const tasks: seq<LegacyTask>

    /** `SendorJob(tasks)`: the given tasks, or none when none (or an empty list) is
        given. */
    constructor(tasks: Option<seq<LegacyTask>>)
      ensures tasks.Some? ==> this.tasks == tasks.value
      ensures tasks.None? ==> this.tasks == []
      ensures jobId.None? && workDirectory.None?
    {
      this.tasks := if tasks.Some? && tasks.value != [] then tasks.value else [];
      jobId := None;
      workDirectory := None;
    }

    /** `set_queue_info`: exactly the given id and work directory are stored. */
    method SetQueueInfo(id: nat, dir: string)
      modifies this
      ensures jobId == Some(id) && workDirectory == Some(dir)
    {
      jobId := Some(id);
      workDirectory := Some(dir);
    }

    /** `progress`: one entry per task, in task order; the first task whose entry
        cannot be made raises. */
    method Progress() returns (r: Result<seq<TaskStatus>, string>)
      ensures r.Ok? <==> forall k :: 0 <= k < |tasks| ==> tasks[k].Status().Ok?
      ensures r.Ok? ==> |r.value| == |tasks|
      ensures r.Ok? ==> forall k :: 0 <= k < |tasks| ==> r.value[k] == tasks[k].Status().value
      ensures r.Err? ==> exists k :: (0 <= k < |tasks| && tasks[k].Status() == Err(r.error)
        && forall j :: 0 <= j < k ==> tasks[j].Status().Ok?)
    {
      var status: seq<TaskStatus> := [];
      var i := 0;
      while i < |tasks|
        invariant 0 <= i <= |tasks|
        invariant |status| == i
        invariant forall k :: 0 <= k < i ==> tasks[k].Status().Ok? && status[k] == tasks[k].Status().value
      {
        var entry := tasks[i].Status();
        if entry.Err? {
          return Err(entry.error);
        }
        status := status + [entry.value];
        i := i + 1;
      }
      r := Ok(status);
    }
  }
}
