/**
 * The task manager of task/manager.go: admission of new tasks against a bound
 * on active tasks, lookup, file ingestion with a quota of three files per task,
 * the start of the archive job when a task's third file arrives, and the state
 * reset at shutdown.
 *
 * The source takes the manager's mutex around every table and counter access
 * and the task's mutex around the file-list update; the model treats each
 * operation as one atomic step.
 */
module Manager {
  import opened TaskModel

  /** The errors the manager returns. */
  datatype ManagerError = ServerBusy | TaskNotFound | MaxFilesReached | UnsupportedFileType {

    /** The text of the Go error value. */
    function Message(): (text: string) {
      match this
      case ServerBusy => "server busy: max active tasks reached"
      case TaskNotFound => "task not found"
      case MaxFilesReached => "max files per task reached"
      case UnsupportedFileType => "unsupported file type"
    }
  }

  /** A value or an error, for Go's (value, error) returns. */
  datatype Result<T> = Ok(value: T) | Err(error: ManagerError)

  /** Go's lone `error` return: nil (Pass) or an error. */
  datatype Outcome = Pass | Fail(error: ManagerError)

  /** Which case of Shutdown's select fired. */
  datatype ShutdownOutcome = AllCompleted | TimedOut

  /** The number of files a task collects before its archive job starts. */
  const MaxFilesPerTask := 3

  /**
   * The file-list step of AddFileToTask, taken under the task's lock: the
   * quota check first, then the extension check, then the append of a pending
   * record. `allowed` stands for isAllowedExtension, whose body is not part of
   * this model.
   */
  function IngestFile(files: seq<FileResult>, url: string, allowed: string -> bool): (r: Result<seq<FileResult>>)
    ensures r.Ok? <==> |files| < MaxFilesPerTask && allowed(url)
    ensures |files| >= MaxFilesPerTask ==> r == Err(MaxFilesReached)
    ensures |files| < MaxFilesPerTask && !allowed(url) ==> r == Err(UnsupportedFileType)
    ensures r.Ok? ==> |r.value| == |files| + 1 <= MaxFilesPerTask
    ensures r.Ok? ==> r.value[..|files|] == files && r.value[|files|] == Pending(url)
  {
    if |files| >= MaxFilesPerTask then Err(MaxFilesReached)
    else if !allowed(url) then Err(UnsupportedFileType)
    else Ok(files + [Pending(url)])
  }

  /** What admission looks at: the ids in the table and the active-task counter. */
  datatype Admission = Admission(ids: set<string>, active: int)

  /**
   * The admission bound kept by every operation: the table never holds more
   * entries than the counter says (a reused id overwrites its entry but still
   * counts), and the counter stays within the maximum, or at zero when the
   * maximum is negative.
   */
  predicate AdmissionInv(s: Admission, maxActive: int) {
    |s.ids| <= s.active && (s.active <= maxActive || s.active == 0)
  }

  /** One CreateTask call on the admission state: refuse when full, otherwise enter id and count it. */
  function CreateStep(s: Admission, maxActive: int, id: string): (r: (Admission, Outcome))
    ensures r.1 == Pass <==> s.active < maxActive
    ensures r.1 != Pass ==> r.1 == Fail(ServerBusy) && r.0 == s
    ensures r.1 == Pass ==> r.0.ids == s.ids + {id} && r.0.active == s.active + 1
  {
    if s.active >= maxActive then (s, Fail(ServerBusy))
    else (Admission(s.ids + {id}, s.active + 1), Pass)
  }

  /** Every CreateTask call keeps the admission bound, whether or not id was already in the table. */
  lemma CreateStepPreservesInv(s: Admission, maxActive: int, id: string)
    requires AdmissionInv(s, maxActive)
    ensures AdmissionInv(CreateStep(s, maxActive, id).0, maxActive)
  {
  }

  /** A task manager: the task table, the active-task counter and its bound. */
  class TaskManager {
    var tasks: map<string, Task>
    var active: int
    var maxActive: int

    /**
     * The tasks whose archive job (processTaskArchive, started with `go`) has
     * been launched, in launch order. The job itself is not part of this model.
     */
    ghost var archiveJobs: seq<Task>

    ghost function AdmissionView(): Admission
      reads this
    {
      Admission(tasks.Keys, active)
    }

    /**
     * The manager's invariant: the admission bound; every entry is the task
     * with that id and holds at most three files; an entry's archive job has
     * been launched exactly when it holds three files; and no task's job was
     * launched twice.
     */
    ghost predicate Valid()
      reads this, tasks.Values
    {
      AdmissionInv(AdmissionView(), maxActive) &&
      (forall id :: id in tasks ==> tasks[id].id == id && |tasks[id].files| <= MaxFilesPerTask) &&
      (forall id :: id in tasks ==> (tasks[id] in archiveJobs <==> |tasks[id].files| == MaxFilesPerTask)) &&
      (forall i, j :: 0 <= i < j < |archiveJobs| ==> archiveJobs[i] != archiveJobs[j])
    }

    /** NewTaskManager: an empty table, no active task, the given bound. */
    constructor NewTaskManager(max: int)
      ensures Valid()
      ensures tasks == map[] && active == 0 && maxActive == max && archiveJobs == []
    {
      tasks := map[];
      active := 0;
      maxActive := max;
      archiveJobs := [];
    }

    /**
     * CreateTask: refuse when the counter has reached the bound; otherwise map
     * id to a new in-progress task with no files (replacing any entry already
     * there) and count it.
     */
    method CreateTask(id: string) returns (r: Outcome)
      requires Valid()
      modifies this`tasks, this`active
      ensures Valid()
      ensures (AdmissionView(), r) == CreateStep(old(AdmissionView()), maxActive, id)
      ensures r.Fail? ==> tasks == old(tasks)
      ensures r.Pass? ==> id in tasks && fresh(tasks[id]) && tasks == old(tasks)[id := tasks[id]]
      ensures r.Pass? ==> tasks[id].status == InProgress && tasks[id].files == [] && tasks[id].archiveURL == ""
    {
      CreateStepPreservesInv(AdmissionView(), maxActive, id);
      if active >= maxActive {
        return Fail(ServerBusy);
      }
      var task := new Task(id);
      tasks := tasks[id := task];
      assert tasks.Keys == old(tasks.Keys) + {id};
      active := active + 1;
      r := Pass;
    }

    /** GetTask: the task stored under id (the same object, shared with the table), or "not found". */
    method GetTask(id: string) returns (r: Result<Task>)
      ensures r.Ok? <==> id in tasks
      ensures r.Ok? ==> r.value == tasks[id]
      ensures r.Err? ==> r.error == TaskNotFound
    {
      if id !in tasks {
        return Err(TaskNotFound);
      }
      r := Ok(tasks[id]);
    }

    /**
     * AddFileToTask: look the task up; then, on the task itself, refuse when it
     * already holds three files, refuse a URL the extension predicate rejects,
     * and otherwise append a pending record. The call whose append brings the
     * list to exactly three files launches the task's archive job.
     */
    method AddFileToTask(taskID: string, url: string, allowed: string -> bool) returns (r: Outcome)
      requires Valid()
      modifies this`archiveJobs, tasks.Values
      ensures Valid()
      ensures taskID !in tasks ==> r == Fail(TaskNotFound) && archiveJobs == old(archiveJobs)
      ensures taskID in tasks ==>
        var t := tasks[taskID];
        match IngestFile(old(t.files), url, allowed)
        case Err(e) =>
          r == Fail(e) && t.files == old(t.files) && archiveJobs == old(archiveJobs)
        case Ok(files) =>
          r == Pass && t.files == files &&
          archiveJobs == old(archiveJobs) + (if |files| == MaxFilesPerTask then [t] else [])
      ensures forall id :: id in tasks ==>
        tasks[id].id == old(tasks[id].id) && tasks[id].status == old(tasks[id].status) &&
        tasks[id].archiveURL == old(tasks[id].archiveURL)
      ensures forall id :: id in tasks && id != taskID ==> tasks[id].files == old(tasks[id].files)
    {
      if taskID !in tasks {
        return Fail(TaskNotFound);
      }
      var task := tasks[taskID];
      if |task.files| >= MaxFilesPerTask {
        return Fail(MaxFilesReached);
      }
      if !allowed(url) {
        return Fail(UnsupportedFileType);
      }
      task.files := task.files + [Pending(url)];
      if |task.files| == MaxFilesPerTask {
        archiveJobs := archiveJobs + [task];
      }
      r := Pass;
    }

    /**
     * Shutdown. The source holds the manager's lock throughout while a
     * goroutine polls the counter until it is zero and a select waits for that
     * or for the context's deadline. Since the lock is held throughout, no
     * decrement that takes the manager's lock can run during the wait, so the
     * counter does not move: the poller can finish only if the counter is
     * already zero, and `deadlineFirst` says whether the deadline fired
     * first. Either way the table is emptied and the counter reset.
     */
    method Shutdown(deadlineFirst: bool) returns (outcome: ShutdownOutcome)
      requires Valid()
      modifies this`tasks, this`active
      ensures Valid()
      ensures tasks == map[] && active == 0
      ensures outcome == AllCompleted <==> old(active) <= 0 && !deadlineFirst
    {
      if active <= 0 && !deadlineFirst {
        outcome := AllCompleted;
      } else {
        outcome := TimedOut;
      }
      tasks := map[];
      active := 0;
    }
  }
}
