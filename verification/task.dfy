/**
 * The task data types of task/task.go: the three task states, the per-file
 * result record and the task itself.
 *
 * The repository spells the same fields differently in different files:
 * task/task.go declares ID, Status, Files, ArchiveURL and mu, task/manager.go
 * writes id, status and files, handlers/handlers.go locks t.Mu, and main.go
 * names the manager's fields Tasks and MaxActive. This model follows what each
 * field means, not how it is spelled.
 */
module TaskModel {

  /** A task's state. In Go it is a string type with three named constants. */
  datatype TaskStatus = InProgress | Done | Error {

    /** The string each Go constant stands for (this is also what the JSON encoding shows). */
    function Name(): (s: string) {
      match this
      case InProgress => "in_progress"
      case Done => "done"
      case Error => "error"
    }
  }

  /** The three constants name three different strings, so the status is one of exactly three values. */
  lemma NameInjective(a: TaskStatus, b: TaskStatus)
    ensures a.Name() == b.Name() <==> a == b
  {
  }

  /** The outcome for one submitted URL: the URL, whether it was archived, and an error text ("" when none). */
  datatype FileResult = FileResult(url: string, success: bool, error: string)

  /** The record appended when a URL is accepted: not yet successful, no error text (Go's zero value). */
  function Pending(url: string): (f: FileResult) {
    FileResult(url, false, "")
  }

  /**
   * A task: its id, status, ordered file list and archive location ("" until set).
   * In the source every field is guarded by the task's own mutex, which is
   * separate from the manager's; the model treats each operation as atomic, so
   * that mutex has no counterpart here.
   */
  class Task {
    var id: string
    var status: TaskStatus
    var files: seq<FileResult>
    var archiveURL: string

    /** The composite literal the manager builds for a new task. */
    constructor (id: string)
      ensures this.id == id && status == InProgress && files == [] && archiveURL == ""
    {
      this.id := id;
      status := InProgress;
      files := [];
      archiveURL := "";
    }
  }
}
