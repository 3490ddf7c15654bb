# archivezipper task manager, modelled in Dafny

This project models the task lifecycle core of archivezipper, a Go service that
collects file URLs under a task and, once a task holds three of them, downloads
the files and zips them into one archive. The model covers the task types of
`task/task.go` and the task manager of `task/manager.go`:

- `task.dfy` (module `TaskModel`): the three task states with their string
  values, the per-file result record, and the `Task` class (id, status, ordered
  file list, archive location).
- `manager.dfy` (module `Manager`): the `TaskManager` class with its task table
  (`map<string, Task>`), its active-task counter and its bound. It covers
  `NewTaskManager`, `CreateTask`, `GetTask`, `AddFileToTask` and the state
  reset of `Shutdown`. The methods are specified by two step functions:
  `CreateStep` is the admission decision and `IngestFile` is the file-list
  update. The invariant `Valid()` states five things:
  - every entry is stored under its own task's id, so distinct ids name
    distinct task objects;
  - the table holds no more entries than the counter (`|tasks| <= active`);
  - the counter stays within the bound, or at zero when the bound is negative;
  - every task holds at most three files;
  - a task's archive job has been launched exactly when it holds three files,
    and no task's job was launched twice.
- `replay.dfy` (module `Replay`): properties of runs of calls. A run of
  `AddFileToTask` calls on one task keeps its earlier files and appends the
  first URLs the extension predicate accepts, in submission order, until the
  task holds three. It launches the archive job at most once: exactly once on
  a new task if and only if at least three URLs pass. A run of `CreateTask`
  calls admits as many tasks as there are free slots, or every call if the run
  is shorter.

The archive job (`processTaskArchive`, started with `go` at
`task/manager.go:83`) is not part of this model. Its launch is recorded in
the ghost sequence `TaskManager.archiveJobs`. `isAllowedExtension`, called at
`task/manager.go:71`, is not part of this model either. `AddFileToTask` and
`IngestFile` take it as the parameter `allowed: string -> bool`, so every
property holds whatever the extension list is.

Points where the code's behaviour is easy to misread:
- Check order. The quota check (`task/manager.go:66`) runs before the
  extension check (`task/manager.go:71`), so a fourth URL with a bad extension
  gets "max files per task reached".
- Reused ids. `CreateTask` does not check whether `id` is already in the
  table. A reused id overwrites its entry and still increments the counter, so
  the invariant is `|tasks| <= active`, not equality.
- No release. Apart from Shutdown's reset to zero, nothing in the modelled
  code decrements `active`. The decrement would belong to
  `processTaskArchive`, which is not in the modelled files.

The source spells the same fields differently from file to file (`ID` and
`id`, `mu` and `Mu`, `tasks` and `Tasks`). The model follows what each field
means.

## Model

| member | source | states |
|---|---|---|
| `TaskModel.NameInjective` | task/task.go:5-11 | the three status constants name three distinct strings, so a status is exactly one of in_progress, done, error |
| `TaskModel.Task.constructor` | task/manager.go:33-37 | a new task has the given id, status in_progress, no files and no archive location |
| `Manager.IngestFile` | task/manager.go:65-79 | a file is accepted iff the task holds fewer than 3 files and the extension predicate accepts the URL; with 3 or more files the error is always the quota error, even for a bad extension; on acceptance exactly one record {url, success false, no error} is appended at the end, earlier entries unchanged, and the list never exceeds 3 |
| `Manager.CreateStep` | task/manager.go:29-38 | admission succeeds iff active < maxActive; a refusal is "server busy" and changes neither table nor counter; a success enters the id and adds exactly 1 to the counter |
| `Manager.CreateStepPreservesInv` | task/manager.go:29-38 | every CreateTask call, including one that reuses an id, keeps `|tasks| <= active` and `active <= maxActive` (or `active == 0` for a negative bound) |
| `Manager.TaskManager.NewTaskManager` | task/manager.go:18-23 | a new manager has an empty table, counter 0, the given bound, and satisfies the invariant |
| `Manager.TaskManager.CreateTask` | task/manager.go:25-40 | follows CreateStep; on success id maps to a fresh in-progress task with no files and every other entry is unchanged; on refusal the table is unchanged; the invariant is preserved |
| `Manager.TaskManager.GetTask` | task/manager.go:42-51 | returns the stored task object iff the id is in the table, "task not found" otherwise, and changes nothing |
| `Manager.TaskManager.AddFileToTask` | task/manager.go:53-87 | an unknown id gives "task not found" and changes nothing; otherwise the task's file list follows IngestFile, errors leave it unchanged, the archive job is launched iff the new length is exactly 3 (so at most once per task), other tasks' files and every task's id, status and archive location are unchanged |
| `Manager.TaskManager.Shutdown` | task/manager.go:89-113 | afterwards the table is empty and the counter is 0; the wait reports completion only if the counter was already 0 and the deadline did not fire first |
| `Replay.Feed` | task/manager.go:53-87 | a run of AddFileToTask calls on one task only appends, never takes the list past 3, and launches the archive job once if the run is what fills the list to 3, and never otherwise |
| `Replay.FeedAcceptsFirstAllowed` | task/manager.go:66-79 | after a run of AddFileToTask calls the list is the earlier files followed by pending records for the first URLs the extension predicate accepts, in submission order, up to the quota of 3 |
| `Replay.LaunchOnceIffThreeAllowed` | task/manager.go:81-84 | on a new task, a run of AddFileToTask calls launches the archive job exactly once if at least 3 of its URLs pass the extension predicate, and never otherwise |
| `Replay.CreateAllFillsFreeSlots` | task/manager.go:29-38 | for the run function CreateAll, which replays CreateStep call by call: a run of CreateTask calls admits exactly min(number of calls, free slots), raises the counter by that number and keeps the admission bound |
| `Replay.FourthTaskRefused` | task/manager.go:29-31 | with a bound of 3, three CreateTask calls on a new manager succeed and a fourth is refused as busy |

## Left out

- Locks: the manager's mutex and each task's mutex are left out, and every operation is modelled as one atomic step. The lock order, and the window between the third file and the job actually starting, are not modelled.
- `processTaskArchive` is not part of this model: the concurrent downloads, the retries, the zip writing, the status change to done or error, the archive location and the counter decrement. Only its launch is recorded, in the ghost `archiveJobs`. Status and archive location therefore never change in this model.
- `isAllowedExtension` is not part of this model: it is the parameter `allowed`. Its extension list is not modelled.
- Manager.TaskManager.Shutdown: the goroutine that polls the counter with `time.Sleep` and the `select` on the context are left out. The outcome of the wait is the parameter `deadlineFirst`. A context that never expires while tasks are active would block forever in the source; that case is not modelled. Log output is left out. The source holds the manager's lock for the whole wait (task/manager.go:90-91), so a decrement that takes that lock cannot run before Shutdown returns; a decrement that skips the lock during the wait is not modelled.
- Go's `int` width is not modelled: `active` only grows while it is below `maxActive`, so it cannot overflow.
- `handlers/handlers.go` (HTTP routing, JSON encoding, UUID generation, serving the archive file), `config/config.go` (configuration structs) and `main.go` (a global initialiser) are thin adapters and are not part of this model.
