# blender-queue, modelled in Dafny

blender-queue is a small render service. A user uploads a `.blend` scene over
HTTP. The service gives the upload a folder of its own under the jobs root,
stores the file there, inserts a row into the `jobs` table (status QUEUED) and
puts the job on an in-memory FIFO. A single worker takes jobs off the FIFO in
order, marks each one RUNNING, runs Blender on it through the shell, and records
DONE, or ERROR with the failure's message. Read-only endpoints list the jobs
and the job folders.

The model has six modules:

- `Text` (`text.dfy`): the string operations the code relies on. These are
  `str(int)` and reading it back, ASCII `lower()`, `endswith`, the final path
  component and `Path.stem`, joining paths with `/`, code-point order on names
  and `sorted()` of a set of names.
- `Shell` (`shell.dfy`): `shlex.quote`, and the part of POSIX `sh` word
  splitting that a line of quoted arguments uses. This is blanks, single
  quotes, double quotes and quote removal.
- `FolderNaming` (`folder_naming.dfy`): `unique_folder_name` as a loop, and
  the specification it meets, which is the first free probe index.
- `Jobs` (`job_store.dfy`): the `jobs` table as the class `JobStore`. It holds
  a map from id to row and the AUTOINCREMENT counter, and its methods are
  `create_job_record` and `set_job_status`. `iter_queued_jobs` is a query on
  it. A ghost log records every status update.
- `Rendering` (`render_queue.dfy`): `run_blender_render` and the class
  `RenderQueue`, with `start`, `enqueue`, one worker iteration (`Step`) and
  the worker loop (`Work`). Each render is given as its outcome: the exit code
  of the shell process, or the error raised while starting the process or
  reading its output.
- `Server` (`server.dfy`): the service as the class `App`. It owns the jobs
  directory, the table and the queue, and has the startup hook and the upload
  handler. `App.Valid` is the invariant every operation keeps:
  - the queue holds exactly this run's QUEUED jobs, oldest first, each equal
    to its row;
  - every job of this run has a directory of its own, which is none of the
    directories present at startup;
  - no job is left RUNNING between worker iterations.

  The read handlers are functions over the table and the directory map.

The jobs directory is a map from the names directly under the jobs root to
what they are: a file, or a directory with its own entries. `Server.Occupied`
is what `Path.exists()` reports for a name under the jobs root: its entries,
and `.` and `..`, which always exist. Renders add their frames to the job's
directory, so the folder listings show them.

## Model

| member | source | states |
|---|---|---|
| FolderNaming.UniqueFolderName | app/blender_runner.py:126-132 | The name returned does not exist under the jobs root. It is the first free name in the probe order `base`, `base_2`, `base_3`, ... |
| FolderNaming.NeverSuffixOne | app/blender_runner.py:127-131 | `base_1` is never a probed name: the counter is incremented before its first use. |
| FolderNaming.CandidateInjective | app/blender_runner.py:129-131 | Different probe indices give different names, so the loop never probes a name twice. |
| FolderNaming.FirstFreeUnique | app/blender_runner.py:129-131 | There is only one first free index: the loop's stopping point is determined by the existing names. |
| FolderNaming.FreeIndexBound | app/blender_runner.py:129-131 | The loop stops after at most one more probe than there are existing names. |
| FolderNaming.NextUploadProbesFurther | app/blender_runner.py:126-132 | Once the chosen folder exists, the next upload with the same stem stops at a strictly larger index. |
| Jobs.JobStore.constructor | app/blender_runner.py:69-72 | Opening the table gives the rows and counter an earlier run left, with every id between 1 and the counter. |
| Jobs.JobStore.CreateJobRecord | app/blender_runner.py:75-82 | Inserts exactly one row, QUEUED with no error, under the id `counter + 1`. That id is larger than every existing id and is returned. Existing rows are unchanged. |
| Jobs.SetStatusRows | app/blender_runner.py:85-91 | The UPDATE changes only status and error, and only of the row with that id. It never adds or removes rows, and an unknown id changes nothing. |
| Jobs.JobStore.SetJobStatus | app/blender_runner.py:85-91 | `set_job_status` applies that UPDATE, with the error defaulting to none, and logs the write. |
| Jobs.ApplyWritesKeepsJobs | app/blender_runner.py:85-91 | Any sequence of status updates keeps the set of ids and what every row describes (name, basename, folder, path). |
| Jobs.AllDownFrom | app/server.py:63 | The selection holds only table rows, each as stored, in strictly descending id order, with ids between 1 and the counter. |
| Jobs.ActiveUpTo | app/blender_runner.py:96 | The selection holds only QUEUED or RUNNING rows, each as stored, in strictly ascending id order. |
| Jobs.ActiveUpToComplete | app/blender_runner.py:96 | Every QUEUED or RUNNING row is in the selection. |
| Jobs.JobStore.IterQueuedJobs | app/blender_runner.py:94-98 | `iter_queued_jobs` yields table rows that are QUEUED or RUNNING, in strictly ascending id order. |
| Jobs.JobStore.IterQueuedJobsComplete | app/blender_runner.py:94-98 | No QUEUED or RUNNING row is missing from what `iter_queued_jobs` yields. |
| Shell.Quote | app/blender_runner.py:105-106 | `shlex.quote` never gives the empty string, and a non-empty argument made only of safe characters is passed through unchanged. |
| Shell.LexQuote | app/blender_runner.py:105-106 | For any string at all, the shell reads a `shlex.quote`d argument back as exactly that string. |
| Shell.WordsOfQuoted | app/blender_runner.py:104-107 | Quoted arguments joined by blanks split back into exactly the original arguments. |
| Rendering.OutputPatternInFolder | app/blender_runner.py:103 | The frame pattern is the job folder's path under the jobs root, a `/`, and the final component `render_#####`; for a plain folder name the parent component is that folder. |
| Rendering.RenderCommandQuotesEachWord | app/blender_runner.py:104-107 | The render line is the nine argument words, each passed through `shlex.quote`, joined by single blanks. |
| Rendering.RenderCommandWords | app/blender_runner.py:103-107 | After quote removal the command line splits into exactly the words `<blender> -b <scene> -o <jobs root>/<folder>/render_##### -F PNG -f 1`, whatever the scene and folder paths contain. |
| Rendering.RenderFailure | app/blender_runner.py:120-122 | The render raises exactly when the process does not exit with code 0. |
| Rendering.ExitCodeInMessage | app/blender_runner.py:121-122 | For a non-zero code, the message is `Blender exited with code ` followed by the code, and the code can be read back from it. |
| Rendering.RunBlenderRender | app/blender_runner.py:101-122 | Builds that command line and marks the job RUNNING, with nothing else written. It raises the failure `RenderFailure` gives for the outcome. |
| Rendering.RenderWrites | app/blender_runner.py:41-44 | One iteration writes twice to the job: first RUNNING without error. Then it writes DONE exactly when the exit code is 0 and ERROR otherwise, with the failure's message as the error. |
| Rendering.ApplyRenderWrites | app/blender_runner.py:41-44 | After one iteration the job's row is finished (final status and error) and every other row is as before. |
| Rendering.RenderQueue.constructor | app/blender_runner.py:24-26 | A new queue is empty and not running. |
| Rendering.RenderQueue.Start | app/blender_runner.py:28-32 | Afterwards the queue is running. Only the first call spawns a worker, so there is never more than one. |
| Rendering.RenderQueue.Enqueue | app/blender_runner.py:34-35 | The job is appended at the back. |
| Rendering.RenderQueue.Step | app/blender_runner.py:38-46 | Takes exactly the head of the queue and makes exactly that iteration's two status writes. On an empty queue it changes nothing. No failure escapes. |
| Rendering.RenderQueue.Work | app/blender_runner.py:37-46 | The worker processes jobs in enqueue order, one per outcome. It goes on after failures, and the table is the result of all their writes. |
| Rendering.RunFinishes | app/blender_runner.py:37-46 | Over a run of the worker, every processed job ends finished according to its own outcome, whatever the others' outcomes. |
| Rendering.RunKeepsOthers | app/blender_runner.py:37-46 | A run of the worker leaves the rows of jobs it did not process untouched. |
| Rendering.AllSucceedAllDone | app/blender_runner.py:41-42 | When every render exits with 0, every processed job ends DONE with no error. |
| Rendering.RunIsForward | app/blender_runner.py:37-46 | Over a run, each job's statuses are exactly RUNNING then DONE or ERROR, each a forward step from QUEUED. A job never moves backwards. |
| Rendering.NoStatusesOf | app/blender_runner.py:37-46 | A job that is not processed gets no status write. |
| Server.BlendNameSuffix | app/server.py:35 | A name passes the upload check exactly when its last six characters are `.` then `b`, `l`, `e`, `n`, `d`, each letter in either case. |
| Server.BlendNameOf | app/server.py:35 | Every name of the form `<base>.blend` passes the upload check. |
| Server.BlendStem | app/server.py:38 | The stem of an accepted name is its final path component without the `.blend` suffix, in any case. The name `.blend` alone is its own stem. |
| Server.BaseNameOf | app/server.py:38 | The stem of `<base>.blend` is `base`, for a non-empty base without `/`. |
| Server.ChosenFolderNew | app/blender_runner.py:129 | The folder an upload gets does not exist under the jobs root: it is no entry there, and neither `.` nor `..`, even when the stem is one of those. |
| Server.DotStemUpload | app/server.py:38-39 | `..blend` has the stem `.`, which always exists, so its upload goes to `._2` when that name is free. |
| Server.TwoUploads | app/server.py:38-41 | Uploading `<base>.blend` twice into a root that holds neither gives the folders `base` and then `base_2`. |
| Server.App.constructor | app/server.py:21-26 | Startup: the table is as an earlier run left it, the queue is empty, exactly one worker is running, and the invariant holds. |
| Server.App.Upload | app/server.py:33-54 | A name that fails the check gets 400 `Only .blend files supported` and changes nothing. Otherwise, when probing for or creating the folder raises (a stem over the file system's name limit, a NUL byte, an unwritable jobs root), the answer is 500 and nothing changes. If not, the first free folder for the stem is created. If the file cannot be opened the folder stays empty; if a write fails after opening, the folder keeps the partial file. In both cases the answer is 500 and no row or queue entry is added. If the write succeeds, exactly one row and one queue entry are added for the same job, and the answer carries the new id and the folder. |
| Server.App.CreateJob | app/server.py:40-54 | Creates the folder, opens and stores the file, then records and enqueues the job under the next id. It answers `{ok: true, job_id, folder}`, or 500 when a step fails: with nothing created when the folder could not be made, otherwise with the folder kept and the file in it exactly when it was opened. |
| Server.App.Register | app/server.py:51-52 | The row is inserted first; the enqueued job carries the same id, name, basename, folder and path as the row. |
| Server.App.RenderNext | app/blender_runner.py:38-46 | A worker iteration over the service's state finishes the head job according to its outcome and keeps the service invariant, whatever the outcome. The counter is kept, and the write log grows by exactly that iteration's writes. The files the renderer wrote are added to the processed job's folder, and no other entry of the jobs directory changes. |
| Server.MkdirKeepsFolders | app/server.py:40-41 | Creating a fresh folder takes no folder away from this run's jobs or from the startup directories, and neither any job of this run nor any startup directory already used that folder. |
| Server.FoldersDistinct | app/server.py:39-41 | A job of this run shares its folder neither with another job of this run nor with an earlier job whose folder was a directory at startup. |
| Server.InsertKeepsInvariant | app/server.py:51-52 | Inserting the next id and enqueueing the job keeps the queue in step with the table and keeps the folder ownership. |
| Server.StepKeepsInvariant | app/blender_runner.py:39-44 | Finishing the head job keeps the rest of the queue in step with the table, with no job left RUNNING. |
| Server.FilesOf | app/server.py:71 | A folder's listing has exactly its regular files, in strictly increasing name order. |
| Server.FilesOfUnique | app/server.py:71 | That listing is the only one: any strictly increasing list of exactly the folder's regular files equals it. |
| Server.ListJobs | app/server.py:56-64 | Jobs are listed in strictly descending id order, each one the id, name, folder, status and error of a table row. |
| Server.ListJobsComplete | app/server.py:63-64 | Every row of the table is listed. |
| Server.ListFolders | app/server.py:66-73 | Only directories are listed, in strictly increasing name order, each with its regular files. |
| Server.ListFoldersComplete | app/server.py:69-72 | Every directory under the jobs root is listed. |
| Server.FolderDetail | app/server.py:75-81 | A folder that does not exist or is not a directory gets 404 `Folder not found`. Otherwise the answer is that folder's regular files in increasing order. `.` and `..` are the jobs root and its parent, which always exist. |

## Left out

- Concurrency: the `asyncio` task that runs the worker, the suspension of
  `asyncio.Queue.get` on an empty queue, and `task_done`. The worker is a
  sequential `Step`/`Work` over given render outcomes. `App.RenderNext`
  interleaves one iteration with uploads. An empty queue means "nothing
  happens".
- The render process: `create_subprocess_shell`, the streaming of its output to
  stdout, and waiting for it. The outcome of each render is a parameter: the
  shell's exit code (a missing Blender binary is the shell's 127), or the message
  of an error raised after the job was marked RUNNING, while starting the
  process or reading its output (a `ValueError` from `readline`, a
  `UnicodeDecodeError` from `decode`). Which files Blender writes into the job
  folder is a parameter of `App.RenderNext` too; `RenderQueue.Step` and
  `RenderQueue.Work`, which hold no directory, leave the files out.
- SQLite: connections, `executescript`, row factories and the `created_at`
  column. `created_at` is a clock value, so the `list_jobs` view omits it.
  Ids are unbounded integers; SQLite's 64-bit id limit is not modelled.
- The file system calls of the upload: the `exists()` probes, `mkdir` and the
  chunked write with `aiofiles`. How they went (all stored, probing or `mkdir`
  raised, open failed, a write failed after opening) is a parameter of
  `App.Upload`. A failure surfaces as the framework's 500 response; which
  names the file system refuses (length limits, NUL bytes, permissions) is not
  modelled, only that the call raised.
- Where the file lands when its name contains `/`. The model tracks the
  uploaded file in the job folder only for a plain name. A name with `/` is a
  path relative to the job folder; an absolute one replaces it (as in
  `Text.JoinPath`). The model does not follow such a file elsewhere.
- Path normalisation in joined paths: `pathlib` drops `.` segments and
  repeated or trailing `/` (it keeps `..`); `Text.JoinPath` concatenates.
  Unicode case mapping: `lower()` is modelled on ASCII letters only.
- The race between checking a folder name and creating the folder. The model
  is sequential.
- Restart recovery. Jobs left QUEUED or RUNNING by an earlier process are
  never re-enqueued: the startup hook (app/server.py:21-26) never calls
  `iter_queued_jobs`. `App.constructor` starts on an empty queue, and rows
  from earlier runs stay as they are.
- The download endpoint, the HTML index and the static mount: they serve file
  contents and are not part of the job logic. Environment-variable
  configuration is replaced by the constructor's `jobsRoot` and `blenderBin`.
- The parent directory of the jobs root, which `folder_detail("..")` lists, is
  outside the modelled state. Its regular files are a parameter of
  `Server.FolderDetail`.
- Shell behaviour beyond quote removal and blank-separated words (expansions,
  operators, escapes outside double quotes). `Shell.Words` answers None for
  lines that would need them. Quoted arguments never do. `sh` also reads a bare
  first word as an assignment when it has the form `NAME=value`, or as a
  reserved word such as `if`; `shlex.quote` leaves such words bare, so a
  `BLENDER_BIN` of that shape does not run as a command. The model does not
  capture this: `Rendering.RenderCommandWords` gives the words after quote
  removal.
- Jobs.JobStore.SetJobStatus: the status column accepts any string; the model's
  `Status` has only QUEUED, RUNNING, DONE and ERROR, the only values the code
  writes, so other statuses cannot be represented.
- Jobs.JobStore.SetJobStatus, Jobs.JobStore.CreateJobRecord: table writes
  never fail in the model. In SQLite they can (for example "database is
  locked"), and the model does not capture what follows.
- Rendering.RenderQueue.Step: when the RUNNING write (app/blender_runner.py:108)
  or the DONE write (app/blender_runner.py:42) raises, the code records ERROR
  with the database's message instead, which the model does not capture. When
  the ERROR write (app/blender_runner.py:44) raises, the exception leaves the
  worker task and the only worker stops for good.
- Rendering.RenderQueue.Work: after such a stop no further job is processed,
  while the model's worker always goes on.
- Server.App.Upload: when inserting the row (app/server.py:51) raises, the
  answer is 500 after the file was stored, with no row and no queue entry; the
  model always inserts the row once the file is stored.
- Server.FoldersDistinct: a folder of an earlier run's job is protected only
  while its directory exists. `unique_folder_name` probes the directories, not
  the table, so once such a directory is gone its name can be chosen again,
  and two rows then share a folder.
- app/ui is not part of this model.
