/**
  * The HTTP service: startup, the upload handler that turns a `.blend` file into
  * a job (validate, name a folder, create it, store the file, insert the record,
  * enqueue), and the read handlers over the job table and the jobs directory.
  * The jobs directory is abstracted as a map from the names directly under it
  * to what they are.
  */
module Server {
  import opened Text
  import opened FolderNaming
  import opened Jobs
  import opened Rendering

  /** What a name inside a job folder is. */
  datatype Kind = RegularFile | Subdirectory

  /** What a name directly under the jobs root is: a file, or a directory with its entries. */
  datatype Entry = File | Dir(children: map<string, Kind>)

  /** A handler's answer: the JSON body, or an `HTTPException` with its status and detail. */
  datatype Response<T> = Ok(body: T) | HttpError(status: int, detail: string)

  const UploadRejected := "Only .blend files supported"
  const FolderNotFound := "Folder not found"
  const InternalError := "Internal Server Error"

  /**
    * How the upload's file-system steps went: the bytes were all stored; probing
    * for or creating the job folder raised (a stem longer than the file system
    * allows, a NUL byte, a jobs root that cannot be written), so nothing was
    * created; opening the file failed, so none was created; or the file was
    * created and a later write failed, leaving it partial.
    */
  datatype StoreOutcome = Stored | FolderFailed | OpenFailed | WriteFailed

  /** The job folder right after the upload handler has tried to store `filename` in it. */
  function JobFolder(filename: string, write: StoreOutcome): Entry
    requires write != FolderFailed
  {
    Dir(if write != OpenFailed && '/' !in filename then map[filename := RegularFile] else map[])
  }

  /** `{"ok": true, "job_id": ..., "folder": ...}` */
  datatype UploadBody = UploadBody(ok: bool, jobId: int, folder: string)

  /** One element of the `list_jobs` answer. */
  datatype JobView = JobView(id: int, name: string, folder: string, status: Status, error: Option<string>)

  /** `{"folder": ..., "files": [...]}` */
  datatype FolderListing = FolderListing(folder: string, files: seq<string>)

  /** The upload check: the file name, lower-cased, ends in `.blend`. */
  predicate IsBlendName(filename: string) {
    EndsWith(Lower(filename), ".blend")
  }

  /** A lower-case letter `lo` is what `lower()` gives for it and for its upper-case form `up`, and for nothing else. */
  lemma LowerCharIs(c: char, lo: char, up: char)
    requires 'a' <= lo <= 'z' && up as int == lo as int - 32
    ensures LowerChar(c) == lo <==> c == lo || c == up
  {
  }

  /** The name is accepted exactly when it ends in `.blend`, each letter in either case. */
  lemma BlendNameSuffix(filename: string)
    ensures var n := |filename|;
      IsBlendName(filename) <==>
        n >= 6 && filename[n - 6] == '.' &&
        (filename[n - 5] == 'b' || filename[n - 5] == 'B') &&
        (filename[n - 4] == 'l' || filename[n - 4] == 'L') &&
        (filename[n - 3] == 'e' || filename[n - 3] == 'E') &&
        (filename[n - 2] == 'n' || filename[n - 2] == 'N') &&
        (filename[n - 1] == 'd' || filename[n - 1] == 'D')
  {
    var n := |filename|;
    var l := Lower(filename);
    if n >= 6 {
      var t := l[n - 6..];
      assert |t| == 6;
      assert t == ".blend" <==> t[0] == '.' && t[1] == 'b' && t[2] == 'l' && t[3] == 'e' && t[4] == 'n' && t[5] == 'd';
      assert LowerChar(filename[n - 6]) == '.' <==> filename[n - 6] == '.';
      LowerCharIs(filename[n - 5], 'b', 'B');
      LowerCharIs(filename[n - 4], 'l', 'L');
      LowerCharIs(filename[n - 3], 'e', 'E');
      LowerCharIs(filename[n - 2], 'n', 'N');
      LowerCharIs(filename[n - 1], 'd', 'D');
    }
  }

  lemma BlendNameShape(filename: string)
    requires IsBlendName(filename)
    ensures |filename| >= 6
    ensures forall k :: |filename| - 6 <= k < |filename| ==> filename[k] != '/'
    ensures filename[|filename| - 6] == '.'
    ensures forall k :: |filename| - 5 <= k < |filename| ==> filename[k] != '.'
  {
    var l := Lower(filename);
    forall k | |filename| - 6 <= k < |filename|
      ensures filename[k] != '/'
      ensures k > |filename| - 6 ==> filename[k] != '.'
    {
      assert l[k] == ".blend"[k - (|filename| - 6)];
    }
    assert l[|filename| - 6] == '.';
  }

  /** `Path(filename).stem` of an accepted file name. */
  function BaseName(filename: string): string
    requires IsBlendName(filename)
  {
    BlendNameShape(filename);
    Stem(filename)
  }

  /**
    * The stem drops exactly the `.blend` suffix (in whatever case it was written),
    * unless the file is named just `.blend`, whose stem is the whole name.
    */
  lemma BlendStem(filename: string)
    requires IsBlendName(filename)
    ensures var name := FinalComponent(filename);
      |name| >= 6 &&
      BaseName(filename) == if |name| > 6 then name[..|name| - 6] else name
  {
    BlendNameShape(filename);
    FinalComponentSuffix(filename, 6);
    var name := FinalComponent(filename);
    var n := |filename|;
    var tail := name[|name| - 6..];
    assert tail == filename[n - 6..];
    assert name[|name| - 6] == tail[0] == filename[n - 6];
    forall k | |name| - 5 <= k < |name| ensures name[k] != '.' {
      assert name[k] == tail[k - (|name| - 6)] == filename[n - 6 + (k - (|name| - 6))];
    }
    LastIndexAt(name, '.', |name| - 6);
  }

  /** Any name followed by `.blend` is accepted. */
  lemma BlendNameOf(base: string)
    ensures IsBlendName(base + ".blend")
  {
    var f := base + ".blend";
    var n := |base|;
    var l := Lower(f);
    forall k | 0 <= k < 6 ensures l[n + k] == ".blend"[k] {
      assert f[n + k] == ".blend"[k];
    }
    assert l[n..] == ".blend";
  }

  /** The stem of `<base>.blend` is `base`, for a base name without '/'. */
  lemma BaseNameOf(base: string)
    requires base != [] && '/' !in base
    ensures IsBlendName(base + ".blend") && BaseName(base + ".blend") == base
  {
    BlendNameOf(base);
    var f := base + ".blend";
    assert '/' !in f by {
      forall k | 0 <= k < |f| ensures f[k] != '/' {
        if k < |base| { assert f[k] == base[k]; } else { assert f[k] == ".blend"[k - |base|]; }
      }
    }
    FinalComponentOfName(f);
    BlendStem(f);
    assert f[..|f| - 6] == base;
  }

  /** The names under the jobs root that `exists()` reports: its entries, and "." and ".." which always exist. */
  function Occupied(root: map<string, Entry>): (names: set<string>)
    ensures forall n :: n in names <==> n in root || n == "." || n == ".."
  {
    root.Keys + {".", ".."}
  }

  /** The folder an accepted upload gets, given the jobs root before it. */
  ghost function ChosenFolder(root: map<string, Entry>, filename: string): string
    requires IsBlendName(filename)
  {
    var base := BaseName(filename);
    Candidate(base, FreeIndex(Occupied(root), base))
  }

  /** The job an accepted upload records and enqueues under `id`. */
  ghost function UploadedJob(id: int, filename: string, root: map<string, Entry>, jobsRoot: string): Job
    requires IsBlendName(filename)
  {
    var folder := ChosenFolder(root, filename);
    Job(id, filename, BaseName(filename), folder, JoinPath(JoinPath(jobsRoot, folder), filename))
  }

  /**
    * Uploading `<base>.blend` twice into a root holding neither `base` nor `base_2`
    * gives the folders `base` and then `base_2` (`scene`, then `scene_2`).
    */
  lemma TwoUploads(root: map<string, Entry>, base: string, first: Entry)
    requires base != [] && '/' !in base && base != "." && base != ".."
    requires base !in root && base + "_2" !in root
    ensures IsBlendName(base + ".blend")
    ensures ChosenFolder(root, base + ".blend") == base
    ensures ChosenFolder(root[base := first], base + ".blend") == base + "_2"
  {
    BaseNameOf(base);
    assert IsFirstFree(Occupied(root), base, 1);
    FirstFreeUnique(Occupied(root), base, 1, FreeIndex(Occupied(root), base));
    var after := root[base := first];
    assert Decimal(2) == "2";
    var second := Candidate(base, 2);
    assert second == base + "_2";
    assert second != "." && second != ".." by {
      assert |second| >= 3;
    }
    assert IsFirstFree(Occupied(after), base, 2);
    FirstFreeUnique(Occupied(after), base, 2, FreeIndex(Occupied(after), base));
  }

  /**
    * The folder an upload gets is a name that does not exist under the jobs root:
    * no file or directory there, and neither `.` nor `..`, which always exist.
    */
  lemma ChosenFolderNew(root: map<string, Entry>, filename: string)
    requires IsBlendName(filename)
    ensures var f := ChosenFolder(root, filename);
      f !in root && f != "." && f != ".."
  {
    var base := BaseName(filename);
    var n := FreeIndex(Occupied(root), base);
    assert Candidate(base, n) !in Occupied(root);
  }

  /** `PurePath("..blend").stem` is `.`: the last dot starts the suffix, the first one stays. */
  lemma DotStem()
    ensures IsBlendName("..blend") && BaseName("..blend") == "."
  {
    var f := "..blend";
    BlendNameOf(".");
    assert "." + ".blend" == f;
    FinalComponentOfName(f);
    BlendStem(f);
    assert f[..1] == ".";
  }

  /** Probing for the stem `.` skips `.` itself, which always exists, and stops at a free `._2`. */
  lemma DotProbe(taken: set<string>)
    requires "." in taken && "._2" !in taken
    ensures FreeIndex(taken, ".") == 2 && Candidate(".", 2) == "._2"
  {
    assert Decimal(2) == "2";
    assert Candidate(".", 2) == "._2";
    assert IsFirstFree(taken, ".", 2);
    FirstFreeUnique(taken, ".", 2, FreeIndex(taken, "."));
  }

  /**
    * `..blend` has the stem `.`, which always exists, so its upload goes to `._2`
    * when that name is free.
    */
  lemma DotStemUpload(root: map<string, Entry>)
    requires "._2" !in root
    ensures IsBlendName("..blend") && BaseName("..blend") == "."
    ensures ChosenFolder(root, "..blend") == "._2"
  {
    DotStem();
    DotStemFolder(root, "..blend");
  }

  lemma DotStemFolder(root: map<string, Entry>, filename: string)
    requires IsBlendName(filename) && BaseName(filename) == "." && "._2" !in root
    ensures ChosenFolder(root, filename) == "._2"
  {
    DotProbe(Occupied(root));
  }

  // ---------------------------------------------------------------------------
  // Listings
  // ---------------------------------------------------------------------------

  /** A list comprehension's `if`: the names that pass `keep`, in their original order. */
  function Select(names: seq<string>, keep: string -> bool): (r: seq<string>)
    ensures forall x :: x in r <==> x in names && keep(x)
    ensures Increasing(names) ==> Increasing(r)
    decreases |names|
  {
    if names == [] then []
    else
      var rest := Select(names[1..], keep);
      assert Increasing(names) ==> forall x :: x in rest ==> Less(names[0], x) by {
        if Increasing(names) {
          forall x | x in rest ensures Less(names[0], x) {
            var j :| 0 <= j < |names[1..]| && names[1..][j] == x;
            assert names[j + 1] == x;
          }
        }
      }
      if keep(names[0]) then [names[0]] + rest else rest
  }

  /** `[f.name for f in sorted(p.iterdir()) if f.is_file()]` for a directory with these entries. */
  function FilesOf(children: map<string, Kind>): (files: seq<string>)
    ensures Increasing(files)
    ensures forall x :: x in files <==> x in children && children[x] == RegularFile
  {
    Select(SortedNames(children.Keys), x => x in children && children[x] == RegularFile)
  }

  /** The sorted list of a folder's regular files is unique: any increasing list of exactly those names is `FilesOf`. */
  lemma FilesOfUnique(children: map<string, Kind>, files: seq<string>)
    requires Increasing(files)
    requires forall x :: x in files <==> x in children && children[x] == RegularFile
    ensures files == FilesOf(children)
  {
    IncreasingUnique(files, FilesOf(children));
  }

  /** The regular files directly under the jobs root. */
  function RootFiles(root: map<string, Entry>): (files: seq<string>)
    ensures Increasing(files)
    ensures forall x :: x in files <==> x in root && root[x] == File
  {
    Select(SortedNames(root.Keys), x => x in root && root[x] == File)
  }

  /** The view of a row that `list_jobs` selects: id, name, folder, status, error. */
  function View(j: StoredJob): JobView {
    JobView(j.id, j.row.name, j.row.folder, j.row.status, j.row.error)
  }

  /** The row `create_job_record` inserts for a job. */
  function Record(job: Job): JobRow {
    JobRow(job.name, job.basename, job.folder, job.blendPath, Queued, None)
  }

  /** The first `firstId` rows predate this run; the queue holds exactly this run's QUEUED jobs, oldest first. */
  predicate QueueMirrorsTable(q: seq<Job>, rows: map<int, JobRow>, firstId: int) {
    (forall i :: 0 <= i < |q| ==> q[i].id > firstId && q[i].id in rows && rows[q[i].id] == Record(q[i])) &&
    (forall i, j :: 0 <= i < j < |q| ==> q[i].id < q[j].id) &&
    (forall id :: id in rows && id > firstId && rows[id].status == Queued ==>
       exists i :: 0 <= i < |q| && q[i].id == id)
  }

  /**
    * Every job of this run has a directory under the jobs root as its folder, and
    * `owner` names the job each such folder belongs to.
    */
  predicate FoldersOwned(rows: map<int, JobRow>, root: map<string, Entry>, owner: map<string, int>, firstId: int) {
    forall id :: id in rows && id > firstId ==>
      rows[id].folder in root && root[rows[id].folder].Dir? &&
      rows[id].folder in owner && owner[rows[id].folder] == id
  }

  /**
    * The directories found under the jobs root at startup are never removed, and
    * none of them is the folder of a job of this run.
    */
  predicate StartFoldersKept(root: map<string, Entry>, owner: map<string, int>, startDirs: set<string>) {
    (forall n :: n in startDirs ==> n in root && root[n].Dir?) &&
    (forall f :: f in owner ==> f !in startDirs)
  }

  /**
    * A job of this run shares its folder with no other job: neither with another job
    * of this run, nor with a job of an earlier run whose folder was there at startup.
    */
  lemma FoldersDistinct(rows: map<int, JobRow>, root: map<string, Entry>, owner: map<string, int>, firstId: int,
                        startDirs: set<string>, a: int, b: int)
    requires FoldersOwned(rows, root, owner, firstId) && StartFoldersKept(root, owner, startDirs)
    requires a in rows && b in rows && firstId < a && a != b
    requires firstId < b || rows[b].folder in startDirs
    ensures rows[a].folder != rows[b].folder
  {
    if b <= firstId {
      assert rows[a].folder in owner;
    }
  }

  /** The worker finishes what it starts: no job of this run is left RUNNING between iterations. */
  predicate NoneRunning(rows: map<int, JobRow>, firstId: int) {
    forall id :: id in rows && id > firstId ==> rows[id].status != Running
  }

  /** Creating a folder that did not exist takes nothing away from the jobs that own folders. */
  lemma MkdirKeepsFolders(rows: map<int, JobRow>, root: map<string, Entry>, owner: map<string, int>, firstId: int,
                          startDirs: set<string>, folder: string, e: Entry)
    requires FoldersOwned(rows, root, owner, firstId) && StartFoldersKept(root, owner, startDirs)
    requires folder !in root && e.Dir?
    ensures FoldersOwned(rows, root[folder := e], owner, firstId) && StartFoldersKept(root[folder := e], owner, startDirs)
    ensures folder !in startDirs
    ensures forall id :: id in rows && id > firstId ==> rows[id].folder != folder
  {
  }

  /**
    * Inserting a job under the next id, in a folder of its own, and enqueueing it
    * keeps the queue in step with the table.
    */
  lemma InsertKeepsInvariant(q: seq<Job>, rows: map<int, JobRow>, root: map<string, Entry>, owner: map<string, int>,
                             firstId: int, lastId: int, job: Job)
    requires QueueMirrorsTable(q, rows, firstId) && FoldersOwned(rows, root, owner, firstId) && NoneRunning(rows, firstId)
    requires forall id :: id in rows ==> id <= lastId
    requires firstId <= lastId && job.id == lastId + 1
    requires job.folder in root && root[job.folder].Dir?
    requires forall id :: id in rows && id > firstId ==> rows[id].folder != job.folder
    ensures QueueMirrorsTable(q + [job], rows[job.id := Record(job)], firstId)
    ensures FoldersOwned(rows[job.id := Record(job)], root, owner[job.folder := job.id], firstId)
    ensures NoneRunning(rows[job.id := Record(job)], firstId)
  {
    InsertKeepsQueue(q, rows, firstId, lastId, job);
  }

  lemma InsertKeepsQueue(q: seq<Job>, rows: map<int, JobRow>, firstId: int, lastId: int, job: Job)
    requires QueueMirrorsTable(q, rows, firstId)
    requires forall id :: id in rows ==> id <= lastId
    requires firstId <= lastId && job.id == lastId + 1
    ensures QueueMirrorsTable(q + [job], rows[job.id := Record(job)], firstId)
  {
    var rows' := rows[job.id := Record(job)];
    var q' := q + [job];
    forall id | id in rows' && id > firstId && rows'[id].status == Queued
      ensures exists i :: 0 <= i < |q'| && q'[i].id == id
    {
      if id == job.id {
        assert q'[|q|].id == id;
      } else {
        var i :| 0 <= i < |q| && q[i].id == id;
        assert q'[i].id == id;
      }
    }
    assert forall i :: 0 <= i < |q| ==> q'[i] == q[i];
  }

  /**
    * Finishing the job at the head of the queue, whatever its outcome, keeps the
    * queue in step with the table and leaves no job RUNNING.
    */
  lemma StepKeepsInvariant(q: seq<Job>, rows: map<int, JobRow>, root: map<string, Entry>, owner: map<string, int>,
                           firstId: int, outcome: RenderOutcome)
    requires QueueMirrorsTable(q, rows, firstId) && FoldersOwned(rows, root, owner, firstId) && NoneRunning(rows, firstId)
    requires q != []
    ensures q[0].id in rows
    ensures q[0].folder in root && root[q[0].folder].Dir?
    ensures var rows' := rows[q[0].id := Finished(rows[q[0].id], outcome)];
      QueueMirrorsTable(q[1..], rows', firstId) && FoldersOwned(rows', root, owner, firstId) && NoneRunning(rows', firstId)
  {
    StepKeepsQueue(q, rows, firstId, outcome);
  }

  /** The job folder after the renderer has written `produced` into it. */
  function WithOutput(root: map<string, Entry>, folder: string, produced: map<string, Kind>): map<string, Entry>
    requires folder in root && root[folder].Dir?
  {
    root[folder := Dir(root[folder].children + produced)]
  }

  /** Files written into a job folder take no folder away from any job or from the startup directories. */
  lemma OutputKeepsFolders(rows: map<int, JobRow>, root: map<string, Entry>, owner: map<string, int>, firstId: int,
                           startDirs: set<string>, folder: string, produced: map<string, Kind>)
    requires FoldersOwned(rows, root, owner, firstId) && StartFoldersKept(root, owner, startDirs)
    requires folder in root && root[folder].Dir?
    ensures WithOutput(root, folder, produced).Keys == root.Keys
    ensures FoldersOwned(rows, WithOutput(root, folder, produced), owner, firstId)
    ensures StartFoldersKept(WithOutput(root, folder, produced), owner, startDirs)
  {
  }

  lemma StepKeepsQueue(q: seq<Job>, rows: map<int, JobRow>, firstId: int, outcome: RenderOutcome)
    requires QueueMirrorsTable(q, rows, firstId)
    requires q != []
    ensures q[0].id in rows
    ensures QueueMirrorsTable(q[1..], rows[q[0].id := Finished(rows[q[0].id], outcome)], firstId)
  {
    var id0 := q[0].id;
    var rows' := rows[id0 := Finished(rows[id0], outcome)];
    var q' := q[1..];
    forall i | 0 <= i < |q'| ensures q'[i].id != id0 && q'[i] == q[i + 1] {
      assert q[0].id < q[i + 1].id;
    }
    forall id | id in rows' && id > firstId && rows'[id].status == Queued
      ensures exists i :: 0 <= i < |q'| && q'[i].id == id
    {
      assert id != id0;
      var k :| 0 <= k < |q| && q[k].id == id;
      assert k != 0 && q'[k - 1].id == id;
    }
  }

  /** The service: the jobs directory, the job table and the render queue. */
  class App {
    var root: map<string, Entry>
    const store: JobStore
    const queue: RenderQueue
    const jobsRoot: string
    const blenderBin: string
    /** The AUTOINCREMENT counter at startup: rows with larger ids were created by this run. */
    ghost const firstId: nat
    /** The job of this run that each job folder was created for. */
    ghost var owner: map<string, int>
    /** The directories under the jobs root at startup. */
    ghost const startDirs: set<string>

    ghost predicate Valid()
      reads this, store, queue
    {
      store.Valid() && queue.Valid() && queue.running && firstId <= store.lastId &&
      QueueMirrorsTable(queue.q, store.rows, firstId) &&
      FoldersOwned(store.rows, root, owner, firstId) &&
      StartFoldersKept(root, owner, startDirs) &&
      NoneRunning(store.rows, firstId)
    }

    /**
      * `startup`: the jobs root exists, the table is opened as an earlier run left
      * it, and the worker is started on an empty queue.
      */
    constructor (existing: map<string, Entry>, persisted: map<int, JobRow>, counter: nat, jobsRoot: string, blenderBin: string)
      requires forall id :: id in persisted ==> 1 <= id <= counter
      ensures Valid()
      ensures root == existing && store.rows == persisted && store.lastId == counter && firstId == counter
      ensures queue.q == [] && queue.workers == 1
      ensures startDirs == set n | n in existing && existing[n].Dir?
      ensures fresh(store) && fresh(queue)
    {
      root := existing;
      store := new JobStore(persisted, counter);
      var rq := new RenderQueue();
      rq.Start();
      queue := rq;
      this.jobsRoot := jobsRoot;
      this.blenderBin := blenderBin;
      firstId := counter;
      owner := map[];
      startDirs := set n | n in existing && existing[n].Dir?;
    }

    /** `upload_blend`. `write` is how storing the uploaded bytes at the job's path went. */
    method Upload(filename: string, write: StoreOutcome) returns (r: Response<UploadBody>)
      requires Valid()
      modifies this, store, queue
      ensures Valid()
      ensures !IsBlendName(filename) ==> r == HttpError(400, UploadRejected)
      ensures !IsBlendName(filename) ==>
        root == old(root) && store.rows == old(store.rows) && store.lastId == old(store.lastId) && queue.q == old(queue.q)
      ensures IsBlendName(filename) ==> ChosenFolder(old(root), filename) !in old(root)
      ensures IsBlendName(filename) && write == FolderFailed ==> root == old(root)
      ensures IsBlendName(filename) && write != FolderFailed ==>
        root == old(root)[ChosenFolder(old(root), filename) := JobFolder(filename, write)]
      ensures IsBlendName(filename) && write != Stored ==> r == HttpError(500, InternalError)
      ensures IsBlendName(filename) && write != Stored ==>
        store.rows == old(store.rows) && store.lastId == old(store.lastId) && queue.q == old(queue.q)
      ensures IsBlendName(filename) && write == Stored ==>
        store.lastId == old(store.lastId) + 1 && r == Ok(UploadBody(true, store.lastId, ChosenFolder(old(root), filename)))
      ensures IsBlendName(filename) && write == Stored ==>
        store.rows == old(store.rows)[store.lastId := Record(UploadedJob(store.lastId, filename, old(root), jobsRoot))] &&
        queue.q == old(queue.q) + [UploadedJob(store.lastId, filename, old(root), jobsRoot)]
      ensures store.writes == old(store.writes)
    {
      if !EndsWith(Lower(filename), ".blend") {
        return HttpError(400, UploadRejected);
      }
      var basename := BaseName(filename);
      var folder := UniqueFolderName(Occupied(root), basename);
      r := CreateJob(filename, basename, folder, write);
    }

    /**
      * The rest of `upload_blend` once the folder name is chosen: create the folder,
      * write the file into it, insert the record, enqueue the job and answer with
      * its id. When probing for or creating the folder raised, the handler stops with
      * a 500 and nothing is created. When storing the file fails it stops with a 500
      * too; the folder stays behind, holding the partial file if it had been opened.
      */
    method CreateJob(filename: string, basename: string, folder: string, write: StoreOutcome)
      returns (r: Response<UploadBody>)
      requires Valid() && folder !in root
      modifies this, store, queue
      ensures Valid()
      ensures write == FolderFailed ==> root == old(root)
      ensures write != FolderFailed ==> root == old(root)[folder := JobFolder(filename, write)]
      ensures write != Stored ==> r == HttpError(500, InternalError)
      ensures write != Stored ==> store.rows == old(store.rows) && store.lastId == old(store.lastId) && queue.q == old(queue.q)
      ensures write == Stored ==> store.lastId == old(store.lastId) + 1 && r == Ok(UploadBody(true, store.lastId, folder))
      ensures write == Stored ==>
        var job := Job(store.lastId, filename, basename, folder, JoinPath(JoinPath(jobsRoot, folder), filename));
        store.rows == old(store.rows)[store.lastId := Record(job)] && queue.q == old(queue.q) + [job]
      ensures store.writes == old(store.writes)
    {
      if write == FolderFailed {
        return HttpError(500, InternalError);
      }
      MkdirKeepsFolders(store.rows, root, owner, firstId, startDirs, folder, Dir(map[]));
      root := root[folder := Dir(map[])];
      var blendPath := JoinPath(JoinPath(jobsRoot, folder), filename);
      if write != OpenFailed && '/' !in filename {
        root := root[folder := Dir(map[filename := RegularFile])];
      }
      if write != Stored {
        return HttpError(500, InternalError);
      }
      var id := Register(filename, basename, folder, blendPath);
      r := Ok(UploadBody(true, id, folder));
    }

    /** `create_job_record` followed by `enqueue`, for a job whose folder was just created. */
    method Register(filename: string, basename: string, folder: string, blendPath: string) returns (id: int)
      requires Valid() && folder in root && root[folder].Dir? && folder !in startDirs
      requires forall k :: k in store.rows && k > firstId ==> store.rows[k].folder != folder
      modifies this, store, queue
      ensures Valid() && root == old(root)
      ensures id == old(store.lastId) + 1 && store.lastId == id
      ensures var job := Job(id, filename, basename, folder, blendPath);
        store.rows == old(store.rows)[id := Record(job)] && queue.q == old(queue.q) + [job]
      ensures store.writes == old(store.writes)
    {
      var job := Job(store.lastId + 1, filename, basename, folder, blendPath);
      InsertKeepsInvariant(queue.q, store.rows, root, owner, firstId, store.lastId, job);
      owner := owner[folder := job.id];
      ghost var rows0, q0 := store.rows, queue.q;
      id := store.CreateJobRecord(filename, basename, folder, blendPath);
      assert store.rows == rows0[job.id := Record(job)];
      queue.Enqueue(job);
    }

    /**
      * One iteration of the worker over the service's own queue and table: the
      * oldest queued job is rendered with the given outcome and ends DONE or ERROR
      * accordingly, and `produced` are the files the renderer wrote into the job's
      * folder (the frames `render_#####` stands for; none at all when it failed
      * early). The service's invariant is kept whatever the outcome.
      */
    method RenderNext(outcome: RenderOutcome, produced: map<string, Kind>) returns (processed: Option<Job>)
      requires Valid()
      modifies this, store, queue
      ensures Valid()
      ensures processed == if old(queue.q) == [] then None else Some(old(queue.q)[0])
      ensures queue.q == if old(queue.q) == [] then old(queue.q) else old(queue.q)[1..]
      ensures processed.Some? ==> store.rows == old(store.rows)[processed.value.id :=
        Finished(old(store.rows)[processed.value.id], outcome)]
      ensures processed.None? ==> store.rows == old(store.rows)
      ensures store.lastId == old(store.lastId)
      ensures store.writes == old(store.writes) + StepWrites(old(queue.q), outcome)
      ensures processed.Some? ==> var f := processed.value.folder;
        f in old(root) && old(root)[f].Dir? && root == old(root)[f := Dir(old(root)[f].children + produced)]
      ensures processed.None? ==> root == old(root)
    {
      ghost var q0, rows0 := queue.q, store.rows;
      if q0 != [] {
        StepKeepsInvariant(q0, rows0, root, owner, firstId, outcome);
        ApplyRenderWrites(rows0, q0[0].id, outcome);
      }
      processed := queue.Step(store, blenderBin, jobsRoot, outcome);
      if processed.Some? {
        var folder := processed.value.folder;
        OutputKeepsFolders(store.rows, root, owner, firstId, startDirs, folder, produced);
        root := WithOutput(root, folder, produced);
      }
    }
  }

  // ---------------------------------------------------------------------------
  // Read handlers, as queries over the table and the jobs directory
  // ---------------------------------------------------------------------------

  /** `list_jobs` over the table whose AUTOINCREMENT counter is `lastId`: every row, newest first. */
  function ListJobs(rows: map<int, JobRow>, lastId: int): (r: seq<JobView>)
    ensures forall i, j :: 0 <= i < j < |r| ==> r[i].id > r[j].id
    ensures forall i :: 0 <= i < |r| ==> r[i].id in rows && r[i] == View(StoredJob(r[i].id, rows[r[i].id]))
  {
    var all := AllDownFrom(rows, lastId);
    seq(|all|, i requires 0 <= i < |all| => View(all[i]))
  }

  /** No row is missing from `list_jobs`: every id up to the counter is listed. */
  lemma ListJobsComplete(rows: map<int, JobRow>, lastId: int, id: int)
    requires forall k :: k in rows ==> 1 <= k <= lastId
    requires id in rows
    ensures exists i :: 0 <= i < |ListJobs(rows, lastId)| && ListJobs(rows, lastId)[i].id == id
  {
    AllDownFromComplete(rows, lastId, id);
    var all := AllDownFrom(rows, lastId);
    var i :| 0 <= i < |all| && all[i].id == id;
    assert ListJobs(rows, lastId)[i].id == id;
  }

  /** The listing of each of the given directories, in the given order. */
  function Listings(dirs: seq<string>, root: map<string, Entry>): (r: seq<FolderListing>)
    requires forall d :: d in dirs ==> d in root && root[d].Dir?
    ensures |r| == |dirs|
    ensures forall i :: 0 <= i < |r| ==> r[i].folder == dirs[i] && r[i].files == FilesOf(root[dirs[i]].children)
    decreases |dirs|
  {
    if dirs == [] then []
    else [FolderListing(dirs[0], FilesOf(root[dirs[0]].children))] + Listings(dirs[1..], root)
  }

  /** The directories under the jobs root, by name. */
  function DirNames(root: map<string, Entry>): (dirs: seq<string>)
    ensures Increasing(dirs)
    ensures forall x :: x in dirs <==> x in root && root[x].Dir?
  {
    Select(SortedNames(root.Keys), x => x in root && root[x].Dir?)
  }

  /** `list_folders`: the directories under the jobs root by name, each with its regular files by name. */
  function ListFolders(root: map<string, Entry>): (r: seq<FolderListing>)
    ensures forall i, j :: 0 <= i < j < |r| ==> Less(r[i].folder, r[j].folder)
    ensures forall i :: 0 <= i < |r| ==>
      r[i].folder in root && root[r[i].folder].Dir? && r[i].files == FilesOf(root[r[i].folder].children)
  {
    Listings(DirNames(root), root)
  }

  /** Every directory under the jobs root is listed. */
  lemma ListFoldersComplete(root: map<string, Entry>, name: string)
    requires name in root && root[name].Dir?
    ensures exists i :: 0 <= i < |ListFolders(root)| && ListFolders(root)[i].folder == name
  {
    var dirs := DirNames(root);
    var i :| 0 <= i < |dirs| && dirs[i] == name;
    assert ListFolders(root)[i].folder == name;
  }

  /**
    * `folder_detail`: the regular files of the folder by name, or 404 when it does
    * not exist or is not a directory. The route's parameter is one non-empty path
    * segment; "." names the jobs root itself and ".." its parent, whose regular
    * files `parentFiles` gives.
    */
  function FolderDetail(root: map<string, Entry>, parentFiles: set<string>, folder: string): (r: Response<FolderListing>)
    requires folder != "" && '/' !in folder
    ensures r.Ok? ==> r.body.folder == folder && Increasing(r.body.files)
    ensures folder != "." && folder != ".." ==>
      (r.Ok? <==> folder in root && root[folder].Dir?) &&
      (r.Ok? ==> forall x :: x in r.body.files <==> x in root[folder].children && root[folder].children[x] == RegularFile) &&
      (r.HttpError? ==> r == HttpError(404, FolderNotFound))
    ensures folder == "." ==> r.Ok? && forall x :: x in r.body.files <==> x in root && root[x] == File
    ensures folder == ".." ==> r.Ok? && forall x :: x in r.body.files <==> x in parentFiles
  {
    if folder == "." then Ok(FolderListing(folder, RootFiles(root)))
    else if folder == ".." then Ok(FolderListing(folder, SortedNames(parentFiles)))
    else if folder in root && root[folder].Dir? then Ok(FolderListing(folder, FilesOf(root[folder].children)))
    else HttpError(404, FolderNotFound)
  }
}
