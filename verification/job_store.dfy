/**
  * The job store: the `jobs` table of the service's database. Each row is a
  * job keyed by an AUTOINCREMENT id; it is inserted with status QUEUED and
  * afterwards only its status and error change. The table is modelled as a
  * map from id to row plus the AUTOINCREMENT counter.
  */
module Jobs {
  import opened Text

  datatype Status = Queued | Running | Done | Error

  /** A row of the `jobs` table, without its id (the key it is stored under). */
  datatype JobRow = JobRow(
    name: string,
    basename: string,
    folder: string,
    blendPath: string,
    status: Status,
    error: Option<string>)

  /** A row read back together with its id. */
  datatype StoredJob = StoredJob(id: int, row: JobRow)

  /** One `set_job_status` call, as an observer of the table sees it. */
  datatype StatusWrite = StatusWrite(id: int, status: Status, error: Option<string>)

  predicate IsActive(s: Status) {
    s == Queued || s == Running
  }

  /** Two rows describe the same job: they differ at most in status and error. */
  predicate SameJob(a: JobRow, b: JobRow) {
    a.name == b.name && a.basename == b.basename && a.folder == b.folder && a.blendPath == b.blendPath
  }

  /** The table after `UPDATE jobs SET status=?, error=? WHERE id=?`. */
  function SetStatusRows(rows: map<int, JobRow>, id: int, status: Status, error: Option<string>): (r: map<int, JobRow>)
    ensures r.Keys == rows.Keys
    ensures forall k :: k in r ==> SameJob(r[k], rows[k])
    ensures forall k :: k in r && k != id ==> r[k] == rows[k]
    ensures id in r ==> r[id].status == status && r[id].error == error
  {
    if id in rows then rows[id := rows[id].(status := status, error := error)] else rows
  }

  /** The table after a sequence of status updates, applied in order. */
  function ApplyWrites(rows: map<int, JobRow>, writes: seq<StatusWrite>): map<int, JobRow>
    decreases |writes|
  {
    if writes == [] then rows
    else ApplyWrites(SetStatusRows(rows, writes[0].id, writes[0].status, writes[0].error), writes[1..])
  }

  lemma {:induction false} ApplyWritesAppend(rows: map<int, JobRow>, w1: seq<StatusWrite>, w2: seq<StatusWrite>)
    ensures ApplyWrites(rows, w1 + w2) == ApplyWrites(ApplyWrites(rows, w1), w2)
    decreases |w1|
  {
    if w1 == [] {
      assert w1 + w2 == w2;
    } else {
      assert (w1 + w2)[0] == w1[0] && (w1 + w2)[1..] == w1[1..] + w2;
      ApplyWritesAppend(SetStatusRows(rows, w1[0].id, w1[0].status, w1[0].error), w1[1..], w2);
    }
  }

  /** Status updates never add or remove rows, nor change what a row describes. */
  lemma {:induction false} ApplyWritesKeepsJobs(rows: map<int, JobRow>, writes: seq<StatusWrite>)
    ensures ApplyWrites(rows, writes).Keys == rows.Keys
    ensures forall k :: k in rows ==> SameJob(ApplyWrites(rows, writes)[k], rows[k])
    decreases |writes|
  {
    if writes != [] {
      ApplyWritesKeepsJobs(SetStatusRows(rows, writes[0].id, writes[0].status, writes[0].error), writes[1..]);
    }
  }

  /** Every listed job is the table's row for its id. */
  predicate FromTable(js: seq<StoredJob>, rows: map<int, JobRow>) {
    forall i :: 0 <= i < |js| ==> js[i].id in rows && rows[js[i].id] == js[i].row
  }

  predicate Ascending(js: seq<StoredJob>) {
    forall i, j :: 0 <= i < j < |js| ==> js[i].id < js[j].id
  }

  predicate Descending(js: seq<StoredJob>) {
    forall i, j :: 0 <= i < j < |js| ==> js[i].id > js[j].id
  }

  /**
    * `SELECT * FROM jobs WHERE status IN ('QUEUED','RUNNING') ORDER BY id ASC`,
    * over the ids 1..n: active rows of the table, lowest id first.
    */
  function ActiveUpTo(rows: map<int, JobRow>, n: int): (r: seq<StoredJob>)
    ensures Ascending(r) && FromTable(r, rows)
    ensures forall i :: 0 <= i < |r| ==> 1 <= r[i].id <= n && IsActive(r[i].row.status)
    decreases n
  {
    if n <= 0 then []
    else
      var earlier := ActiveUpTo(rows, n - 1);
      if n in rows && IsActive(rows[n].status) then earlier + [StoredJob(n, rows[n])] else earlier
  }

  /** ... and every active row among the ids 1..n is listed. */
  lemma {:induction false} ActiveUpToComplete(rows: map<int, JobRow>, n: int, id: int)
    requires id in rows && 1 <= id <= n && IsActive(rows[id].status)
    ensures exists i :: 0 <= i < |ActiveUpTo(rows, n)| && ActiveUpTo(rows, n)[i].id == id
    decreases n
  {
    var r := ActiveUpTo(rows, n);
    if id == n {
      assert r[|r| - 1].id == id;
    } else {
      ActiveUpToComplete(rows, n - 1, id);
      var i :| 0 <= i < |ActiveUpTo(rows, n - 1)| && ActiveUpTo(rows, n - 1)[i].id == id;
      assert r[i].id == id;
    }
  }

  /** `SELECT ... FROM jobs ORDER BY id DESC`, over the ids 1..n: rows of the table, newest first. */
  function AllDownFrom(rows: map<int, JobRow>, n: int): (r: seq<StoredJob>)
    ensures Descending(r) && FromTable(r, rows)
    ensures forall i :: 0 <= i < |r| ==> 1 <= r[i].id <= n
    decreases n
  {
    if n <= 0 then []
    else
      var older := AllDownFrom(rows, n - 1);
      if n in rows then
        var r := [StoredJob(n, rows[n])] + older;
        assert forall i :: 1 <= i < |r| ==> r[i] == older[i - 1];
        r
      else older
  }

  /** ... and every row among the ids 1..n is listed. */
  lemma {:induction false} AllDownFromComplete(rows: map<int, JobRow>, n: int, id: int)
    requires id in rows && 1 <= id <= n
    ensures exists i :: 0 <= i < |AllDownFrom(rows, n)| && AllDownFrom(rows, n)[i].id == id
    decreases n
  {
    var r := AllDownFrom(rows, n);
    if id == n {
      assert r[0].id == id;
    } else {
      AllDownFromComplete(rows, n - 1, id);
      var older := AllDownFrom(rows, n - 1);
      var i :| 0 <= i < |older| && older[i].id == id;
      if n in rows {
        assert r[i + 1] == older[i];
      } else {
        assert r[i].id == id;
      }
    }
  }

  /** The `jobs` table. */
  class JobStore {
    var rows: map<int, JobRow>
    /** The AUTOINCREMENT counter: the largest id ever handed out (0 before the first insert). */
    var lastId: nat
    /** Every `set_job_status` call made through this store, in order. */
    ghost var writes: seq<StatusWrite>

    ghost predicate Valid()
      reads this
    {
      forall id :: id in rows ==> 1 <= id <= lastId
    }

    /** The table as `init_db` finds it: empty on first start, or left by an earlier run. */
    constructor (persisted: map<int, JobRow>, counter: nat)
      requires forall id :: id in persisted ==> 1 <= id <= counter
      ensures Valid()
      ensures rows == persisted && lastId == counter && writes == []
    {
      rows := persisted;
      lastId := counter;
      writes := [];
    }

    /** `create_job_record`: inserts a QUEUED row without error under a fresh id and returns that id. */
    method CreateJobRecord(name: string, basename: string, folder: string, blendPath: string) returns (id: int)
      requires Valid()
      modifies this
      ensures Valid()
      ensures id == old(lastId) + 1 && lastId == id
      ensures forall k :: k in old(rows) ==> k < id
      ensures rows == old(rows)[id := JobRow(name, basename, folder, blendPath, Queued, None)]
      ensures writes == old(writes)
    {
      id := lastId + 1;
      lastId := id;
      rows := rows[id := JobRow(name, basename, folder, blendPath, Queued, None)];
    }

    /** `set_job_status`: overwrites status and error of the row with this id, if there is one. */
    method SetJobStatus(id: int, status: Status, error: Option<string> := None)
      requires Valid()
      modifies this
      ensures Valid() && lastId == old(lastId)
      ensures rows == SetStatusRows(old(rows), id, status, error)
      ensures writes == old(writes) + [StatusWrite(id, status, error)]
    {
      rows := SetStatusRows(rows, id, status, error);
      writes := writes + [StatusWrite(id, status, error)];
    }

    /** `iter_queued_jobs`: the QUEUED and RUNNING rows, in ascending id order. */
    function IterQueuedJobs(): (r: seq<StoredJob>)
      reads this
      requires Valid()
      ensures Ascending(r) && FromTable(r, rows)
      ensures forall i :: 0 <= i < |r| ==> IsActive(r[i].row.status)
    {
      ActiveUpTo(rows, lastId)
    }

    /** Every QUEUED or RUNNING row is among the rows `iter_queued_jobs` yields. */
    lemma IterQueuedJobsComplete(id: int)
      requires Valid() && id in rows && IsActive(rows[id].status)
      ensures exists i :: 0 <= i < |IterQueuedJobs()| && IterQueuedJobs()[i].id == id
    {
      ActiveUpToComplete(rows, lastId, id);
      assert IterQueuedJobs() == ActiveUpTo(rows, lastId);
    }
  }
}
