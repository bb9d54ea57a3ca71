/**
  * The render invoker (`run_blender_render`) and the render queue
  * (`RenderQueue`): a FIFO of jobs drained by one worker, which marks each job
  * RUNNING, runs the renderer on it and records DONE or ERROR. The renderer
  * process itself is abstracted as the outcome it produces.
  */
module Rendering {
  import opened Text
  import opened Shell
  import opened Jobs

  /** The job handed from the upload handler to the queue. */
  datatype Job = Job(id: int, name: string, basename: string, folder: string, blendPath: string)

  /**
    * How the render ended: the shell process exited with a code (a missing renderer
    * binary shows up as the shell's 127), or an error was raised while starting the
    * process or reading its output, such as undecodable output, with the error's text.
    */
  datatype RenderOutcome = Exited(code: int) | LaunchFailed(message: string)

  const ExitMessagePrefix := "Blender exited with code "

  /** Where the renderer writes frames: `<jobs root>/<folder>/render_#####`. */
  function OutputPattern(jobsRoot: string, folder: string): string {
    JoinPath(JoinPath(jobsRoot, folder), "render_#####")
  }

  /** The argument words of the render: scene in background mode, PNG output, frame 1. */
  function RenderArguments(blenderBin: string, jobsRoot: string, job: Job): seq<string> {
    [blenderBin, "-b", job.blendPath, "-o", OutputPattern(jobsRoot, job.folder), "-F", "PNG", "-f", "1"]
  }

  /** The shell line `run_blender_render` builds, each variable part passed through `shlex.quote`. */
  function RenderCommand(blenderBin: string, jobsRoot: string, job: Job): string {
    Quote(blenderBin) + " -b " + Quote(job.blendPath) + " -o "
      + Quote(OutputPattern(jobsRoot, job.folder)) + " -F PNG -f 1"
  }

  /**
    * The frame pattern lies directly inside the job's folder under the jobs root:
    * it is that folder's path, a `/`, and the component `render_#####`.
    */
  lemma OutputPatternInFolder(jobsRoot: string, folder: string)
    ensures var d := JoinPath(jobsRoot, folder);
      var p := OutputPattern(jobsRoot, folder);
      |p| == |d| + 13 && p[..|d|] == d && p[|d|] == '/' && FinalComponent(p) == "render_#####"
    ensures '/' !in folder && folder != "" ==> FinalComponent(JoinPath(jobsRoot, folder)) == folder
  {
    var d := JoinPath(jobsRoot, folder);
    var p := OutputPattern(jobsRoot, folder);
    assert p == d + "/" + "render_#####";
    LastIndexAt(p, '/', |d|);
    if '/' !in folder && folder != "" {
      assert d == jobsRoot + "/" + folder;
      LastIndexAt(d, '/', |jobsRoot|);
    }
  }

  /** The render line is the argument words, each quoted, joined by single blanks. */
  lemma RenderCommandQuotesEachWord(blenderBin: string, jobsRoot: string, job: Job)
    ensures RenderCommand(blenderBin, jobsRoot, job) == JoinWords(QuoteAll(RenderArguments(blenderBin, jobsRoot, job)))
  {
    QuoteRenderArguments(blenderBin, job.blendPath, OutputPattern(jobsRoot, job.folder));
    JoinRenderWords(Quote(blenderBin), Quote(job.blendPath), Quote(OutputPattern(jobsRoot, job.folder)));
  }

  lemma JoinCons(w: string, ws: seq<string>)
    requires ws != []
    ensures JoinWords([w] + ws) == w + " " + JoinWords(ws)
  {
    assert ([w] + ws)[1..] == ws;
  }

  /** The fixed tail of the render line. */
  lemma JoinFormatWords()
    ensures JoinWords(["-F", "PNG", "-f", "1"]) == "-F PNG -f 1"
  {
    JoinCons("-f", ["1"]);
    JoinCons("PNG", ["-f", "1"]);
    assert ["PNG"] + ["-f", "1"] == ["PNG", "-f", "1"];
    JoinCons("-F", ["PNG", "-f", "1"]);
    assert ["-F"] + ["PNG", "-f", "1"] == ["-F", "PNG", "-f", "1"];
  }

  /** The render line has nine words; b, p and o stand for the three quoted parts. */
  lemma JoinRenderWords(b: string, p: string, o: string)
    ensures JoinWords([b, "-b", p, "-o", o, "-F", "PNG", "-f", "1"])
         == b + " -b " + p + " -o " + o + " -F PNG -f 1"
  {
    var t := ["-F", "PNG", "-f", "1"];
    JoinFormatWords();
    var t1 := [o] + t;
    JoinCons(o, t);
    var t2 := ["-o"] + t1;
    JoinCons("-o", t1);
    var t3 := [p] + t2;
    JoinCons(p, t2);
    var t4 := ["-b"] + t3;
    JoinCons("-b", t3);
    JoinCons(b, t4);
    assert [b] + t4 == [b, "-b", p, "-o", o, "-F", "PNG", "-f", "1"];
    assert JoinWords([b] + t4) == b + " " + ("-b" + " " + (p + " " + ("-o" + " " + (o + " " + "-F PNG -f 1"))));
  }

  lemma QuoteRenderArguments(bin: string, blend: string, pattern: string)
    ensures QuoteAll([bin, "-b", blend, "-o", pattern, "-F", "PNG", "-f", "1"])
         == [Quote(bin), "-b", Quote(blend), "-o", Quote(pattern), "-F", "PNG", "-f", "1"]
  {
    FlagsQuoteToThemselves();
    QuoteNine(bin, "-b", blend, "-o", pattern, "-F", "PNG", "-f", "1");
  }

  /** `QuoteAll` on nine words, three at a time. */
  lemma QuoteNine(w0: string, w1: string, w2: string, w3: string, w4: string, w5: string, w6: string, w7: string, w8: string)
    ensures QuoteAll([w0, w1, w2, w3, w4, w5, w6, w7, w8])
         == [Quote(w0), Quote(w1), Quote(w2), Quote(w3), Quote(w4), Quote(w5), Quote(w6), Quote(w7), Quote(w8)]
  {
    var a, b, c := [w0, w1, w2], [w3, w4, w5], [w6, w7, w8];
    assert [w0, w1, w2, w3, w4, w5, w6, w7, w8] == a + b + c;
    QuoteThree(w0, w1, w2);
    QuoteThree(w3, w4, w5);
    QuoteThree(w6, w7, w8);
    QuoteAllAppend(a + b, c);
    QuoteAllAppend(a, b);
  }

  lemma QuoteThree(w0: string, w1: string, w2: string)
    ensures QuoteAll([w0, w1, w2]) == [Quote(w0), Quote(w1), Quote(w2)]
  {
  }

  /** The fixed words of the render line need no quoting. */
  lemma FlagsQuoteToThemselves()
    ensures Quote("-b") == "-b" && Quote("-o") == "-o" && Quote("-F") == "-F"
    ensures Quote("PNG") == "PNG" && Quote("-f") == "-f" && Quote("1") == "1"
  {
    assert SafeChar('-') && SafeChar('b') && SafeChar('o') && SafeChar('F') && SafeChar('f');
    assert SafeChar('P') && SafeChar('N') && SafeChar('G') && SafeChar('1');
    assert AllSafe("-b") && AllSafe("-o") && AllSafe("-F") && AllSafe("PNG") && AllSafe("-f") && AllSafe("1");
  }

  /**
    * Whatever the binary path, scene path and folder contain, quote removal splits
    * the command line back into exactly the intended arguments. These are words after
    * quote removal only: a bare binary path of the form `NAME=value`, or one that is
    * a reserved word such as `if`, is not run as a command by `sh`.
    */
  lemma RenderCommandWords(blenderBin: string, jobsRoot: string, job: Job)
    ensures Words(RenderCommand(blenderBin, jobsRoot, job)) == Some(RenderArguments(blenderBin, jobsRoot, job))
  {
    RenderCommandQuotesEachWord(blenderBin, jobsRoot, job);
    WordsOfQuoted(RenderArguments(blenderBin, jobsRoot, job));
  }

  /**
    * What `run_blender_render` does after marking the job RUNNING: it returns
    * normally (None) when the process exits with 0, and otherwise raises; Some(m)
    * is `str()` of the exception it raises.
    */
  function RenderFailure(outcome: RenderOutcome): (failure: Option<string>)
    ensures failure.None? <==> outcome == Exited(0)
  {
    match outcome
    case Exited(code) => if code == 0 then None else Some(ExitMessagePrefix + IntString(code))
    case LaunchFailed(message) => Some(message)
  }

  /** A non-zero exit code can be read back from the recorded error message. */
  lemma ExitCodeInMessage(code: int)
    requires code != 0
    ensures RenderFailure(Exited(code)).Some?
    ensures var m := RenderFailure(Exited(code)).value;
      |m| > |ExitMessagePrefix| && m[..|ExitMessagePrefix|] == ExitMessagePrefix &&
      ParseInt(m[|ExitMessagePrefix|..]) == Some(code)
  {
    var m := RenderFailure(Exited(code)).value;
    assert m[|ExitMessagePrefix|..] == IntString(code);
    IntStringRoundTrip(code);
  }

  /** The status a job ends with, given how its render ended. */
  function FinalStatus(outcome: RenderOutcome): Status {
    if RenderFailure(outcome).None? then Done else Error
  }

  /** The two status updates one worker iteration makes: RUNNING, then DONE, or ERROR with the message. */
  function RenderWrites(id: int, outcome: RenderOutcome): (w: seq<StatusWrite>)
    ensures |w| == 2 && w[0].id == id && w[1].id == id
    ensures w[0].status == Running && w[0].error == None
    ensures w[1].status == Done <==> outcome == Exited(0)
    ensures w[1].status == Error <==> outcome != Exited(0)
    ensures w[1].error == RenderFailure(outcome)
  {
    [StatusWrite(id, Running, None), StatusWrite(id, FinalStatus(outcome), RenderFailure(outcome))]
  }

  /** The row of a job once its render has ended. */
  function Finished(row: JobRow, outcome: RenderOutcome): JobRow {
    row.(status := FinalStatus(outcome), error := RenderFailure(outcome))
  }

  /** One iteration's updates leave the job's row finished and every other row as it was. */
  lemma ApplyRenderWrites(rows: map<int, JobRow>, id: int, outcome: RenderOutcome)
    ensures ApplyWrites(rows, RenderWrites(id, outcome))
         == SetStatusRows(SetStatusRows(rows, id, Running, None), id, FinalStatus(outcome), RenderFailure(outcome))
    ensures ApplyWrites(rows, RenderWrites(id, outcome))
         == if id in rows then rows[id := Finished(rows[id], outcome)] else rows
  {
    var w := RenderWrites(id, outcome);
    var r1 := SetStatusRows(rows, id, Running, None);
    assert ApplyWrites(rows, w) == ApplyWrites(r1, w[1..]);
    assert w[1..][1..] == [];
    assert ApplyWrites(r1, w[1..]) == SetStatusRows(r1, id, FinalStatus(outcome), RenderFailure(outcome));
    if id in rows {
      assert r1[id].(status := FinalStatus(outcome), error := RenderFailure(outcome)) == Finished(rows[id], outcome);
    }
  }

  /** The status updates the worker makes for the given jobs, in order. */
  function RunWrites(jobs: seq<Job>, outcomes: seq<RenderOutcome>): (w: seq<StatusWrite>)
    requires |jobs| == |outcomes|
    ensures |w| == 2 * |jobs|
    decreases |jobs|
  {
    if jobs == [] then [] else RenderWrites(jobs[0].id, outcomes[0]) + RunWrites(jobs[1..], outcomes[1..])
  }

  lemma {:induction false} RunWritesAppend(jobs: seq<Job>, outcomes: seq<RenderOutcome>, job: Job, outcome: RenderOutcome)
    requires |jobs| == |outcomes|
    ensures RunWrites(jobs + [job], outcomes + [outcome]) == RunWrites(jobs, outcomes) + RenderWrites(job.id, outcome)
    decreases |jobs|
  {
    if jobs == [] {
      assert jobs + [job] == [job] && outcomes + [outcome] == [outcome];
    } else {
      assert (jobs + [job])[1..] == jobs[1..] + [job];
      assert (outcomes + [outcome])[1..] == outcomes[1..] + [outcome];
      RunWritesAppend(jobs[1..], outcomes[1..], job, outcome);
    }
  }

  predicate DistinctIds(jobs: seq<Job>) {
    forall i, j :: 0 <= i < j < |jobs| ==> jobs[i].id != jobs[j].id
  }

  /** A job the worker does not process keeps its row unchanged. */
  lemma {:induction false} RunKeepsOthers(rows: map<int, JobRow>, jobs: seq<Job>, outcomes: seq<RenderOutcome>, id: int)
    requires |jobs| == |outcomes|
    requires id in rows && forall i :: 0 <= i < |jobs| ==> jobs[i].id != id
    ensures id in ApplyWrites(rows, RunWrites(jobs, outcomes))
    ensures ApplyWrites(rows, RunWrites(jobs, outcomes))[id] == rows[id]
    decreases |jobs|
  {
    if jobs != [] {
      var w := RenderWrites(jobs[0].id, outcomes[0]);
      ApplyWritesAppend(rows, w, RunWrites(jobs[1..], outcomes[1..]));
      ApplyRenderWrites(rows, jobs[0].id, outcomes[0]);
      forall k | 0 <= k < |jobs[1..]| ensures jobs[1..][k].id != id {
        assert jobs[1..][k] == jobs[k + 1];
      }
      RunKeepsOthers(ApplyWrites(rows, w), jobs[1..], outcomes[1..], id);
    }
  }

  /**
    * Processing jobs one after another leaves each of them finished according to its
    * own outcome, whatever the outcomes of the others.
    */
  lemma {:induction false} RunFinishes(rows: map<int, JobRow>, jobs: seq<Job>, outcomes: seq<RenderOutcome>, i: int)
    requires |jobs| == |outcomes| && DistinctIds(jobs)
    requires 0 <= i < |jobs| && jobs[i].id in rows
    ensures jobs[i].id in ApplyWrites(rows, RunWrites(jobs, outcomes))
    ensures ApplyWrites(rows, RunWrites(jobs, outcomes))[jobs[i].id] == Finished(rows[jobs[i].id], outcomes[i])
    decreases |jobs|
  {
    var w := RenderWrites(jobs[0].id, outcomes[0]);
    ApplyWritesAppend(rows, w, RunWrites(jobs[1..], outcomes[1..]));
    ApplyRenderWrites(rows, jobs[0].id, outcomes[0]);
    var rows1 := ApplyWrites(rows, w);
    if i == 0 {
      forall k | 0 <= k < |jobs[1..]| ensures jobs[1..][k].id != jobs[0].id {
        assert jobs[1..][k] == jobs[k + 1];
      }
      RunKeepsOthers(rows1, jobs[1..], outcomes[1..], jobs[0].id);
    } else {
      assert jobs[1..][i - 1] == jobs[i];
      assert DistinctIds(jobs[1..]) by {
        forall a, b | 0 <= a < b < |jobs[1..]| ensures jobs[1..][a].id != jobs[1..][b].id {
          assert jobs[1..][a] == jobs[a + 1] && jobs[1..][b] == jobs[b + 1];
        }
      }
      RunFinishes(rows1, jobs[1..], outcomes[1..], i - 1);
    }
  }

  /** With every render succeeding, every processed job ends DONE without an error. */
  lemma AllSucceedAllDone(rows: map<int, JobRow>, jobs: seq<Job>, outcomes: seq<RenderOutcome>, i: int)
    requires |jobs| == |outcomes| && DistinctIds(jobs)
    requires forall k :: 0 <= k < |outcomes| ==> outcomes[k] == Exited(0)
    requires 0 <= i < |jobs| && jobs[i].id in rows
    ensures jobs[i].id in ApplyWrites(rows, RunWrites(jobs, outcomes))
    ensures ApplyWrites(rows, RunWrites(jobs, outcomes))[jobs[i].id].status == Done
    ensures ApplyWrites(rows, RunWrites(jobs, outcomes))[jobs[i].id].error == None
  {
    RunFinishes(rows, jobs, outcomes, i);
  }

  // ---------------------------------------------------------------------------
  // Status progression
  // ---------------------------------------------------------------------------

  /** The forward steps of a job's status: QUEUED to RUNNING, RUNNING to DONE or ERROR. */
  predicate Advances(from: Status, to: Status) {
    (from == Queued && to == Running) || (from == Running && (to == Done || to == Error))
  }

  /** Starting from `start`, every status in `path` is a forward step from the one before. */
  predicate ForwardPath(start: Status, path: seq<Status>) {
    forall i :: 0 <= i < |path| ==> Advances(if i == 0 then start else path[i - 1], path[i])
  }

  /** The statuses written for one job, in order. */
  function StatusesOf(writes: seq<StatusWrite>, id: int): seq<Status>
    decreases |writes|
  {
    if writes == [] then []
    else (if writes[0].id == id then [writes[0].status] else []) + StatusesOf(writes[1..], id)
  }

  lemma {:induction false} StatusesOfAppend(w1: seq<StatusWrite>, w2: seq<StatusWrite>, id: int)
    ensures StatusesOf(w1 + w2, id) == StatusesOf(w1, id) + StatusesOf(w2, id)
    decreases |w1|
  {
    if w1 == [] {
      assert w1 + w2 == w2;
    } else {
      var head := if w1[0].id == id then [w1[0].status] else [];
      assert (w1 + w2)[0] == w1[0] && (w1 + w2)[1..] == w1[1..] + w2;
      assert StatusesOf(w1 + w2, id) == head + StatusesOf(w1[1..] + w2, id);
      StatusesOfAppend(w1[1..], w2, id);
      assert StatusesOf(w1, id) == head + StatusesOf(w1[1..], id);
    }
  }

  /**
    * Over any run of the worker, each job is seen QUEUED, then RUNNING, then DONE or
    * ERROR, and nothing else: a job never moves backwards and a finished job is never touched.
    */
  lemma {:induction false} RunIsForward(jobs: seq<Job>, outcomes: seq<RenderOutcome>, i: nat)
    requires |jobs| == |outcomes| && DistinctIds(jobs) && i < |jobs|
    ensures StatusesOf(RunWrites(jobs, outcomes), jobs[i].id) == [Running, FinalStatus(outcomes[i])]
    ensures ForwardPath(Queued, StatusesOf(RunWrites(jobs, outcomes), jobs[i].id))
    decreases |jobs|
  {
    var id := jobs[i].id;
    StatusesOfRunCons(jobs, outcomes, id);
    if i == 0 {
      forall k | 0 <= k < |jobs[1..]| ensures jobs[1..][k].id != id {
        assert jobs[1..][k] == jobs[k + 1];
      }
      NoStatusesOf(jobs[1..], outcomes[1..], id);
    } else {
      assert jobs[1..][i - 1] == jobs[i];
      assert DistinctIds(jobs[1..]) by {
        forall a, b | 0 <= a < b < |jobs[1..]| ensures jobs[1..][a].id != jobs[1..][b].id {
          assert jobs[1..][a] == jobs[a + 1] && jobs[1..][b] == jobs[b + 1];
        }
      }
      RunIsForward(jobs[1..], outcomes[1..], i - 1);
    }
    var path := StatusesOf(RunWrites(jobs, outcomes), id);
    assert Advances(Queued, path[0]) && Advances(path[0], path[1]);
  }

  /** The statuses one job sees from the first render of a run, then from the rest. */
  lemma StatusesOfRunCons(jobs: seq<Job>, outcomes: seq<RenderOutcome>, id: int)
    requires |jobs| == |outcomes| && jobs != []
    ensures StatusesOf(RunWrites(jobs, outcomes), id)
         == StatusesOfRender(jobs[0].id, outcomes[0], id) + StatusesOf(RunWrites(jobs[1..], outcomes[1..]), id)
  {
    StatusesOfAppend(RenderWrites(jobs[0].id, outcomes[0]), RunWrites(jobs[1..], outcomes[1..]), id);
    StatusesOfRenderWrites(jobs[0].id, outcomes[0], id);
  }

  /** What one render writes for `id`: RUNNING then its final status if it is that job's, else nothing. */
  function StatusesOfRender(job: int, outcome: RenderOutcome, id: int): seq<Status> {
    if job == id then [Running, FinalStatus(outcome)] else []
  }

  lemma StatusesOfRenderWrites(job: int, outcome: RenderOutcome, id: int)
    ensures StatusesOf(RenderWrites(job, outcome), id) == StatusesOfRender(job, outcome, id)
  {
    var w := RenderWrites(job, outcome);
    assert w == [w[0]] + [w[1]];
    StatusesOfAppend([w[0]], [w[1]], id);
  }

  lemma {:induction false} NoStatusesOf(jobs: seq<Job>, outcomes: seq<RenderOutcome>, id: int)
    requires |jobs| == |outcomes|
    requires forall k :: 0 <= k < |jobs| ==> jobs[k].id != id
    ensures StatusesOf(RunWrites(jobs, outcomes), id) == []
    decreases |jobs|
  {
    if jobs != [] {
      StatusesOfRunCons(jobs, outcomes, id);
      forall k | 0 <= k < |jobs[1..]| ensures jobs[1..][k].id != id {
        assert jobs[1..][k] == jobs[k + 1];
      }
      NoStatusesOf(jobs[1..], outcomes[1..], id);
    }
  }

  // ---------------------------------------------------------------------------
  // The invoker and the queue
  // ---------------------------------------------------------------------------

  /**
    * `run_blender_render`: builds the command line, marks the job RUNNING, then runs
    * the renderer; the outcome stands for the process. Returns the exception the call
    * raises (None when it returns) and the command line it ran.
    */
  method RunBlenderRender(store: JobStore, blenderBin: string, jobsRoot: string, job: Job, outcome: RenderOutcome)
    returns (failure: Option<string>, command: string)
    requires store.Valid()
    modifies store
    ensures store.Valid() && store.lastId == old(store.lastId)
    ensures command == RenderCommand(blenderBin, jobsRoot, job)
    ensures failure == RenderFailure(outcome)
    ensures store.rows == SetStatusRows(old(store.rows), job.id, Running, None)
    ensures store.writes == old(store.writes) + [StatusWrite(job.id, Running, None)]
  {
    command := RenderCommand(blenderBin, jobsRoot, job);
    store.SetJobStatus(job.id, Running);
    match outcome
    case LaunchFailed(message) =>
      failure := Some(message);
    case Exited(rc) =>
      if rc != 0 {
        failure := Some(ExitMessagePrefix + IntString(rc));
      } else {
        failure := None;
      }
  }

  /** The status updates of one worker iteration over queue contents `q`: none while it waits. */
  function StepWrites(q: seq<Job>, outcome: RenderOutcome): seq<StatusWrite> {
    if q == [] then [] else RenderWrites(q[0].id, outcome)
  }

  /** `RenderQueue`: the FIFO `q` and the flag that a worker has been started. */
  class RenderQueue {
    var q: seq<Job>
    var running: bool
    /** How many worker tasks `start` has spawned. */
    ghost var workers: nat

    ghost predicate Valid()
      reads this
    {
      workers == if running then 1 else 0
    }

    constructor ()
      ensures Valid() && q == [] && !running
    {
      q := [];
      running := false;
      workers := 0;
    }

    /** `start`: the first call spawns the worker; every later call returns without spawning another. */
    method Start()
      requires Valid()
      modifies this
      ensures Valid() && running && q == old(q)
      ensures workers == if old(running) then old(workers) else old(workers) + 1
    {
      if running {
        return;
      }
      running := true;
      workers := workers + 1;
    }

    /** `enqueue`: appends the job at the back; never blocks, never drops. */
    method Enqueue(job: Job)
      requires Valid()
      modifies this
      ensures Valid() && running == old(running)
      ensures q == old(q) + [job]
    {
      q := q + [job];
    }

    /**
      * One iteration of `_worker`: take the head of the queue, render it, and mark it
      * DONE, or ERROR with the failure's message. The failure is recorded, not raised,
      * so the worker stays ready for the next job. On an empty queue the worker waits
      * and nothing changes.
      */
    method Step(store: JobStore, blenderBin: string, jobsRoot: string, outcome: RenderOutcome)
      returns (processed: Option<Job>)
      requires Valid() && running && store.Valid()
      modifies this, store
      ensures Valid() && running && store.Valid() && store.lastId == old(store.lastId)
      ensures processed == if old(q) == [] then None else Some(old(q)[0])
      ensures q == if old(q) == [] then old(q) else old(q)[1..]
      ensures store.writes == old(store.writes) + StepWrites(old(q), outcome)
      ensures store.rows == ApplyWrites(old(store.rows), StepWrites(old(q), outcome))
    {
      if q == [] {
        processed := None;
        return;
      }
      var job := q[0];
      q := q[1..];
      ghost var before := store.rows;
      var failure, _ := RunBlenderRender(store, blenderBin, jobsRoot, job, outcome);
      if failure.None? {
        store.SetJobStatus(job.id, Done);
      } else {
        store.SetJobStatus(job.id, Error, failure);
      }
      processed := Some(job);
      ApplyRenderWrites(before, job.id, outcome);
    }

    /**
      * The `while True` loop of `_worker`, run while there are jobs and render outcomes
      * for them: the jobs are taken in enqueue order and every one of them is
      * processed, whatever the outcome of the ones before.
      */
    method Work(store: JobStore, blenderBin: string, jobsRoot: string, outcomes: seq<RenderOutcome>)
      returns (processed: seq<Job>)
      requires Valid() && running && store.Valid()
      modifies this, store
      ensures Valid() && running && store.Valid() && store.lastId == old(store.lastId)
      ensures |processed| == if |old(q)| < |outcomes| then |old(q)| else |outcomes|
      ensures processed == old(q)[..|processed|] && q == old(q)[|processed|..]
      ensures store.writes == old(store.writes) + RunWrites(processed, outcomes[..|processed|])
      ensures store.rows == ApplyWrites(old(store.rows), RunWrites(processed, outcomes[..|processed|]))
    {
      processed := [];
      var i := 0;
      while i < |outcomes| && q != []
        invariant 0 <= i <= |outcomes| && i <= |old(q)|
        invariant Valid() && running && store.Valid() && store.lastId == old(store.lastId)
        invariant processed == old(q)[..i] && q == old(q)[i..]
        invariant store.writes == old(store.writes) + RunWrites(processed, outcomes[..i])
        invariant store.rows == ApplyWrites(old(store.rows), RunWrites(processed, outcomes[..i]))
        decreases |outcomes| - i
      {
        ghost var done := RunWrites(processed, outcomes[..i]);
        var job := Step(store, blenderBin, jobsRoot, outcomes[i]);
        RunWritesAppend(processed, outcomes[..i], job.value, outcomes[i]);
        ApplyWritesAppend(old(store.rows), done, RenderWrites(job.value.id, outcomes[i]));
        assert outcomes[..i] + [outcomes[i]] == outcomes[..i + 1];
        assert old(q)[..i] + [old(q)[i]] == old(q)[..i + 1];
        processed := processed + [job.value];
        i := i + 1;
      }
    }
  }
}
