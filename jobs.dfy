/** What auto_blast.py and auto_clustalw.py share: `wait_download`, the rename that ends
    `download_result` / `downlaod_result`, and the record of a batch of browser jobs. The browser
    is not modelled: each job is given as the value of what its browser session did. */
module Jobs {
  import opened Common
  import Paths
  import Loader
  import Files

  // ---------------------------------------------------------------- wait_download

  /** The default `limit` of `wait_download`: 120 checks, one second apart. */
  const WaitLimit: int := 120

  /** The first of the checks numbered `from` to `limit - 1` that finds the file. */
  function PollFrom(exists_: nat -> bool, limit: int, from: nat): (r: Option<nat>)
    ensures r.Some? ==> from <= r.value < limit && exists_(r.value)
    ensures r.Some? ==> forall j :: from <= j < r.value ==> !exists_(j)
    ensures r.None? ==> forall j :: from <= j < limit ==> !exists_(j)
    decreases limit - from
  {
    if from >= limit then None
    else if exists_(from) then Some(from)
    else PollFrom(exists_, limit, from + 1)
  }

  /** The check, counted from 0, at which `wait_download` finds the file; None when all `limit`
      checks fail and it raises DownloadTimeoutException. */
  function Poll(exists_: nat -> bool, limit: int): (r: Option<nat>)
    ensures r.Some? ==> r.value < limit && exists_(r.value) && forall j :: 0 <= j < r.value ==> !exists_(j)
    ensures r.None? <==> forall j :: 0 <= j < limit ==> !exists_(j)
  {
    PollFrom(exists_, limit, 0)
  }

  /** `wait_download(path, limit)`: `exists_(i)` is what `os.path.exists(path)` answers at the
      check numbered `i`. Returns whether the file was found, how many checks were made and how
      many one-second sleeps were taken: a sleep follows every failed check and no other. */
  method WaitDownload(exists_: nat -> bool, limit: int) returns (found: bool, checks: nat, sleeps: nat)
    ensures found <==> Poll(exists_, limit).Some?
    ensures found ==> sleeps == Poll(exists_, limit).value && checks == sleeps + 1
    ensures !found ==> checks == sleeps && sleeps == if limit > 0 then limit else 0
  {
    checks, sleeps := 0, 0;
    var i := 0;
    while i < limit
      invariant 0 <= i <= if limit > 0 then limit else 0
      invariant checks == i && sleeps == i
      invariant PollFrom(exists_, limit, i) == Poll(exists_, limit)
      decreases limit - i
    {
      checks := checks + 1;
      if exists_(i) {
        return true, checks, sleeps;
      }
      sleeps := sleeps + 1;
      i := i + 1;
    }
    return false, checks, sleeps;
  }

  // ---------------------------------------------------------------- one job

  /** What the browser part of a job did before its download was waited for: `browser.get`, the
      form filling and the clicks either completed or raised. */
  datatype Session = Completed | Threw(error: PyError)

  /** A job: its browser session, the check from which its download is visible (None: it never
      arrives) and the file it downloads. A download arriving at check `WaitLimit` or later
      comes after `wait_download` gave up; the browser stays open, so it still lands. */
  datatype Job = Job(session: Session, arrival: Option<nat>, payload: Loader.TextFile)

  /** `os.path.exists(raw)` at each check: a file already under the raw name (left by an
      earlier job) is found at once; otherwise the job's own download once it has arrived. */
  function Arrived(disk: Loader.TextDisk, raw: string, job: Job): nat -> bool {
    i => raw in disk || (job.arrival.Some? && job.arrival.value <= i)
  }

  /** The wait finds a leftover raw file at the first check, and otherwise the job's own
      download at the check it arrives in, if that is within the limit. */
  lemma PollArrived(disk: Loader.TextDisk, raw: string, job: Job, limit: int)
    ensures Poll(Arrived(disk, raw, job), limit) ==
      if limit <= 0 then None
      else if raw in disk then Some(0)
      else if job.arrival.Some? && job.arrival.value < limit then Some(job.arrival.value)
      else None
  {
    if limit > 0 && raw in disk {
      assert Arrived(disk, raw, job)(0);
    }
    if limit > 0 && raw !in disk && job.arrival.Some? && job.arrival.value < limit {
      assert Arrived(disk, raw, job)(job.arrival.value);
    }
  }

  /** The wait of a job finds its raw file: one already there, or the job's own download
      arriving before the checks run out. */
  predicate InTime(disk: Loader.TextDisk, rawPath: string, job: Job) {
    rawPath in disk || (job.arrival.Some? && job.arrival.value < WaitLimit)
  }

  /** `wait_download` with the default limit finds the raw file exactly when it is in time. */
  lemma WaitFinds(disk: Loader.TextDisk, rawPath: string, job: Job)
    ensures Poll(Arrived(disk, rawPath, job), WaitLimit).Some? <==> InTime(disk, rawPath, job)
  {
    PollArrived(disk, rawPath, job, WaitLimit);
  }

  /** What a job leaves: the error it raised, if any, and the files afterwards. */
  datatype Step = Step(error: Option<PyError>, disk: Loader.TextDisk)

  /** The files once the job's download has landed: under the raw name, unless a file is
      already there (the browser then picks another name, which the script never looks at). */
  function Landed(disk: Loader.TextDisk, rawPath: string, job: Job): Loader.TextDisk {
    if rawPath in disk || job.arrival.None? then disk else disk[rawPath := job.payload]
  }

  /** The job in `dir`: the session; then `wait_download` on `dir/raw`; then
      `os.rename(dir/raw, dir/name)`. A download that comes too late lands under the raw name
      after the timeout, where the next job's wait finds it. */
  function Fetch(disk: Loader.TextDisk, dir: string, raw: string, name: string, job: Job): Step {
    if job.session.Threw? then Step(Some(job.session.error), disk)
    else
      var rawPath := Paths.Join(dir, raw);
      var arrived := Landed(disk, rawPath, job);
      if !InTime(disk, rawPath, job) then Step(Some(DownloadTimeout), arrived)
      else
        match Files.Rename(arrived, rawPath, Paths.Join(dir, name))
        case Ok(renamed) => Step(None, renamed)
        case Raise(e) => Step(Some(e), arrived)
  }

  /** A job ends without error exactly when its session completed, the wait found the raw file
      and the result name was free; the raw file is then archived under that name. On a
      session error nothing changes; on a timeout nothing is renamed, and the only change is a
      late download appearing under the raw name. */
  lemma FetchOutcomes(disk: Loader.TextDisk, dir: string, raw: string, name: string, job: Job)
    requires dir != "" && '/' !in raw && '/' !in name && raw != name
    ensures var s := Fetch(disk, dir, raw, name, job);
      var rawPath := Paths.Join(dir, raw); var dst := Paths.Join(dir, name);
      && (s.error.None? <==>
            && job.session.Completed?
            && (rawPath in disk || (job.arrival.Some? && job.arrival.value < WaitLimit))
            && dst !in disk)
      && (s.error.None? ==>
            && dst in s.disk && rawPath !in s.disk
            && s.disk[dst] == (if rawPath in disk then disk[rawPath] else job.payload))
      && (s.error == Some(DownloadTimeout) && job.session.Completed? ==>
            && rawPath !in disk
            && s.disk == if job.arrival.Some? then disk[rawPath := job.payload] else disk)
      && (job.session.Threw? ==> s == Step(Some(job.session.error), disk))
      && (s.error == Some(FileExistsError) && job.session.Completed? ==> rawPath in s.disk && dst in disk)
  {
    var rawPath := Paths.Join(dir, raw);
    var dst := Paths.Join(dir, name);
    Paths.BasenameOfJoin(dir, raw);
    Paths.BasenameOfJoin(dir, name);
    assert rawPath != dst;
  }

  /** The exceptions a job can end with: its session's, or, once the session completed, a
      timeout or a name conflict; a session error leaves the files as they were. */
  lemma FetchErrors(disk: Loader.TextDisk, dir: string, raw: string, name: string, job: Job)
    ensures var s := Fetch(disk, dir, raw, name, job);
      && (job.session.Threw? ==> s == Step(Some(job.session.error), disk))
      && (job.session.Completed? ==> s.error in {None, Some(DownloadTimeout), Some(FileExistsError)})
  {
  }

  /** The shared `download_result`: the job's session, the wait and the rename. */
  method Download(disk: Loader.TextDisk, dir: string, raw: string, name: string, job: Job) returns (s: Step)
    ensures s == Fetch(disk, dir, raw, name, job)
  {
    if job.session.Threw? {
      return Step(Some(job.session.error), disk);
    }
    var rawPath := Paths.Join(dir, raw);
    var resultPath := Paths.Join(dir, name);
    var found, checks, sleeps := WaitDownload(Arrived(disk, rawPath, job), WaitLimit);
    WaitFinds(disk, rawPath, job);
    var arrived := if rawPath in disk || job.arrival.None? then disk else disk[rawPath := job.payload];
    if !found {
      return Step(Some(DownloadTimeout), arrived);
    }
    var moved := Files.Rename(arrived, rawPath, resultPath);
    if moved.Raise? {
      return Step(Some(moved.error), arrived);
    }
    return Step(None, moved.value);
  }

  /** A job changes no file other than a raw download beyond extending it. */
  lemma FetchGrows(disk: Loader.TextDisk, dir: string, raw: string, name: string, job: Job)
    requires dir != "" && '/' !in raw
    ensures Files.Grows(disk, Fetch(disk, dir, raw, name, job).disk, raw)
  {
    var rawPath := Paths.Join(dir, raw);
    Paths.BasenameOfJoin(dir, raw);
    if job.session.Completed? {
      var arrived := Landed(disk, rawPath, job);
      if rawPath !in disk && job.arrival.Some? {
        Files.CreateGrows(disk, rawPath, job.payload, raw);
      } else {
        Files.GrowsRefl(disk, raw);
      }
      if InTime(disk, rawPath, job) {
        var moved := Files.Rename(arrived, rawPath, Paths.Join(dir, name));
        if moved.Ok? {
          Files.RenameGrows(arrived, rawPath, Paths.Join(dir, name), raw);
          Files.GrowsTrans(disk, arrived, moved.value, raw);
        }
      }
    }
  }

  /** A download that arrives after its wait gave up is archived by the next job of the same
      directory under that job's name, when that job's session completes and its name is free:
      the next organism's result file holds the late organism's download. */
  lemma LateDownloadMisfiled(disk: Loader.TextDisk, dir: string, raw: string, name: string, next: string,
                             job: Job, later: Job)
    requires dir != "" && '/' !in raw && '/' !in name && '/' !in next && raw != name && raw != next
    requires job.session.Completed? && job.arrival.Some? && job.arrival.value >= WaitLimit
    requires Paths.Join(dir, raw) !in disk && Paths.Join(dir, next) !in disk
    requires later.session.Completed?
    ensures var first := Fetch(disk, dir, raw, name, job);
      var second := Fetch(first.disk, dir, raw, next, later);
      && first.error == Some(DownloadTimeout)
      && second.error.None?
      && second.disk[Paths.Join(dir, next)] == job.payload
  {
    var rawPath := Paths.Join(dir, raw);
    var first := Fetch(disk, dir, raw, name, job);
    FetchOutcomes(disk, dir, raw, name, job);
    assert first.error == Some(DownloadTimeout);
    Paths.BasenameOfJoin(dir, raw);
    Paths.BasenameOfJoin(dir, next);
    assert Paths.Join(dir, next) != rawPath;
    assert first.disk == disk[rawPath := job.payload];
    FetchOutcomes(first.disk, dir, raw, next, later);
  }

  // ---------------------------------------------------------------- the record of a batch

  /** How a job ended: archived; its organism appended to the batch's log; a message only; or
      an exception that ends the batch. */
  datatype Kind = Archived | Logged(error: PyError) | Reported(error: PyError) | Raised(error: PyError)

  datatype Event = Event(query: string, organism: string, kind: Kind)

  /** A batch: the jobs in the order they ran, the files afterwards, and the exception that
      ended it early, if any. */
  datatype Run = Run(events: seq<Event>, disk: Loader.TextDisk, error: Option<PyError>)

  /** The (query, organism) pairs of a list of events. */
  function Pairs(events: seq<Event>): (pairs: seq<(string, string)>)
    ensures |pairs| == |events|
    ensures forall n :: 0 <= n < |events| ==> pairs[n] == (events[n].query, events[n].organism)
  {
    seq(|events|, n requires 0 <= n < |events| => (events[n].query, events[n].organism))
  }

  /** What a batch does with the job of organism number `j` of a row, given the organism and
      the files before it: how the job ended and the files after it. */
  type Handler = (nat, string, Loader.TextDisk) -> (Kind, Loader.TextDisk)

  /** The handlers of a batch, one per query line number and query. */
  type Rows = (nat, string) -> Handler

  /** Every handler of the family keeps every file but `raw` and only appends to them. */
  ghost predicate RowsGrow(rows: Rows, raw: string) {
    forall qi, query, k, o, d :: Files.Grows(d, rows(qi, query)(k, o, d).1, raw)
  }

  /** The inner loop of a batch from organism number `j` on: one event per job, in order; an
      exception the handlers do not catch ends the batch with the job that raised it. */
  function RunRow(query: string, organisms: seq<string>, handle: Handler, j: nat,
                  disk: Loader.TextDisk, events: seq<Event>): Run
    requires j <= |organisms|
    decreases |organisms| - j
  {
    if j == |organisms| then Run(events, disk, None)
    else
      var step := handle(j, organisms[j], disk);
      var events' := events + [Event(query, organisms[j], step.0)];
      if step.0.Raised? then Run(events', step.1, Some(step.0.error))
      else RunRow(query, organisms, handle, j + 1, step.1, events')
  }

  /** The jobs of one query, organism by organism. */
  function Row(query: string, organisms: seq<string>): (pairs: seq<(string, string)>)
    ensures |pairs| == |organisms|
    ensures forall j :: 0 <= j < |organisms| ==> pairs[j] == (query, organisms[j])
  {
    seq(|organisms|, j requires 0 <= j < |organisms| => (query, organisms[j]))
  }

  /** The jobs of a batch in order: query by query, and for each query the organisms of its row
      in order. */
  function Grid(queries: seq<string>, rows: seq<seq<string>>): seq<(string, string)>
    requires |rows| == |queries|
  {
    if queries == [] then [] else Row(queries[0], rows[0]) + Grid(queries[1..], rows[1..])
  }

  lemma PairsAppend(events: seq<Event>, more: seq<Event>)
    ensures Pairs(events + more) == Pairs(events) + Pairs(more)
  {
  }

  /** The inner loop only appends to the events so far, and never more than the row holds. */
  lemma {:induction false} RunRowPrefix(query: string, organisms: seq<string>, handle: Handler, j: nat,
                                        disk: Loader.TextDisk, events: seq<Event>)
    requires j <= |organisms|
    ensures var r := RunRow(query, organisms, handle, j, disk, events);
      && |events| <= |r.events| <= |events| + |organisms| - j
      && r.events[..|events|] == events
    decreases |organisms| - j
  {
    if j < |organisms| {
      var step := handle(j, organisms[j], disk);
      var events' := events + [Event(query, organisms[j], step.0)];
      if !step.0.Raised? {
        RunRowPrefix(query, organisms, handle, j + 1, step.1, events');
        var r := RunRow(query, organisms, handle, j + 1, step.1, events');
        assert r.events[..|events|] == r.events[..|events'|][..|events|];
      }
    }
  }

  /** A job that does not raise hands on to the next organism of the row. */
  lemma RunRowStep(query: string, organisms: seq<string>, handle: Handler, j: nat,
                   disk: Loader.TextDisk, events: seq<Event>)
    requires j < |organisms|
    ensures var step := handle(j, organisms[j], disk);
      var events' := events + [Event(query, organisms[j], step.0)];
      RunRow(query, organisms, handle, j, disk, events)
        == if step.0.Raised? then Run(events', step.1, Some(step.0.error))
           else RunRow(query, organisms, handle, j + 1, step.1, events')
  {
  }

  /** The inner loop appends to the events so far one event per job, organism by organism in
      list order, and never more than the row holds. */
  lemma {:induction false} RunRowOrder(query: string, organisms: seq<string>, handle: Handler, j: nat,
                                       disk: Loader.TextDisk, events: seq<Event>)
    requires j <= |organisms|
    ensures var r := RunRow(query, organisms, handle, j, disk, events); var n := |r.events| - |events|;
      && |events| <= |r.events| && n <= |organisms| - j
      && r.events[..|events|] == events
      && Pairs(r.events) == Pairs(events) + Row(query, organisms[j..j + n])
    decreases |organisms| - j
  {
    RunRowPrefix(query, organisms, handle, j, disk, events);
    if j == |organisms| {
      assert organisms[j..j] == [];
      assert Pairs(events) + [] == Pairs(events);
    } else {
      var step := handle(j, organisms[j], disk);
      var events' := events + [Event(query, organisms[j], step.0)];
      if !step.0.Raised? {
        RunRowPrefix(query, organisms, handle, j + 1, step.1, events');
        RunRowOrder(query, organisms, handle, j + 1, step.1, events');
      }
      RunRowOrderStep(query, organisms, handle, j, disk, events);
    }
  }

  /** The step of `RunRowOrder`: the event of organism `j`, then those of the organisms after it. */
  lemma RunRowOrderStep(query: string, organisms: seq<string>, handle: Handler, j: nat,
                        disk: Loader.TextDisk, events: seq<Event>)
    requires j < |organisms|
    requires var step := handle(j, organisms[j], disk);
      var events' := events + [Event(query, organisms[j], step.0)];
      var r := RunRow(query, organisms, handle, j + 1, step.1, events'); var n := |r.events| - |events'|;
      !step.0.Raised? ==>
        && |events'| <= |r.events| && n <= |organisms| - j - 1
        && Pairs(r.events) == Pairs(events') + Row(query, organisms[j + 1..j + 1 + n])
    ensures var r := RunRow(query, organisms, handle, j, disk, events); var n := |r.events| - |events|;
      0 < n <= |organisms| - j && Pairs(r.events) == Pairs(events) + Row(query, organisms[j..j + n])
  {
    var step := handle(j, organisms[j], disk);
    var e := Event(query, organisms[j], step.0);
    var events' := events + [e];
    RunRowStep(query, organisms, handle, j, disk, events);
    PairsAppend(events, [e]);
    if step.0.Raised? {
      assert organisms[j..j + 1] == [organisms[j]];
    } else {
      var r := RunRow(query, organisms, handle, j + 1, step.1, events');
      RowPrepend(query, organisms, j, |r.events| - |events|, Pairs(events'), Pairs(events));
    }
  }

  /** The pairs of the events so far followed by a row slice that starts at `j`. */
  lemma RowPrepend(query: string, organisms: seq<string>, j: nat, n: nat,
                   before: seq<(string, string)>, start: seq<(string, string)>)
    requires 0 < n && j + n <= |organisms|
    requires before == start + [(query, organisms[j])]
    ensures before + Row(query, organisms[j + 1..j + n]) == start + Row(query, organisms[j..j + n])
  {
    var tail := organisms[j + 1..j + n];
    var row := organisms[j..j + n];
    var lhs := before + Row(query, tail);
    var rhs := start + Row(query, row);
    forall m | 0 <= m < |lhs| ensures lhs[m] == rhs[m] {
      if m > |start| {
        assert tail[m - |start| - 1] == row[m - |start|];
      }
    }
  }

  /** The inner loop completes the row exactly when no job raised, and otherwise stops at the
      first job that did, with that job's exception. */
  lemma {:induction false} RunRowEnds(query: string, organisms: seq<string>, handle: Handler, j: nat,
                                      disk: Loader.TextDisk, events: seq<Event>)
    requires j <= |organisms|
    ensures var r := RunRow(query, organisms, handle, j, disk, events);
      && |events| <= |r.events|
      && (r.error.None? ==> |r.events| == |events| + |organisms| - j && forall m :: |events| <= m < |r.events| ==> !r.events[m].kind.Raised?)
      && (r.error.Some? ==>
            && |events| < |r.events| && r.events[|r.events| - 1].kind == Raised(r.error.value)
            && forall m :: |events| <= m < |r.events| - 1 ==> !r.events[m].kind.Raised?)
    decreases |organisms| - j
  {
    if j < |organisms| {
      var step := handle(j, organisms[j], disk);
      var events' := events + [Event(query, organisms[j], step.0)];
      if !step.0.Raised? {
        RunRowEnds(query, organisms, handle, j + 1, step.1, events');
        RunRowPrefix(query, organisms, handle, j + 1, step.1, events');
        var r := RunRow(query, organisms, handle, j + 1, step.1, events');
        assert RunRow(query, organisms, handle, j, disk, events) == r;
        assert r.events[|events|] == r.events[..|events'|][|events|] == events'[|events|];
      }
    }
  }

  /** No event of `events` is an exception that ended the batch. */
  predicate NoneRaised(events: seq<Event>) {
    forall n :: 0 <= n < |events| ==> !events[n].kind.Raised?
  }

  /** A row whose jobs never raise completes, and adds no such event. */
  lemma {:induction false} RunRowCompletes(query: string, organisms: seq<string>, handle: Handler, j: nat,
                                           disk: Loader.TextDisk, events: seq<Event>)
    requires j <= |organisms|
    requires forall k, o, d :: !handle(k, o, d).0.Raised?
    ensures var r := RunRow(query, organisms, handle, j, disk, events);
      r.error.None? && (NoneRaised(events) ==> NoneRaised(r.events))
    decreases |organisms| - j
  {
    if j < |organisms| {
      var step := handle(j, organisms[j], disk);
      RunRowCompletes(query, organisms, handle, j + 1, step.1, events + [Event(query, organisms[j], step.0)]);
    }
  }

  /** A row whose jobs each only extend the files other than raw downloads does so too. */
  lemma {:induction false} RunRowGrows(query: string, organisms: seq<string>, handle: Handler, j: nat,
                                       disk: Loader.TextDisk, events: seq<Event>, raw: string)
    requires j <= |organisms|
    requires forall k, o, d :: Files.Grows(d, handle(k, o, d).1, raw)
    ensures Files.Grows(disk, RunRow(query, organisms, handle, j, disk, events).disk, raw)
    decreases |organisms| - j
  {
    if j == |organisms| {
      Files.GrowsRefl(disk, raw);
    } else {
      var step := handle(j, organisms[j], disk);
      var events' := events + [Event(query, organisms[j], step.0)];
      if !step.0.Raised? {
        RunRowGrows(query, organisms, handle, j + 1, step.1, events', raw);
        Files.GrowsTrans(disk, step.1, RunRow(query, organisms, handle, j + 1, step.1, events').disk, raw);
      }
    }
  }
}
