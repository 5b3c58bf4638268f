/** auto_blast.py's `auto_blastp`: for every line `id,code` of the query list and every organism
    of the organism list, a BLASTP search whose FASTA result is downloaded as `seqdump.txt` into
    `ROOT/blast/<id>` and renamed to `<organism>.txt`. An organism without a hit is appended to
    `ROOT/blast/<id> - no homology.txt`; every other failure of a job only prints a message. */
module AutoBlast {
  import opened Common
  import Text
  import Seqs
  import Paths
  import Loader
  import Files
  import opened Jobs

  /** The name under which the result page downloads its FASTA file. */
  const RawName: string := "seqdump.txt"

  /** `os.path.join(ROOT, "blast", query)`: where the results of a query are kept. */
  function DownloadDir(root: string, query: string): string {
    Paths.Join(Paths.Join(root, "blast"), query)
  }

  /** `os.path.join(ROOT, "blast", f"{query} - no homology.txt")`. */
  function NoHomologyLog(root: string, query: string): string {
    Paths.Join(Paths.Join(root, "blast"), query + " - no homology.txt")
  }

  /** One job and the handlers around it: ElementNotInteractableException (the result page
      offers nothing to download) logs the organism; DownloadTimeoutException and, through the
      bare `except`, any other exception only print a message. */
  function BlastJob(root: string, query: string, organism: string, job: Job, disk: Loader.TextDisk): (Kind, Loader.TextDisk) {
    Handled(root, query, organism, Fetch(disk, DownloadDir(root, query), RawName, organism + ".txt", job))
  }

  /** The handlers around the job, given how its download ended. */
  function Handled(root: string, query: string, organism: string, s: Step): (Kind, Loader.TextDisk) {
    if s.error.None? then (Archived, s.disk)
    else if s.error.value == ElementNotInteractable then
      (Logged(ElementNotInteractable), Files.AppendText(s.disk, NoHomologyLog(root, query), organism + "\n"))
    else (Reported(s.error.value), s.disk)
  }

  /** The body of the inner loop: the job inside its `try` and the handlers. */
  method TryJob(root: string, query: string, organism: string, job: Job, disk: Loader.TextDisk)
    returns (kind: Kind, after: Loader.TextDisk)
    ensures (kind, after) == BlastJob(root, query, organism, job, disk)
  {
    var s := Download(disk, DownloadDir(root, query), RawName, organism + ".txt", job);
    if s.error.None? {
      return Archived, s.disk;
    } else if s.error.value == ElementNotInteractable {
      return Logged(ElementNotInteractable), Files.AppendText(s.disk, NoHomologyLog(root, query), organism + "\n");
    } else {
      return Reported(s.error.value), s.disk;
    }
  }

  /** The handler of the jobs of query line number `qi`. */
  function BlastHandler(root: string, query: string, qi: nat, jobs: (nat, nat) -> Job): Handler {
    (j: nat, organism: string, disk: Loader.TextDisk) => BlastJob(root, query, organism, jobs(qi, j), disk)
  }

  /** The handlers of the whole batch. */
  function BlastRows(root: string, jobs: (nat, nat) -> Job): Rows {
    (qi: nat, query: string) => BlastHandler(root, query, qi, jobs)
  }

  /** The query line has the two fields `query, code = query_line.split(",")` unpacks. */
  predicate WellFormed(fields: seq<string>) {
    |fields| == 2
  }

  /** The query lines, each split at its commas. */
  function Records(lines: seq<string>): (records: seq<seq<string>>)
    ensures |records| == |lines|
  {
    seq(|lines|, i requires 0 <= i < |lines| => Text.Split(lines[i], ','))
  }

  /** The outer loop from query line number `i` on, with `rows(i, query)` handling the jobs of
      line `i`. Unpacking a line that does not split into two fields raises ValueError outside
      the `try`, and iterating over a missing organism list raises TypeError; both end the batch. */
  function RunQueries(records: seq<seq<string>>, organisms: Option<seq<string>>, rows: Rows,
                      i: nat, disk: Loader.TextDisk, events: seq<Event>): Run
    requires i <= |records|
    decreases |records| - i
  {
    if i == |records| then Run(events, disk, None)
    else if !WellFormed(records[i]) then Run(events, disk, Some(ValueError))
    else if organisms.None? then Run(events, disk, Some(TypeError))
    else
      var query := records[i][0];
      var r := RunRow(query, organisms.value, rows(i, query), 0, disk, events);
      RunQueries(records, organisms, rows, i + 1, r.disk, r.events)
  }

  /** `auto_blastp` without `--simple`: the query list, then the organism list, are loaded; the
      check of the inputs only prints, so a missing query list raises TypeError at the loop. */
  function AutoBlastpRun(disk: Loader.TextDisk, root: string, queryFile: string, organismFile: string,
                         jobs: (nat, nat) -> Job): Run
  {
    match Loader.LoadText(disk, Paths.Join(root, queryFile))
    case Raise(e) => Run([], disk, Some(e))
    case Ok(queries) =>
      match Loader.LoadText(disk, Paths.Join(root, organismFile))
      case Raise(e) => Run([], disk, Some(e))
      case Ok(organisms) =>
        if queries.None? then Run([], disk, Some(TypeError))
        else RunQueries(Records(queries.value), organisms, BlastRows(root, jobs), 0, disk, [])
  }

  /** The inner loop of `auto_blastp`: every organism of the list, for query line number `qi`. */
  method RunOrganisms(root: string, query: string, qi: nat, organisms: seq<string>, jobs: (nat, nat) -> Job,
                      disk: Loader.TextDisk, events: seq<Event>)
    returns (files: Loader.TextDisk, events': seq<Event>)
    ensures Run(events', files, None) == RunRow(query, organisms, BlastRows(root, jobs)(qi, query), 0, disk, events)
  {
    var handle := BlastHandler(root, query, qi, jobs);
    files, events' := disk, events;
    var j := 0;
    while j < |organisms|
      invariant 0 <= j <= |organisms|
      invariant RunRow(query, organisms, handle, j, files, events') == RunRow(query, organisms, handle, 0, disk, events)
    {
      var organism := organisms[j];
      ghost var before := files;
      var kind;
      kind, files := TryJob(root, query, organism, jobs(qi, j), files);
      BlastJobClassified(root, query, organism, jobs(qi, j), before);
      assert handle(j, organism, before) == (kind, files);
      events' := events' + [Event(query, organism, kind)];
      j := j + 1;
    }
    BlastRowsComplete(root, jobs);
    RowCompletes(BlastRows(root, jobs), qi, query, organisms, disk, events);
  }

  /** `auto_blastp`. `jobs(i, j)` is what the browser does for query line `i` and organism `j`. */
  method AutoBlastp(disk: Loader.TextDisk, root: string, queryFile: string, organismFile: string,
                    jobs: (nat, nat) -> Job) returns (run: Run)
    ensures run == AutoBlastpRun(disk, root, queryFile, organismFile, jobs)
  {
    var queryList := Loader.LoadTextInput(disk, Paths.Join(root, queryFile));
    if queryList.Raise? {
      return Run([], disk, Some(queryList.error));
    }
    var organismList := Loader.LoadTextInput(disk, Paths.Join(root, organismFile));
    if organismList.Raise? {
      return Run([], disk, Some(organismList.error));
    }
    if queryList.value.None? {
      return Run([], disk, Some(TypeError));
    }
    assert AutoBlastpRun(disk, root, queryFile, organismFile, jobs)
      == RunQueries(Records(queryList.value.value), organismList.value, BlastRows(root, jobs), 0, disk, []);
    run := RunBatch(root, queryList.value.value, organismList.value, jobs, disk);
  }

  /** The outer loop of `auto_blastp` over the loaded query lines. */
  method RunBatch(root: string, lines: seq<string>, organisms: Option<seq<string>>, jobs: (nat, nat) -> Job,
                  disk: Loader.TextDisk) returns (run: Run)
    ensures run == RunQueries(Records(lines), organisms, BlastRows(root, jobs), 0, disk, [])
  {
    var rows := BlastRows(root, jobs);
    ghost var records := Records(lines);
    var files := disk;
    var events: seq<Event> := [];
    var i := 0;
    while i < |lines|
      invariant 0 <= i <= |lines|
      invariant RunQueries(records, organisms, rows, i, files, events) == RunQueries(records, organisms, rows, 0, disk, [])
    {
      var fields := Text.Split(lines[i], ',');
      assert fields == records[i];
      if |fields| != 2 {
        return Run(events, files, Some(ValueError));
      }
      // the second field, the sequence typed into the search form, goes to the browser
      var query := fields[0];
      if organisms.None? {
        return Run(events, files, Some(TypeError));
      }
      files, events := RunOrganisms(root, query, i, organisms.value, jobs, files, events);
      i := i + 1;
    }
    return Run(events, files, None);
  }

  // ---------------------------------------------------------------- properties

  /** How the handlers classify a job: the organism is logged exactly when the session raised
      ElementNotInteractableException, and then only the log changes, by one line; the job is
      archived exactly when the download ends without error; every other exception, a timeout
      and a name conflict included, is only reported. No job ends the batch. */
  lemma BlastJobClassified(root: string, query: string, organism: string, job: Job, disk: Loader.TextDisk)
    ensures var (kind, after) := BlastJob(root, query, organism, job, disk);
      var s := Fetch(disk, DownloadDir(root, query), RawName, organism + ".txt", job);
      && !kind.Raised?
      && (kind.Logged? <==> job.session == Threw(ElementNotInteractable))
      && (kind.Logged? ==> after == Files.AppendText(disk, NoHomologyLog(root, query), organism + "\n"))
      && (kind == Archived <==> s.error.None?)
      && (kind.Reported? <==> s.error.Some? && s.error.value != ElementNotInteractable)
      && (kind.Reported? ==> kind.error == s.error.value && after == s.disk)
  {
    var s := Fetch(disk, DownloadDir(root, query), RawName, organism + ".txt", job);
    FetchErrors(disk, DownloadDir(root, query), RawName, organism + ".txt", job);
    assert BlastJob(root, query, organism, job, disk) == Handled(root, query, organism, s);
    HandledKinds(root, query, organism, s);
  }

  /** The handlers in terms of how the download ended. */
  lemma HandledKinds(root: string, query: string, organism: string, s: Step)
    ensures var (kind, after) := Handled(root, query, organism, s);
      && !kind.Raised?
      && (kind.Logged? <==> s.error == Some(ElementNotInteractable))
      && (kind.Logged? ==> after == Files.AppendText(s.disk, NoHomologyLog(root, query), organism + "\n"))
      && (kind == Archived <==> s.error.None?)
      && (kind.Reported? <==> s.error.Some? && s.error.value != ElementNotInteractable)
      && (kind.Reported? ==> kind.error == s.error.value && after == s.disk)
  {
  }

  /** No handler of the family raises. */
  ghost predicate NeverRaises(rows: Rows) {
    forall qi, query, k, o, d :: !rows(qi, query)(k, o, d).0.Raised?
  }

  /** No job of `auto_blastp` ends the batch. */
  lemma BlastRowsComplete(root: string, jobs: (nat, nat) -> Job)
    ensures NeverRaises(BlastRows(root, jobs))
  {
    forall qi, query, k, o, d ensures !BlastRows(root, jobs)(qi, query)(k, o, d).0.Raised? {
      BlastJobClassified(root, query, o, jobs(qi, k), d);
    }
  }

  /** When no job raises, the row of a query line always completes. */
  lemma RowCompletes(rows: Rows, qi: nat, query: string, organisms: seq<string>,
                     disk: Loader.TextDisk, events: seq<Event>)
    requires NeverRaises(rows)
    ensures var r := RunRow(query, organisms, rows(qi, query), 0, disk, events);
      r.error.None? && (NoneRaised(events) ==> NoneRaised(r.events))
  {
    var handle := rows(qi, query);
    assert forall k, o, d :: !handle(k, o, d).0.Raised?;
    RunRowCompletes(query, organisms, handle, 0, disk, events);
  }

  /** The first query line from `i` on that does not have two fields, or the end of the list. */
  function FirstMalformed(records: seq<seq<string>>, i: nat): (k: nat)
    requires i <= |records|
    ensures i <= k <= |records|
    ensures forall l :: i <= l < k ==> WellFormed(records[l])
    ensures k < |records| ==> !WellFormed(records[k])
    decreases |records| - i
  {
    if i == |records| || !WellFormed(records[i]) then i else FirstMalformed(records, i + 1)
  }

  /** The query id of each record: its first field (a split line always has one). */
  function QueryIds(records: seq<seq<string>>): (ids: seq<string>)
    ensures |ids| == |records|
  {
    seq(|records|, l requires 0 <= l < |records| => if records[l] == [] then "" else records[l][0])
  }

  /** `n` copies of the organism list: every query runs all organisms. */
  function Repeat(organisms: seq<string>, n: nat): (rows: seq<seq<string>>)
    ensures |rows| == n
  {
    seq(n, _ => organisms)
  }

  /** When no job raises, the row of a query line runs every organism once, in list order. */
  lemma RowOrder(rows: Rows, qi: nat, query: string, organisms: seq<string>,
                 disk: Loader.TextDisk, events: seq<Event>)
    requires NeverRaises(rows)
    ensures Pairs(RunRow(query, organisms, rows(qi, query), 0, disk, events).events)
      == Pairs(events) + Row(query, organisms)
  {
    var handle := rows(qi, query);
    var r := RunRow(query, organisms, handle, 0, disk, events);
    RowCompletes(rows, qi, query, organisms, disk, events);
    RunRowOrder(query, organisms, handle, 0, disk, events);
    RunRowEnds(query, organisms, handle, 0, disk, events);
    assert organisms[0..|r.events| - |events|] == organisms;
  }

  /** The jobs of records `i` to `k` are those of record `i` followed by those of the others. */
  lemma GridStep(records: seq<seq<string>>, organisms: seq<string>, i: nat, k: nat)
    requires i < k <= |records| && records[i] != []
    ensures Grid(QueryIds(records[i..k]), Repeat(organisms, k - i))
      == Row(records[i][0], organisms) + Grid(QueryIds(records[i + 1..k]), Repeat(organisms, k - i - 1))
  {
    var ids := QueryIds(records[i..k]);
    assert ids[0] == records[i][0];
    assert ids[1..] == QueryIds(records[i + 1..k]);
    assert Repeat(organisms, k - i)[1..] == Repeat(organisms, k - i - 1);
  }

  /** The outer loop runs the well-formed query records in order, each with every organism, up to
      the first malformed line. */
  lemma RunQueriesOrder(records: seq<seq<string>>, organisms: seq<string>, rows: Rows,
                        i: nat, disk: Loader.TextDisk, events: seq<Event>)
    requires i <= |records| && NeverRaises(rows)
    ensures var r := RunQueries(records, Some(organisms), rows, i, disk, events);
      var k := FirstMalformed(records, i);
      Pairs(r.events) == Pairs(events) + Grid(QueryIds(records[i..k]), Repeat(organisms, k - i))
  {
    RunQueriesPlanned(records, organisms, rows, i, disk, events);
    PlannedGrid(records, organisms, i);
  }

  /** The jobs of the query lines from number `i` up to the first malformed one, each line with
      every organism. */
  function Planned(records: seq<seq<string>>, organisms: seq<string>, i: nat): seq<(string, string)>
    requires i <= |records|
    decreases |records| - i
  {
    if i == |records| || !WellFormed(records[i]) then []
    else Row(records[i][0], organisms) + Planned(records, organisms, i + 1)
  }

  /** When no job raises, the loop runs exactly the planned jobs. */
  lemma {:induction false} RunQueriesPlanned(records: seq<seq<string>>, organisms: seq<string>, rows: Rows,
                                             i: nat, disk: Loader.TextDisk, events: seq<Event>)
    requires i <= |records| && NeverRaises(rows)
    ensures Pairs(RunQueries(records, Some(organisms), rows, i, disk, events).events)
      == Pairs(events) + Planned(records, organisms, i)
    decreases |records| - i
  {
    if i < |records| && WellFormed(records[i]) {
      var query := records[i][0];
      var r1 := RunRow(query, organisms, rows(i, query), 0, disk, events);
      QueriesStep(records, organisms, rows, i, disk, events);
      RunQueriesPlanned(records, organisms, rows, i + 1, r1.disk, r1.events);
      Seqs.AppendTwice(Pairs(events), Pairs(r1.events), Pairs(RunQueries(records, Some(organisms), rows, i, disk, events).events),
        Row(query, organisms), Planned(records, organisms, i + 1), Planned(records, organisms, i));
    } else {
      assert Pairs(events) + [] == Pairs(events);
    }
  }

  /** The planned jobs are the grid of the well-formed query lines and the organism list. */
  lemma {:induction false} PlannedGrid(records: seq<seq<string>>, organisms: seq<string>, i: nat)
    requires i <= |records|
    ensures var k := FirstMalformed(records, i);
      Planned(records, organisms, i) == Grid(QueryIds(records[i..k]), Repeat(organisms, k - i))
    decreases |records| - i
  {
    var k := FirstMalformed(records, i);
    if i == k {
      assert QueryIds(records[i..k]) == [];
    } else {
      PlannedGrid(records, organisms, i + 1);
      assert FirstMalformed(records, i + 1) == k;
      GridStep(records, organisms, i, k);
    }
  }

  /** A well-formed query line runs its row, every organism in order, and the loop goes on. */
  lemma QueriesStep(records: seq<seq<string>>, organisms: seq<string>, rows: Rows,
                    i: nat, disk: Loader.TextDisk, events: seq<Event>)
    requires i < |records| && WellFormed(records[i]) && NeverRaises(rows)
    ensures var r1 := RunRow(records[i][0], organisms, rows(i, records[i][0]), 0, disk, events);
      && RunQueries(records, Some(organisms), rows, i, disk, events)
           == RunQueries(records, Some(organisms), rows, i + 1, r1.disk, r1.events)
      && Pairs(r1.events) == Pairs(events) + Row(records[i][0], organisms)
  {
    RowOrder(rows, i, records[i][0], organisms, disk, events);
  }

  /** The outer loop stops with ValueError at the first malformed query line, and completes
      when there is none. */
  lemma {:induction false} RunQueriesError(records: seq<seq<string>>, organisms: seq<string>, rows: Rows,
                                           i: nat, disk: Loader.TextDisk, events: seq<Event>)
    requires i <= |records| && NeverRaises(rows)
    ensures RunQueries(records, Some(organisms), rows, i, disk, events).error
      == if FirstMalformed(records, i) < |records| then Some(ValueError) else None
    decreases |records| - i
  {
    if i < |records| && WellFormed(records[i]) {
      var query := records[i][0];
      var r1 := RunRow(query, organisms, rows(i, query), 0, disk, events);
      RowCompletes(rows, i, query, organisms, disk, events);
      RunQueriesError(records, organisms, rows, i + 1, r1.disk, r1.events);
    }
  }

  /** When no job raises, every job event of a run is archived, logged or reported. */
  lemma {:induction false} RunQueriesNoneRaised(records: seq<seq<string>>, organisms: Option<seq<string>>, rows: Rows,
                                                i: nat, disk: Loader.TextDisk, events: seq<Event>)
    requires i <= |records| && NoneRaised(events) && NeverRaises(rows)
    ensures NoneRaised(RunQueries(records, organisms, rows, i, disk, events).events)
    decreases |records| - i
  {
    if i < |records| && WellFormed(records[i]) && organisms.Some? {
      var query := records[i][0];
      var r1 := RunRow(query, organisms.value, rows(i, query), 0, disk, events);
      RowCompletes(rows, i, query, organisms.value, disk, events);
      RunQueriesNoneRaised(records, organisms, rows, i + 1, r1.disk, r1.events);
    }
  }

  /** The outer loop from the first query line with no events yet, when no job raises. */
  lemma BatchOrder(records: seq<seq<string>>, organisms: seq<string>, rows: Rows, disk: Loader.TextDisk)
    requires NeverRaises(rows)
    ensures var run := RunQueries(records, Some(organisms), rows, 0, disk, []);
      var k := FirstMalformed(records, 0);
      && Pairs(run.events) == Grid(QueryIds(records[..k]), Repeat(organisms, k))
      && (run.error.None? <==> forall l :: 0 <= l < |records| ==> WellFormed(records[l]))
      && (run.error.Some? ==> run.error == Some(ValueError))
      && NoneRaised(run.events)
  {
    RunQueriesOrder(records, organisms, rows, 0, disk, []);
    RunQueriesError(records, organisms, rows, 0, disk, []);
    RunQueriesNoneRaised(records, Some(organisms), rows, 0, disk, []);
    var k := FirstMalformed(records, 0);
    assert records[0..k] == records[..k];
    assert Pairs([]) == [];
    var g := Grid(QueryIds(records[..k]), Repeat(organisms, k));
    assert [] + g == g;
  }

  /** `auto_blastp` on loaded lists: the jobs run query line by query line, each with every
      organism in order; the batch completes exactly when every query line has two fields, and
      otherwise stops with ValueError at the first that does not, after the records before it.
      Unlike auto_clustalw.py, no job exception ends the batch: every job event is archived,
      logged or reported. */
  lemma AutoBlastpOrder(disk: Loader.TextDisk, root: string, queryFile: string, organismFile: string,
                        jobs: (nat, nat) -> Job, lines: seq<string>, organisms: seq<string>)
    requires Loader.LoadText(disk, Paths.Join(root, queryFile)) == Ok(Some(lines))
    requires Loader.LoadText(disk, Paths.Join(root, organismFile)) == Ok(Some(organisms))
    ensures var run := AutoBlastpRun(disk, root, queryFile, organismFile, jobs);
      var records := Records(lines);
      var k := FirstMalformed(records, 0);
      && Pairs(run.events) == Grid(QueryIds(records[..k]), Repeat(organisms, k))
      && (run.error.None? <==> forall l :: 0 <= l < |records| ==> WellFormed(records[l]))
      && (run.error.Some? ==> run.error == Some(ValueError))
      && NoneRaised(run.events)
  {
    assert AutoBlastpRun(disk, root, queryFile, organismFile, jobs)
      == RunQueries(Records(lines), Some(organisms), BlastRows(root, jobs), 0, disk, []);
    BlastRowsComplete(root, jobs);
    BatchOrder(Records(lines), organisms, BlastRows(root, jobs), disk);
  }

  /** Without an organism list the batch stops with TypeError as soon as a query line has been
      unpacked, before any job; with no query line it completes with none. */
  lemma MissingOrganismList(records: seq<seq<string>>, rows: Rows, disk: Loader.TextDisk)
    ensures var r := RunQueries(records, None, rows, 0, disk, []);
      && r.events == [] && r.disk == disk
      && r.error == (if records == [] then None else if WellFormed(records[0]) then Some(TypeError) else Some(ValueError))
  {
  }

  /** The raw name is a plain file name. */
  lemma RawNameIsBase()
    ensures '/' !in RawName
  {
  }

  lemma DownloadDirNotEmpty(root: string, query: string)
    ensures DownloadDir(root, query) != ""
  {
    var blast := Paths.Join(root, "blast");
    assert |blast| >= 5;
  }

  /** A job removes or shortens no file but a raw download. */
  lemma BlastJobGrows(root: string, query: string, organism: string, job: Job, disk: Loader.TextDisk)
    ensures Files.Grows(disk, BlastJob(root, query, organism, job, disk).1, RawName)
  {
    var s := Fetch(disk, DownloadDir(root, query), RawName, organism + ".txt", job);
    DownloadDirNotEmpty(root, query);
    RawNameIsBase();
    FetchGrows(disk, DownloadDir(root, query), RawName, organism + ".txt", job);
    HandledGrows(root, query, organism, disk, s);
  }

  /** The handlers only append to the no-homology log. */
  lemma HandledGrows(root: string, query: string, organism: string, disk: Loader.TextDisk, s: Step)
    requires Files.Grows(disk, s.disk, RawName)
    ensures Files.Grows(disk, Handled(root, query, organism, s).1, RawName)
  {
    if s.error == Some(ElementNotInteractable) {
      var after := Files.AppendText(s.disk, NoHomologyLog(root, query), organism + "\n");
      Files.AppendGrows(s.disk, NoHomologyLog(root, query), organism + "\n", RawName);
      Files.GrowsTrans(disk, s.disk, after, RawName);
      assert Handled(root, query, organism, s).1 == after;
    } else {
      assert Handled(root, query, organism, s).1 == s.disk;
    }
  }

  /** Every job of `auto_blastp` keeps every file but a raw download. */
  lemma BlastRowsGrow(root: string, jobs: (nat, nat) -> Job)
    ensures RowsGrow(BlastRows(root, jobs), RawName)
  {
    forall qi, query, k, o, d ensures Files.Grows(d, BlastRows(root, jobs)(qi, query)(k, o, d).1, RawName) {
      BlastJobGrows(root, query, o, jobs(qi, k), d);
    }
  }

  /** The logs and archived results are only ever added to: across the whole batch, every file
      other than a raw download stays and keeps its text as a prefix. */
  lemma {:induction false} RunQueriesGrows(records: seq<seq<string>>, organisms: Option<seq<string>>, rows: Rows,
                                           i: nat, disk: Loader.TextDisk, events: seq<Event>, raw: string)
    requires i <= |records| && RowsGrow(rows, raw)
    ensures Files.Grows(disk, RunQueries(records, organisms, rows, i, disk, events).disk, raw)
    decreases |records| - i
  {
    if i == |records| || !WellFormed(records[i]) || organisms.None? {
      Files.GrowsRefl(disk, raw);
    } else {
      var query := records[i][0];
      var handle := rows(i, query);
      var r := RunRow(query, organisms.value, handle, 0, disk, events);
      assert forall k, o, d :: Files.Grows(d, handle(k, o, d).1, raw);
      RunRowGrows(query, organisms.value, handle, 0, disk, events, raw);
      RunQueriesGrows(records, organisms, rows, i + 1, r.disk, r.events, raw);
      Files.GrowsTrans(disk, r.disk, RunQueries(records, organisms, rows, i, disk, events).disk, raw);
    }
  }

  /** The outer loop of `auto_blastp` from the first query line keeps every file but a raw
      download. */
  lemma BatchGrows(root: string, records: seq<seq<string>>, organisms: Option<seq<string>>,
                   jobs: (nat, nat) -> Job, disk: Loader.TextDisk)
    ensures Files.Grows(disk, RunQueries(records, organisms, BlastRows(root, jobs), 0, disk, []).disk, RawName)
  {
    BlastRowsGrow(root, jobs);
    RunQueriesGrows(records, organisms, BlastRows(root, jobs), 0, disk, [], RawName);
  }

  /** Across a whole `auto_blastp` run, no file but a raw `seqdump.txt` is removed or shortened. */
  lemma AutoBlastpGrows(disk: Loader.TextDisk, root: string, queryFile: string, organismFile: string,
                        jobs: (nat, nat) -> Job)
    ensures Files.Grows(disk, AutoBlastpRun(disk, root, queryFile, organismFile, jobs).disk, RawName)
  {
    var queries := Loader.LoadText(disk, Paths.Join(root, queryFile));
    var organisms := Loader.LoadText(disk, Paths.Join(root, organismFile));
    if queries.Ok? && organisms.Ok? && queries.value.Some? {
      BatchGrows(root, Records(queries.value.value), organisms.value, jobs, disk);
    } else {
      Files.GrowsRefl(disk, RawName);
    }
  }
}
