/** auto_clustalw.py's `auto_clustalw`: for every query line and every BLAST result file
    (a `.txt` file in `ROOT/blastp/<query>`), a ClustalW alignment whose guide tree downloads as
    `clustalw.dnd` into `ROOT/clustalw/<query>` and is renamed to `<organism>.dnd`. A selenium
    timeout appends the organism to `ROOT/clustalw/<query> - error.txt`, a download timeout only
    prints a message, and any other exception ends the whole batch. */
module AutoClustalw {
  import opened Common
  import Seqs
  import Paths
  import Loader
  import Files
  import opened Jobs

  /** The name under which the result page downloads its guide tree. */
  const RawName: string := "clustalw.dnd"

  /** `os.path.join(ROOT, "clustalw", query)`: where the trees of a query are kept. */
  function DownloadDir(root: string, query: string): string {
    Paths.Join(Paths.Join(root, "clustalw"), query)
  }

  /** `os.path.join(ROOT, "clustalw", f"{query} - error.txt")`. */
  function ErrorLog(root: string, query: string): string {
    Paths.Join(Paths.Join(root, "clustalw"), query + " - error.txt")
  }

  /** `os.path.join(ROOT, "blastp", query, "*.txt")`: the pattern the result files are globbed with. */
  function ResultPattern(root: string, query: string): string {
    Paths.Join(Paths.Join(Paths.Join(root, "blastp"), query), "*.txt")
  }

  /** The organism names of the result files: each file's name without its extension. */
  function Organisms(paths: seq<string>): (organisms: seq<string>)
    ensures |organisms| == |paths|
  {
    seq(|paths|, i requires 0 <= i < |paths| => Paths.Stem(paths[i]))
  }

  /** One job and the handlers around it: TimeoutException logs the organism,
      DownloadTimeoutException only prints a message, and any other exception is not caught. */
  function ClustalwJob(root: string, query: string, organism: string, job: Job, disk: Loader.TextDisk): (Kind, Loader.TextDisk) {
    Handled(root, query, organism, Fetch(disk, DownloadDir(root, query), RawName, organism + ".dnd", job))
  }

  /** The handlers around the job, given how its download ended. */
  function Handled(root: string, query: string, organism: string, s: Step): (Kind, Loader.TextDisk) {
    if s.error.None? then (Archived, s.disk)
    else if s.error.value == SeleniumTimeout then
      (Logged(SeleniumTimeout), Files.AppendText(s.disk, ErrorLog(root, query), organism + "\n"))
    else if s.error.value == DownloadTimeout then (Reported(DownloadTimeout), s.disk)
    else (Raised(s.error.value), s.disk)
  }

  /** The body of the inner loop: the job inside its `try` and the handlers. */
  method TryJob(root: string, query: string, organism: string, job: Job, disk: Loader.TextDisk)
    returns (kind: Kind, after: Loader.TextDisk)
    ensures (kind, after) == ClustalwJob(root, query, organism, job, disk)
  {
    var s := Download(disk, DownloadDir(root, query), RawName, organism + ".dnd", job);
    if s.error.None? {
      return Archived, s.disk;
    } else if s.error.value == SeleniumTimeout {
      return Logged(SeleniumTimeout), Files.AppendText(s.disk, ErrorLog(root, query), organism + "\n");
    } else if s.error.value == DownloadTimeout {
      return Reported(DownloadTimeout), s.disk;
    } else {
      return Raised(s.error.value), s.disk;
    }
  }

  /** The handler of the jobs of query line number `qi`. */
  function ClustalwHandler(root: string, query: string, qi: nat, jobs: (nat, nat) -> Job): Handler {
    (j: nat, organism: string, disk: Loader.TextDisk) => ClustalwJob(root, query, organism, jobs(qi, j), disk)
  }

  /** The handlers of the whole batch. */
  function ClustalwRows(root: string, jobs: (nat, nat) -> Job): Rows {
    (qi: nat, query: string) => ClustalwHandler(root, query, qi, jobs)
  }

  /** The organisms of each query: the stems of what the glob of its result pattern lists. */
  function GlobOrganisms(root: string, glob: string -> seq<string>): string -> seq<string> {
    query => Organisms(glob(ResultPattern(root, query)))
  }

  /** The outer loop from query line number `i` on: each whole line is a query, run with the
      organisms `organismsOf(query)`; the first exception a job does not catch ends the batch. */
  function RunQueries(queries: seq<string>, organismsOf: string -> seq<string>, rows: Rows,
                      i: nat, disk: Loader.TextDisk, events: seq<Event>): Run
    requires i <= |queries|
    decreases |queries| - i
  {
    if i == |queries| then Run(events, disk, None)
    else
      var r := RunRow(queries[i], organismsOf(queries[i]), rows(i, queries[i]), 0, disk, events);
      if r.error.Some? then r
      else RunQueries(queries, organismsOf, rows, i + 1, r.disk, r.events)
  }

  /** `auto_clustalw` without `--simple`: the query list is loaded; the check only prints, so a
      missing list raises TypeError at the loop. `glob(pattern)` is what `glob.glob` lists. */
  function AutoClustalwRun(disk: Loader.TextDisk, root: string, queryFile: string,
                           glob: string -> seq<string>, jobs: (nat, nat) -> Job): Run
  {
    match Loader.LoadText(disk, Paths.Join(root, queryFile))
    case Raise(e) => Run([], disk, Some(e))
    case Ok(queries) =>
      if queries.None? then Run([], disk, Some(TypeError))
      else RunQueries(queries.value, GlobOrganisms(root, glob), ClustalwRows(root, jobs), 0, disk, [])
  }

  /** The inner loop of `auto_clustalw` over the result files of query line number `qi`. */
  method RunOrganisms(root: string, query: string, qi: nat, paths: seq<string>, jobs: (nat, nat) -> Job,
                      disk: Loader.TextDisk, events: seq<Event>) returns (run: Run)
    ensures run == RunRow(query, Organisms(paths), ClustalwRows(root, jobs)(qi, query), 0, disk, events)
  {
    ghost var organisms := Organisms(paths);
    var handle := ClustalwHandler(root, query, qi, jobs);
    ghost var target := RunRow(query, organisms, handle, 0, disk, events);
    var files, events' := disk, events;
    var j := 0;
    while j < |paths|
      invariant 0 <= j <= |paths|
      invariant RunRow(query, organisms, handle, j, files, events') == target
    {
      var organism := Paths.Stem(paths[j]);
      assert organism == organisms[j];
      ghost var before := files;
      var kind;
      kind, files := TryJob(root, query, organism, jobs(qi, j), files);
      assert handle(j, organism, before) == (kind, files);
      events' := events' + [Event(query, organism, kind)];
      if kind.Raised? {
        return Run(events', files, Some(kind.error));
      }
      j := j + 1;
    }
    return Run(events', files, None);
  }

  /** The outer loop of `auto_clustalw` over the loaded query lines. */
  method RunBatch(root: string, queries: seq<string>, glob: string -> seq<string>, jobs: (nat, nat) -> Job,
                  disk: Loader.TextDisk) returns (run: Run)
    ensures run == RunQueries(queries, GlobOrganisms(root, glob), ClustalwRows(root, jobs), 0, disk, [])
  {
    var organismsOf := GlobOrganisms(root, glob);
    var rows := ClustalwRows(root, jobs);
    var files := disk;
    var events: seq<Event> := [];
    var i := 0;
    while i < |queries|
      invariant 0 <= i <= |queries|
      invariant RunQueries(queries, organismsOf, rows, i, files, events) == RunQueries(queries, organismsOf, rows, 0, disk, [])
    {
      var query := queries[i];
      var paths := glob(ResultPattern(root, query));
      var r := RunOrganisms(root, query, i, paths, jobs, files, events);
      if r.error.Some? {
        return r;
      }
      files, events := r.disk, r.events;
      i := i + 1;
    }
    return Run(events, files, None);
  }

  /** `auto_clustalw`. `jobs(i, j)` is what the browser does for query line `i` and result file `j`. */
  method AutoClustalw(disk: Loader.TextDisk, root: string, queryFile: string,
                      glob: string -> seq<string>, jobs: (nat, nat) -> Job) returns (run: Run)
    ensures run == AutoClustalwRun(disk, root, queryFile, glob, jobs)
  {
    var queryList := Loader.LoadTextInput(disk, Paths.Join(root, queryFile));
    if queryList.Raise? {
      return Run([], disk, Some(queryList.error));
    }
    if queryList.value.None? {
      return Run([], disk, Some(TypeError));
    }
    run := RunBatch(root, queryList.value.value, glob, jobs, disk);
  }

  // ---------------------------------------------------------------- properties

  /** How the handlers classify a job: the organism is logged exactly when selenium timed out,
      and then only the log changes, by one line; the job is archived exactly when the download
      ends without error; a download timeout is only reported; every other exception ends the
      batch. Once the browser part completed, the only such exception is a name conflict. */
  lemma ClustalwJobClassified(root: string, query: string, organism: string, job: Job, disk: Loader.TextDisk)
    ensures var (kind, after) := ClustalwJob(root, query, organism, job, disk);
      var s := Fetch(disk, DownloadDir(root, query), RawName, organism + ".dnd", job);
      && (kind.Logged? <==> job.session == Threw(SeleniumTimeout))
      && (kind.Logged? ==> after == Files.AppendText(disk, ErrorLog(root, query), organism + "\n"))
      && (kind == Archived <==> s.error.None?)
      && (kind.Reported? <==> s.error == Some(DownloadTimeout))
      && (kind.Raised? <==> s.error.Some? && s.error.value !in {SeleniumTimeout, DownloadTimeout})
      && (kind.Reported? || kind.Raised? ==> kind.error == s.error.value && after == s.disk)
      && (kind.Raised? && job.session.Completed? ==> kind.error == FileExistsError)
  {
    var s := Fetch(disk, DownloadDir(root, query), RawName, organism + ".dnd", job);
    FetchErrors(disk, DownloadDir(root, query), RawName, organism + ".dnd", job);
    assert ClustalwJob(root, query, organism, job, disk) == Handled(root, query, organism, s);
    HandledKinds(root, query, organism, s);
  }

  /** The handlers in terms of how the download ended. */
  lemma HandledKinds(root: string, query: string, organism: string, s: Step)
    ensures var (kind, after) := Handled(root, query, organism, s);
      && (kind.Logged? <==> s.error == Some(SeleniumTimeout))
      && (kind.Logged? ==> after == Files.AppendText(s.disk, ErrorLog(root, query), organism + "\n"))
      && (kind == Archived <==> s.error.None?)
      && (kind.Reported? <==> s.error == Some(DownloadTimeout))
      && (kind.Raised? <==> s.error.Some? && s.error.value !in {SeleniumTimeout, DownloadTimeout})
      && (kind.Reported? || kind.Raised? ==> kind.error == s.error.value && after == s.disk)
  {
  }

  /** The organisms of each query line, one row per line. */
  function OrganismRows(queries: seq<string>, organismsOf: string -> seq<string>): (rows: seq<seq<string>>)
    ensures |rows| == |queries|
  {
    seq(|queries|, l requires 0 <= l < |queries| => organismsOf(queries[l]))
  }

  /** The jobs of lines `i` on are those of line `i` followed by those of the others. */
  lemma GridStep(queries: seq<string>, organismsOf: string -> seq<string>, i: nat)
    requires i < |queries|
    ensures Grid(queries[i..], OrganismRows(queries[i..], organismsOf))
      == Row(queries[i], organismsOf(queries[i])) + Grid(queries[i + 1..], OrganismRows(queries[i + 1..], organismsOf))
  {
    assert queries[i..][1..] == queries[i + 1..];
    assert OrganismRows(queries[i..], organismsOf)[1..] == OrganismRows(queries[i + 1..], organismsOf);
  }

  /** The jobs of a batch run in order, query line by query line and for each line organism by
      organism: the batch's jobs are a prefix of that order, all of it when the batch completes. */
  lemma RunQueriesOrder(queries: seq<string>, organismsOf: string -> seq<string>, rows: Rows,
                        i: nat, disk: Loader.TextDisk, events: seq<Event>)
    requires i <= |queries|
    ensures var r := RunQueries(queries, organismsOf, rows, i, disk, events);
      var all := Pairs(events) + Grid(queries[i..], OrganismRows(queries[i..], organismsOf));
      && |events| <= |r.events| <= |all|
      && Pairs(r.events) == all[..|r.events|]
      && (r.error.None? ==> Pairs(r.events) == all)
  {
    RunQueriesPlanned(queries, organismsOf, rows, i, disk, events);
    PlannedGrid(queries, organismsOf, i);
  }

  /** The jobs of the query lines from number `i` on, each line with its organisms. */
  function Planned(queries: seq<string>, organismsOf: string -> seq<string>, i: nat): seq<(string, string)>
    requires i <= |queries|
    decreases |queries| - i
  {
    if i == |queries| then [] else Row(queries[i], organismsOf(queries[i])) + Planned(queries, organismsOf, i + 1)
  }

  /** The loop runs a prefix of the planned jobs, all of them when it completes. */
  lemma {:induction false} RunQueriesPlanned(queries: seq<string>, organismsOf: string -> seq<string>, rows: Rows,
                                             i: nat, disk: Loader.TextDisk, events: seq<Event>)
    requires i <= |queries|
    ensures var r := RunQueries(queries, organismsOf, rows, i, disk, events);
      var all := Pairs(events) + Planned(queries, organismsOf, i);
      && |events| <= |r.events| <= |all|
      && Pairs(r.events) == all[..|r.events|]
      && (r.error.None? ==> Pairs(r.events) == all)
    decreases |queries| - i
  {
    if i == |queries| {
      assert Pairs(events) + [] == Pairs(events);
      return;
    }
    var query := queries[i];
    var organisms := organismsOf(query);
    var r1 := RunRow(query, organisms, rows(i, query), 0, disk, events);
    var rest := Planned(queries, organismsOf, i + 1);
    QueriesStep(queries, organismsOf, rows, i, disk, events);
    Seqs.PrefixOfAppend(Pairs(events), Row(query, organisms), rest, |r1.events| - |events|);
    if r1.error.None? {
      RunQueriesPlanned(queries, organismsOf, rows, i + 1, r1.disk, r1.events);
      Seqs.AppendTwice(Pairs(events), Pairs(r1.events), Pairs(r1.events) + rest, Row(query, organisms), rest,
        Planned(queries, organismsOf, i));
    }
  }

  /** One query line: its row runs a prefix of its organisms in order, all of them unless a job
      raised, and the loop goes on only then. */
  lemma QueriesStep(queries: seq<string>, organismsOf: string -> seq<string>, rows: Rows,
                    i: nat, disk: Loader.TextDisk, events: seq<Event>)
    requires i < |queries|
    ensures var organisms := organismsOf(queries[i]);
      var r1 := RunRow(queries[i], organisms, rows(i, queries[i]), 0, disk, events);
      var n := |r1.events| - |events|;
      && RunQueries(queries, organismsOf, rows, i, disk, events)
           == (if r1.error.Some? then r1 else RunQueries(queries, organismsOf, rows, i + 1, r1.disk, r1.events))
      && |events| <= |r1.events| && n <= |organisms|
      && Pairs(r1.events) == Pairs(events) + Row(queries[i], organisms)[..n]
      && (r1.error.None? ==> n == |organisms|)
  {
    var query := queries[i];
    var organisms := organismsOf(query);
    var r1 := RunRow(query, organisms, rows(i, query), 0, disk, events);
    RunRowOrder(query, organisms, rows(i, query), 0, disk, events);
    RunRowEnds(query, organisms, rows(i, query), 0, disk, events);
    var n := |r1.events| - |events|;
    assert organisms[0..n] == organisms[..n];
    assert Row(query, organisms[..n]) == Row(query, organisms)[..n];
  }

  /** The planned jobs are the grid of the query lines and their organisms. */
  lemma {:induction false} PlannedGrid(queries: seq<string>, organismsOf: string -> seq<string>, i: nat)
    requires i <= |queries|
    ensures Planned(queries, organismsOf, i) == Grid(queries[i..], OrganismRows(queries[i..], organismsOf))
    decreases |queries| - i
  {
    if i < |queries| {
      PlannedGrid(queries, organismsOf, i + 1);
      GridStep(queries, organismsOf, i);
    }
  }

  /** The batch ends at the first job that raises an exception no handler catches, with that
      exception: it completes exactly when no job raised. */
  lemma {:induction false} RunQueriesEnds(queries: seq<string>, organismsOf: string -> seq<string>, rows: Rows,
                                          i: nat, disk: Loader.TextDisk, events: seq<Event>)
    requires i <= |queries|
    ensures var r := RunQueries(queries, organismsOf, rows, i, disk, events);
      && |events| <= |r.events| && r.events[..|events|] == events
      && (r.error.None? ==> forall m :: |events| <= m < |r.events| ==> !r.events[m].kind.Raised?)
      && (r.error.Some? ==>
            && |events| < |r.events| && r.events[|r.events| - 1].kind == Raised(r.error.value)
            && forall m :: |events| <= m < |r.events| - 1 ==> !r.events[m].kind.Raised?)
    decreases |queries| - i
  {
    if i < |queries| {
      var query := queries[i];
      var handle := rows(i, query);
      var r1 := RunRow(query, organismsOf(query), handle, 0, disk, events);
      RunRowEnds(query, organismsOf(query), handle, 0, disk, events);
      RunRowPrefix(query, organismsOf(query), handle, 0, disk, events);
      if r1.error.None? {
        RunQueriesEnds(queries, organismsOf, rows, i + 1, r1.disk, r1.events);
        var r := RunQueries(queries, organismsOf, rows, i + 1, r1.disk, r1.events);
        assert r.events[..|events|] == r.events[..|r1.events|][..|events|];
        forall m | |events| <= m < |r1.events| ensures r.events[m] == r1.events[m] {
          assert r.events[m] == r.events[..|r1.events|][m];
        }
      }
    }
  }

  /** `auto_clustalw` on a loaded query list: its jobs are a prefix of the query-by-organism
      order, all of it when it completes, and it ends at the first job that raised. */
  lemma AutoClustalwOrder(disk: Loader.TextDisk, root: string, queryFile: string,
                          glob: string -> seq<string>, jobs: (nat, nat) -> Job, queries: seq<string>)
    requires Loader.LoadText(disk, Paths.Join(root, queryFile)) == Ok(Some(queries))
    ensures var run := AutoClustalwRun(disk, root, queryFile, glob, jobs);
      var all := Grid(queries, OrganismRows(queries, GlobOrganisms(root, glob)));
      && |run.events| <= |all| && Pairs(run.events) == all[..|run.events|]
      && (run.error.None? ==> Pairs(run.events) == all && NoneRaised(run.events))
      && (run.error.Some? ==>
            && run.events != [] && run.events[|run.events| - 1].kind == Raised(run.error.value)
            && NoneRaised(run.events[..|run.events| - 1]))
  {
    assert AutoClustalwRun(disk, root, queryFile, glob, jobs)
      == RunQueries(queries, GlobOrganisms(root, glob), ClustalwRows(root, jobs), 0, disk, []);
    BatchOrder(queries, GlobOrganisms(root, glob), ClustalwRows(root, jobs), disk);
  }

  /** The order and the end of a whole batch, whatever the jobs do. */
  lemma BatchOrder(queries: seq<string>, organismsOf: string -> seq<string>, rows: Rows, disk: Loader.TextDisk)
    ensures var run := RunQueries(queries, organismsOf, rows, 0, disk, []);
      var all := Grid(queries, OrganismRows(queries, organismsOf));
      && |run.events| <= |all| && Pairs(run.events) == all[..|run.events|]
      && (run.error.None? ==> Pairs(run.events) == all && NoneRaised(run.events))
      && (run.error.Some? ==>
            && run.events != [] && run.events[|run.events| - 1].kind == Raised(run.error.value)
            && NoneRaised(run.events[..|run.events| - 1]))
  {
    RunQueriesOrder(queries, organismsOf, rows, 0, disk, []);
    RunQueriesEnds(queries, organismsOf, rows, 0, disk, []);
    assert queries[0..] == queries;
    var all := Grid(queries, OrganismRows(queries, organismsOf));
    assert Pairs([]) + all == all;
  }

  /** A query list that is missing or not a text file ends the batch with TypeError before any
      job; one that cannot be opened with the exception of `open`. */
  lemma NoQueryList(disk: Loader.TextDisk, root: string, queryFile: string,
                    glob: string -> seq<string>, jobs: (nat, nat) -> Job)
    requires Loader.LoadText(disk, Paths.Join(root, queryFile)).Raise? || Loader.LoadText(disk, Paths.Join(root, queryFile)) == Ok(None)
    ensures var run := AutoClustalwRun(disk, root, queryFile, glob, jobs);
      && run.events == [] && run.disk == disk
      && run.error == Some(if Loader.LoadText(disk, Paths.Join(root, queryFile)).Raise? then FileNotFoundError else TypeError)
  {
  }

  /** The raw name is a plain file name. */
  lemma RawNameIsBase()
    ensures '/' !in RawName
  {
  }

  lemma DownloadDirNotEmpty(root: string, query: string)
    ensures DownloadDir(root, query) != ""
  {
    var clustalw := Paths.Join(root, "clustalw");
    assert |clustalw| >= 8;
  }

  /** A job removes or shortens no file but a raw download. */
  lemma ClustalwJobGrows(root: string, query: string, organism: string, job: Job, disk: Loader.TextDisk)
    ensures Files.Grows(disk, ClustalwJob(root, query, organism, job, disk).1, RawName)
  {
    var s := Fetch(disk, DownloadDir(root, query), RawName, organism + ".dnd", job);
    DownloadDirNotEmpty(root, query);
    RawNameIsBase();
    FetchGrows(disk, DownloadDir(root, query), RawName, organism + ".dnd", job);
    HandledGrows(root, query, organism, disk, s);
  }

  /** The handlers only append to the error log. */
  lemma HandledGrows(root: string, query: string, organism: string, disk: Loader.TextDisk, s: Step)
    requires Files.Grows(disk, s.disk, RawName)
    ensures Files.Grows(disk, Handled(root, query, organism, s).1, RawName)
  {
    if s.error == Some(SeleniumTimeout) {
      var after := Files.AppendText(s.disk, ErrorLog(root, query), organism + "\n");
      Files.AppendGrows(s.disk, ErrorLog(root, query), organism + "\n", RawName);
      Files.GrowsTrans(disk, s.disk, after, RawName);
      assert Handled(root, query, organism, s).1 == after;
    } else {
      assert Handled(root, query, organism, s).1 == s.disk;
    }
  }

  /** Every job of `auto_clustalw` keeps every file but a raw download. */
  lemma ClustalwRowsGrow(root: string, jobs: (nat, nat) -> Job)
    ensures RowsGrow(ClustalwRows(root, jobs), RawName)
  {
    forall qi, query, k, o, d ensures Files.Grows(d, ClustalwRows(root, jobs)(qi, query)(k, o, d).1, RawName) {
      ClustalwJobGrows(root, query, o, jobs(qi, k), d);
    }
  }

  /** The logs and archived trees are only ever added to, also when the batch is cut short. */
  lemma {:induction false} RunQueriesGrows(queries: seq<string>, organismsOf: string -> seq<string>, rows: Rows,
                                           i: nat, disk: Loader.TextDisk, events: seq<Event>, raw: string)
    requires i <= |queries| && RowsGrow(rows, raw)
    ensures Files.Grows(disk, RunQueries(queries, organismsOf, rows, i, disk, events).disk, raw)
    decreases |queries| - i
  {
    if i == |queries| {
      Files.GrowsRefl(disk, raw);
    } else {
      var query := queries[i];
      var handle := rows(i, query);
      var r := RunRow(query, organismsOf(query), handle, 0, disk, events);
      assert forall k, o, d :: Files.Grows(d, handle(k, o, d).1, raw);
      RunRowGrows(query, organismsOf(query), handle, 0, disk, events, raw);
      if r.error.None? {
        RunQueriesGrows(queries, organismsOf, rows, i + 1, r.disk, r.events, raw);
        Files.GrowsTrans(disk, r.disk, RunQueries(queries, organismsOf, rows, i, disk, events).disk, raw);
      }
    }
  }

  /** Across a whole `auto_clustalw` run, no file but a raw `clustalw.dnd` is removed or shortened. */
  lemma AutoClustalwGrows(disk: Loader.TextDisk, root: string, queryFile: string,
                          glob: string -> seq<string>, jobs: (nat, nat) -> Job)
    ensures Files.Grows(disk, AutoClustalwRun(disk, root, queryFile, glob, jobs).disk, RawName)
  {
    var queries := Loader.LoadText(disk, Paths.Join(root, queryFile));
    if queries.Ok? && queries.value.Some? {
      BatchGrows(root, queries.value.value, glob, jobs, disk);
    } else {
      Files.GrowsRefl(disk, RawName);
    }
  }

  /** The outer loop of `auto_clustalw` from the first query line keeps every file but a raw
      download. */
  lemma BatchGrows(root: string, queries: seq<string>, glob: string -> seq<string>,
                   jobs: (nat, nat) -> Job, disk: Loader.TextDisk)
    ensures Files.Grows(disk, RunQueries(queries, GlobOrganisms(root, glob), ClustalwRows(root, jobs), 0, disk, []).disk, RawName)
  {
    ClustalwRowsGrow(root, jobs);
    RunQueriesGrows(queries, GlobOrganisms(root, glob), ClustalwRows(root, jobs), 0, disk, [], RawName);
  }
}
