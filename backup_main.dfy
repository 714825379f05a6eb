/** The backup script's command line: which action its flags select, and
    where the CSV of each exported list ends up. Files and standard output
    are values here: a map from file name to the rows written to it, and
    the rows written to standard output. */
module BackupMain {
  import opened Dicts
  import opened Cli
  import opened BackupExport

  /** CSV text, as the rows it holds: writing two texts one after the
      other leaves the rows of the first followed by those of the second. */
  type Csv = seq<seq<string>>

  /** The parsed command line; an option not given is None. */
  datatype BackupOptions = BackupOptions(
    key: Option<string>,
    showLists: bool,
    list: Option<string>,
    allLists: bool,
    out: Option<string>)

  /** What the script goes on to do once its options are read. */
  datatype BackupAction =
    | Exit(status: int)
    | ShowLists(key: string)
    | ExportOne(key: string, list: string, toFile: bool)
    | ExportAll(key: string, toFile: bool)
    | Done

  /** The key as the script reads it: `getattr(options, 'key', default)`.
      argparse always sets `options.key`, so the default taken from
      MAILCHIMP_KEY is never used. */
  function BackupKey(o: BackupOptions, env: Option<string>): Option<string> {
    o.key
  }

  /** The order in which the script looks at its options once the key is
      known: no key exits with status 1; then `--show-lists`; then a
      non-empty `--list`; then `--all-lists`; with none of them it ends
      having done nothing. A file is written only for a non-empty `--out`. */
  function Dispatch(o: BackupOptions, key: Option<string>): (a: BackupAction)
    ensures a == Exit(1) <==> key.None?
    ensures a.ShowLists? <==> key.Some? && o.showLists
    ensures a.ExportOne? <==> key.Some? && !o.showLists && Given(o.list)
    ensures a.ExportAll? <==> key.Some? && !o.showLists && !Given(o.list) && o.allLists
    ensures a.Done? <==> key.Some? && !o.showLists && !Given(o.list) && !o.allLists
    ensures a.ShowLists? || a.ExportOne? || a.ExportAll? ==> a.key == key.value
    ensures a.ExportOne? ==> a.list == o.list.value && a.toFile == Given(o.out)
    ensures a.ExportAll? ==> a.toFile == Given(o.out)
  {
    if key.None? then Exit(1)
    else if o.showLists then ShowLists(key.value)
    else if Given(o.list) then ExportOne(key.value, o.list.value, Given(o.out))
    else if o.allLists then ExportAll(key.value, Given(o.out))
    else Done
  }

  /** The script's decision, as written. */
  function BackupCommand(o: BackupOptions, env: Option<string>): BackupAction {
    Dispatch(o, BackupKey(o, env))
  }

  /** As written, MAILCHIMP_KEY is ignored: without `--key` the script
      exits with status 1 whatever the environment holds, although its
      message offers the variable as an alternative. */
  lemma EnvKeyIgnored(o: BackupOptions, env: Option<string>)
    requires o.key.None?
    ensures BackupCommand(o, env) == Exit(1)
  {
  }

  /** A concrete run that shows it: `--show-lists` with the key only in
      the environment. */
  lemma EnvKeyIgnoredExample()
    ensures BackupCommand(BackupOptions(None, true, None, false, None), Some("key-us1")) == Exit(1)
  {
    EnvKeyIgnored(BackupOptions(None, true, None, false, None), Some("key-us1"));
  }

  /** The decision with the key read as the restore script reads it. */
  function IntendedBackupCommand(o: BackupOptions, env: Option<string>): BackupAction {
    Dispatch(o, KeyOrEnv(o.key, env))
  }

  /** Read that way, a key in the environment is enough, and a non-empty
      `--key` still decides exactly as the script does now. */
  lemma IntendedKeyHonoursEnv(o: BackupOptions, env: Option<string>)
    ensures env.Some? ==> IntendedBackupCommand(o, env) != Exit(1)
    ensures IntendedBackupCommand(o, env) == Exit(1) <==> !Given(o.key) && env.None?
    ensures Given(o.key) ==> IntendedBackupCommand(o, env) == BackupCommand(o, env)
  {
    KeyMissingIff(o.key, env);
  }

  /** How a file is opened: `'wb'` truncates it, `'ab'` appends to it. */
  datatype Mode = Overwrite | Append

  /** Files and standard output. */
  datatype Output = Output(files: map<string, Csv>, stdout: Csv)

  /** Writing `data` to file `f` opened with `mode`; appending to a file
      that does not exist creates it. */
  function WriteFile(files: map<string, Csv>, f: string, mode: Mode, data: Csv): (r: map<string, Csv>)
    ensures r.Keys == files.Keys + {f}
    ensures r[f] == (if mode == Append && f in files then files[f] + data else data)
    ensures forall g :: g in files && g != f ==> r[g] == files[g]
  {
    files[f := if mode == Append && f in files then files[f] + data else data]
  }

  /** The mode the all-lists loop opens the file of list `i` with: append
      exactly when the previous list went to the same file. */
  function ModeAt(lists: seq<(string, Csv)>, filename: string -> string, i: nat): Mode
    requires i < |lists|
  {
    if i > 0 && filename(lists[i - 1].0) == filename(lists[i].0) then Append else Overwrite
  }

  /** One pass of the all-lists loop: list `i`'s CSV written out. */
  function WriteList(prev: Output, lists: seq<(string, Csv)>, toFile: bool, filename: string -> string, i: nat): Output
    requires i < |lists|
  {
    if toFile then
      Output(WriteFile(prev.files, filename(lists[i].0), ModeAt(lists, filename, i), lists[i].1), prev.stdout)
    else
      Output(prev.files, prev.stdout + lists[i].1)
  }

  /** What the all-lists loop has produced after the lists `lists`, with
      `filename` the `--out` pattern filled in for a list id. */
  function AllListsOutput(lists: seq<(string, Csv)>, toFile: bool, filename: string -> string, start: Output): Output
  {
    if lists == [] then start
    else
      var n := |lists| - 1;
      WriteList(AllListsOutput(lists[..n], toFile, filename, start), lists, toFile, filename, n)
  }

  /** The loop's state after one more list. */
  lemma AllListsStep(lists: seq<(string, Csv)>, toFile: bool, filename: string -> string, start: Output, i: nat)
    requires i < |lists|
    ensures AllListsOutput(lists[..i + 1], toFile, filename, start)
         == WriteList(AllListsOutput(lists[..i], toFile, filename, start), lists, toFile, filename, i)
  {
    assert lists[..i + 1][..i] == lists[..i];
    assert ModeAt(lists[..i + 1], filename, i) == ModeAt(lists, filename, i);
  }

  /** The CSV of every list, one after the other. */
  function AllCsv(lists: seq<(string, Csv)>): Csv {
    Concat(seq(|lists|, i requires 0 <= i < |lists| => lists[i].1))
  }

  /** The loop of the `--all-lists` branch: each list's CSV goes to its
      file (truncated the first time in a row the file comes up, appended
      to while consecutive lists share it) or, without `--out`, to
      standard output. */
  method WriteAllLists(lists: seq<(string, Csv)>, toFile: bool, filename: string -> string, start: Output)
    returns (out: Output, modes: seq<Mode>)
    ensures out == AllListsOutput(lists, toFile, filename, start)
    ensures toFile ==> |modes| == |lists| && forall i :: 0 <= i < |lists| ==> modes[i] == ModeAt(lists, filename, i)
    ensures !toFile ==> modes == []
  {
    out := start;
    modes := [];
    var current: Option<string> := None;
    for i := 0 to |lists|
      invariant out == AllListsOutput(lists[..i], toFile, filename, start)
      invariant toFile ==> |modes| == i
      invariant toFile ==> forall j :: 0 <= j < i ==> modes[j] == ModeAt(lists, filename, j)
      invariant toFile ==> current == if i == 0 then None else Some(filename(lists[i - 1].0))
      invariant !toFile ==> modes == []
    {
      var (id, csv) := lists[i];
      AllListsStep(lists, toFile, filename, start, i);
      if toFile {
        var f := filename(id);
        var mode := if current != Some(f) then Overwrite else Append;
        assert mode == ModeAt(lists, filename, i);
        out := Output(WriteFile(out.files, f, mode, csv), out.stdout);
        ModesSnoc(modes, mode, lists, filename, i);
        modes := modes + [mode];
        current := Some(f);
      } else {
        out := Output(out.files, out.stdout + csv);
      }
    }
    assert lists[..|lists|] == lists;
  }

  lemma ModesSnoc(modes: seq<Mode>, mode: Mode, lists: seq<(string, Csv)>, filename: string -> string, i: nat)
    requires i < |lists| && |modes| == i && mode == ModeAt(lists, filename, i)
    requires forall j :: 0 <= j < i ==> modes[j] == ModeAt(lists, filename, j)
    ensures forall j :: 0 <= j < i + 1 ==> (modes + [mode])[j] == ModeAt(lists, filename, j)
  {
  }

  /** Without `--out` every list's CSV goes to standard output, in order,
      and no file is touched. */
  lemma {:induction false} AllListsToStdout(lists: seq<(string, Csv)>, filename: string -> string, start: Output)
    ensures AllListsOutput(lists, false, filename, start) == Output(start.files, start.stdout + AllCsv(lists))
  {
    if lists != [] {
      var n := |lists| - 1;
      AllListsToStdout(lists[..n], filename, start);
      assert seq(n, i requires 0 <= i < n => lists[..n][i].1)
          == seq(|lists|, i requires 0 <= i < |lists| => lists[i].1)[..n];
    }
  }

  /** Where the run of consecutive lists sharing list `j`'s file begins. */
  function RunStart(lists: seq<(string, Csv)>, filename: string -> string, j: nat): (k: nat)
    requires j < |lists|
    ensures k <= j
    ensures forall l :: k <= l <= j ==> filename(lists[l].0) == filename(lists[j].0)
    ensures k > 0 ==> filename(lists[k - 1].0) != filename(lists[j].0)
  {
    if j > 0 && filename(lists[j - 1].0) == filename(lists[j].0) then RunStart(lists, filename, j - 1) else j
  }

  /** With `--out`, standard output is untouched, and a file no list
      maps to keeps what it had. */
  lemma {:induction false} AllListsOtherFiles(lists: seq<(string, Csv)>, filename: string -> string, start: Output, f: string)
    ensures AllListsOutput(lists, true, filename, start).stdout == start.stdout
    ensures (forall i :: 0 <= i < |lists| ==> filename(lists[i].0) != f) ==>
              (f in AllListsOutput(lists, true, filename, start).files <==> f in start.files)
              && (f in start.files ==> AllListsOutput(lists, true, filename, start).files[f] == start.files[f])
  {
    if lists != [] {
      AllListsOtherFiles(lists[..|lists| - 1], filename, start, f);
    }
  }

  /** No list after list `j` goes to list `j`'s file. */
  predicate LastOfFile(lists: seq<(string, Csv)>, filename: string -> string, j: nat)
    requires j < |lists|
  {
    forall l :: j < l < |lists| ==> filename(lists[l].0) != filename(lists[j].0)
  }

  /** The file of list `j` exists in `out` and holds the CSV of the run of
      consecutive lists sharing that file that ends with list `j`. */
  predicate HoldsRun(out: Output, lists: seq<(string, Csv)>, filename: string -> string, j: nat)
    requires j < |lists|
  {
    && filename(lists[j].0) in out.files
    && out.files[filename(lists[j].0)] == AllCsv(lists[RunStart(lists, filename, j)..j + 1])
  }

  /** With `--out`, a file some list maps to holds exactly the CSV of the
      last run of consecutive lists that map to it: an earlier run is
      truncated away when the file comes up again after another file. */
  lemma {:induction false} AllListsToFiles(lists: seq<(string, Csv)>, filename: string -> string, start: Output, j: nat)
    requires j < |lists|
    requires LastOfFile(lists, filename, j)
    ensures HoldsRun(AllListsOutput(lists, true, filename, start), lists, filename, j)
    decreases |lists|
  {
    var n := |lists| - 1;
    if j < n {
      LastOfPrefix(lists, filename, j);
      AllListsToFiles(lists[..n], filename, start, j);
      LaterListElsewhere(lists, filename, start, n, j);
    } else if ModeAt(lists, filename, n) == Append {
      AllListsToFiles(lists[..n], filename, start, n - 1);
      AppendedToRun(lists, filename, start, j);
    } else {
      OverwriteStartsRun(lists, filename, start, j);
    }
  }

  /** A list that is the last of its file among all lists is so among
      those before the last one too, which goes to another file. */
  lemma LastOfPrefix(lists: seq<(string, Csv)>, filename: string -> string, j: nat)
    requires j < |lists| - 1 && LastOfFile(lists, filename, j)
    ensures LastOfFile(lists[..|lists| - 1], filename, j)
    ensures filename(lists[|lists| - 1].0) != filename(lists[j].0)
  {
    var n := |lists| - 1;
    forall l | j < l < n
      ensures filename(lists[..n][l].0) != filename(lists[..n][j].0)
    {
      assert lists[..n][l] == lists[l] && lists[..n][j] == lists[j];
    }
  }

  /** The last list opening its file for writing leaves it holding that
      list's CSV alone. */
  lemma OverwriteStartsRun(lists: seq<(string, Csv)>, filename: string -> string, start: Output, j: nat)
    requires j == |lists| - 1 && ModeAt(lists, filename, j) == Overwrite
    ensures HoldsRun(AllListsOutput(lists, true, filename, start), lists, filename, j)
  {
    var n := j;
    assert RunStart(lists, filename, n) == n;
    AllCsvSnoc(lists[n..n + 1]);
    assert lists[n..n + 1][..0] == [];
  }

  /** The last list going to another file leaves the file of list `j` as
      the lists before it left it. */
  lemma LaterListElsewhere(lists: seq<(string, Csv)>, filename: string -> string, start: Output, n: nat, j: nat)
    requires n == |lists| - 1 && j < n
    requires filename(lists[n].0) != filename(lists[j].0)
    requires HoldsRun(AllListsOutput(lists[..n], true, filename, start), lists[..n], filename, j)
    ensures HoldsRun(AllListsOutput(lists, true, filename, start), lists, filename, j)
  {
    OtherFileKept(lists, filename, start, filename(lists[j].0));
    RunPrefix(lists, filename, n, j);
  }

  /** The run ending with list `j` is the same among the first `n` lists. */
  lemma RunPrefix(lists: seq<(string, Csv)>, filename: string -> string, n: nat, j: nat)
    requires j < n <= |lists|
    ensures lists[..n][j] == lists[j]
    ensures lists[..n][RunStart(lists[..n], filename, j)..j + 1] == lists[RunStart(lists, filename, j)..j + 1]
  {
    RunStartPrefix(lists, filename, n, j);
    TakeSlice(lists, n, RunStart(lists, filename, j), j + 1);
  }

  /** Writing the last list leaves any other file as it was. */
  lemma OtherFileKept(lists: seq<(string, Csv)>, filename: string -> string, start: Output, f: string)
    requires lists != [] && filename(lists[|lists| - 1].0) != f
    ensures var before := AllListsOutput(lists[..|lists| - 1], true, filename, start);
      var after := AllListsOutput(lists, true, filename, start);
      (f in after.files <==> f in before.files) && (f in before.files ==> after.files[f] == before.files[f])
  {
  }

  /** The last list extending the run of the one before it appends to
      that run's file. */
  lemma AppendedToRun(lists: seq<(string, Csv)>, filename: string -> string, start: Output, j: nat)
    requires j == |lists| - 1 && ModeAt(lists, filename, j) == Append
    requires var init := lists[..j];
      HoldsRun(AllListsOutput(init, true, filename, start), init, filename, j - 1)
    ensures HoldsRun(AllListsOutput(lists, true, filename, start), lists, filename, j)
  {
    var n := j;
    var k := RunStart(lists, filename, n);
    assert lists[..n][n - 1] == lists[n - 1];
    RunContinues(lists, filename);
    AppendsToFile(lists, filename, start);
    AllCsvSlice(lists, k);
  }

  lemma RunContinues(lists: seq<(string, Csv)>, filename: string -> string)
    requires |lists| >= 2 && ModeAt(lists, filename, |lists| - 1) == Append
    ensures RunStart(lists, filename, |lists| - 1) == RunStart(lists[..|lists| - 1], filename, |lists| - 2)
  {
    RunStartPrefix(lists, filename, |lists| - 1, |lists| - 2);
  }

  lemma AppendsToFile(lists: seq<(string, Csv)>, filename: string -> string, start: Output)
    requires |lists| >= 2 && ModeAt(lists, filename, |lists| - 1) == Append
    requires filename(lists[|lists| - 2].0) in AllListsOutput(lists[..|lists| - 1], true, filename, start).files
    ensures var f := filename(lists[|lists| - 1].0);
      AllListsOutput(lists, true, filename, start).files[f]
        == AllListsOutput(lists[..|lists| - 1], true, filename, start).files[f] + lists[|lists| - 1].1
  {
  }

  lemma AllCsvSlice(lists: seq<(string, Csv)>, k: nat)
    requires k < |lists|
    ensures AllCsv(lists[k..|lists|]) == AllCsv(lists[..|lists| - 1][k..|lists| - 1]) + lists[|lists| - 1].1
  {
    var n := |lists| - 1;
    AllCsvSnoc(lists[k..n + 1]);
    SliceFront(lists, k, n);
  }

  /** Run starts do not depend on the lists that come later. */
  lemma {:induction false} RunStartPrefix(lists: seq<(string, Csv)>, filename: string -> string, m: nat, j: nat)
    requires j < m <= |lists|
    ensures RunStart(lists[..m], filename, j) == RunStart(lists, filename, j)
    decreases j
  {
    if j > 0 {
      RunStartPrefix(lists, filename, m, j - 1);
    }
  }

  lemma AllCsvSnoc(lists: seq<(string, Csv)>)
    requires lists != []
    ensures AllCsv(lists) == AllCsv(lists[..|lists| - 1]) + lists[|lists| - 1].1
  {
    var n := |lists| - 1;
    assert seq(n, i requires 0 <= i < n => lists[..n][i].1)
        == seq(|lists|, i requires 0 <= i < |lists| => lists[i].1)[..n];
  }

  /** An `--out` pattern without `{list}` names one file for every list:
      that file ends up holding every list's CSV, one after the other. */
  lemma OneFileForAll(lists: seq<(string, Csv)>, filename: string -> string, start: Output, f: string)
    requires lists != [] && forall i :: 0 <= i < |lists| ==> filename(lists[i].0) == f
    ensures AllListsOutput(lists, true, filename, start).files[f] == AllCsv(lists)
  {
    var n := |lists| - 1;
    AllListsToFiles(lists, filename, start, n);
    assert RunStart(lists, filename, n) == 0;
    assert lists[0..n + 1] == lists;
  }

  /** With `{list}` in the pattern every list gets a file of its own,
      holding exactly that list's CSV. */
  lemma FilePerList(lists: seq<(string, Csv)>, filename: string -> string, start: Output, i: nat)
    requires i < |lists|
    requires forall a, b :: 0 <= a < b < |lists| ==> filename(lists[a].0) != filename(lists[b].0)
    ensures filename(lists[i].0) in AllListsOutput(lists, true, filename, start).files
    ensures AllListsOutput(lists, true, filename, start).files[filename(lists[i].0)] == lists[i].1
  {
    AllListsToFiles(lists, filename, start, i);
    assert RunStart(lists, filename, i) == i;
    assert AllCsv(lists[i..i + 1]) == Concat([lists[i].1]);
    assert Concat([lists[i].1]) == Concat<seq<string>>([]) + lists[i].1;
  }

  /** Whether every list in a fetched set of lists can be exported. */
  predicate AllExport(fetched: seq<(string, Option<seq<Member>>)>) {
    forall i :: 0 <= i < |fetched| ==> Exports(MembersOf(fetched[i].1))
  }

  /** The `(id, csv)` pairs `export_all_lists` yields when no list fails. */
  function AllExports(fetched: seq<(string, Option<seq<Member>>)>): (lists: seq<(string, Csv)>)
    requires AllExport(fetched)
    ensures |lists| == |fetched|
    ensures forall i :: 0 <= i < |fetched| ==> lists[i] == (fetched[i].0, ListCsv(MembersOf(fetched[i].1)))
  {
    seq(|fetched|, i requires 0 <= i < |fetched| && AllExport(fetched) => (fetched[i].0, ListCsv(MembersOf(fetched[i].1))))
  }

  /** `list(export_all_lists(key, options))`: every list is exported, in
      the order the API returns them, before anything is written; the first
      list that fails raises its error. `fetched` holds each list's id and
      the response for its members. */
  method ExportAllLists(fetched: seq<(string, Option<seq<Member>>)>) returns (r: Result<seq<(string, Csv)>, ExportError>)
    ensures r.Success? <==> AllExport(fetched)
    ensures r.Success? ==> r.value == AllExports(fetched)
    ensures r.Failure? ==> r.error == FirstListError(fetched)
  {
    var lists: seq<(string, Csv)> := [];
    for i := 0 to |fetched|
      invariant ExportedUpTo(fetched, lists, i)
    {
      var csv := ExportList(fetched[i].1);
      if csv.Failure? {
        FirstListErrorIs(fetched, i);
        return Failure(csv.error);
      }
      ExportedStep(fetched, lists, i, csv.value);
      lists := lists + [(fetched[i].0, csv.value)];
    }
    ExportedAll(fetched, lists);
    return Success(lists);
  }

  /** The error `export_all_lists` raises when some list cannot be
      exported: that of the first such list. */
  function FirstListError(fetched: seq<(string, Option<seq<Member>>)>): ExportError
    requires !AllExport(fetched)
  {
    if !Exports(MembersOf(fetched[0].1)) then FirstError(MembersOf(fetched[0].1))
    else
      RestListsFail(fetched);
      FirstListError(fetched[1..])
  }

  lemma RestListsFail(fetched: seq<(string, Option<seq<Member>>)>)
    requires !AllExport(fetched) && Exports(MembersOf(fetched[0].1))
    ensures !AllExport(fetched[1..])
  {
    var i :| 0 <= i < |fetched| && !Exports(MembersOf(fetched[i].1));
    assert fetched[1..][i - 1] == fetched[i];
  }

  /** A list that cannot be exported after lists that all can is the one
      whose error `FirstListError` gives. */
  lemma {:induction false} FirstListErrorIs(fetched: seq<(string, Option<seq<Member>>)>, k: nat)
    requires k < |fetched| && !Exports(MembersOf(fetched[k].1))
    requires forall j :: 0 <= j < k ==> Exports(MembersOf(fetched[j].1))
    ensures !AllExport(fetched)
    ensures FirstListError(fetched) == FirstError(MembersOf(fetched[k].1))
  {
    if k > 0 {
      assert fetched[1..][k - 1] == fetched[k];
      forall j | 0 <= j < k - 1
        ensures Exports(MembersOf(fetched[1..][j].1))
      {
        assert fetched[1..][j] == fetched[j + 1];
      }
      FirstListErrorIs(fetched[1..], k - 1);
    }
  }

  /** The first `i` lists all export, and `lists` holds their pairs. */
  predicate ExportedUpTo(fetched: seq<(string, Option<seq<Member>>)>, lists: seq<(string, Csv)>, i: nat) {
    && i <= |fetched| && |lists| == i
    && (forall j :: 0 <= j < i ==> Exports(MembersOf(fetched[j].1)))
    && (forall j :: 0 <= j < i ==> lists[j] == (fetched[j].0, ListCsv(MembersOf(fetched[j].1))))
  }

  lemma ExportedStep(fetched: seq<(string, Option<seq<Member>>)>, lists: seq<(string, Csv)>, i: nat, csv: Csv)
    requires ExportedUpTo(fetched, lists, i) && i < |fetched|
    requires Exports(MembersOf(fetched[i].1)) && csv == ListCsv(MembersOf(fetched[i].1))
    ensures ExportedUpTo(fetched, lists + [(fetched[i].0, csv)], i + 1)
  {
    PairsSnoc(fetched, lists, i, csv);
  }

  lemma PairsSnoc(fetched: seq<(string, Option<seq<Member>>)>, lists: seq<(string, Csv)>, i: nat, csv: Csv)
    requires ExportedUpTo(fetched, lists, i) && i < |fetched|
    requires Exports(MembersOf(fetched[i].1)) && csv == ListCsv(MembersOf(fetched[i].1))
    ensures forall j :: 0 <= j < i + 1 ==>
      (lists + [(fetched[i].0, csv)])[j] == (fetched[j].0, ListCsv(MembersOf(fetched[j].1)))
  {
    forall j | 0 <= j < i + 1
      ensures (lists + [(fetched[i].0, csv)])[j] == (fetched[j].0, ListCsv(MembersOf(fetched[j].1)))
    {
      if j < i {
        assert (lists + [(fetched[i].0, csv)])[j] == lists[j];
      }
    }
  }

  lemma ExportedAll(fetched: seq<(string, Option<seq<Member>>)>, lists: seq<(string, Csv)>)
    requires ExportedUpTo(fetched, lists, |fetched|)
    ensures AllExport(fetched) && lists == AllExports(fetched)
  {
  }

  /** How a run ends: with an exit status and what it wrote, or with an
      uncaught exception. */
  datatype RunResult = Finished(status: int, out: Output) | Raised(error: ExportError)

  /** What a single `--list` export leaves: its CSV in a freshly truncated
      file, or on standard output. */
  function OneListOutput(rows: Csv, toFile: bool, file: string, start: Output): Output {
    if toFile then Output(WriteFile(start.files, file, Overwrite, rows), start.stdout)
    else Output(start.files, start.stdout + rows)
  }

  /** The script's main block. `one` is the API's members response for the
      `--list` id, `all` each list's id and members response, `filename`
      the `--out` pattern filled in for a list id. */
  method Backup(o: BackupOptions, env: Option<string>, one: Option<seq<Member>>,
                all: seq<(string, Option<seq<Member>>)>, filename: string -> string, start: Output)
    returns (r: RunResult)
    ensures BackupCommand(o, env) == Exit(1) ==> r == Finished(1, start)
    ensures BackupCommand(o, env).ShowLists? ==> r.Finished? && r.status == 0 && r.out.files == start.files
    ensures BackupCommand(o, env).Done? ==> r == Finished(0, start)
    ensures BackupCommand(o, env).ExportOne? ==>
              var a := BackupCommand(o, env);
              && (r.Raised? <==> !Exports(MembersOf(one)))
              && (r.Raised? ==> r.error == FirstError(MembersOf(one)))
              && (r.Finished? ==> r == Finished(0, OneListOutput(ListCsv(MembersOf(one)), a.toFile, filename(a.list), start)))
    ensures BackupCommand(o, env).ExportAll? ==>
              && (r.Raised? <==> !AllExport(all))
              && (r.Raised? ==> r.error == FirstListError(all))
              && (r.Finished? ==> r == Finished(0, AllListsOutput(AllExports(all), BackupCommand(o, env).toFile, filename, start)))
  {
    var action := BackupCommand(o, env);
    match action {
      case Exit(status) =>
        return Finished(status, start);
      case ShowLists(_) =>
        return Finished(0, start);
      case Done =>
        return Finished(0, start);
      case ExportOne(_, list, toFile) =>
        var rows := ExportList(one);
        if rows.Failure? {
          return Raised(rows.error);
        }
        return Finished(0, OneListOutput(rows.value, toFile, filename(list), start));
      case ExportAll(_, toFile) =>
        var lists := ExportAllLists(all);
        if lists.Failure? {
          return Raised(lists.error);
        }
        var out, _ := WriteAllLists(lists.value, toFile, filename, start);
        return Finished(0, out);
    }
  }
}
