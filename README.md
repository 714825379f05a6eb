# mailchimp-backup, modelled in Dafny

mailchimp-backup is a pair of command-line scripts for MailChimp audience
lists. `mailchimp-backup.py` downloads the members of one list (`--list`)
or of every list (`--all-lists`). It flattens each member to the columns
named by its `FIELDS` list, with `merge_fields.*` expanded to one column per
merge field, and writes the result as CSV. The CSV goes to standard output,
or to a file named by the `--out` pattern. With `--all-lists` and `--out`,
consecutive lists that map to the same file are appended to it, and a file
that comes up again after another one is truncated. `mailchimp-restore.py`
reads such a CSV back. It regroups the `merge_fields.*` and `location.*`
columns into nested mappings, decodes the tags, turns `vip` into a boolean,
rewrites a trailing `+00:00` in the signup timestamp to `Z` and defaults
`timestamp_opt` and `ip_opt`. It then upserts every subscriber into the list
named by `--list`.

The model:

- `dicts.dfy` (module `Dicts`): Python dicts as insertion-ordered
  association lists. `Get` is `d[k]`, `Set` is `d[k] = v` (overwrite in
  place, or append) and `Pop` is `d.pop(k)`. Also `Option` and `Result`.
- `backup_export.dfy` (`BackupExport`): `FIELDS`, the parsing of an entry,
  `_export_member` as a loop over the entries (`ExportMember`,
  `ExportFields`, `ExportField`) proved against the function
  `ExportWith`, and `to_csv` and `export_list`.
- `export_layout.dfy` (`ExportLayout`): which members can be flattened
  with the script's own `FIELDS`, and the exact column layout of a
  flattened member.
- `backup_main.dfy` (`BackupMain`): the command line of the backup script,
  the `--all-lists` write loop and what it leaves in every file, and
  `export_all_lists`.
- `restore_row.dfy` (`RestoreRow`): the body of the restore loop for one
  CSV row, that is, the column loop that regroups the columns and then the
  conversions.
- `restore_main.dfy` (`RestoreMain`): the loop over the rows, the upsert
  loop and the command line of the restore script.
- `cli.dfy` (`Cli`): `options.key or MAILCHIMP_KEY`.
- `round_trip.dfy` (`RoundTrip`): what the restore script reads back from
  a row that the backup script wrote. `csv.DictReader` pairs every row with
  the header, which is the first member's column names, so a member's row
  is read back as its own only when it has the first member's columns.

The API client, the clock and the file system are parameters. Each list's
members response is an `Option<seq<Member>>`. The `--out` pattern filled in
for a list id is a function `filename`. `json.loads` is a predicate `jsonOk`
that says whether a text decodes. `get_subscriber_hash` is a function
`hash`. Written files are a map from file name to CSV rows.

## Model

| member | source | states |
|---|---|---|
| Dicts.Get | mailchimp-backup.py:80 | `d[k]` finds a value exactly when `k` is a key, and the value found is stored under `k` in `d` |
| Dicts.Set | mailchimp-backup.py:88 | after `d[k] = v`, `k` looks up `v`; the keys are unchanged when `k` was present, else `k` is appended last |
| Dicts.PopAt | mailchimp-restore.py:49 | `d.pop(k)` on a present key removes the first entry with that key and keeps every other entry in order |
| Dicts.PopKeepsOthers | mailchimp-restore.py:49 | after `d.pop(k)` every other key looks up as before, and a dict with distinct keys no longer has `k` |
| Dicts.SetKeepsOthers | mailchimp-restore.py:65 | assigning one key leaves the lookup of every other key unchanged |
| BackupExport.IndexOf | mailchimp-backup.py:79 | the index found is the first `.` of the entry, or the length when there is none |
| BackupExport.ParseField | mailchimp-backup.py:79-83 | an entry is top-level exactly when it has no dot, and then names itself; otherwise parent and selector are the first two pieces of `split('.')`: the dot-free text before the first dot, and the dot-free text after it up to the next dot or the end |
| BackupExport.ParsePlain | mailchimp-backup.py:79-80 | an entry without a dot parses as that top-level name |
| BackupExport.ParseNested | mailchimp-backup.py:82-86 | `p.sel` with dot-free parts parses to parent `p` and selector `sel` |
| BackupExport.ExportMember | mailchimp-backup.py:75-89 | the loop over FIELDS returns exactly `Export(member)`: the flattened dict, or the first KeyError or non-mapping error |
| BackupExport.ExportFields | mailchimp-backup.py:77-89 | the outer loop over any entry list computes `ExportWith`, entry by entry |
| BackupExport.ExportField | mailchimp-backup.py:79-88 | one pass of the outer loop, including the inner loop over nested keys, computes `Step` |
| BackupExport.PlainFieldColumns | mailchimp-backup.py:79-80 | an undotted entry gives one column named as the entry holding `member[field]`, or KeyError when the key is missing |
| BackupExport.WildcardColumns | mailchimp-backup.py:82-88 | `p.*` gives one column `p.k` per key of `member[p]` in that mapping's order; KeyError when `p` is missing; an error when it is not a mapping |
| BackupExport.ProjectionColumns | mailchimp-backup.py:82-88 | `p.name` gives one column `p.name` holding `member[p][name]`; KeyError for the missing key at either level |
| BackupExport.NestedPairsPresent | mailchimp-backup.py:87-88 | the inner loop over keys that are all present never fails and yields one column per key, in order |
| BackupExport.WildcardPairs | mailchimp-backup.py:84-88 | looping over a mapping's own keys yields all its entries as prefixed columns |
| BackupExport.ExportSucceedsIff | mailchimp-backup.py:78-88 | flattening succeeds exactly when every entry can be expanded |
| BackupExport.ExportFailureSticks | mailchimp-backup.py:78-88 | once a prefix of the entries fails, the whole flattening fails with that error |
| BackupExport.ExportGrows | mailchimp-backup.py:78-88 | one more entry after a successful prefix is one more `Step` |
| BackupExport.ExportStops | mailchimp-backup.py:78-88 | the first failing entry's error is the result |
| BackupExport.ExportStep | mailchimp-backup.py:77-88 | when no column names collide, one more entry appends its columns after the earlier ones |
| BackupExport.ToCsv | mailchimp-backup.py:92-101 | no rows at all for no members; otherwise the first member's keys as the header, then one row of cells per member, in order |
| BackupExport.ExportList | mailchimp-backup.py:104-110 | succeeds exactly when every member flattens, and then returns the header of the first member's columns and every member's cells (`ListCsv`); otherwise the error of the first member that fails (`FirstError`) |
| BackupExport.FirstErrorIs | mailchimp-backup.py:107-109 | the error raised for a list is the error of its first member that cannot be flattened |
| BackupExport.FlattenMembers | mailchimp-backup.py:107-109 | the member loop flattens every member in order, or stops at the first failure with its error |
| BackupExport.ListCsvOf | mailchimp-backup.py:107-110 | the rows written for the flattened members are `ListCsv` of the members |
| ExportLayout.FieldParsed | mailchimp-backup.py:58-72 | how each of the 13 FIELDS entries parses |
| ExportLayout.NestedFieldParsed | mailchimp-backup.py:63-70 | the five dotted entries parse to their parent and selector |
| ExportLayout.ExpandIff | mailchimp-backup.py:79-88 | an entry expands exactly when the member has what it needs |
| ExportLayout.ExpandColumns | mailchimp-backup.py:79-88 | an entry that expands yields exactly its `Columns` |
| ExportLayout.FieldsSucceedIff | mailchimp-backup.py:75-89 | a member can be exported exactly when every FIELDS key is present, with mappings under `merge_fields` and `location` |
| ExportLayout.FieldsDistinct | mailchimp-backup.py:58-72 | the FIELDS entries are distinct, and none but the wildcard starts with `merge_fields.` |
| ExportLayout.ColumnName | mailchimp-backup.py:80-88 | a wildcard column is named `merge_fields.<key>`, and any other column is named as its FIELDS entry |
| ExportLayout.LayoutDistinct | mailchimp-backup.py:75-89 | no column name occurs twice in a flattened member |
| ExportLayout.ColumnsApart | mailchimp-backup.py:75-89 | no column of one entry shares its name with a column of another entry |
| ExportLayout.WildcardDistinct | mailchimp-backup.py:83-88 | the wildcard's columns have distinct names |
| ExportLayout.PrefixedDistinct | mailchimp-backup.py:88 | prefixing distinct keys keeps them distinct |
| ExportLayout.EntriesExpand | mailchimp-backup.py:78-88 | every FIELDS entry of an exportable member expands to its `Columns` |
| ExportLayout.FieldsLayout | mailchimp-backup.py:75-89 | a flattened member is exactly the columns of the FIELDS entries, in FIELDS order, the wildcard expanded in place |
| ExportLayout.ExportConcat | mailchimp-backup.py:77-88 | entries whose columns never collide lay their columns out one after another |
| ExportLayout.DistinctConcat | mailchimp-backup.py:77-88 | groups of distinct names that are apart from each other concatenate to distinct names |
| ExportLayout.ConcatOrigin | mailchimp-backup.py:77-88 | every column of the layout comes from one entry |
| BackupMain.Dispatch | mailchimp-backup.py:131-168 | no key exits with status 1; then `--show-lists`, then a non-empty `--list`, then `--all-lists`, else nothing; a file only for a non-empty `--out` |
| BackupMain.EnvKeyIgnored | mailchimp-backup.py:130-138 | as written, without `--key` the script exits with status 1 whatever MAILCHIMP_KEY holds |
| BackupMain.EnvKeyIgnoredExample | mailchimp-backup.py:130-138 | `--show-lists` with the key only in the environment exits with status 1 |
| BackupMain.IntendedKeyHonoursEnv | mailchimp-backup.py:130-138 | read as intended, a key in the environment is enough, and a given `--key` decides as now |
| BackupMain.WriteFile | mailchimp-backup.py:162-164 | `wb` replaces the file's contents, `ab` appends to them (creating a missing file); other files are unchanged |
| BackupMain.WriteAllLists | mailchimp-backup.py:155-167 | the loop leaves `AllListsOutput`, and opens list `i`'s file for append exactly when list `i-1` went to the same file |
| BackupMain.AllListsStep | mailchimp-backup.py:158-167 | one more list is one more write |
| BackupMain.AllListsToStdout | mailchimp-backup.py:166-167 | without `--out`, every list's CSV goes to standard output in order and no file changes |
| BackupMain.AllListsOtherFiles | mailchimp-backup.py:159-165 | with `--out`, standard output is untouched and a file no list maps to keeps its contents |
| BackupMain.AllListsToFiles | mailchimp-backup.py:159-165 | with `--out`, the file of a list that is the last for its file holds exactly the CSV of the last run of consecutive lists mapping to it |
| BackupMain.LastOfPrefix | mailchimp-backup.py:158-165 | a list that is last for its file stays last without the final list, which goes elsewhere |
| BackupMain.OverwriteStartsRun | mailchimp-backup.py:162-164 | a list opened with `wb` leaves its file holding its CSV alone |
| BackupMain.LaterListElsewhere | mailchimp-backup.py:160-165 | a later list going to another file leaves this file's contents as they were |
| BackupMain.AppendedToRun | mailchimp-backup.py:162-165 | a list opened with `ab` extends the run of the list before it |
| BackupMain.OtherFileKept | mailchimp-backup.py:163-164 | writing one file leaves any other file as it was |
| BackupMain.RunStartPrefix | mailchimp-backup.py:162 | where a run starts does not depend on the lists after it |
| BackupMain.OneFileForAll | mailchimp-backup.py:159-165 | a pattern without `{list}` names one file, which ends up holding every list's CSV in order |
| BackupMain.FilePerList | mailchimp-backup.py:159-165 | when every list has its own file, each file holds exactly its list's CSV |
| BackupMain.ExportAllLists | mailchimp-backup.py:113-116 | succeeds exactly when every list exports, and then returns one `(id, csv)` pair per list, in the API's order (`AllExports`); otherwise the error of the first list that fails (`FirstListError`) |
| BackupMain.FirstListErrorIs | mailchimp-backup.py:113-116 | the error raised is that of the first list that cannot be exported, which is its first failing member's error |
| BackupMain.ExportedStep | mailchimp-backup.py:115-116 | one more exported list keeps the pairs collected so far |
| BackupMain.ExportedAll | mailchimp-backup.py:157 | all lists exported is `AllExports` |
| BackupMain.Backup | mailchimp-backup.py:119-168 | the exit status and output of every branch: status 1 without a key; nothing written for `--show-lists`; one list's CSV to its file or stdout; every list's CSV as `AllListsOutput`; the first failing list's first failing member's error (`FirstError`, `FirstListError`) raised before anything is written |
| Cli.KeyMissingIff | mailchimp-restore.py:85-86 | a non-empty `--key` is used whatever the environment holds; no key exactly when `--key` is absent or empty and the environment has none; an empty `--key` falls back to the environment |
| RestoreRow.LiftGet | mailchimp-restore.py:42-44 | a column of the row read is its cell as a string value, and a column not in the file is absent |
| RestoreRow.RegroupRow | mailchimp-restore.py:45-53 | the two empty groups are added and the column loop runs, giving `Regroup(row)` |
| RestoreRow.GatherColumns | mailchimp-restore.py:47-53 | the column loop pops every grouped column into its group under the rest of its name |
| RestoreRow.UngroupedStep | mailchimp-restore.py:47-53 | a column outside both groups stays where it is |
| RestoreRow.GroupedStep | mailchimp-restore.py:48-53 | a grouped column leaves the row and is appended to its group; the other group is untouched |
| RestoreRow.LoopDone | mailchimp-restore.py:47 | after the last column, the row and both groups are their final values |
| RestoreRow.RegroupKeeps | mailchimp-restore.py:47-53 | after regrouping, an ungrouped column keeps its cell and no grouped column is left |
| RestoreRow.RegroupGroups | mailchimp-restore.py:45-53 | `merge_fields` maps each `s` to the cell of column `merge_fields.s`, and `location` each `s` to the cell of `location.s` |
| RestoreRow.RegroupedCells | mailchimp-restore.py:47-60 | the columns the conversions read are left alone by the column loop |
| RestoreRow.RewriteUtc | mailchimp-restore.py:56 | a final `+00:00` becomes `Z` with the rest kept, as does one before a final newline; any other text is unchanged; the result never ends in `+00:00` |
| RestoreRow.RewriteUtcOffset | mailchimp-restore.py:56 | a timestamp ending in `+00:00` keeps its date and time and ends in `Z` instead, also before a final newline |
| RestoreRow.RewriteUtcIdempotent | mailchimp-restore.py:56 | rewriting twice is rewriting once |
| RestoreRow.DefaultsOutcome | mailchimp-restore.py:57-60 | the defaults fail only for a row with neither `ip_opt` nor `ip_signup`, and then with KeyError on `ip_signup` |
| RestoreRow.DefaultsValues | mailchimp-restore.py:57-60 | each default is set only where its key is absent, and nothing else changes |
| RestoreRow.ConvertRow | mailchimp-restore.py:54-60 | the conversions, one assignment at a time, compute `Convert` |
| RestoreRow.ConvertOutcome | mailchimp-restore.py:54-60 | conversion succeeds exactly when the tags are present and decode, and `vip`, the signup timestamp and an `ip_opt` or `ip_signup` are present; otherwise it fails at the first missing or undecodable one |
| RestoreRow.ConvertValues | mailchimp-restore.py:54-56 | decoded tags, `vip` true exactly for the text `True`, and the rewritten signup timestamp |
| RestoreRow.ConvertStampDefault | mailchimp-restore.py:57-58 | `timestamp_opt` is the row's own, else the rewritten signup timestamp |
| RestoreRow.ConvertIpDefault | mailchimp-restore.py:59-60 | `ip_opt` is the row's own, else its `ip_signup` |
| RestoreRow.ConvertKeeps | mailchimp-restore.py:54-60 | a key the conversions do not assign keeps its value |
| RestoreRow.ReadRow | mailchimp-restore.py:44-60 | one CSV row turned into a subscriber is `Transform(row)` |
| RestoreRow.TransformOutcome | mailchimp-restore.py:44-60 | in terms of the CSV cells: a row converts exactly when it has decodable tags, `vip`, the signup timestamp and `ip_opt` or `ip_signup`; the first missing one is the error |
| RestoreRow.TransformValues | mailchimp-restore.py:54-60 | in terms of the CSV cells: the converted tags, `vip`, timestamps and `ip_opt` |
| RestoreRow.TransformKeeps | mailchimp-restore.py:47-60 | every other column is as the column loop left it: ungrouped cells unchanged, grouped ones gone |
| RestoreRow.TransformGroups | mailchimp-restore.py:45-60 | a converted row holds the two groups the column loop gathered |
| RestoreMain.ReadAllFailureSticks | mailchimp-restore.py:44-61 | once a row fails, the file fails with that row's error |
| RestoreMain.ReadAllMeaning | mailchimp-restore.py:43-61 | the file reads exactly when every row does, and the subscribers are the rows read in file order; otherwise the error of the first failing row |
| RestoreMain.ReadSubscribers | mailchimp-restore.py:41-61 | the row loop computes `ReadAll` |
| RestoreMain.Upsert | mailchimp-restore.py:64-70 | a call is made exactly when the subscriber has a status and a text e-mail address; KeyError on the first missing one; the call goes to `--list` under the hash of the address |
| RestoreMain.UpsertBody | mailchimp-restore.py:65-69 | the body sent is the subscriber with `status_if_new` set to its status, every other key as it was |
| RestoreMain.UpsertFromCells | mailchimp-restore.py:65-68 | a subscriber whose status and address are cells is sent exactly when both are present |
| RestoreMain.ContactCells | mailchimp-restore.py:44-61 | the status and address of a converted row are its cells |
| RestoreMain.UpsertConverted | mailchimp-restore.py:44-70 | a converted row is sent exactly when its CSV row has a status and an address, by the hash of that address, with `status_if_new` its status |
| RestoreMain.UploadedUnique | mailchimp-restore.py:64-70 | only one outcome of the upload loop fits a list of subscribers |
| RestoreMain.UploadAll | mailchimp-restore.py:63-70 | one call per subscriber in order, stopping at the first one that cannot be sent |
| RestoreMain.Restore | mailchimp-restore.py:40-70 | a row that fails to convert stops the run before any call; otherwise every subscriber is uploaded |
| RestoreMain.RestoreCommand | mailchimp-restore.py:85-112 | a key from `--key` or MAILCHIMP_KEY is required; `--show-lists` lists; otherwise a non-empty `--in` and `--list` are required |
| RestoreMain.RestoreKeyFromEnv | mailchimp-restore.py:85-93 | with no `--key`, a key in the environment is used |
| RestoreMain.RestoreScript | mailchimp-restore.py:73-113 | the whole script: its exit status, the unreadable input file, the conversion error raised before any call, and the calls made |
| RoundTrip.ReadBack | mailchimp-backup.py:96-99 | in the rows written for a list, a member's row is as long as the header exactly when it has as many columns as the first member; a member with the first member's columns is read back by `csv.DictReader` as its own record (`Record`) |
| RoundTrip.RecordGet | mailchimp-backup.py:96-99 | a column of the row read back holds the `str` of the value of that column |
| RoundTrip.PlainRoundTrip | mailchimp-backup.py:79-80 | a top-level FIELDS entry is read back as the text of the member's value |
| RoundTrip.MergeColumn | mailchimp-backup.py:83-88 | column `merge_fields.s` holds the text of merge field `s`, and there is no such column when the member has no merge field `s` |
| RoundTrip.MergeFieldPresent | mailchimp-backup.py:83-88 | a merge field's column holds its value |
| RoundTrip.MergeFieldAbsent | mailchimp-backup.py:83-88 | no column is named after a merge field the member lacks |
| RoundTrip.MergeFieldsRoundTrip | mailchimp-restore.py:47-50 | the merge fields come back: each of the member's merge fields as its text, and no other key |
| RoundTrip.LocationColumn | mailchimp-backup.py:67-70 | column `location.<key>` holds the text of the member's value under that key |
| RoundTrip.LocationRoundTrip | mailchimp-restore.py:51-53 | each exported `location` key comes back under `location` as its text |
| RoundTrip.ConversionColumns | mailchimp-backup.py:58-72 | a written row has the tags, `vip`, signup timestamp and signup address columns |
| RoundTrip.ExportedRowConverts | mailchimp-restore.py:54-60 | a written row converts exactly when the text of the member's tags decodes |
| RoundTrip.VipCell | mailchimp-restore.py:55 | a `vip` cell holding the text of a boolean converts back to that boolean |
| RoundTrip.VipRoundTrip | mailchimp-restore.py:55 | the member's `vip` flag comes back as the boolean it was |

## Left out

- The MailChimp API client, HTTP requests and their errors: each list's members response is a parameter, and the upsert is a `Call` value.
- `show_lists` and its printing, and every message written to standard error: only the exit status is modelled.
- `_filename` (the clock and `os.path.abspath`): it is the `filename` parameter, one function for the whole run, because `_filename.now` is fixed at its first call.
- `os.makedirs`: directories are not modelled. Opening the `--in` file is an `Option` that is None when the file cannot be opened.
- CSV quoting and the UTF-8 encoding: CSV files are rows of cells, and `csv.DictReader` rows are dicts from header names to cells.
- Short and long rows in `csv.DictReader` (its `None` restval and restkey) are not modelled: every row given to the restore model has one cell per header name.
- RoundTrip.ReadBack: reads back only members with the first member's columns. A member of the same list whose merge fields differ in number or names gives a row that `csv.DictReader` misaligns (cells under the wrong names, `None` cells or a `None` key), and the model says nothing about what is restored from it.
- BackupExport.Render: `str()` of a nested mapping is written as a Python dict display without escape handling, and numbers and other scalars are kept as their text (`Other`). A nested mapping holds scalars only.
- `json.loads` is the predicate `jsonOk`, which says only whether a text decodes; the decoded value is kept as its text (`Json`). The backup writes the tags with `str()` (a Python list display with single quotes), and whether `json.loads` accepts that text is not decided by the model.
- RestoreRow.GatherColumns: the two group dicts are shared objects in the script (`row['merge_fields']` is the dict being filled). The model fills them as locals and stores them into the row after the loop. The result is the same, because their keys are already in the row.
- `get_subscriber_hash` is the `hash` parameter.
- Python's own type errors in the restore script are modelled only where a non-text value reaches a string operation (`TypeError` on `tags`, `timestamp_signup` and `email_address`). In the backup script, indexing a value that is not a mapping (`member[p][sel]` on a string, list or None, or `member[p].keys()` on a non-dict) is modelled as the single error `NotMapping`, without telling TypeError from AttributeError.

## Findings

| source | as written | input that shows it | evidently intended | confidence | as-written member | corrected member |
|---|---|---|---|---|---|---|
| mailchimp-backup.py:130 | `getattr(options, 'key', os.environ.get('MAILCHIMP_KEY'))` always returns `options.key`, because argparse always sets it (to None when `--key` is absent), so the environment is never read | `--show-lists` with no `--key` and `MAILCHIMP_KEY=key-us1`: exits with status 1 | use MAILCHIMP_KEY when `--key` is not given, as the error message says and as mailchimp-restore.py:85 does | not executed | BackupMain.EnvKeyIgnoredExample | BackupMain.IntendedKeyHonoursEnv |
