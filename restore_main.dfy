/** The restore script: every row of the CSV file is read and converted
    first, and only then is each subscriber sent to the list with one
    create-or-update call. The API is not called here; the calls the
    script makes are recorded, in order, as values. */
module RestoreMain {
  import opened Dicts
  import opened Cli
  import opened RestoreRow

  /** One `client.lists.members.create_or_update(list_id, subscriber_hash,
      data)` call. */
  datatype Call = Call(list: string, hash: string, body: Dict<RValue>)

  /** Every CSV row is a dict: its column names are distinct. */
  predicate RowsAreDicts(rows: seq<Row>) {
    forall i :: 0 <= i < |rows| ==> UniqueKeys(rows[i])
  }

  /** How one row is read: converted into a subscriber, or an error. */
  type Reader = Row -> Result<Dict<RValue>, RestoreError>

  /** The script reads each row with the row conversion. */
  function Reading(jsonOk: string -> bool): Reader {
    row => Transform(row, jsonOk)
  }

  /** Whether every row of the file reads. */
  predicate AllRead(rows: seq<Row>, read: Reader) {
    forall i :: 0 <= i < |rows| ==> read(rows[i]).Success?
  }

  /** The subscribers collected when every row reads. */
  function Subscribers(rows: seq<Row>, read: Reader): (subs: seq<Dict<RValue>>)
    requires AllRead(rows, read)
    ensures |subs| == |rows|
    ensures forall i :: 0 <= i < |rows| ==> subs[i] == read(rows[i]).value
  {
    seq(|rows|, i requires 0 <= i < |rows| && AllRead(rows, read) => read(rows[i]).value)
  }

  /** Row `k` is the first one that does not read. */
  predicate FirstFailing(rows: seq<Row>, read: Reader, k: nat)
    requires k < |rows|
  {
    read(rows[k]).Failure? && forall j :: 0 <= j < k ==> read(rows[j]).Success?
  }

  /** What the loop over `csv.DictReader(fp)` yields for the rows read so
      far: each row read and appended, or the error of the first row that
      fails. */
  function ReadAll(rows: seq<Row>, read: Reader): Result<seq<Dict<RValue>>, RestoreError> {
    if rows == [] then Success([])
    else
      var n := |rows| - 1;
      match ReadAll(rows[..n], read)
      case Failure(e) => Failure(e)
      case Success(subs) =>
        match read(rows[n])
        case Failure(e) => Failure(e)
        case Success(sub) => Success(subs + [sub])
  }

  /** Reading one more row after a prefix that reads. */
  lemma ReadAllStep(rows: seq<Row>, read: Reader, i: nat)
    requires i < |rows| && ReadAll(rows[..i], read).Success?
    ensures read(rows[i]).Failure? ==> ReadAll(rows[..i + 1], read) == Failure(read(rows[i]).error)
    ensures read(rows[i]).Success? ==>
      ReadAll(rows[..i + 1], read) == Success(ReadAll(rows[..i], read).value + [read(rows[i]).value])
  {
    TakeSnoc(rows, i);
    assert rows[..i + 1][..i] == rows[..i];
  }

  /** Once a prefix of the rows fails, the whole file fails the same way. */
  lemma {:induction false} ReadAllFailureSticks(rows: seq<Row>, read: Reader, i: nat)
    requires i <= |rows| && ReadAll(rows[..i], read).Failure?
    ensures ReadAll(rows, read) == ReadAll(rows[..i], read)
  {
    if i < |rows| {
      var n := |rows| - 1;
      assert rows[..n][..i] == rows[..i];
      ReadAllFailureSticks(rows[..n], read, i);
    } else {
      assert rows[..i] == rows;
    }
  }

  /** The file reads exactly when every row reads; then the subscribers
      are the rows read, in file order, and otherwise the error is that of
      the first row that does not read. */
  lemma {:induction false} ReadAllMeaning(rows: seq<Row>, read: Reader) returns (k: nat)
    ensures ReadAll(rows, read).Success? <==> AllRead(rows, read)
    ensures ReadAll(rows, read).Success? ==> ReadAll(rows, read).value == Subscribers(rows, read)
    ensures ReadAll(rows, read).Failure? ==>
      k < |rows| && FirstFailing(rows, read, k) && ReadAll(rows, read).error == read(rows[k]).error
  {
    if rows == [] {
      return 0;
    }
    var n := |rows| - 1;
    var init := rows[..n];
    k := ReadAllMeaning(init, read);
    assert forall j :: 0 <= j < n ==> init[j] == rows[j];
    if ReadAll(init, read).Success? {
      k := n;
      if read(rows[n]).Success? {
        assert AllRead(rows, read);
        assert ReadAll(rows, read).value == Subscribers(init, read) + [read(rows[n]).value];
      }
    }
  }

  /** The loop over `csv.DictReader(fp)`: each row is converted and
      appended; the first row that fails raises its error and nothing is
      collected. */
  method ReadSubscribers(rows: seq<Row>, jsonOk: string -> bool) returns (r: Result<seq<Dict<RValue>>, RestoreError>)
    requires RowsAreDicts(rows)
    ensures r == ReadAll(rows, Reading(jsonOk))
  {
    var subscribers: seq<Dict<RValue>> := [];
    for i := 0 to |rows|
      invariant ReadAll(rows[..i], Reading(jsonOk)) == Success(subscribers)
    {
      var row := ReadRow(rows[i], jsonOk);
      ReadAllStep(rows, Reading(jsonOk), i);
      if row.Failure? {
        ReadAllFailureSticks(rows, Reading(jsonOk), i + 1);
        return Failure(row.error);
      }
      subscribers := subscribers + [row.value];
    }
    assert rows[..|rows|] == rows;
    return Success(subscribers);
  }

  /** The body of the upload loop for one subscriber:
      `sub['status_if_new'] = sub['status']`, then the call with the hash
      of its e-mail address. `hash` stands for `get_subscriber_hash`. */
  function Upsert(list: string, sub: Dict<RValue>, hash: string -> string): (r: Result<Call, RestoreError>)
    ensures r.Success? <==> "status" in Keys(sub) && "email_address" in Keys(sub) && Get(sub, "email_address").value.Str?
    ensures "status" !in Keys(sub) ==> r == Failure(KeyError("status"))
    ensures "status" in Keys(sub) && "email_address" !in Keys(sub) ==> r == Failure(KeyError("email_address"))
    ensures r.Success? ==> r.value.list == list && r.value.hash == hash(Get(sub, "email_address").value.s)
  {
    match Get(sub, "status")
    case None => Failure(KeyError("status"))
    case Some(status) =>
      var body := Set(sub, "status_if_new", status);
      SetKeepsOthers(sub, "status_if_new", status, "email_address");
      match Get(body, "email_address")
      case None => Failure(KeyError("email_address"))
      case Some(email) =>
        if email.Str? then Success(Call(list, hash(email.s), body))
        else Failure(TypeError("email_address"))
  }

  /** The body sent is the subscriber with `status_if_new` set to its
      status; every other key is as it was. */
  lemma UpsertBody(list: string, sub: Dict<RValue>, hash: string -> string, k: string)
    requires Upsert(list, sub, hash).Success?
    ensures Get(Upsert(list, sub, hash).value.body, "status_if_new") == Get(sub, "status")
    ensures k != "status_if_new" ==> Get(Upsert(list, sub, hash).value.body, k) == Get(sub, k)
  {
    var status := Get(sub, "status").value;
    SetKeepsOthers(sub, "status_if_new", status, "email_address");
    assert Upsert(list, sub, hash).value.body == Set(sub, "status_if_new", status);
    if k != "status_if_new" {
      SetKeepsOthers(sub, "status_if_new", status, k);
    }
  }

  /** A converted row is sent exactly when its CSV row has a status and an
      e-mail address; the call is addressed by the hash of that address
      and carries the status again as `status_if_new`. */
  lemma UpsertConverted(row: Row, jsonOk: string -> bool, list: string, hash: string -> string)
    requires Transform(row, jsonOk).Success?
    ensures Upsert(list, Transform(row, jsonOk).value, hash).Success? <==>
      "status" in Keys(row) && "email_address" in Keys(row)
    ensures Upsert(list, Transform(row, jsonOk).value, hash).Success? ==>
      && Upsert(list, Transform(row, jsonOk).value, hash).value.hash == hash(Get(row, "email_address").value)
      && Get(Upsert(list, Transform(row, jsonOk).value, hash).value.body, "status_if_new") == Some(Str(Get(row, "status").value))
  {
    ContactCells(row, jsonOk);
    UpsertFromCells(list, Transform(row, jsonOk).value, hash, Get(row, "status"), Get(row, "email_address"));
  }

  /** The status and e-mail address of a converted row are its cells. */
  lemma ContactCells(row: Row, jsonOk: string -> bool)
    requires Transform(row, jsonOk).Success?
    ensures Get(Transform(row, jsonOk).value, "status") == Cell(Get(row, "status"))
    ensures Get(Transform(row, jsonOk).value, "email_address") == Cell(Get(row, "email_address"))
  {
    Ungrouped("status");
    Ungrouped("email_address");
    Unconverted("status");
    Unconverted("email_address");
    TransformKeeps(row, jsonOk, "status");
    TransformKeeps(row, jsonOk, "email_address");
  }

  lemma UpsertFromCells(list: string, sub: Dict<RValue>, hash: string -> string, status: Option<string>, email: Option<string>)
    requires Get(sub, "status") == Cell(status) && Get(sub, "email_address") == Cell(email)
    ensures Upsert(list, sub, hash).Success? <==> status.Some? && email.Some?
    ensures Upsert(list, sub, hash).Success? ==>
      && Upsert(list, sub, hash).value.hash == hash(email.value)
      && Get(Upsert(list, sub, hash).value.body, "status_if_new") == Some(Str(status.value))
  {
    if Upsert(list, sub, hash).Success? {
      UpsertBody(list, sub, hash, "");
    }
  }

  /** How one subscriber is sent: the call made, or an error. */
  type Sender = Dict<RValue> -> Result<Call, RestoreError>

  /** The script sends each subscriber with one upsert to `list`. */
  function Sending(list: string, hash: string -> string): Sender {
    sub => Upsert(list, sub, hash)
  }

  /** `calls` and `err` are what the upload loop leaves: the calls for the
      subscribers before the first one that cannot be sent, in order, and
      that failure, if any. */
  predicate Uploaded(subs: seq<Dict<RValue>>, send: Sender, calls: seq<Call>, err: Option<RestoreError>) {
    && |calls| <= |subs|
    && (forall i :: 0 <= i < |calls| ==> send(subs[i]) == Success(calls[i]))
    && (err.None? ==> |calls| == |subs|)
    && (err.Some? ==> |calls| < |subs| && send(subs[|calls|]) == Failure(err.value))
  }

  /** Only one outcome fits a given list of subscribers. */
  lemma UploadedUnique(subs: seq<Dict<RValue>>, send: Sender,
                       c1: seq<Call>, e1: Option<RestoreError>, c2: seq<Call>, e2: Option<RestoreError>)
    requires Uploaded(subs, send, c1, e1) && Uploaded(subs, send, c2, e2)
    ensures c1 == c2 && e1 == e2
  {
    if |c1| == |c2| {
      forall i | 0 <= i < |c1|
        ensures c1[i] == c2[i]
      {
        assert send(subs[i]) == Success(c1[i]);
      }
    }
  }

  /** One more subscriber sent. */
  lemma SentSnoc(subs: seq<Dict<RValue>>, send: Sender, calls: seq<Call>, c: Call)
    requires |calls| < |subs| && send(subs[|calls|]) == Success(c)
    requires forall j :: 0 <= j < |calls| ==> send(subs[j]) == Success(calls[j])
    ensures forall j :: 0 <= j < |calls| + 1 ==> send(subs[j]) == Success((calls + [c])[j])
  {
  }

  /** The loop over the subscribers: one call each, stopping at the first
      subscriber without a status or an e-mail address. */
  method UploadAll(list: string, subs: seq<Dict<RValue>>, hash: string -> string) returns (calls: seq<Call>, err: Option<RestoreError>)
    ensures Uploaded(subs, Sending(list, hash), calls, err)
  {
    calls := [];
    for i := 0 to |subs|
      invariant |calls| == i
      invariant forall j :: 0 <= j < i ==> Sending(list, hash)(subs[j]) == Success(calls[j])
    {
      var sub := subs[i];
      var status := Get(sub, "status");
      if status.None? {
        return calls, Some(KeyError("status"));
      }
      sub := Set(sub, "status_if_new", status.value);
      var email := Get(sub, "email_address");
      if email.None? {
        return calls, Some(KeyError("email_address"));
      }
      if !email.value.Str? {
        return calls, Some(TypeError("email_address"));
      }
      var call := Call(list, hash(email.value.s), sub);
      assert Sending(list, hash)(subs[i]) == Success(call);
      SentSnoc(subs, Sending(list, hash), calls, call);
      calls := calls + [call];
    }
    return calls, None;
  }

  /** `restore(key, options)` on the rows of the input file: a row that
      fails to convert stops the run before any call is made. */
  method Restore(rows: seq<Row>, jsonOk: string -> bool, list: string, hash: string -> string)
    returns (calls: seq<Call>, err: Option<RestoreError>)
    requires RowsAreDicts(rows)
    ensures ReadAll(rows, Reading(jsonOk)).Failure? ==> calls == [] && err == Some(ReadAll(rows, Reading(jsonOk)).error)
    ensures ReadAll(rows, Reading(jsonOk)).Success? ==> Uploaded(ReadAll(rows, Reading(jsonOk)).value, Sending(list, hash), calls, err)
  {
    var subscribers := ReadSubscribers(rows, jsonOk);
    if subscribers.Failure? {
      return [], Some(subscribers.error);
    }
    calls, err := UploadAll(list, subscribers.value, hash);
  }

  /** The parsed command line; an option not given is None. */
  datatype RestoreOptions = RestoreOptions(
    key: Option<string>,
    showLists: bool,
    list: Option<string>,
    input: Option<string>)

  /** What the script goes on to do once its options are read. */
  datatype RestoreAction =
    | Exit(status: int)
    | ShowLists(key: string)
    | Run(key: string, list: string, input: string)

  /** The order of the checks: a key from `--key` or MAILCHIMP_KEY is
      required; `--show-lists` lists and exits; otherwise a non-empty
      `--in` and then a non-empty `--list` are required. */
  function RestoreCommand(o: RestoreOptions, env: Option<string>): (a: RestoreAction)
    ensures a == Exit(1) <==> KeyOrEnv(o.key, env).None? || (!o.showLists && !(Given(o.input) && Given(o.list)))
    ensures a.ShowLists? <==> KeyOrEnv(o.key, env).Some? && o.showLists
    ensures a.Run? <==> KeyOrEnv(o.key, env).Some? && !o.showLists && Given(o.input) && Given(o.list)
    ensures a.ShowLists? || a.Run? ==> a.key == KeyOrEnv(o.key, env).value
    ensures a.Run? ==> a.list == o.list.value && a.input == o.input.value
  {
    var key := KeyOrEnv(o.key, env);
    if key.None? then Exit(1)
    else if o.showLists then ShowLists(key.value)
    else if !Given(o.input) then Exit(1)
    else if !Given(o.list) then Exit(1)
    else Run(key.value, o.list.value, o.input.value)
  }

  /** Unlike the backup script, this one honours MAILCHIMP_KEY. */
  lemma RestoreKeyFromEnv(o: RestoreOptions, env: Option<string>)
    requires !Given(o.key) && env.Some?
    ensures RestoreCommand(o, env) != Exit(1) <==> o.showLists || (Given(o.input) && Given(o.list))
    ensures RestoreCommand(o, env).ShowLists? || RestoreCommand(o, env).Run? ==> RestoreCommand(o, env).key == env.value
  {
    KeyMissingIff(o.key, env);
  }

  /** How a run ends: with an exit status and the calls made, because the
      input file cannot be opened, or with an uncaught exception after
      the calls made so far. */
  datatype RestoreRun =
    | Finished(status: int, calls: seq<Call>)
    | Unreadable(path: string)
    | Raised(error: RestoreError, calls: seq<Call>)

  /** The whole script. `input` holds the rows `csv.DictReader` reads
      from the file named by `--in`, or None when it cannot be opened. */
  method RestoreScript(o: RestoreOptions, env: Option<string>, input: Option<seq<Row>>,
                       jsonOk: string -> bool, hash: string -> string) returns (r: RestoreRun)
    requires input.Some? ==> RowsAreDicts(input.value)
    ensures RestoreCommand(o, env).Exit? ==> r == Finished(1, [])
    ensures RestoreCommand(o, env).ShowLists? ==> r == Finished(0, [])
    ensures RestoreCommand(o, env).Run? && input.None? ==> r == Unreadable(o.input.value)
    ensures RestoreCommand(o, env).Run? && input.Some? && ReadAll(input.value, Reading(jsonOk)).Failure? ==>
              r == Raised(ReadAll(input.value, Reading(jsonOk)).error, [])
    ensures RestoreCommand(o, env).Run? && input.Some? && ReadAll(input.value, Reading(jsonOk)).Success? ==>
              && (r.Finished? || r.Raised?)
              && Uploaded(ReadAll(input.value, Reading(jsonOk)).value, Sending(o.list.value, hash), r.calls,
                          if r.Raised? then Some(r.error) else None)
              && (r.Finished? ==> r.status == 0)
  {
    var action := RestoreCommand(o, env);
    match action {
      case Exit(status) =>
        return Finished(status, []);
      case ShowLists(_) =>
        return Finished(0, []);
      case Run(_, list, path) =>
        if input.None? {
          return Unreadable(path);
        }
        var calls, err := Restore(input.value, jsonOk, list, hash);
        if err.Some? {
          return Raised(err.value, calls);
        }
        return Finished(0, calls);
    }
  }
}
