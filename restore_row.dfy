/** The restore script's treatment of one CSV row: the flattened
    `merge_fields.*` and `location.*` columns are gathered back into nested
    mappings, and a few columns are converted or defaulted. */
module RestoreRow {
  import opened Dicts

  /** A CSV row as `csv.DictReader` yields it: column name to cell. */
  type Row = Dict<string>

  /** A value in a subscriber record being rebuilt: a cell as read, a
      boolean, a nested mapping, or the value `json.loads` decodes from a
      text (kept as that text). */
  datatype RValue = Str(s: string) | Bool(b: bool) | Map(entries: Dict<RValue>) | Json(raw: string)

  /** The exceptions the loop body can raise: a missing column, tags that
      `json.loads` rejects, or a value that is not text where `json.loads`
      or `re.sub` needs text. */
  datatype RestoreError = KeyError(key: string) | JsonError(raw: string) | TypeError(key: string)

  const MERGE_PREFIX := "merge_fields."
  const LOCATION_PREFIX := "location."

  /** Whether a column is one the row loop moves into a nested mapping. */
  predicate Grouped(k: string) {
    StartsWith(k, MERGE_PREFIX) || StartsWith(k, LOCATION_PREFIX)
  }

  /** The row with every cell as a string value. */
  function Lift(row: Row): (d: Dict<RValue>)
    ensures Keys(d) == Keys(row)
    ensures forall i :: 0 <= i < |row| ==> d[i].1 == Str(row[i].1)
  {
    seq(|row|, i requires 0 <= i < |row| => (row[i].0, Str(row[i].1)))
  }

  /** The row after `row['merge_fields'] = {}` and `row['location'] = {}`. */
  function Base(row: Row): Dict<RValue> {
    Set(Set(Lift(row), "merge_fields", Map([])), "location", Map([]))
  }

  /** The entries the loop leaves in place, in order. */
  function Keep(d: Dict<RValue>): Dict<RValue> {
    if d == [] then []
    else
      var n := |d| - 1;
      Keep(d[..n]) + (if Grouped(d[n].0) then [] else [d[n]])
  }

  /** The entries whose key starts with `p`, under the rest of their key,
      in order. */
  function Strip(p: string, d: Dict<RValue>): Dict<RValue> {
    if d == [] then []
    else
      var n := |d| - 1;
      Strip(p, d[..n]) + (if StartsWith(d[n].0, p) then [(d[n].0[|p|..], d[n].1)] else [])
  }

  /** A row once the column loop has run over it: the grouped columns are
      gone, and `merge_fields` and `location` hold them, keyed by what
      follows the prefix. */
  function Gathered(b: Dict<RValue>): Dict<RValue> {
    Set(Set(Keep(b), "merge_fields", Map(Strip(MERGE_PREFIX, b))), "location", Map(Strip(LOCATION_PREFIX, b)))
  }

  /** The CSV row after the empty groups are added and the loop has run. */
  function Regroup(row: Row): Dict<RValue> {
    Gathered(Base(row))
  }

  lemma KeepSnoc(d: Dict<RValue>, e: (string, RValue))
    ensures Keep(d + [e]) == Keep(d) + (if Grouped(e.0) then [] else [e])
  {
    assert (d + [e])[..|d|] == d;
  }

  lemma StripSnoc(p: string, d: Dict<RValue>, e: (string, RValue))
    ensures Strip(p, d + [e]) == Strip(p, d) + (if StartsWith(e.0, p) then [(e.0[|p|..], e.1)] else [])
  {
    assert (d + [e])[..|d|] == d;
  }

  /** Every key left in place was a key before. */
  lemma {:induction false} KeepKeys(d: Dict<RValue>, k: string)
    requires k in Keys(Keep(d))
    ensures k in Keys(d)
  {
    var n := |d| - 1;
    assert d == d[..n] + [d[n]];
    KeepSnoc(d[..n], d[n]);
    KeysAppend(Keep(d[..n]), if Grouped(d[n].0) then [] else [d[n]]);
    if k in Keys(Keep(d[..n])) {
      KeepKeys(d[..n], k);
      KeysAppend(d[..n], [d[n]]);
    }
  }

  /** Every key of a group comes from a column `p + key`. */
  lemma {:induction false} StripKeys(p: string, d: Dict<RValue>, k: string)
    requires k in Keys(Strip(p, d))
    ensures p + k in Keys(d)
  {
    var n := |d| - 1;
    assert d == d[..n] + [d[n]];
    StripSnoc(p, d[..n], d[n]);
    var tail: Dict<RValue> := if StartsWith(d[n].0, p) then [(d[n].0[|p|..], d[n].1)] else [];
    KeysAppend(Strip(p, d[..n]), tail);
    KeysAppend(d[..n], [d[n]]);
    if k in Keys(Strip(p, d[..n])) {
      StripKeys(p, d[..n], k);
    } else {
      assert k == d[n].0[|p|..];
      assert d[n].0 == d[n].0[..|p|] + d[n].0[|p|..];
    }
  }

  /** The two groups are assigned into the row, then the column loop
      runs over it. */
  method RegroupRow(row: Row) returns (r: Dict<RValue>)
    requires UniqueKeys(row)
    ensures r == Regroup(row)
  {
    var d := Set(Lift(row), "merge_fields", Map([]));
    d := Set(d, "location", Map([]));
    BaseUnique(row);
    r := GatherColumns(d);
  }

  /** The loop over `list(row.items())`: a grouped column is popped and
      stored in its group under the rest of its name. The two groups are
      the dicts assigned into the row before the loop, so the row holds
      them, filled, at their places. */
  method GatherColumns(items: Dict<RValue>) returns (r: Dict<RValue>)
    requires UniqueKeys(items)
    ensures r == Gathered(items)
  {
    var d := items;
    var merge: Dict<RValue> := [];
    var location: Dict<RValue> := [];
    for i := 0 to |items|
      invariant d == Keep(items[..i]) + items[i..]
      invariant merge == Strip(MERGE_PREFIX, items[..i])
      invariant location == Strip(LOCATION_PREFIX, items[..i])
    {
      var (k, v) := items[i];
      PrefixesDisjoint(k);
      if !Grouped(k) {
        UngroupedStep(items, i);
      }
      if StartsWith(k, MERGE_PREFIX) {
        GroupedStep(items, i, MERGE_PREFIX, LOCATION_PREFIX);
        d := Pop(d, k);
        merge := Set(merge, k[|MERGE_PREFIX|..], v);
      }
      if StartsWith(k, LOCATION_PREFIX) {
        GroupedStep(items, i, LOCATION_PREFIX, MERGE_PREFIX);
        d := Pop(d, k);
        location := Set(location, k[|LOCATION_PREFIX|..], v);
      }
    }
    LoopDone(items, d, merge, location);
    r := Set(Set(d, "merge_fields", Map(merge)), "location", Map(location));
  }

  lemma BaseUnique(row: Row)
    requires UniqueKeys(row)
    ensures UniqueKeys(Base(row))
  {
    SetUnique(Lift(row), "merge_fields", Map([]));
    SetUnique(Set(Lift(row), "merge_fields", Map([])), "location", Map([]));
  }

  lemma LoopDone(items: Dict<RValue>, d: Dict<RValue>, merge: Dict<RValue>, location: Dict<RValue>)
    requires d == Keep(items[..|items|]) + items[|items|..]
    requires merge == Strip(MERGE_PREFIX, items[..|items|])
    requires location == Strip(LOCATION_PREFIX, items[..|items|])
    ensures d == Keep(items) && merge == Strip(MERGE_PREFIX, items) && location == Strip(LOCATION_PREFIX, items)
  {
    assert items[..|items|] == items;
    assert d == Keep(items) + [];
  }

  /** No column starts with both prefixes. */
  lemma PrefixesDisjoint(k: string)
    ensures !(StartsWith(k, MERGE_PREFIX) && StartsWith(k, LOCATION_PREFIX))
  {
    if StartsWith(k, MERGE_PREFIX) {
      assert k[0] == 'm';
    }
  }

  /** A column outside both groups stays where it is. */
  lemma UngroupedStep(items: Dict<RValue>, i: nat)
    requires i < |items| && !Grouped(items[i].0)
    ensures Keep(items[..i]) + items[i..] == Keep(items[..i + 1]) + items[i + 1..]
    ensures Strip(MERGE_PREFIX, items[..i + 1]) == Strip(MERGE_PREFIX, items[..i])
    ensures Strip(LOCATION_PREFIX, items[..i + 1]) == Strip(LOCATION_PREFIX, items[..i])
  {
    assert items[..i + 1] == items[..i] + [items[i]];
    KeepSnoc(items[..i], items[i]);
    StripSnoc(MERGE_PREFIX, items[..i], items[i]);
    StripSnoc(LOCATION_PREFIX, items[..i], items[i]);
    assert items[i..] == [items[i]] + items[i + 1..];
  }

  /** A column of group `p` leaves the row and joins the group, appended
      after the columns already gathered; group `q` is untouched. */
  lemma GroupedStep(items: Dict<RValue>, i: nat, p: string, q: string)
    requires UniqueKeys(items) && i < |items|
    requires StartsWith(items[i].0, p) && !StartsWith(items[i].0, q) && Grouped(items[i].0)
    ensures items[i].0 in Keys(Keep(items[..i]) + items[i..])
    ensures Pop(Keep(items[..i]) + items[i..], items[i].0) == Keep(items[..i + 1]) + items[i + 1..]
    ensures Set(Strip(p, items[..i]), items[i].0[|p|..], items[i].1) == Strip(p, items[..i + 1])
    ensures Strip(q, items[..i + 1]) == Strip(q, items[..i])
  {
    assert items[..i + 1] == items[..i] + [items[i]];
    KeepSnoc(items[..i], items[i]);
    var kept := Keep(items[..i]);
    assert Keep(items[..i + 1]) == kept + [];
    assert kept + [] == kept;
    StripSnoc(p, items[..i], items[i]);
    StripSnoc(q, items[..i], items[i]);
    PopLater(items, i);
    FreshSuffix(p, items, i);
    SetFresh(Strip(p, items[..i]), items[i].0[|p|..], items[i].1);
  }

  /** Popping column `i` takes it out of the part of the row not yet
      visited. */
  lemma PopLater(items: Dict<RValue>, i: nat)
    requires UniqueKeys(items) && i < |items|
    ensures items[i].0 in Keys(Keep(items[..i]) + items[i..])
    ensures Pop(Keep(items[..i]) + items[i..], items[i].0) == Keep(items[..i]) + items[i + 1..]
  {
    var k := items[i].0;
    var front, rest := Keep(items[..i]), items[i + 1..];
    NotEarlier(items, i);
    if k in Keys(front) {
      KeepKeys(items[..i], k);
    }
    assert front + items[i..] == front + [(k, items[i].1)] + rest;
    PopAt(front, k, items[i].1, rest);
  }

  /** No earlier column left the same name in the group. */
  lemma FreshSuffix(p: string, items: Dict<RValue>, i: nat)
    requires UniqueKeys(items) && i < |items| && StartsWith(items[i].0, p)
    ensures items[i].0[|p|..] !in Keys(Strip(p, items[..i]))
  {
    var k := items[i].0;
    NotEarlier(items, i);
    assert k == p + k[|p|..];
    if k[|p|..] in Keys(Strip(p, items[..i])) {
      StripKeys(p, items[..i], k[|p|..]);
    }
  }

  /** With distinct keys, a column's name is not among the earlier ones. */
  lemma NotEarlier(items: Dict<RValue>, i: nat)
    requires UniqueKeys(items) && i < |items|
    ensures items[i].0 !in Keys(items[..i])
  {
    assert forall j :: 0 <= j < i ==> Keys(items[..i])[j] == Keys(items)[j];
  }

  /** A CSV cell as the value the row holds for it. */
  function Cell(c: Option<string>): (r: Option<RValue>)
    ensures r.Some? <==> c.Some?
  {
    if c.Some? then Some(Str(c.value)) else None
  }

  /** Looking a column up in the lifted row finds its cell. */
  lemma LiftGet(row: Row, k: string)
    ensures Get(Lift(row), k) == Cell(Get(row, k))
  {
    FindSameKeys(Lift(row), row, k);
  }

  /** The entries left in place answer every ungrouped lookup as before,
      and no grouped one. */
  lemma {:induction false} KeepGet(d: Dict<RValue>, k: string)
    ensures Get(Keep(d), k) == if Grouped(k) then None else Get(d, k)
  {
    if d != [] {
      var n := |d| - 1;
      var init, e := d[..n], d[n];
      assert d == init + [e];
      KeepSnoc(init, e);
      KeepGet(init, k);
      GetSnoc(init, k, e);
      if Grouped(e.0) {
        assert Keep(d) == Keep(init) + [];
        assert Keep(init) + [] == Keep(init);
      } else {
        GetSnoc(Keep(init), k, e);
      }
    }
  }

  /** A group answers key `s` with the cell of column `p + s`. */
  lemma {:induction false} StripGet(p: string, d: Dict<RValue>, s: string)
    ensures Get(Strip(p, d), s) == Get(d, p + s)
  {
    if d != [] {
      var n := |d| - 1;
      var init, e := d[..n], d[n];
      assert d == init + [e];
      StripSnoc(p, init, e);
      StripGet(p, init, s);
      GetSnoc(init, p + s, e);
      if StartsWith(e.0, p) {
        GetSnoc(Strip(p, init), s, (e.0[|p|..], e.1));
        assert e.0 == e.0[..|p|] + e.0[|p|..];
        assert e.0 == p + s <==> e.0[|p|..] == s;
      } else {
        assert (p + s)[..|p|] == p;
        assert Strip(p, d) == Strip(p, init) + [];
        assert Strip(p, init) + [] == Strip(p, init);
      }
    }
  }

  /** Neither group's key is itself a column of a group. */
  lemma GroupKeysUngrouped()
    ensures !Grouped("merge_fields") && !Grouped("location")
  {
    assert |"merge_fields"| < |MERGE_PREFIX|;
    assert |"location"| < |LOCATION_PREFIX|;
    assert "merge_fields"[0] != LOCATION_PREFIX[0];
    assert "location"[0] != MERGE_PREFIX[0];
  }

  /** A group column's name is neither group's key. */
  lemma GroupColumnNames(p: string, s: string)
    requires p == MERGE_PREFIX || p == LOCATION_PREFIX
    ensures p + s != "merge_fields" && p + s != "location"
    ensures StartsWith(p + s, p)
  {
    assert (p + s)[..|p|] == p;
    assert |"merge_fields"| < |MERGE_PREFIX|;
    assert "merge_fields"[0] != LOCATION_PREFIX[0];
    assert "location"[0] != MERGE_PREFIX[0];
    assert |"location"| < |LOCATION_PREFIX|;
  }

  /** After regrouping, an ungrouped column other than the two group keys
      still holds its cell; no grouped column is left. */
  lemma RegroupKeeps(row: Row, k: string)
    requires k != "merge_fields" && k != "location"
    ensures Get(Regroup(row), k) == if Grouped(k) then None else Cell(Get(row, k))
  {
    var b := Base(row);
    SetKeepsOthers(Set(Keep(b), "merge_fields", Map(Strip(MERGE_PREFIX, b))), "location", Map(Strip(LOCATION_PREFIX, b)), k);
    SetKeepsOthers(Keep(b), "merge_fields", Map(Strip(MERGE_PREFIX, b)), k);
    KeepGet(b, k);
    SetKeepsOthers(Set(Lift(row), "merge_fields", Map([])), "location", Map([]), k);
    SetKeepsOthers(Lift(row), "merge_fields", Map([]), k);
    LiftGet(row, k);
  }

  /** After regrouping, `merge_fields` maps each name `s` to the cell of
      column `merge_fields.s` and `location` maps each `s` to the cell of
      column `location.s`. */
  lemma RegroupGroups(row: Row, s: string)
    ensures Get(Regroup(row), "merge_fields").Some? && Get(Regroup(row), "merge_fields").value.Map?
    ensures Get(Get(Regroup(row), "merge_fields").value.entries, s) == Cell(Get(row, MERGE_PREFIX + s))
    ensures Get(Regroup(row), "location").Some? && Get(Regroup(row), "location").value.Map?
    ensures Get(Get(Regroup(row), "location").value.entries, s) == Cell(Get(row, LOCATION_PREFIX + s))
  {
    var b := Base(row);
    SetKeepsOthers(Set(Keep(b), "merge_fields", Map(Strip(MERGE_PREFIX, b))), "location", Map(Strip(LOCATION_PREFIX, b)), "merge_fields");
    BaseGroup(row, MERGE_PREFIX, s);
    BaseGroup(row, LOCATION_PREFIX, s);
  }

  /** A group gathers the columns of the CSV row itself: the two keys
      added before the loop are not group columns. */
  lemma BaseGroup(row: Row, p: string, s: string)
    requires p == MERGE_PREFIX || p == LOCATION_PREFIX
    ensures Get(Strip(p, Base(row)), s) == Cell(Get(row, p + s))
  {
    StripGet(p, Base(row), s);
    GroupColumnNames(p, s);
    SetKeepsOthers(Set(Lift(row), "merge_fields", Map([])), "location", Map([]), p + s);
    SetKeepsOthers(Lift(row), "merge_fields", Map([]), p + s);
    LiftGet(row, p + s);
  }

  predicate EndsWith(s: string, t: string) {
    |t| <= |s| && s[|s| - |t|..] == t
  }

  /** `re.sub('\+00:00$', "Z", s)`: a UTC offset at the very end, or just
      before a final newline (where `$` also matches), becomes `Z`. The
      pattern is anchored, so it matches at most once. */
  function RewriteUtc(s: string): (r: string)
    ensures !EndsWith(r, "+00:00") && !EndsWith(r, "+00:00\n")
    ensures r == s <==> !EndsWith(s, "+00:00") && !EndsWith(s, "+00:00\n")
    ensures EndsWith(s, "+00:00") ==> r == s[..|s| - 6] + "Z"
    ensures !EndsWith(s, "+00:00") && EndsWith(s, "+00:00\n") ==> r == s[..|s| - 7] + "Z\n"
    ensures r != s ==> |r| == |s| - 5
  {
    if EndsWith(s, "+00:00") then
      var r := s[..|s| - 6] + "Z";
      assert r[|r| - 1] == 'Z';
      assert r[|r| - 1] != s[|s| - 1];
      r
    else if EndsWith(s, "+00:00\n") then
      var r := s[..|s| - 7] + "Z\n";
      assert r[|r| - 2] == 'Z';
      assert r[|r| - 2] != s[|s| - 2];
      r
    else
      s
  }

  /** A timestamp with a `+00:00` offset keeps its date and time and gets
      `Z` in place of the offset, before a final newline too. */
  lemma RewriteUtcOffset(t: string)
    ensures RewriteUtc(t + "+00:00") == t + "Z"
    ensures RewriteUtc(t + "+00:00\n") == t + "Z\n"
  {
    var a, b := t + "+00:00", t + "+00:00\n";
    assert a[|a| - 6..] == "+00:00" && a[..|a| - 6] == t;
    assert b[|b| - 1] == '\n' && b[|b| - 7..] == "+00:00\n" && b[..|b| - 7] == t;
  }

  /** Rewriting twice is rewriting once. */
  lemma RewriteUtcIdempotent(s: string)
    ensures RewriteUtc(RewriteUtc(s)) == RewriteUtc(s)
  {
  }

  /** The conversions after the column loop, in the script's order:
      `json.loads` on the tags, `vip` compared with `'True'`, the signup
      timestamp's offset rewritten, then `timestamp_opt` and `ip_opt`
      filled in only where the row lacks them. */
  function Convert(d: Dict<RValue>, jsonOk: string -> bool): Result<Dict<RValue>, RestoreError> {
    match Get(d, "tags")
    case None => Failure(KeyError("tags"))
    case Some(t) =>
      if !t.Str? then Failure(TypeError("tags"))
      else if !jsonOk(t.s) then Failure(JsonError(t.s))
      else
        var d1 := Set(d, "tags", Json(t.s));
        match Get(d1, "vip")
        case None => Failure(KeyError("vip"))
        case Some(x) =>
          var d2 := Set(d1, "vip", Bool(x == Str("True")));
          match Get(d2, "timestamp_signup")
          case None => Failure(KeyError("timestamp_signup"))
          case Some(ts) =>
            if !ts.Str? then Failure(TypeError("timestamp_signup"))
            else Defaults(Set(d2, "timestamp_signup", Str(RewriteUtc(ts.s))), RewriteUtc(ts.s))
  }

  /** The two defaults: `timestamp_opt` becomes the (rewritten) signup
      timestamp and `ip_opt` the signup address, each only when absent. */
  function Defaults(d: Dict<RValue>, stamp: string): Result<Dict<RValue>, RestoreError> {
    var d' := if "timestamp_opt" in Keys(d) then d else Set(d, "timestamp_opt", Str(stamp));
    if "ip_opt" in Keys(d') then Success(d')
    else
      match Get(d', "ip_signup")
      case None => Failure(KeyError("ip_signup"))
      case Some(ip) => Success(Set(d', "ip_opt", ip))
  }

  /** Filling the defaults fails only for a row with neither `ip_opt` nor
      `ip_signup`. */
  lemma DefaultsOutcome(d: Dict<RValue>, stamp: string)
    ensures Defaults(d, stamp).Success? <==> "ip_opt" in Keys(d) || "ip_signup" in Keys(d)
    ensures Defaults(d, stamp).Failure? ==> Defaults(d, stamp) == Failure(KeyError("ip_signup"))
  {
    if "timestamp_opt" !in Keys(d) {
      SetKeepsOthers(d, "timestamp_opt", Str(stamp), "ip_signup");
    }
  }

  /** The body of the loop over the CSV rows, up to the append. */
  function Transform(row: Row, jsonOk: string -> bool): Result<Dict<RValue>, RestoreError> {
    Convert(Regroup(row), jsonOk)
  }

  /** The statements after the column loop, one assignment at a time. */
  method ConvertRow(d: Dict<RValue>, jsonOk: string -> bool) returns (r: Result<Dict<RValue>, RestoreError>)
    ensures r == Convert(d, jsonOk)
  {
    var row := d;
    var tags := Get(row, "tags");
    if tags.None? {
      return Failure(KeyError("tags"));
    }
    if !tags.value.Str? {
      return Failure(TypeError("tags"));
    }
    if !jsonOk(tags.value.s) {
      return Failure(JsonError(tags.value.s));
    }
    row := Set(row, "tags", Json(tags.value.s));
    var vip := Get(row, "vip");
    if vip.None? {
      return Failure(KeyError("vip"));
    }
    row := Set(row, "vip", Bool(vip.value == Str("True")));
    var ts := Get(row, "timestamp_signup");
    if ts.None? {
      return Failure(KeyError("timestamp_signup"));
    }
    if !ts.value.Str? {
      return Failure(TypeError("timestamp_signup"));
    }
    row := Set(row, "timestamp_signup", Str(RewriteUtc(ts.value.s)));
    if "timestamp_opt" !in Keys(row) {
      row := Set(row, "timestamp_opt", Get(row, "timestamp_signup").value);
    }
    if "ip_opt" !in Keys(row) {
      var ip := Get(row, "ip_signup");
      if ip.None? {
        return Failure(KeyError("ip_signup"));
      }
      row := Set(row, "ip_opt", ip.value);
    }
    return Success(row);
  }

  /** One CSV row turned into a subscriber record. */
  method ReadRow(row: Row, jsonOk: string -> bool) returns (r: Result<Dict<RValue>, RestoreError>)
    requires UniqueKeys(row)
    ensures r == Transform(row, jsonOk)
  {
    var d := RegroupRow(row);
    r := ConvertRow(d, jsonOk);
  }

  /** A column whose name starts with neither group's first letter. */
  lemma Ungrouped(k: string)
    requires k != [] && k[0] != 'm' && k[0] != 'l'
    ensures !Grouped(k)
  {
    if |k| >= |MERGE_PREFIX| {
      assert k[..|MERGE_PREFIX|][0] != MERGE_PREFIX[0];
    }
    if |k| >= |LOCATION_PREFIX| {
      assert k[..|LOCATION_PREFIX|][0] != LOCATION_PREFIX[0];
    }
  }

  /** The columns the conversions read are left alone by the column loop. */
  lemma RegroupedCells(row: Row)
    ensures Get(Regroup(row), "tags") == Cell(Get(row, "tags"))
    ensures Get(Regroup(row), "vip") == Cell(Get(row, "vip"))
    ensures Get(Regroup(row), "timestamp_signup") == Cell(Get(row, "timestamp_signup"))
    ensures Get(Regroup(row), "timestamp_opt") == Cell(Get(row, "timestamp_opt"))
    ensures Get(Regroup(row), "ip_signup") == Cell(Get(row, "ip_signup"))
    ensures Get(Regroup(row), "ip_opt") == Cell(Get(row, "ip_opt"))
  {
    RegroupedCell(row, "tags");
    RegroupedCell(row, "vip");
    RegroupedCell(row, "timestamp_signup");
    RegroupedCell(row, "timestamp_opt");
    RegroupedCell(row, "ip_signup");
    RegroupedCell(row, "ip_opt");
  }

  /** A column whose name starts with neither m nor l is left alone by the
      column loop. */
  lemma RegroupedCell(row: Row, k: string)
    requires k != [] && k[0] != 'm' && k[0] != 'l'
    ensures Get(Regroup(row), k) == Cell(Get(row, k))
  {
    Ungrouped(k);
    assert "merge_fields"[0] == 'm' && "location"[0] == 'l';
    RegroupKeeps(row, k);
  }

  /** Which conversion fails first, for any row whose tags and signup
      timestamp, when present, are text. */
  lemma ConvertOutcome(d: Dict<RValue>, jsonOk: string -> bool)
    requires "tags" in Keys(d) ==> Get(d, "tags").value.Str?
    requires "timestamp_signup" in Keys(d) ==> Get(d, "timestamp_signup").value.Str?
    ensures Convert(d, jsonOk).Success? <==>
      "tags" in Keys(d) && jsonOk(Get(d, "tags").value.s) && "vip" in Keys(d) &&
      "timestamp_signup" in Keys(d) && ("ip_opt" in Keys(d) || "ip_signup" in Keys(d))
    ensures "tags" !in Keys(d) ==> Convert(d, jsonOk) == Failure(KeyError("tags"))
    ensures "tags" in Keys(d) && !jsonOk(Get(d, "tags").value.s) ==>
      Convert(d, jsonOk) == Failure(JsonError(Get(d, "tags").value.s))
    ensures "tags" in Keys(d) && jsonOk(Get(d, "tags").value.s) && "vip" !in Keys(d) ==>
      Convert(d, jsonOk) == Failure(KeyError("vip"))
    ensures "tags" in Keys(d) && jsonOk(Get(d, "tags").value.s) && "vip" in Keys(d) && "timestamp_signup" !in Keys(d) ==>
      Convert(d, jsonOk) == Failure(KeyError("timestamp_signup"))
    ensures Convert(d, jsonOk).Failure? && "tags" in Keys(d) && jsonOk(Get(d, "tags").value.s) &&
            "vip" in Keys(d) && "timestamp_signup" in Keys(d) ==>
              Convert(d, jsonOk) == Failure(KeyError("ip_signup"))
  {
    var t := Get(d, "tags");
    if t.Some? && jsonOk(t.value.s) {
      var d1 := Set(d, "tags", Json(t.value.s));
      SetKeepsOthers(d, "tags", Json(t.value.s), "vip");
      SetKeepsOthers(d, "tags", Json(t.value.s), "timestamp_signup");
      var x := Get(d1, "vip");
      if x.Some? {
        var d2 := Set(d1, "vip", Bool(x.value == Str("True")));
        SetKeepsOthers(d1, "vip", Bool(x.value == Str("True")), "timestamp_signup");
        var ts := Get(d2, "timestamp_signup");
        if ts.Some? {
          var d3 := Set(d2, "timestamp_signup", Str(RewriteUtc(ts.value.s)));
          DefaultsOutcome(d3, RewriteUtc(ts.value.s));
          assert "ip_opt" in Keys(d3) <==> "ip_opt" in Keys(d);
          assert "ip_signup" in Keys(d3) <==> "ip_signup" in Keys(d);
        }
      }
    }
  }

  /** A row converts exactly when it has tags that decode, a `vip` and a
      signup timestamp, and an `ip_opt` or an `ip_signup`; otherwise the
      first missing or undecodable column is the error, and the error is
      never a type error. */
  lemma TransformOutcome(row: Row, jsonOk: string -> bool)
    ensures Transform(row, jsonOk).Success? <==>
      "tags" in Keys(row) && jsonOk(Get(row, "tags").value) && "vip" in Keys(row) &&
      "timestamp_signup" in Keys(row) && ("ip_opt" in Keys(row) || "ip_signup" in Keys(row))
    ensures "tags" !in Keys(row) ==> Transform(row, jsonOk) == Failure(KeyError("tags"))
    ensures "tags" in Keys(row) && !jsonOk(Get(row, "tags").value) ==>
      Transform(row, jsonOk) == Failure(JsonError(Get(row, "tags").value))
    ensures "tags" in Keys(row) && jsonOk(Get(row, "tags").value) && "vip" !in Keys(row) ==>
      Transform(row, jsonOk) == Failure(KeyError("vip"))
    ensures "tags" in Keys(row) && jsonOk(Get(row, "tags").value) && "vip" in Keys(row) && "timestamp_signup" !in Keys(row) ==>
      Transform(row, jsonOk) == Failure(KeyError("timestamp_signup"))
    ensures Transform(row, jsonOk).Failure? ==> !Transform(row, jsonOk).error.TypeError?
  {
    var d := Regroup(row);
    RegroupedCells(row);
    ConvertOutcome(d, jsonOk);
  }

  /** What the defaults put in place: each default only where its key was
      absent, and nothing else changes. */
  lemma DefaultsValues(d: Dict<RValue>, stamp: string, k: string)
    requires Defaults(d, stamp).Success?
    ensures Get(Defaults(d, stamp).value, "timestamp_opt") ==
      if "timestamp_opt" in Keys(d) then Get(d, "timestamp_opt") else Some(Str(stamp))
    ensures Get(Defaults(d, stamp).value, "ip_opt") ==
      if "ip_opt" in Keys(d) then Get(d, "ip_opt") else Get(d, "ip_signup")
    ensures k != "timestamp_opt" && k != "ip_opt" ==> Get(Defaults(d, stamp).value, k) == Get(d, k)
  {
    var d' := if "timestamp_opt" in Keys(d) then d else Set(d, "timestamp_opt", Str(stamp));
    if "timestamp_opt" !in Keys(d) {
      SetKeepsOthers(d, "timestamp_opt", Str(stamp), "ip_signup");
      SetKeepsOthers(d, "timestamp_opt", Str(stamp), "ip_opt");
      if k != "timestamp_opt" {
        SetKeepsOthers(d, "timestamp_opt", Str(stamp), k);
      }
    }
    if "ip_opt" !in Keys(d') {
      var ip := Get(d', "ip_signup").value;
      SetKeepsOthers(d', "ip_opt", ip, "timestamp_opt");
      if k != "ip_opt" {
        SetKeepsOthers(d', "ip_opt", ip, k);
      }
    }
  }

  /** The keys the conversions assign. */
  predicate Converted(k: string) {
    k == "tags" || k == "vip" || k == "timestamp_signup" || k == "timestamp_opt" || k == "ip_opt"
  }

  /** No converted key starts with a letter other than t, v or i. */
  lemma Unconverted(k: string)
    requires k != [] && k[0] != 't' && k[0] != 'v' && k[0] != 'i'
    ensures !Converted(k)
  {
    assert "tags"[0] == 't' && "vip"[0] == 'v' && "ip_opt"[0] == 'i';
    assert "timestamp_signup"[0] == 't' && "timestamp_opt"[0] == 't';
  }

  /** The row after the first three assignments of the conversion. */
  function Assigned(d: Dict<RValue>, t: string, x: RValue, ts: string): Dict<RValue> {
    Set(Set(Set(d, "tags", Json(t)), "vip", Bool(x == Str("True"))), "timestamp_signup", Str(RewriteUtc(ts)))
  }

  /** What a successful conversion needs of the row, and that it then
      fills the defaults in after the first three assignments. */
  lemma ConvertInputs(d: Dict<RValue>, jsonOk: string -> bool)
    requires Convert(d, jsonOk).Success?
    ensures "tags" in Keys(d) && Get(d, "tags").value.Str? && "vip" in Keys(d)
    ensures "timestamp_signup" in Keys(d) && Get(d, "timestamp_signup").value.Str?
    ensures Convert(d, jsonOk) == Defaults(
      Assigned(d, Get(d, "tags").value.s, Get(d, "vip").value, Get(d, "timestamp_signup").value.s),
      RewriteUtc(Get(d, "timestamp_signup").value.s))
  {
    var tags := Get(d, "tags");
    assert tags.Some? && tags.value.Str? && jsonOk(tags.value.s);
    var t := tags.value.s;
    var d1 := Set(d, "tags", Json(t));
    SetKeepsOthers(d, "tags", Json(t), "vip");
    SetKeepsOthers(d, "tags", Json(t), "timestamp_signup");
    var x := Get(d1, "vip").value;
    SetKeepsOthers(d1, "vip", Bool(x == Str("True")), "timestamp_signup");
  }

  /** The first three assignments set their keys. */
  lemma AssignedValues(d: Dict<RValue>, t: string, x: RValue, ts: string)
    ensures Get(Assigned(d, t, x, ts), "tags") == Some(Json(t))
    ensures Get(Assigned(d, t, x, ts), "vip") == Some(Bool(x == Str("True")))
    ensures Get(Assigned(d, t, x, ts), "timestamp_signup") == Some(Str(RewriteUtc(ts)))
  {
    var d1 := Set(d, "tags", Json(t));
    var d2 := Set(d1, "vip", Bool(x == Str("True")));
    SetKeepsOthers(d1, "vip", Bool(x == Str("True")), "tags");
    SetKeepsOthers(d2, "timestamp_signup", Str(RewriteUtc(ts)), "tags");
    SetKeepsOthers(d2, "timestamp_signup", Str(RewriteUtc(ts)), "vip");
  }

  /** What a successful conversion holds: decoded tags, `vip` as a
      boolean and the rewritten signup timestamp. */
  lemma ConvertValues(d: Dict<RValue>, jsonOk: string -> bool)
    requires Convert(d, jsonOk).Success?
    ensures "tags" in Keys(d) && Get(d, "tags").value.Str? && "vip" in Keys(d)
    ensures "timestamp_signup" in Keys(d) && Get(d, "timestamp_signup").value.Str?
    ensures Get(Convert(d, jsonOk).value, "tags") == Some(Json(Get(d, "tags").value.s))
    ensures Get(Convert(d, jsonOk).value, "vip") == Some(Bool(Get(d, "vip").value == Str("True")))
    ensures Get(Convert(d, jsonOk).value, "timestamp_signup") == Some(Str(RewriteUtc(Get(d, "timestamp_signup").value.s)))
  {
    ConvertInputs(d, jsonOk);
    var t, x, ts := Get(d, "tags").value.s, Get(d, "vip").value, Get(d, "timestamp_signup").value.s;
    var d3, stamp := Assigned(d, t, x, ts), RewriteUtc(ts);
    AssignedValues(d, t, x, ts);
    DefaultsValues(d3, stamp, "tags");
    DefaultsValues(d3, stamp, "vip");
    DefaultsValues(d3, stamp, "timestamp_signup");
  }

  /** The `timestamp_opt` of a successful conversion: the row's own when
      it has one, else the rewritten signup timestamp. */
  lemma ConvertStampDefault(d: Dict<RValue>, jsonOk: string -> bool)
    requires Convert(d, jsonOk).Success?
    ensures "timestamp_signup" in Keys(d) && Get(d, "timestamp_signup").value.Str?
    ensures Get(Convert(d, jsonOk).value, "timestamp_opt") ==
      if "timestamp_opt" in Keys(d) then Get(d, "timestamp_opt") else Some(Str(RewriteUtc(Get(d, "timestamp_signup").value.s)))
  {
    ConvertInputs(d, jsonOk);
    var t, x, ts := Get(d, "tags").value.s, Get(d, "vip").value, Get(d, "timestamp_signup").value.s;
    var d3, stamp := Assigned(d, t, x, ts), RewriteUtc(ts);
    FirstThreeKeep(d, t, x, ts, "timestamp_opt");
    DefaultsValues(d3, stamp, "");
  }

  /** The `ip_opt` of a successful conversion: the row's own when it has
      one, else its `ip_signup`. */
  lemma ConvertIpDefault(d: Dict<RValue>, jsonOk: string -> bool)
    requires Convert(d, jsonOk).Success?
    ensures "ip_opt" in Keys(d) || "ip_signup" in Keys(d)
    ensures Get(Convert(d, jsonOk).value, "ip_opt") ==
      if "ip_opt" in Keys(d) then Get(d, "ip_opt") else Get(d, "ip_signup")
  {
    ConvertInputs(d, jsonOk);
    var t, x, ts := Get(d, "tags").value.s, Get(d, "vip").value, Get(d, "timestamp_signup").value.s;
    var d3, stamp := Assigned(d, t, x, ts), RewriteUtc(ts);
    FirstThreeKeep(d, t, x, ts, "ip_opt");
    FirstThreeKeep(d, t, x, ts, "ip_signup");
    DefaultsOutcome(d3, stamp);
    DefaultsValues(d3, stamp, "");
  }

  /** A successful conversion leaves every key it does not assign alone. */
  lemma ConvertKeeps(d: Dict<RValue>, jsonOk: string -> bool, k: string)
    requires Convert(d, jsonOk).Success? && !Converted(k)
    ensures Get(Convert(d, jsonOk).value, k) == Get(d, k)
  {
    ConvertInputs(d, jsonOk);
    var t, x, ts := Get(d, "tags").value.s, Get(d, "vip").value, Get(d, "timestamp_signup").value.s;
    var d3, stamp := Assigned(d, t, x, ts), RewriteUtc(ts);
    FirstThreeKeep(d, t, x, ts, k);
    DefaultsValues(d3, stamp, k);
  }

  /** A key other than the three assigned first keeps its lookup through
      those assignments. */
  lemma FirstThreeKeep(d: Dict<RValue>, t: string, x: RValue, ts: string, k: string)
    requires k != "tags" && k != "vip" && k != "timestamp_signup"
    ensures Get(Assigned(d, t, x, ts), k) == Get(d, k)
  {
    var d1 := Set(d, "tags", Json(t));
    var d2 := Set(d1, "vip", Bool(x == Str("True")));
    SetKeepsOthers(d, "tags", Json(t), k);
    SetKeepsOthers(d1, "vip", Bool(x == Str("True")), k);
    SetKeepsOthers(d2, "timestamp_signup", Str(RewriteUtc(ts)), k);
  }

  /** A converted row, in terms of the CSV cells: tags decoded, `vip` true
      exactly when its cell reads `True`, the signup timestamp with its
      offset rewritten, and `timestamp_opt` and `ip_opt` taken from their
      own cells when the CSV has them and defaulted otherwise. */
  lemma TransformValues(row: Row, jsonOk: string -> bool)
    requires Transform(row, jsonOk).Success?
    ensures "tags" in Keys(row) && "vip" in Keys(row) && "timestamp_signup" in Keys(row)
    ensures Get(Transform(row, jsonOk).value, "tags") == Some(Json(Get(row, "tags").value))
    ensures Get(Transform(row, jsonOk).value, "vip") == Some(Bool(Get(row, "vip").value == "True"))
    ensures Get(Transform(row, jsonOk).value, "timestamp_signup") ==
      Some(Str(RewriteUtc(Get(row, "timestamp_signup").value)))
    ensures Get(Transform(row, jsonOk).value, "timestamp_opt") ==
      Some(Str(if "timestamp_opt" in Keys(row) then Get(row, "timestamp_opt").value
               else RewriteUtc(Get(row, "timestamp_signup").value)))
    ensures "ip_opt" in Keys(row) || "ip_signup" in Keys(row)
    ensures Get(Transform(row, jsonOk).value, "ip_opt") ==
      Some(Str(if "ip_opt" in Keys(row) then Get(row, "ip_opt").value else Get(row, "ip_signup").value))
  {
    RegroupedCells(row);
    ConvertValues(Regroup(row), jsonOk);
    ConvertStampDefault(Regroup(row), jsonOk);
    ConvertIpDefault(Regroup(row), jsonOk);
  }

  /** Every other column of a converted row is as the column loop left it:
      ungrouped cells unchanged, grouped ones gone. */
  lemma TransformKeeps(row: Row, jsonOk: string -> bool, k: string)
    requires Transform(row, jsonOk).Success?
    requires !Converted(k) && k != "merge_fields" && k != "location"
    ensures Get(Transform(row, jsonOk).value, k) == if Grouped(k) then None else Cell(Get(row, k))
  {
    ConvertKeeps(Regroup(row), jsonOk, k);
    RegroupKeeps(row, k);
  }

  /** A converted row holds the two groups the column loop gathered. */
  lemma TransformGroups(row: Row, jsonOk: string -> bool, s: string)
    requires Transform(row, jsonOk).Success?
    ensures Get(Transform(row, jsonOk).value, "merge_fields").Some?
    ensures Get(Transform(row, jsonOk).value, "merge_fields").value.Map?
    ensures Get(Get(Transform(row, jsonOk).value, "merge_fields").value.entries, s) == Cell(Get(row, MERGE_PREFIX + s))
    ensures Get(Transform(row, jsonOk).value, "location").Some?
    ensures Get(Transform(row, jsonOk).value, "location").value.Map?
    ensures Get(Get(Transform(row, jsonOk).value, "location").value.entries, s) == Cell(Get(row, LOCATION_PREFIX + s))
  {
    Unconverted("merge_fields");
    Unconverted("location");
    ConvertKeeps(Regroup(row), jsonOk, "merge_fields");
    ConvertKeeps(Regroup(row), jsonOk, "location");
    RegroupGroups(row, s);
  }
}
