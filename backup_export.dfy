/** The export half of mailchimp-backup.py: flattening one list member into
    the columns named by FIELDS, and laying the flattened members out as CSV
    rows (a header taken from the first member, then one row per member). */
module BackupExport {
  import opened Dicts

  /** A scalar a member field holds: a string, a boolean, or any other value
      (a number, the tag list, null) carried as the text of its CSV cell:
      what `str()` gives, and the empty text for null, which `csv.writer`
      writes as an empty cell. */
  datatype Leaf = Text(s: string) | Flag(b: bool) | Other(repr: string)

  /** A top-level member field: a scalar, or a nested mapping such as
      `merge_fields` or `location`. */
  datatype Value = Scalar(leaf: Leaf) | Group(entries: Dict<Leaf>)

  /** A member as the API returns it, and a flattened member as exported. */
  type Member = Dict<Value>
  type Flat = Dict<Value>

  /** The exceptions `_export_member` can raise: a missing key, or a key
      whose value is not a mapping where a mapping is indexed. */
  datatype ExportError = KeyError(key: string) | NotMapping(key: string)

  /** The exported columns, in order. The dotted entries are spelled as
      `parent + "." + selector`, which is the same string. */
  const FIELDS: seq<string> := [
    "email_address",
    "email_type",
    "status",
    "vip",
    "merge_fields" + "." + "*",
    "ip_signup",
    "timestamp_signup",
    "language",
    "location" + "." + "latitude",
    "location" + "." + "longitude",
    "location" + "." + "country_code",
    "location" + "." + "timezone",
    "tags"
  ]

  /** A FIELDS entry: a top-level name, or `parent.sel` where `sel` is a
      nested key or the wildcard `*`. */
  datatype Field = Plain(name: string) | Nested(parent: string, sel: string)

  /** Position of the first `c` in `s`, or `|s|` when there is none. */
  function IndexOf(s: string, c: char): (i: nat)
    ensures i <= |s|
    ensures i < |s| ==> s[i] == c
    ensures forall j :: 0 <= j < i ==> s[j] != c
  {
    if s == [] then 0
    else if s[0] == c then 0
    else 1 + IndexOf(s[1..], c)
  }

  /** `'.' not in field`, else the first two pieces of `field.split('.')`;
      any further pieces are ignored, as the script ignores them. */
  function ParseField(f: string): (p: Field)
    ensures p.Plain? <==> '.' !in f
    ensures p.Plain? ==> p.name == f
    ensures p.Nested? ==> '.' !in p.parent && '.' !in p.sel
    ensures p.Nested? ==> |p.parent| < |f| && f[..|p.parent|] == p.parent && f[|p.parent|] == '.'
    ensures p.Nested? ==>
              var j := |p.parent| + 1 + |p.sel|;
              j <= |f| && f[|p.parent| + 1..j] == p.sel && (j == |f| || f[j] == '.')
  {
    var i := IndexOf(f, '.');
    if i == |f| then Plain(f)
    else
      var rest := f[i + 1..];
      var sel := rest[..IndexOf(rest, '.')];
      assert f[i + 1..i + 1 + |sel|] == sel;
      Nested(f[..i], sel)
  }

  /** The columns `p.nf` for the nested keys `names`, in order, each looked
      up in the nested mapping `es`; the first missing one is a KeyError. */
  function NestedPairs(p: string, es: Dict<Leaf>, names: seq<string>): Result<Flat, ExportError>
  {
    if names == [] then Success([])
    else
      match NestedPairs(p, es, names[..|names| - 1])
      case Failure(e) => Failure(e)
      case Success(ps) =>
        var nf := names[|names| - 1];
        match Get(es, nf)
        case None => Failure(KeyError(nf))
        case Some(l) => Success(ps + [(p + "." + nf, Scalar(l))])
  }

  /** One more nested key that is present adds its column. */
  lemma NestedPairsGrow(p: string, es: Dict<Leaf>, names: seq<string>, j: nat, ps: Flat)
    requires j < |names| && NestedPairs(p, es, names[..j]) == Success(ps)
    requires Get(es, names[j]).Some?
    ensures NestedPairs(p, es, names[..j + 1]) == Success(ps + [(p + "." + names[j], Scalar(Get(es, names[j]).value))])
  {
    assert names[..j + 1][..j] == names[..j];
  }

  /** The columns one FIELDS entry contributes to the flattened member. */
  function Expand(f: Field, m: Member): Result<Flat, ExportError>
  {
    match f
    case Plain(name) =>
      (match Get(m, name)
       case None => Failure(KeyError(name))
       case Some(v) => Success([(name, v)]))
    case Nested(p, sel) =>
      match Get(m, p)
      case None => Failure(KeyError(p))
      case Some(v) =>
        if v.Scalar? then Failure(NotMapping(p))
        else NestedPairs(p, v.entries, if sel == "*" then Keys(v.entries) else [sel])
  }

  /** Assigning the columns of one FIELDS entry into the output dict. */
  function Step(mem: Flat, f: string, m: Member): Result<Flat, ExportError>
  {
    match Expand(ParseField(f), m)
    case Failure(e) => Failure(e)
    case Success(ps) => Success(SetAll(mem, ps))
  }

  /** Flattening with the field list `fields`: each entry's columns are
      assigned into the output dict in turn; the first error ends it. */
  function ExportWith(fields: seq<string>, m: Member): Result<Flat, ExportError>
  {
    if fields == [] then Success([])
    else
      match ExportWith(fields[..|fields| - 1], m)
      case Failure(e) => Failure(e)
      case Success(mem) => Step(mem, fields[|fields| - 1], m)
  }

  lemma ExportWithSnoc(fields: seq<string>, f: string, m: Member)
    ensures ExportWith(fields, m).Failure? ==> ExportWith(fields + [f], m) == ExportWith(fields, m)
    ensures ExportWith(fields, m).Success? ==> ExportWith(fields + [f], m) == Step(ExportWith(fields, m).value, f, m)
    ensures ExportWith(fields + [f], m).Success?
        <==> ExportWith(fields, m).Success? && Expand(ParseField(f), m).Success?
  {
    assert (fields + [f])[..|fields|] == fields;
  }

  /** The first failing entry decides the outcome: later entries are
      never looked at. */
  lemma {:induction false} ExportFailureSticks(fields: seq<string>, k: nat, m: Member)
    requires k <= |fields|
    requires ExportWith(fields[..k], m).Failure?
    ensures ExportWith(fields, m) == ExportWith(fields[..k], m)
    decreases |fields| - k
  {
    if k < |fields| {
      TakeSnoc(fields, k);
      ExportWithSnoc(fields[..k], fields[k], m);
      ExportFailureSticks(fields, k + 1, m);
    } else {
      assert fields[..k] == fields;
    }
  }

  lemma ExportGrows(fields: seq<string>, n: nat, m: Member)
    requires n < |fields| && ExportWith(fields[..n], m).Success?
    ensures ExportWith(fields[..n + 1], m) == Step(ExportWith(fields[..n], m).value, fields[n], m)
  {
    TakeSnoc(fields, n);
    ExportWithSnoc(fields[..n], fields[n], m);
  }

  lemma ExportStops(fields: seq<string>, n: nat, m: Member)
    requires n < |fields| && ExportWith(fields[..n], m).Success?
    requires Step(ExportWith(fields[..n], m).value, fields[n], m).Failure?
    ensures ExportWith(fields, m) == Step(ExportWith(fields[..n], m).value, fields[n], m)
  {
    TakeSnoc(fields, n);
    ExportWithSnoc(fields[..n], fields[n], m);
    ExportFailureSticks(fields, n + 1, m);
  }

  /** `_export_member(member)` as the function the method below is held to. */
  function Export(m: Member): Result<Flat, ExportError>
  {
    ExportWith(FIELDS, m)
  }

  /** `_export_member`: walks FIELDS and fills the output dict. */
  method ExportMember(member: Member) returns (r: Result<Flat, ExportError>)
    ensures r == Export(member)
  {
    r := ExportFields(FIELDS, member);
  }

  /** The loop of `_export_member` over a field list. */
  method ExportFields(fields: seq<string>, member: Member) returns (r: Result<Flat, ExportError>)
    ensures r == ExportWith(fields, member)
  {
    var mem: Flat := [];
    for n := 0 to |fields|
      invariant ExportWith(fields[..n], member) == Success(mem)
    {
      var next := ExportField(mem, fields[n], member);
      if next.Failure? {
        ExportStops(fields, n, member);
        return next;
      }
      ExportGrows(fields, n, member);
      mem := next.value;
    }
    assert fields[..|fields|] == fields;
    return Success(mem);
  }

  /** One pass of the outer loop of `_export_member`. */
  method ExportField(mem: Flat, field: string, member: Member) returns (r: Result<Flat, ExportError>)
    ensures r == Step(mem, field, member)
  {
    match ParseField(field) {
      case Plain(name) =>
        var v := Get(member, name);
        if v.None? {
          return Failure(KeyError(name));
        }
        assert SetAll(mem, [(name, v.value)]) == Set(mem, name, v.value);
        return Success(Set(mem, name, v.value));
      case Nested(p, sel) =>
        var parent := Get(member, p);
        if parent.None? {
          return Failure(KeyError(p));
        }
        if parent.value.Scalar? {
          return Failure(NotMapping(p));
        }
        var nested := parent.value.entries;
        var nestedFields := if sel == "*" then Keys(nested) else [sel];
        var out := mem;
        ghost var ps: Flat := [];
        for j := 0 to |nestedFields|
          invariant NestedPairs(p, nested, nestedFields[..j]) == Success(ps)
          invariant out == SetAll(mem, ps)
        {
          var nf := nestedFields[j];
          var x := Get(nested, nf);
          if x.None? {
            assert nestedFields[..j + 1][..j] == nestedFields[..j];
            return Failure(KeyError(nf));
          }
          var column := (p + "." + nf, Scalar(x.value));
          NestedPairsGrow(p, nested, nestedFields, j, ps);
          SetAllSnoc(mem, ps, column);
          out := Set(out, column.0, column.1);
          ps := ps + [column];
        }
        assert nestedFields[..|nestedFields|] == nestedFields;
        return Success(out);
    }
  }

  /** `str(v)` of a scalar, as the CSV writer stringifies it. */
  function LeafText(l: Leaf): string
  {
    match l
    case Text(s) => s
    case Flag(b) => if b then "True" else "False"
    case Other(r) => r
  }

  /** `repr(v)` of a scalar inside a dict display. */
  function LeafRepr(l: Leaf): string
  {
    match l
    case Text(s) => "'" + s + "'"
    case _ => LeafText(l)
  }

  function ItemsRepr(es: Dict<Leaf>): string
  {
    if es == [] then ""
    else
      var item := "'" + es[0].0 + "': " + LeafRepr(es[0].1);
      if |es| == 1 then item else item + ", " + ItemsRepr(es[1..])
  }

  /** The text of one CSV cell: `str(value)`. */
  function Render(v: Value): string
  {
    match v
    case Scalar(l) => LeafText(l)
    case Group(es) => "{" + ItemsRepr(es) + "}"
  }

  /** One data row: the member's own values, in its own key order. */
  function Cells(f: Flat): (row: seq<string>)
    ensures |row| == |f|
    ensures forall i :: 0 <= i < |f| ==> row[i] == Render(f[i].1)
  {
    seq(|f|, i requires 0 <= i < |f| => Render(f[i].1))
  }

  /** `to_csv`, as rows of cells: no rows at all for no members, otherwise
      the first member's keys as the header and then one row per member. */
  method ToCsv(members: seq<Flat>) returns (rows: seq<seq<string>>)
    ensures members == [] ==> rows == []
    ensures members != [] ==> |rows| == |members| + 1 && rows[0] == Keys(members[0])
    ensures members != [] ==> forall i :: 0 <= i < |members| ==> rows[i + 1] == Cells(members[i])
  {
    rows := [];
    if |members| > 0 {
      rows := rows + [Keys(members[0])];
    }
    ghost var header := rows;
    for i := 0 to |members|
      invariant |rows| == |header| + i
      invariant rows[..|header|] == header
      invariant forall j :: 0 <= j < i ==> rows[|header| + j] == Cells(members[j])
    {
      rows := rows + [Cells(members[i])];
    }
  }

  /** The members of one list's response: None when it has no `members`
      key, which `export_list` reads as no members. */
  function MembersOf(fetched: Option<seq<Member>>): seq<Member> {
    if fetched.Some? then fetched.value else []
  }

  /** Whether every member of a list can be flattened. */
  predicate Exports(ms: seq<Member>) {
    forall i :: 0 <= i < |ms| ==> Export(ms[i]).Success?
  }

  /** The rows `to_csv` writes for members that all flattened: none for
      no members, else the first member's column names and then one row
      of cells per member. */
  function ListCsv(ms: seq<Member>): (rows: seq<seq<string>>)
    requires Exports(ms)
    ensures ms == [] ==> rows == []
    ensures ms != [] ==> |rows| == |ms| + 1 && rows[0] == Keys(Export(ms[0]).value)
    ensures ms != [] ==> forall i :: 0 <= i < |ms| ==> rows[i + 1] == Cells(Export(ms[i]).value)
  {
    if ms == [] then []
    else [Keys(Export(ms[0]).value)] + seq(|ms|, i requires 0 <= i < |ms| => Cells(Export(ms[i]).value))
  }

  /** `export_list`: the members of one list flattened in order and
      written as CSV rows; the first member that cannot be flattened
      raises its error. */
  method ExportList(fetched: Option<seq<Member>>) returns (r: Result<seq<seq<string>>, ExportError>)
    ensures r.Success? <==> Exports(MembersOf(fetched))
    ensures r.Failure? ==>
              var ms := MembersOf(fetched);
              exists k :: 0 <= k < |ms| && Export(ms[k]) == Failure(r.error)
                          && forall j :: 0 <= j < k ==> Export(ms[j]).Success?
    ensures r.Success? ==> r.value == ListCsv(MembersOf(fetched))
    ensures r.Failure? ==> r.error == FirstError(MembersOf(fetched))
  {
    var ms := if fetched.Some? then fetched.value else [];
    var exported := FlattenMembers(ms);
    if exported.Failure? {
      ghost var k :| 0 <= k < |ms| && Export(ms[k]) == Failure(exported.error)
                     && forall j :: 0 <= j < k ==> Export(ms[j]).Success?;
      FirstErrorIs(ms, k);
      return Failure(exported.error);
    }
    var rows := ToCsv(exported.value);
    ListCsvOf(ms, exported.value, rows);
    return Success(rows);
  }

  /** The error `export_list` raises for members that do not all
      flatten: that of the first member that fails. */
  function FirstError(ms: seq<Member>): ExportError
    requires !Exports(ms)
  {
    if Export(ms[0]).Failure? then Export(ms[0]).error
    else
      RestFails(ms);
      FirstError(ms[1..])
  }

  lemma RestFails(ms: seq<Member>)
    requires !Exports(ms) && Export(ms[0]).Success?
    ensures !Exports(ms[1..])
  {
    var i :| 0 <= i < |ms| && Export(ms[i]).Failure?;
    assert ms[1..][i - 1] == ms[i];
  }

  /** A failing member after members that all flatten is the one whose
      error `FirstError` gives. */
  lemma {:induction false} FirstErrorIs(ms: seq<Member>, k: nat)
    requires k < |ms| && Export(ms[k]).Failure?
    requires forall j :: 0 <= j < k ==> Export(ms[j]).Success?
    ensures !Exports(ms)
    ensures FirstError(ms) == Export(ms[k]).error
  {
    if k > 0 {
      assert ms[1..][k - 1] == ms[k];
      forall j | 0 <= j < k - 1
        ensures Export(ms[1..][j]).Success?
      {
        assert ms[1..][j] == ms[j + 1];
      }
      FirstErrorIs(ms[1..], k - 1);
    }
  }

  /** The loop of `export_list`: each member flattened in order, the
      first error ending it. */
  method FlattenMembers(ms: seq<Member>) returns (r: Result<seq<Flat>, ExportError>)
    ensures r.Success? <==> forall i :: 0 <= i < |ms| ==> Export(ms[i]).Success?
    ensures r.Failure? ==> exists k :: 0 <= k < |ms| && Export(ms[k]) == Failure(r.error)
                                      && forall j :: 0 <= j < k ==> Export(ms[j]).Success?
    ensures r.Success? ==> |r.value| == |ms| && forall i :: 0 <= i < |ms| ==> Export(ms[i]) == Success(r.value[i])
  {
    var exported: seq<Flat> := [];
    for i := 0 to |ms|
      invariant |exported| == i
      invariant forall j :: 0 <= j < i ==> Export(ms[j]) == Success(exported[j])
    {
      var e := ExportMember(ms[i]);
      if e.Failure? {
        FirstFailure(ms, i);
        return Failure(e.error);
      }
      Flattened(ms, exported, e.value);
      exported := exported + [e.value];
    }
    return Success(exported);
  }

  /** The rows `to_csv` writes for the flattened members are `ListCsv`. */
  lemma ListCsvOf(ms: seq<Member>, flats: seq<Flat>, rows: seq<seq<string>>)
    requires |flats| == |ms| && forall i :: 0 <= i < |ms| ==> Export(ms[i]) == Success(flats[i])
    requires flats == [] ==> rows == []
    requires flats != [] ==> |rows| == |flats| + 1 && rows[0] == Keys(flats[0])
    requires flats != [] ==> forall i :: 0 <= i < |flats| ==> rows[i + 1] == Cells(flats[i])
    ensures Exports(ms) && rows == ListCsv(ms)
  {
    if ms != [] {
      var want := ListCsv(ms);
      forall i | 0 <= i < |rows|
        ensures rows[i] == want[i]
      {
        if i > 0 {
          assert rows[i] == Cells(flats[i - 1]);
        }
      }
    }
  }

  /** One more member flattened. */
  lemma Flattened(ms: seq<Member>, done: seq<Flat>, v: Flat)
    requires |done| < |ms|
    requires forall j :: 0 <= j < |done| ==> Export(ms[j]) == Success(done[j])
    requires Export(ms[|done|]) == Success(v)
    ensures forall j :: 0 <= j <= |done| ==> Export(ms[j]) == Success((done + [v])[j])
  {
  }

  /** A member that fails after members that did not is the first failure. */
  lemma FirstFailure(ms: seq<Member>, k: nat)
    requires k < |ms| && Export(ms[k]).Failure?
    requires forall j :: 0 <= j < k ==> Export(ms[j]).Success?
    ensures exists k :: 0 <= k < |ms| && Export(ms[k]).Failure?
                                      && forall j :: 0 <= j < k ==> Export(ms[j]).Success?
  {
  }

  /** The columns of a wildcard entry `p.*`, with `es` the nested mapping. */
  function Prefixed(p: string, es: Dict<Leaf>): (r: Flat)
    ensures |r| == |es|
  {
    seq(|es|, i requires 0 <= i < |es| => (p + "." + es[i].0, Scalar(es[i].1)))
  }

  /** Looking up keys that are all present never fails, and yields one
      column `p.nf` per key, in order, with the nested value. */
  lemma {:induction false} NestedPairsPresent(p: string, es: Dict<Leaf>, names: seq<string>)
    requires forall i :: 0 <= i < |names| ==> names[i] in Keys(es)
    ensures NestedPairs(p, es, names).Success?
    ensures NestedPairs(p, es, names).value
         == seq(|names|, i requires 0 <= i < |names| => (p + "." + names[i], Scalar(Get(es, names[i]).value)))
  {
    if names != [] {
      NestedPairsPresent(p, es, names[..|names| - 1]);
    }
  }

  /** A FIELDS entry without a dot yields exactly one column, named as the
      entry, holding `member[field]`; a missing key is a KeyError. */
  lemma PlainFieldColumns(f: string, m: Member)
    requires '.' !in f
    ensures f in Keys(m) ==> Expand(ParseField(f), m) == Success([(f, Get(m, f).value)])
    ensures f !in Keys(m) ==> Expand(ParseField(f), m) == Failure(KeyError(f))
  {
  }

  lemma ParsePlain(f: string)
    requires '.' !in f
    ensures ParseField(f) == Plain(f)
  {
  }

  lemma {:induction false} ParseNested(p: string, sel: string)
    requires '.' !in p && '.' !in sel
    ensures ParseField(p + "." + sel) == Nested(p, sel)
  {
    var f := p + "." + sel;
    assert f[|p|] == '.';
    assert forall j :: 0 <= j < |p| ==> f[j] == p[j];
    assert IndexOf(f, '.') == |p|;
    assert f[|p| + 1..] == sel;
    assert f[..|p|] == p;
  }

  /** A wildcard entry `p.*` yields one column `p.k` for every key `k` of
      `member[p]`, in that mapping's key order, holding `member[p][k]`, and
      no other column. */
  lemma WildcardColumns(p: string, m: Member)
    requires '.' !in p
    ensures Get(m, p).None? ==> Expand(ParseField(p + ".*"), m) == Failure(KeyError(p))
    ensures Get(m, p).Some? && Get(m, p).value.Scalar? ==> Expand(ParseField(p + ".*"), m) == Failure(NotMapping(p))
    ensures Get(m, p).Some? && Get(m, p).value.Group? && UniqueKeys(Get(m, p).value.entries) ==>
              Expand(ParseField(p + ".*"), m) == Success(Prefixed(p, Get(m, p).value.entries))
  {
    ParseNested(p, "*");
    assert p + "." + "*" == p + ".*";
    if Get(m, p).Some? && Get(m, p).value.Group? && UniqueKeys(Get(m, p).value.entries) {
      WildcardPairs(p, Get(m, p).value.entries);
    }
  }

  /** Looking up every key of a mapping with distinct keys, in its own
      order, yields its entries as prefixed columns. */
  lemma WildcardPairs(p: string, es: Dict<Leaf>)
    requires UniqueKeys(es)
    ensures NestedPairs(p, es, Keys(es)) == Success(Prefixed(p, es))
  {
    var ks := Keys(es);
    NestedPairsPresent(p, es, ks);
    var got := NestedPairs(p, es, ks).value;
    forall i | 0 <= i < |es|
      ensures got[i] == Prefixed(p, es)[i]
    {
      GetAt(es, i);
    }
    assert got == Prefixed(p, es);
  }

  /** A projection `p.name` yields exactly one column `p.name` holding
      `member[p][name]`; a missing key at either level is a KeyError. */
  lemma ProjectionColumns(p: string, name: string, m: Member)
    requires '.' !in p && '.' !in name && name != "*"
    ensures Get(m, p).None? ==> Expand(ParseField(p + "." + name), m) == Failure(KeyError(p))
    ensures Get(m, p).Some? && Get(m, p).value.Scalar? ==> Expand(ParseField(p + "." + name), m) == Failure(NotMapping(p))
    ensures Get(m, p).Some? && Get(m, p).value.Group? ==>
              var es := Get(m, p).value.entries;
              Expand(ParseField(p + "." + name), m)
                == if name in Keys(es) then Success([(p + "." + name, Scalar(Get(es, name).value))])
                   else Failure(KeyError(name))
  {
    ParseNested(p, name);
    if Get(m, p).Some? && Get(m, p).value.Group? {
      var es := Get(m, p).value.entries;
      assert [name][..0] == [];
      assert NestedPairs(p, es, []) == Success([]);
      if name in Keys(es) {
        assert [] + [(p + "." + name, Scalar(Get(es, name).value))] == [(p + "." + name, Scalar(Get(es, name).value))];
      }
    }
  }

  /** Flattening succeeds exactly when every field entry can be expanded. */
  lemma {:induction false} ExportSucceedsIff(fields: seq<string>, m: Member)
    ensures ExportWith(fields, m).Success?
        <==> forall i :: 0 <= i < |fields| ==> Expand(ParseField(fields[i]), m).Success?
  {
    if fields != [] {
      var init, last := fields[..|fields| - 1], fields[|fields| - 1];
      ExportSucceedsIff(init, m);
      LastSplit(fields);
      ExportWithSnoc(init, last, m);
      if ExportWith(fields, m).Success? {
        forall i | 0 <= i < |fields|
          ensures Expand(ParseField(fields[i]), m).Success?
        {
          if i < |init| {
            assert fields[i] == init[i];
          }
        }
      } else if Expand(ParseField(last), m).Success? {
        var i :| 0 <= i < |init| && !Expand(ParseField(init[i]), m).Success?;
        assert fields[i] == init[i];
      }
    }
  }

  /** When no two columns collide, assigning them into the output dict just
      lays them out one after the other: flattening then yields the
      columns of each entry in field order. */
  lemma ExportStep(fields: seq<string>, f: string, m: Member, acc: Flat, ps: Flat)
    requires ExportWith(fields, m) == Success(acc)
    requires Expand(ParseField(f), m) == Success(ps)
    requires Distinct(Keys(acc) + Keys(ps))
    ensures ExportWith(fields + [f], m) == Success(acc + ps)
  {
    assert (fields + [f])[..|fields|] == fields;
    SetAllFresh(acc, ps);
  }
}
