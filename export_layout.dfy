/** What flattening with the script's own FIELDS list produces: which members
    can be exported at all, and the exact columns of an exported member, in
    FIELDS order with the `merge_fields.*` wildcard expanded in place. */
module ExportLayout {
  import opened Dicts
  import opened BackupExport

  predicate HasGroup(m: Member, p: string) {
    Get(m, p).Some? && Get(m, p).value.Group?
  }

  function GroupAt(m: Member, p: string): Dict<Leaf>
    requires HasGroup(m, p)
  {
    Get(m, p).value.entries
  }

  /** What one parsed entry needs of a member: the key itself, or a
      mapping under the parent that holds the selected key (any mapping
      will do for the wildcard). */
  predicate Available(m: Member, f: Field) {
    match f
    case Plain(name) => name in Keys(m)
    case Nested(p, sel) => HasGroup(m, p) && (sel == "*" || sel in Keys(GroupAt(m, p)))
  }

  /** The columns a member that has what `f` needs gets from `f`. */
  function Columns(m: Member, f: Field): Flat
    requires Available(m, f)
  {
    match f
    case Plain(name) => [(name, Get(m, name).value)]
    case Nested(p, sel) =>
      if sel == "*" then Prefixed(p, GroupAt(m, p))
      else [(p + "." + sel, Scalar(Get(GroupAt(m, p), sel).value))]
  }

  /** FIELDS, parsed. */
  const PARSED: seq<Field> := [
    Plain("email_address"),
    Plain("email_type"),
    Plain("status"),
    Plain("vip"),
    Nested("merge_fields", "*"),
    Plain("ip_signup"),
    Plain("timestamp_signup"),
    Plain("language"),
    Nested("location", "latitude"),
    Nested("location", "longitude"),
    Nested("location", "country_code"),
    Nested("location", "timezone"),
    Plain("tags")
  ]

  /** The five dotted FIELDS entries. */
  lemma NestedFieldParsed(i: nat)
    requires i == 4 || 8 <= i <= 11
    ensures ParseField(FIELDS[i]) == PARSED[i]
  {
    ParseNested(PARSED[i].parent, PARSED[i].sel);
  }

  /** Every FIELDS entry finds what it needs in the member. */
  predicate Exportable(m: Member) {
    forall i :: 0 <= i < |PARSED| ==> Available(m, PARSED[i])
  }

  /** The columns of each FIELDS entry, entry by entry. */
  function FieldColumns(m: Member): (parts: seq<Flat>)
    requires Exportable(m)
    ensures |parts| == |FIELDS|
    ensures forall i :: 0 <= i < |parts| ==> parts[i] == Columns(m, PARSED[i])
  {
    seq(|PARSED|, i requires 0 <= i < |PARSED| => Columns(m, PARSED[i]))
  }

  /** A name of lower-case letters and underscores is a plain entry. */
  lemma PlainFieldParsed(f: string)
    requires forall j :: 0 <= j < |f| ==> 'a' <= f[j] <= 'z' || f[j] == '_'
    ensures ParseField(f) == Plain(f)
  {
    ParsePlain(f);
  }

  /** How each FIELDS entry parses: the undotted ones name a key directly. */
  lemma FieldParsed(i: nat)
    requires i < |FIELDS|
    ensures ParseField(FIELDS[i]) == PARSED[i]
  {
    if i == 4 || 8 <= i <= 11 {
      NestedFieldParsed(i);
    } else {
      PlainFieldParsed(PARSED[i].name);
    }
  }

  /** An entry can be expanded exactly when the member has what it needs. */
  lemma ExpandIff(f: Field, m: Member)
    ensures Expand(f, m).Success? <==> Available(m, f)
  {
    if f.Nested? && HasGroup(m, f.parent) {
      var es := GroupAt(m, f.parent);
      if f.sel == "*" {
        NestedPairsPresent(f.parent, es, Keys(es));
      } else {
        assert [f.sel][..0] == [];
        assert NestedPairs(f.parent, es, []) == Success([]);
      }
    }
  }

  /** An entry that can be expanded yields exactly `Columns`. */
  lemma ExpandColumns(f: Field, m: Member)
    requires Available(m, f)
    requires f.Nested? && f.sel == "*" ==> UniqueKeys(GroupAt(m, f.parent))
    ensures Expand(f, m) == Success(Columns(m, f))
  {
    if f.Nested? {
      var es := GroupAt(m, f.parent);
      if f.sel == "*" {
        WildcardPairs(f.parent, es);
      } else {
        var col := (f.parent + "." + f.sel, Scalar(Get(es, f.sel).value));
        assert [f.sel][..0] == [];
        assert NestedPairs(f.parent, es, []) == Success([]);
        assert [] + [col] == [col];
      }
    }
  }

  /** A member can be exported exactly when every key FIELDS names is
      present, with mappings under `merge_fields` and `location`. */
  lemma FieldsSucceedIff(m: Member)
    ensures Export(m).Success? <==> Exportable(m)
  {
    ExportSucceedsIff(FIELDS, m);
    forall i | 0 <= i < |FIELDS|
      ensures Expand(ParseField(FIELDS[i]), m).Success? <==> Available(m, PARSED[i])
    {
      FieldParsed(i);
      ExpandIff(PARSED[i], m);
    }
  }

  /** Only the `merge_fields.*` entry is a wildcard. */
  lemma OneWildcard(i: nat)
    requires i < |PARSED| && PARSED[i].Nested? && PARSED[i].sel == "*"
    ensures i == 4
  {
  }

  /** The FIELDS entries are distinct, and none but the wildcard starts
      with `merge_fields.`. */
  lemma FieldsDistinct()
    ensures Distinct(FIELDS)
    ensures forall i :: 0 <= i < |FIELDS| && i != 4 ==> !StartsWith(FIELDS[i], "merge_fields.")
  {
    forall i, j | 0 <= i < j < |FIELDS|
      ensures FIELDS[i] != FIELDS[j]
    {
      if i == 8 && j == 11 {
        assert FIELDS[i][9] != FIELDS[j][9];
      } else {
        assert |FIELDS[i]| != |FIELDS[j]|;
      }
    }
    forall i | 0 <= i < |FIELDS| && i != 4
      ensures !StartsWith(FIELDS[i], "merge_fields.")
    {
      if |FIELDS[i]| >= 13 {
        assert FIELDS[i][0] != "merge_fields."[0];
      }
    }
  }

  /** Python dicts never repeat a key; the merge fields of a member
      fetched from the API are one. */
  predicate DistinctMergeFields(m: Member) {
    HasGroup(m, "merge_fields") ==> UniqueKeys(GroupAt(m, "merge_fields"))
  }

  /** Where the columns of each entry take their names from: a wildcard
      column is `merge_fields.<key>`, any other column is named exactly
      as its FIELDS entry. */
  lemma ColumnName(m: Member, i: nat, a: nat)
    requires Exportable(m) && i < |FIELDS| && a < |FieldColumns(m)[i]|
    ensures i == 4 ==> StartsWith(FieldColumns(m)[i][a].0, "merge_fields.")
    ensures i != 4 ==> FieldColumns(m)[i][a].0 == FIELDS[i]
  {
    var name := FieldColumns(m)[i][a].0;
    if i == 4 {
      var es := GroupAt(m, "merge_fields");
      assert name == "merge_fields" + "." + es[a].0;
      assert name[..13] == "merge_fields.";
    }
  }

  /** Each entry expands to its `Columns`. */
  lemma EntriesExpand(m: Member)
    requires Exportable(m) && DistinctMergeFields(m)
    ensures forall i :: 0 <= i < |FIELDS| ==> Expand(ParseField(FIELDS[i]), m) == Success(FieldColumns(m)[i])
  {
    forall i | 0 <= i < |FIELDS|
      ensures Expand(ParseField(FIELDS[i]), m) == Success(FieldColumns(m)[i])
    {
      FieldParsed(i);
      if PARSED[i].Nested? && PARSED[i].sel == "*" {
        OneWildcard(i);
      }
      ExpandColumns(PARSED[i], m);
    }
  }

  /** No column name occurs twice in a member's layout. */
  lemma LayoutDistinct(m: Member)
    requires Exportable(m) && DistinctMergeFields(m)
    ensures UniqueKeys(Concat(FieldColumns(m)))
  {
    var parts := FieldColumns(m);
    forall i | 0 <= i < |parts|
      ensures UniqueKeys(parts[i])
    {
      if i == 4 {
        WildcardDistinct(m);
      }
    }
    ColumnsApart(m);
    DistinctConcat(parts);
  }

  /** No column of one entry shares its name with a column of another. */
  lemma ColumnsApart(m: Member)
    requires Exportable(m)
    ensures Apart(FieldColumns(m))
  {
    var parts: seq<Flat> := FieldColumns(m);
    FieldsDistinct();
    forall i, j, a, b | 0 <= i < j < |parts| && 0 <= a < |parts[i]| && 0 <= b < |parts[j]|
      ensures parts[i][a].0 != parts[j][b].0
    {
      ColumnName(m, i, a);
      ColumnName(m, j, b);
    }
  }

  /** The wildcard entry's columns have distinct names. */
  lemma WildcardDistinct(m: Member)
    requires Exportable(m) && DistinctMergeFields(m)
    ensures UniqueKeys(FieldColumns(m)[4])
  {
    assert Available(m, PARSED[4]);
    PrefixedDistinct("merge_fields", GroupAt(m, "merge_fields"));
  }

  /** Distinct nested keys give distinct wildcard columns. */
  lemma PrefixedDistinct(p: string, es: Dict<Leaf>)
    requires UniqueKeys(es)
    ensures UniqueKeys(Prefixed(p, es))
  {
    var ks := Keys(Prefixed(p, es));
    forall x, y | 0 <= x < y < |es|
      ensures ks[x] != ks[y]
    {
      var q := p + ".";
      assert ks[x] == q + es[x].0 && ks[y] == q + es[y].0;
      assert (q + es[x].0)[|q|..] == es[x].0;
      assert (q + es[y].0)[|q|..] == es[y].0;
    }
  }

  /** With no two merge fields of the same name, a flattened member is
      exactly the columns of the FIELDS entries in FIELDS order, each
      entry's columns laid out as `Columns` says. */
  lemma FieldsLayout(m: Member)
    requires Exportable(m) && DistinctMergeFields(m)
    ensures Export(m) == Success(Concat(FieldColumns(m)))
  {
    EntriesExpand(m);
    LayoutDistinct(m);
    ExportConcat(FIELDS, FieldColumns(m), m);
  }

  /** Lays out entries whose columns never collide. */
  lemma {:induction false} ExportConcat(fields: seq<string>, parts: seq<Flat>, m: Member)
    requires |fields| == |parts|
    requires forall i :: 0 <= i < |fields| ==> Expand(ParseField(fields[i]), m) == Success(parts[i])
    requires UniqueKeys(Concat(parts))
    ensures ExportWith(fields, m) == Success(Concat(parts))
  {
    if fields != [] {
      var n := |fields| - 1;
      var fs, ps := fields[..n], parts[..n];
      var init := Concat(ps);
      assert Concat(parts) == init + parts[n];
      UniquePrefix(init, parts[n]);
      KeysAppend(init, parts[n]);
      forall i | 0 <= i < |fs|
        ensures Expand(ParseField(fs[i]), m) == Success(ps[i])
      {
        assert fs[i] == fields[i] && ps[i] == parts[i];
      }
      ExportConcat(fs, ps, m);
      LastSplit(fields);
      ExportStep(fs, fields[n], m, init, parts[n]);
    }
  }

  /** No key of one entry is a key of a later one. */
  predicate Apart(parts: seq<Flat>) {
    forall i, j, a, b :: 0 <= i < j < |parts| && 0 <= a < |parts[i]| && 0 <= b < |parts[j]|
      ==> parts[i][a].0 != parts[j][b].0
  }

  /** Entries with distinct keys and no key shared between two entries
      lay out with distinct keys. */
  lemma {:induction false} DistinctConcat(parts: seq<Flat>)
    requires forall i :: 0 <= i < |parts| ==> UniqueKeys(parts[i])
    requires Apart(parts)
    ensures UniqueKeys(Concat(parts))
  {
    if parts != [] {
      var n := |parts| - 1;
      var init := Concat(parts[..n]);
      DistinctConcat(parts[..n]);
      KeysAppend(init, parts[n]);
      var ks := Keys(init) + Keys(parts[n]);
      forall x, y | 0 <= x < y < |ks|
        ensures ks[x] != ks[y]
      {
        if y >= |init| && x < |init| {
          var i, a := ConcatOrigin(parts[..n], x);
          assert parts[..n][i] == parts[i];
          assert ks[y] == parts[n][y - |init|].0;
        }
      }
    }
  }

  /** Every column of the layout comes from one of the entries. */
  lemma {:induction false} ConcatOrigin(parts: seq<Flat>, x: nat) returns (i: nat, a: nat)
    requires x < |Concat(parts)|
    ensures i < |parts| && a < |parts[i]| && Concat(parts)[x] == parts[i][a]
  {
    var n := |parts| - 1;
    var init := Concat(parts[..n]);
    assert Concat(parts) == init + parts[n];
    if x < |init| {
      i, a := ConcatOrigin(parts[..n], x);
      assert parts[..n][i] == parts[i];
    } else {
      i, a := n, x - |init|;
    }
  }
}
