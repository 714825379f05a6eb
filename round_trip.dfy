/** What a backup file gives back to the restore script. `csv.DictReader`
    pairs every data row with the header, which `to_csv` takes from the
    first member of the list. A member with the first member's columns
    (the first member itself, and every member when all have the same
    merge fields) is read back as its own record; that record is regrouped
    and converted as mailchimp-restore.py does, and the merge fields, the
    four location keys, the `vip` flag and the columns the conversion needs
    come back. */
module RoundTrip {
  import opened Dicts
  import opened BackupExport
  import opened ExportLayout
  import opened RestoreRow

  /** The row read back for a flattened member: each header name paired
      with the cell under it. */
  function Record(f: Flat): (row: Row)
    ensures Keys(row) == Keys(f)
    ensures forall i :: 0 <= i < |f| ==> row[i] == (Keys(f)[i], Cells(f)[i])
  {
    seq(|f|, i requires 0 <= i < |f| => (f[i].0, Render(f[i].1)))
  }

  /** `csv.DictReader` on a data row as long as the header: each header
      name paired with the cell at its position. */
  function DictRow(header: seq<string>, cells: seq<string>): (row: Row)
    requires |cells| == |header|
    ensures Keys(row) == header
  {
    seq(|header|, i requires 0 <= i < |header| => (header[i], cells[i]))
  }

  /** In the rows `export_list` writes, member `i`'s row is as long as the
      header exactly when it has as many columns as the first member, and
      a member with the first member's columns is read back as its own
      record. */
  lemma ReadBack(ms: seq<Member>, i: nat)
    requires Exports(ms) && i < |ms|
    ensures |ListCsv(ms)[i + 1]| == |ListCsv(ms)[0]| <==> |Export(ms[i]).value| == |Export(ms[0]).value|
    ensures Keys(Export(ms[i]).value) == Keys(Export(ms[0]).value) ==>
              |ListCsv(ms)[i + 1]| == |ListCsv(ms)[0]|
              && DictRow(ListCsv(ms)[0], ListCsv(ms)[i + 1]) == Record(Export(ms[i]).value)
  {
    var rows, f := ListCsv(ms), Export(ms[i]).value;
    assert rows[i + 1] == Cells(f);
    if Keys(f) == rows[0] {
      var got, want := DictRow(rows[0], rows[i + 1]), Record(f);
      assert |got| == |want|;
      forall j | 0 <= j < |got|
        ensures got[j] == want[j]
      {
        assert got[j] == (Keys(f)[j], Cells(f)[j]);
      }
    }
  }

  /** A column of the row read back holds the text of the flattened value
      under that name. */
  lemma RecordGet(f: Flat, k: string)
    ensures Get(Record(f), k) == if k in Keys(f) then Some(Render(Get(f, k).value)) else None
  {
    FindSameKeys(Record(f), f, k);
  }

  /** The row read back for an exported member, after the column loop. */
  function Restored(m: Member): Dict<RValue>
    requires Export(m).Success?
  {
    Regroup(Record(Export(m).value))
  }

  /** The four `location` keys FIELDS exports. */
  const LOCATION_KEYS: seq<string> := ["latitude", "longitude", "country_code", "timezone"]

  /** An exported member has what FIELDS needs and is laid out entry by
      entry with distinct column names. */
  lemma Layout(m: Member)
    requires Export(m).Success? && DistinctMergeFields(m)
    ensures Exportable(m)
    ensures Export(m) == Success(Concat(FieldColumns(m)))
    ensures UniqueKeys(Concat(FieldColumns(m)))
  {
    FieldsSucceedIff(m);
    FieldsLayout(m);
    LayoutDistinct(m);
  }

  /** Every column an entry contributes is what the flattened member
      holds under its name. */
  lemma ColumnAt(m: Member, i: nat, a: nat)
    requires Exportable(m) && DistinctMergeFields(m)
    requires i < |FIELDS| && a < |FieldColumns(m)[i]|
    ensures Get(Concat(FieldColumns(m)), FieldColumns(m)[i][a].0) == Some(FieldColumns(m)[i][a].1)
  {
    LayoutDistinct(m);
    ConcatHas(FieldColumns(m), i, a);
    GetMember(Concat(FieldColumns(m)), FieldColumns(m)[i][a].0, FieldColumns(m)[i][a].1);
  }

  /** The FIELDS entries other than the five dotted ones are top-level
      names. */
  lemma PlainIndex(i: nat)
    requires i < |FIELDS| && i != 4 && !(8 <= i <= 11)
    ensures PARSED[i].Plain?
  {
  }

  /** A top-level FIELDS entry is read back as the text of the member's
      value. */
  lemma PlainRoundTrip(m: Member, i: nat)
    requires Export(m).Success? && DistinctMergeFields(m)
    requires i < |FIELDS| && i != 4 && !(8 <= i <= 11)
    ensures FIELDS[i] in Keys(m)
    ensures Get(Record(Export(m).value), FIELDS[i]) == Some(Render(Get(m, FIELDS[i]).value))
  {
    PlainIndex(i);
    Layout(m);
    FieldParsed(i);
    assert Available(m, PARSED[i]);
    ColumnAt(m, i, 0);
    RecordGet(Export(m).value, FIELDS[i]);
  }

  /** A member that can be exported has a `merge_fields` mapping, and
      the wildcard entry gives one column per merge field. */
  lemma MergeEntry(m: Member)
    requires Exportable(m)
    ensures HasGroup(m, "merge_fields")
    ensures FieldColumns(m)[4] == Prefixed("merge_fields", GroupAt(m, "merge_fields"))
  {
    assert PARSED[4] == Nested("merge_fields", "*");
    assert Available(m, PARSED[4]);
  }

  /** The column `merge_fields.s` of the file holds the text of the
      member's merge field `s`, and there is no such column when the member
      has no merge field `s`. */
  lemma MergeColumn(m: Member, s: string)
    requires Export(m).Success? && DistinctMergeFields(m)
    ensures HasGroup(m, "merge_fields")
    ensures Get(Record(Export(m).value), MERGE_PREFIX + s) ==
      if s in Keys(GroupAt(m, "merge_fields"))
      then Some(LeafText(Get(GroupAt(m, "merge_fields"), s).value))
      else None
  {
    Layout(m);
    MergeEntry(m);
    RecordGet(Export(m).value, MERGE_PREFIX + s);
    if s in Keys(GroupAt(m, "merge_fields")) {
      MergeFieldPresent(m, s);
    } else {
      MergeFieldAbsent(m, s);
    }
  }

  /** The merge fields come back as they were: a key of the member's
      `merge_fields` maps to the text of its value, and no other key is
      there. */
  lemma MergeFieldsRoundTrip(m: Member, s: string)
    requires Export(m).Success? && DistinctMergeFields(m)
    ensures HasGroup(m, "merge_fields")
    ensures Get(Restored(m), "merge_fields").Some? && Get(Restored(m), "merge_fields").value.Map?
    ensures Get(Get(Restored(m), "merge_fields").value.entries, s) ==
      if s in Keys(GroupAt(m, "merge_fields"))
      then Some(Str(LeafText(Get(GroupAt(m, "merge_fields"), s).value)))
      else None
  {
    MergeColumn(m, s);
    RegroupGroups(Record(Export(m).value), s);
  }

  lemma MergeFieldPresent(m: Member, s: string)
    requires Exportable(m) && DistinctMergeFields(m)
    requires HasGroup(m, "merge_fields") && s in Keys(GroupAt(m, "merge_fields"))
    ensures Get(Concat(FieldColumns(m)), MERGE_PREFIX + s) == Some(Scalar(Get(GroupAt(m, "merge_fields"), s).value))
  {
    var es := GroupAt(m, "merge_fields");
    var a :| 0 <= a < |es| && es[a].0 == s;
    GetAt(es, a);
    MergeEntry(m);
    assert "merge_fields" + "." == MERGE_PREFIX;
    assert FieldColumns(m)[4][a] == (MERGE_PREFIX + s, Scalar(es[a].1));
    ColumnAt(m, 4, a);
  }

  lemma MergeFieldAbsent(m: Member, s: string)
    requires Exportable(m) && DistinctMergeFields(m)
    requires HasGroup(m, "merge_fields") && s !in Keys(GroupAt(m, "merge_fields"))
    ensures MERGE_PREFIX + s !in Keys(Concat(FieldColumns(m)))
  {
    var parts := FieldColumns(m);
    var k := MERGE_PREFIX + s;
    if k in Keys(Concat(parts)) {
      var x :| 0 <= x < |Concat(parts)| && Concat(parts)[x].0 == k;
      var i, a := ConcatOrigin(parts, x);
      ColumnName(m, i, a);
      if i == 4 {
        assert false;
      } else {
        FieldsDistinct();
        assert false;
      }
    }
  }

  /** The entry `location.<key>` of a member that can be exported gives
      the one column named so, with the nested value. */
  lemma LocationEntry(m: Member, j: nat)
    requires Exportable(m) && j < |LOCATION_KEYS|
    ensures HasGroup(m, "location") && LOCATION_KEYS[j] in Keys(GroupAt(m, "location"))
    ensures FieldColumns(m)[8 + j] ==
      [(LOCATION_PREFIX + LOCATION_KEYS[j], Scalar(Get(GroupAt(m, "location"), LOCATION_KEYS[j]).value))]
  {
    assert PARSED[8 + j] == Nested("location", LOCATION_KEYS[j]);
    assert Available(m, PARSED[8 + j]);
    assert "location" + "." == LOCATION_PREFIX;
  }

  /** The column `location.<key>` of the file holds the text of the
      member's value under that `location` key. */
  lemma LocationColumn(m: Member, j: nat)
    requires Export(m).Success? && DistinctMergeFields(m) && j < |LOCATION_KEYS|
    ensures HasGroup(m, "location") && LOCATION_KEYS[j] in Keys(GroupAt(m, "location"))
    ensures Get(Record(Export(m).value), LOCATION_PREFIX + LOCATION_KEYS[j]) ==
      Some(LeafText(Get(GroupAt(m, "location"), LOCATION_KEYS[j]).value))
  {
    Layout(m);
    LocationEntry(m, j);
    ColumnAt(m, 8 + j, 0);
    RecordGet(Export(m).value, LOCATION_PREFIX + LOCATION_KEYS[j]);
  }

  /** Each of the four exported `location` keys comes back under
      `location` with the text of the member's value. */
  lemma LocationRoundTrip(m: Member, j: nat)
    requires Export(m).Success? && DistinctMergeFields(m) && j < |LOCATION_KEYS|
    ensures HasGroup(m, "location") && LOCATION_KEYS[j] in Keys(GroupAt(m, "location"))
    ensures Get(Restored(m), "location").Some? && Get(Restored(m), "location").value.Map?
    ensures Get(Get(Restored(m), "location").value.entries, LOCATION_KEYS[j]) ==
      Some(Str(LeafText(Get(GroupAt(m, "location"), LOCATION_KEYS[j]).value)))
  {
    LocationColumn(m, j);
    RegroupGroups(Record(Export(m).value), LOCATION_KEYS[j]);
  }

  /** Where the columns the conversion reads sit in FIELDS. */
  lemma ConversionFieldNames()
    ensures FIELDS[12] == "tags" && FIELDS[3] == "vip"
    ensures FIELDS[6] == "timestamp_signup" && FIELDS[5] == "ip_signup"
  {
  }

  /** The columns the conversion needs are all in the file, the tags as
      the text of the member's tags. */
  lemma ConversionColumns(m: Member)
    requires Export(m).Success? && DistinctMergeFields(m)
    ensures "tags" in Keys(m) && "vip" in Keys(m)
    ensures "tags" in Keys(Record(Export(m).value)) && "vip" in Keys(Record(Export(m).value))
    ensures "timestamp_signup" in Keys(Record(Export(m).value)) && "ip_signup" in Keys(Record(Export(m).value))
    ensures Get(Record(Export(m).value), "tags") == Some(Render(Get(m, "tags").value))
    ensures Get(Record(Export(m).value), "vip") == Some(Render(Get(m, "vip").value))
  {
    ConversionFieldNames();
    PlainRoundTrip(m, 12);
    PlainRoundTrip(m, 3);
    PlainRoundTrip(m, 6);
    PlainRoundTrip(m, 5);
  }

  /** An exported member's row converts exactly when the text of its tags
      decodes: every other column the conversion needs is in the file. */
  lemma ExportedRowConverts(m: Member, jsonOk: string -> bool)
    requires Export(m).Success? && DistinctMergeFields(m)
    ensures "tags" in Keys(m)
    ensures Transform(Record(Export(m).value), jsonOk).Success? <==> jsonOk(Render(Get(m, "tags").value))
  {
    ConversionColumns(m);
    TransformOutcome(Record(Export(m).value), jsonOk);
  }

  /** A row whose `vip` cell is the text of a boolean converts it back to
      that boolean. */
  lemma VipCell(row: Row, jsonOk: string -> bool, b: bool)
    requires Transform(row, jsonOk).Success?
    requires Get(row, "vip") == Some(LeafText(Flag(b)))
    ensures Get(Transform(row, jsonOk).value, "vip") == Some(Bool(b))
  {
    TransformValues(row, jsonOk);
    assert "False" != "True";
  }

  /** The `vip` flag comes back as the boolean it was. */
  lemma VipRoundTrip(m: Member, jsonOk: string -> bool, b: bool)
    requires Export(m).Success? && DistinctMergeFields(m)
    requires Get(m, "vip") == Some(Scalar(Flag(b)))
    requires Transform(Record(Export(m).value), jsonOk).Success?
    ensures Get(Transform(Record(Export(m).value), jsonOk).value, "vip") == Some(Bool(b))
  {
    ConversionColumns(m);
    VipCell(Record(Export(m).value), jsonOk, b);
  }
}
