// The statement-shaping helpers of the Postgres storage: the db tags of a
// structure, the column allow-list, the base SELECT with its labels join,
// the UPDATE and INSERT texts, and the small value and error converters.

module Postgres {
  import opened Text
  import opened Fmt
  import opened QueryCriteria

  // ---------------------------------------------------------------------
  // Errors
  // ---------------------------------------------------------------------

  /** The errors these helpers produce or pass through. */
  datatype StorageError =
    | NoRows                           // sql.ErrNoRows
    | NotFoundInStorage                // util.ErrNotFoundInStorage
    | UnsupportedQuery(message: string) // util.UnsupportedQueryError
    | Failure(message: string)         // any other error, by its text

  datatype Result<+T> = Success(value: T) | Fail(error: StorageError)

  // ---------------------------------------------------------------------
  // db tags
  // ---------------------------------------------------------------------

  /**
   * A field of a structure as getTags sees it: its Go name, its `db` tag
   * ("" when it has none) and whether it is a pointer that is nil.
   */
  datatype StructField = StructField(name: string, dbTag: string, nilPointer: bool)

  /** isAutoIncrementable: the column's value is computed by the database. */
  predicate IsAutoIncrementable(tag: string) {
    Contains(tag, "auto_increment")
  }

  /** The field yields a column: it is not a nil pointer, not tagged "-" and not auto-incremented. */
  predicate Kept(f: StructField) {
    !f.nilPointer && f.dbTag != "-" && !IsAutoIncrementable(f.dbTag)
  }

  /** The column name of a field: its tag, or its lower-cased name when it is untagged. */
  function TagName(f: StructField): string {
    if f.dbTag == "" then ToLower(f.name) else f.dbTag
  }

  /** The tag getTags appends for one field, if any. */
  function TagOf(f: StructField): seq<string> {
    if Kept(f) then [TagName(f)] else []
  }

  /** getDBTags(structure, isAutoIncrementable), on the fields in declaration order. */
  function DBTags(fields: seq<StructField>): (r: seq<string>)
    ensures |r| <= |fields|
    decreases |fields|
  {
    if |fields| == 0 then [] else DBTags(fields[..|fields| - 1]) + TagOf(fields[|fields| - 1])
  }

  /** getTags: one tag per kept field, in order. */
  method GetDBTags(fields: seq<StructField>) returns (tags: seq<string>)
    ensures tags == DBTags(fields)
  {
    tags := [];
    for i := 0 to |fields|
      invariant tags == DBTags(fields[..i])
    {
      assert fields[..i + 1][..i] == fields[..i];
      var field := fields[i];
      if field.nilPointer {
        continue;
      }
      var dbTag := field.dbTag;
      if dbTag == "-" || IsAutoIncrementable(dbTag) {
        continue;
      }
      if dbTag == "" {
        dbTag := ToLower(field.name);
      }
      tags := tags + [dbTag];
    }
    assert fields[..|fields|] == fields;
  }

  /** The tags are exactly the column names of the kept fields. */
  lemma {:induction false} DBTagsOfKept(fields: seq<StructField>)
    ensures forall t :: t in DBTags(fields) <==> exists k :: 0 <= k < |fields| && Kept(fields[k]) && TagName(fields[k]) == t
    decreases |fields|
  {
    if |fields| > 0 {
      var init := fields[..|fields| - 1];
      DBTagsOfKept(init);
      forall t | t in DBTags(fields)
        ensures exists k :: 0 <= k < |fields| && Kept(fields[k]) && TagName(fields[k]) == t
      {
        if t in DBTags(init) {
          var k :| 0 <= k < |init| && Kept(init[k]) && TagName(init[k]) == t;
          assert fields[k] == init[k];
        } else {
          assert t in TagOf(fields[|fields| - 1]);
        }
      }
      forall k | 0 <= k < |fields| && Kept(fields[k])
        ensures TagName(fields[k]) in DBTags(fields)
      {
        if k < |fields| - 1 {
          assert fields[k] == init[k];
        }
      }
    }
  }

  /** No tag at all exactly when no field is kept. */
  lemma {:induction false} DBTagsEmpty(fields: seq<StructField>)
    ensures |DBTags(fields)| == 0 <==> forall k :: 0 <= k < |fields| ==> !Kept(fields[k])
    decreases |fields|
  {
    if |fields| > 0 {
      var init := fields[..|fields| - 1];
      DBTagsEmpty(init);
      assert forall k :: 0 <= k < |init| ==> init[k] == fields[k];
    }
  }

  // ---------------------------------------------------------------------
  // The column allow-list
  // ---------------------------------------------------------------------

  /** strings.Split(tag, ",")[0]: the column a tag names. */
  function Column(tag: string): (c: string)
    ensures ',' !in c && HasPrefix(tag, c)
    ensures ',' !in tag ==> c == tag
  {
    BeforeFirst(tag, ',')
  }

  /** columnsByTags: every tag's column, mapped to true, and nothing else. */
  method ColumnsByTags(tags: seq<string>) returns (columns: map<string, bool>)
    ensures columns.Keys == set k | 0 <= k < |tags| :: Column(tags[k])
    ensures forall c :: c in columns ==> columns[c]
  {
    columns := map[];
    for i := 0 to |tags|
      invariant columns.Keys == set k | 0 <= k < i :: Column(tags[k])
      invariant forall c :: c in columns ==> columns[c]
    {
      columns := columns[Column(tags[i]) := true];
    }
  }

  /** columns[key] in Go: a missing key reads as false. */
  predicate Available(columns: map<string, bool>, key: string) {
    key in columns && columns[key]
  }

  /** A criterion validateFieldQueryParams rejects: a field query on an unavailable column. */
  predicate Unsupported(columns: map<string, bool>, c: Criterion) {
    c.kind == FieldQuery && !Available(columns, c.leftOp)
  }

  /** The left operand of the first rejected criterion, if any. */
  function FirstUnsupported(columns: map<string, bool>, criteria: seq<Criterion>): Option<string>
    decreases |criteria|
  {
    if |criteria| == 0 then None
    else if Unsupported(columns, criteria[0]) then Some(criteria[0].leftOp)
    else FirstUnsupported(columns, criteria[1..])
  }

  /** validateFieldQueryParams: the error names the first field query on an unavailable column. */
  method ValidateFieldQueryParams(columns: map<string, bool>, criteria: seq<Criterion>) returns (err: Option<StorageError>)
    ensures err.None? <==> FirstUnsupported(columns, criteria).None?
    ensures err.Some? ==> err.value == UnsupportedQuery("unsupported field query key: " + FirstUnsupported(columns, criteria).value)
  {
    for i := 0 to |criteria|
      invariant FirstUnsupported(columns, criteria[i..]) == FirstUnsupported(columns, criteria)
    {
      assert criteria[i..][1..] == criteria[i + 1..];
      var criterion := criteria[i];
      if criterion.kind == FieldQuery && !Available(columns, criterion.leftOp) {
        return Some(UnsupportedQuery("unsupported field query key: " + criterion.leftOp));
      }
    }
    return None;
  }

  /** Validation passes exactly when every field query names an available column; other criteria are never checked. */
  lemma {:induction false} FirstUnsupportedNone(columns: map<string, bool>, criteria: seq<Criterion>)
    ensures FirstUnsupported(columns, criteria).None? <==>
      forall k :: 0 <= k < |criteria| && criteria[k].kind == FieldQuery ==> Available(columns, criteria[k].leftOp)
    decreases |criteria|
  {
    if |criteria| > 0 {
      FirstUnsupportedNone(columns, criteria[1..]);
      assert forall k :: 0 < k < |criteria| ==> criteria[k] == criteria[1..][k - 1];
    }
  }

  /** The reported key belongs to a rejected criterion that every earlier criterion passed. */
  lemma {:induction false} FirstUnsupportedIsFirst(columns: map<string, bool>, criteria: seq<Criterion>)
    requires FirstUnsupported(columns, criteria).Some?
    ensures exists j :: (0 <= j < |criteria| && Unsupported(columns, criteria[j])
      && criteria[j].leftOp == FirstUnsupported(columns, criteria).value
      && forall i :: 0 <= i < j ==> !Unsupported(columns, criteria[i]))
    decreases |criteria|
  {
    if !Unsupported(columns, criteria[0]) {
      var rest := criteria[1..];
      FirstUnsupportedIsFirst(columns, rest);
      var j :| 0 <= j < |rest| && Unsupported(columns, rest[j])
        && rest[j].leftOp == FirstUnsupported(columns, rest).value
        && forall i :: 0 <= i < j ==> !Unsupported(columns, rest[i]);
      assert criteria[j + 1] == rest[j];
      assert forall i :: 0 < i < j + 1 ==> criteria[i] == rest[i - 1];
    }
  }

  /**
   * With the columns columnsByTags builds, validation passes exactly when
   * every field query's key is the column of some tag.
   */
  lemma FieldQueriesOnTaggedColumns(tags: seq<string>, columns: map<string, bool>, criteria: seq<Criterion>)
    requires columns.Keys == set k | 0 <= k < |tags| :: Column(tags[k])
    requires forall c :: c in columns ==> columns[c]
    ensures FirstUnsupported(columns, criteria).None? <==>
      forall j :: 0 <= j < |criteria| && criteria[j].kind == FieldQuery ==>
        exists k :: 0 <= k < |tags| && Column(tags[k]) == criteria[j].leftOp
  {
    FirstUnsupportedNone(columns, criteria);
  }

  // ---------------------------------------------------------------------
  // The base SELECT of a labelled entity
  // ---------------------------------------------------------------------

  /**
   * A PostgresLabel: the label structure's fields, its table, the column
   * that refers to the entity and the entity's key column it refers to.
   */
  datatype LabelsEntity = LabelsEntity(fields: seq<StructField>, tableName: string, referenceColumn: string, primaryColumn: string)

  /** The format text appended for one label column. */
  function ProjectionFormat(tag: string): string {
    " %[2]s." + tag + " " + "\"%[2]s." + tag + "\"" + ","
  }

  /** The format text appended for the label columns, in order. */
  function ProjectionFormats(tags: seq<string>): string
    decreases |tags|
  {
    if |tags| == 0 then "" else ProjectionFormats(tags[..|tags| - 1]) + ProjectionFormat(tags[|tags| - 1])
  }

  /** The join clause of the format, with the entity table as argument 1 and the labels table as argument 2. */
  function JoinClauseFormat(primaryColumn: string, referenceColumn: string): string {
    " FROM %[1]s LEFT JOIN %[2]s ON %[1]s." + primaryColumn + " = %[2]s." + referenceColumn
  }

  /** The format constructBaseQueryForLabelable hands to Sprintf. */
  function BaseFormat(tags: seq<string>, primaryColumn: string, referenceColumn: string): string {
    var selected := "SELECT %[1]s.*," + ProjectionFormats(tags);
    selected[..|selected| - 1] + JoinClauseFormat(primaryColumn, referenceColumn)
  }

  /** What constructBaseQueryForLabelable returns. */
  function BaseQuery(labels: Option<LabelsEntity>, baseTable: string): string {
    match labels
    case None => "SELECT * FROM " + baseTable
    case Some(e) => Sprintf(BaseFormat(DBTags(e.fields), e.primaryColumn, e.referenceColumn), [baseTable, e.tableName], 0)
  }

  /** constructBaseQueryForLabelable */
  method ConstructBaseQueryForLabelable(labels: Option<LabelsEntity>, baseTable: string) returns (q: string)
    ensures q == BaseQuery(labels, baseTable)
  {
    if labels.None? {
      return "SELECT * FROM " + baseTable;
    }
    var entity := labels.value;
    var baseQuery := "SELECT %[1]s.*,";
    var tags := GetDBTags(entity.fields);
    for i := 0 to |tags|
      invariant baseQuery == "SELECT %[1]s.*," + ProjectionFormats(tags[..i])
    {
      assert tags[..i + 1][..i] == tags[..i];
      AppendAssoc("SELECT %[1]s.*,", ProjectionFormats(tags[..i]), ProjectionFormat(tags[i]));
      baseQuery := baseQuery + (" %[2]s." + tags[i] + " " + "\"%[2]s." + tags[i] + "\"" + ",");
    }
    assert tags[..|tags|] == tags;
    baseQuery := baseQuery[..|baseQuery| - 1];
    baseQuery := baseQuery + (" FROM %[1]s LEFT JOIN %[2]s ON %[1]s." + entity.primaryColumn + " = %[2]s." + entity.referenceColumn);
    return Sprintf(baseQuery, [baseTable, entity.tableName], 0);
  }

  /** The projection of one label column: `<labels>.<tag> "<labels>.<tag>"`. */
  function Projection(labelsTable: string, tag: string): string {
    " " + labelsTable + "." + tag + " \"" + labelsTable + "." + tag + "\""
  }

  function Projections(labelsTable: string, tags: seq<string>): seq<string> {
    seq(|tags|, k requires 0 <= k < |tags| => Projection(labelsTable, tags[k]))
  }

  /**
   * The statement the base query is meant to be: the entity's columns, one
   * comma-separated projection per label column, and the left join of the
   * labels on the reference column.
   */
  function JoinSelect(baseTable: string, labelsTable: string, tags: seq<string>, primaryColumn: string, referenceColumn: string): string {
    "SELECT " + baseTable + ".*"
    + (if |tags| == 0 then "" else "," + Join(Projections(labelsTable, tags), ","))
    + JoinClause(baseTable, labelsTable, primaryColumn, referenceColumn)
  }

  /** `FROM <table> LEFT JOIN <labels> ON <table>.<pk> = <labels>.<ref>` */
  function JoinClause(baseTable: string, labelsTable: string, primaryColumn: string, referenceColumn: string): string {
    " FROM " + baseTable + " LEFT JOIN " + labelsTable + " ON " + baseTable + "." + primaryColumn + " = " + labelsTable + "." + referenceColumn
  }

  /** The format of one label column with its comma in front. */
  function CommaFormat(tag: string): string {
    "," + " %[2]s." + tag + " \"%[2]s." + tag + "\""
  }

  /** The projection formats with each comma before its column rather than after it. */
  function CommaFirstFormats(tags: seq<string>): string
    decreases |tags|
  {
    if |tags| == 0 then "" else CommaFirstFormats(tags[..|tags| - 1]) + CommaFormat(tags[|tags| - 1])
  }

  lemma CommaMoved(tag: string)
    ensures "," + ProjectionFormat(tag) == CommaFormat(tag) + ","
  {
  }

  lemma {:induction false} CommaShift(tags: seq<string>)
    ensures "," + ProjectionFormats(tags) == CommaFirstFormats(tags) + ","
    decreases |tags|
  {
    if |tags| > 0 {
      var init, last := tags[..|tags| - 1], tags[|tags| - 1];
      CommaShift(init);
      CommaMoved(last);
      var p, f, c, m := ProjectionFormats(init), ProjectionFormat(last), CommaFirstFormats(init), CommaFormat(last);
      calc {
        "," + ProjectionFormats(tags);
        "," + (p + f);
        { AppendAssoc(",", p, f); }
        ("," + p) + f;
        (c + ",") + f;
        { AppendAssoc(c, ",", f); }
        c + ("," + f);
        c + (m + ",");
        { AppendAssoc(c, m, ","); }
        (c + m) + ",";
      }
    }
  }

  /** Dropping the last character removes the trailing comma, or the one after `.*` when there are no label columns. */
  lemma SelectedTrimmed(tags: seq<string>)
    ensures var selected := "SELECT %[1]s.*," + ProjectionFormats(tags);
      selected[..|selected| - 1] == "SELECT %[1]s.*" + CommaFirstFormats(tags)
  {
    var head, p, c := "SELECT %[1]s.*", ProjectionFormats(tags), CommaFirstFormats(tags);
    CommaShift(tags);
    calc {
      "SELECT %[1]s.*," + p;
      (head + ",") + p;
      { AppendAssoc(head, ",", p); }
      head + ("," + p);
      head + (c + ",");
      { AppendAssoc(head, c, ","); }
      (head + c) + ",";
    }
    assert ((head + c) + ",")[..|head + c|] == head + c;
  }

  /** The comma-first format of one column, split at its verbs. */
  lemma CommaFormatSplit(tag: string, y: string)
    ensures CommaFormat(tag) + y
      == ", " + ("%[2]s" + (("." + tag + " \"") + ("%[2]s" + (("." + tag + "\"") + y))))
  {
  }

  /** One projection with its comma, split where the verbs were. */
  lemma ProjectionSplit(labelsTable: string, tag: string, z: string)
    ensures "," + Projection(labelsTable, tag) + z
      == ", " + (labelsTable + (("." + tag + " \"") + (labelsTable + (("." + tag + "\"") + z))))
  {
  }

  /** One comma-first projection format, formatted. */
  lemma SprintfProjection(tag: string, y: string, args: seq<string>, next: nat)
    requires '%' !in tag && |args| == 2
    ensures Sprintf(CommaFormat(tag) + y, args, next) == "," + Projection(args[1], tag) + Sprintf(y, args, 2)
  {
    var t2 := "." + tag + " \"";
    var t3 := "." + tag + "\"";
    CommaFormatSplit(tag, y);
    ProjectionSplit(args[1], tag, Sprintf(y, args, 2));
    SprintfLiteral(t3, y, args, 2);
    SprintfSecond(t3 + y, args, 2);
    SprintfLiteral(t2, "%[2]s" + (t3 + y), args, 2);
    SprintfSecond(t2 + ("%[2]s" + (t3 + y)), args, next);
    SprintfLiteral(", ", "%[2]s" + (t2 + ("%[2]s" + (t3 + y))), args, next);
  }

  /** The comma-separated projections of the label columns, with the comma that leads them. */
  function LeadingProjections(labelsTable: string, tags: seq<string>): string {
    if |tags| == 0 then "" else "," + Join(Projections(labelsTable, tags), ",")
  }

  lemma LeadingProjectionsStep(labelsTable: string, tags: seq<string>, z: string)
    requires |tags| > 0
    ensures LeadingProjections(labelsTable, tags[..|tags| - 1]) + ("," + Projection(labelsTable, tags[|tags| - 1]) + z)
      == LeadingProjections(labelsTable, tags) + z
  {
    var init, last := tags[..|tags| - 1], tags[|tags| - 1];
    var ps, p := Projections(labelsTable, init), Projection(labelsTable, last);
    assert Projections(labelsTable, tags) == ps + [p];
    JoinAppend(ps, p, ",");
    if |init| == 0 {
      assert LeadingProjections(labelsTable, tags) == "," + p;
      assert LeadingProjections(labelsTable, init) == "";
    } else {
      var j := Join(ps, ",");
      calc {
        LeadingProjections(labelsTable, init) + ("," + p + z);
        ("," + j) + (("," + p) + z);
        { AppendAssoc("," + j, "," + p, z); }
        (("," + j) + ("," + p)) + z;
        { AppendAssoc(",", j, "," + p); AppendAssoc(j, ",", p); }
        ("," + (j + "," + p)) + z;
        LeadingProjections(labelsTable, tags) + z;
      }
    }
  }

  /** The comma-first formats, formatted: the comma-first projections. */
  lemma {:induction false} SprintfCommaFirst(tags: seq<string>, y: string, args: seq<string>, next: nat)
    requires forall k :: 0 <= k < |tags| ==> '%' !in tags[k]
    requires |args| == 2
    ensures Sprintf(CommaFirstFormats(tags) + y, args, next)
      == LeadingProjections(args[1], tags) + Sprintf(y, args, if |tags| == 0 then next else 2)
    decreases |tags|
  {
    if |tags| > 0 {
      var init, last := tags[..|tags| - 1], tags[|tags| - 1];
      assert CommaFirstFormats(tags) + y == CommaFirstFormats(init) + (CommaFormat(last) + y);
      SprintfCommaFirst(init, CommaFormat(last) + y, args, next);
      SprintfProjection(last, y, args, if |init| == 0 then next else 2);
      LeadingProjectionsStep(args[1], tags, Sprintf(y, args, 2));
    } else {
      assert CommaFirstFormats(tags) + y == y;
    }
  }

  /** The join clause of the base format, split at its verbs. */
  lemma JoinClauseSplit(primaryColumn: string, referenceColumn: string)
    ensures JoinClauseFormat(primaryColumn, referenceColumn)
      == " FROM " + ("%[1]s" + (" LEFT JOIN " + ("%[2]s" + (" ON " + ("%[1]s" + (("." + primaryColumn + " = ") + ("%[2]s" + ("." + referenceColumn))))))))
  {
  }

  /** The join clause of the statement, split where the verbs were. */
  lemma JoinTextSplit(baseTable: string, labelsTable: string, primaryColumn: string, referenceColumn: string)
    ensures JoinClause(baseTable, labelsTable, primaryColumn, referenceColumn)
      == " FROM " + (baseTable + (" LEFT JOIN " + (labelsTable + (" ON " + (baseTable + (("." + primaryColumn + " = ") + (labelsTable + ("." + referenceColumn))))))))
  {
  }

  /** The `ON` condition of the base format, formatted. */
  lemma SprintfOnClause(p: string, r: string, args: seq<string>)
    requires '%' !in p && '%' !in r && |args| == 2
    ensures Sprintf(" ON " + ("%[1]s" + (p + ("%[2]s" + r))), args, 2) == " ON " + (args[0] + (p + (args[1] + r)))
  {
    SprintfVerbatim(r, args, 2);
    SprintfSecond(r, args, 1);
    SprintfLiteral(p, "%[2]s" + r, args, 1);
    SprintfFirst(p + ("%[2]s" + r), args, 2);
    SprintfLiteral(" ON ", "%[1]s" + (p + ("%[2]s" + r)), args, 2);
  }

  /** The tail of the base format, formatted. */
  lemma SprintfJoinClause(primaryColumn: string, referenceColumn: string, args: seq<string>, next: nat)
    requires '%' !in primaryColumn && '%' !in referenceColumn && |args| == 2
    ensures Sprintf(JoinClauseFormat(primaryColumn, referenceColumn), args, next) == JoinClause(args[0], args[1], primaryColumn, referenceColumn)
  {
    var r := "." + referenceColumn;
    var p := "." + primaryColumn + " = ";
    JoinClauseSplit(primaryColumn, referenceColumn);
    JoinTextSplit(args[0], args[1], primaryColumn, referenceColumn);
    SprintfOnClause(p, r, args);
    SprintfSecond(" ON " + ("%[1]s" + (p + ("%[2]s" + r))), args, 1);
    SprintfLiteral(" LEFT JOIN ", "%[2]s" + (" ON " + ("%[1]s" + (p + ("%[2]s" + r)))), args, 1);
    SprintfFirst(" LEFT JOIN " + ("%[2]s" + (" ON " + ("%[1]s" + (p + ("%[2]s" + r))))), args, next);
    SprintfLiteral(" FROM ", "%[1]s" + (" LEFT JOIN " + ("%[2]s" + (" ON " + ("%[1]s" + (p + ("%[2]s" + r)))))), args, next);
  }

  /** The base format, split at the entity table's first verb. */
  lemma BaseFormatSplit(tags: seq<string>, primaryColumn: string, referenceColumn: string)
    ensures BaseFormat(tags, primaryColumn, referenceColumn)
      == "SELECT " + ("%[1]s" + (".*" + (CommaFirstFormats(tags) + JoinClauseFormat(primaryColumn, referenceColumn))))
  {
    SelectedTrimmed(tags);
    var c, f := CommaFirstFormats(tags), JoinClauseFormat(primaryColumn, referenceColumn);
    calc {
      ("SELECT %[1]s.*" + c) + f;
      { AppendAssoc("SELECT %[1]s.*", c, f); }
      "SELECT %[1]s.*" + (c + f);
      (("SELECT " + "%[1]s") + ".*") + (c + f);
      { AppendAssoc("SELECT " + "%[1]s", ".*", c + f); }
      ("SELECT " + "%[1]s") + (".*" + (c + f));
      { AppendAssoc("SELECT ", "%[1]s", ".*" + (c + f)); }
      "SELECT " + ("%[1]s" + (".*" + (c + f)));
    }
  }

  /** The statement, split where the format's first verb was. */
  lemma JoinSelectSplit(baseTable: string, labelsTable: string, tags: seq<string>, primaryColumn: string, referenceColumn: string)
    ensures JoinSelect(baseTable, labelsTable, tags, primaryColumn, referenceColumn)
      == "SELECT " + (baseTable + (".*" + (LeadingProjections(labelsTable, tags) + JoinClause(baseTable, labelsTable, primaryColumn, referenceColumn))))
  {
    var l, c := LeadingProjections(labelsTable, tags), JoinClause(baseTable, labelsTable, primaryColumn, referenceColumn);
    calc {
      "SELECT " + baseTable + ".*" + l + c;
      { AppendAssoc("SELECT " + baseTable + ".*", l, c); }
      ("SELECT " + baseTable + ".*") + (l + c);
      { AppendAssoc("SELECT " + baseTable, ".*", l + c); }
      ("SELECT " + baseTable) + (".*" + (l + c));
      { AppendAssoc("SELECT ", baseTable, ".*" + (l + c)); }
      "SELECT " + (baseTable + (".*" + (l + c)));
    }
  }

  /** The base format, formatted with the two table names. */
  lemma SprintfBaseFormat(tags: seq<string>, primaryColumn: string, referenceColumn: string, args: seq<string>)
    requires forall k :: 0 <= k < |tags| ==> '%' !in tags[k]
    requires '%' !in primaryColumn && '%' !in referenceColumn && |args| == 2
    ensures Sprintf(BaseFormat(tags, primaryColumn, referenceColumn), args, 0)
      == JoinSelect(args[0], args[1], tags, primaryColumn, referenceColumn)
  {
    var clause := JoinClauseFormat(primaryColumn, referenceColumn);
    BaseFormatSplit(tags, primaryColumn, referenceColumn);
    JoinSelectSplit(args[0], args[1], tags, primaryColumn, referenceColumn);
    SprintfJoinClause(primaryColumn, referenceColumn, args, if |tags| == 0 then 1 else 2);
    SprintfCommaFirst(tags, clause, args, 1);
    SprintfSelect(CommaFirstFormats(tags) + clause, Sprintf(CommaFirstFormats(tags) + clause, args, 1), args);
  }

  /** The head of the base format, formatted. */
  lemma SprintfSelect(rest: string, formatted: string, args: seq<string>)
    requires |args| == 2 && Sprintf(rest, args, 1) == formatted
    ensures Sprintf("SELECT " + ("%[1]s" + (".*" + rest)), args, 0) == "SELECT " + (args[0] + (".*" + formatted))
  {
    SprintfLiteral(".*", rest, args, 1);
    SprintfFirst(".*" + rest, args, 0);
    SprintfLiteral("SELECT ", "%[1]s" + (".*" + rest), args, 0);
  }

  /**
   * With no labels entity the base query selects everything from the
   * table; with one, and no `%` in the names pasted into the format, it is
   * the entity's columns, one projection per label column (with no
   * trailing comma) and the left join of the labels table.
   */
  lemma BaseQueryParts(labels: Option<LabelsEntity>, baseTable: string)
    requires labels.Some? ==>
      && (forall k :: 0 <= k < |DBTags(labels.value.fields)| ==> '%' !in DBTags(labels.value.fields)[k])
      && '%' !in labels.value.primaryColumn && '%' !in labels.value.referenceColumn
    ensures labels.None? ==> BaseQuery(labels, baseTable) == "SELECT * FROM " + baseTable
    ensures labels.Some? ==> BaseQuery(labels, baseTable) == JoinSelect(baseTable, labels.value.tableName,
      DBTags(labels.value.fields), labels.value.primaryColumn, labels.value.referenceColumn)
  {
    if labels.Some? {
      var e := labels.value;
      SprintfBaseFormat(DBTags(e.fields), e.primaryColumn, e.referenceColumn, [baseTable, e.tableName]);
    }
  }

  // ---------------------------------------------------------------------
  // UPDATE
  // ---------------------------------------------------------------------

  /** The `SET` assignment of one column: `<tag> = :<tag>`. */
  function Assignment(tag: string): string {
    tag + " = :" + tag
  }

  function Assignments(tags: seq<string>): seq<string> {
    seq(|tags|, k requires 0 <= k < |tags| => Assignment(tags[k]))
  }

  /** What updateQuery returns. */
  function UpdateStatement(table: string, fields: seq<StructField>): string {
    var tags := DBTags(fields);
    if |tags| == 0 then ""
    else Sprintf("UPDATE " + table + " SET %s WHERE id = :id", [Join(Assignments(tags), ", ")], 0)
  }

  /** updateQuery */
  method UpdateQuery(table: string, fields: seq<StructField>) returns (q: string)
    ensures q == UpdateStatement(table, fields)
  {
    var dbTags := GetDBTags(fields);
    var assignments: seq<string> := [];
    for i := 0 to |dbTags|
      invariant assignments == Assignments(dbTags[..i])
    {
      assignments := assignments + [dbTags[i] + " = :" + dbTags[i]];
    }
    assert dbTags[..|dbTags|] == dbTags;
    if |assignments| == 0 {
      return "";
    }
    return Sprintf("UPDATE " + table + " SET %s WHERE id = :id", [Join(assignments, ", ")], 0);
  }

  /**
   * updateQuery gives "" when no field is settable, and otherwise (the
   * table name being free of `%`) sets each settable column to its named
   * parameter, in field order, on the row whose id is `:id`.
   */
  lemma UpdateStatementText(table: string, fields: seq<StructField>)
    requires '%' !in table
    ensures UpdateStatement(table, fields) == "" <==> forall k :: 0 <= k < |fields| ==> !Kept(fields[k])
    ensures DBTags(fields) != [] ==>
      UpdateStatement(table, fields) == "UPDATE " + table + " SET " + Join(Assignments(DBTags(fields)), ", ") + " WHERE id = :id"
  {
    DBTagsEmpty(fields);
    if DBTags(fields) != [] {
      SprintfUpdate(table, Join(Assignments(DBTags(fields)), ", "));
    }
  }

  /** The UPDATE format, split at its verb. */
  lemma UpdateFormatSplit(table: string)
    ensures "UPDATE " + table + " SET %s WHERE id = :id" == ("UPDATE " + table + " SET ") + ("%s" + " WHERE id = :id")
  {
    assert " SET %s WHERE id = :id" == " SET " + ("%s" + " WHERE id = :id");
    AppendAssoc("UPDATE " + table, " SET ", "%s" + " WHERE id = :id");
  }

  lemma UpdatePrefixVerbatim(table: string)
    requires '%' !in table
    ensures '%' !in "UPDATE " + table + " SET "
  {
  }

  /** The UPDATE format, formatted with the assignments. */
  lemma SprintfUpdate(table: string, assignments: string)
    requires '%' !in table
    ensures Sprintf("UPDATE " + table + " SET %s WHERE id = :id", [assignments], 0)
      == "UPDATE " + table + " SET " + assignments + " WHERE id = :id"
  {
    var prefix, suffix := "UPDATE " + table + " SET ", " WHERE id = :id";
    UpdatePrefixVerbatim(table);
    UpdateFormatSplit(table);
    SprintfOneArg(prefix, suffix, assignments);
    AppendAssoc(prefix, assignments, suffix);
  }

  /** The one tag of a structure with one kept field. */
  lemma OneTag(f: StructField)
    requires Kept(f)
    ensures DBTags([f]) == [TagName(f)]
    ensures Join(Assignments(DBTags([f])), ", ") == TagName(f) + " = :" + TagName(f)
  {
    assert [f][..0] == [];
  }

  lemma ExampleText(table: string, tag: string, assignment: string)
    requires table == "n/a" && assignment == tag + " = :" + tag
    ensures "UPDATE " + table + " SET " == "UPDATE n/a SET " && '%' !in table
    ensures Assignment(tag) == assignment
  {
  }

  /** A structure whose one field is untagged updates the field's lower-cased name. */
  lemma UpdateUntaggedField(table: string, f: StructField)
    requires table == "n/a" && f == StructField("Field", "", false)
    ensures UpdateStatement(table, [f]) == "UPDATE n/a SET " + "field = :field" + " WHERE id = :id"
  {
    ExampleText(table, "field", "field = :field");
    assert ToLower(f.name) == "field";
    ShorterLacks(f.dbTag, "auto_increment");
    OneTag(f);
    UpdateStatementText(table, [f]);
  }

  /** A structure whose one field is tagged updates the tag. */
  lemma UpdateTaggedField(table: string, f: StructField)
    requires table == "n/a" && f == StructField("Field", "taggedField", false)
    ensures UpdateStatement(table, [f]) == "UPDATE n/a SET " + "taggedField = :taggedField" + " WHERE id = :id"
  {
    ExampleText(table, "taggedField", "taggedField = :taggedField");
    ShorterLacks(f.dbTag, "auto_increment");
    OneTag(f);
    UpdateStatementText(table, [f]);
  }

  /** A nil pointer field, or no field at all, leaves nothing to update. */
  lemma UpdateNothing()
    ensures UpdateStatement("n/a", [StructField("Field", "", true)]) == ""
    ensures UpdateStatement("n/a", []) == ""
  {
    var fields := [StructField("Field", "", true)];
    assert fields[..0] == [];
  }

  // ---------------------------------------------------------------------
  // INSERT
  // ---------------------------------------------------------------------

  /** The format of create's statement: table, columns, named parameters. */
  const InsertFormat: string := "INSERT INTO %s (%s) VALUES(:%s) RETURNING *;"

  /** The statement create prepares, or its error when there is nothing to insert. */
  function InsertStatement(table: string, fields: seq<StructField>): Result<string> {
    var dbTags := DBTags(fields);
    if |dbTags| == 0 then Fail(Failure(Sprintf("%s insert: No fields to insert", [table], 0)))
    else Success(Sprintf(InsertFormat, [table, Join(dbTags, ", "), Join(dbTags, ", :")], 0))
  }

  /** The format with its three arguments substituted in order. */
  lemma InsertFormatted(table: string, columns: string, parameters: string)
    ensures Sprintf(InsertFormat, [table, columns, parameters], 0)
      == "INSERT INTO " + table + " (" + columns + ") VALUES(:" + parameters + ") RETURNING *;"
  {
    var p0, p1, p2, p3 := "INSERT INTO ", " (", ") VALUES(:", ") RETURNING *;";
    assert InsertFormat == p0 + ("%s" + (p1 + ("%s" + (p2 + ("%s" + p3)))));
    SprintfThreeArgs(p0, p1, p2, p3, table, columns, parameters);
    AppendAssoc(p0 + table + p1 + columns + p2, parameters, p3);
    AppendAssoc(p0 + table + p1 + columns, p2, parameters + p3);
    AppendAssoc(p0 + table + p1, columns, p2 + (parameters + p3));
    AppendAssoc(p0 + table, p1, columns + (p2 + (parameters + p3)));
    AppendAssoc(p0, table, p1 + (columns + (p2 + (parameters + p3))));
  }

  /** The error message names the table. */
  lemma InsertRefused(table: string)
    ensures Sprintf("%s insert: No fields to insert", [table], 0) == table + " insert: No fields to insert"
  {
    var suffix := " insert: No fields to insert";
    assert "%s insert: No fields to insert" == "" + ("%s" + suffix);
    SprintfOneArg("", suffix, table);
    assert "" + (table + suffix) == table + suffix;
  }

  /** The named parameter of each column: `:<tag>`. */
  function Placeholders(tags: seq<string>): seq<string> {
    seq(|tags|, k requires 0 <= k < |tags| => ":" + tags[k])
  }

  /** Joining with ", :" after a leading ":" joins the named parameters with ", ". */
  lemma {:induction false} PlaceholdersJoined(tags: seq<string>)
    requires |tags| > 0
    ensures ":" + Join(tags, ", :") == Join(Placeholders(tags), ", ")
    decreases |tags|
  {
    if |tags| > 1 {
      PlaceholdersJoined(tags[1..]);
      assert Placeholders(tags)[1..] == Placeholders(tags[1..]);
    }
  }

  /**
   * create fails exactly when no field is insertable; otherwise it inserts
   * the insertable columns, in field order, from the parameters of the same
   * names, and returns the inserted row. Auto-incremented columns are not
   * among them.
   */
  lemma InsertStatementText(table: string, fields: seq<StructField>)
    ensures InsertStatement(table, fields).Fail? <==> forall k :: 0 <= k < |fields| ==> !Kept(fields[k])
    ensures InsertStatement(table, fields).Fail? ==>
      InsertStatement(table, fields).error == Failure(table + " insert: No fields to insert")
    ensures InsertStatement(table, fields).Success? ==>
      InsertStatement(table, fields).value == "INSERT INTO " + table + " (" + Join(DBTags(fields), ", ") + ") VALUES("
        + Join(Placeholders(DBTags(fields)), ", ") + ") RETURNING *;"
  {
    DBTagsEmpty(fields);
    InsertRefused(table);
    if |DBTags(fields)| > 0 {
      var dbTags := DBTags(fields);
      InsertFormatted(table, Join(dbTags, ", "), Join(dbTags, ", :"));
      PlaceholdersJoined(dbTags);
      ValuesSplit("INSERT INTO " + table + " (" + Join(dbTags, ", "), Join(dbTags, ", :"));
    }
  }

  /** The leading ":" of the first named parameter belongs to it, not to `VALUES(`. */
  lemma ValuesSplit(x: string, j: string)
    ensures x + ") VALUES(:" + j == x + ") VALUES(" + (":" + j)
  {
    assert ") VALUES(:" == ") VALUES(" + ":";
    AppendAssoc(x, ") VALUES(", ":");
    AppendAssoc(x + ") VALUES(", ":", j);
  }

  /** A field tagged as auto-incremented gives no column of its own. */
  lemma AutoIncrementSkipped(fields: seq<StructField>, k: nat)
    requires k < |fields| && IsAutoIncrementable(fields[k].dbTag)
    ensures fields[k].dbTag !in DBTags(fields) ||
      exists j :: 0 <= j < |fields| && j != k && Kept(fields[j]) && TagName(fields[j]) == fields[k].dbTag
  {
    DBTagsOfKept(fields);
  }

  // ---------------------------------------------------------------------
  // Value converters
  // ---------------------------------------------------------------------

  datatype NullString = NullString(str: string, valid: bool)

  /** toNullString: the empty string is stored as NULL. */
  function ToNullString(s: string): (r: NullString)
    ensures r.str == s
    ensures r.valid <==> s != ""
  {
    NullString(s, s != "")
  }

  /** getJSONText, with None for a nil message: a JSON null is stored as an empty object. */
  function GetJSONText(item: Option<string>): (r: Option<string>)
    ensures r != Some("null")
    ensures item == Some("null") ==> r == Some("{}")
    ensures item != Some("null") ==> r == item
  {
    if item.Some? && |item.value| == |"null"| && item.value == "null" then Some("{}") else item
  }

  /** getJSONRawMessage, with None for nil: an empty object or a JSON null is read back as nil. */
  function GetJSONRawMessage(item: Option<string>): (r: Option<string>)
    ensures r != Some("{}") && r != Some("null")
    ensures item == Some("{}") || item == Some("null") ==> r == None
    ensures item != Some("{}") && item != Some("null") ==> r == item
  {
    if item.Some? && |item.value| <= |"null"| && (item.value == "{}" || item.value == "null") then None else item
  }

  /** A message other than `{}` and `null` is read back as it was stored; those two come back as nil. */
  lemma JSONRoundTrip(item: Option<string>)
    ensures item != Some("{}") && item != Some("null") ==> GetJSONRawMessage(GetJSONText(item)) == item
    ensures item == Some("{}") || item == Some("null") ==> GetJSONRawMessage(GetJSONText(item)) == None
  {
  }

  // ---------------------------------------------------------------------
  // Error converters
  // ---------------------------------------------------------------------

  /** sql.Result.RowsAffected(): the count, or the error asking for it gave. */
  datatype RowsAffected = RowsAffected(count: int, err: Option<StorageError>)

  /** checkRowsAffected: no affected row means the record was not found. */
  function CheckRowsAffected(result: RowsAffected): (r: Option<StorageError>)
    ensures result.err.Some? ==> r == result.err
    ensures result.err.None? ==> (r.None? <==> result.count >= 1)
    ensures result.err.None? && r.Some? ==> r.value == NotFoundInStorage
  {
    if result.err.Some? then result.err
    else if result.count < 1 then Some(NotFoundInStorage)
    else None
  }

  /** checkSQLNoRows: the no-rows error becomes not-found; every other outcome passes through. */
  function CheckSQLNoRows(err: Option<StorageError>): (r: Option<StorageError>)
    ensures r != Some(NoRows)
    ensures err == Some(NoRows) ==> r == Some(NotFoundInStorage)
    ensures err != Some(NoRows) ==> r == err
  {
    if err == Some(NoRows) then Some(NotFoundInStorage) else err
  }
}
