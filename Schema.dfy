/** Schema rendering from `fetch_schema`: the catalog rows already fetched from
    the database become the text block embedded in every prompt. The queries
    against `information_schema` and the connection are not modelled; the
    fetch either yields its tables or fails. */
module Schema {
  import opened Text

  /** One `(column_name, data_type)` row of the catalog, verbatim. */
  datatype Column = Column(name: string, dataType: string)

  /** One base table of the public schema with its columns, in catalog order. */
  datatype Table = Table(name: string, columns: seq<Column>)

  /** What the catalog queries produced: the tables, or the failure that the
      `except` branch catches. */
  datatype Catalog = Tables(tables: seq<Table>) | CatalogError(message: string)

  /** `f"{col} {dtype.upper()}"`. */
  function ColumnEntry(c: Column): string {
    c.name + " " + Upper(c.dataType)
  }

  function ColumnEntries(cols: seq<Column>): (r: seq<string>)
    ensures |r| == |cols|
    ensures forall k :: 0 <= k < |cols| ==> r[k] == ColumnEntry(cols[k])
  {
    seq(|cols|, k requires 0 <= k < |cols| => ColumnEntry(cols[k]))
  }

  /** `f"- {table}({column_list})"`, without the newline. */
  function TableLine(t: Table): string {
    "- " + t.name + "(" + Join(ColumnEntries(t.columns), ", ") + ")"
  }

  function TableLines(ts: seq<Table>): (r: seq<string>)
    ensures |r| == |ts|
    ensures forall k :: 0 <= k < |ts| ==> r[k] == TableLine(ts[k])
  {
    seq(|ts|, k requires 0 <= k < |ts| => TableLine(ts[k]))
  }

  /** `schema_text` after the loop: one line per table, each ended by "\n". */
  function Listing(ts: seq<Table>): string
    decreases |ts|
  {
    if |ts| == 0 then ""
    else Listing(ts[..|ts| - 1]) + TableLine(ts[|ts| - 1]) + "\n"
  }

  /** The value `fetch_schema` returns when the catalog could be read. */
  function RenderSchema(ts: seq<Table>): string {
    "Tables:\n" + Strip(Listing(ts))
  }

  /** The value `fetch_schema` returns: "" on any failure. */
  function SchemaText(catalog: Catalog): string {
    match catalog
    case Tables(ts) => RenderSchema(ts)
    case CatalogError(_) => ""
  }

  /** `fetch_schema` with its `+=` loop over the tables. The rendering is the
      header line followed by the table lines joined with "\n": the final
      `strip()` only removes the newline after the last table. */
  method FetchSchema(catalog: Catalog) returns (schema: string)
    ensures schema == SchemaText(catalog)
    ensures catalog.CatalogError? ==> schema == ""
    ensures catalog.Tables? ==> schema == "Tables:\n" + Join(TableLines(catalog.tables), "\n")
  {
    match catalog
    case CatalogError(_) =>
      schema := "";
    case Tables(tables) =>
      var schemaText := "";
      for i := 0 to |tables|
        invariant schemaText == Listing(tables[..i])
      {
        assert tables[..i + 1][..i] == tables[..i];
        schemaText := schemaText + TableLine(tables[i]) + "\n";
      }
      assert tables[..|tables|] == tables;
      schema := "Tables:\n" + Strip(schemaText);
      ListingStripped(tables);
  }

  // ---------------------------------------------------------------------------
  // Properties

  /** Every table line starts with "- " and ends with ")". */
  lemma TableLineShape(t: Table)
    ensures |TableLine(t)| >= 4
    ensures TableLine(t)[0] == '-' && TableLine(t)[|TableLine(t)| - 1] == ')'
    ensures TableLine(t)[..2 + |t.name| + 1] == "- " + t.name + "("
  {
  }

  lemma {:induction false} JoinFirstLast(parts: seq<string>, sep: string)
    requires |parts| > 0 && parts[0] != [] && parts[|parts| - 1] != []
    ensures |Join(parts, sep)| > 0
    ensures Join(parts, sep)[0] == parts[0][0]
    ensures Join(parts, sep)[|Join(parts, sep)| - 1] == parts[|parts| - 1][|parts[|parts| - 1]| - 1]
  {
    if |parts| > 1 {
      var n := |parts|;
      assert parts == parts[..n - 1] + [parts[n - 1]];
      JoinSnoc(parts[..n - 1], parts[n - 1], sep);
    }
  }

  /** The loop's text is the table lines joined with "\n", plus a final "\n". */
  lemma {:induction false} ListingIsJoin(ts: seq<Table>)
    requires |ts| > 0
    ensures Listing(ts) == Join(TableLines(ts), "\n") + "\n"
    decreases |ts|
  {
    var n := |ts|;
    if n > 1 {
      ListingIsJoin(ts[..n - 1]);
      assert TableLines(ts) == TableLines(ts[..n - 1]) + [TableLine(ts[n - 1])];
      JoinSnoc(TableLines(ts[..n - 1]), TableLine(ts[n - 1]), "\n");
    }
  }

  /** `schema_text.strip()` removes exactly the newline after the last table. */
  lemma ListingStripped(ts: seq<Table>)
    ensures Strip(Listing(ts)) == Join(TableLines(ts), "\n")
  {
    if |ts| > 0 {
      ListingIsJoin(ts);
      var j := Join(TableLines(ts), "\n");
      TableLineShape(ts[0]);
      TableLineShape(ts[|ts| - 1]);
      JoinFirstLast(TableLines(ts), "\n");
      var s := j + "\n";
      assert s[0] == j[0] && !IsSpace(s[0]);
      assert LStrip(s) == s;
      assert s[..|s| - 1] == j;
      assert RStrip(s) == RStrip(j);
      assert RStrip(j) == j;
    }
  }

  /** The rendered schema is the header line followed by one line per table,
      in catalog order, as long as no name or type contains a line break. */
  lemma RenderSchemaLines(ts: seq<Table>)
    requires forall k :: 0 <= k < |ts| ==> NoLineBreak(ts[k].name)
    requires forall k, m :: 0 <= k < |ts| && 0 <= m < |ts[k].columns| ==>
      NoLineBreak(ts[k].columns[m].name) && NoLineBreak(ts[k].columns[m].dataType)
    ensures SplitLines(RenderSchema(ts)) == ["Tables:"] + TableLines(ts)
  {
    ListingStripped(ts);
    var lines := ["Tables:"] + TableLines(ts);
    forall k | 0 <= k < |ts| ensures NoLineBreak(TableLine(ts[k])) {
      TableLineNoBreak(ts[k]);
    }
    assert forall k :: 0 <= k < |lines| ==> NoLineBreak(lines[k]);
    if |ts| == 0 {
      var r := "Tables:\n";
      assert RenderSchema(ts) == r;
      FirstBreakAt(r, 7);
      assert r[..7] == "Tables:" && r[8..] == "";
    } else {
      TableLineShape(ts[|ts| - 1]);
      assert lines[1..] == TableLines(ts);
      assert RenderSchema(ts) == Join(lines, "\n");
      SplitJoin(lines);
    }
  }

  lemma TableLineNoBreak(t: Table)
    requires NoLineBreak(t.name)
    requires forall m :: 0 <= m < |t.columns| ==> NoLineBreak(t.columns[m].name) && NoLineBreak(t.columns[m].dataType)
    ensures NoLineBreak(TableLine(t))
  {
    var entries := ColumnEntries(t.columns);
    forall m | 0 <= m < |entries| ensures NoLineBreak(entries[m]) {
      UpperNoBreak(t.columns[m].dataType);
    }
    JoinNoBreak(entries, ", ");
  }

  lemma UpperNoBreak(s: string)
    requires NoLineBreak(s)
    ensures NoLineBreak(Upper(s))
  {
  }

  lemma {:induction false} JoinNoBreak(parts: seq<string>, sep: string)
    requires NoLineBreak(sep)
    requires forall k :: 0 <= k < |parts| ==> NoLineBreak(parts[k])
    ensures NoLineBreak(Join(parts, sep))
    decreases |parts|
  {
    if |parts| > 1 {
      JoinNoBreak(parts[1..], sep);
    }
  }

  /** A column is rendered as its name, verbatim, then one space, then its type
      in upper case: the type keeps its letters up to case and loses every
      lower-case ASCII letter. */
  lemma ColumnEntryVerbatim(c: Column)
    ensures ColumnEntry(c)[..|c.name|] == c.name
    ensures ColumnEntry(c)[|c.name|] == ' '
    ensures Lower(ColumnEntry(c)[|c.name| + 1..]) == Lower(c.dataType)
    ensures forall k :: |c.name| < k < |ColumnEntry(c)| ==> !('a' <= ColumnEntry(c)[k] <= 'z')
  {
    assert ColumnEntry(c)[|c.name| + 1..] == Upper(c.dataType);
  }

  /** Whatever the catalog held, even no table at all, a readable catalog gives
      a non-empty schema text; only a failed fetch gives "". */
  lemma SchemaTextEmptyIffFailed(catalog: Catalog)
    ensures SchemaText(catalog) == "" <==> catalog.CatalogError?
    ensures SchemaText(Tables([])) == "Tables:\n"
  {
    if catalog.Tables? {
      assert SchemaText(catalog)[0] == 'T';
    }
  }
}
