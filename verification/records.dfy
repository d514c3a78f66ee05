/**
 * The record transformer: a scan table read from one CSV export, and the rewrite
 * of its `Plugin ID` column into hyperlink formulas. Cells are the values as the
 * CSV reader rendered them, as strings.
 */
module Records {

  import opened Wrappers
  import opened Hyperlink

  /** The column whose values become hyperlinks. */
  const PluginId := "Plugin ID"

  /** A table: column names in file order, then the data rows in file order. */
  datatype Table = Table(header: seq<string>, rows: seq<seq<string>>)

  /** Looking up a column that the header does not have. */
  datatype SchemaError = MissingColumn(name: string)

  /** The position of the first column called `name`. */
  function ColumnIndex(header: seq<string>, name: string): (r: Option<nat>)
    ensures r.Some? ==> r.value < |header| && header[r.value] == name
    ensures r.Some? ==> forall k :: 0 <= k < r.value ==> header[k] != name
    ensures r.None? <==> name !in header
  {
    if header == [] then None
    else if header[0] == name then Some(0)
    else match ColumnIndex(header[1..], name)
      case None => None
      case Some(k) => Some(k + 1)
  }

  /** Column `j` is the first column called `Plugin ID`, the one `df['Plugin ID']` selects. */
  predicate IsPluginColumn(header: seq<string>, j: nat)
  {
    j < |header| && header[j] == PluginId && forall k :: 0 <= k < j ==> header[k] != PluginId
  }

  /** One row with the cell in column `c` (when the row has it) replaced by its hyperlink. */
  function LinkCell(row: seq<string>, c: nat): (r: seq<string>)
  {
    if c < |row| then row[c := MakeHyperlink(row[c])] else row
  }

  /**
   * `df['Plugin ID'] = df['Plugin ID'].apply(make_hyperlink)`: a header without the
   * column fails; otherwise the header and the row order stay, every `Plugin ID`
   * cell becomes the hyperlink of its old value and every other cell is unchanged.
   */
  function LinkPluginIds(t: Table): (r: Result<Table, SchemaError>)
    ensures r.Failure? <==> PluginId !in t.header
    ensures r.Failure? ==> r.error == MissingColumn(PluginId)
    ensures r.Success? ==> r.value.header == t.header && |r.value.rows| == |t.rows|
    ensures r.Success? ==> forall i :: 0 <= i < |t.rows| ==> |r.value.rows[i]| == |t.rows[i]|
    ensures r.Success? ==> forall i, j :: 0 <= i < |t.rows| && 0 <= j < |t.rows[i]| ==>
      r.value.rows[i][j] == if IsPluginColumn(t.header, j) then MakeHyperlink(t.rows[i][j]) else t.rows[i][j]
  {
    match ColumnIndex(t.header, PluginId)
    case None => Failure(MissingColumn(PluginId))
    case Some(c) =>
      Success(Table(t.header, seq(|t.rows|, i requires 0 <= i < |t.rows| => LinkCell(t.rows[i], c))))
  }

  /** Every `Plugin ID` cell of `t` is free of double quotes. */
  predicate QuoteFreeIds(t: Table)
  {
    match ColumnIndex(t.header, PluginId)
    case None => true
    case Some(c) => forall i :: 0 <= i < |t.rows| && c < |t.rows[i]| ==> '"' !in t.rows[i][c]
  }

  /** The inverse of the rewrite: the display text of every `Plugin ID` cell. */
  function UnlinkPluginIds(t: Table): (r: Option<Table>)
  {
    match ColumnIndex(t.header, PluginId)
    case None => None
    case Some(c) =>
      if forall i :: 0 <= i < |t.rows| && c < |t.rows[i]| ==> DisplayText(t.rows[i][c]).Some? then
        Some(Table(t.header, seq(|t.rows|, i requires 0 <= i < |t.rows| =>
          if c < |t.rows[i]| then t.rows[i][c := DisplayText(t.rows[i][c]).value] else t.rows[i])))
      else None
  }

  /** The display texts of the rewritten table give back the table the CSV held. */
  lemma LinkPluginIdsRoundTrip(t: Table)
    requires PluginId in t.header && QuoteFreeIds(t)
    ensures LinkPluginIds(t).Success? && UnlinkPluginIds(LinkPluginIds(t).value) == Some(t)
  {
    var c := ColumnIndex(t.header, PluginId).value;
    var l := LinkPluginIds(t).value;
    assert ColumnIndex(l.header, PluginId) == Some(c);
    forall i | 0 <= i < |l.rows| && c < |l.rows[i]|
      ensures DisplayText(l.rows[i][c]) == Some(t.rows[i][c])
    {
      assert l.rows[i] == LinkCell(t.rows[i], c);
      HyperlinkRoundTrip(t.rows[i][c]);
    }
    var u := UnlinkPluginIds(l).value;
    assert |u.rows| == |t.rows|;
    forall i | 0 <= i < |t.rows| ensures u.rows[i] == t.rows[i] {
      assert l.rows[i] == LinkCell(t.rows[i], c);
      if c < |t.rows[i]| {
        assert u.rows[i] == l.rows[i][c := t.rows[i][c]];
      }
    }
    assert u.rows == t.rows;
  }

  /** A three-column scan row with plugin id 19506: only its `Plugin ID` cell becomes a hyperlink. */
  lemma ExampleScanRow()
    ensures LinkPluginIds(Table(["Plugin ID", "Host", "Severity"], [["19506", "10.0.0.5", "Info"]]))
      == Success(Table(["Plugin ID", "Host", "Severity"], [[MakeHyperlink("19506"), "10.0.0.5", "Info"]]))
  {
    var t := Table(["Plugin ID", "Host", "Severity"], [["19506", "10.0.0.5", "Info"]]);
    var r := LinkPluginIds(t).value;
    assert IsPluginColumn(t.header, 0) && !IsPluginColumn(t.header, 1) && !IsPluginColumn(t.header, 2);
    assert |r.rows| == 1 && |r.rows[0]| == 3;
    assert r.rows[0] == [MakeHyperlink("19506"), "10.0.0.5", "Info"];
    assert r.rows == [[MakeHyperlink("19506"), "10.0.0.5", "Info"]];
    assert r.header == ["Plugin ID", "Host", "Severity"];
    assert r == Table(["Plugin ID", "Host", "Severity"], [[MakeHyperlink("19506"), "10.0.0.5", "Info"]]);
  }
}
