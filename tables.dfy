/** Astropy tables and rows as the cone search sees them, their conversion to
    JSON records (`row_to_json`, `table_to_json`), and the in-place column
    assignment `tab[name] = column` the catsHTM handlers perform. */
module Tables {
  import opened Prelude
  import opened OrderedDict
  import opened Json

  /** An astropy Row: its values, with the column names of its table. */
  datatype Row = Row(columns: seq<string>, values: seq<Value>)

  /** An astropy Table as a value: column names, and the rows in iteration order. */
  datatype TableData = TableData(columns: seq<string>, rows: seq<seq<Value>>)

  /** Python truth value of a Row (its length is its number of columns). */
  predicate RowTruthy(r: Row)
  {
    |r.columns| > 0
  }

  /** Python truth value of a Table (its length is its number of rows). */
  predicate TableTruthy(t: TableData)
  {
    |t.rows| > 0
  }

  /** Every row has one value per column. */
  predicate Rectangular(t: TableData)
  {
    forall i :: 0 <= i < |t.rows| ==> |t.rows[i]| == |t.columns|
  }

  predicate Distinct(s: seq<string>)
  {
    forall i, j :: 0 <= i < j < |s| ==> s[i] != s[j]
  }

  /** `{k: sanitize_json(v) for k, v in zip(keys, values)}` */
  function Record(keys: seq<string>, values: seq<Value>): Dict<Value>
  {
    var ps := Zip(keys, values);
    seq(|ps|, i requires 0 <= i < |ps| => (ps[i].0, Sanitize(ps[i].1)))
  }

  /** A record pairs the keys with the values positionally, truncated to the
      shorter of the two; every value is sanitized, so none is NaN; and with
      distinct keys each key looks up its own sanitized value. */
  lemma RecordSpec(keys: seq<string>, values: seq<Value>)
    ensures Keys(Record(keys, values)) == keys[..Min(|keys|, |values|)]
    ensures forall i :: 0 <= i < |Record(keys, values)| ==>
      Record(keys, values)[i].1 == Sanitize(values[i]) && NoNaN(Record(keys, values)[i].1)
    ensures Distinct(keys) ==> DistinctKeys(Record(keys, values))
    ensures Distinct(keys) ==>
      forall j :: 0 <= j < Min(|keys|, |values|) ==> Get(Record(keys, values), keys[j]) == Some(Sanitize(values[j]))
  {
    var r := Record(keys, values);
    forall i | 0 <= i < |r| ensures NoNaN(r[i].1) {
      SanitizeNoNaN(values[i]);
    }
    if Distinct(keys) {
      forall j | 0 <= j < Min(|keys|, |values|) ensures Get(r, keys[j]) == Some(Sanitize(values[j])) {
        GetAt(r, j);
      }
    }
  }

  /** row_to_json */
  function RowToJson(row: Option<Row>): Option<Dict<Value>>
  {
    match row
    case None => None
    case Some(r) => Some(Record(r.columns, r.values))
  }

  /** No row gives no record; otherwise the record pairs the row's column names
      with its sanitized values, positionally. */
  lemma RowToJsonSpec(row: Option<Row>)
    ensures row.None? <==> RowToJson(row).None?
    ensures row.Some? ==>
      var r := row.value;
      && Keys(RowToJson(row).value) == r.columns[..Min(|r.columns|, |r.values|)]
      && forall i :: 0 <= i < |RowToJson(row).value| ==> RowToJson(row).value[i].1 == Sanitize(r.values[i])
  {
    if row.Some? {
      RecordSpec(row.value.columns, row.value.values);
    }
  }

  /** numpy's conversion of one value of a row, given the whole row: promote(row, v). */
  type Promotion = (seq<Value>, Value) -> Value

  /** `np.asarray(row).tolist()` of a row tuple from `iterrows`: numpy gives the
      tuple one dtype common to all its values and converts each value to it,
      so next to a string a NaN can become the string `'nan'`. */
  function AsList(promote: Promotion, row: seq<Value>): seq<Value>
  {
    seq(|row|, j requires 0 <= j < |row| => promote(row, row[j]))
  }

  /** table_to_json */
  function TableToJson(table: Option<TableData>, promote: Promotion): Option<seq<Dict<Value>>>
  {
    match table
    case None => None
    case Some(t) => Some(seq(|t.rows|, i requires 0 <= i < |t.rows| => Record(t.columns, AsList(promote, t.rows[i]))))
  }

  /** No table gives no records; otherwise there is one record per row, in
      iteration order, pairing the table's column names with the row's values
      as numpy converts them, sanitized and free of NaN. When numpy changes no
      value, each record is the row_to_json of its row. */
  lemma TableToJsonSpec(table: Option<TableData>, promote: Promotion)
    ensures table.None? <==> TableToJson(table, promote).None?
    ensures table.Some? ==> |TableToJson(table, promote).value| == |table.value.rows|
    ensures table.Some? ==> forall i :: 0 <= i < |table.value.rows| ==>
      && |AsList(promote, table.value.rows[i])| == |table.value.rows[i]|
      && (forall j :: 0 <= j < |table.value.rows[i]| ==>
            AsList(promote, table.value.rows[i])[j] == promote(table.value.rows[i], table.value.rows[i][j]))
      && TableToJson(table, promote).value[i] == Record(table.value.columns, AsList(promote, table.value.rows[i]))
      && forall j :: 0 <= j < |TableToJson(table, promote).value[i]| ==> NoNaN(TableToJson(table, promote).value[i][j].1)
    ensures table.Some? && Rectangular(table.value) ==> forall i :: 0 <= i < |table.value.rows| ==>
      Keys(TableToJson(table, promote).value[i]) == table.value.columns
    ensures table.Some? && (forall r, v :: promote(r, v) == v) ==> forall i :: 0 <= i < |table.value.rows| ==>
      TableToJson(table, promote).value[i] == RowToJson(Some(Row(table.value.columns, table.value.rows[i]))).value
  {
    if table.Some? {
      var t := table.value;
      forall i | 0 <= i < |t.rows|
        ensures Keys(TableToJson(table, promote).value[i]) == t.columns[..Min(|t.columns|, |t.rows[i]|)]
        ensures forall j :: 0 <= j < |TableToJson(table, promote).value[i]| ==> NoNaN(TableToJson(table, promote).value[i][j].1)
      {
        RecordSpec(t.columns, AsList(promote, t.rows[i]));
      }
      if Rectangular(t) {
        forall i | 0 <= i < |t.rows| ensures Keys(TableToJson(table, promote).value[i]) == t.columns {
          assert t.columns[..|t.columns|] == t.columns;
        }
      }
      if forall r, v :: promote(r, v) == v {
        forall i | 0 <= i < |t.rows| ensures AsList(promote, t.rows[i]) == t.rows[i] {
        }
      }
    }
  }

  /** The first position of x in s. */
  function IndexOf(s: seq<string>, x: string): (j: nat)
    requires x in s
    ensures j < |s| && s[j] == x && forall k :: 0 <= k < j ==> s[k] != x
  {
    if s[0] == x then 0 else 1 + IndexOf(s[1..], x)
  }

  lemma {:induction false} IndexOfAppend(s: seq<string>, s': seq<string>, x: string)
    requires x in s
    ensures IndexOf(s + s', x) == IndexOf(s, x)
  {
    if s[0] != x {
      assert (s + s')[1..] == s[1..] + s';
      IndexOfAppend(s[1..], s', x);
    }
  }

  /** `tab[name]`: the values of one column. */
  function ColumnNamed(t: TableData, name: string): seq<Value>
    requires Rectangular(t) && name in t.columns
  {
    var j := IndexOf(t.columns, name);
    seq(|t.rows|, i requires 0 <= i < |t.rows| => t.rows[i][j])
  }

  /** The table after `tab[name] = col`: an existing column is replaced in its
      position, a new one is added after the others. */
  function WithColumn(t: TableData, name: string, col: seq<Value>): (r: TableData)
    requires Rectangular(t) && |col| == |t.rows|
  {
    if name in t.columns then
      var j := IndexOf(t.columns, name);
      TableData(t.columns, seq(|t.rows|, i requires 0 <= i < |t.rows| => t.rows[i][j := col[i]]))
    else
      TableData(t.columns + [name], seq(|t.rows|, i requires 0 <= i < |t.rows| => t.rows[i] + [col[i]]))
  }

  /** After `tab[name] = col` the table has the same rows, keeps its columns in
      place and gains `name` if it was new; column `name` holds col and every
      other column is unchanged. */
  lemma WithColumnSpec(t: TableData, name: string, col: seq<Value>)
    requires Rectangular(t) && |col| == |t.rows|
    ensures Rectangular(WithColumn(t, name, col))
    ensures |WithColumn(t, name, col).rows| == |t.rows|
    ensures WithColumn(t, name, col).columns == if name in t.columns then t.columns else t.columns + [name]
    ensures ColumnNamed(WithColumn(t, name, col), name) == col
    ensures forall c :: c in t.columns && c != name ==> ColumnNamed(WithColumn(t, name, col), c) == ColumnNamed(t, c)
    ensures Distinct(t.columns) ==> Distinct(WithColumn(t, name, col).columns)
  {
    var r := WithColumn(t, name, col);
    forall c | c in t.columns && c != name
      ensures ColumnNamed(r, c) == ColumnNamed(t, c)
    {
      if name !in t.columns {
        IndexOfAppend(t.columns, [name], c);
      }
    }
  }

  /** Two assignments `tab[a] = ca` then `tab[b] = cb` to different names. */
  lemma WithTwoColumnsSpec(t: TableData, a: string, ca: seq<Value>, b: string, cb: seq<Value>)
    requires Rectangular(t) && |ca| == |t.rows| && |cb| == |t.rows| && a != b
    ensures Rectangular(WithColumn(t, a, ca))
    ensures var r := WithColumn(WithColumn(t, a, ca), b, cb);
      && Rectangular(r)
      && |r.rows| == |t.rows|
      && r.columns == t.columns + (if a in t.columns then [] else [a]) + (if b in t.columns then [] else [b])
      && (Distinct(t.columns) ==> Distinct(r.columns))
      && ColumnNamed(r, a) == ca
      && ColumnNamed(r, b) == cb
      && forall c :: c in t.columns && c != a && c != b ==> ColumnNamed(r, c) == ColumnNamed(t, c)
  {
    WithColumnSpec(t, a, ca);
    var t1 := WithColumn(t, a, ca);
    WithColumnSpec(t1, b, cb);
    assert b in t1.columns <==> b in t.columns;
  }

  /** An astropy Table object, which the catsHTM handlers change in place.
      Like astropy, it stores its data column by column. */
  class Table {
    var names: seq<string>
    var cols: seq<seq<Value>>
    const height: nat

    ghost predicate Valid()
      reads this
    {
      |cols| == |names| && forall j :: 0 <= j < |cols| ==> |cols[j]| == height
    }

    /** The table's current contents, row by row. */
    function Snapshot(): (t: TableData)
      reads this
      requires Valid()
      ensures Rectangular(t) && |t.rows| == height && t.columns == names
    {
      var ns, cs := names, cols;
      TableData(ns, seq(height, i requires 0 <= i < height => seq(|ns|, j requires 0 <= j < |ns| => cs[j][i])))
    }

    /** `Table(np.asarray(srcs), names=colnames)` */
    constructor FromRows(colnames: seq<string>, rows: seq<seq<Value>>)
      requires Rectangular(TableData(colnames, rows))
      ensures Valid() && Snapshot() == TableData(colnames, rows)
    {
      names := colnames;
      cols := seq(|colnames|, j requires 0 <= j < |colnames| =>
        seq(|rows|, i requires 0 <= i < |rows| => rows[i][j]));
      height := |rows|;
      new;
      forall i | 0 <= i < |rows| ensures Snapshot().rows[i] == rows[i] {
        assert forall j :: 0 <= j < |colnames| ==> Snapshot().rows[i][j] == cols[j][i] == rows[i][j];
      }
    }

    /** `tab[name]` */
    function Column(name: string): (c: seq<Value>)
      reads this
      requires Valid() && name in names
      ensures c == ColumnNamed(Snapshot(), name)
    {
      cols[IndexOf(names, name)]
    }

    /** `tab[name] = col` */
    method SetColumn(name: string, col: seq<Value>)
      requires Valid() && |col| == height
      modifies this
      ensures Valid()
      ensures Snapshot() == WithColumn(old(Snapshot()), name, col)
    {
      ghost var before := Snapshot();
      if name in names {
        var j := IndexOf(names, name);
        cols := cols[j := col];
      } else {
        names := names + [name];
        cols := cols + [col];
      }
      ghost var after := WithColumn(before, name, col);
      forall i | 0 <= i < height ensures Snapshot().rows[i] == after.rows[i] {
        assert forall j :: 0 <= j < |names| ==> Snapshot().rows[i][j] == after.rows[i][j];
      }
    }
  }
}
