/** Query evidence: scanning a cursor under a row limit and a byte budget, and saying when the rows
    are not all of them. */
module Pegasus {
  import opened Basics
  import opened Text
  import Sql

  const MAX_CELL_BYTES := 4096
  const ELLIPSIS: Bytes := [0xe2, 0x80, 0xa6]

  /** A cell is NULL or bytes. */
  datatype Row = Row(cells: seq<Option<Bytes>>) | Unreadable

  datatype Ended = Complete | TimedOut | Broke

  /** What a query yields: its rows in order, and how the cursor ends. */
  datatype Cursor = Cursor(rows: seq<Row>, end: Ended)

  datatype Item = Item(id: nat, fields: map<Bytes, Bytes>)

  datatype ScanError = ScanFailed | QueryTimeout | QueryFailed

  datatype Scan = Scan(items: seq<Item>, capped: bool)

  /** No later column has this one's name, so its cell is not written over. */
  predicate IsLast(columns: seq<Bytes>, j: nat)
    requires j < |columns|
  {
    forall k :: j < k < |columns| ==> columns[k] != columns[j]
  }

  /** What fields say of a row's cells: its columns and no others, each with its cell, which is cut and
      marked when it is over 4096 bytes, and blank when it is NULL. */
  ghost predicate Shows(columns: seq<Bytes>, cells: seq<Option<Bytes>>, fields: map<Bytes, Bytes>)
    requires |columns| == |cells|
  {
    && (forall name :: name in fields <==> name in columns)
    && forall j :: 0 <= j < |columns| && IsLast(columns, j) ==>
      match cells[j]
      case None => fields[columns[j]] == []
      case Some(cell) =>
        if |cell| <= 4096 then fields[columns[j]] == cell else fields[columns[j]] == cell[..4096] + [0xe2, 0x80, 0xa6]
  }

  /** The bytes a cell is shown in. */
  function ShownBytes(cell: Option<Bytes>): nat {
    if cell.None? then 0
    else if |cell.value| > MAX_CELL_BYTES then MAX_CELL_BYTES + |ELLIPSIS|
    else |cell.value|
  }

  function RowBytes(columns: seq<Bytes>, cells: seq<Option<Bytes>>): nat
    requires |columns| == |cells|
  {
    if columns == [] then 0
    else
      var last := |columns| - 1;
      RowBytes(columns[..last], cells[..last]) + |columns[last]| + ShownBytes(cells[last])
  }

  /** The bytes of each name and what is shown under it. */
  function Sizes(fields: map<Bytes, Bytes>): map<Bytes, int> {
    map name | name in fields :: |name| + |fields[name]|
  }

  lemma ShowsPrefix(columns: seq<Bytes>, cells: seq<Option<Bytes>>, fields: map<Bytes, Bytes>)
    requires |columns| == |cells| > 0 && Distinct(columns) && Shows(columns, cells, fields)
    ensures var n := |columns| - 1;
      && Distinct(columns[..n]) && columns[n] !in columns[..n] && columns[n] in fields
      && Shows(columns[..n], cells[..n], fields - {columns[n]})
      && |fields[columns[n]]| == ShownBytes(cells[n])
  {
    var n := |columns| - 1;
    assert IsLast(columns, n);
    forall j | 0 <= j < n
      ensures columns[..n][j] == columns[j] != columns[n] && IsLast(columns, j)
    {}
  }

  predicate Distinct(columns: seq<Bytes>) {
    forall i, j :: 0 <= i < j < |columns| ==> columns[i] != columns[j]
  }

  /** What a row spends of the budget is the bytes of the item that stands for it, names and values,
      when its columns have names of their own. */
  lemma {:induction false} RowBytesAreShown(columns: seq<Bytes>, cells: seq<Option<Bytes>>, fields: map<Bytes, Bytes>)
    requires |columns| == |cells| && Distinct(columns) && Shows(columns, cells, fields)
    ensures RowBytes(columns, cells) == Sum(Sizes(fields))
    decreases |columns|
  {
    if columns == [] {
      NothingShown(cells, fields);
    } else {
      var n := |columns| - 1;
      ShowsPrefix(columns, cells, fields);
      hide Shows, Sum, Distinct, ShownBytes, Sizes;
      RowBytesAreShown(columns[..n], cells[..n], fields - {columns[n]});
      SizesWithout(fields, columns[n]);
    }
  }

  lemma NothingShown(cells: seq<Option<Bytes>>, fields: map<Bytes, Bytes>)
    requires cells == [] && Shows([], cells, fields)
    ensures Sum(Sizes(fields)) == 0
  {
    assert Sizes(fields) == map[];
    SumNothing(Sizes(fields));
  }

  lemma SizesWithout(fields: map<Bytes, Bytes>, name: Bytes)
    requires name in fields
    ensures Sum(Sizes(fields)) == |name| + |fields[name]| + Sum(Sizes(fields - {name}))
  {
    SumRemove(Sizes(fields), name);
    assert Sizes(fields) - {name} == Sizes(fields - {name});
  }

  /** Every row that can be read has a cell for each column. */
  predicate Shaped(columns: seq<Bytes>, rows: seq<Row>) {
    forall i :: 0 <= i < |rows| && rows[i].Row? ==> |rows[i].cells| == |columns|
  }

  predicate Readable(rows: seq<Row>) {
    forall i :: 0 <= i < |rows| ==> rows[i].Row?
  }

  /** The bytes a run of rows spends of the budget. */
  function Spent(columns: seq<Bytes>, rows: seq<Row>): nat
    requires Shaped(columns, rows) && Readable(rows)
  {
    if rows == [] then 0
    else Spent(columns, rows[..|rows| - 1]) + RowBytes(columns, rows[|rows| - 1].cells)
  }

  lemma SpentNothing(columns: seq<Bytes>)
    ensures Spent(columns, []) == 0
  {}

  lemma SpentSnoc(columns: seq<Bytes>, rows: seq<Row>, i: nat)
    requires Shaped(columns, rows) && i < |rows| && Readable(rows[..i]) && rows[i].Row?
    ensures Spent(columns, rows[..i + 1]) == Spent(columns, rows[..i]) + RowBytes(columns, rows[i].cells)
  {
    assert rows[..i + 1][..i] == rows[..i];
  }

  /** Items stand for the first rows of the cursor, one each, numbered in order. */
  ghost predicate Represents(columns: seq<Bytes>, items: seq<Item>, rows: seq<Row>)
    requires Shaped(columns, rows)
  {
    && |items| <= |rows|
    && forall i :: 0 <= i < |items| ==>
      rows[i].Row? && items[i].id == i && Shows(columns, rows[i].cells, items[i].fields)
  }

  /** The bytes of all the items, names and values. */
  ghost function BytesShown(items: seq<Item>): int {
    if items == [] then 0 else BytesShown(items[..|items| - 1]) + Sum(Sizes(items[|items| - 1].fields))
  }

  /** So the budget is held against the bytes of the evidence itself. */
  lemma {:induction false} SpentIsShown(columns: seq<Bytes>, items: seq<Item>, rows: seq<Row>)
    requires Shaped(columns, rows) && Distinct(columns) && Represents(columns, items, rows)
    ensures Readable(rows[..|items|]) && Spent(columns, rows[..|items|]) == BytesShown(items)
    decreases |items|
  {
    hide Shows, Sum, Sizes, RowBytes;
    if items != [] {
      var n := |items| - 1;
      SpentIsShown(columns, items[..n], rows);
      RowBytesAreShown(columns, rows[n].cells, items[n].fields);
      SpentSnoc(columns, rows, n);
    }
  }

  method ReadRow(columns: seq<Bytes>, cells: seq<Option<Bytes>>) returns (fields: map<Bytes, Bytes>, size: nat)
    requires |columns| == |cells|
    ensures Shows(columns, cells, fields) && size == RowBytes(columns, cells)
  {
    fields, size := map[], 0;
    for i := 0 to |columns|
      invariant Shows(columns[..i], cells[..i], fields) && size == RowBytes(columns[..i], cells[..i])
    {
      hide Shows, RowBytes;
      var value := if cells[i].Some? then cells[i].value else [];
      if |value| > MAX_CELL_BYTES {
        value := value[..MAX_CELL_BYTES] + ELLIPSIS;
      }
      ShowsNext(columns, cells, i, fields, value);
      fields := fields[columns[i] := value];
      size := size + |columns[i]| + |value|;
    }
    assert columns[..|columns|] == columns && cells[..|cells|] == cells;
  }

  lemma ShowsNext(columns: seq<Bytes>, cells: seq<Option<Bytes>>, i: nat, fields: map<Bytes, Bytes>, value: Bytes)
    requires i < |columns| == |cells| && Shows(columns[..i], cells[..i], fields)
    requires value == match cells[i]
      case None => []
      case Some(cell) => if |cell| > MAX_CELL_BYTES then cell[..MAX_CELL_BYTES] + ELLIPSIS else cell
    ensures Shows(columns[..i + 1], cells[..i + 1], fields[columns[i] := value])
    ensures RowBytes(columns[..i + 1], cells[..i + 1]) == RowBytes(columns[..i], cells[..i]) + |columns[i]| + |value|
  {
    assert columns[..i + 1][..i] == columns[..i] && cells[..i + 1][..i] == cells[..i];
    forall j | 0 <= j < i && IsLast(columns[..i + 1], j)
      ensures IsLast(columns[..i], j) && columns[j] != columns[i]
    {
      assert columns[..i + 1][i] == columns[i];
      forall k | j < k < i
        ensures columns[..i][k] != columns[..i][j]
      {
        assert columns[..i + 1][k] != columns[..i + 1][j];
      }
    }
  }

  /** Stops at the row limit or once the budget is spent. The items stand for a prefix of the rows;
      the budget was not spent before the last of them; and the scan is capped exactly when the limit
      cut it off or the last row spent the budget. */
  method ScanRows(cursor: Cursor, columns: seq<Bytes>, maxRows: nat, maxBytes: nat) returns (r: Result<Scan, ScanError>)
    requires Shaped(columns, cursor.rows) && maxBytes > 0
    ensures r.Ok? ==>
      var n := |r.value.items|;
      && Represents(columns, r.value.items, cursor.rows) && n <= maxRows
      && (n > 0 ==> Spent(columns, cursor.rows[..n - 1]) < maxBytes)
      && (r.value.capped <==> (n == maxRows && n < |cursor.rows|) || Spent(columns, cursor.rows[..n]) >= maxBytes)
      && (!r.value.capped ==> n == |cursor.rows| && cursor.end.Complete?)
    ensures r.Err? ==> match r.error
      case ScanFailed => !Readable(cursor.rows)
      case QueryTimeout => cursor.end.TimedOut? && |cursor.rows| <= maxRows
      case QueryFailed => cursor.end.Broke? && |cursor.rows| <= maxRows
  {
    hide Spent, Shows, RowBytes;
    SpentNothing(columns);
    assert cursor.rows[..|cursor.rows|] == cursor.rows && cursor.rows[..0] == [];
    var items: seq<Item> := [];
    var totalBytes := 0;
    for i := 0 to |cursor.rows|
      invariant |items| == i <= maxRows
      invariant Represents(columns, items, cursor.rows)
      invariant totalBytes == Spent(columns, cursor.rows[..i]) < maxBytes
      invariant i > 0 ==> Spent(columns, cursor.rows[..i - 1]) < maxBytes
    {
      if |items| >= maxRows {
        return Ok(Scan(items, true));
      }
      if cursor.rows[i].Unreadable? {
        return Err(ScanFailed);
      }
      var fields, size := ReadRow(columns, cursor.rows[i].cells);
      SpentSnoc(columns, cursor.rows, i);
      totalBytes := totalBytes + size;
      items := items + [Item(|items|, fields)];
      if totalBytes >= maxBytes {
        return Ok(Scan(items, true));
      }
    }
    match cursor.end {
      case Complete => return Ok(Scan(items, false));
      case TimedOut => return Err(QueryTimeout);
      case Broke => return Err(QueryFailed);
    }
  }

  datatype QueryEvidence = QueryEvidence(
    items: seq<Item>, total: int, truncated: bool, columns: nat, rowLimit: Option<nat>)

  /** Runs a validated query's cursor; `counted` is what counting the same query's rows gave. When the
      count saw the rows the scan saw, evidence that is not marked truncated holds every row, and
      evidence is marked exactly when a row is missing or the budget is spent. */
  method Evidence(cursor: Cursor, columns: seq<Bytes>, configured: nat, requested: int, maxBytes: nat, counted: nat)
    returns (r: Result<QueryEvidence, ScanError>)
    requires Shaped(columns, cursor.rows) && maxBytes > 0
    ensures r.Ok? ==>
      && Represents(columns, r.value.items, cursor.rows)
      && var limit := if 0 < requested < configured then requested else configured;
        && |r.value.items| <= limit
        && r.value.rowLimit == (if r.value.truncated then Some(limit) else None)
        && r.value.total == counted && r.value.columns == |columns|
    ensures r.Ok? && counted == |cursor.rows| ==>
      && (!r.value.truncated ==> |r.value.items| == |cursor.rows|)
      && (r.value.truncated <==>
            |r.value.items| < |cursor.rows| || Spent(columns, cursor.rows[..|r.value.items|]) >= maxBytes)
  {
    var limit := configured;
    if requested > 0 && requested < limit {
      limit := requested;
    }
    var scan :- ScanRows(cursor, columns, limit, maxBytes);
    var truncated := scan.capped || counted > |scan.items|;
    return Ok(QueryEvidence(scan.items, counted, truncated, |columns|, if truncated then Some(limit) else None));
  }

  /** What the row count runs: the validated query's one statement, wrapped whole. Nothing in it can
      end the statement early. */
  function CountQuery(query: string): string {
    "SELECT COUNT(*) FROM (" + Sql.Statement(query) + ") AS sroiaaa_rowcount"
  }

  lemma CountQueryIsOneStatement(t: Runes, query: string)
    requires Sql.ValidateQuery(t, query).Ok?
    ensures ';' !in CountQuery(query)
    ensures CountQuery(TrimSpace(query)) == CountQuery(query)
  {
    Sql.ValidatedIsOneStatement(t, query);
    Sql.ValidationIgnoresPadding(t, query);
    assert ';' !in "SELECT COUNT(*) FROM (" && ';' !in ") AS sroiaaa_rowcount";
  }
}
