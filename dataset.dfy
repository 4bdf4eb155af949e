/**
 * The product table and the cleaning done once at start-up (app.py:29-31):
 * each of `actual_price`, `ratings` and `no_of_ratings` is replaced by its
 * cleaner applied element-wise. pandas' `apply` builds the whole new column
 * first and the assignment then overwrites the old one, so a price that
 * `clean_price` rejects aborts the load before anything is written.
 */
module Dataset {
  import opened Wrappers
  import opened Cleaners

  /**
   * One CSV row. `name` and `image` are `None` where the cell is empty;
   * `rest` holds the columns the application never reads.
   */
  datatype Row = Row(
    name: Option<string>,
    image: Option<string>,
    ratings: Cell,
    noOfRatings: Cell,
    actualPrice: Cell,
    rest: seq<Cell>)

  /** The three columns the start-up code rewrites. */
  datatype Column = ActualPrice | Ratings | NoOfRatings

  function CellAt(r: Row, col: Column): Cell {
    match col
    case ActualPrice => r.actualPrice
    case Ratings => r.ratings
    case NoOfRatings => r.noOfRatings
  }

  /** `r` with the cell in `col` replaced by `c`; every other column kept. */
  function WithCell(r: Row, col: Column, c: Cell): (r': Row)
    ensures CellAt(r', col) == c
    ensures forall other :: other != col ==> CellAt(r', other) == CellAt(r, other)
    ensures r'.name == r.name && r'.image == r.image && r'.rest == r.rest
  {
    match col
    case ActualPrice => r.(actualPrice := c)
    case Ratings => r.(ratings := c)
    case NoOfRatings => r.(noOfRatings := c)
  }

  /** After cleaning, the three numeric columns hold numbers. */
  predicate Cleaned(r: Row) {
    r.ratings.Num? && r.noOfRatings.Num? && r.actualPrice.Num?
  }

  // ---------------------------------------------------------------------
  // The column-wise specification of lines 29-31.

  /** `data['actual_price'].apply(clean_price)`: the new column, or `None` if some price raises. */
  function PriceColumn(rows: seq<Row>): Option<seq<real>> {
    if forall i :: 0 <= i < |rows| ==> CleanPrice(rows[i].actualPrice).Some? then
      Some(seq(|rows|, i requires 0 <= i < |rows| => CleanPrice(rows[i].actualPrice).value))
    else
      None
  }

  /** `data[col].apply(clean_ratings)`. */
  function RatingsColumn(rows: seq<Row>, col: Column): seq<real> {
    seq(|rows|, i requires 0 <= i < |rows| => CleanRatings(CellAt(rows[i], col)))
  }

  /** `data[col] = values`. */
  function Assign(rows: seq<Row>, col: Column, values: seq<real>): seq<Row>
    requires |values| == |rows|
  {
    seq(|rows|, i requires 0 <= i < |rows| => WithCell(rows[i], col, Num(values[i])))
  }

  /** The three statements of lines 29-31 in order; `None` when line 29 raises. */
  function CleanTable(rows: seq<Row>): Option<seq<Row>> {
    match PriceColumn(rows)
    case None => None
    case Some(prices) =>
      var t1 := Assign(rows, ActualPrice, prices);
      var t2 := Assign(t1, Ratings, RatingsColumn(t1, Ratings));
      Some(Assign(t2, NoOfRatings, RatingsColumn(t2, NoOfRatings)))
  }

  /** One row as the cleaning leaves it, read row by row instead of column by column. */
  function CleanRow(r: Row): Option<Row> {
    match CleanPrice(r.actualPrice)
    case None => None
    case Some(p) =>
      Some(Row(r.name, r.image, Num(CleanRatings(r.ratings)), Num(CleanRatings(r.noOfRatings)), Num(p), r.rest))
  }

  /**
   * Column cleaning fails exactly when some price does not parse; otherwise
   * it keeps the number and order of rows, cleans each row's three numeric
   * cells with their own cleaner and leaves every other column unchanged.
   */
  lemma CleanTableRowwise(rows: seq<Row>)
    ensures CleanTable(rows).Some? <==> forall i :: 0 <= i < |rows| ==> CleanRow(rows[i]).Some?
    ensures CleanTable(rows).Some? ==>
              && |CleanTable(rows).value| == |rows|
              && forall i :: 0 <= i < |rows| ==> CleanTable(rows).value[i] == CleanRow(rows[i]).value
  {
    if CleanTable(rows).Some? {
      var t := CleanTable(rows).value;
      forall i | 0 <= i < |rows|
        ensures t[i] == CleanRow(rows[i]).value
      {
      }
    } else {
      var i :| 0 <= i < |rows| && CleanPrice(rows[i].actualPrice).None?;
      assert CleanRow(rows[i]).None?;
    }
  }

  /** Every row of a cleaned table holds numbers in its three numeric columns. */
  lemma CleanTableCleaned(rows: seq<Row>)
    requires CleanTable(rows).Some?
    ensures forall i :: 0 <= i < |CleanTable(rows).value| ==> Cleaned(CleanTable(rows).value[i])
  {
    CleanTableRowwise(rows);
  }

  /** Running the cleaning a second time changes nothing. */
  lemma CleanTableIdempotent(rows: seq<Row>)
    requires CleanTable(rows).Some?
    ensures CleanTable(CleanTable(rows).value) == CleanTable(rows)
  {
    var t := CleanTable(rows).value;
    CleanTableRowwise(rows);
    CleanTableRowwise(t);
    assert CleanTable(t).Some?;
    assert CleanTable(t).value == t;
  }

  // ---------------------------------------------------------------------
  // Lines 29-31 as the program runs them, on the table held in memory.

  /** `data['actual_price'].apply(clean_price)`: stops at the first price that raises. */
  method ApplyCleanPrice(table: array<Row>) returns (column: Option<seq<real>>)
    ensures column == PriceColumn(table[..])
  {
    var values: seq<real> := [];
    var i := 0;
    while i < table.Length
      invariant 0 <= i <= table.Length
      invariant |values| == i
      invariant forall j :: 0 <= j < i ==> CleanPrice(table[j].actualPrice) == Some(values[j])
    {
      var cleaned := CleanPrice(table[i].actualPrice);
      if cleaned.None? {
        assert CleanPrice(table[..][i].actualPrice).None?;
        return None;
      }
      values := values + [cleaned.value];
      i := i + 1;
    }
    var rows := table[..];
    assert forall j :: 0 <= j < |rows| ==> CleanPrice(rows[j].actualPrice) == Some(values[j]);
    assert values == seq(|rows|, j requires 0 <= j < |rows| => CleanPrice(rows[j].actualPrice).value);
    column := Some(values);
  }

  /** `data[col].apply(clean_ratings)`: never raises. */
  method ApplyCleanRatings(table: array<Row>, col: Column) returns (column: seq<real>)
    ensures column == RatingsColumn(table[..], col)
  {
    column := [];
    var i := 0;
    while i < table.Length
      invariant 0 <= i <= table.Length
      invariant column == RatingsColumn(table[..i], col)
    {
      assert table[..i + 1] == table[..i] + [table[i]];
      column := column + [CleanRatings(CellAt(table[i], col))];
      i := i + 1;
    }
    assert table[..i] == table[..];
  }

  /** `data[col] = values`: overwrites one column, row by row. */
  method AssignColumn(table: array<Row>, col: Column, values: seq<real>)
    requires |values| == table.Length
    modifies table
    ensures table[..] == Assign(old(table[..]), col, values)
  {
    var i := 0;
    while i < table.Length
      invariant 0 <= i <= table.Length
      invariant forall j :: 0 <= j < i ==> table[j] == WithCell(old(table[j]), col, Num(values[j]))
      invariant forall j :: i <= j < table.Length ==> table[j] == old(table[j])
    {
      table[i] := WithCell(table[i], col, Num(values[i]));
      i := i + 1;
    }
  }

  /**
   * Lines 29-31. `ok` is false when some price raises; the table is then
   * left as it was, since the failing `apply` never reaches its assignment.
   */
  method CleanColumns(table: array<Row>) returns (ok: bool)
    modifies table
    ensures ok == CleanTable(old(table[..])).Some?
    ensures ok ==> table[..] == CleanTable(old(table[..])).value
    ensures !ok ==> table[..] == old(table[..])
  {
    var prices := ApplyCleanPrice(table);
    if prices.None? {
      return false;
    }
    AssignColumn(table, ActualPrice, prices.value);
    var ratings := ApplyCleanRatings(table, Ratings);
    AssignColumn(table, Ratings, ratings);
    var counts := ApplyCleanRatings(table, NoOfRatings);
    AssignColumn(table, NoOfRatings, counts);
    ok := true;
  }
}
