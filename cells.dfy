/** Cell values of a pandas table, rows as column-to-cell maps, and the errors Python raises on them. */
module Cells {

  /** One table cell as the batch scripts see it. */
  datatype Cell =
    | Missing              // Python None: a key that is absent, or a None value
    | NaN                  // pandas' marker for an empty field of the CSV
    | Str(text: string)
    | Num(number: int)     // a numeric cell; its exact float value plays no part here
    | Tuple(items: seq<Cell>)

  /** A row (a pandas row read into a dict): column name to cell. */
  type Row = map<string, Cell>

  /** The two column names the scripts add to the input table. */
  const GEOCODE: string := "GEOCODE"
  const FIXED_ADDRESS: string := "FIXED_ADDRESS"

  /** The `empty_cells` collection the runner tests membership in: absent, NaN or the empty string. */
  function IsEmpty(c: Cell): (empty: bool)
    ensures c.Str? ==> (empty <==> |c.text| == 0)
    ensures c.Num? || c.Tuple? ==> !empty
    ensures c.Missing? || c.NaN? ==> empty
  {
    c.Missing? || c.NaN? || c == Str("")
  }

  /** `row.get(column, None)`. */
  function Get(row: Row, column: string): (c: Cell)
    ensures column in row ==> c == row[column]
    ensures column !in row ==> IsEmpty(c)
  {
    if column in row then row[column] else Missing
  }

  /** The Python exceptions the modelled code raises. */
  datatype PyError =
    | KeyError(key: string)
    | TypeError(message: string)
    | ValueError(message: string)
}
