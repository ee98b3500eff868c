/** `geo_csv.py`: the loader the batch runner imports. Its per-column loop refers to a name that is
    never bound, so every iteration raises and the exception is swallowed. */
module GeoCsv {
  import opened Wrappers
  import opened Cells
  import LoadCsv

  /** `load_input`: ValueError when the address column is absent; otherwise the table comes back
      exactly as it was read, with no FIXED_ADDRESS column added. */
  method LoadInput(data: LoadCsv.Frame, addressColumn: string, countyColumn: string, country: string)
    returns (r: Result<LoadCsv.Frame, PyError>)
    ensures r.Err? <==> addressColumn !in data.columns
    ensures r.Err? ==> r.error == ValueError(LoadCsv.MissingAddressColumn)
    ensures r.Ok? ==> r.value == data
  {
    if addressColumn !in data.columns {
      return Err(ValueError(LoadCsv.MissingAddressColumn));
    }
    // Iterating over a DataFrame yields its column labels. The loop statement
    // `row[FIXED_ADDRESS] = fix_address(row_series, ...)` evaluates its right-hand side first, and
    // the name `row_series` is bound nowhere in the function, so every iteration raises NameError
    // (were it bound, item assignment on the string label `row` would raise TypeError). The
    // `except Exception: pass` swallows it, so no iteration changes anything.
    var i := 0;
    while i < |data.columns|
      invariant 0 <= i <= |data.columns|
    {
      i := i + 1;
    }
    return Ok(data);
  }

  /** `fix_address`, the same expression as load_csv.py's. */
  function FixAddress(row: Row, addressColumn: string, countyColumn: string, country: string)
    : (r: Result<Cell, PyError>)
    ensures r == LoadCsv.FixAddress(row, addressColumn, countyColumn, country)
  {
    if addressColumn !in row then Err(KeyError(addressColumn))
    else if !row[addressColumn].Str? then Err(TypeError(LoadCsv.ConcatenationError))
    else if countyColumn !in row then Err(KeyError(countyColumn))
    else if !row[countyColumn].Str? then Err(TypeError(LoadCsv.ConcatenationError))
    else Ok(Tuple([Str(row[addressColumn].text + "," + row[countyColumn].text + "," + country)]))
  }
}
