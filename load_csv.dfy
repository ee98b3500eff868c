/** `load_csv.py`: load the input table into a list of row dicts, each with its fixed address. */
module LoadCsv {
  import opened Wrappers
  import opened Cells
  import CommaText

  /** A pandas DataFrame as the loaders use it: its column labels and its rows in order. */
  datatype Frame = Frame(columns: seq<string>, rows: seq<Row>)

  const MissingAddressColumn: string := "Missing Address column in input data"
  const ConcatenationError: string := "can only concatenate str to str"

  /** `fix_address`: `address + ',' + county + ',' + country` evaluated left to right, wrapped in a
      one-element tuple by the expression's trailing comma. A missing column raises KeyError, a
      value that is not a string (such as NaN) raises TypeError. */
  function FixAddress(row: Row, addressColumn: string, countyColumn: string, country: string)
    : (r: Result<Cell, PyError>)
    ensures r.Ok? <==> (addressColumn in row && row[addressColumn].Str?
                        && countyColumn in row && row[countyColumn].Str?)
    ensures r.Ok? ==> r.value == Tuple([Str(CommaText.CommaJoin(
                        [row[addressColumn].text, row[countyColumn].text, country]))])
    ensures addressColumn !in row ==> r == Err(KeyError(addressColumn))
    ensures addressColumn in row && !row[addressColumn].Str? ==> r.Err? && r.error.TypeError?
    ensures addressColumn in row && row[addressColumn].Str? && countyColumn !in row
            ==> r == Err(KeyError(countyColumn))
    ensures addressColumn in row && row[addressColumn].Str? && countyColumn in row && !row[countyColumn].Str?
            ==> r.Err? && r.error.TypeError?
  {
    if addressColumn !in row then Err(KeyError(addressColumn))
    else if !row[addressColumn].Str? then Err(TypeError(ConcatenationError))
    else if countyColumn !in row then Err(KeyError(countyColumn))
    else if !row[countyColumn].Str? then Err(TypeError(ConcatenationError))
    else
      var joined := row[addressColumn].text + "," + row[countyColumn].text + "," + country;
      var parts := [row[addressColumn].text, row[countyColumn].text, country];
      assert parts[1..] == [row[countyColumn].text, country];
      assert CommaText.CommaJoin(parts[1..]) == row[countyColumn].text + "," + country;
      assert CommaText.CommaJoin(parts) == joined;
      Ok(Tuple([Str(joined)]))
  }

  /** The fixed address splits back on commas into address, county and country when none of them
      holds a comma. */
  lemma FixAddressRoundTrip(row: Row, addressColumn: string, countyColumn: string, country: string)
    requires FixAddress(row, addressColumn, countyColumn, country).Ok?
    requires ',' !in row[addressColumn].text && ',' !in row[countyColumn].text && ',' !in country
    ensures var fixed := FixAddress(row, addressColumn, countyColumn, country).value;
            fixed.Tuple? && |fixed.items| == 1 && fixed.items[0].Str?
            && CommaText.CommaSplit(fixed.items[0].text)
               == [row[addressColumn].text, row[countyColumn].text, country]
  {
    var parts := [row[addressColumn].text, row[countyColumn].text, country];
    assert CommaText.CommaFree(parts);
    CommaText.SplitJoin(parts);
  }

  /** One output entry: the row's columns, plus FIXED_ADDRESS when fix_address did not raise. */
  function LoadEntry(row: Row, addressColumn: string, countyColumn: string, country: string): (line: Row)
    ensures forall k :: k in row && k != FIXED_ADDRESS ==> k in line && line[k] == row[k]
    ensures var fixed := FixAddress(row, addressColumn, countyColumn, country);
            && (fixed.Ok? ==> line.Keys == row.Keys + {FIXED_ADDRESS} && line[FIXED_ADDRESS] == fixed.value)
            && (fixed.Err? ==> line == row)
  {
    match FixAddress(row, addressColumn, countyColumn, country)
    case Ok(fixed) => row[FIXED_ADDRESS := fixed]
    case Err(_) => row
  }

  /** `load_input`: ValueError unless the address column is present (the county column is not
      checked); otherwise one entry per row, in row order, none dropped. */
  method LoadInput(data: Frame, addressColumn: string, countyColumn: string, country: string)
    returns (r: Result<seq<Row>, PyError>)
    ensures r.Err? <==> addressColumn !in data.columns
    ensures r.Err? ==> r.error == ValueError(MissingAddressColumn)
    ensures r.Ok? ==> |r.value| == |data.rows|
    ensures r.Ok? ==> forall i :: 0 <= i < |data.rows|
                        ==> r.value[i] == LoadEntry(data.rows[i], addressColumn, countyColumn, country)
  {
    if addressColumn !in data.columns {
      return Err(ValueError(MissingAddressColumn));
    }
    var output: seq<Row> := [];
    var i := 0;
    while i < |data.rows|
      invariant 0 <= i <= |data.rows|
      invariant |output| == i
      invariant forall j :: 0 <= j < i ==> output[j] == LoadEntry(data.rows[j], addressColumn, countyColumn, country)
    {
      var rowSeries := data.rows[i];
      var line := rowSeries;
      match FixAddress(rowSeries, addressColumn, countyColumn, country) {
        case Ok(fixed) =>
          line := line[FIXED_ADDRESS := fixed];
        case Err(_) =>
          // "Could not load an address": the exception is swallowed and the line kept as it is
      }
      output := output + [line];
      i := i + 1;
    }
    return Ok(output);
  }

  /** With no county column in a row, that row never gets a fixed address from this loader. */
  lemma NoCountyNoFixedAddress(row: Row, addressColumn: string, countyColumn: string, country: string)
    requires countyColumn !in row
    ensures LoadEntry(row, addressColumn, countyColumn, country) == row
  {
  }
}
