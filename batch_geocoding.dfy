/** `python_batch_geocoding.py`: the sequential batch runner. It walks the table row by row, skips
    rows that already carry a geocode, asks the geocoder for the others, stores the formatted
    address in place, writes the table out at a fixed cadence and after every failure, and pauses
    after each failure for a time chosen from a list of failure times. */
module BatchGeocoding {
  import opened Wrappers
  import opened Cells
  import Google

  // ---------------------------------------------------------------------------
  // The output file

  const ResultsPrefix: string := "data/results_"

  /** `'data/results_{}'.format(input_filename)`. */
  function OutputPath(inputFilename: string): (path: string)
    ensures |path| == |ResultsPrefix| + |inputFilename|
    ensures path[..|ResultsPrefix|] == ResultsPrefix && path[|ResultsPrefix|..] == inputFilename
  {
    ResultsPrefix + inputFilename
  }

  /** Different inputs never share a results file, and the results never overwrite the input. */
  lemma OutputPathSeparatesRuns(a: string, b: string)
    ensures OutputPath(a) == OutputPath(b) ==> a == b
    ensures OutputPath(a) != a
  {
  }

  // ---------------------------------------------------------------------------
  // assess_failures

  /** The pause `assess_failures` takes. */
  datatype Break = OneMinute | FiveSeconds
  {
    function Seconds(): nat
    {
      if OneMinute? then 60 else 5
    }
  }

  /** `timedelta(minutes=1)`, in the integer seconds the clock is modelled in. */
  const Minute: int := 60

  /** The module-level list `last_3_failures`, shared by every call of `assess_failures`. */
  class FailureList {
    var items: seq<int>

    constructor ()
      ensures items == []
    {
      items := [];
    }
  }

  /** Python's `s[lo:hi]` for 0 <= lo: both bounds are clamped to the length. */
  function Slice(s: seq<int>, lo: nat, hi: nat): (r: seq<int>)
    ensures lo <= hi <= |s| ==> r == s[lo..hi]
    ensures hi <= lo || |s| <= lo ==> r == []
    ensures lo <= |s| < hi ==> r == s[lo..]
  {
    var h := if hi <= |s| then hi else |s|;
    var l := if lo <= h then lo else h;
    s[l..h]
  }

  /** The local `recent_failures` after line 76: everything when there is one entry, otherwise
      entries 1 to 3 of the (already appended) list. */
  function Retained(failures: seq<int>): (r: seq<int>)
    ensures |failures| >= 1 ==> 1 <= |r| <= 3
  {
    if |failures| > 1 then Slice(failures, 1, 4) else failures
  }

  /** The break chosen for a failure at `now`, given the list after `now` was appended: one minute
      when the oldest retained entry is more than a minute before `now`. */
  function ChooseBreak(failures: seq<int>, now: int): (pause: Break)
    requires |failures| >= 1
    ensures pause == OneMinute <==> failures[if |failures| == 1 then 0 else 1] < now - Minute
  {
    if Retained(failures)[0] < now - Minute then OneMinute else FiveSeconds
  }

  /** `assess_failures(recent_failures)` at time `now`: the caller's list grows by `now`, the
      slice rebinds only the local name, and the break is chosen from the retained entries. */
  method AssessFailures(recentFailures: FailureList, now: int) returns (pause: Break)
    modifies recentFailures
    ensures recentFailures.items == old(recentFailures.items) + [now]
    ensures pause == ChooseBreak(recentFailures.items, now)
  {
    recentFailures.items := recentFailures.items + [now];
    var recent := recentFailures.items;
    if |recent| > 1 {
      recent := Slice(recent, 1, 4);
    }
    if recent[0] < now - Minute {
      pause := OneMinute;
    } else {
      pause := FiveSeconds;
    }
  }

  /** Because the shared list is never shortened, the break is decided by the second failure ever
      recorded: the first two failures always take the short break, and every later one takes the
      long break exactly when that second failure is more than a minute old. */
  lemma BreakDecidedBySecondFailure(earlier: seq<int>, now: int)
    ensures ChooseBreak(earlier + [now], now)
            == if |earlier| >= 2 && earlier[1] < now - Minute then OneMinute else FiveSeconds
  {
  }

  /** From the fourth failure on, the retained window is always the second to fourth failure ever
      recorded; later failure times, `now` included, never enter it. */
  lemma WindowFrozenAfterFourthFailure(failures: seq<int>, later: seq<int>)
    requires |failures| >= 4
    ensures Retained(failures + later) == Retained(failures) == failures[1..4]
  {
  }

  /** Four failures ten seconds apart take the short break, while a fourth failure ninety seconds
      after the first takes the long one. What counts is the age of the second failure ever: a
      burst long after it takes the long break, and a second failure long after the first still
      takes the short one. */
  lemma BackoffScenarios(t: int)
    ensures ChooseBreak([t, t + 10, t + 20, t + 30], t + 30).Seconds() == 5
    ensures ChooseBreak([t, t + 10, t + 20, t + 90], t + 90).Seconds() == 60
    ensures ChooseBreak([t, t + 10, t + 1000, t + 1001, t + 1002], t + 1002).Seconds() == 60
    ensures ChooseBreak([t, t + 100], t + 100).Seconds() == 5
  {
  }

  // ---------------------------------------------------------------------------
  // One geocoder call

  /** How the try block of the runner ends for one call. */
  datatype CallOutcome = Answered(formattedAddress: Cell) | OverLimit | OtherError

  function OptionalText(s: Option<string>): Cell
  {
    if s.Some? then Str(s.value) else Missing
  }

  /** `get_google_result(address, api_key=None, return_full_response=False)['formatted_address']`,
      with the exception it may raise. */
  function CallGeocoder(address: Cell, fetch: Google.Fetch): (c: CallOutcome)
    ensures c.OtherError? <==> fetch.RequestFailed?
    ensures c.OverLimit? <==> fetch.Fetched? && fetch.response.status == Google.OverQueryLimitStatus
    ensures c.Answered? && |fetch.response.results| == 0 ==> c.formattedAddress == Missing
    ensures c.Answered? && |fetch.response.results| > 0
            ==> c.formattedAddress == OptionalText(fetch.response.results[0].formattedAddress)
  {
    match fetch
    case RequestFailed => OtherError
    case Fetched(response) =>
      match Google.GetGoogleResult(address, false, response)
      case Raise(_) => OverLimit
      case Output(record) => Answered(OptionalText(record.formattedAddress))
  }

  // ---------------------------------------------------------------------------
  // The row loop, as a function of the initial state

  /** What the runner records: a geocoder call, a write of the whole table to the results file,
      and a pause. Each carries the row index at which it happened. */
  datatype Event =
    | Call(index: nat, address: Cell)
    | Write(index: nat, path: string, snapshot: seq<Row>)
    | Pause(index: nat, pause: Break)

  /** The table, the shared failure list and the events so far. */
  datatype State = State(rows: seq<Row>, failures: seq<int>, trace: seq<Event>)

  /** How the loop handles one row. */
  datatype RowKind = AlreadyGeocoded | NoAddress | Resolved(formatted: Cell) | Failed

  /** The provider's answer to the call made for row `i`, and the clock reading when that row's
      failure is assessed. */
  type Provider = (nat, Cell) -> Google.Fetch
  type Clock = nat -> int

  /** How the loop handles a row: skipped when it has a geocode, skipped when it has no address,
      otherwise resolved by the answer for its address or failed when the call raises. */
  function Kind(row: Row, i: nat, provider: Provider): (kind: RowKind)
    ensures kind.AlreadyGeocoded? <==> !IsEmpty(Get(row, GEOCODE))
    ensures kind.NoAddress? <==> IsEmpty(Get(row, GEOCODE)) && IsEmpty(Get(row, FIXED_ADDRESS))
    ensures var fetch := provider(i, Get(row, FIXED_ADDRESS));
            kind.Failed? <==> IsEmpty(Get(row, GEOCODE)) && !IsEmpty(Get(row, FIXED_ADDRESS))
                              && (fetch.RequestFailed? || fetch.response.status == Google.OverQueryLimitStatus)
    ensures var fetch := provider(i, Get(row, FIXED_ADDRESS));
            kind.Resolved? ==> fetch.Fetched? && kind.formatted
                               == if |fetch.response.results| == 0 then Missing
                                  else OptionalText(fetch.response.results[0].formattedAddress)
  {
    if !IsEmpty(Get(row, GEOCODE)) then AlreadyGeocoded
    else if IsEmpty(Get(row, FIXED_ADDRESS)) then NoAddress
    else
      var address := Get(row, FIXED_ADDRESS);
      match CallGeocoder(address, provider(i, address))
      case Answered(formatted) => Resolved(formatted)
      case OverLimit => Failed
      case OtherError => Failed
  }

  /** A row as the loop leaves it: only a resolved row changes, and only in its GEOCODE cell. */
  function FinalRow(row: Row, kind: RowKind): Row
  {
    if kind.Resolved? then row[GEOCODE := kind.formatted] else row
  }

  /** The cadence of partial writes: after a success at an index that is a positive multiple of 10. */
  predicate IsCheckpointIndex(i: nat)
  {
    i > 0 && i % 10 == 0
  }

  /** The table after the iteration for row `i`: that row as its kind dictates, the others as
      they were. */
  function StepRows(s: State, i: nat, provider: Provider): seq<Row>
    requires i < |s.rows|
  {
    s.rows[i := FinalRow(s.rows[i], Kind(s.rows[i], i, provider))]
  }

  /** The shared failure list after the iteration for row `i`. */
  function StepFailures(s: State, i: nat, provider: Provider, clock: Clock): seq<int>
    requires i < |s.rows|
  {
    if Kind(s.rows[i], i, provider).Failed? then s.failures + [clock(i)] else s.failures
  }

  /** The events the iteration for row `i` records. */
  function StepEvents(path: string, s: State, i: nat, provider: Provider, clock: Clock): seq<Event>
    requires i < |s.rows|
  {
    var address := Get(s.rows[i], FIXED_ADDRESS);
    match Kind(s.rows[i], i, provider)
    case AlreadyGeocoded => []
    case NoAddress => []
    case Resolved(_) =>
      [Call(i, address)] + (if IsCheckpointIndex(i) then [Write(i, path, StepRows(s, i, provider))] else [])
    case Failed =>
      [Call(i, address), Write(i, path, s.rows),
       Pause(i, ChooseBreak(StepFailures(s, i, provider, clock), clock(i)))]
  }

  /** One iteration of the loop of `main`, for row `i`. */
  function Step(path: string, s: State, i: nat, provider: Provider, clock: Clock): (r: State)
    requires i < |s.rows|
    ensures |r.rows| == |s.rows|
    ensures forall j :: 0 <= j < |s.rows| && j != i ==> r.rows[j] == s.rows[j]
    ensures r.failures == s.failures || r.failures == s.failures + [clock(i)]
    ensures |s.trace| <= |r.trace| <= |s.trace| + 3
  {
    State(StepRows(s, i, provider), StepFailures(s, i, provider, clock),
          s.trace + StepEvents(path, s, i, provider, clock))
  }

  /** The state after the loop has handled rows 0 to k - 1. */
  function Run(path: string, init: State, k: nat, provider: Provider, clock: Clock): (r: State)
    requires k <= |init.rows|
    ensures |r.rows| == |init.rows|
    decreases k
  {
    if k == 0 then init
    else Step(path, Run(path, init, k - 1, provider, clock), k - 1, provider, clock)
  }

  // ---------------------------------------------------------------------------
  // What a run does to the table

  /** Each row ends up as its own kind dictates: rows the loop has passed are final, later rows are
      untouched. In particular a row with a geocode, a row without an address and a failed row keep
      every cell, and a resolved row changes only its GEOCODE cell. */
  lemma {:induction false} RunRows(path: string, init: State, k: nat, provider: Provider, clock: Clock)
    requires k <= |init.rows|
    ensures forall j :: 0 <= j < |init.rows| ==>
              Run(path, init, k, provider, clock).rows[j]
              == if j < k then FinalRow(init.rows[j], Kind(init.rows[j], j, provider)) else init.rows[j]
  {
    if k > 0 {
      RunRows(path, init, k - 1, provider, clock);
    }
  }

  /** Rows the loop has not reached yet are as they were. */
  lemma {:induction false} RunLeavesLaterRow(path: string, init: State, k: nat, j: nat, provider: Provider, clock: Clock)
    requires k <= j < |init.rows|
    ensures Run(path, init, k, provider, clock).rows[j] == init.rows[j]
  {
    if k > 0 {
      RunLeavesLaterRow(path, init, k - 1, j, provider, clock);
    }
  }

  /** A row is left alone by the loop when it has a geocode already or has no usable address. */
  predicate NeedsCall(row: Row)
  {
    IsEmpty(Get(row, GEOCODE)) && !IsEmpty(Get(row, FIXED_ADDRESS))
  }

  lemma KindOfSettledRow(row: Row, i: nat, provider: Provider)
    requires !NeedsCall(row)
    ensures Kind(row, i, provider) == AlreadyGeocoded || Kind(row, i, provider) == NoAddress
  {
  }

  /** A table with no row that needs a call comes out of a run exactly as it went in: no call, no
      write, no pause, and the failure list unchanged. A re-run over a completed table is a no-op. */
  lemma {:induction false} RunWithNothingToCall(path: string, init: State, k: nat, provider: Provider, clock: Clock)
    requires k <= |init.rows|
    requires forall j :: 0 <= j < |init.rows| ==> !NeedsCall(init.rows[j])
    ensures Run(path, init, k, provider, clock) == init
  {
    if k > 0 {
      RunWithNothingToCall(path, init, k - 1, provider, clock);
      KindOfSettledRow(init.rows[k - 1], k - 1, provider);
    }
  }

  /** The table `geo_csv.load_input` hands over has no FIXED_ADDRESS column when the input file has
      none, so a first run over such a file calls the geocoder for no row at all. */
  lemma NoFixedAddressNoCalls(path: string, init: State, provider: Provider, clock: Clock)
    requires forall j :: 0 <= j < |init.rows| ==> FIXED_ADDRESS !in init.rows[j]
    ensures Run(path, init, |init.rows|, provider, clock) == init
  {
    RunWithNothingToCall(path, init, |init.rows|, provider, clock);
  }

  /** A call whose response has no results is a success that stores None: the row stays
      unresolved and a later run calls for it again. */
  lemma ZeroResultsLeaveRowUnresolved(row: Row, i: nat, provider: Provider)
    requires NeedsCall(row)
    requires provider(i, Get(row, FIXED_ADDRESS)).Fetched?
    requires provider(i, Get(row, FIXED_ADDRESS)).response.status != Google.OverQueryLimitStatus
    requires |provider(i, Get(row, FIXED_ADDRESS)).response.results| == 0
    ensures Kind(row, i, provider) == Resolved(Missing)
    ensures IsEmpty(Get(FinalRow(row, Kind(row, i, provider)), GEOCODE))
  {
  }

  // ---------------------------------------------------------------------------
  // What a run records

  datatype Tag = CallTag | WriteTag | PauseTag

  predicate HasTag(e: Event, tag: Tag)
  {
    match tag
    case CallTag => e.Call?
    case WriteTag => e.Write?
    case PauseTag => e.Pause?
  }

  /** The row indices of the events of one kind, in the order they were recorded. */
  function EventIndices(t: seq<Event>, tag: Tag): seq<nat>
  {
    if |t| == 0 then []
    else EventIndices(t[..|t| - 1], tag) + (if HasTag(t[|t| - 1], tag) then [t[|t| - 1].index] else [])
  }

  lemma {:induction false} EventIndicesAppend(a: seq<Event>, b: seq<Event>, tag: Tag)
    ensures EventIndices(a + b, tag) == EventIndices(a, tag) + EventIndices(b, tag)
  {
    if |b| == 0 {
      assert a + b == a;
    } else {
      assert (a + b)[..|a + b| - 1] == a + b[..|b| - 1];
      EventIndicesAppend(a, b[..|b| - 1], tag);
    }
  }

  /** Which rows produce an event of each kind: a call for every resolved or failed row, a write
      for every failed row and for every resolved row at a checkpoint index, a pause for every
      failed row. */
  predicate Emits(kind: RowKind, i: nat, tag: Tag)
  {
    match tag
    case CallTag => kind.Resolved? || kind.Failed?
    case WriteTag => kind.Failed? || (kind.Resolved? && IsCheckpointIndex(i))
    case PauseTag => kind.Failed?
  }

  /** The indices j < k, in increasing order, of the rows that emit an event with this tag. */
  function Expected(rows: seq<Row>, k: nat, provider: Provider, tag: Tag): seq<nat>
    requires k <= |rows|
  {
    if k == 0 then []
    else Expected(rows, k - 1, provider, tag)
         + (if Emits(Kind(rows[k - 1], k - 1, provider), k - 1, tag) then [k - 1] else [])
  }

  lemma {:induction false} ExpectedIncreasing(rows: seq<Row>, k: nat, provider: Provider, tag: Tag)
    requires k <= |rows|
    ensures forall a :: 0 <= a < |Expected(rows, k, provider, tag)| ==> Expected(rows, k, provider, tag)[a] < k
    ensures forall a, b :: 0 <= a < b < |Expected(rows, k, provider, tag)|
              ==> Expected(rows, k, provider, tag)[a] < Expected(rows, k, provider, tag)[b]
  {
    if k > 0 {
      ExpectedIncreasing(rows, k - 1, provider, tag);
    }
  }

  lemma IndicesOfOne(e: Event, tag: Tag)
    ensures EventIndices([e], tag) == if HasTag(e, tag) then [e.index] else []
  {
  }

  /** The indices, per tag, of the events of a successful call: a call, then perhaps a write. */
  lemma IndicesOfSuccess(e1: Event, written: seq<Event>, i: nat, tag: Tag)
    requires e1.Call? && e1.index == i
    requires written == [] || (|written| == 1 && written[0].Write? && written[0].index == i)
    ensures EventIndices([e1] + written, tag)
            == if tag == CallTag || (tag == WriteTag && written != []) then [i] else []
  {
    EventIndicesAppend([e1], written, tag);
    IndicesOfOne(e1, tag);
    if written != [] {
      IndicesOfOne(written[0], tag);
    }
  }

  /** The indices, per tag, of the events of a failure: a call, a write and a pause. */
  lemma IndicesOfFailure(e1: Event, e2: Event, e3: Event, i: nat, tag: Tag)
    requires e1.Call? && e2.Write? && e3.Pause? && e1.index == e2.index == e3.index == i
    ensures EventIndices([e1, e2, e3], tag) == [i]
  {
    assert [e1, e2, e3] == [e1] + [e2] + [e3];
    EventIndicesAppend([e1] + [e2], [e3], tag);
    EventIndicesAppend([e1], [e2], tag);
    IndicesOfOne(e1, tag);
    IndicesOfOne(e2, tag);
    IndicesOfOne(e3, tag);
  }

  /** One step records an event with a given tag for row i exactly when that row's kind emits one. */
  lemma StepEventIndices(path: string, s: State, i: nat, provider: Provider, clock: Clock, tag: Tag)
    requires i < |s.rows|
    ensures EventIndices(Step(path, s, i, provider, clock).trace, tag)
            == EventIndices(s.trace, tag) + (if Emits(Kind(s.rows[i], i, provider), i, tag) then [i] else [])
  {
    var added := StepEvents(path, s, i, provider, clock);
    EventIndicesAppend(s.trace, added, tag);
    var address := Get(s.rows[i], FIXED_ADDRESS);
    match Kind(s.rows[i], i, provider) {
      case AlreadyGeocoded =>
      case NoAddress =>
      case Resolved(_) =>
        var written := if IsCheckpointIndex(i) then [Write(i, path, StepRows(s, i, provider))] else [];
        IndicesOfSuccess(Call(i, address), written, i, tag);
      case Failed =>
        IndicesOfFailure(Call(i, address), Write(i, path, s.rows),
                         Pause(i, ChooseBreak(StepFailures(s, i, provider, clock), clock(i))), i, tag);
    }
  }

  /** Over a whole run, the calls, writes and pauses happen at exactly the expected rows, in
      increasing row order: a call for each row that needs one, a write after each failure and after
      each success at a checkpoint index (never for a skipped row, a row without address, or any
      other success), a pause after each failure, and nothing after the last row. */
  lemma {:induction false} RunEvents(path: string, init: State, k: nat, provider: Provider, clock: Clock, tag: Tag)
    requires k <= |init.rows|
    ensures EventIndices(Run(path, init, k, provider, clock).trace, tag)
            == EventIndices(init.trace, tag) + Expected(init.rows, k, provider, tag)
  {
    if k > 0 {
      RunEvents(path, init, k - 1, provider, clock, tag);
      RunStepEventIndices(path, init, k, provider, clock, tag);
    }
  }

  /** StepEventIndices for the step that handles row k - 1 of a run, with that row's kind read off
      the initial table. */
  lemma RunStepEventIndices(path: string, init: State, k: nat, provider: Provider, clock: Clock, tag: Tag)
    requires 0 < k <= |init.rows|
    ensures EventIndices(Run(path, init, k, provider, clock).trace, tag)
            == EventIndices(Run(path, init, k - 1, provider, clock).trace, tag)
               + (if Emits(Kind(init.rows[k - 1], k - 1, provider), k - 1, tag) then [k - 1] else [])
  {
    var prev := Run(path, init, k - 1, provider, clock);
    RunLeavesLaterRow(path, init, k - 1, k - 1, provider, clock);
    StepEventIndices(path, prev, k - 1, provider, clock, tag);
  }

  /** The clock readings of the failed rows among the first k, in row order. */
  function FailureTimes(rows: seq<Row>, k: nat, provider: Provider, clock: Clock): seq<int>
    requires k <= |rows|
  {
    if k == 0 then []
    else FailureTimes(rows, k - 1, provider, clock)
         + (if Kind(rows[k - 1], k - 1, provider).Failed? then [clock(k - 1)] else [])
  }

  /** The shared failure list grows by exactly one entry per failed row and never shrinks. */
  lemma {:induction false} RunFailures(path: string, init: State, k: nat, provider: Provider, clock: Clock)
    requires k <= |init.rows|
    ensures Run(path, init, k, provider, clock).failures == init.failures + FailureTimes(init.rows, k, provider, clock)
  {
    if k > 0 {
      RunFailures(path, init, k - 1, provider, clock);
      RunLeavesLaterRow(path, init, k - 1, k - 1, provider, clock);
    }
  }

  /** A row the loop does not resolve is left exactly as it was. */
  lemma UnresolvedRowUnchanged(s: State, i: nat, provider: Provider)
    requires i < |s.rows| && !Kind(s.rows[i], i, provider).Resolved?
    ensures StepRows(s, i, provider) == s.rows
  {
  }

  /** Every write of one step goes to the results file and holds the whole table as it stands
      after that step. */
  lemma StepWritesWholeTable(path: string, s: State, i: nat, provider: Provider, clock: Clock)
    requires i < |s.rows|
    ensures var events := StepEvents(path, s, i, provider, clock);
            forall n :: 0 <= n < |events| && events[n].Write?
              ==> events[n].path == path && events[n].snapshot == Step(path, s, i, provider, clock).rows
  {
    if Kind(s.rows[i], i, provider).Failed? {
      UnresolvedRowUnchanged(s, i, provider);
    }
  }

  /** A failed row is left unresolved; the table is written, then the break fitting the failure
      list with `now` appended is taken, and the loop goes on. */
  lemma FailedStep(path: string, s: State, i: nat, provider: Provider, clock: Clock)
    requires i < |s.rows| && Kind(s.rows[i], i, provider).Failed?
    ensures var r := Step(path, s, i, provider, clock);
            && r.rows == s.rows
            && r.failures == s.failures + [clock(i)]
            && |r.trace| == |s.trace| + 3
            && r.trace[|r.trace| - 2] == Write(i, path, s.rows)
            && r.trace[|r.trace| - 1] == Pause(i, ChooseBreak(s.failures + [clock(i)], clock(i)))
  {
    UnresolvedRowUnchanged(s, i, provider);
  }

  // ---------------------------------------------------------------------------
  // The runner itself

  /** One pass of the loop body of `main`, for row `index`; `before` is the trace so far. */
  method ProcessRow(outputFilename: string, data: array<Row>, lastFailures: FailureList, index: nat,
                    provider: Provider, clock: Clock, ghost before: seq<Event>)
    returns (ghost trace: seq<Event>)
    requires index < data.Length
    modifies data, lastFailures
    ensures State(data[..], lastFailures.items, trace)
            == Step(outputFilename, State(old(data[..]), old(lastFailures.items), before), index, provider, clock)
  {
    trace := before;
    var row := data[index];
    var existingGeocode := Get(row, GEOCODE);
    if IsEmpty(existingGeocode) {
      var address := Get(row, FIXED_ADDRESS);
      if IsEmpty(address) {
        // "no address - write a dummy value": the sentinel is bound to a local and never stored
        var result := Str("NO_ADDRESS");
      } else {
        trace := trace + [Call(index, address)];
        match CallGeocoder(address, provider(index, address)) {
          case Answered(result) =>
            data[index] := row[GEOCODE := result];
            if index > 0 && index % 10 == 0 {
              trace := trace + [Write(index, outputFilename, data[..])];
            }
          case OverLimit =>
            trace := trace + [Write(index, outputFilename, data[..])];
            var pause := AssessFailures(lastFailures, clock(index));
            trace := trace + [Pause(index, pause)];
          case OtherError =>
            trace := trace + [Write(index, outputFilename, data[..])];
            var pause := AssessFailures(lastFailures, clock(index));
            trace := trace + [Pause(index, pause)];
        }
      }
    }
  }

  /** `main(input_filename)` once the table is loaded: every index is visited once, in order, and
      no outcome stops the loop. The table is the `data` array, updated in place. */
  method RunBatch(inputFilename: string, data: array<Row>, lastFailures: FailureList,
                  provider: Provider, clock: Clock)
    returns (ghost trace: seq<Event>)
    modifies data, lastFailures
    ensures State(data[..], lastFailures.items, trace)
            == Run(OutputPath(inputFilename), State(old(data[..]), old(lastFailures.items), []),
                   data.Length, provider, clock)
    ensures forall j :: 0 <= j < data.Length ==> data[j] == FinalRow(old(data[j]), Kind(old(data[j]), j, provider))
    ensures lastFailures.items == old(lastFailures.items) + FailureTimes(old(data[..]), data.Length, provider, clock)
    ensures forall tag :: EventIndices(trace, tag) == Expected(old(data[..]), data.Length, provider, tag)
  {
    var outputFilename := OutputPath(inputFilename);
    ghost var init := State(data[..], lastFailures.items, []);
    trace := [];
    var index := 0;
    while index < data.Length
      invariant 0 <= index <= data.Length
      invariant State(data[..], lastFailures.items, trace)
                == Run(outputFilename, init, index, provider, clock)
    {
      trace := ProcessRow(outputFilename, data, lastFailures, index, provider, clock, trace);
      index := index + 1;
    }
    RunRows(outputFilename, init, data.Length, provider, clock);
    RunFailures(outputFilename, init, data.Length, provider, clock);
    forall tag: Tag
      ensures EventIndices(trace, tag) == Expected(init.rows, data.Length, provider, tag)
    {
      RunEvents(outputFilename, init, data.Length, provider, clock, tag);
    }
  }
}
