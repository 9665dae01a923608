# StormHazard rainfall collection, modelled in Dafny

This project models `python/get_nldas.py` of StormHazard. That script fills a
rainfall total into every landfall row of a table (`hurdat`). It can be resumed
after a failure.

For each row whose `precip` is not yet known, it samples an 8x8 block of grid
points spaced 0.125 degrees apart around the landfall. For every point it asks
the NLDAS data-rods time-series service for the hourly rainfall over a two-day
window, then adds only the strictly positive readings to the event's total. It
stores the total in the row and saves the whole table as a checkpoint. When
every row is done it writes the final table.

The model follows the script piece by piece:

| file | module | piece of the script |
|---|---|---|
| `wrappers.dfy` | `Wrappers` | `Option`, `Result`, and the three ways a run can stop |
| `text.dfy` | `Text` | Python's `str.split`, `str.join` and the clamping list slice |
| `grid.dfy` | `Grid` | the 64 offsets of the nested `range(-4, 4)` loops and the sampled points |
| `query.dfy` | `Query` | the query URL: parameters, the `GEOM:POINT(lon, lat)` location, the two-day window |
| `retry.dfy` | `Retry` | `get_time_series`: at most five requests, stopping at the first status 200 |
| `header.dfy` | `Header` | `parse_time_series`: the nine `key=value` header lines read into a dictionary |
| `rainfall.dfy` | `Rainfall` | the positive-only sum and the nested grid loops of one event |
| `batch.dfy` | `Batch` | the resumable loop over the table's rows, with checkpoints and the final output |

The network is an oracle, `Service = (string, nat) -> Response`. It gives the
answer to the n-th request of the run when that request goes to a given URL. A
request counter (`sent`) is threaded through every step, so the model can count
requests exactly.

Library behaviour is passed in as the arrow-typed fields of `Query.Codecs`:
- float formatting in the f-string;
- `strftime("%Y-%m-%d")`;
- `urllib.parse.quote`;
- pandas' reading of the tab-separated body.

Dates are hours since the epoch. A row's precipitation is `Option<real>`, where
`None` stands for the empty (NaN) cell. A row is pending when its precipitation
is `None` or negative, because `NaN >= 0` is false in the script.

Each loop of the script is a method proved equal to a specification function:
- `GetTimeSeries` against `Fetch`;
- `ParseTimeSeries` against `SeriesOf`;
- `AggregateRow` and `AggregateEvent` against `SumFrom` and `EventTotal`;
- `RunBatch` against `Run`.

Each specification function in turn has lemmas stating what the script promises.
The value computed is pinned down at both levels:
- `EventTotalIsPositiveSum`: an event's total is the positive-only sum of the
  64 grid points' readings, concatenated in the loops' order;
- `RunWritesTotals` and `RunCheckpointsSettleOne`: each row a run changes was
  pending and now holds its event's total, and each checkpoint fills exactly
  one pending row of the table saved before it.

Failures are pinned down the same way:
- `EventTotalFailsAt`: a failed event carries the error of the first grid
  point that fails. Every point before it succeeds, and no later point is
  fetched;
- `RunFailsAt`: a failed run stops at one pending row, carrying its event's
  error. The pending rows before it are settled, and it and the rows after it
  are untouched.

`RunBatch` changes the table in place, as an `array<Event>`. It returns the
checkpoint snapshots and the final output as ghost values.

## Model

| member | source | states |
|---|---|---|
| Text.Split | python/get_nldas.py:58 | splitting on a one-character separator gives at least one piece, and no piece holds the separator |
| Text.Join | python/get_nldas.py:38 | `sep.join(parts)`: the pieces with one separator between neighbours, and the empty text for no pieces |
| Text.JoinSplit | python/get_nldas.py:58 | joining the pieces of a split with the separator gives back the original text |
| Text.SplitJoin | python/get_nldas.py:61 | splitting a join of separator-free pieces gives back exactly those pieces |
| Text.Slice | python/get_nldas.py:60 | `xs[lo:hi]` clamps at the end of the list: its length is the part of lo..hi inside the list, and element j is `xs[lo + j]` |
| Grid.Offsets | python/get_nldas.py:82-83 | the 64 `(lat_inc, lon_inc)` pairs the two `range(-4,4)` loops visit, latitude outer, in visiting order |
| Grid.GridPoints | python/get_nldas.py:82-86 | the 64 sampled points `(lat + 0.125*lat_inc, lon + 0.125*lon_inc)` around the landfall, in visiting order |
| Grid.OffsetAt | python/get_nldas.py:82-83 | at outer step `lat_inc` and inner step `lon_inc`, the loops are at position `8*(lat_inc+4)+(lon_inc+4)` of the offset sequence, and that position holds `(lat_inc, lon_inc)` |
| Grid.OffsetsRowMajor | python/get_nldas.py:82-83 | the visited offsets are exactly the pairs with both steps in -4..3, in strictly increasing row-major order with latitude outer, so each is visited once |
| Grid.GridPoint | python/get_nldas.py:85-86 | a grid point lies at most 0.5 degrees below and 0.375 degrees above the landfall in each coordinate |
| Grid.GridPointsDistinct | python/get_nldas.py:82-86 | the 64 sampled points are pairwise distinct and include the landfall point itself |
| Query.Location | python/get_nldas.py:33 | the text `GEOM:POINT(<longitude>, <latitude>)` of a grid point |
| Query.StartDate | python/get_nldas.py:91 | the event's calendar day followed by `T00` |
| Query.EndDate | python/get_nldas.py:79-92 | the calendar day 48 hours after the event followed by `T00` |
| Query.Parameters | python/get_nldas.py:30-36 | the five query parameters variable, type `asc2`, location, startDate, endDate, in insertion order |
| Query.FullUrl | python/get_nldas.py:37-38 | the base URL, `?`, and the `key=quote(value)` fields of the parameters joined by `&` |
| Query.SeriesUrl | python/get_nldas.py:89-96 | the URL requested for a grid point: the rainfall variable at that point over the event's two-day window |
| Query.LocationIsLonLat | python/get_nldas.py:33 | the location parameter reads back as (longitude text, latitude text): longitude first |
| Query.DayOf | python/get_nldas.py:91-92 | the day of an hour is the calendar day containing it |
| Query.WindowIsTwoDays | python/get_nldas.py:78-79 | the end date is the day two calendar days after the start date, at hour 00 |
| Query.Fields | python/get_nldas.py:38 | field j of the query string is `key=quote(value)` of parameter j, in parameter order |
| Query.UrlFields | python/get_nldas.py:29-38 | the URL is the base URL and `?`, then exactly the five fields variable, type, location, startDate, endDate, in that order and separated by `&` |
| Retry.AttemptsFrom | python/get_nldas.py:40-52 | attempt k of the retry loop: a 200 answer ends it with the body; a non-200 fifth answer ends it with an error naming its status, the URL and the body; otherwise attempt k+1 follows |
| Retry.Fetch | python/get_nldas.py:40-52 | the retry loop from its first attempt |
| Retry.AttemptsFromOutcome | python/get_nldas.py:40-52 | continuing the retries from attempt k, after k non-200 answers, ends in a retry outcome |
| Retry.FetchIsRetryOutcome | python/get_nldas.py:40-52 | the query's outcome and request count are a retry outcome, and the only one: 1 to 5 requests, every answer before the last one not 200, the last answer's body if it is 200, otherwise an error with the fifth status, the URL and the body |
| Retry.FetchBounds | python/get_nldas.py:40-52 | a query makes 1 to 5 requests and succeeds exactly when one of the first five answers is 200 |
| Retry.GetTimeSeries | python/get_nldas.py:40-52 | the `while not done and iteration < 5` loop stops at the first 200 and returns that body, or after five non-200 answers returns the error for the last one; its outcome and request count are the query's |
| Header.IsEntry | python/get_nldas.py:61 | a header line unpacks into `key,value` exactly when splitting it on '=' gives two parts |
| Header.Entry | python/get_nldas.py:61 | the key and the value of a header line: the parts before and after its '=' |
| Header.Fill | python/get_nldas.py:59-62 | the dictionary filled from empty pair by pair, a later pair overwriting an earlier one with the same key |
| Header.HeaderOf | python/get_nldas.py:58-62 | the dictionary of the header window's entries, or an error naming the first line that is not `key=value` |
| Header.SeriesOf | python/get_nldas.py:54-68 | the header dictionary and then the body's readings; a bad header line or an unreadable body is an error |
| Header.HeaderLines | python/get_nldas.py:58-60 | the header window has at most nine lines, exactly nine when the payload has eleven lines or more, and line j of it is line 2+j of the payload |
| Header.EntriesOf | python/get_nldas.py:60-61 | reading the window gives every line's (key, value) in order when each line splits on '=' into two parts, and otherwise the index of the first line that does not |
| Header.EntriesOfStops | python/get_nldas.py:61 | reading stops at the first line that does not split into two parts |
| Header.FillLastWins | python/get_nldas.py:62 | filling the dictionary pair by pair: a key is present exactly when some pair has it, and maps to the value of the last such pair |
| Header.HeaderOfMeaning | python/get_nldas.py:58-62 | the header fails exactly when some line is not `key=value`, naming the first one; otherwise each key maps to the value of its last line |
| Header.ParseTimeSeries | python/get_nldas.py:54-68 | the loop that fills `parameters`, followed by the body read, yields what `SeriesOf` specifies, with the error at the first bad line |
| Header.EntryRoundTrip | python/get_nldas.py:61 | a line written as `key=value`, with no '=' in either part, unpacks into that key and value |
| Header.EntriesOfAll | python/get_nldas.py:60-62 | lines that all split into two parts are all read |
| Header.HeaderRoundTrip | python/get_nldas.py:58-62 | a payload of two lead lines, nine `key=value` lines and any body parses into the dictionary of those nine entries, later keys winning |
| Rainfall.Sum | python/get_nldas.py:101 | the sum of a run of readings, 0 for none |
| Rainfall.PositiveSum | python/get_nldas.py:101 | `where(Rainf > 0)` then `sum()`: the sum of the strictly positive readings |
| Rainfall.PointRain | python/get_nldas.py:89-101 | one grid point: fetch its series, parse it and add up its positive readings; a failed fetch or parse is that error, with the requests made so far |
| Rainfall.PointReadings | python/get_nldas.py:89-100 | one grid point's parsed readings and the requests made so far, when fetching and parsing both succeed |
| Rainfall.RainOf | python/get_nldas.py:89-101 | the rain of every grid point around an event, as `PointRain` gives it |
| Rainfall.ReadingsOf | python/get_nldas.py:89-100 | the parsed readings of every grid point around an event, as `PointReadings` gives them |
| Rainfall.SumFrom | python/get_nldas.py:81-101 | the loops from grid point k on: each point's rain is added to the running total in visiting order, and the first point that fails ends them with its error and request count |
| Rainfall.EventTotal | python/get_nldas.py:81-101 | the loops over the whole grid with `tot_rf = 0` |
| Rainfall.SumUpTo | python/get_nldas.py:81-101 | the loops from grid point k up to, not including, grid point m, stopping at the first error |
| Rainfall.SumFromSplit | python/get_nldas.py:81-101 | the loops from k on are the loops up to m followed by the loops from m on, and an error before m is the outcome of the whole |
| Rainfall.ReadingsFrom | python/get_nldas.py:82-100 | the readings of the grid points from k on, one series after the other in visiting order, when every one can be had |
| Rainfall.Positives | python/get_nldas.py:101 | `where(Rainf > 0)` keeps exactly the readings that are strictly positive, each as many times as it occurs |
| Rainfall.SumOfPositives | python/get_nldas.py:101 | a sum of positive readings is non-negative, and positive when there is at least one |
| Rainfall.PositiveSumNonNegative | python/get_nldas.py:101 | the positive-only sum is never negative, and is zero exactly when no reading is positive |
| Rainfall.SumAppend | python/get_nldas.py:101 | the sum of two runs of readings placed back to back is the sum of their sums |
| Rainfall.PositivesAppend | python/get_nldas.py:101 | filtering two runs of readings placed back to back gives the two filtered runs back to back |
| Rainfall.PositiveSumAppend | python/get_nldas.py:101 | the positive-only sum of two runs of readings placed back to back is the sum of their positive-only sums |
| Rainfall.PointRainBounds | python/get_nldas.py:89-101 | one grid point costs 1 to 5 requests and contributes no negative rain |
| Rainfall.AggregatePoint | python/get_nldas.py:89-101 | fetching, parsing and positive-summing one grid point yields `PointRain`: its rain is non-negative and it costs 1 to 5 requests |
| Rainfall.RainOfBounded | python/get_nldas.py:89-101 | every grid point of an event costs 1 to 5 requests and contributes no negative rain |
| Rainfall.SumFromBounds | python/get_nldas.py:81-101 | from any position of the loops, the running total never decreases; it costs 1 to 5 requests per point reached, and at least one per remaining point when it completes |
| Rainfall.EventTotalBounds | python/get_nldas.py:81-101 | an event's total, which starts at 0, is never negative; a completed event costs 64 to 320 requests and a failed one at most 320 |
| Rainfall.AggregateEvent | python/get_nldas.py:81-101 | the nested loops compute `EventTotal`, the first error aborting them; the total is non-negative and costs 1 to 320 requests |
| Rainfall.AggregateRow | python/get_nldas.py:83-101 | one pass of the inner loop advances the aggregation by the eight points of its latitude step, or stops with the aggregation's error |
| Rainfall.SumFromAdvance | python/get_nldas.py:82-101 | the loops' step: the aggregation from the current position is the current point's rain followed by the aggregation from the next position |
| Rainfall.PointRainIsPositiveSum | python/get_nldas.py:89-101 | one grid point's rain is the positive-only sum of its parsed series' readings, and fails exactly when the series cannot be fetched or parsed |
| Rainfall.RainOfSumsReadings | python/get_nldas.py:89-101 | at every grid point of an event, the rain is the positive-only sum of the readings and fails exactly when they cannot be had |
| Rainfall.PositiveSumAdditive | python/get_nldas.py:101 | the positive-only sum of no readings is 0, and of two runs placed back to back is the sum of theirs |
| Rainfall.SumFromOkIffReadings | python/get_nldas.py:81-101 | from any position of the loops, the aggregation succeeds exactly when the readings of every remaining grid point can be had |
| Rainfall.SumFromIsValueOfReadings | python/get_nldas.py:81-101 | from any position of the loops, when every point's rain is an additive value of its readings, the aggregation adds to the running total that value of the remaining points' readings concatenated in visiting order |
| Rainfall.EventTotalIsPositiveSum | python/get_nldas.py:81-101 | an event's total is the positive-only sum of the 64 grid points' readings, concatenated in the loops' order; it fails exactly when one grid point's series cannot be fetched or parsed |
| Rainfall.SumFromFailsAt | python/get_nldas.py:81-101 | a failed aggregation stops at the first grid point from the k-th on that fails: every point before it succeeds, and the outcome is that point's error and the request count right after it, fetched with the counter the loops reached, so no later point is fetched |
| Rainfall.EventTotalFailsAt | python/get_nldas.py:81-101 | a failed event is the failure of the first of its 64 grid points that fails: every point before it succeeds, and the event's error and request count are that point's, so no later point is fetched |
| Batch.Pending | python/get_nldas.py:73-74 | a row is processed unless its precipitation is `>= 0`; a missing value compares false and is processed |
| Batch.TotalsOf | python/get_nldas.py:81-101 | the total of every event, as `EventTotal` gives it |
| Batch.Run | python/get_nldas.py:72-106 | the row loop from row 0 with no request made and no checkpoint written |
| Batch.Saved | python/get_nldas.py:104 | the table the checkpoint file holds: the last checkpoint written, or the input table when none was |
| Batch.PendingFrom | python/get_nldas.py:73 | counts at most the rows from i on, and is zero exactly when none of them is pending |
| Batch.PendingFromSame | python/get_nldas.py:73 | the pending count from row i depends only on rows i and after |
| Batch.TotalsOfBounded | python/get_nldas.py:81-101 | every event's total is non-negative and costs 1 to 320 requests, and at least 64 when it succeeds |
| Batch.BatchFrom | python/get_nldas.py:72-106 | the run keeps the table's length |
| Batch.RunBatch | python/get_nldas.py:72-106 | the row loop over the table yields, in place, the table, status, request count, checkpoints and output that `Run` specifies |
| Batch.BatchFromFrame | python/get_nldas.py:72-106 | only pending rows at or after i change, and only their precipitation; there is an output exactly when the run finishes, and it is the final table |
| Batch.BatchFromCheckpoints | python/get_nldas.py:103-104 | checkpoints are only appended; the table in memory is the last checkpoint written, or the input when none was written |
| Batch.BatchFromSettles | python/get_nldas.py:72-104 | the checkpoints written plus the rows left pending equal the rows pending before; a finished run leaves no row pending, a failed one at least one |
| Batch.BatchFromWritesTotals | python/get_nldas.py:72-103 | every row at or after i that a run changes was pending, and now holds its event's total in place of its precipitation |
| Batch.BatchFromCheckpointSteps | python/get_nldas.py:72-104 | each checkpoint written is the table before it, the previous checkpoint or the starting table, with exactly one pending row filled with its event's total |
| Batch.BatchFromRequests | python/get_nldas.py:72-101 | a run costs at most 320 requests per pending row, and at least 64 per pending row when it finishes |
| Batch.BatchFromIdle | python/get_nldas.py:72-74 | a table with no pending row is left as it is: no request, no checkpoint, the table itself as output |
| Batch.BatchFromFailsAt | python/get_nldas.py:72-104 | a failed run stopped at one pending row f at or after i: the pending rows before f are settled, f and every later row are untouched, and the error and request count are those of f's event total |
| Batch.RunKeepsRows | python/get_nldas.py:72-106 | a whole run changes only the precipitation of pending rows; it has an output exactly when it finishes, the output is the final table, and the checkpoint file holds that same table |
| Batch.RunSettles | python/get_nldas.py:72-106 | after a finished run every row holds a non-negative precipitation, after a failed one some row is still pending, and there is one checkpoint per settled row |
| Batch.RunFailsAt | python/get_nldas.py:72-106 | a failed run stopped at a pending row whose earlier pending rows are all settled and which, with every later row, is untouched; its error and request count are that row's `EventTotal` |
| Batch.RunWritesTotals | python/get_nldas.py:72-103 | every row a run changes was pending and now holds its event's rainfall total; a finished run fills every pending row with its event's `EventTotal` |
| Batch.RunCheckpointsSettleOne | python/get_nldas.py:72-104 | each checkpoint is the table the checkpoint file held before it with exactly one pending row filled with its event's total |
| Batch.RunRequests | python/get_nldas.py:72-101 | a run makes at most 320 requests per pending row, none for a skipped row, and at least 64 per pending row when it finishes |
| Batch.RerunIsIdle | python/get_nldas.py:72-74 | rerunning on the table a finished run saved makes no request, writes no checkpoint and outputs the same table |
| Batch.ResumeKeepsProgress | python/get_nldas.py:72-104 | resuming from the table a failed run saved keeps every settled row, with one pending row fewer per checkpoint written |

## Left out

- HTTP transport (`requests.get`): replaced by the `Service` oracle. A connection error, which would raise out of `requests.get`, is not modelled; the oracle always answers.
- `print(full_url)`, `warnings.filterwarnings` and the `matplotlib` import: output and global settings with no bearing on the results.
- `urllib.parse.quote`, the f-string rendering of floats and `strftime("%Y-%m-%d")`: abstract functions in `Codecs`. `UrlFields` assumes only that the encoding keeps '&' and '=' out of values, and `LocationIsLonLat` that the number texts hold no comma.
- Reading the payload body with `pd.read_table(..., header=10, parse_dates=...)` and the epoch-second conversion of the time column: the abstract `Codecs.body`, which yields the readings or fails. Readings are reals, so a NaN reading, which `where` and `sum` would drop, is not represented.
- Reading `data/hurdat_temp.csv` and the `to_csv` writes: the table is the array passed to `RunBatch`, and the checkpoints and the final output are ghost snapshots of it. The CSV layout is not modelled: the index column, the other hurdat columns and the text format.
- Parsing `hurdat.date` with `pd.to_datetime`: a row carries its time directly as hours since the epoch.
- Floating-point rounding of coordinates and sums: the model uses exact reals.
- The assignment `hurdat['precip'][i] = tot_rf` is taken to write into the table, as it does under pandas without copy-on-write.
- `Header.ParseTimeSeries`: the header error carries the index of the failing line in the payload's lines. The script's `ValueError` does not carry it; the index is only a more informative stand-in for that exception.
- `get_nldas.py` at the repository root (exploratory calls to an external library) is not part of this model.
