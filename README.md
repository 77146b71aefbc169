# vast-web core, modelled in Dafny

vast-web is a small dashboard for machines rented out on vast.ai. A Python
HTTP server reads a machine's history from SQLite and returns it as one JSON
object. A browser script turns that object into plot-ready time series.
This project models the sequential logic of both sides and proves what that
logic promises.

- **Browser pipeline** (`static/script.js`):
  - `unpackJSON` extracts the series from the payload and scales them (`unpack.dfy`).
  - `staircaseFill` turns step-valued series into staircases (`staircase.dfy`).
  - `fillMissingValues` aligns every series on one shared timestamp axis and forward-fills the gaps (`align.dfy`). The axis is sorted with JavaScript's default `sort()` (`jscompare.dfy`).
  - `costPerGPU` divides cost by GPU count in place (`costpergpu.dfy`).
  - Three helpers: the colour picker `Colors.get` (`colors.dfy`), `hexToRGBA` (`hexcolor.dfy`) and `getUrl` (`url.dfy`).
  - JavaScript values are modelled in `jsvalues.dfy`: `undefined`, non-finite numbers, and objects as their entries in insertion order.
- **Server utilities** (`src/utils.py`):
  - `setqueue` is the bounded FIFO queue without duplicates (`setqueue.dfy`).
  - `is_sorted` and `np_group_by` are in `groupby.dfy`.
- **Database layer** (`src/vastdb.py`): `_get_sql_query` and the way `get_machine_stats` assembles its JSON envelope (`vastdb.dfy`).
- **Request validation** (`main.py`): `parse_params` (`params.dfy`).
- **Shared helpers:**
  - `wrappers.dfy`: Option and Result.
  - `seqs.dfy`: distinctness, deduplication, flattening and `indexOf`.
  - `text.dfy`: prefixes, reading up to a delimiter, and joining.
  - `decimal.dfy`: integers printed in decimal, read back by a parser.

Code that changes state step by step is modelled as Dafny methods. Each method is proved equal to a specification function, and lemmas state the properties of that function:

- `staircaseFill`, `fillMissingValues` and `get_machine_stats`, whose loops become Dafny `while` or `for` loops with invariants;
- `getUrl` and `_get_sql_query`, which build their text by successive appends without a loop;
- the classes `ColorPicker`, `TimeseriesObject` and `SetQueue`, whose methods update their fields.

`hexToRGBA`, the extraction in `unpackJSON`, `is_sorted`, `np_group_by` and `parse_params` are expressions, so they are modelled as functions.

Behaviour of the code worth noting:

- **Axis order.** `sort()` without a comparator orders the timestamps of `fillMissingValues` as decimal strings, not as numbers, and the model does the same. `Align.ExampleAxisInStringOrder` shows that timestamps 0, 10 and 5 come out as 0, 10, 5. `Align.AxisIncreasingWhenSameWidth` shows that the order is numeric when every timestamp has the same number of digits.
- **`getUrl` without a machine id.** The code still appends the date parameters, so the path then contains `&` where a query string would start with `?`.
- **An empty `setqueue`.** The constructor does not create a set for it; it leaves behind an empty dict. The first `put` then raises, and the model keeps that error.

## Model

| member | source | states |
|---|---|---|
| Staircase.Staircase | static/script.js:41-60 | the result of `staircaseFill`: 2·max(n−1,0)+1 timestamps and as many values, ending with `ts.at(-1)` and `vals.at(-1)` |
| Staircase.StaircaseFill | static/script.js:41-60 | the loop builds exactly the staircase of its input, with 2·max(n−1,0)+1 timestamps and as many values, as new sequences |
| Staircase.StaircaseShape | static/script.js:41-60 | for n ≥ 1 points: 2n−1 points; position 2i holds (ts[i], vals[i]), position 2i+1 holds (ts[i+1]−1, vals[i]), the last holds the final input point |
| Staircase.StaircaseSinglePoint | static/script.js:42-57 | a one-point series comes back unchanged |
| Staircase.StaircaseEmpty | static/script.js:56-57 | an empty series becomes one undefined timestamp with one undefined value (`at(-1)` of an empty array) |
| Staircase.StaircaseMonotone | static/script.js:48-53 | strictly increasing input timestamps give non-decreasing staircase timestamps around every inserted point |
| Staircase.StaircaseExample | static/script.js:41-60 | (0,5),(10,5),(20,7) becomes (0,5),(9,5),(10,5),(19,5),(20,7) |
| Align.Axis | static/script.js:157-158 | the shared axis is duplicate-free and sorted in default order |
| Seqs.Flat | static/script.js:158 | `timestamps.flat()`: holds exactly the elements of the inner arrays |
| Seqs.Dedup | static/script.js:158 | `[...new Set(…)]`: duplicate-free, holds exactly the elements of its input, and is no longer than it |
| JsCompare.StrLess | static/script.js:158 | the string `<` the default sort compares with: no string sorts before itself, a proper prefix sorts first, and a string sorts first only if its first code unit is not larger |
| JsCompare.StampLess | static/script.js:158 | the default sort comparator: only a timestamp sorts before anything, every timestamp sorts before undefined, and nothing sorts before itself |
| Align.FillSpec | static/script.js:174-178 | the result of `fillMissingValues`: one entry per input key, in the input order, each holding the shared axis and a value array as long as it |
| Align.Filled | static/script.js:161-172 | the forward fill of one series over the axis: one value per axis timestamp (`FillValueRule` states each value) |
| Seqs.IndexOf | static/script.js:164 | `indexOf`: −1 exactly when the element is absent, otherwise an index holding it with no earlier index holding it |
| Align.Sort | static/script.js:158 | the default sort is a permutation, ordered by the string order of the timestamps with undefined last, and keeps distinct elements distinct |
| Align.SortOfSorted | static/script.js:158 | sorting an already sorted axis returns it unchanged |
| Align.FillAlongAxis | static/script.js:161-172 | the nested loop fills, for every series, exactly the forward-filled value array over the given axis |
| Align.FillMissingValues | static/script.js:138-182 | the whole routine returns, key by key in input order, the shared axis and the forward-filled values of that key's series |
| Align.AxisIsUnion | static/script.js:157-158 | the shared axis is duplicate-free, sorted in default order, and holds exactly the timestamps that occur in some input series |
| Align.FillShape | static/script.js:174-178 | the same keys in the same order, each mapped to the shared axis and to a value array as long as the axis; no key is repeated if none was |
| Align.FillValueRule | static/script.js:161-172 | at axis position k the value is the series' value at the first index holding that timestamp, else the previous filled value, else undefined at position 0 |
| Align.FilledFromLastHit | static/script.js:164-170 | a position carries the value of the latest earlier axis timestamp the series has |
| Align.FilledBeforeFirstHit | static/script.js:169 | before the series' first timestamp on the axis every value is undefined |
| Align.FilledOwnAxis | static/script.js:164-167 | a duplicate-free series filled over its own timestamps keeps its values |
| Align.FillOnSharedAxis | static/script.js:158-170 | when every series already lies on one duplicate-free sorted axis with one value per timestamp, the object comes back unchanged |
| Align.FillIdempotent | static/script.js:138-182 | filling an already filled object gives it back unchanged |
| Align.AxisIncreasingWhenSameWidth | static/script.js:158 | if all timestamps are non-negative with the same number of digits, the axis strictly increases numerically |
| Align.ExampleAxisInStringOrder | static/script.js:158 | timestamps 0, 10 and 5 are sorted as 0, 10, 5 |
| Align.FillStringOrderExample | static/script.js:158-172 | on that axis series "a" (0→1, 10→2) fills to 1, 2, 2 and series "b" (5→9) to undefined, undefined, 9 |
| JsCompare.StrLessTransitive | static/script.js:158 | the string order the default sort uses is transitive |
| JsCompare.StrLessTotal | static/script.js:158 | the string order is total: of two distinct strings one sorts before the other |
| JsCompare.SameWidthOrder | static/script.js:158 | on decimal strings of equal length the string order is the numeric order |
| CostPerGpu.CostPerGpuSpec | static/script.js:184-190 | the result of `costPerGPU`: it throws exactly when `cost` or `num_gpus` is missing |
| CostPerGpu.TimeseriesObject.CostPerGPU | static/script.js:184-190 | the object is updated in place to the specified result and returned; when `cost` or `num_gpus` is missing, the error is returned and the object is untouched |
| CostPerGpu.TimeseriesObject.constructor | static/script.js:184 | the object holds the given entries |
| CostPerGpu.DivideBy | static/script.js:187 | the `cost.map`: as many values as the cost series, value i divided by GPU count i (undefined past its end) |
| CostPerGpu.Remove | static/script.js:188 | `delete`: no more properties than before (`RemoveMembers` and `RemoveKeys` state which remain) |
| CostPerGpu.CostPerGpuFails | static/script.js:185-186 | the call throws exactly when `cost` or `num_gpus` is missing |
| CostPerGpu.CostPerGpuKeys | static/script.js:188 | on success `num_gpus` is gone, every other key is still there exactly once and in its old order, and there is one property fewer |
| CostPerGpu.CostPerGpuCost | static/script.js:185-187 | on success the cost timestamps are unchanged and cost value i is divided by GPU count i (undefined past its end) |
| CostPerGpu.CostPerGpuOthers | static/script.js:184-190 | every key other than `cost` and `num_gpus` keeps its series |
| CostPerGpu.CostPerGpuExample | static/script.js:187 | costs 10 and 20 over 2 and 0 GPUs become 5 and +Infinity, and `num_gpus` is gone |
| CostPerGpu.RemoveMembers | static/script.js:188 | `delete` keeps exactly the entries with another key |
| CostPerGpu.RemoveKeys | static/script.js:188 | `delete` leaves the other keys in their old order |
| JsValues.Div | static/script.js:187 | division of JavaScript numbers: exact on finite operands with a non-zero divisor, non-finite on a zero divisor, NaN on undefined or NaN |
| Unpack.UnpackSeries | static/script.js:69-91 | the unpacked series object: keys reliability, rent, cost and num_gpus in assignment order, every series with as many timestamps as values |
| Unpack.ReliabilitySeries | static/script.js:69-72 | one point per row: the row's timestamp and its reliability divided by 100 |
| Unpack.RentRaw | static/script.js:74-77 | one point per row: the row's timestamp and its rented-GPU count |
| Unpack.CostRaw | static/script.js:79-82 | one point per row: the row's timestamp and its base price divided by 1000 |
| Unpack.GpusRaw | static/script.js:84-87 | one point per row: the row's timestamp and its GPU count |
| Unpack.UnpackKeys | static/script.js:69-91 | the series object has keys reliability, rent, cost and num_gpus, once each, in that order |
| Unpack.UnpackReliability | static/script.js:69-72 | reliability is one point per row, divided by 100, not staircased |
| Unpack.UnpackRent | static/script.js:74-77 | the rent series is the staircase of the rented-GPU counts, 2n−1 points for n rows |
| Unpack.UnpackCost | static/script.js:79-82 | the cost series is the staircase of the base prices divided by 1000, 2n−1 points for n rows |
| Unpack.UnpackGpus | static/script.js:84-87 | the GPU-count series is the staircase of the hardware rows' GPU counts |
| Unpack.UnpackEmptyCost | static/script.js:79-90 | an empty cost table gives one undefined point rather than an error |
| Unpack.UnpackScalingExample | static/script.js:71-81 | reliability 9950 becomes 99.5 and base price 1234 becomes 1.234 |
| Unpack.UnpackThenCostPerGpu | static/script.js:69-91 | the unpacked object never makes `costPerGPU` throw, and leaves keys reliability, rent and cost |
| Colors.ColorPicker.constructor | static/script.js:18 | the counter starts at 0 |
| Colors.ColorAt | static/script.js:21-28 | what the `for … in` loop leaves in `result`: a colour exactly when the count is a palette position, and then the colour at that position |
| Colors.NextCount | static/script.js:29 | `++this.count % names_len`: (count+1) mod 3 for a count of at least −1, inside [0,3) when the count was, and always strictly between −3 and 3 |
| Colors.ColorPicker.Get | static/script.js:20-31 | returns the palette colour at the current count (undefined outside the palette) and advances the count by one modulo 3 with JavaScript's `%` |
| Colors.JsRem | static/script.js:29 | JavaScript's `%`: the remainder of truncated division, with the sign of the dividend |
| Colors.CountStaysInRange | static/script.js:29 | a count in [0,3) stays in [0,3) and always yields a colour |
| Colors.CountAfterFromZero | static/script.js:18-31 | after k calls from 0 the count is k mod 3 and the colour is palette entry k mod 3 |
| Colors.FirstFourColors | static/script.js:3-31 | a fresh picker returns red, blue, green, red |
| HexColor.HexToRGBA | static/script.js:34-39 | the text starts with `rgba(` and ends with `, ` + alpha + `)`; a colour string of at most one character gives NaN for all three channels |
| HexColor.ParseIntHex | static/script.js:35-37 | `parseInt(…, 16)`: an empty string is NaN, and a non-empty string of hexadecimal digits parses to the number it denotes |
| HexColor.HexRoundTrip | static/script.js:34-39 | printing three bytes as `#rrggbb` and converting gives their decimal values with the alpha appended |
| HexColor.RedExample | static/script.js:34-39 | `#ff0000` with alpha 0.5 gives `rgba(255, 0, 0, 0.5)` |
| HexColor.UpperCaseExample | static/script.js:35-37 | upper-case digits give the same result |
| HexColor.ShortFormExample | static/script.js:35-38 | `#fff` is not expanded: it gives `rgba(255, 15, NaN, 1)` |
| HexColor.HexPrefixIsLongest | static/script.js:35-37 | `parseInt` reads the longest run of hexadecimal digits |
| HexColor.Slice | static/script.js:35-37 | `slice` with in-range bounds is the substring; it never grows the string |
| Url.UrlSpec | static/script.js:208-222 | the result of `getUrl`: it starts with `/stats`, and with no truthy argument it is `/stats` |
| Url.GetUrl | static/script.js:208-222 | the appends build exactly the specified path |
| Url.UrlStartsWithStats | static/script.js:210 | every path starts with `/stats` |
| Url.UrlQueryMarkIffMachine | static/script.js:212-214 | a `?` follows `/stats` exactly when the machine id is truthy |
| Url.UrlNoArguments | static/script.js:208-222 | with no truthy arguments the path is `/stats` |
| Url.UrlDatesWithoutMachine | static/script.js:215-220 | without a machine id the date parameters are still appended after `/stats` with `&` |
| Url.UrlRoundTrip | static/script.js:208-222 | when the id and the from date contain no `&`, all three arguments can be read back from the path |
| SetQueue.PopState | src/utils.py:236-240 | the effect of `pop`: None exactly on an empty deque, which changes nothing; otherwise the front item leaves the deque and, when no error is raised, is returned |
| SetQueue.PutState | src/utils.py:225-230 | the effect of `put`: the bound is unchanged, the deque grows by at most one item, and on the empty-dict state the item is appended and AttributeError raised |
| SetQueue.Init | src/utils.py:209-223 | the constructor's state: the bound as given; a scalar gives a valid one-item queue; a non-empty iterable gives its items, valid exactly when they are distinct; anything falsy gives an empty deque with the empty dict |
| SetQueue.TrimState | src/utils.py:229-230 | the bound check: when a truthy bound is exceeded the front item leaves, otherwise nothing changes; a queue one item over a positive bound is brought within it; a valid queue stays valid and nothing is raised |
| SetQueue.SetQueue.constructor | src/utils.py:209-223 | the fields are set as the constructor's three cases specify |
| SetQueue.SetQueue.Put | src/utils.py:225-230 | the new state and the error follow the specification of `put`, including trimming through `pop` |
| SetQueue.SetQueue.Add | src/utils.py:232-234 | has exactly the effect of `put` and returns the same object |
| SetQueue.SetQueue.Pop | src/utils.py:236-240 | the new state and the result follow the specification of `pop`, including the errors raised after popping |
| SetQueue.SetQueue.Len | src/utils.py:242-243 | the length of the deque; under the invariant also the number of distinct items |
| SetQueue.PopFront | src/utils.py:236-240 | on a valid non-empty queue: returns the front item, removes it from the deque and the set, keeps the invariant |
| SetQueue.PopEmpty | src/utils.py:237 | on an empty deque: returns None and changes nothing |
| SetQueue.PutKeepsValid | src/utils.py:225-240 | `put` keeps the invariant (set mirrors deque, no duplicates) and raises nothing on a valid queue |
| SetQueue.PutFresh | src/utils.py:226-228 | a new item is appended at the back and added to the set, and nothing else changes when no trimming is due |
| SetQueue.PutPresent | src/utils.py:225-230 | an item already present leaves the queue unchanged apart from trimming |
| SetQueue.PutKeepsBound | src/utils.py:229-230 | a truthy bound that held before `put` holds after it |
| SetQueue.PutIdempotent | src/utils.py:225-228 | on an unbounded valid queue a second `put` of the same item changes nothing |
| SetQueue.InitCases | src/utils.py:213-221 | scalar: one-item queue; non-empty iterable: its items, valid iff distinct; falsy: empty deque with a dict |
| SetQueue.EmptyThenPut | src/utils.py:219-228 | after an empty constructor `put` appends and then raises, and a `pop` after that raises too |
| SetQueue.DuplicateInitThenPop | src/utils.py:216-218 | a constructor given a repeated item raises on the second `pop` |
| GroupBy.IsSorted | src/utils.py:66-67 | true exactly when the array is non-decreasing |
| GroupBy.SortRows | src/utils.py:106-109 | the model's stable sort, standing for `np.argsort` and the two indexings: as many rows as given (`SortRowsSorted` and `GroupSortRows` state order and contents) |
| GroupBy.GroupSortRows | src/utils.py:106-109 | the model's stable sort, standing for `np.argsort`, keeps each id's values in their original order |
| GroupBy.SortRowsSorted | src/utils.py:106-109 | the rows come out sorted by id |
| GroupBy.SortedGroupSlice | src/utils.py:112-115 | in sorted rows group k is exactly the slice between two consecutive group starts |
| GroupBy.ChangePoints | src/utils.py:112 | `np.diff(ids).nonzero()[0] + 1`: strictly increasing positions, each one where the id differs from the one before, and every such position present |
| GroupBy.Starts | src/utils.py:113 | `np.hstack([0, slice_idx])`: begins with 0, strictly increasing, every start inside the array |
| GroupBy.ReduceAt | src/utils.py:115 | `ufunc.reduceat`: one value per group start |
| GroupBy.NpGroupBy | src/utils.py:95-115 | the result of `np_group_by`: the reduceat error exactly on an empty table, otherwise at least one value |
| GroupBy.NpGroupByMeaning | src/utils.py:95-115 | one value per distinct id, ids strictly ascending, each value the fold of that id's values; on an empty table, the reduceat error |
| GroupBy.NpGroupBySumExample | src/utils.py:95-115 | summing ids 2, 1, 2 with values 10, 20, 30 gives 20 for id 1 and 40 for id 2 |
| VastDb.SqlQuery | src/vastdb.py:9-15 | the result of `_get_sql_query`: it starts with the base query, and with no truthy bound it is the base query |
| VastDb.GetSqlQuery | src/vastdb.py:9-15 | the appends build exactly the specified query |
| VastDb.QueryStartsWithBase | src/vastdb.py:10 | every query starts with `SELECT * FROM tbl WHERE machine_id=id` |
| VastDb.QueryWithoutBounds | src/vastdb.py:9-15 | with no truthy bound (None or 0) the query is the base query |
| VastDb.QueryRoundTrip | src/vastdb.py:9-15 | the machine id and the truthy bounds can be read back from the query, `from` before `to`; falsy bounds read back as absent |
| VastDb.TablesDistinct | src/vastdb.py:68-69 | the eight table names are distinct |
| VastDb.Envelope | src/vastdb.py:76 | the JSON text opens with `{` and closes with `}` |
| VastDb.DictSet | src/vastdb.py:71-74 | `result[tbl_name] = …`: a key not yet present is appended at the end |
| VastDb.StatsEntries | src/vastdb.py:66-74 | the dictionary the loops build: eight entries, keyed by the eight table names in source order |
| VastDb.GetMachineStats | src/vastdb.py:66-78 | the two loops and the join build exactly the envelope of the specified eight entries |
| VastDb.StatsKeysAndQueries | src/vastdb.py:68-74 | eight keys: the five time-series tables in order with the bounds, then the three snapshot tables with the bare query |
| VastDb.EnvelopeEnds | src/vastdb.py:76 | the envelope starts with `{` and the first piece and ends with the last piece and `}`, separated by commas |
| VastDb.StatsEnvelope | src/vastdb.py:66-78 | the JSON text starts with the `rent_ts` piece and ends with the `cpu_ram_snp` piece |
| Params.ParseParams | main.py:27-47 | the result of `parse_params`: on success the machine id is what `int()` gives for the first `machine_id` value and each date bound is `datetime_to_ts` of a present, non-empty first value; a missing machine id is reported only when `machine_id` is absent |
| Params.FirstValue | main.py:28-29 | a missing key gives None, an empty list raises, otherwise the first value |
| Params.ParseParamsOutcome | main.py:27-47 | success exactly when the lists can be indexed, the machine id is present and an integer, and each truthy date converts; then the id is that integer and each date is its timestamp or None |
| Params.EmptyListFails | main.py:28-29 | an empty parameter list raises IndexError |
| Params.MissingMachineId | main.py:28-32 | a missing `machine_id` is reported |
| Params.MachineIdNotAnInteger | main.py:34-37 | a `machine_id` that `int()` rejects is reported with its text |
| Params.OnlyFirstValues | main.py:28-29 | only the first value of each of the three lists matters, and no other key |
| Params.EmptyDateIsNone | main.py:39-45 | an empty date gives None without being converted |
| Params.EpochDateDropsBound | main.py:39-41 | a date whose timestamp is 0 is kept, but the query built from it has no `from` bound |
| Decimal.IntStrRoundTrip | src/vastdb.py:10-14 | an integer printed in decimal reads back as the same integer |
| Decimal.IntStr | src/vastdb.py:10-14 | an integer as the f-strings print it: non-empty, starting with `-` exactly when negative, decimal digits otherwise |

## Left out

- The HTTP server in `main.py` (request handler, threading, signals, gzip, logging) is I/O and concurrency.
- `get_dbrequest_sql` and `get_last_value_sql` in `main.py` are not modelled. They treat the integer machine id from `parse_params` as a list, so they cannot run as written.
- `handle_test_request` is not modelled: it calls `get_machine_stats` with one argument where three are required.
- Database access in `VastDB` (connection, `execute`, `read_sql`, `to_json`) is I/O. A function parameter `run` stands for "run this query and return its JSON text".
- VastDb.GetMachineStats: returns the text before `.encode('utf-8')`; the byte encoding is not modelled.
- The clock, rounding and pandas helpers in `src/utils.py` are not modelled; there is no logic to prove in them:
  - float, dtype and clock helpers: `reduce_mem_usage`, `custom_round`, `round_base`, `round_day`, `next_timeout`, `time_ms`, `time_utc_now`, `datetime_to_ts`;
  - printing, file and traceback helpers: `df_na_vals`, `read_last_n_lines`, `get_error_info`.
- `np_argmax_reduceat` is not modelled: it has no stated contract to prove.
- `src/const.py` is not modelled: it holds only constants.
- The DOM code (`showLoading`, `hideLoading`, plotting) and the info-record formatting of `unpackJSON` after line 91 are browser I/O and string formatting.
- Floating point: numbers are exact reals with explicit infinities and NaN. Rounding and negative zero are not modelled.
- Every row field read at `static/script.js` lines 69-87 is a number in the model; `null` and missing fields are not modelled (JavaScript would turn `null / 100` into 0 and pass `null` through `staircaseFill`).
- GroupBy.NpGroupBy: `np.argsort` is not stable; the model sorts stably. The results agree whenever the ufunc is associative and commutative on each id's values, as `np.add` and `np.maximum` are.
- GroupBy.GroupSortRows: holds of the model's stable sort; `np.argsort` is not stable, so the source only keeps each id's values up to permutation.
- GroupBy.NpGroupBy: ids are unbounded integers and the values are of any type; numpy's dtypes and overflow are not modelled.
- Params.ParseParams: `int()` and `datetime_to_ts` are function parameters that return None where the real functions raise. Their parsing rules are not modelled.
- The arguments of `getUrl` and of `hexToRGBA`'s alpha are modelled as strings. Numeric arguments, and JavaScript's conversion of them to text, are not modelled.
- HexColor.ParseIntHex: handles only radix 16, which is all `hexToRGBA` uses.
- Object keys are kept in insertion order. JavaScript lists integer-like keys first, in numeric order, but such keys do not occur here: the keys are the metric names and the palette names.
- `Colors.get` relies on `for ... in` listing the palette keys in insertion order, which holds for those string keys.
- Align.FillMissingValues: in JavaScript every key of the result shares the one `allTimestamps` array object; the model gives each key its own copy of the axis. Nothing in the core mutates that array, but the sharing is not modelled.
- HexColor.Slice: counts Unicode scalar values, where JavaScript's `slice` counts UTF-16 code units; the two differ only for characters outside the Basic Multilingual Plane, which colour strings do not contain.
