# ETL-Finance: the transform and load steps

This project models the two core steps of the Airflow DAG in `dags/etl.py`.
The DAG pulls daily stock prices from Alpha Vantage and writes them to Postgres.

- `transform_time_series_data` validates an Alpha Vantage `TIME_SERIES_DAILY` response.
  It rejects, in this order:
  1. a string response that does not decode as JSON;
  2. a dict carrying the provider's `Note`, `Information` or `Error Message` keys;
  3. a value that is not a dict, or a dict missing either `Meta Data` or `Time Series (Daily)`;
  4. a Meta Data without a truthy `2. Symbol`.

  It then builds one row per `(trading_date, values)` item of the time series, in iteration order.
  It converts the four prices with `float()` and the volume with `int()`.
  A failing conversion raises, so no rows are returned at all.
- `load_data_to_postgres` runs one `INSERT ... ON CONFLICT (symbol, trading_date) DO UPDATE` per row, in order.
  The table's primary key `(symbol, trading_date)` (`dags/etl.py:33`) is the key of a map.

Modules:

- `Wrappers`: `Option`, `Result`, and `MapResults`.
  `MapResults` maps a fallible function over a sequence and stops at the first failure.
  Generic lemmas about it are proved here.
- `Json`: decoded JSON values.
  An object is an association list, so the order of `dict.items()` is kept.
  The module also gives Python's `type()`, truthiness, `dict.get`, and `in` on a dict.
- `Numbers`: `float()` and `int()` on decoded values, with exact decimals instead of binary floats.
  This includes a decimal-text parser, a canonical formatter that it inverts, and `int()`'s truncation toward zero.
- `Normalizer`: the validation cascade as functions, and the row-building loop.
  `TransformTimeSeriesData` is a method, proved equal to the function `Transform`.
  Its row loop is the method `AppendRows`, proved equal to the function `RowsOf`.
  Each check's `ValueError` is a `TransformError` variant.
  So are the `AttributeError`, `TypeError`, `KeyError` and `ValueError` that the unguarded lookups and conversions raise on a missing field, a non-dict, or a non-numeric value.
  The numeric limits of `float()` and `int()` listed under "## Left out" are not modelled.
- `Upserter`: the effect of the upsert statements on the table contents.
  `UpsertAll` is the specification.
  `TimeSeriesDataTable` is a class whose `contents` field its methods update one statement at a time.
- `Pipeline`: properties of the two steps together, and worked examples:
  - an IBM response;
  - a throttled response;
  - a repeated load.

`json.loads` is a parameter of the model (`Normalizer.Loads`): `None` stands for a decoding exception.

## Model

| member | source | states |
|---|---|---|
| Normalizer.TransformTimeSeriesData | dags/etl.py:58-102 | The method's result equals `Transform`, the whole validation cascade followed by the row loop. On the first entry that fails to convert, it returns that entry's error and no rows. |
| Normalizer.AppendRows | dags/etl.py:90-102 | The loop's result equals `RowsOf`: the rows of all items in iteration order, or the error of the first item that fails. |
| Normalizer.NonJsonStringRejected | dags/etl.py:62-67 | A string response gives the non-JSON error if and only if `json.loads` fails on it. The preview is the first 200 characters, or the whole string when it is shorter. |
| Normalizer.DecodedOnce | dags/etl.py:62-67 | A decoded string is validated as it is and never decoded again. A non-string response is validated without decoding. A decoded value that is itself a string is rejected as "not a dict" with type `str`. |
| Normalizer.ProviderKeysFirst | dags/etl.py:69-76 | `Note` is checked before `Information`, which is checked before `Error Message`. Each one, when present, decides the error with its own value, whatever else the dict holds. |
| Normalizer.MissingSectionsRejected | dags/etl.py:78-83 | A non-dict is rejected with its type. A dict without provider keys that lacks either section is rejected with its list of top-level keys. |
| Normalizer.SymbolRequired | dags/etl.py:85-87 | With both sections present, a Meta Data dict whose `2. Symbol` is missing or falsy is rejected with that Meta Data. A non-dict Meta Data raises the `.get` `AttributeError`. |
| Normalizer.SectionsFound | dags/etl.py:78-89 | Both sections present, a truthy symbol and a dict time series yield that symbol and the time series' items. |
| Normalizer.RowOf | dags/etl.py:91-100 | A row carries the Meta Data symbol and the item's key as its trading date. A non-subscriptable entry raises `TypeError`. Every failure names the item's trading date. |
| Normalizer.RowOfConvertible | dags/etl.py:92-100 | An item converts exactly when all five fields are present and convert. The row holds `float()` of the four price fields and `int()` of the volume. |
| Normalizer.TransformedRows | dags/etl.py:89-102 | A successful call means the response passed every check. There is one row per time-series entry, in iteration order, each built from its own entry. |
| Normalizer.AcceptedWhenValid | dags/etl.py:89-102 | Conversely, a response passing every check whose entries all convert is accepted (all-or-nothing). |
| Normalizer.RejectedOnFirstBadEntry | dags/etl.py:91-100 | If entry `k` is the first that does not convert, the whole call fails with entry `k`'s error. |
| Numbers.DecimalRoundTrip | dags/etl.py:95-98 | `float()` of a decimal's canonical spelling gives back that exact decimal. |
| Numbers.IntegerRoundTrip | dags/etl.py:99 | `int()` of an integer's decimal spelling gives back that integer. |
| Numbers.TruncateTowardZero | dags/etl.py:99 | `int()` of a float rounds toward zero, for negative values too. |
| Json.HasKeyListed | dags/etl.py:71-79 | `key in d` holds exactly when the key is among `d.keys()`. If so, `d.get(key)` returns a value stored with that key. |
| Json.GetDistinct | dags/etl.py:85-91 | With distinct keys, looking up an item's key returns that item's value. |
| Wrappers.MapResultsAllOrNothing | dags/etl.py:90-102 | The row loop succeeds exactly when every entry converts. |
| Wrappers.MapResultsSuccess | dags/etl.py:90-102 | On success there is exactly one result per entry, in order, and each is that entry's own result. |
| Wrappers.MapResultsFailure | dags/etl.py:90-102 | On failure, the error is that of some entry all of whose predecessors converted. |
| Wrappers.MapResultsFirstFailure | dags/etl.py:90-102 | The first failing entry decides the error. |
| Wrappers.MapResultsFailedPrefix | dags/etl.py:90-102 | A failure within the first `n` entries is the result of the whole loop, whatever follows. |
| Wrappers.MapResultsStep | dags/etl.py:91-100 | Appending the row of one more successful item extends the rows built so far by exactly that row. |
| Upserter.LastWrite | dags/etl.py:120-132 | A key has no last write exactly when no row carries it. |
| Upserter.LastWriteIsLast | dags/etl.py:120-132 | The last write for a key is the last row carrying it. |
| Upserter.LastWriteWins | dags/etl.py:108-132 | After the load, every key carried by some row holds the values of the last such row. Every other key keeps its prior value, or stays absent. |
| Upserter.Idempotent | dags/etl.py:108-132 | Loading the same rows a second time leaves the table unchanged. |
| Upserter.LoadedKeys | dags/etl.py:108-132 | After the load, the table holds exactly its prior keys and the rows' keys. |
| Upserter.TimeSeriesDataTable.constructor | dags/etl.py:24-35 | The table starts with the contents it already holds; `CREATE TABLE IF NOT EXISTS` never empties it. |
| Upserter.TimeSeriesDataTable.Upsert | dags/etl.py:108-117 | One statement inserts the row's key, or overwrites all five value columns of that key, and changes nothing else. |
| Upserter.TimeSeriesDataTable.LoadDataToPostgres | dags/etl.py:105-132 | The loop leaves the table equal to `UpsertAll` of the old contents. Every key written holds its last write, and every other key is untouched. |
| Pipeline.NormalisedRowsReadBack | dags/etl.py:89-132 | Rows the transform produced are stored verbatim: each row's key reads back that row's values. |
| Pipeline.IbmResponseNormalised | dags/etl.py:58-102 | An IBM response with one trading day yields exactly the expected single row. |
| Pipeline.IbmValuesConverted | dags/etl.py:92-100 | The IBM day's string fields convert to the expected decimals and volume. |
| Pipeline.PriceFieldConverted | dags/etl.py:95-98 | A price field spelled canonically converts to that decimal. |
| Pipeline.VolumeFieldConverted | dags/etl.py:99 | A volume field spelled in decimal converts to that integer. |
| Pipeline.ThrottledResponseRejected | dags/etl.py:71-72 | A response with a `Note` is rejected with that note, even though it carries Meta Data. |
| Pipeline.RepeatedIbmLoads | dags/etl.py:108-132 | Loading the IBM row twice equals loading it once. A revised row then overwrites that key only. |

## Left out

- Airflow orchestration (DAG construction, `@task`, scheduling, task wiring): it is glue, not behaviour of the steps.
- The `HttpOperator` request to Alpha Vantage: it is network I/O. Its output is the `response` parameter.
- `PostgresHook` connections and the DDL text: they are foreign database calls. Only the composite primary key is kept, as the map key, and the table is a map from key to the five value columns.
- `json.loads`: it is a parameter. Decoding JSON text is not modelled.
- `Numbers.ParseDecimal`, `Numbers.ParseInteger`: these accept only an optional sign, ASCII digits, and for `float()` one optional '.', with at least one digit in all. Python also accepts exponents, `inf`/`nan`, surrounding whitespace, underscores and non-ASCII Unicode decimal digits (`float("１００")`, `int("٣")`). The model rejects these with `FieldNotNumeric`, because it has no binary floating point and no Unicode digit table. JSON's non-standard `NaN`/`Infinity` are left out for the same reason.
- Numbers.ParseInteger: Python 3.11 and later raise `ValueError` from `int()` on a digit string longer than 4300 digits (the default `sys.get_int_max_str_digits`). The model has no such limit and accepts that volume.
- Numbers.PyFloat: `float()` raises `OverflowError` on a JSON integer beyond the float range (for example `10**400`). The model turns every integer into an exact `Decimal` and accepts that row.
- Numbers.PyFloat: a float is an exact `Decimal`. The binary rounding of `float()` and the `NUMERIC(12,4)` rounding on storage are not modelled.
- Numbers.ParseDecimal: a `Decimal` keeps its scale, so `"100"` and `"100.00"` parse to different values, although Python floats and `NUMERIC(12,4)` storage treat them as equal. As a result, reloading a row whose price is spelled differently but equal changes the model's table. It would not change the database's stored value.
- The column types `VARCHAR(10)`, `DATE` and `BIGINT`: the database's coercion and rejection of values that do not fit are not modelled. The key is the symbol value and the trading-date string exactly as the transform produced them.
- Transactions, partial commits when a statement fails, and concurrent runs: these are database behaviour outside the code.
- Duplicate keys in a JSON object: a Python dict has distinct keys, and `Json.Get` returns the first match. `Pipeline.NormalisedRowsReadBack` assumes distinct trading dates, as a decoded dict guarantees.
- Non-negativity and `low <= high` checks: the code performs none, so the model adds none. A negative or inconsistent price is accepted as the code accepts it.
