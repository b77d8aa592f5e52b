/** `transform_time_series_data`: validates an Alpha Vantage TIME_SERIES_DAILY
    response and flattens its per-date entries into rows. */
module Normalizer {
  import opened Wrappers
  import opened Json
  import opened Numbers

  const NOTE_KEY := "Note"
  const INFORMATION_KEY := "Information"
  const ERROR_MESSAGE_KEY := "Error Message"
  const META_DATA_KEY := "Meta Data"
  const TIME_SERIES_KEY := "Time Series (Daily)"
  const SYMBOL_KEY := "2. Symbol"
  const OPEN_KEY := "1. open"
  const HIGH_KEY := "2. high"
  const LOW_KEY := "3. low"
  const CLOSE_KEY := "4. close"
  const VOLUME_KEY := "5. volume"

  /** How much of an undecodable response the error message shows. */
  const PREVIEW_LENGTH: nat := 200

  /** The five value columns of one trading day. */
  datatype Prices = Prices(open: Decimal, high: Decimal, low: Decimal, close: Decimal, volume: int)

  /** One normalised row. The symbol is whatever truthy value the Meta Data
      holds, and the trading date is the time-series key, unchanged. */
  datatype Row = Row(symbol: Json, tradingDate: string, prices: Prices)

  /** Why a response is rejected, with the context the raised error carries.
      The first eight are the job's own checks; the rest are the Python
      exceptions that the unguarded lookups and conversions raise. */
  datatype TransformError =
    | NonJsonResponse(preview: string)
    | RateLimitHit(note: Json)
    | InformationNotice(information: Json)
    | ProviderError(message: Json)
    | NotADict(responseType: PyType)
    | MissingExpectedKeys(topLevelKeys: seq<string>)
    | NoSymbol(metaData: Json)
    | MetaDataNotDict(metaDataType: PyType)
    | TimeSeriesNotDict(timeSeriesType: PyType)
    | EntryNotSubscriptable(tradingDate: string, entryType: PyType)
    | FieldMissing(tradingDate: string, field: string)
    | FieldNotNumeric(tradingDate: string, field: string, value: Json)

  /** An error raised while converting the item for `tradingDate`. */
  predicate EntryError(e: TransformError, tradingDate: string) {
    || (e.EntryNotSubscriptable? && e.tradingDate == tradingDate)
    || (e.FieldMissing? && e.tradingDate == tradingDate)
    || (e.FieldNotNumeric? && e.tradingDate == tradingDate)
  }

  /** `json.loads`, supplied by the caller: None where it raises. */
  type Loads = string -> Option<Json>

  /** The two sections a valid response provides: the symbol from the
      Meta Data and the entries of the daily time series, in order. */
  datatype Sections = Sections(symbol: Json, entries: seq<(string, Json)>)

  /** `response[:200]`. */
  function Preview(s: string): string {
    if |s| <= PREVIEW_LENGTH then s else s[..PREVIEW_LENGTH]
  }

  /** The string decoding: a string response is decoded once; anything else passes through. */
  function Decode(loads: Loads, response: Json): Result<Json, TransformError> {
    match response
    case JString(text) =>
      (match loads(text)
       case None => Failure(NonJsonResponse(Preview(text)))
       case Some(v) => Success(v))
    case _ => Success(response)
  }

  /** The provider keys: the throttle and error keys, in the order checked. */
  function ProviderFailure(v: Json): Option<TransformError> {
    match v
    case JObject(m) =>
      (match Get(m, NOTE_KEY)
       case Some(note) => Some(RateLimitHit(note))
       case None =>
         match Get(m, INFORMATION_KEY)
         case Some(info) => Some(InformationNotice(info))
         case None =>
           match Get(m, ERROR_MESSAGE_KEY)
           case Some(message) => Some(ProviderError(message))
           case None => None)
    case _ => None
  }

  /** The sections and symbol: the expected top-level keys, the symbol, and the
      time-series mapping whose items are iterated. */
  function ExtractSections(v: Json): Result<Sections, TransformError> {
    match v
    case JObject(m) =>
      if !HasKey(m, META_DATA_KEY) || !HasKey(m, TIME_SERIES_KEY) then
        Failure(MissingExpectedKeys(Keys(m)))
      else
        var metaData := Get(m, META_DATA_KEY).value;
        (match metaData
         case JObject(meta) =>
           var symbol := Get(meta, SYMBOL_KEY);
           if symbol.None? || !Truthy(symbol.value) then
             Failure(NoSymbol(metaData))
           else
             (match Get(m, TIME_SERIES_KEY).value
              case JObject(entries) => Success(Sections(symbol.value, entries))
              case other => Failure(TimeSeriesNotDict(TypeOf(other))))
         case _ => Failure(MetaDataNotDict(TypeOf(metaData))))
    case _ => Failure(NotADict(TypeOf(v)))
  }

  /** The provider keys, then the sections and symbol, on a decoded value. */
  function ValidateDecoded(v: Json): Result<Sections, TransformError> {
    match ProviderFailure(v)
    case Some(e) => Failure(e)
    case None => ExtractSections(v)
  }

  /** Everything `transform_time_series_data` checks before the loop. */
  function Validate(loads: Loads, response: Json): Result<Sections, TransformError> {
    var v :- Decode(loads, response);
    ValidateDecoded(v)
  }

  /** `values[field]` of one entry. */
  function FieldValue(tradingDate: string, values: Json, field: string): Result<Json, TransformError> {
    match values
    case JObject(m) =>
      (match Get(m, field)
       case Some(x) => Success(x)
       case None => Failure(FieldMissing(tradingDate, field)))
    case _ => Failure(EntryNotSubscriptable(tradingDate, TypeOf(values)))
  }

  /** `float(values[field])`. */
  function FloatField(tradingDate: string, values: Json, field: string): Result<Decimal, TransformError> {
    var x :- FieldValue(tradingDate, values, field);
    match PyFloat(x)
    case Some(d) => Success(d)
    case None => Failure(FieldNotNumeric(tradingDate, field, x))
  }

  /** `int(values[field])`. */
  function IntField(tradingDate: string, values: Json, field: string): Result<int, TransformError> {
    var x :- FieldValue(tradingDate, values, field);
    match PyInt(x)
    case Some(n) => Success(n)
    case None => Failure(FieldNotNumeric(tradingDate, field, x))
  }

  /** The value of `field` in an entry, converted by `float()`, when that succeeds. */
  function FloatAt(values: Json, field: string): Option<Decimal> {
    match values
    case JObject(m) => (match Get(m, field) case Some(x) => PyFloat(x) case None => None)
    case _ => None
  }

  /** The value of `field` in an entry, converted by `int()`, when that succeeds. */
  function IntAt(values: Json, field: string): Option<int> {
    match values
    case JObject(m) => (match Get(m, field) case Some(x) => PyInt(x) case None => None)
    case _ => None
  }

  /** An entry all five of whose fields are present and convert. */
  predicate Convertible(values: Json) {
    && FloatAt(values, OPEN_KEY).Some?
    && FloatAt(values, HIGH_KEY).Some?
    && FloatAt(values, LOW_KEY).Some?
    && FloatAt(values, CLOSE_KEY).Some?
    && IntAt(values, VOLUME_KEY).Some?
  }

  /** The row dict built for one `(trading_date, values)` item; its fields
      are looked up and converted left to right, so the first field that
      fails decides the error. */
  function RowOf(symbol: Json, entry: (string, Json)): (r: Result<Row, TransformError>)
    ensures r.Success? ==> r.value.symbol == symbol && r.value.tradingDate == entry.0
    ensures !entry.1.JObject? ==> r == Failure(EntryNotSubscriptable(entry.0, TypeOf(entry.1)))
    ensures r.Failure? ==> EntryError(r.error, entry.0)
  {
    var (tradingDate, values) := entry;
    var open :- FloatField(tradingDate, values, OPEN_KEY);
    var high :- FloatField(tradingDate, values, HIGH_KEY);
    var low :- FloatField(tradingDate, values, LOW_KEY);
    var close :- FloatField(tradingDate, values, CLOSE_KEY);
    var volume :- IntField(tradingDate, values, VOLUME_KEY);
    Success(Row(symbol, tradingDate, Prices(open, high, low, close, volume)))
  }

  /** An entry becomes a row exactly when all five fields are present and
      convert, and the row then holds the converted values. */
  lemma RowOfConvertible(symbol: Json, entry: (string, Json))
    ensures RowOf(symbol, entry).Success? <==> Convertible(entry.1)
    ensures RowOf(symbol, entry).Success? ==> RowOf(symbol, entry).value == Row(symbol, entry.0, Prices(
      FloatAt(entry.1, OPEN_KEY).value, FloatAt(entry.1, HIGH_KEY).value,
      FloatAt(entry.1, LOW_KEY).value, FloatAt(entry.1, CLOSE_KEY).value,
      IntAt(entry.1, VOLUME_KEY).value))
  {
  }

  /** The loop over `time_series.items()`: the rows of all entries in
      order, or the error of the first entry that fails. */
  function RowsOf(symbol: Json, entries: seq<(string, Json)>): Result<seq<Row>, TransformError> {
    MapResults(e => RowOf(symbol, e), entries)
  }

  /** Every check after the string decoding, then the row loop, on a decoded value. */
  function TransformDecoded(v: Json): Result<seq<Row>, TransformError> {
    var sections :- ValidateDecoded(v);
    RowsOf(sections.symbol, sections.entries)
  }

  /** The whole of `transform_time_series_data`, as a value. */
  function Transform(loads: Loads, response: Json): Result<seq<Row>, TransformError> {
    var v :- Decode(loads, response);
    TransformDecoded(v)
  }

  /** The time-series entries of a decoded response, when it has a dict there. */
  function TimeSeriesEntries(v: Json): Option<seq<(string, Json)>> {
    match v
    case JObject(m) =>
      (match Get(m, TIME_SERIES_KEY)
       case Some(JObject(entries)) => Some(entries)
       case _ => None)
    case _ => None
  }

  /** The Meta Data's "2. Symbol" of a decoded response, when there is one. */
  function MetaSymbol(v: Json): Option<Json> {
    match v
    case JObject(m) =>
      (match Get(m, META_DATA_KEY)
       case Some(JObject(meta)) => Get(meta, SYMBOL_KEY)
       case _ => None)
    case _ => None
  }

  /** The provider signalled neither throttling nor an error. */
  predicate NoProviderKeys(m: seq<(string, Json)>) {
    !HasKey(m, NOTE_KEY) && !HasKey(m, INFORMATION_KEY) && !HasKey(m, ERROR_MESSAGE_KEY)
  }

  /** The sections are found in a dict that has both keys, a Meta Data dict
      with a truthy symbol, and a time-series dict. */
  lemma SectionsFound(m: seq<(string, Json)>, meta: seq<(string, Json)>, symbol: Json, entries: seq<(string, Json)>)
    requires Get(m, META_DATA_KEY) == Some(JObject(meta)) && Get(m, TIME_SERIES_KEY) == Some(JObject(entries))
    requires Get(meta, SYMBOL_KEY) == Some(symbol) && Truthy(symbol)
    ensures ExtractSections(JObject(m)) == Success(Sections(symbol, entries))
  {
    assert HasKey(m, META_DATA_KEY) && HasKey(m, TIME_SERIES_KEY);
    var metaData := Get(m, META_DATA_KEY).value;
    assert metaData == JObject(meta);
    assert !(Get(meta, SYMBOL_KEY).None? || !Truthy(Get(meta, SYMBOL_KEY).value));
  }

  /** The whole call is the validation followed by the row loop. */
  lemma TransformViaValidate(loads: Loads, response: Json)
    ensures Validate(loads, response).Failure? ==>
      Transform(loads, response) == Failure(Validate(loads, response).error)
    ensures Validate(loads, response).Success? ==>
      Transform(loads, response) == RowsOf(Validate(loads, response).value.symbol, Validate(loads, response).value.entries)
  {
  }

  /** The `transform_time_series_data` step: validate, then append one row per time-series item. */
  method TransformTimeSeriesData(loads: Loads, response: Json) returns (result: Result<seq<Row>, TransformError>)
    ensures result == Transform(loads, response)
  {
    TransformViaValidate(loads, response);
    var validated := Validate(loads, response);
    if validated.Failure? {
      return Failure(validated.error);
    }
    result := AppendRows(validated.value.symbol, validated.value.entries);
  }

  /** The `for` loop: one row appended per item, in order, until an item
      fails to convert. */
  method AppendRows(symbol: Json, timeSeries: seq<(string, Json)>) returns (result: Result<seq<Row>, TransformError>)
    ensures result == RowsOf(symbol, timeSeries)
  {
    var rows: seq<Row> := [];
    var i := 0;
    while i < |timeSeries|
      invariant 0 <= i <= |timeSeries|
      invariant RowsOf(symbol, timeSeries[..i]) == Success(rows)
    {
      var row := RowOf(symbol, timeSeries[i]);
      if row.Failure? {
        assert timeSeries[..i + 1][..i] == timeSeries[..i];
        MapResultsFailedPrefix(e => RowOf(symbol, e), timeSeries, i + 1);
        return Failure(row.error);
      }
      MapResultsStep(e => RowOf(symbol, e), timeSeries, i, rows);
      rows := rows + [row.value];
      i := i + 1;
    }
    assert timeSeries[..i] == timeSeries;
    result := Success(rows);
  }

  /** A string that does not decode is rejected with its first 200
      characters, and that is the only way this error arises. */
  lemma NonJsonStringRejected(loads: Loads, text: string)
    ensures loads(text).None? <==> Transform(loads, JString(text)) == Failure(NonJsonResponse(Preview(text)))
    ensures |Preview(text)| == (if |text| <= PREVIEW_LENGTH then |text| else PREVIEW_LENGTH)
    ensures Preview(text) == text[..|Preview(text)|]
  {
    if loads(text).Some? {
      var v := loads(text).value;
      var r := TransformDecoded(v);
      if r.Failure? && ValidateDecoded(v).Success? {
        var sections := ValidateDecoded(v).value;
        MapResultsFailure(e => RowOf(sections.symbol, e), sections.entries);
      }
    }
  }

  /** A decoded string is checked as it is, and is never decoded a second
      time; a value that is not a string is not decoded at all. */
  lemma DecodedOnce(loads: Loads, response: Json)
    ensures response.JString? && loads(response.s).Some? ==>
      Transform(loads, response) == TransformDecoded(loads(response.s).value)
    ensures !response.JString? ==> Transform(loads, response) == TransformDecoded(response)
    ensures response.JString? ==> TransformDecoded(response) == Failure(NotADict(Str))
  {
  }

  /** The throttle and error keys are checked first, in the order Note,
      Information, Error Message, whatever else the dict holds. */
  lemma ProviderKeysFirst(m: seq<(string, Json)>)
    ensures HasKey(m, NOTE_KEY) ==>
      TransformDecoded(JObject(m)) == Failure(RateLimitHit(Get(m, NOTE_KEY).value))
    ensures !HasKey(m, NOTE_KEY) && HasKey(m, INFORMATION_KEY) ==>
      TransformDecoded(JObject(m)) == Failure(InformationNotice(Get(m, INFORMATION_KEY).value))
    ensures !HasKey(m, NOTE_KEY) && !HasKey(m, INFORMATION_KEY) && HasKey(m, ERROR_MESSAGE_KEY) ==>
      TransformDecoded(JObject(m)) == Failure(ProviderError(Get(m, ERROR_MESSAGE_KEY).value))
  {
  }

  /** A value that is not a dict, or a dict without both sections, is
      rejected with its type or with its list of top-level keys. */
  lemma MissingSectionsRejected(v: Json)
    ensures !v.JObject? ==> TransformDecoded(v) == Failure(NotADict(TypeOf(v)))
    ensures v.JObject? && NoProviderKeys(v.members)
            && (!HasKey(v.members, META_DATA_KEY) || !HasKey(v.members, TIME_SERIES_KEY)) ==>
      TransformDecoded(v) == Failure(MissingExpectedKeys(Keys(v.members)))
  {
  }

  /** With both sections present, a Meta Data dict without a truthy
      "2. Symbol" is rejected with that Meta Data. */
  lemma SymbolRequired(m: seq<(string, Json)>)
    requires NoProviderKeys(m)
    requires HasKey(m, META_DATA_KEY) && HasKey(m, TIME_SERIES_KEY)
    ensures Get(m, META_DATA_KEY).value.JObject? && (MetaSymbol(JObject(m)).None? || !Truthy(MetaSymbol(JObject(m)).value)) ==>
      TransformDecoded(JObject(m)) == Failure(NoSymbol(Get(m, META_DATA_KEY).value))
    ensures !Get(m, META_DATA_KEY).value.JObject? ==>
      TransformDecoded(JObject(m)) == Failure(MetaDataNotDict(TypeOf(Get(m, META_DATA_KEY).value)))
  {
  }

  /** What a successful call returns: the response passed every check, and
      there is one row per time-series entry, in order, carrying the Meta
      Data symbol, the entry's key as its date and the entry's values. */
  lemma TransformedRows(v: Json, rows: seq<Row>)
    requires TransformDecoded(v) == Success(rows)
    ensures v.JObject? && NoProviderKeys(v.members)
    ensures MetaSymbol(v).Some? && Truthy(MetaSymbol(v).value)
    ensures TimeSeriesEntries(v).Some?
    ensures |rows| == |TimeSeriesEntries(v).value|
    ensures forall i :: 0 <= i < |rows| ==>
      && rows[i].symbol == MetaSymbol(v).value
      && rows[i].tradingDate == TimeSeriesEntries(v).value[i].0
      && Convertible(TimeSeriesEntries(v).value[i].1)
      && RowOf(MetaSymbol(v).value, TimeSeriesEntries(v).value[i]) == Success(rows[i])
  {
    var sections := ValidateDecoded(v).value;
    assert sections == Sections(MetaSymbol(v).value, TimeSeriesEntries(v).value);
    var symbol, entries := sections.symbol, sections.entries;
    MapResultsSuccess(e => RowOf(symbol, e), entries, rows);
    forall i | 0 <= i < |rows|
      ensures rows[i].symbol == symbol && rows[i].tradingDate == entries[i].0
      ensures Convertible(entries[i].1) && RowOf(symbol, entries[i]) == Success(rows[i])
    {
      RowOfConvertible(symbol, entries[i]);
    }
  }

  /** Conversely, a response that passes every check and whose entries all
      convert is accepted. Together with TransformedRows: the call succeeds
      exactly when all of this holds. */
  lemma AcceptedWhenValid(v: Json)
    requires v.JObject? && NoProviderKeys(v.members)
    requires MetaSymbol(v).Some? && Truthy(MetaSymbol(v).value)
    requires TimeSeriesEntries(v).Some?
    requires forall i :: 0 <= i < |TimeSeriesEntries(v).value| ==> Convertible(TimeSeriesEntries(v).value[i].1)
    ensures TransformDecoded(v).Success?
  {
    var m := v.members;
    var symbol, entries := MetaSymbol(v).value, TimeSeriesEntries(v).value;
    assert HasKey(m, META_DATA_KEY) && HasKey(m, TIME_SERIES_KEY);
    assert ValidateDecoded(v) == Success(Sections(symbol, entries));
    forall i | 0 <= i < |entries| ensures RowOf(symbol, entries[i]).Success? {
      RowOfConvertible(symbol, entries[i]);
    }
    MapResultsAllOrNothing(e => RowOf(symbol, e), entries);
  }

  /** A response that passes the checks but has an entry that does not
      convert yields no rows: the error of the first such entry is raised. */
  lemma RejectedOnFirstBadEntry(v: Json, k: nat)
    requires v.JObject? && NoProviderKeys(v.members)
    requires MetaSymbol(v).Some? && Truthy(MetaSymbol(v).value)
    requires TimeSeriesEntries(v).Some? && k < |TimeSeriesEntries(v).value|
    requires !Convertible(TimeSeriesEntries(v).value[k].1)
    requires forall j :: 0 <= j < k ==> Convertible(TimeSeriesEntries(v).value[j].1)
    ensures TransformDecoded(v).Failure? && RowOf(MetaSymbol(v).value, TimeSeriesEntries(v).value[k]).Failure?
    ensures TransformDecoded(v).error == RowOf(MetaSymbol(v).value, TimeSeriesEntries(v).value[k]).error
  {
    var m := v.members;
    var symbol, entries := MetaSymbol(v).value, TimeSeriesEntries(v).value;
    assert HasKey(m, META_DATA_KEY) && HasKey(m, TIME_SERIES_KEY);
    assert ValidateDecoded(v) == Success(Sections(symbol, entries));
    forall j | 0 <= j < k ensures RowOf(symbol, entries[j]).Success? {
      RowOfConvertible(symbol, entries[j]);
    }
    RowOfConvertible(symbol, entries[k]);
    MapResultsFirstFailure(e => RowOf(symbol, e), entries, k);
  }
}
