/** The transform and the load together, and the worked examples of the
    job's behaviour on an IBM response. */
module Pipeline {
  import opened Wrappers
  import opened Json
  import opened Numbers
  import opened Normalizer
  import opened Upserter

  /** Rows produced by the transform are stored verbatim: after loading them
      into any table, reading back the key of each row gives that row's
      values. Python dicts have distinct keys, so the dates of the time
      series are distinct and no row overrides another. */
  lemma NormalisedRowsReadBack(loads: Loads, response: Json, rows: seq<Row>, table: map<Key, Prices>)
    requires Transform(loads, response) == Success(rows)
    requires Validate(loads, response).Success? && DistinctKeys(Validate(loads, response).value.entries)
    ensures forall i :: 0 <= i < |rows| ==>
      KeyOf(rows[i]) in UpsertAll(table, rows) && UpsertAll(table, rows)[KeyOf(rows[i])] == rows[i].prices
  {
    var sections := Validate(loads, response).value;
    var symbol, entries := sections.symbol, sections.entries;
    assert RowsOf(symbol, entries) == Success(rows);
    MapResultsSuccess(e => RowOf(symbol, e), entries, rows);
    assert forall i :: 0 <= i < |rows| ==> rows[i].symbol == symbol && rows[i].tradingDate == entries[i].0;
    forall i | 0 <= i < |rows|
      ensures KeyOf(rows[i]) in UpsertAll(table, rows) && UpsertAll(table, rows)[KeyOf(rows[i])] == rows[i].prices
    {
      LastWriteIsLast(rows, KeyOf(rows[i]), i);
      LastWriteWins(table, rows, KeyOf(rows[i]));
    }
  }

  const IBM_VALUES := JObject([
    ("1. open", JString("100.00")),
    ("2. high", JString("101.50")),
    ("3. low", JString("99.00")),
    ("4. close", JString("100.75")),
    ("5. volume", JString("5000000"))])

  const IBM_RESPONSE := JObject([
    ("Meta Data", JObject([("2. Symbol", JString("IBM"))])),
    ("Time Series (Daily)", JObject([("2026-01-02", IBM_VALUES)]))])

  const IBM_ROW := Row(JString("IBM"), "2026-01-02",
    Prices(Decimal(10000, 2), Decimal(10150, 2), Decimal(9900, 2), Decimal(10075, 2), 5000000))

  /** A price field spelled in canonical decimal text converts to that decimal. */
  lemma PriceFieldConverted(values: Json, field: string, d: Decimal)
    requires values.JObject? && Get(values.members, field) == Some(JString(FormatDecimal(d)))
    ensures FloatAt(values, field) == Some(d)
  {
    DecimalRoundTrip(d);
  }

  lemma IbmOpen()
    ensures FloatAt(IBM_VALUES, OPEN_KEY) == Some(Decimal(10000, 2))
  {
    assert FormatDecimal(Decimal(10000, 2)) == "100.00";
    PriceFieldConverted(IBM_VALUES, OPEN_KEY, Decimal(10000, 2));
  }

  lemma IbmHigh()
    ensures FloatAt(IBM_VALUES, HIGH_KEY) == Some(Decimal(10150, 2))
  {
    assert FormatDecimal(Decimal(10150, 2)) == "101.50";
    PriceFieldConverted(IBM_VALUES, HIGH_KEY, Decimal(10150, 2));
  }

  lemma IbmLow()
    ensures FloatAt(IBM_VALUES, LOW_KEY) == Some(Decimal(9900, 2))
  {
    assert FormatDecimal(Decimal(9900, 2)) == "99.00";
    PriceFieldConverted(IBM_VALUES, LOW_KEY, Decimal(9900, 2));
  }

  lemma IbmClose()
    ensures FloatAt(IBM_VALUES, CLOSE_KEY) == Some(Decimal(10075, 2))
  {
    assert FormatDecimal(Decimal(10075, 2)) == "100.75";
    PriceFieldConverted(IBM_VALUES, CLOSE_KEY, Decimal(10075, 2));
  }

  /** A volume field spelled in decimal text converts to that integer. */
  lemma VolumeFieldConverted(values: Json, field: string, n: int)
    requires values.JObject? && Get(values.members, field) == Some(JString(FormatInteger(n)))
    ensures IntAt(values, field) == Some(n)
  {
    IntegerRoundTrip(n);
  }

  lemma IbmVolumeText()
    ensures FormatInteger(5000000) == "5000000"
  {
  }

  lemma IbmVolumeStored()
    ensures Get(IBM_VALUES.members, VOLUME_KEY) == Some(JString("5000000"))
  {
    var m := IBM_VALUES.members;
    assert m[4] == (VOLUME_KEY, JString("5000000"));
    assert m[1..][1..][1..][1..][0] == m[4];
  }

  lemma IbmVolume()
    ensures IntAt(IBM_VALUES, VOLUME_KEY) == Some(5000000)
  {
    IbmVolumeText();
    IbmVolumeStored();
    VolumeFieldConverted(IBM_VALUES, VOLUME_KEY, 5000000);
  }

  /** The IBM response carries none of the provider's throttle or error keys. */
  lemma IbmNoProviderKeys()
    ensures ProviderFailure(IBM_RESPONSE) == None
  {
    var m := IBM_RESPONSE.members;
    assert Keys(m) == [META_DATA_KEY, TIME_SERIES_KEY];
    HasKeyListed(m, NOTE_KEY);
    HasKeyListed(m, INFORMATION_KEY);
    HasKeyListed(m, ERROR_MESSAGE_KEY);
  }

  /** The IBM trading day's values convert to the expected prices. */
  lemma IbmValuesConverted()
    ensures RowOf(JString("IBM"), ("2026-01-02", IBM_VALUES)) == Success(IBM_ROW)
  {
    IbmOpen();
    IbmHigh();
    IbmLow();
    IbmClose();
    IbmVolume();
    RowOfConvertible(JString("IBM"), ("2026-01-02", IBM_VALUES));
  }

  /** The IBM response with one trading day becomes exactly one row. */
  lemma IbmResponseNormalised(loads: Loads)
    ensures Transform(loads, IBM_RESPONSE) == Success([IBM_ROW])
  {
    var entry := ("2026-01-02", IBM_VALUES);
    var m := IBM_RESPONSE.members;
    var meta := [("2. Symbol", JString("IBM"))];
    assert Get(m, META_DATA_KEY) == Some(JObject(meta));
    assert Get(m, TIME_SERIES_KEY) == Some(JObject([entry]));
    assert Get(meta, SYMBOL_KEY) == Some(JString("IBM"));
    IbmNoProviderKeys();
    SectionsFound(m, meta, JString("IBM"), [entry]);
    IbmValuesConverted();
    MapResultsSingle(e => RowOf(JString("IBM"), e), entry);
  }

  const THROTTLED_RESPONSE := JObject([
    ("Meta Data", JObject([("2. Symbol", JString("IBM"))])),
    ("Note", JString("Thank you for using Alpha Vantage!"))])

  /** A throttled response is rejected with its note, even though it also
      carries a Meta Data section. */
  lemma ThrottledResponseRejected(loads: Loads)
    ensures Transform(loads, THROTTLED_RESPONSE)
         == Failure(RateLimitHit(JString("Thank you for using Alpha Vantage!")))
  {
    var m := THROTTLED_RESPONSE.members;
    assert m[1] == (NOTE_KEY, JString("Thank you for using Alpha Vantage!"));
    assert Get(m[1..], NOTE_KEY) == Some(m[1].1);
    ProviderKeysFirst(m);
  }

  /** The IBM row with a revised close. */
  const IBM_REVISED := Row(JString("IBM"), "2026-01-02",
    Prices(Decimal(10000, 2), Decimal(10150, 2), Decimal(9900, 2), Decimal(10200, 2), 5000000))

  /** Loading the IBM row twice leaves the table as one load does; loading
      a revised row then overwrites that key's values and nothing else. */
  lemma RepeatedIbmLoads(table: map<Key, Prices>)
    ensures UpsertAll(UpsertAll(table, [IBM_ROW]), [IBM_ROW]) == UpsertAll(table, [IBM_ROW])
    ensures UpsertAll(UpsertAll(table, [IBM_ROW]), [IBM_REVISED]) == table[KeyOf(IBM_ROW) := IBM_REVISED.prices]
  {
    Idempotent(table, [IBM_ROW]);
    assert [IBM_ROW][..0] == [] && [IBM_REVISED][..0] == [];
  }
}
