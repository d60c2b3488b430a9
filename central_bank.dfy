/** The exchange-rate client (CentralBankClient.cs). The HTTP download is an
    input outcome and the XML document arrives already parsed; the .NET
    `int.TryParse` and `decimal.TryParse` routines are function parameters
    whose results the model does not interpret. */
module CentralBank {
  import opened Wrappers
  import opened Text

  /** `ExchangeRate`; `decimal` values are reals. */
  datatype ExchangeRate = ExchangeRate(
    currencyCode: Option<string>,
    unit: int,
    name: Option<string>,
    buyingRate: real,
    sellingRate: real)

  /** A child element of the document root, with the attribute and the child
      elements the mapping loop reads (`null` where absent). */
  datatype XElement = XElement(
    name: string,
    currencyCode: Option<string>,
    unit: Option<string>,
    isim: Option<string>,
    forexBuying: Option<string>,
    forexSelling: Option<string>)

  /** What fetching and parsing the feed produced. */
  datatype FeedResponse =
    | HttpFailure                           // GetStringAsync threw HttpRequestException
    | OtherFailure(message: string)         // any other exception, e.g. from XDocument.Parse
    | Document(root: Option<seq<XElement>>) // the root's children, or no root

  /** A `CultureInfo`: its decimal separator and its `decimal.TryParse`. */
  datatype Culture = Culture(decimalSeparator: string, tryParseDecimal: string -> Option<real>)

  /** The client's parsing capabilities: the `tr-TR` culture and the
      invariant-culture parsers. */
  datatype CentralBankClient = CentralBankClient(
    trCulture: Culture,
    tryParseIntInvariant: string -> Option<int>,
    tryParseDecimalInvariant: string -> Option<real>)

  /** The message of the `InvalidOperationException` an HTTP failure becomes. */
  const RetryMessage := "Data could not be retrieved from the TCMB API. The operation will be retried."

  /** The exception message `GetTodayExchangeRatesAsync` ends with, if any. */
  function FetchError(response: FeedResponse): Option<string> {
    match response
    case HttpFailure => Some(RetryMessage)
    case OtherFailure(m) => Some(m)
    case Document(_) => None
  }

  /** `text?.Trim()`. */
  function TrimOrNull(text: Option<string>): Option<string> {
    if text.Some? then Some(Trim(text.value)) else None
  }

  /** The separator rewrite of `ParseDecimalNormalized`: for a culture whose
      decimal separator is "," a text with '.' and no ',' has every '.'
      turned into ','; any other text is left alone. */
  function NormalizeSeparator(s: string, culture: Culture): (r: string)
    ensures |r| == |s|
    ensures culture.decimalSeparator == "," && '.' in s && ',' !in s ==>
              '.' !in r && forall i :: 0 <= i < |s| ==> r[i] == if s[i] == '.' then ',' else s[i]
    ensures !(culture.decimalSeparator == "," && '.' in s && ',' !in s) ==> r == s
  {
    if culture.decimalSeparator == "," && '.' in s && ',' !in s then Replace(s, '.', ',') else s
  }

  /** `ParseDecimalNormalized`: blank text gives the default; otherwise the
      trimmed, separator-normalised text is parsed with the culture, then with
      the invariant culture, and the first success wins. */
  function ParseDecimalNormalized(text: Option<string>, culture: Culture,
                                  tryParseInvariant: string -> Option<real>, defaultValue: real): (r: real)
    ensures IsNullOrWhiteSpace(text) ==> r == defaultValue
    ensures !IsNullOrWhiteSpace(text) ==>
              var s := NormalizeSeparator(Trim(text.value), culture);
              && (culture.tryParseDecimal(s).Some? ==> r == culture.tryParseDecimal(s).value)
              && (culture.tryParseDecimal(s).None? && tryParseInvariant(s).Some? ==>
                    r == tryParseInvariant(s).value)
              && (culture.tryParseDecimal(s).None? && tryParseInvariant(s).None? ==> r == defaultValue)
  {
    if IsNullOrWhiteSpace(text) then defaultValue
    else
      var s := NormalizeSeparator(Trim(text.value), culture);
      match culture.tryParseDecimal(s)
      case Some(v) => v
      case None =>
        match tryParseInvariant(s)
        case Some(v) => v
        case None => defaultValue
  }

  /** White space around the text never changes the parsed value, so the
      loop's own `Trim()` before the call is redundant. */
  lemma ParseIgnoresSurroundingWhiteSpace(text: string, culture: Culture,
                                          tryParseInvariant: string -> Option<real>, defaultValue: real)
    ensures ParseDecimalNormalized(Some(Trim(text)), culture, tryParseInvariant, defaultValue)
         == ParseDecimalNormalized(Some(text), culture, tryParseInvariant, defaultValue)
  {
  }

  /** `int.TryParse(unitText, ..., InvariantCulture, out unit)`, with 1 when it fails. */
  function ParseUnit(unitText: Option<string>, tryParseInt: string -> Option<int>): (unit: int)
    ensures unitText.None? ==> unit == 1
    ensures unitText.Some? && tryParseInt(unitText.value).Some? ==> unit == tryParseInt(unitText.value).value
    ensures unitText.Some? && tryParseInt(unitText.value).None? ==> unit == 1
  {
    if unitText.None? then 1
    else match tryParseInt(unitText.value)
      case Some(n) => n
      case None => 1
  }

  /** The body of the mapping loop for one `Currency` element. */
  function ToExchangeRate(el: XElement, client: CentralBankClient): ExchangeRate {
    ExchangeRate(
      el.currencyCode,
      ParseUnit(TrimOrNull(el.unit), client.tryParseIntInvariant),
      el.isim,
      ParseDecimalNormalized(TrimOrNull(el.forexBuying), client.trCulture, client.tryParseDecimalInvariant, 0.0),
      ParseDecimalNormalized(TrimOrNull(el.forexSelling), client.trCulture, client.tryParseDecimalInvariant, 0.0))
  }

  /** The code and the name are copied; a missing or unparseable unit is 1;
      a missing, blank or unparseable buying or selling rate is 0. */
  lemma ExchangeRateDefaults(el: XElement, client: CentralBankClient)
    ensures var rate := ToExchangeRate(el, client);
            && rate.currencyCode == el.currencyCode && rate.name == el.isim
            && (el.unit.None? || client.tryParseIntInvariant(Trim(el.unit.value)).None? ==> rate.unit == 1)
            && (el.unit.Some? && client.tryParseIntInvariant(Trim(el.unit.value)).Some? ==>
                  rate.unit == client.tryParseIntInvariant(Trim(el.unit.value)).value)
            && (IsNullOrWhiteSpace(el.forexBuying) ==> rate.buyingRate == 0.0)
            && (IsNullOrWhiteSpace(el.forexSelling) ==> rate.sellingRate == 0.0)
  {
  }

  /** `Root.Elements("Currency")`: the children named "Currency", in order. */
  function Currencies(children: seq<XElement>): (cs: seq<XElement>)
    ensures |cs| <= |children|
    ensures forall i :: 0 <= i < |cs| ==> cs[i].name == "Currency"
  {
    if children == [] then []
    else
      var init := Currencies(children[..|children| - 1]);
      var last := children[|children| - 1];
      if last.name == "Currency" then init + [last] else init
  }

  /** The filter keeps document order: it distributes over concatenation. */
  lemma {:induction false} CurrenciesAppend(a: seq<XElement>, b: seq<XElement>)
    ensures Currencies(a + b) == Currencies(a) + Currencies(b)
    decreases |b|
  {
    if b == [] {
      assert a + b == a;
    } else {
      var b' := b[..|b| - 1];
      assert (a + b)[..|a + b| - 1] == a + b';
      CurrenciesAppend(a, b');
    }
  }

  /** An element is kept exactly when it is a child named "Currency". */
  lemma {:induction false} CurrenciesMembers(children: seq<XElement>, e: XElement)
    ensures e in Currencies(children) <==> e in children && e.name == "Currency"
    decreases |children|
  {
    if children != [] {
      var init := children[..|children| - 1];
      CurrenciesMembers(init, e);
      assert children == init + [children[|children| - 1]];
    }
  }

  /** The rates the loop builds from a list of `Currency` elements. */
  function RatesOf(cs: seq<XElement>, client: CentralBankClient): (rates: seq<ExchangeRate>)
    ensures |rates| == |cs|
  {
    if cs == [] then [] else RatesOf(cs[..|cs| - 1], client) + [ToExchangeRate(cs[|cs| - 1], client)]
  }

  /** The k-th rate comes from the k-th `Currency` element. */
  lemma {:induction false} RatesOfAt(cs: seq<XElement>, client: CentralBankClient, k: nat)
    requires k < |cs|
    ensures RatesOf(cs, client)[k] == ToExchangeRate(cs[k], client)
    decreases |cs|
  {
    if k < |cs| - 1 {
      RatesOfAt(cs[..|cs| - 1], client, k);
    }
  }

  /** One loop step: extending the children by one element. */
  lemma RatesStep(children: seq<XElement>, i: nat, client: CentralBankClient)
    requires i < |children|
    ensures RatesOf(Currencies(children[..i + 1]), client)
         == RatesOf(Currencies(children[..i]), client)
            + (if children[i].name == "Currency" then [ToExchangeRate(children[i], client)] else [])
  {
    assert children[..i + 1][..i] == children[..i];
  }

  /** `GetTodayExchangeRatesAsync` after the download: one rate per
      "Currency" child, in document order; an empty list when there is no
      root; the download failure or other exception otherwise. */
  method GetTodayExchangeRates(client: CentralBankClient, response: FeedResponse)
    returns (r: Result<seq<ExchangeRate>, string>)
    ensures r.Failure? <==> FetchError(response).Some?
    ensures r.Failure? ==> r.error == FetchError(response).value
    ensures response.Document? && response.root.None? ==> r == Success([])
    ensures response.Document? && response.root.Some? ==>
              r == Success(RatesOf(Currencies(response.root.value), client))
  {
    if response.HttpFailure? {
      return Failure(RetryMessage);
    }
    if response.OtherFailure? {
      return Failure(response.message);
    }
    var rates: seq<ExchangeRate> := [];
    if response.root.None? {
      return Success(rates);
    }
    var children := response.root.value;
    var i := 0;
    while i < |children|
      invariant 0 <= i <= |children|
      invariant rates == RatesOf(Currencies(children[..i]), client)
    {
      var el := children[i];
      RatesStep(children, i, client);
      if el.name == "Currency" {
        rates := rates + [ToExchangeRate(el, client)];
      }
      i := i + 1;
    }
    assert children[..i] == children;
    r := Success(rates);
  }
}
