/** The market list (components/Markets.jsx): the pairs kept from the
    exchange's 24-hour tickers, the base currency and logo of a pair, and
    the search over the list. */
module Markets {
  import opened Common

  /** A 24-hour ticker as the list reads it: the pair and its last price as
      parseFloat reads it. The ticker feed carries no market cap, so the
      list's sort by market cap compares NaN with NaN, which orders nothing:
      a stable sort leaves the kept pairs in feed order. */
  datatype MarketTicker = MarketTicker(symbol: string, lastPrice: JsNumber)

  /** A pair the list keeps: quoted in USDT with a positive last price (an
      unparseable price is not positive). */
  predicate IsListed(t: MarketTicker)
  {
    EndsWith(t.symbol, "USDT") && GreaterThan(t.lastPrice, 0.0)
  }

  /** The list fetchBinanceData stores. */
  function FetchedList(data: seq<MarketTicker>): (r: seq<MarketTicker>)
    ensures |r| <= |data|
    ensures forall i :: 0 <= i < |r| ==> EndsWith(r[i].symbol, "USDT") && r[i].lastPrice.Num? && r[i].lastPrice.value > 0.0
  {
    Filter(data, IsListed)
  }

  /** The list holds, in feed order, exactly the USDT pairs with a positive
      price. */
  lemma FetchedListExact(data: seq<MarketTicker>)
    ensures Subsequence(FetchedList(data), data)
    ensures forall i :: 0 <= i < |data| && EndsWith(data[i].symbol, "USDT") && GreaterThan(data[i].lastPrice, 0.0)
              ==> data[i] in FetchedList(data)
    ensures forall t :: t in FetchedList(data) ==> t in data
    ensures forall t ::
      multiset(FetchedList(data))[t] == if EndsWith(t.symbol, "USDT") && GreaterThan(t.lastPrice, 0.0) then multiset(data)[t] else 0
  {
    FilterKeepsPassing(data, IsListed);
    var r := FetchedList(data);
    forall t | t in r ensures t in data {
      var i :| 0 <= i < |r| && r[i] == t;
    }
  }

  /** `symbol.replace(/(USDT|BUSD)$/g, '')`: one trailing "USDT" or "BUSD"
      is removed; the pattern is anchored at the end, so it matches once. */
  function BaseCurrency(symbol: string): (r: string)
    ensures EndsWith(symbol, "USDT") || EndsWith(symbol, "BUSD") ==> |r| == |symbol| - 4 && r == symbol[..|r|]
    ensures !EndsWith(symbol, "USDT") && !EndsWith(symbol, "BUSD") ==> r == symbol
  {
    if EndsWith(symbol, "USDT") || EndsWith(symbol, "BUSD") then symbol[..|symbol| - 4] else symbol
  }

  /** Appending a quote currency and taking the base currency gives the base
      back, whatever it is, even one ending in a quote currency itself. */
  lemma BaseCurrencyOfPair(base: string)
    ensures BaseCurrency(base + "USDT") == base
    ensures BaseCurrency(base + "BUSD") == base
  {
    assert (base + "USDT")[|base|..] == "USDT";
    assert (base + "USDT")[..|base|] == base;
    assert (base + "BUSD")[..|base|] == base;
  }

  /** Only one suffix goes: a pair quoted twice keeps its inner quote. */
  lemma OneSuffixRemoved()
    ensures BaseCurrency("BTCUSDTUSDT") == "BTCUSDT"
    ensures BaseCurrency("BUSDUSDT") == "BUSD"
    ensures BaseCurrency("ETHBTC") == "ETHBTC"
  {
    BaseCurrencyOfPair("BTCUSDT");
    BaseCurrencyOfPair("BUSD");
    assert "ETHBTC"[2..] != "USDT" && "ETHBTC"[2..] != "BUSD";
  }

  const LogoPrefix := "https://img.logokit.com/crypto/"
  const LogoSuffix := "?token=pk_fr18743751bed15b82d28e"

  /** getLogoUrl: the logo service's address for the pair's base currency. */
  function LogoUrl(symbol: string): string
  {
    LogoPrefix + BaseCurrency(symbol) + LogoSuffix
  }

  /** The base currency sits between the fixed prefix and the token. */
  lemma LogoUrlEmbedsBase(symbol: string)
    ensures StartsWith(LogoUrl(symbol), LogoPrefix) && EndsWith(LogoUrl(symbol), LogoSuffix)
    ensures LogoUrl(symbol)[|LogoPrefix|..|LogoUrl(symbol)| - |LogoSuffix|] == BaseCurrency(symbol)
  {
    var url := LogoUrl(symbol);
    var base := BaseCurrency(symbol);
    assert url[..|LogoPrefix|] == LogoPrefix;
    assert url[|url| - |LogoSuffix|..] == LogoSuffix;
    assert url[|LogoPrefix|..|url| - |LogoSuffix|] == base;
  }

  /** `coin.symbol.toLowerCase().includes(searchQuery.toLowerCase())`. */
  function MatchesSearch(query: string): MarketTicker -> bool
  {
    (t: MarketTicker) => Includes(ToLower(t.symbol), ToLower(query))
  }

  /** The pairs shown for a search. */
  function Search(list: seq<MarketTicker>, query: string): (r: seq<MarketTicker>)
    ensures |r| <= |list|
    ensures forall i :: 0 <= i < |r| ==> Includes(ToLower(r[i].symbol), ToLower(query))
  {
    Filter(list, MatchesSearch(query))
  }

  /** The search keeps, in order, exactly the pairs whose lower-cased symbol
      contains the lower-cased query. */
  lemma SearchExact(list: seq<MarketTicker>, query: string)
    ensures Subsequence(Search(list, query), list)
    ensures forall i :: 0 <= i < |list| && Includes(ToLower(list[i].symbol), ToLower(query))
              ==> list[i] in Search(list, query)
    ensures forall t :: t in Search(list, query) ==> t in list
    ensures forall t ::
      multiset(Search(list, query))[t] == if Includes(ToLower(t.symbol), ToLower(query)) then multiset(list)[t] else 0
  {
    FilterKeepsPassing(list, MatchesSearch(query));
    var r := Search(list, query);
    forall t | t in r ensures t in list {
      var i :| 0 <= i < |r| && r[i] == t;
    }
  }

  /** An empty search shows the whole list. */
  lemma EmptySearchKeepsAll(list: seq<MarketTicker>)
    ensures Search(list, "") == list
  {
    forall t: MarketTicker ensures MatchesSearch("")(t) {
      assert OccursAt(ToLower(t.symbol), ToLower(""), 0);
    }
    FilterAll(list, MatchesSearch(""));
  }

  /** The search ignores letter case in the query. */
  lemma SearchIgnoresQueryCase(list: seq<MarketTicker>, query: string)
    ensures Search(list, ToUpper(query)) == Search(list, query)
  {
    LowerOfUpper(query);
    assert MatchesSearch(ToUpper(query)) == MatchesSearch(query);
  }

  lemma {:induction false} LowerOfUpper(s: string)
    ensures ToLower(ToUpper(s)) == ToLower(s)
  {
    assert forall i :: 0 <= i < |s| ==> LowerChar(UpperChar(s[i])) == LowerChar(s[i]);
  }
}
