/** The home screen (components/Home.jsx): the rotating banner, today's
    profit and loss, the top-coin list built from the exchange's 24-hour
    tickers, and the coins each tab shows. The tickers and the settled
    rows are inputs; the timers and the fetches are not part of this
    model. */
module Home {
  import opened Common

  // ---------------------------------------------------------------------------
  // banner rotation

  /** The banner shown after `i` when the timer fires: the next one, wrapping
      around after the last of `n`. */
  function NextBanner(i: int, n: nat): (r: int)
    requires n > 0
    ensures 0 <= r < n
    ensures 0 <= i < n - 1 ==> r == i + 1
    ensures i == n - 1 ==> r == 0
  {
    (i + 1) % n
  }

  /** The banner shown after the timer fires `k` times starting at `i`. */
  function Rotated(i: int, n: nat, k: nat): int
    requires n > 0
  {
    if k == 0 then i else NextBanner(Rotated(i, n, k - 1), n)
  }

  /** Before the last banner is reached, each tick moves one place on. */
  lemma {:induction false} RotatedCounts(i: int, n: nat, k: nat)
    requires n > 0 && 0 <= i && i + k < n
    ensures Rotated(i, n, k) == i + k
  {
    if k > 0 {
      RotatedCounts(i, n, k - 1);
    }
  }

  /** Ticking `a` times and then `b` times is ticking `a + b` times. */
  lemma {:induction false} RotatedCompose(i: int, n: nat, a: nat, b: nat)
    requires n > 0
    ensures Rotated(i, n, a + b) == Rotated(Rotated(i, n, a), n, b)
  {
    if b > 0 {
      RotatedCompose(i, n, a, b - 1);
    }
  }

  /** Every banner comes round again after `n` ticks: the last one is
      followed by the first. */
  lemma BannersCycle(i: int, n: nat)
    requires n > 0 && 0 <= i < n
    ensures Rotated(i, n, n) == i
  {
    RotatedCounts(i, n, n - 1 - i);
    assert Rotated(i, n, n - i) == 0;
    RotatedCompose(i, n, n - i, i);
    RotatedCounts(0, n, i);
  }

  // ---------------------------------------------------------------------------
  // today's profit and loss

  /** `data.reduce((sum, row) => sum + (parseFloat(row.order_profit_amount) || 0), 0)`
      over the profits of the rows settled today. */
  function TodayPnl(profits: seq<JsNumber>): real
  {
    if profits == [] then 0.0
    else TodayPnl(profits[..|profits| - 1]) + OrZero(profits[|profits| - 1])
  }

  /** The sum splits over the rows, whatever their order of arrival. */
  lemma {:induction false} TodayPnlAppend(xs: seq<JsNumber>, ys: seq<JsNumber>)
    ensures TodayPnl(xs + ys) == TodayPnl(xs) + TodayPnl(ys)
  {
    if ys == [] {
      assert xs + ys == xs;
    } else {
      var init := ys[..|ys| - 1];
      assert (xs + ys)[..|xs + ys| - 1] == xs + init;
      assert (xs + ys)[|xs + ys| - 1] == ys[|ys| - 1];
      TodayPnlAppend(xs, init);
    }
  }

  /** A row whose profit does not parse adds nothing. */
  lemma UnparseableProfitIgnored(xs: seq<JsNumber>)
    ensures TodayPnl(xs + [NaN]) == TodayPnl(xs)
  {
    assert (xs + [NaN])[..|xs|] == xs;
  }

  /** The figure shown: the new sum when the read succeeds, the previous
      figure when it fails. */
  function PnlAfterFetch(current: real, read: Option<seq<JsNumber>>): (r: real)
    ensures read.None? ==> r == current
    ensures read.Some? ==> r == TodayPnl(read.value)
  {
    if read.None? then current else TodayPnl(read.value)
  }

  // ---------------------------------------------------------------------------
  // stable sort by a numeric key

  /** `a` may stand before `b` in a list ordered by `key`. */
  predicate Precedes<T>(a: T, b: T, key: T -> real, descending: bool)
  {
    if descending then key(a) >= key(b) else key(a) <= key(b)
  }

  ghost predicate SortedBy<T>(s: seq<T>, key: T -> real, descending: bool)
  {
    forall i, j :: 0 <= i < j < |s| ==> Precedes(s[i], s[j], key, descending)
  }

  /** Inserts `x` in front of the first element it may precede, so that it
      stays before the elements with an equal key. */
  function Insert<T>(x: T, s: seq<T>, key: T -> real, descending: bool): (r: seq<T>)
    ensures multiset(r) == multiset(s) + multiset{x}
  {
    if s == [] then [x]
    else if Precedes(x, s[0], key, descending) then [x] + s
    else
      assert s == [s[0]] + s[1..];
      [s[0]] + Insert(x, s[1..], key, descending)
  }

  /** What an insertion holds: `x` and the elements of `s`. */
  lemma {:induction false} InsertMembers<T>(x: T, s: seq<T>, key: T -> real, descending: bool)
    ensures forall y :: y in Insert(x, s, key, descending) ==> y == x || y in s
  {
    if s != [] && !Precedes(x, s[0], key, descending) {
      var rest := Insert(x, s[1..], key, descending);
      InsertMembers(x, s[1..], key, descending);
      assert Insert(x, s, key, descending) == [s[0]] + rest;
      assert forall y :: y in s[1..] ==> y in s;
    }
  }

  /** Inserting into a sorted list keeps it sorted. */
  lemma {:induction false} InsertSorted<T>(x: T, s: seq<T>, key: T -> real, descending: bool)
    requires SortedBy(s, key, descending)
    ensures SortedBy(Insert(x, s, key, descending), key, descending)
  {
    if s != [] && !Precedes(x, s[0], key, descending) {
      var rest := Insert(x, s[1..], key, descending);
      InsertSorted(x, s[1..], key, descending);
      InsertMembers(x, s[1..], key, descending);
      forall j | 0 <= j < |rest| ensures Precedes(s[0], rest[j], key, descending) {
        assert rest[j] in rest;
        if rest[j] != x {
          var k :| 0 <= k < |s[1..]| && s[1..][k] == rest[j];
          assert s[k + 1] == rest[j];
        }
      }
      var r := [s[0]] + rest;
      forall i, j | 0 <= i < j < |r| ensures Precedes(r[i], r[j], key, descending) {
        assert r[j] == rest[j - 1];
        if i > 0 { assert r[i] == rest[i - 1]; }
      }
    }
  }

  /** Array.prototype.sort with a comparator subtracting keys, as an
      insertion sort: the result is a sorted permutation of the input. The
      contract does not state stability (the order of equal keys). */
  function SortBy<T>(s: seq<T>, key: T -> real, descending: bool): (r: seq<T>)
    ensures multiset(r) == multiset(s) && |r| == |s|
    ensures SortedBy(r, key, descending)
  {
    if s == [] then []
    else
      assert s == [s[0]] + s[1..];
      var rest := SortBy(s[1..], key, descending);
      InsertSorted(s[0], rest, key, descending);
      Insert(s[0], rest, key, descending)
  }

  /** `slice(0, n)`: the first `n`, or all of a shorter list. */
  function Take<T>(s: seq<T>, n: nat): (r: seq<T>)
    ensures |r| == if |s| <= n then |s| else n
    ensures r == s[..|r|]
    ensures |s| <= n ==> r == s
  {
    if |s| <= n then s else s[..n]
  }

  /** The first `n` of a sorted list are the best `n`: they are in order,
      they are elements of the list, and nothing left out may stand before
      anything kept. */
  lemma TakeSortedIsTop<T>(s: seq<T>, n: nat, key: T -> real, descending: bool, x: T)
    requires SortedBy(s, key, descending) && x in s
    ensures SortedBy(Take(s, n), key, descending)
    ensures multiset(Take(s, n)) <= multiset(s)
    ensures x !in Take(s, n) ==> forall i :: 0 <= i < |Take(s, n)| ==> Precedes(Take(s, n)[i], x, key, descending)
  {
    var t := Take(s, n);
    assert s == t + s[|t|..];
    assert forall i :: 0 <= i < |t| ==> t[i] == s[i];
    var j :| 0 <= j < |s| && s[j] == x;
  }

  // ---------------------------------------------------------------------------
  // the coin list

  /** A coin as the list shows it: the symbol without its quote currency,
      the last price and the 24-hour change in percent. */
  datatype Coin = Coin(symbol: string, price: real, change: real)

  function Price(c: Coin): real { c.price }
  function Change(c: Coin): real { c.change }

  /** The order a tab sorts a copy of the list by: price high to low for
      "hot", change high to low for "gainers", change low to high for
      "losers"; no sorting for "favorites" and any other tab. */
  function TabOrder(tab: string): (o: Option<(Coin -> real, bool)>)
    ensures o.Some? <==> tab in {"hot", "gainers", "losers"}
  {
    if tab == "hot" then Some((Price, true))
    else if tab == "gainers" then Some((Change, true))
    else if tab == "losers" then Some((Change, false))
    else None
  }

  /** getFilteredCoins: the first ten coins, of a sorted copy when the tab
      sorts. The coin list itself is left as it is. */
  function FilteredCoins(tab: string, coins: seq<Coin>): (r: seq<Coin>)
    ensures |r| == if |coins| <= 10 then |coins| else 10
    ensures TabOrder(tab).None? ==> r == coins[..|r|] && (|coins| <= 10 ==> r == coins)
  {
    match TabOrder(tab)
    case None => Take(coins, 10)
    case Some((key, descending)) => Take(SortBy(coins, key, descending), 10)
  }

  /** A sorting tab shows ten coins of the list (all of a shorter list) in
      its order, and no coin it leaves out ranks above one it shows. */
  lemma SortedTabIsTop(tab: string, coins: seq<Coin>, c: Coin)
    requires TabOrder(tab).Some? && c in coins
    ensures var (key, descending) := TabOrder(tab).value;
      var r := FilteredCoins(tab, coins);
      && |r| == (if |coins| <= 10 then |coins| else 10)
      && SortedBy(r, key, descending)
      && multiset(r) <= multiset(coins)
      && (c !in r ==> forall i :: 0 <= i < |r| ==> Precedes(r[i], c, key, descending))
  {
    var (key, descending) := TabOrder(tab).value;
    var s := SortBy(coins, key, descending);
    assert c in multiset(s);
    TakeSortedIsTop(s, 10, key, descending, c);
  }

  // ---------------------------------------------------------------------------
  // the top coins

  /** A 24-hour ticker of the exchange, its numeric fields parsed. */
  datatype Ticker = Ticker(symbol: string, lastPrice: real, priceChangePercent: real, quoteVolume: real)

  function QuoteVolume(t: Ticker): real { t.quoteVolume }

  function IsUsdt(t: Ticker): bool { EndsWith(t.symbol, "USDT") }

  const TopCount: nat := 50

  /** The tickers listed: the USDT pairs of the input by quote volume, high
      to low, fifty of them or all when there are fewer. */
  function TopTickers(tickers: seq<Ticker>): (r: seq<Ticker>)
    ensures |r| == if |Filter(tickers, IsUsdt)| <= TopCount then |Filter(tickers, IsUsdt)| else TopCount
    ensures multiset(r) <= multiset(Filter(tickers, IsUsdt))
    ensures forall i :: 0 <= i < |r| ==> EndsWith(r[i].symbol, "USDT")
    ensures SortedBy(r, QuoteVolume, true)
  {
    var usdt := Filter(tickers, IsUsdt);
    var sorted := SortBy(usdt, QuoteVolume, true);
    var r := Take(sorted, TopCount);
    assert sorted == r + sorted[|r|..];
    assert forall i :: 0 <= i < |r| ==> r[i] == sorted[i];
    forall i | 0 <= i < |r| ensures IsUsdt(r[i]) {
      assert r[i] in multiset(usdt);
      var k :| 0 <= k < |usdt| && usdt[k] == r[i];
    }
    r
  }

  /** Every USDT ticker left out has no more volume than any listed one. */
  lemma TopTickersAreTop(tickers: seq<Ticker>, t: Ticker)
    requires t in tickers && IsUsdt(t) && t !in TopTickers(tickers)
    ensures forall i :: 0 <= i < |TopTickers(tickers)| ==> TopTickers(tickers)[i].quoteVolume >= t.quoteVolume
  {
    var usdt := Filter(tickers, IsUsdt);
    FilterKeepsPassing(tickers, IsUsdt);
    var sorted := SortBy(usdt, QuoteVolume, true);
    assert t in multiset(sorted);
    TakeSortedIsTop(sorted, TopCount, QuoteVolume, true, t);
  }

  /** Every USDT ticker is listed when there are at most fifty. */
  lemma FewTickersAllListed(tickers: seq<Ticker>)
    requires |Filter(tickers, IsUsdt)| <= TopCount
    ensures multiset(TopTickers(tickers)) == multiset(Filter(tickers, IsUsdt))
  {
  }

  /** `symbol.replace("USDT", "")`: the first "USDT" is removed. */
  function BaseSymbol(symbol: string): string
  {
    ReplaceFirst(symbol, "USDT", "")
  }

  /** For a pair whose only "USDT" is its suffix, the coin symbol is the
      base currency; a symbol ending in "USDT" always loses four characters,
      even when the first "USDT" is not the suffix. */
  lemma BaseSymbolDropsSuffix(symbol: string)
    requires EndsWith(symbol, "USDT")
    ensures |BaseSymbol(symbol)| == |symbol| - 4
    ensures (forall j :: 0 <= j < |symbol| - 4 ==> !OccursAt(symbol, "USDT", j)) ==> BaseSymbol(symbol) == symbol[..|symbol| - 4]
  {
    assert OccursAt(symbol, "USDT", |symbol| - 4);
    var k := IndexOf(symbol, "USDT").value;
    if forall j :: 0 <= j < |symbol| - 4 ==> !OccursAt(symbol, "USDT", j) {
      assert k == |symbol| - 4;
      assert symbol[k + 4..] == [];
    }
  }

  /** The coin a listed ticker becomes. */
  function CoinOf(t: Ticker): (c: Coin)
    ensures c.price == t.lastPrice && c.change == t.priceChangePercent
    ensures EndsWith(t.symbol, "USDT") ==> |c.symbol| == |t.symbol| - 4
  {
    assert EndsWith(t.symbol, "USDT") ==> |BaseSymbol(t.symbol)| == |t.symbol| - 4 by {
      if EndsWith(t.symbol, "USDT") { BaseSymbolDropsSuffix(t.symbol); }
    }
    Coin(BaseSymbol(t.symbol), t.lastPrice, t.priceChangePercent)
  }

  /** fetchTopCoins: the listed tickers turned into coins, in their order. */
  function TopCoins(tickers: seq<Ticker>): (r: seq<Coin>)
    ensures |r| == |TopTickers(tickers)| <= TopCount
    ensures forall i :: 0 <= i < |r| ==> r[i] == CoinOf(TopTickers(tickers)[i])
  {
    var top := TopTickers(tickers);
    seq(|top|, i requires 0 <= i < |top| => CoinOf(top[i]))
  }
}
