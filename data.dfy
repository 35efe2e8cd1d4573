/** Stock data retrieval and caching (data.py): the per-stock bundle and
    its text rendering, the memoized ticker lookup, the news collection,
    and the cache-through `get_info`. The market-data provider and the page
    fetch are given as function values (`Provider`); the rendering of a
    table of price rows is given as a function value too. */
module Data {
  import opened Text
  import opened Expiring
  import Utils

  /** `ExpiringDict(max_len=128, ...)`. */
  const MaxEntries: nat := 128
  /** `ExpiringDict(..., max_age_seconds=300)`. */
  const MaxAgeSeconds: nat := 300
  /** `ticker.news[:5]`. */
  const MaxNewsReferences: nat := 5

  function Min(a: int, b: int): int { if a <= b then a else b }
  function Max(a: int, b: int): int { if a >= b then a else b }

  /** Python's `s[:n]`: the first `n` elements, all of them when `n`
      exceeds the length, and all but the last `-n` when `n` is negative. */
  function Prefix<T>(s: seq<T>, n: int): (r: seq<T>)
    ensures |r| == (if n >= 0 then Min(n, |s|) else Max(0, |s| + n))
    ensures r == s[..|r|]
  {
    if n >= 0 then (if n <= |s| then s[..n] else s)
    else if |s| + n >= 0 then s[..|s| + n]
    else []
  }

  /** The news and the price history of one stock. Price rows stay opaque:
      each is one row of the provider's table. */
  datatype StockInfo = StockInfo(news: seq<string>, financials: seq<string>)

  /** One line of the news section: `f"[{index}] - {entry}\n"`. */
  function NewsLine(index: nat, entry: string): string
  {
    "[" + NatToDecimal(index) + "] - " + entry + "\n"
  }

  /** The news section as the loop accumulates it, numbering from 0. */
  function NewsLines(entries: seq<string>): string
    decreases |entries|
  {
    if entries == [] then ""
    else NewsLines(entries[..|entries| - 1]) + NewsLine(|entries| - 1, entries[|entries| - 1])
  }

  /** The text that precedes the news lines. */
  function DescriptionHeader(info: StockInfo, financialEntries: int, render: seq<string> -> string): string
  {
    "Financials:\n" + render(Prefix(info.financials, financialEntries)) + "\n" + "News:\n"
  }

  /** What `get_description(news_entries, financial_entries)` returns;
      `render` stands for the text rendering of a table of price rows. */
  function Description(info: StockInfo, newsEntries: int, financialEntries: int, render: seq<string> -> string): string
  {
    DescriptionHeader(info, financialEntries, render) + NewsLines(Prefix(info.news, newsEntries))
  }

  /** `StockInfo.get_description`, built step by step as the source does. */
  method GetDescription(info: StockInfo, newsEntries: int, financialEntries: int, render: seq<string> -> string)
    returns (description: string)
    ensures description == Description(info, newsEntries, financialEntries, render)
  {
    description := "Financials:\n" + render(Prefix(info.financials, financialEntries)) + "\n";
    description := description + "News:\n";
    var shown := Prefix(info.news, newsEntries);
    for index := 0 to |shown|
      invariant description == DescriptionHeader(info, financialEntries, render) + NewsLines(shown[..index])
    {
      NewsLinesStep(shown, index);
      description := description + NewsLine(index, shown[index]);
    }
    assert shown[..|shown|] == shown;
  }

  /** One more entry adds its numbered line to the news section. */
  lemma NewsLinesStep(entries: seq<string>, k: nat)
    requires k < |entries|
    ensures NewsLines(entries[..k + 1]) == NewsLines(entries[..k]) + NewsLine(k, entries[k])
  {
    assert entries[..k + 1][..k] == entries[..k];
  }

  /** Concatenation of a list of strings (`"".join`). */
  function Concat(parts: seq<string>): string
    decreases |parts|
  {
    if parts == [] then "" else parts[0] + Concat(parts[1..])
  }

  lemma {:induction false} ConcatSnoc(parts: seq<string>, last: string)
    ensures Concat(parts + [last]) == Concat(parts) + last
    decreases |parts|
  {
    if parts == [] {
      assert parts + [last] == [last];
    } else {
      assert (parts + [last])[1..] == parts[1..] + [last];
      ConcatSnoc(parts[1..], last);
    }
  }

  /** The news section is the list of numbered lines, line `i` showing
      entry `i`, joined together. */
  lemma {:induction false} NewsLinesNumbered(entries: seq<string>)
    ensures NewsLines(entries)
         == Concat(seq(|entries|, i requires 0 <= i < |entries| => NewsLine(i, entries[i])))
    decreases |entries|
  {
    var lines := seq(|entries|, i requires 0 <= i < |entries| => NewsLine(i, entries[i]));
    if entries != [] {
      var n := |entries| - 1;
      var init := entries[..n];
      NewsLinesNumbered(init);
      var initLines := seq(|init|, i requires 0 <= i < |init| => NewsLine(i, init[i]));
      assert lines == initLines + [NewsLine(n, entries[n])];
      ConcatSnoc(initLines, NewsLine(n, entries[n]));
    }
  }

  /** The description is the financials header, the first rows, the news
      header, then exactly min(`newsEntries`, number of news) lines, line `i`
      being `[i] - ` followed by news entry `i`, in list order. */
  lemma DescriptionLayout(info: StockInfo, newsEntries: nat, financialEntries: int, render: seq<string> -> string)
    ensures var count := Min(newsEntries, |info.news|);
      Description(info, newsEntries, financialEntries, render)
      == "Financials:\n" + render(Prefix(info.financials, financialEntries)) + "\n" + "News:\n"
         + Concat(seq(count, i requires 0 <= i < count => NewsLine(i, info.news[i])))
  {
    var shown := Prefix(info.news, newsEntries);
    NewsLinesNumbered(shown);
    var count := Min(newsEntries, |info.news|);
    assert seq(|shown|, i requires 0 <= i < |shown| => NewsLine(i, shown[i]))
        == seq(count, i requires 0 <= i < count => NewsLine(i, info.news[i]));
  }

  /** The news header is there even when there is no news. */
  lemma DescriptionWithoutNews(info: StockInfo, newsEntries: int, financialEntries: int, render: seq<string> -> string)
    requires info.news == []
    ensures Description(info, newsEntries, financialEntries, render)
         == "Financials:\n" + render(Prefix(info.financials, financialEntries)) + "\nNews:\n"
  {
    assert Prefix(info.news, newsEntries) == [];
  }

  /** Allowing one more news entry adds exactly the next numbered line, as
      long as there is one. */
  lemma DescriptionGrows(info: StockInfo, newsEntries: nat, financialEntries: int, render: seq<string> -> string)
    requires newsEntries < |info.news|
    ensures Description(info, newsEntries + 1, financialEntries, render)
         == Description(info, newsEntries, financialEntries, render) + NewsLine(newsEntries, info.news[newsEntries])
  {
    var longer := Prefix(info.news, newsEntries + 1);
    assert longer[..newsEntries] == Prefix(info.news, newsEntries);
  }

  /** A news reference as the provider lists it. */
  datatype NewsRef = NewsRef(title: string, link: string)

  /** The external collaborators, as functions of their inputs: the news
      references of a symbol (most recent first), its price rows for the
      trailing month, and the paragraph texts of a fetched page. */
  datatype Provider = Provider(
    newsOf: string -> seq<NewsRef>,
    historyOf: string -> seq<string>,
    paragraphsOf: string -> seq<string>)

  /** One news entry: `f'{title}\n"{main_text}"'`. */
  function FormatNews(title: string, mainText: string): string
  {
    title + "\n\"" + mainText + "\""
  }

  /** The news the source collects for `symbol`: the first five references,
      each as its title and its scraped page text. */
  function NewsOf(provider: Provider, symbol: string): seq<string>
  {
    var refs := Prefix(provider.newsOf(symbol), MaxNewsReferences);
    seq(|refs|, i requires 0 <= i < |refs| =>
      FormatNews(refs[i].title, Join(provider.paragraphsOf(refs[i].link), "\n")))
  }

  /** The bundle a cache miss builds for `symbol`. */
  function Fetched(provider: Provider, symbol: string): StockInfo
  {
    StockInfo(NewsOf(provider, symbol), provider.historyOf(symbol))
  }

  /** A provider handle for one symbol (`yf.Ticker(stock)`). */
  class Ticker {
    const symbol: string

    constructor (symbol: string)
      ensures this.symbol == symbol
    {
      this.symbol := symbol;
    }
  }

  /** `__get_news__`: at most five references, one entry per reference in
      provider order, each its title, a newline and the quoted page text. */
  method GetNews(ticker: Ticker, provider: Provider) returns (news: seq<string>)
    ensures news == NewsOf(provider, ticker.symbol)
    ensures |news| == Min(MaxNewsReferences, |provider.newsOf(ticker.symbol)|)
    ensures forall i :: 0 <= i < |news| ==>
      news[i] == FormatNews(provider.newsOf(ticker.symbol)[i].title,
                            Join(provider.paragraphsOf(provider.newsOf(ticker.symbol)[i].link), "\n"))
  {
    var references := Prefix(provider.newsOf(ticker.symbol), MaxNewsReferences);
    news := [];
    for k := 0 to |references|
      invariant |news| == k
      invariant forall i :: 0 <= i < k ==>
        news[i] == FormatNews(references[i].title, Join(provider.paragraphsOf(references[i].link), "\n"))
    {
      var title := references[k].title;
      var mainText := Utils.UrlScraper(references[k].link, provider.paragraphsOf);
      news := news + [FormatNews(title, mainText)];
    }
  }

  /** The memo table of `__get_ticker__` (`functools.cache`): one handle per
      symbol, built on first use and shared afterwards. It is process-wide
      and never shrinks. */
  class TickerCache {
    var handles: map<string, Ticker>
    /** How many handles have been built from the provider. */
    ghost var lookups: nat

    ghost predicate Valid()
      reads this
    {
      (forall s :: s in handles ==> handles[s].symbol == s)
      && lookups == |handles|
    }

    constructor ()
      ensures Valid() && handles == map[]
    {
      handles := map[];
      lookups := 0;
    }

    /** `__get_ticker__(stock)`: the stored handle when there is one;
        otherwise a new handle, stored for later calls. Each symbol costs
        one provider lookup over the lifetime of the table. */
    method GetTicker(symbol: string) returns (t: Ticker)
      requires Valid()
      modifies this
      ensures Valid() && t.symbol == symbol
      ensures symbol in old(handles) ==>
        t == old(handles)[symbol] && handles == old(handles) && lookups == old(lookups)
      ensures symbol !in old(handles) ==>
        fresh(t) && handles == old(handles)[symbol := t] && lookups == old(lookups) + 1
    {
      if symbol in handles {
        t := handles[symbol];
      } else {
        t := new Ticker(symbol);
        handles := handles[symbol := t];
        lookups := lookups + 1;
      }
    }
  }

  /** `StocksManager`: the stock cache and the cache-through lookup. */
  class StocksManager {
    const stocks: ExpiringDict<StockInfo>
    /** How many bundles have been fetched from the provider. */
    ghost var fetches: nat

    ghost predicate Valid()
      reads this, stocks
    {
      stocks.Valid() && stocks.maxLen == MaxEntries && stocks.maxAge == MaxAgeSeconds
    }

    constructor ()
      ensures Valid() && fresh(stocks) && stocks.Contents() == Store(map[], []) && fetches == 0
    {
      stocks := new ExpiringDict(MaxEntries, MaxAgeSeconds);
      fetches := 0;
    }

    /** `get_info(stock)` at time `now`. A live cached bundle is returned as
        it is: nothing is fetched and its insertion time is not renewed.
        Otherwise the ticker is resolved, news and history are fetched, and
        the new bundle is stored and returned. Either way a lookup of
        `stock` at the same time now yields the returned bundle. */
    method GetInfo(stock: string, now: int, tickers: TickerCache, provider: Provider)
      returns (info: StockInfo)
      requires Valid() && tickers.Valid()
      modifies this, stocks, tickers
      ensures Valid() && tickers.Valid()
      ensures Lookup(stocks.Contents(), stock, now, MaxAgeSeconds) == Some(info)
      ensures Live(old(stocks.Contents()), stock, now, MaxAgeSeconds) ==>
        info == old(stocks.Contents()).entries[stock].value
        && stocks.Contents() == old(stocks.Contents())
        && fetches == old(fetches)
        && tickers.handles == old(tickers.handles) && tickers.lookups == old(tickers.lookups)
      ensures !Live(old(stocks.Contents()), stock, now, MaxAgeSeconds) ==>
        info == Fetched(provider, stock)
        && stocks.Contents()
           == Put(Purge(old(stocks.Contents()), stock, now, MaxAgeSeconds), stock, info, now, MaxEntries)
        && fetches == old(fetches) + 1
        && stock in tickers.handles
        && (stock in old(tickers.handles) ==>
              tickers.handles == old(tickers.handles) && tickers.lookups == old(tickers.lookups))
        && (stock !in old(tickers.handles) ==>
              tickers.handles == old(tickers.handles)[stock := tickers.handles[stock]]
              && fresh(tickers.handles[stock])
              && tickers.lookups == old(tickers.lookups) + 1)
    {
      var cached := stocks.Get(stock, now);
      if cached.Some? {
        info := cached.value;
      } else {
        var ticker := tickers.GetTicker(stock);
        var news := GetNews(ticker, provider);
        var financials := provider.historyOf(ticker.symbol);
        info := StockInfo(news, financials);
        stocks.SetItem(stock, info, now);
        fetches := fetches + 1;
      }
    }
  }
}
