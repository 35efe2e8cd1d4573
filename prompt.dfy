/** Prompt assembly (prompt.py): the per-stock budget, the per-stock text
    blocks in request order, the substitution of the question and the blocks
    into the template, and the two-message conversation. The configured
    maxima `MAX_NEWS_ENTRIES` and `MAX_FINANCIAL_ENTRIES` are parameters. */
module Prompt {
  import opened Text
  import opened Utils
  import opened Expiring
  import opened Data

  /** `max(1, MAX_NEWS_ENTRIES // stock_count)`: every stock gets at least
      one news entry. */
  function NewsPerStock(maxNewsEntries: nat, stockCount: nat): (r: nat)
    requires stockCount >= 1
    ensures r >= 1
  {
    Max(1, maxNewsEntries / stockCount)
  }

  /** `max(3, MAX_FINANCIAL_ENTRIES // stock_count)`: every stock gets at
      least three price rows. */
  function FinancialPerStock(maxFinancialEntries: nat, stockCount: nat): (r: nat)
    requires stockCount >= 1
    ensures r >= 3
  {
    Max(3, maxFinancialEntries / stockCount)
  }

  /** A single stock gets the whole configured budget. */
  lemma SingleStockBudget(maxNewsEntries: nat, maxFinancialEntries: nat)
    ensures maxNewsEntries >= 1 ==> NewsPerStock(maxNewsEntries, 1) == maxNewsEntries
    ensures maxFinancialEntries >= 3 ==> FinancialPerStock(maxFinancialEntries, 1) == maxFinancialEntries
  {
  }

  /** The news budget is the floor share of the maximum: the stocks together
      get no more than the maximum unless the floor of one per stock forces
      more, and when the maximum covers every stock the share is the largest
      that fits. */
  lemma NewsBudgetShare(maxNewsEntries: nat, stockCount: nat)
    requires stockCount >= 1
    ensures NewsPerStock(maxNewsEntries, stockCount) * stockCount <= Max(maxNewsEntries, stockCount)
    ensures maxNewsEntries >= stockCount ==>
      maxNewsEntries < (NewsPerStock(maxNewsEntries, stockCount) + 1) * stockCount
  {
    FloorShare(maxNewsEntries, stockCount);
  }

  /** The financial budget is the floor share of the maximum, with a floor
      of three rows per stock. */
  lemma FinancialBudgetShare(maxFinancialEntries: nat, stockCount: nat)
    requires stockCount >= 1
    ensures FinancialPerStock(maxFinancialEntries, stockCount) * stockCount
         <= Max(maxFinancialEntries, 3 * stockCount)
    ensures maxFinancialEntries >= 3 * stockCount ==>
      maxFinancialEntries < (FinancialPerStock(maxFinancialEntries, stockCount) + 1) * stockCount
  {
    FloorShare(maxFinancialEntries, stockCount);
    var q := maxFinancialEntries / stockCount;
    if q < 3 {
      assert FinancialPerStock(maxFinancialEntries, stockCount) * stockCount == 3 * stockCount;
    } else {
      assert maxFinancialEntries >= 3 * stockCount;
    }
  }

  /** Floor division: `m // n` times `n` fits in `m`, one more does not. */
  lemma FloorShare(m: nat, n: nat)
    requires n >= 1
    ensures (m / n) * n <= m < (m / n + 1) * n
  {
    assert m == (m / n) * n + m % n;
  }

  /** The text block of one stock: `f"{stock}\n{description}\n"`. */
  function StockBlock(stock: string, description: string): string
  {
    stock + "\n" + description + "\n"
  }

  /** `helpful_data` as the loop accumulates it, in request order. */
  function HelpfulData(stocks: seq<string>, descriptions: seq<string>): string
    requires |stocks| == |descriptions|
    decreases |stocks|
  {
    if stocks == [] then ""
    else
      var n := |stocks| - 1;
      HelpfulData(stocks[..n], descriptions[..n]) + StockBlock(stocks[n], descriptions[n])
  }

  /** `helpful_data` is the block of every requested stock, one after the
      other in the order the stocks were requested. */
  lemma {:induction false} HelpfulDataInOrder(stocks: seq<string>, descriptions: seq<string>)
    requires |stocks| == |descriptions|
    ensures HelpfulData(stocks, descriptions)
         == Concat(seq(|stocks|, i requires 0 <= i < |stocks| => StockBlock(stocks[i], descriptions[i])))
    decreases |stocks|
  {
    if stocks != [] {
      var n := |stocks| - 1;
      HelpfulDataInOrder(stocks[..n], descriptions[..n]);
      var blocks := seq(|stocks|, i requires 0 <= i < |stocks| => StockBlock(stocks[i], descriptions[i]));
      var initBlocks := seq(n, i requires 0 <= i < n => StockBlock(stocks[..n][i], descriptions[..n][i]));
      assert blocks == initBlocks + [StockBlock(stocks[n], descriptions[n])];
      ConcatSnoc(initBlocks, StockBlock(stocks[n], descriptions[n]));
    }
  }

  /** The description of every bundle under the same budget. */
  function Descriptions(infos: seq<StockInfo>, newsEntries: int, financialEntries: int,
                        render: seq<string> -> string): (r: seq<string>)
    ensures |r| == |infos|
  {
    seq(|infos|, i requires 0 <= i < |infos| => Description(infos[i], newsEntries, financialEntries, render))
  }

  /** The user message as the source computes it: `re.sub` of the query
      token by the question, then `re.sub` of the description token by the
      stock data, over the whole text each time. The result is the template
      filled with the data and with the question as the second substitution
      leaves it: any description token inside the question is replaced too. */
  function Substitute(question: string, data: string): (r: string)
    ensures r == FillTemplate(ReplaceAll(question, DescriptionToken, data), data)
  {
    SubstitutionSteps(question, data);
    ReplaceAll(ReplaceAll(PromptFormat, QueryToken, question), DescriptionToken, data)
  }

  /** The first substitution places the question verbatim; the second acts
      on the question and on the description token only. */
  lemma SubstitutionSteps(question: string, data: string)
    ensures ReplaceAll(PromptFormat, QueryToken, question) == FillTemplate(question, DescriptionToken)
    ensures ReplaceAll(FillTemplate(question, DescriptionToken), DescriptionToken, data)
         == FillTemplate(ReplaceAll(question, DescriptionToken, data), data)
  {
    TokenShape();
    TokensDistinct();
    PromptFormatIsFill();
    ReplaceFilled(QueryToken, DescriptionToken, QueryToken, question);
    ReplaceFilled(question, DescriptionToken, DescriptionToken, data);
  }

  /** The system instruction chosen by the `complex` flag. */
  function SystemPrompt(complex: bool): string
  {
    if complex then ComplexContextPrompt else SimpleContextPrompt
  }

  /** One message of the conversation payload: `{"role": ..., "content": ...}`. */
  datatype Message = Message(role: string, content: string)

  /** The two instructions differ, so the system message tells which kind
      of request was made. */
  lemma SystemPromptDeterminesMode(a: bool, b: bool)
    ensures SystemPrompt(a) == SystemPrompt(b) <==> a == b
  {
    if a != b {
      assert ComplexContextPrompt[0] == 'I';
      assert SimpleContextPrompt[0] == 'Y';
    }
  }

  /** The user message holds the question verbatim where the query token
      stood and the stock data where the description token stood, and
      nothing else changes in the template. `re.sub` treats backslashes in
      the replacement as escapes, so the literal model agrees with it only
      for backslash-free texts; and a question holding the description token
      would have that token replaced too (see `QuestionInjection`). */
  lemma UserContentVerbatim(question: string, data: string)
    requires '\\' !in question && '\\' !in data
    requires !Contains(question, DescriptionToken)
    ensures Substitute(question, data) == FillTemplate(question, data)
    ensures OccursAt(Substitute(question, data), question, QueryIndex)
    ensures OccursAt(Substitute(question, data), data, QueryIndex + |question| + |PromptMiddle|)
  {
    QuestionAt(question, data);
    DataAt(question, data);
  }

  /** Under the same conditions, and when the question and the data hold no
      token themselves, no token is left in the user message. */
  lemma NoTokenLeft(question: string, data: string)
    requires '\\' !in question && '\\' !in data
    requires !Contains(question, QueryToken) && !Contains(question, DescriptionToken)
    requires !Contains(data, QueryToken) && !Contains(data, DescriptionToken)
    ensures !Contains(Substitute(question, data), QueryToken)
    ensures !Contains(Substitute(question, data), DescriptionToken)
  {
    UserContentVerbatim(question, data);
    TokenShape();
    CountFilled(question, data, QueryToken);
    CountFilled(question, data, DescriptionToken);
  }

  /** Why the question must not hold the description token: the second
      substitution also rewrites the copy inside the question, so the
      question does not reach the model verbatim. */
  lemma QuestionInjection()
    ensures Substitute(DescriptionToken, "X") == FillTemplate("X", "X")
    ensures Substitute(DescriptionToken, "X") != FillTemplate(DescriptionToken, "X")
  {
    TokenShape();
    assert |FillTemplate("X", "X")| < |FillTemplate(DescriptionToken, "X")|;
  }

  /** Every bundle whose entry is live is either what the cache held when
      the request began or a fresh fetch from the provider. */
  ghost predicate CachedOrFetched(st: Store<StockInfo>, start: Store<StockInfo>, provider: Provider, now: int)
  {
    forall k :: Live(st, k, now, MaxAgeSeconds) ==>
      st.entries[k].value == Fetched(provider, k)
      || Lookup(start, k, now, MaxAgeSeconds) == Some(st.entries[k].value)
  }

  /** A bundle used for `stock` is either what the cache held live at the
      start of the request or what the provider returns for `stock`. */
  ghost predicate CachedAtStartOrFetched(info: StockInfo, stock: string, start: Store<StockInfo>,
                                         provider: Provider, now: int)
  {
    info == Fetched(provider, stock) || Lookup(start, stock, now, MaxAgeSeconds) == Some(info)
  }

  /** A lookup that finds a live entry, or a store of a freshly fetched
      bundle after a miss, keeps every live entry either original or
      fetched; and the bundle it yields is one of the two as well. */
  lemma CachedOrFetchedAfterGet(st: Store<StockInfo>, start: Store<StockInfo>, provider: Provider,
                                now: int, stock: string, info: StockInfo, next: Store<StockInfo>)
    requires WellFormed(st, MaxEntries) && CachedOrFetched(st, start, provider, now)
    requires (Live(st, stock, now, MaxAgeSeconds) && info == st.entries[stock].value && next == st)
          || (info == Fetched(provider, stock)
              && next == Put(Purge(st, stock, now, MaxAgeSeconds), stock, info, now, MaxEntries))
    ensures CachedOrFetched(next, start, provider, now)
    ensures CachedAtStartOrFetched(info, stock, start, provider, now)
  {
    if next != st {
      var purged := Purge(st, stock, now, MaxAgeSeconds);
      PurgeWellFormed(st, stock, now, MaxAgeSeconds, MaxEntries);
      assert CachedOrFetched(purged, start, provider, now);
      PutFrame(purged, stock, info, now, MaxEntries);
    }
  }

  /** Appending a bundle appends its description. */
  lemma DescriptionsSnoc(infos: seq<StockInfo>, info: StockInfo, newsEntries: int, financialEntries: int,
                         render: seq<string> -> string)
    ensures Descriptions(infos + [info], newsEntries, financialEntries, render)
         == Descriptions(infos, newsEntries, financialEntries, render)
            + [Description(info, newsEntries, financialEntries, render)]
  {
    var a := Descriptions(infos + [info], newsEntries, financialEntries, render);
    var b := Descriptions(infos, newsEntries, financialEntries, render)
             + [Description(info, newsEntries, financialEntries, render)];
    forall i | 0 <= i < |a| ensures a[i] == b[i] {
      if i < |infos| {
        assert (infos + [info])[i] == infos[i];
      }
    }
  }

  /** The bundle `get_info(stock)` returns when the cache holds `st` at
      `now`: the live cached bundle, otherwise a fresh fetch. */
  function Served(st: Store<StockInfo>, stock: string, now: int, provider: Provider): StockInfo
  {
    match Lookup(st, stock, now, MaxAgeSeconds)
    case Some(info) => info
    case None => Fetched(provider, stock)
  }

  /** The cache after `get_info(stock)`: unchanged on a live hit; otherwise
      the lookup's purge followed by the store of the fetched bundle. */
  function AfterServe(st: Store<StockInfo>, stock: string, now: int, provider: Provider): Store<StockInfo>
  {
    if Live(st, stock, now, MaxAgeSeconds) then st
    else Put(Purge(st, stock, now, MaxAgeSeconds), stock, Fetched(provider, stock), now, MaxEntries)
  }

  /** The cache after `get_info` of each stock in turn. */
  function Serve(st: Store<StockInfo>, stocks: seq<string>, now: int, provider: Provider): Store<StockInfo>
    decreases |stocks|
  {
    if stocks == [] then st
    else
      var n := |stocks| - 1;
      AfterServe(Serve(st, stocks[..n], now, provider), stocks[n], now, provider)
  }

  /** How many of the requests in turn miss the cache and fetch; at most
      one per requested stock. */
  function Misses(st: Store<StockInfo>, stocks: seq<string>, now: int, provider: Provider): (r: nat)
    ensures r <= |stocks|
    decreases |stocks|
  {
    if stocks == [] then 0
    else
      var n := |stocks| - 1;
      Misses(st, stocks[..n], now, provider)
      + (if Live(Serve(st, stocks[..n], now, provider), stocks[n], now, MaxAgeSeconds) then 0 else 1)
  }

  /** The bundles the requests return in turn. */
  function Bundles(st: Store<StockInfo>, stocks: seq<string>, now: int, provider: Provider): (r: seq<StockInfo>)
    ensures |r| == |stocks|
    decreases |stocks|
  {
    if stocks == [] then []
    else
      var n := |stocks| - 1;
      Bundles(st, stocks[..n], now, provider) + [Served(Serve(st, stocks[..n], now, provider), stocks[n], now, provider)]
  }

  /** The i-th bundle is what the cache, as the earlier requests left it,
      serves for the i-th stock. */
  lemma {:induction false} BundlesAt(st: Store<StockInfo>, stocks: seq<string>, now: int, provider: Provider)
    ensures forall i :: 0 <= i < |stocks| ==>
      Bundles(st, stocks, now, provider)[i] == Served(Serve(st, stocks[..i], now, provider), stocks[i], now, provider)
    decreases |stocks|
  {
    if stocks != [] {
      var n := |stocks| - 1;
      var init := stocks[..n];
      BundlesAt(st, init, now, provider);
      forall i | 0 <= i < |stocks|
        ensures Bundles(st, stocks, now, provider)[i] == Served(Serve(st, stocks[..i], now, provider), stocks[i], now, provider)
      {
        if i < n {
          assert stocks[..i] == init[..i];
          assert stocks[i] == init[i];
        } else {
          assert stocks[..i] == init;
        }
      }
    }
  }

  /** One more request extends the fold by one step. */
  lemma ServeStep(st: Store<StockInfo>, stocks: seq<string>, i: nat, now: int, provider: Provider)
    requires i < |stocks|
    ensures Bundles(st, stocks[..i + 1], now, provider)
         == Bundles(st, stocks[..i], now, provider) + [Served(Serve(st, stocks[..i], now, provider), stocks[i], now, provider)]
    ensures Serve(st, stocks[..i + 1], now, provider)
         == AfterServe(Serve(st, stocks[..i], now, provider), stocks[i], now, provider)
    ensures Misses(st, stocks[..i + 1], now, provider)
         == Misses(st, stocks[..i], now, provider)
            + (if Live(Serve(st, stocks[..i], now, provider), stocks[i], now, MaxAgeSeconds) then 0 else 1)
  {
    assert stocks[..i + 1][..i] == stocks[..i];
  }

  /** Serving requests keeps the cache invariant. */
  lemma {:induction false} ServeWellFormed(st: Store<StockInfo>, stocks: seq<string>, now: int, provider: Provider)
    requires WellFormed(st, MaxEntries)
    ensures WellFormed(Serve(st, stocks, now, provider), MaxEntries)
    decreases |stocks|
  {
    if stocks != [] {
      var n := |stocks| - 1;
      var before := Serve(st, stocks[..n], now, provider);
      ServeWellFormed(st, stocks[..n], now, provider);
      PurgeWellFormed(before, stocks[n], now, MaxAgeSeconds, MaxEntries);
      PutWellFormed(Purge(before, stocks[n], now, MaxAgeSeconds), stocks[n], Fetched(provider, stocks[n]), now, MaxEntries);
    }
  }

  /** Serving requests in turn leaves every live entry either as the cache
      held it at the start or freshly fetched, and every bundle served is
      one of the two. */
  lemma {:induction false} ServeOrigins(st: Store<StockInfo>, stocks: seq<string>, now: int, provider: Provider)
    requires WellFormed(st, MaxEntries)
    ensures CachedOrFetched(Serve(st, stocks, now, provider), st, provider, now)
    ensures forall i :: 0 <= i < |stocks| ==>
      CachedAtStartOrFetched(Served(Serve(st, stocks[..i], now, provider), stocks[i], now, provider), stocks[i], st, provider, now)
    decreases |stocks|
  {
    if stocks == [] {
      assert CachedOrFetched(st, st, provider, now);
    } else {
      var n := |stocks| - 1;
      var init := stocks[..n];
      ServeOrigins(st, init, now, provider);
      ServeWellFormed(st, init, now, provider);
      var before := Serve(st, init, now, provider);
      CachedOrFetchedAfterGet(before, st, provider, now, stocks[n],
        Served(before, stocks[n], now, provider), AfterServe(before, stocks[n], now, provider));
      forall i | 0 <= i < |stocks|
        ensures CachedAtStartOrFetched(Served(Serve(st, stocks[..i], now, provider), stocks[i], now, provider), stocks[i], st, provider, now)
      {
        if i < n {
          assert stocks[..i] == init[..i];
          assert stocks[i] == init[i];
        } else {
          assert stocks[..i] == init;
        }
      }
    }
  }

  /** A request whose stocks are all live in the cache fetches nothing,
      leaves the cache as it was, and uses the cached bundles. */
  lemma {:induction false} AllCachedNoFetch(st: Store<StockInfo>, stocks: seq<string>, now: int, provider: Provider)
    requires forall i :: 0 <= i < |stocks| ==> Live(st, stocks[i], now, MaxAgeSeconds)
    ensures Serve(st, stocks, now, provider) == st
    ensures Misses(st, stocks, now, provider) == 0
    ensures forall i :: 0 <= i < |stocks| ==>
      Lookup(st, stocks[i], now, MaxAgeSeconds) == Some(Served(Serve(st, stocks[..i], now, provider), stocks[i], now, provider))
    decreases |stocks|
  {
    if stocks != [] {
      var n := |stocks| - 1;
      var init := stocks[..n];
      assert forall i :: 0 <= i < |init| ==> init[i] == stocks[i];
      AllCachedNoFetch(st, init, now, provider);
      forall i | 0 <= i < |stocks|
        ensures Lookup(st, stocks[i], now, MaxAgeSeconds) == Some(Served(Serve(st, stocks[..i], now, provider), stocks[i], now, provider))
      {
        if i < n {
          assert stocks[..i] == init[..i];
          assert stocks[i] == init[i];
        } else {
          assert stocks[..i] == init;
        }
      }
    }
  }

  /** The ticker memo `now` extends `start`: every handle there is kept,
      and every new symbol is one of `stocks`. */
  ghost predicate MemoExtends(start: map<string, Ticker>, now: map<string, Ticker>, stocks: seq<string>)
  {
    (forall s :: s in start ==> s in now && now[s] == start[s])
    && (forall s :: s in now ==> s in start || s in stocks)
  }

  /** A lookup that keeps the memo or records a handle for `stock` keeps
      it an extension, with `stock` among the requested symbols. */
  lemma MemoStep(start: map<string, Ticker>, before: map<string, Ticker>, after: map<string, Ticker>,
                 stocks: seq<string>, i: nat)
    requires i < |stocks| && MemoExtends(start, before, stocks[..i])
    requires after == before || (stocks[i] !in before && stocks[i] in after && after == before[stocks[i] := after[stocks[i]]])
    ensures MemoExtends(start, after, stocks[..i + 1])
  {
    assert forall s :: s in stocks[..i] ==> s in stocks[..i + 1];
    assert stocks[i] in stocks[..i + 1];
  }

  /** `generate_prompt`: budgets the news and price rows per stock, collects
      each requested stock's block in order through the cache, substitutes
      the question and the blocks into the template, and returns the system
      and user messages. The ghost `infos` are the bundles used, each either
      what the cache held when the call began or fetched during it. The
      request is served at one instant `now`; an empty list of stocks would
      divide by zero and is excluded (the only caller checks it). */
  method GeneratePrompt(manager: StocksManager, tickers: TickerCache, provider: Provider,
                        render: seq<string> -> string, now: int,
                        maxNewsEntries: nat, maxFinancialEntries: nat,
                        inputText: string, inputStocks: seq<string>, complex: bool)
    returns (messages: seq<Message>, ghost infos: seq<StockInfo>)
    requires |inputStocks| >= 1
    requires manager.Valid() && tickers.Valid()
    modifies manager, manager.stocks, tickers
    ensures manager.Valid() && tickers.Valid()
    ensures |infos| == |inputStocks|
    ensures forall i :: 0 <= i < |inputStocks| ==>
      infos[i] == Served(Serve(old(manager.stocks.Contents()), inputStocks[..i], now, provider), inputStocks[i], now, provider)
    ensures forall i :: 0 <= i < |inputStocks| ==>
      CachedAtStartOrFetched(infos[i], inputStocks[i], old(manager.stocks.Contents()), provider, now)
    ensures manager.stocks.Contents() == Serve(old(manager.stocks.Contents()), inputStocks, now, provider)
    ensures CachedOrFetched(manager.stocks.Contents(), old(manager.stocks.Contents()), provider, now)
    ensures manager.fetches == old(manager.fetches) + Misses(old(manager.stocks.Contents()), inputStocks, now, provider)
    ensures manager.fetches <= old(manager.fetches) + |inputStocks|
    ensures MemoExtends(old(tickers.handles), tickers.handles, inputStocks)
    ensures var newsEntries := NewsPerStock(maxNewsEntries, |inputStocks|);
      var financialEntries := FinancialPerStock(maxFinancialEntries, |inputStocks|);
      var data := HelpfulData(inputStocks, Descriptions(infos, newsEntries, financialEntries, render));
      messages == [Message("system", SystemPrompt(complex)), Message("user", Substitute(inputText, data))]
  {
    var stockCount := |inputStocks|;
    var newsEntries := NewsPerStock(maxNewsEntries, stockCount);
    var financialEntries := FinancialPerStock(maxFinancialEntries, stockCount);

    var helpfulData := "";
    infos := [];
    ghost var start := manager.stocks.Contents();
    for i := 0 to stockCount
      invariant manager.Valid() && tickers.Valid()
      invariant |infos| == i
      invariant helpfulData == HelpfulData(inputStocks[..i], Descriptions(infos, newsEntries, financialEntries, render))
      invariant infos == Bundles(start, inputStocks[..i], now, provider)
      invariant manager.stocks.Contents() == Serve(start, inputStocks[..i], now, provider)
      invariant manager.fetches == old(manager.fetches) + Misses(start, inputStocks[..i], now, provider)
      invariant MemoExtends(old(tickers.handles), tickers.handles, inputStocks[..i])
    {
      var stock := inputStocks[i];
      ghost var before := manager.stocks.Contents();
      ghost var memoBefore := tickers.handles;
      var info := manager.GetInfo(stock, now, tickers, provider);
      assert info == Served(before, stock, now, provider);
      assert manager.stocks.Contents() == AfterServe(before, stock, now, provider);
      ServeStep(start, inputStocks, i, now, provider);
      MemoStep(old(tickers.handles), memoBefore, tickers.handles, inputStocks, i);
      var description := GetDescription(info, newsEntries, financialEntries, render);
      helpfulData := helpfulData + StockBlock(stock, description);
      assert inputStocks[..i + 1][..i] == inputStocks[..i];
      DescriptionsSnoc(infos, info, newsEntries, financialEntries, render);
      infos := infos + [info];
    }
    assert inputStocks[..stockCount] == inputStocks;
    ServeOrigins(start, inputStocks, now, provider);
    BundlesAt(start, inputStocks, now, provider);

    var prompt := PromptFormat;
    prompt := ReplaceAll(prompt, QueryToken, inputText);
    prompt := ReplaceAll(prompt, DescriptionToken, helpfulData);

    messages := [Message("system", SystemPrompt(complex)), Message("user", prompt)];
  }
}
