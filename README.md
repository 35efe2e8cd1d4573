# finmistral prompt pipeline in Dafny

This project models the core of finmistral, a financial-advice assistant. The core turns a client's question and a list of stock symbols into a two-message conversation for a language model. It has three parts:

- **Stock cache** (`data.py`): a capacity- and age-bounded cache (`ExpiringDict(max_len=128, max_age_seconds=300)`) maps each symbol to a bundle of news and price history. `get_info` reads through it. On a miss, it resolves a memoized ticker handle, fetches at most five news references, and scrapes each one into a `title\n"body"` entry. It then fetches a month of price rows and stores the bundle.
- **Per-stock text** (`StockInfo.get_description`): a financials header, the first rows of the price table, a news header, and numbered news lines.
- **Prompt assembly** (`prompt.py`, with the constants of `utils.py`): each stock gets a share of the news and price-row budgets. The per-stock blocks are concatenated in request order. Two `re.sub` calls put the question and the blocks into the user template, and the system instruction is chosen by the `complex` flag.

Modules:

- `text.dfy`, `Text`: the Python string operations the pipeline relies on.
  - occurrence counting;
  - `re.sub` with a literal pattern;
  - `"\n".join` and its inverse split;
  - decimal rendering of an index.
- `utils.dfy`, `Utils`: the tokens, the two system instructions, the user template, and the paragraph join of `url_scraper`.
- `expiring.dfy`, `Expiring`: the expiring dictionary.
  - `Store` is its contents as a value: entries with their insertion times, and keys in insertion order.
  - The class `ExpiringDict` updates those contents in place.
  - The clock is an explicit `now` parameter.
- `data.dfy`, `Data`: `StockInfo` and its description; the ticker memo (`TickerCache`); `__get_news__`; `StocksManager.get_info`.
  - The market-data provider and the page scraper are function values (`Provider`).
  - The rendering of a price table is a function value too (`render`).
  - Ghost counters record how many bundles were fetched (`fetches`) and how many ticker handles were built (`lookups`).
- `prompt.dfy`, `Prompt`: the budgets, `helpful_data`, the substitution, and `generate_prompt`.

The `ExpiringDict` library source is not part of this model. Its behaviour is modelled as the library documents it:

- A lookup returns an entry only while its age is below `max_age_seconds`. An entry exactly 300 seconds old is already expired.
- A lookup deletes the expired entry it finds.
- A store into a full dictionary first drops the key's old entry if there is one. Otherwise it evicts the oldest-inserted entry. The new entry is then appended.
- While there is room, re-storing a present key overwrites it in place. The dictionary is an ordered dictionary, so the key keeps its position.
- "Full" counts every stored entry, including expired ones nobody has looked up.

The question does not always reach the model verbatim:

- `re.sub` (prompt.py:56-57) processes backslash escapes in its replacement text, so a question or stock text holding a backslash is altered on the way in.
- The second `re.sub` runs over the whole text, question included, so a question holding the description token has that copy replaced by the stock data as well. `Prompt.Substitute` states this exactly, and `Prompt.QuestionInjection` shows it on a concrete input.
- `Prompt.UserContentVerbatim` states the verbatim property under the conditions where the code delivers it: no backslash in either text, and no description token in the question.

## Model

| member | source | states |
|---|---|---|
| Expiring.PurgeWellFormed | data.py:114 | a lookup, including its deletion of an expired entry, keeps the cache within capacity with one entry per key |
| Expiring.PutWellFormed | data.py:52 | a store keeps the cache within its capacity of 128 entries with one entry per key and an insertion order listing exactly the stored keys |
| Expiring.PutThenLookup | data.py:123 | right after a store, a lookup of the same key less than the maximum age later returns the stored value |
| Expiring.PutThenExpire | data.py:52 | once the maximum age has passed since a store, a lookup of that key returns nothing |
| Expiring.PutFrame | data.py:123 | a store changes no other key, except for evicting at most one entry, the oldest-inserted, and only when the cache was full and lacked the key |
| Expiring.PutEvictsOldest | data.py:52 | storing a new key into a full cache evicts exactly the earliest-inserted key and leaves the cache at capacity |
| Expiring.MissFrame | data.py:114-123 | a lookup that misses, followed by a store, changes no other key except for evicting at most the oldest-inserted entry of a full cache |
| Expiring.MissThenPut | data.py:114-123 | after a miss, the stored bundle becomes the newest entry in insertion order, so it is the last to be evicted |
| Expiring.ExpiringDict.constructor | data.py:52 | a new cache is empty with the given capacity and maximum age |
| Expiring.ExpiringDict.Get | data.py:114 | the lookup returns a value exactly when the key has an entry younger than the maximum age, and then the stored value; when it returns nothing the key has no entry afterwards (an expired entry is deleted); no other key appears or disappears; the contents afterwards are what `Purge` specifies |
| Expiring.ExpiringDict.SetItem | data.py:123 | the in-place store leaves the contents that `Put` specifies and keeps the capacity invariant |
| Data.Prefix | data.py:40 | Python slicing `s[:n]`: the first n elements, all when n exceeds the length, all but the last -n when n is negative |
| Data.GetDescription | data.py:27-45 | the description built step by step equals the specified layout |
| Data.NewsLinesNumbered | data.py:43-44 | the news section is line i = `[i] - ` + entry i + newline for each shown entry, in list order, numbered from 0 |
| Data.DescriptionLayout | data.py:40-44 | the description is the financials header, the rendered first rows, a newline, the news header, then exactly min(news budget, number of news) numbered lines |
| Data.DescriptionWithoutNews | data.py:40-41 | with no news the description still ends with the `News:` header |
| Data.DescriptionGrows | data.py:43-44 | raising the news budget by one adds exactly the next numbered line while news remain |
| Text.DecimalRoundTrip | data.py:44 | the rendered index reads back as the index, so line numbers are distinct |
| Data.GetNews | data.py:78-85 | at most five entries, one per provider reference in provider order, each `title` + newline + quote + scraped body + quote |
| Data.Ticker.constructor | data.py:65 | a handle is built for the requested symbol |
| Data.TickerCache.GetTicker | data.py:54-65 | a memoized symbol returns the same handle with nothing built; a new symbol builds exactly one handle and records it |
| Data.StocksManager.constructor | data.py:50-52 | the manager starts with an empty cache of capacity 128 and maximum age 300 seconds |
| Data.StocksManager.GetInfo | data.py:102-125 | on a live hit, the cached bundle is returned with no fetch and no change to the cache, its insertion time included; on a miss, the bundle is built from the resolved ticker's news and history, stored under the symbol, counted as one fetch, and returned; either way a lookup at the same time yields the returned bundle; on a miss the ticker memo keeps every handle it had and gains a fresh one only for a symbol it lacked, counting one provider lookup |
| Prompt.NewsPerStock | prompt.py:41 | the per-stock news budget is at least one |
| Prompt.FinancialPerStock | prompt.py:42 | the per-stock price-row budget is at least three |
| Prompt.SingleStockBudget | prompt.py:40-42 | with one stock the budgets are the configured maxima (news maximum at least 1, price-row maximum at least 3) |
| Prompt.NewsBudgetShare | prompt.py:40-41 | all stocks together get at most max(maximum, stock count) news entries, and when the maximum covers every stock the share is the largest that fits |
| Prompt.FinancialBudgetShare | prompt.py:40-42 | all stocks together get at most max(maximum, 3 x stock count) rows, and the share is the largest that fits when the maximum allows three per stock |
| Prompt.HelpfulDataInOrder | prompt.py:45-52 | `helpful_data` is, in request order, symbol + newline + description + newline for every requested stock |
| Prompt.CachedOrFetchedAfterGet | prompt.py:46-48 | one `get_info` keeps every live entry either as the request found it or freshly fetched, and the bundle it returns is one of the two |
| Prompt.Misses | prompt.py:46-48 | the number of `get_info` calls of a request that miss the cache is at most the number of requested stocks |
| Prompt.ServeWellFormed | prompt.py:46-48 | serving the requested stocks in turn keeps the cache within capacity with one entry per key |
| Prompt.ServeOrigins | prompt.py:46-48 | after serving the stocks in turn, every live entry and every bundle served is either what the cache held live when the request began or what the provider returns for that symbol |
| Prompt.BundlesAt | prompt.py:46-48 | the i-th bundle of a request is what the cache, as the earlier `get_info` calls left it, serves for the i-th stock |
| Prompt.AllCachedNoFetch | prompt.py:46-48 | when every requested stock is live in the cache, the request fetches nothing, leaves the cache unchanged and uses the cached bundles |
| Prompt.SystemPromptDeterminesMode | prompt.py:62-68 | the system content is the complex instruction when `complex` is set and the simple one otherwise, and the two differ |
| Text.ReplaceAll | prompt.py:56-57 | `re.sub` with a pattern free of regex metacharacters and a replacement free of backslashes: leftmost non-overlapping matches replaced, inserted text not rescanned; text without the pattern is unchanged, and the pattern alone becomes the replacement |
| Prompt.Substitute | prompt.py:55-57 | the user content is the template with the stock data in place of the description token and, in place of the query token, the question with every description token in it replaced by the stock data |
| Prompt.UserContentVerbatim | prompt.py:55-57 | with no backslash in the question or the stock data, and no description token in the question, the user content is the template with the question verbatim in place of the query token and the data in place of the description token |
| Prompt.NoTokenLeft | prompt.py:55-57 | under the same conditions, with token-free question and data, no token remains in the user content |
| Prompt.QuestionInjection | prompt.py:56-57 | a question that is the description token does not reach the user content verbatim: the second substitution rewrites it too |
| Prompt.GeneratePrompt | prompt.py:20-73 | exactly two messages, system then user; the user content is the two substitutions of the question and the ordered per-stock blocks under the computed budgets; the i-th bundle is what `get_info` serves from the cache as the earlier stocks left it; the cache afterwards is those `get_info` calls applied in request order; each bundle and live entry is from the cache as it stood or from the provider; one fetch per miss, so at most one per requested stock; the ticker memo keeps every handle and gains only requested symbols |
| Utils.PromptFormatIsFill | utils.py:62-66 | the template is its first line, the query token, the second line, the description token, and a final newline |
| Utils.TokenShape | utils.py:41-42 | both tokens start with `<` and hold no newline |
| Utils.TokensDistinct | utils.py:41-42 | the tokens are distinct and neither is a substring of the other |
| Utils.ComplexContextPromptFree | utils.py:45-55 | the complex instruction holds no `<` |
| Utils.ContextPromptsTokenFree | utils.py:45-59 | neither system instruction contains either token |
| Utils.QueryTokenOnce | utils.py:62-63 | the query token occurs exactly once in the template |
| Utils.DescriptionTokenOnce | utils.py:64-66 | the description token occurs exactly once in the template |
| Utils.TokenPositions | utils.py:62-66 | the query token stands right after the first template line and nowhere else; the description token stands after it, past the second line, and nowhere else |
| Utils.CountFilled | utils.py:62-66 | a token counted in the filled template is counted only in the two inserted texts |
| Utils.ReplaceFilled | prompt.py:56-57 | replacing a token in the filled template replaces it only inside the two inserted texts |
| Utils.UrlScraper | utils.py:30-37 | the scraped text is the page's paragraph texts joined by newlines in document order, empty for no paragraphs, and splits back into those paragraphs when none holds a newline |
| Text.SplitJoin | utils.py:36 | joining newline-free paragraphs with newlines and splitting at newlines gives back the paragraphs |

## Left out

- `app.py` (Streamlit interface, language-model call): user interface and a foreign model. Its non-empty-input guard becomes the precondition `|inputStocks| >= 1` of `Prompt.GeneratePrompt`.
- The HTTP request, HTML parsing and `lru_cache` of `url_scraper` (utils.py:14-28): network I/O and a foreign library. The paragraphs of a page are the function `paragraphsOf`.
- yfinance (`yf.Ticker`, `.news`, `.history("1mo")`, data.py:65, 78, 100): a foreign service. These are the functions of `Provider`, and `__get_financials__` is `historyOf`. Provider, network and page-fetch failures are not modelled: every call returns a value. In the source such an exception aborts the whole request.
- A news reference without a `title` or `link` key (a `KeyError` in the source): a `NewsRef` always has both.
- pandas slicing and `str(DataFrame)` (data.py:40): price rows are opaque strings, and `render` stands for the table rendering.
- The configured maxima `MAX_NEWS_ENTRIES` and `MAX_FINANCIAL_ENTRIES` (the config module is not part of this model): they are natural-number parameters.
- `ExpiringDict` locking and the wall clock: no concurrency is modelled, and time is the parameter `now`. A request is served at one instant: every cache lookup in one `Prompt.GeneratePrompt` call uses the same `now`.
- Prompt.GeneratePrompt: its user content is literal replace-all, which agrees with `re.sub` only when the question and the stock data contain no backslash. In the replacement, `re.sub` expands escapes such as `\n` and group references such as `\g<0>`. It raises an error on unknown escapes of ASCII letters and on references to groups the pattern lacks, and keeps other escaped characters such as `\&` as written. That processing is not modelled.
- Expiring.Put: in the library, a store into a full dictionary tests membership first, and that test deletes an expired entry for the key and answers no; the store then also evicts the oldest entry. The model only drops the key's entry and evicts nothing more. `get_info` never stores into that state, because its lookup has already deleted an expired entry (`Expiring.MissFrame`).
