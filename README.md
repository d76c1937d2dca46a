# bankrollkings — verified model of the query, ordering and aggregation core

This Dafny project models the logic underneath the bankrollkings NFL
dashboard. The Next.js route handlers and React page around it are left
out. The core is a pipeline in four parts:

- **normalising a query**: the limit readers and the query-string builders;
- **ordering with a fallback**: adding sort columns to a query one by one,
  and going on only past a "column … does not exist" error from the store;
- **aggregating and projecting** the situational rows;
- **the backfill script**: chunking, transforming and loading play-by-play
  seasons.

JavaScript values are modelled explicitly:

- `Js.JsNum` is a number: `NaN`, `±Infinity` or an exact finite real.
- `Js.Value` is a dynamic field value.
- `Js.ParseNumber` models `Number(text)` and `Js.ParseInt` models
  `parseInt(text)`. Both are total functions, and each has its own
  round-trip lemmas.

`URLSearchParams` is `UrlParams.SearchParams`. It is a class over an ordered
list of pairs, and its `set` follows the WHATWG URL Standard. `toString()` is
the application/x-www-form-urlencoded serializer, which percent-encodes
UTF-8. The standard's parser is modelled too. The lemma
`UrlParams.ParseSerialize` shows that the parser gives back every list of
pairs the serializer writes. Every query-string property below rests on
that lemma: it is stated as what the receiving route reads out of the text.

The store (Supabase over PostgREST), `fetch`, the parquet download and the
HTTP POST of the backfill script are not modelled as I/O. They become
function parameters: oracles from a request to an answer. The store's query
builder is the class `Store.Query`. Its `limit`, `eq` and `order` change the
builder's own request, and `order` appends a sort key to those already
there. The ordering resolver and the watchlist service also return the
requests they sent, as a ghost log, so that their contracts can speak about
the calls.

Modules, one per part of the source:

| module | source |
|---|---|
| `Wrappers` | `Option` and `Result` |
| `Js` | `Number`, `parseInt`, truthiness, `\|\|`, `Math.max`/`min`, number-to-text |
| `Limits` | the three `getLimitFromSearchParams` variants and the consensus clamp |
| `Store` | the store's reply, the query builder, the missing-column test, the `data ?? []` mapping |
| `SafeOrder` | `orderOrFallback` |
| `Services` | `listConsensusBets`, `listUserWatchlist` |
| `UrlParams` | `URLSearchParams` and the routes' `q()` helper |
| `Http` | the routes' 500 answers |
| `Leaderboard` | the leaderboard route's PostgREST query and `season2=` rewrite |
| `Aggregation` | the Map-based grouping, sort, slice and projection of the situations route |
| `Situations` | the situations route: parameters, defaults, query and answer |
| `LeaderboardClient` | `getLeaderboard` in app/api/situations.ts |
| `Page` | `isUUID`, `cx`, `boolParam`, `fetchJSON` and the two `qs` builders of app/page.tsx |
| `Backfill` | scripts/backfill_pbp.py |

Aggregation keeps the largest `games` of a group, not a sum:
app/api/situations/route.ts:143 folds the rows with `Math.max`.
`Aggregation.Games` and `Aggregation.GamesAreMaximum` model that fold.

## Model

| member | source | states |
|---|---|---|
| Js.Or | app/api/situations.ts:33 | `a \|\| b` is `a` when `a` is truthy and `b` otherwise |
| Js.TrimStart | lib/http/params.ts:7 | the text `Number` reads after trimming is no longer than its input, and starts with no white space (with the lemma below: the input with exactly its leading white space removed) |
| Js.TrimStartDropsLeadingSpace | lib/http/params.ts:7 | trimming keeps a suffix of the text, and everything it drops is white space |
| Js.LeadingRun | app/api/situations/route.ts:142 | `parseInt` reads the longest run of digits: every character before the returned index is a digit of the radix, and the character at that index is not |
| Js.NatText | app/api/situations.ts:18 | `String(k)` of a natural number is non-empty, all digits, and has no leading zero unless `k` is 0 |
| Js.NatTextValue | app/api/situations.ts:18 | reading back the digits of `String(k)` gives `k` |
| Js.ParseIntIntText | app/api/situations/route.ts:176 | `parseInt(String(i)) == i` for every integer `i`, negative ones included |
| Js.ParseIntOfDigits | app/api/situations/route.ts:151 | `parseInt` of a digit string is its decimal value |
| Js.ParseIntOfNegative | app/api/situations/route.ts:151 | `parseInt("-" + ds)` is the negation of the unsigned value of `ds` |
| Js.ParseNumberNatText | lib/http/params.ts:7 | `Number(String(k)) == k` for every natural `k` |
| Js.ParseNumberDecimalText | lib/http/params.ts:7 | `Number("w.f")` is the exact decimal value of the digit strings `w` and `f` |
| Js.NumberTextInt | app/api/situations.ts:18-19 | the text of an integral number is the integer's text, with no fraction part |
| Js.NumberTextNotEmpty | app/api/situations.ts:18-19 | `n.toString()` is never empty, so a truthy number is always sent |
| Js.MaxNum | app/api/situations/route.ts:143 | `Math.max` is NaN iff an argument is NaN; otherwise it is one of its arguments and at least both |
| Js.MinNum | lib/http/params.ts:9 | `Math.min` is NaN iff an argument is NaN; otherwise it is one of its arguments and at most both |
| Limits.NumberParam | lib/http/params.ts:6-7 | a missing or empty `limit` reads as NaN |
| Limits.ParamsLimit | lib/http/params.ts:1-10 | a non-positive or non-finite value gives `fallback`; a positive finite value at most `max` is kept; a larger one gives `max`; the result is `fallback` or at most `max` |
| Limits.ParamsLimitIdempotent | lib/http/params.ts:8-9 | for `0 < fallback <= max`, reading back the text of an integral result gives the same result |
| Limits.Clamp | lib/utils/http.ts:4-6 | for `min <= max` the result lies in `[min, max]`; it is `n` when `n` is in range, `min` below, and `max` above; when the bounds cross, `min` wins |
| Limits.ClampIdempotent | lib/utils/http.ts:4-6 | clamping twice is clamping once |
| Limits.UtilsLimit | lib/utils/http.ts:12-21 | a missing, empty or non-finite value gives `min`; a finite one is floored and then clamped; for `min <= max` the result is an integer in `[min, max]` |
| Limits.BackendNumber | backend/utils/http.ts:2 | an absent `limit` is `def` itself and an empty one is 0 |
| Limits.BackendLimit | backend/utils/http.ts:1-5 | absent gives `min(def, max)` when `def > 0`; empty, NaN or `-Infinity` give `def`; `Infinity` gives `max`; a positive finite value is `min(v, max)`, fractions kept |
| Limits.ConsensusLimit | lib/services/consensusBets.ts:7 | absent gives 50; the result is NaN iff the input is; otherwise it is in `[1, 200]`, and a value already in range is kept |
| Limits.LimitsAgreeOnInRangeIntegers | lib/utils/http.ts:19-20 | all three readers return `k` for the text of an integer `k` in range |
| Limits.LimitsDisagreeWhenAbsent | backend/utils/http.ts:2-4 | an absent value gives `fallback`, `min` and `min(def, max)` in the three readers |
| Limits.LimitsDisagreeOnFraction | lib/utils/http.ts:19-20 | `"7.9"` gives 7.9, 7 and 7.9: only lib/utils/http.ts floors |
| Limits.SevenPointNine | lib/http/params.ts:7 | `Number("7.9")` is exactly 7.9 in the model |
| Limits.FallbackAboveMax | lib/http/params.ts:8-9 | with fallback 300 and max 200 an absent value gives 300, 200 and 300: the fallback is not clamped |
| Limits.LimitsDisagreeOnInfinity | backend/utils/http.ts:3-4 | `"Infinity"` gives the fallback in lib/http/params.ts but `max` in backend/utils/http.ts |
| Limits.ConsensusRouteLimit | app/api/consensus-bets/route.ts:9-10 | the consensus page size is the route's limit raised to at least 1 |
| Store.MissingColumn | lib/db/safeOrder.ts:11 | the message test holds iff the message contains `column`, later ` does not exist`, case-insensitively and with no line break between (the regular expression's meaning) |
| Store.TailFromSound | lib/db/safeOrder.ts:11 | the scan for ` does not exist` succeeds only where the words occur with no line break before them |
| Store.TailFromComplete | lib/db/safeOrder.ts:11 | the scan finds every such occurrence |
| Store.HeadFromSound | lib/db/safeOrder.ts:11 | the scan for `column ` succeeds only at a real match of the whole pattern |
| Store.HeadFromComplete | lib/db/safeOrder.ts:11 | the scan finds every match of the whole pattern |
| Store.Settle | lib/services/userWatchlist.ts:25-26 | an error becomes a failure with its message; otherwise missing data is `[]` and present data is kept |
| Store.PostgresMessageMatches | lib/db/safeOrder.ts:11 | the store's `column X does not exist` message is classified as a missing column |
| Store.OtherMessagesAreFatal | lib/db/safeOrder.ts:11-14 | a message without ` does not exist` is never a missing column |
| Store.ShortMessageIsFatal | lib/db/safeOrder.ts:11-14 | `permission denied` is fatal |
| Store.Query.constructor | lib/services/userWatchlist.ts:13 | a new query of a table has no page size, filter or sort key |
| Store.Query.Limit | lib/services/userWatchlist.ts:13 | `limit(n)` sets the page size of the builder itself and changes nothing else |
| Store.Query.Eq | lib/services/userWatchlist.ts:14 | `eq(c, v)` appends a filter to the builder itself and changes nothing else |
| Store.Query.Order | lib/db/safeOrder.ts:9 | `order(c, { ascending })` appends a sort key after the builder's own and changes nothing else |
| SafeOrder.SortKeys | lib/db/safeOrder.ts:8-9 | one sort key per candidate, in list order, all in the same direction |
| SafeOrder.OrderOrFallback | lib/db/safeOrder.ts:3-19 | as written, on the shared builder: attempt `k` carries the sort keys of candidates `0..k`, with direction `!!ascending` (descending by default); every attempt but the last failed for a missing column; a success returns its rows (`[]` for none) with no error; a fatal error returns `[]` with that error; the final plain await sends every candidate's key and returns its data and error; so with any candidate it ends in the missing-column error |
| SafeOrder.OrderOrFallbackFixed | lib/db/safeOrder.ts:3-19 | corrected: attempt `k` sorts the base query by candidate `k` alone; the unsorted base query runs iff every candidate was missing; results as above |
| SafeOrder.FallsThroughToExistingColumn | lib/db/safeOrder.ts:8-11 | with the corrected loop, a store missing the first columns answers with the rows sorted by the existing one |
| SafeOrder.SharedBuilderKeepsMissingColumn | lib/db/safeOrder.ts:8-18 | as written, the same store answers with `[]` and the first column's missing-column error |
| SafeOrder.FallsBackToUnsorted | lib/db/safeOrder.ts:16-18 | with the corrected loop, a store missing every column answers with the unsorted rows |
| Services.ListConsensusBets | lib/services/consensusBets.ts:6-17 | the store is asked with the clamped limit; an error is thrown with its message, and `null` data is `[]` |
| Services.UserFilter | lib/services/userWatchlist.ts:8-14 | a present `userId` wins over `user_id`, and `user_id` is used only when `userId` is absent; the chosen value filters iff it is non-empty; a filter is never empty |
| Services.ListUserWatchlist | lib/services/userWatchlist.ts:6-27 | as written: the first request has the params limit (50, 200), the user filter and `created_at` descending; a second await runs iff the first failed for a missing column, and it sends the same request; the last answer is thrown or returned with `null` as `[]`; so a missing `created_at` always ends in the error |
| Services.ListUserWatchlistFixed | lib/services/userWatchlist.ts:6-27 | corrected: the same, except that the retry sends the base request without a sort key |
| Services.WatchlistWithoutCreatedAt | lib/services/userWatchlist.ts:17-23 | with the corrected retry, a table without `created_at` is read unsorted |
| Services.WatchlistRetryKeepsOrder | lib/services/userWatchlist.ts:17-25 | as written, the same table gives the missing-column error |
| Services.EmptyUserIdHidesAlias | lib/services/userWatchlist.ts:8 | `userId=""` hides `user_id` (`??` only skips null), and `user_id` is used when `userId` is absent |
| Http.StoreFailure | app/api/situations/route.ts:120-126 | a failed store response is a 500 with `supabase error <status>` and the body as details |
| Http.InternalError | app/api/situations/route.ts:192-197 | a thrown error is a 500 with `internal` and its message |
| UrlParams.Lookup | app/api/situations/route.ts:24 | `get(k)` is absent iff no pair is named `k`, and otherwise a value of a pair named `k` |
| UrlParams.Without | app/api/situations/route.ts:15 | the pairs not named `k`, and only those |
| UrlParams.SetEntryLookup | app/api/situations/route.ts:15 | after `set(k, v)`, `get(k)` is `v`, other names read as before, and exactly one pair is named `k` |
| UrlParams.SetEntryAppends | app/api/situations/route.ts:15 | setting a new name appends the pair |
| UrlParams.SearchParams.Set | app/api/situations/route.ts:15 | `set` replaces the object's pairs by the WHATWG `set` of the old pairs |
| UrlParams.SearchParams.constructor | app/api/situations/route.ts:14 | a new object holds no pairs |
| UrlParams.Encode | app/api/situations/route.ts:78 | the serializer writes only unreserved characters, `+` and `%`, and leaves unreserved text as it is |
| UrlParams.DecodeEncode | app/api/situations/route.ts:78 | decoding an encoded name or value gives it back |
| UrlParams.ParseSerialize | app/api/situations.ts:21-22 | parsing `toString()` gives back exactly the pairs, in order |
| UrlParams.Q | app/api/situations/route.ts:13-17 | `q(params)` holds exactly the pairs whose value is present and non-empty, in record order |
| UrlParams.PresentNames | app/api/situations/route.ts:15 | every pair `q()` keeps carries a name of the record |
| UrlParams.LookupPresent | app/api/situations/route.ts:13-17 | `q(params).get(k)` is the value of `k` when it is present and non-empty, and absent otherwise |
| UrlParams.LookupFirst | app/api/situations/route.ts:24 | `get` finds the value of the first pair with a name |
| UrlParams.LookupPresentMissing | app/api/situations/route.ts:13-17 | a name not in the record is not in `q(params)` |
| Leaderboard.FindFrom | app/api/situations/leaderboard/route.ts:53 | the index found is the first occurrence of the pattern, and no result means no occurrence |
| Leaderboard.ReplaceAfter | app/api/situations/leaderboard/route.ts:53 | `replace` does not touch a prefix that holds no occurrence |
| Leaderboard.ReplaceAtFront | app/api/situations/leaderboard/route.ts:53 | `replace` at a leading occurrence swaps just that occurrence |
| Leaderboard.NoKeyInQuery | app/api/situations/leaderboard/route.ts:53 | `name=` occurs in a serialized list only where some pair's encoded name ends in `name` |
| Leaderboard.RenameFirstPair | app/api/situations/leaderboard/route.ts:53 | replacing the first `k=` renames exactly the first pair named `k` when no earlier name ends in `k` |
| Leaderboard.Filter | app/api/situations/leaderboard/route.ts:42-46 | a filter value is present iff the parameter is present and non-empty |
| Leaderboard.Param | app/api/situations/leaderboard/route.ts:42-46 | a truthy parameter becomes exactly one `key=prefix+value` pair, and a falsy one becomes none |
| Leaderboard.PresentAppend | app/api/situations/leaderboard/route.ts:10-14 | `q()` of a record spread from parts is the parts' `q()` joined |
| Leaderboard.LeaderboardPresent | app/api/situations/leaderboard/route.ts:40-49 | `q()` of the record: fixed select, the truthy filters in order, the order and the limit defaulting to `25` |
| Leaderboard.QueryWithUpperBound | app/api/situations/leaderboard/route.ts:46-53 | the `season2=` rewrite turns the temporary pair into `season=lte.<to>` and nothing else |
| Leaderboard.QueryWithoutUpperBound | app/api/situations/leaderboard/route.ts:53 | with no upper bound the rewrite changes nothing |
| Leaderboard.LeaderboardQueryParams | app/api/situations/leaderboard/route.ts:40-53 | the store reads exactly: select, `position=eq.`, `category=eq.`, `def_tier=eq.`, `season=gte.`, `season=lte.` (each only when given), `order=per_game.desc.nullslast`, `limit` (default 25) |
| Leaderboard.SeasonRange | app/api/situations/leaderboard/route.ts:45-53 | with both bounds, no `season2` reaches the store, and `season=gte.<from>` is directly followed by `season=lte.<to>` |
| Leaderboard.LeaderboardGet | app/api/situations/leaderboard/route.ts:16-83 | the view is fetched with that query; a failed response is the 500 store failure, a thrown error the internal 500, and otherwise the rows are returned |
| Aggregation.GamesOr1 | app/api/situations/route.ts:152 | `row.games \|\| 1` is always truthy |
| Aggregation.AggregateRows | app/api/situations/route.ts:136-156 | the `forEach` over the Map leaves, in insertion order, one entry per key: the first row's identity, the summed yards, and the games of the `Math.max` fold |
| Aggregation.KeysOfMembers | app/api/situations/route.ts:139-140 | a key is in the Map iff some row has it |
| Aggregation.KeysOfDistinct | app/api/situations/route.ts:140-145 | each key is in the Map once |
| Aggregation.FirstRowIsFirst | app/api/situations/route.ts:145-154 | an entry's identity fields come from the first row with its key |
| Aggregation.GamesAreMaximum | app/api/situations/route.ts:143-152 | with finite counts, a group's games is the maximum over its rows of `games \|\| 1`, not the sum |
| Aggregation.WholeGamesAtLeastOneGroup | app/api/situations/route.ts:143-152 | with non-negative whole `games`, a group's games is at least 1 |
| Aggregation.WholeGamesAtLeastOne | app/api/situations/route.ts:152 | `games \|\| 1` is at least 1 for a non-negative whole count |
| Aggregation.InsertPermutes | app/api/situations/route.ts:163 | one insertion step of the sort keeps the elements |
| Aggregation.InsertDescending | app/api/situations/route.ts:163 | one insertion step keeps the list in descending order of yards |
| Aggregation.SortDescending | app/api/situations/route.ts:163 | the sort orders by `total_yards`, descending, and is a permutation |
| Aggregation.SortKeepsTies | app/api/situations/route.ts:163 | the sort is stable: the entries with equal yards keep their Map order |
| Aggregation.SliceEnd | app/api/situations/route.ts:164 | `slice(0, parseInt(limit))` never keeps more than there are |
| Aggregation.SliceOfCount | app/api/situations/route.ts:164 | a numeric limit `k` keeps `min(k, length)` entries |
| Aggregation.SliceOfNaN | app/api/situations/route.ts:164 | an unparseable limit keeps nothing |
| Aggregation.Project | app/api/situations/route.ts:171-187 | every projected row has truthy `games`, `total == total_yards` and `id == player_id` |
| Aggregation.ProjectAll | app/api/situations/route.ts:171 | one projected row per input row, in order |
| Aggregation.ProjectAgg | app/api/situations/route.ts:171-187 | an aggregated entry projects to `total == total_yards ==` the summed yards, `player_name = full_name`, `team = team_abbr`, `id = player_id`, tier `aggregated`, and its games |
| Aggregation.AggRowYards | app/api/situations/route.ts:176 | projecting re-parses the summed yards to the same integer |
| Aggregation.SortedPrefixIsTop | app/api/situations/route.ts:163-164 | every front part of the sorted entries is a top list: a sub-multiset of the entries, descending by total, ties in Map order, and no entry left out has a larger total than one kept |
| Aggregation.PrefixIsTop | app/api/situations/route.ts:163-164 | the same for any descending, tie-keeping rearrangement of the entries |
| Aggregation.ViewOfGroups | app/api/situations/route.ts:158-164 | the view has `slice(0, parseInt(limit))` of the entries' count rows, sorted by total descending; row `i` shows the `i`-th entry of the stable sort, and those entries are a top list |
| Aggregation.ViewLength | app/api/situations/route.ts:164 | the view's length is the slice of the number of distinct keys |
| Aggregation.AggregatedViewRows | app/api/situations/route.ts:134-187 | the aggregated answer shows, row by row, a top list of the Map's entries (each at most once, descending by total, ties in first-occurrence order, nothing larger left out); each row shows the group of some key that occurs in the rows |
| Situations.Kept | app/api/situations/route.ts:15 | `q()` keeps a value iff it is present and non-empty |
| Situations.QueryLookup | app/api/situations/route.ts:13-17 | the store reads under each record name the value `q()` kept |
| Situations.RpcQueryParams | app/api/situations/route.ts:69-78 | the aggregate query carries each `*_filter` and `limit_count` exactly when given, `season_filter` defaulting to the year |
| Situations.ViewQueryParams | app/api/situations/route.ts:82-105 | the situational query carries the column list, an `eq.` per given filter, `category=eq.pass`, the order and the limit |
| Situations.QueryDefaults | app/api/situations/route.ts:27-42 | with no `year` or `limit`, the store sees season 2024 and limit 100 |
| Situations.BuildQuery | app/api/situations/route.ts:51-106 | the endpoint is the RPC unless `aggregate` is exactly `false`, and the query is `q()` of the matching record |
| Situations.Answer | app/api/situations/route.ts:132-187 | the rows are aggregated and projected when aggregating, and only projected otherwise |
| Situations.SituationsGet | app/api/situations/route.ts:19-199 | the fetched address is endpoint plus query; a failed response is the store-failure 500, a thrown error or non-array body the internal 500, and otherwise the processed rows |
| Situations.DefaultLimit | app/api/situations/route.ts:42-164 | with no `limit`, the aggregate answer has `min(100, keys)` rows |
| Situations.EmptyLimitKeepsNothing | app/api/situations/route.ts:164 | `limit=` (empty) keeps no row, and the store is sent no `limit_count` |
| Situations.SituationalRows | app/api/situations/route.ts:166-187 | without aggregation, each store row is projected, in order |
| Situations.AggregatedRows | app/api/situations/route.ts:134-187 | with aggregation, the answer shows the groups as `Aggregation.AggregatedViewRows` states |
| LeaderboardClient.NumberParam | app/api/situations.ts:18-19 | a number is sent iff it is truthy (0 and NaN are not), as its non-empty text |
| LeaderboardClient.FailureMessage | app/api/situations.ts:33 | the server's `error` when truthy, else `Failed to fetch leaderboard` |
| LeaderboardClient.GetLeaderboard | app/api/situations.ts:10-37 | fetches `/api/situations/leaderboard?` with the truthy params; a non-OK response fails with its error message; an OK one returns the parsed body |
| LeaderboardClient.ClientFiltersIgnored | app/api/situations.ts:16-17 | as written, the store is never sent a category or tier filter from the client |
| LeaderboardClient.NoFilterWithoutValue | app/api/situations/leaderboard/route.ts:42-44 | with no `category` or `defTier` parameter the store query has no such filter |
| LeaderboardClient.FixedClientFiltersReachStore | app/api/situations.ts:16-17 | under the route's names, a non-empty category and tier reach the store as `eq.` filters |
| LeaderboardClient.FilterInParams | app/api/situations/leaderboard/route.ts:43-44 | a non-empty `category` or `defTier` becomes an `eq.` filter |
| Page.UuidFromGroups | app/page.tsx:31 | every 8-4-4-4-12 hex text with version 1-5 and variant 8, 9, a or b passes `isUUID` |
| Page.UuidToGroups | app/page.tsx:31 | every text passing `isUUID` is non-empty and exactly such groups joined by hyphens |
| Page.Names | app/page.tsx:33 | `cx` keeps exactly the non-empty strings among its arguments |
| Page.Split | app/page.tsx:33 | splitting gives at least one part |
| Page.SplitJoin | app/page.tsx:33 | splitting the joined text gives back the parts |
| Page.CxKeepsNames | app/page.tsx:33 | `cx(...)` is empty when nothing is kept, and otherwise splits at spaces into the kept names, in order |
| Page.BoolParam | app/page.tsx:52-53 | `any` is null, `only` true and `exclude` false |
| Page.FlagText | app/page.tsx:375-377 | a flag is sent iff it is not `any`, as `true` for `only` and `false` for `exclude` |
| Page.Snippet | app/page.tsx:40 | the snippet is the body's first `min(240, length)` characters |
| Page.ErrorMessageShape | app/page.tsx:40-42 | the error text is the status line, plus ` — ` and the snippet only when the snippet is non-empty and does not start with `<` |
| Page.IncludesOccurs | app/page.tsx:44 | `includes` holds iff the pattern occurs |
| Page.FetchJson | app/page.tsx:35-49 | a failed response throws the status text; a non-JSON content type throws the content-type message; otherwise the parsed body |
| Page.LeaderboardUrl | app/page.tsx:271-281 | the leaderboard card fetches `/api/situations?` with its six parameters |
| Page.LeaderboardParams | app/page.tsx:271-281 | the route reads `position`, `category`, `defTier`, the seasons and `limit=50`, and no `defCat` or `tier` |
| Page.DefaultSituationsQuery | app/api/situations/route.ts:27-78 | a query with no `aggregate`, `year` or `defense_tier` asks the store for season 2024 and no tier |
| Page.LeaderboardSeasonIgnored | app/page.tsx:280 | as written, the card's season range and tier never reach the store: it sees `season_filter=2024`, no tier, `limit_count=50` |
| Page.FixedLeaderboardUrl | app/page.tsx:280 | the corrected card fetches `/api/situations/leaderboard?` with the same parameters |
| Page.FixedLeaderboardReachesStore | app/page.tsx:271-281 | through the leaderboard route, the season range, category, tier and limit 50 all reach the store |
| Page.LimitInParams | app/api/situations/leaderboard/route.ts:48 | a non-empty `limit` reaches the store as it is |
| Page.PresentStep | app/page.tsx:370-377 | each conditional `set` extends the parameters by the next given value |
| Page.SetIfGiven | app/page.tsx:370-377 | one conditional `p.set` leaves the object holding the given values so far |
| Page.HitRateUrl | app/page.tsx:360-379 | no address unless the UUID is valid and a prop type is set; otherwise `/api/props/hit-rate?` with the given values |
| Page.HitRateParams | app/page.tsx:364-377 | the hit-rate route reads the player, prop type and seasons, `defCat`/`tier` only when non-empty, and each flag only when not `any` |
| Backfill.SlicesFlatten | scripts/backfill_pbp.py:21-23 | the chunks concatenate back to the rows |
| Backfill.SlicesSizes | scripts/backfill_pbp.py:21-23 | every chunk has between 1 and `n` rows, and all but the last have `n` |
| Backfill.SlicesCount | scripts/backfill_pbp.py:21-23 | there are `ceil(len / n)` chunks |
| Backfill.ChunksProperties | scripts/backfill_pbp.py:21-23 | `n == 0` fails; for `n > 0` the chunks rebuild the rows, have sizes as above, number `ceil(len / n)`, and are none for no rows |
| Backfill.ToRecord | scripts/backfill_pbp.py:37-61 | the record is tagged `nflverse` and keeps the play as `json_row`; missing rush and pass attempts are 0; missing week, quarter, clock and yards stay missing |
| Backfill.RecordAgrees | scripts/backfill_pbp.py:37-61 | every field of a record agrees with its play under the defaulting rules |
| Backfill.Records | scripts/backfill_pbp.py:31-62 | one record per play |
| Backfill.Transform | scripts/backfill_pbp.py:31-62 | the loop emits one agreeing record per play, in order |
| Backfill.Upsert | scripts/backfill_pbp.py:25-29 | a batch passes iff the status is 200, 201 or 204 |
| Backfill.UpsertAll | scripts/backfill_pbp.py:70-71 | a season's batches pass iff every batch's status is accepted |
| Backfill.LoadSeason | scripts/backfill_pbp.py:64-72 | a season's file is transformed, chunked by 1000 and upserted, stopping at the first failure |
| Backfill.Seasons | scripts/backfill_pbp.py:79 | `range(from, to + 1)`: `to - from + 1` seasons (none when `to < from`), the `i`-th being `from + i` |
| Backfill.SeasonsAscending | scripts/backfill_pbp.py:79 | the seasons are strictly ascending and are exactly those from `from` to `to` |
| Backfill.DefaultSeasons | scripts/backfill_pbp.py:76-77 | the default range is 2020 to 2024 |
| Backfill.BackfillStep | scripts/backfill_pbp.py:79-80 | the run stops at the first failing season, and otherwise goes on with the rest |
| Backfill.LoadSeasons | scripts/backfill_pbp.py:79-80 | the loop loads a prefix of the seasons, all of them on success, and its outcome is the run's |
| Backfill.RunBackfill | scripts/backfill_pbp.py:74-81 | `main` loads the seasons from `--from` to `--to` (2020 and 2024 by default), in order, stopping at the first failure |

## Left out

- Floating point. `per_game` (`toFixed(1)` and `parseFloat`) and `avg_per_attempt` are not modelled. Numbers are exact reals, with no double rounding and no range limit. The `yards_gained` float of the backfill is kept as an opaque optional value.
- Limits.ParamsLimitIdempotent: proved for integral results only. `Js.NumberText` writes fractions with at most 20 decimals, so a fractional page size such as 1e-25 would not read back to itself in the model, although JavaScript's shortest round-trip text would.
- `Js.NumberText`: renders an integral number exactly. A fractional number is rendered with at most 20 decimals instead of JavaScript's shortest round-trip form.
- `Js.ParseNumber`: models decimal, exponent, `Infinity` and `0x`/`0o`/`0b` forms. Numeric separators and other exotic forms are not modelled.
- Strings are sequences of Unicode scalar values. JavaScript's UTF-16 code units (`slice(0, 240)` of text outside the BMP) are not modelled.
- The Map of app/api/situations/route.ts is modelled as a Dafny `map` of entry values plus a list of its keys in insertion order. The in-place mutation of the shared `existing` object is not modelled: the entry is replaced by its updated value.
- The `conditions`/`whereClause` code of app/api/situations/route.ts:58-65 is dead (its result is never used) and is not modelled. The same holds for filters the route reads but never sends (`week`, `month`, `opponent` and the like).
- `Aggregation.Project`: rows are modelled as JSON objects (maps of field values). Non-object array elements are not modelled, and a body that is not an array is treated as an internal error.
- `offset`: the client sends it, but the leaderboard route never reads it, so it only reaches the query string.
- `console.log`/`console.error` and the Python `print` progress lines are left out.
- SafeOrder.OrderOrFallback: the Supabase query builder is not part of this model. `Store.Query` models it the way PostgREST query builders work: `limit`, `eq` and `order` change the builder itself and return it, and `order` appends a sort key. The corresponding findings below rest on that behaviour.
- Services.ListUserWatchlist: uses the same builder model, so its retry sends the request that carries the sort key.
- Environment variables, the Supabase client, `fetch` and the parquet download are not modelled as I/O. They become oracle parameters, and the base URL is a parameter.
- The request and response headers are left out, apart from the content type `fetchJSON` tests.
- Backfill: `argparse` errors on non-integer `--from`/`--to` are not modelled. `Play` always carries `play_id` and `season`, so the `int()` failure on a missing value is not modelled.
- Backfill.Upsert: the request body `json.dumps(rows)` is not modelled. The oracle's status decides the outcome. pandas gives missing numeric values as float NaN, and `json_row` keeps them. `json.dumps` writes those as a bare `NaN` token, which strict JSON parsers reject. The model does not capture whether the store refuses such batches.
- Backfill.ToRecord: `json_row` is the play as read, missing values included. Whether a missing value is NaN or None depends on the column's dtype, and this is not modelled.
- Backfill: `str()` of the float clock is kept as the source value. Python's float-to-text format is not modelled.
- React state, effects and components of app/page.tsx other than the helpers listed are not modelled, nor is the `Filters` form. The `mounted` guards are left out too.
- The thin query services, the envelope-only route handlers, the zod-validated routes and the matchups stub are not part of this model. Each is one fixed library call, or validation by a library that is not part of this model.
- The text of a JavaScript `TypeError` (e.g. when `res.text()` fails) is not modelled. Such failures are messages passed in by the oracle.

## Findings

| source | as written | input that shows it | evidently intended | confidence | as-written member | corrected member |
|---|---|---|---|---|---|---|
| app/api/situations.ts:16-17 | `getLeaderboard` sends the category as `defCat` and the tier as `tier`, but the leaderboard route reads `category` and `defTier` | `getLeaderboard({ defCat: "rush", tier: "top10" })`: the store query has no `category` and no `def_tier` filter | send them as `category` and `defTier` | high, not executed | LeaderboardClient.ClientFiltersIgnored | LeaderboardClient.FixedClientFiltersReachStore |
| lib/db/safeOrder.ts:9 | every `baseQuery.order(col)` adds a sort key to the one shared builder: attempt `k` sorts by all candidates up to `k`, and the final plain await repeats the last attempt | candidates `a`, `b`, `c` on a table with only `c`: the result is `[]` with `column a does not exist` | try each candidate alone on the base query, and fall back to the base query unsorted | medium (rests on the client library's builder semantics), not executed | SafeOrder.SharedBuilderKeepsMissingColumn | SafeOrder.OrderOrFallbackFixed |
| lib/services/userWatchlist.ts:17-20 | `base.order(...)` adds the sort key to `base` itself, so the retry `await base` sends `created_at` again | a `user_watchlist` table without `created_at`: the service throws `column created_at does not exist` | retry without the sort key | medium (rests on the client library's builder semantics), not executed | Services.WatchlistRetryKeepsOrder | Services.ListUserWatchlistFixed |
| app/page.tsx:280 | the leaderboard card sends its leaderboard parameters (`category`, `defTier`, `seasonFrom`, `seasonTo`) to `/api/situations`, which reads `year`, `defense_tier` and `aggregate` instead | filters with seasons 2020 to 2022 and tier `top10`: the store is asked for `season_filter=2024`, no tier filter, `limit_count=50` | fetch `/api/situations/leaderboard`, whose parameter names the card uses | medium, not executed | Page.LeaderboardSeasonIgnored | Page.FixedLeaderboardReachesStore |
