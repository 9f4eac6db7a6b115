# FactionWebManager rules, modelled in Dafny

FactionWebManager is a small web dashboard for a game server's factions. Its
Express server (`server.js`) reads and writes a MySQL database. Its browser
client (`public/app.js`) draws the faction list, the faction details, the
player-stats table and the quest statistics.

Most of the code is plumbing: HTTP handlers, SQL calls and DOM writes. This
project models the deterministic rules inside that plumbing and proves what
they promise:

- **`Schema`** (`schema.dfy`): the server adapts its statements to the
  columns that `factions` actually has. It models:
  - the SELECT and GROUP BY lists of the faction listing and the
    leaderboard, and the SELECT list of the single-faction view;
  - the INSERT of a new faction and the UPDATE of an existing one;
  - the defaults filled in after a fetch (`ChatColor`, `Prefix`, `Suffix`).

  The database catalog is an input: the set of present columns. Each
  builder is a method that appends step by step, as the handlers do. It is
  proved equal to one specification: the candidate columns of its statement,
  kept in order when present. Lemmas about that specification state:
  - the lock-step of SELECT and GROUP BY;
  - that only existing columns are named;
  - that `ChatColor` is preferred to the legacy `Color`;
  - that the number of `?` placeholders equals the number of parameters.
- **`Requests`** (`requests.dfy`): the query sanitisation of
  `GET /api/playerstats` (limit, offset, sort column allow-list, sort order,
  search pattern), and its empty answer when the `PlayerStatsNew` table is
  missing; whether the table exists is a parameter. It also models the validation and duplicate check of
  `POST /api/factions`, and the validation and defaults of
  `POST /api/factions/:id/quests`.
- **`Members`** (`members.dfy`): the member summary of
  `GET /api/factions/:id`:
  - `PlayerId` trimmed in place;
  - the member count;
  - the `XPDonated` total;
  - the owner prepended when absent.

  It also models the client's member order: leaders first, then XP
  descending.
- **`SteamLookup`** (`lookup.dfy`): the three-stage fallback lookup of
  `GET /api/playerstats/:steamId`. Each stage's answer is a function of the
  stage and the normalised id.
- **`Quests`** (`quests.dfy`): the server's per-tier tally of quest
  completions, and the client's five-tier panel with floor averages.
- **`Pagination`** (`pagination.dfy`): the client's pager state (a class
  with the current page and the page size), the request offset, the row
  ranks, and the pagination bar:
  - the summary, and Previous/Next;
  - the window of numbered buttons;
  - first and last page buttons, and ellipses.
- **`Playtime`** (`playtime.dfy`): playtime split into hours and minutes and
  written compactly ("3h 5m") or in words ("3 hours 5 minutes"). It comes with
  a reader that proves the text determines the hours and minutes.
- **`Text`** and **`JsValues`** (`text.dfy`, `jsvalues.dfy`): support for the
  modules above:
  - whitespace trimming;
  - decimal digit strings;
  - JavaScript values (`undefined`, `null`, numbers, strings);
  - truthiness, `||`, destructuring defaults and `parseInt`.

Identifiers (`SteamId`, `PlayerId`, `OwnerId`) are digit strings throughout.
Each HTTP response is a status plus payload record.

## Model

| member | source | states |
|---|---|---|
| Text.TrimClean | server.js:273-277 | a trimmed string has no whitespace at either end |
| Text.TrimIdempotent | server.js:273-277 | trimming twice is trimming once |
| Text.ValueShow | server.js:822-847 | reading the decimal text of n gives back n |
| Text.ShowValue | server.js:822-847 | a canonical digit string (no leading zero) is the text of its own value |
| JsValues.ParseInt | server.js:292 | `parseInt` of a number is that number; of `undefined` or `null` it is NaN |
| JsValues.ParseIntReads | server.js:711-712 | `parseInt` of a string skips leading whitespace, reads one optional `+`/`-`, then the digits up to the first non-digit, negated after `-`; with no digit there it is NaN |
| JsValues.ParseIntOr | server.js:292 | `parseInt(v) \|\| d`: the parsed value when it is a nonzero number, else `d` (NaN and 0 both fall back) |
| JsValues.ParseIntShow | server.js:711-712 | `parseInt` of the decimal text of n is n |
| Schema.ColumnsShape | server.js:87-112 | every column list starts with the six mandatory columns, keeps the candidate order, names a column exactly when it is a candidate and present, and is only the mandatory head when no optional column exists |
| Schema.ColumnsSafe | server.js:98-104 | every named column exists, and at most one of `ChatColor`/`Color` is named, `ChatColor` when it exists |
| Schema.BuildListingColumns | server.js:87-112 | GROUP BY is the chosen column list, and SELECT selects exactly those columns in the same order |
| Schema.BuildLeaderboardColumns | server.js:542-567 | as the listing, except that SELECT renames `Color` to `ChatColor` while GROUP BY keeps `Color` at the same position |
| Schema.BuildDetailsColumns | server.js:171-177 | SELECT is the chosen column list in the single-faction order, with `Color` selected as `ChatColor` |
| Schema.AliasedRowFields | server.js:171-177 | with the alias, a fetched row has `ChatColor` iff either colour column exists, never `Color`, and every other optional column iff it exists |
| Schema.ListingDefaultsComplete | server.js:132-143 | after the listing's fix-up, `Prefix`/`Suffix` always exist (`''` when missing); `ChatColor` is the stored value, else a truthy `Color`, else `'cyan'` when neither column exists; nothing else changes |
| Schema.AliasedDefaultsComplete | server.js:190-195 | on the aliased paths every row ends with `ChatColor`: unchanged when either colour column exists, `'cyan'` otherwise |
| Schema.DetailsDefaultsComplete | server.js:190-197 | a single-faction row ends with exactly its fetched fields plus `ChatColor`, `Prefix` and `Suffix`; fetched values are kept; `Prefix`/`Suffix` are `''` when their column is missing, `ChatColor` is `'cyan'` when neither colour column exists |
| Schema.LeaderboardHasNoAffixDefaults | server.js:583-590 | a leaderboard row gains only `ChatColor`; fetched values are kept, and it has `Prefix`/`Suffix` only when the table has those columns |
| Schema.InsertBinding | server.js:365-399 | one VALUES entry per column, parameters bound exactly to the columns given a `?`, each parameter the value of its column |
| Schema.InsertPlaceholders | server.js:365-399 | the number of `?` in VALUES equals the number of parameters |
| Schema.BuildInsert | server.js:365-399 | the INSERT's columns, VALUES and parameters are the chosen columns, their entries and their bound values |
| Schema.InsertStatementBinds | server.js:365-399 | placeholders equal parameters, and `TotalPoints`/`Tier` are always the literals 0 and 1 |
| Schema.UpdateBinding | server.js:459-480 | one SET entry per column, a `?` for each except the timestamp, each parameter the value of its column |
| Schema.UpdatePlaceholders | server.js:459-480 | the number of `?` in SET equals the number of parameters before the id |
| Schema.BuildUpdateAsWritten | server.js:459-480 | the UPDATE as written: `UpdatedAt` is always assigned, whatever the catalog says |
| Schema.BuildUpdate | server.js:459-480 | the corrected UPDATE: `UpdatedAt` is assigned only when the column exists |
| Schema.UpdateTimestampRule | server.js:459 | the as-written list names only existing columns iff `UpdatedAt` exists; the corrected one always does, keeps the order and colour rule, starts with `Name, Tag`, and agrees with the as-written list when `UpdatedAt` exists |
| Schema.UpdateStatementBinds | server.js:480-485 | SET placeholders plus one equal the parameters, and the faction id is the last parameter |
| Schema.UpdateAsWrittenNamesMissingColumn | server.js:459 | on a table without `UpdatedAt`, the statement as written assigns that missing column |
| Requests.PageLimit | server.js:711 | the limit is never 0; a nonzero parse is kept, and an unparseable value or a parse of 0 gives 100 |
| Requests.PageOffset | server.js:712 | the offset is 0 when unparseable, else the parsed value |
| Requests.PageLimitReads | server.js:711 | a decimal limit n reads as n, or as 100 when n is 0; a missing limit reads as 100 |
| Requests.PageOffsetReads | server.js:712 | a decimal offset n reads as n; a missing offset reads as 0 |
| Requests.SafeSortBy | server.js:736-741 | the sort column is always on the allow-list, kept when on it, else `'Kills'` |
| Requests.UnknownSortIsKills | server.js:741 | any value not on the allow-list becomes `'Kills'` |
| Requests.SortOrderOf | server.js:714 | the order is ascending iff the query value is exactly `'asc'` |
| Requests.SearchPattern | server.js:749 | the pattern is the search text between two `%` |
| Requests.PlanPlayerStats | server.js:711-797 | without the `PlayerStatsNew` table the answer is an empty page, total 0, with its note, and no statement is planned; otherwise the plan's sort column is allowed, order/limit/offset are sanitised, filtering iff the search is truthy, limit and offset are the last two parameters, and the count query's parameters are the others, all the search pattern |
| Requests.CreateFaction | server.js:326-423 | missing `Id`/`Name`/`OwnerId` gives 400 before any lookup or write; an existing id gives 400 "Faction ID already exists" with nothing written; otherwise the built INSERT then the owner's membership are written |
| Requests.CreatedFactionRow | server.js:338-399 | a created faction's first four parameters are its id, name, tag and owner, so the validated values are the ones stored |
| Requests.RecordQuest | server.js:1151-1186 | rejected iff `QuestId` is falsy (400) or the table is missing (404); a recorded row keeps faction and quest id; its name is the given one when truthy, else the quest id; tier, completer and points are stored as given, or 1, `null` and 0 when absent |
| Members.NormalizeId | server.js:265-286 | a non-null id becomes the piece of its own text left after removing a whitespace prefix and a whitespace suffix, and that piece has no surrounding whitespace; null and undefined are kept |
| Members.NormalizeIdIdempotent | server.js:265-286 | normalising an id twice is normalising once |
| Members.NormalizeMemberIds | server.js:265-286 | every member's id is normalised in place, and nothing else changes |
| Members.TotalXpAppend | server.js:292 | the XP total of two lists is the sum of their totals |
| Members.UnreadableXpCountsZero | server.js:292 | an unparseable `XPDonated` adds nothing to the total |
| Members.FindOwner | server.js:295 | the index found holds the owner; no index means no member is the owner |
| Members.WithOwnerSpec | server.js:295-303 | the owner is in the list when set; exactly one row is added, at the front, only when the owner is set and absent; the rows read follow unchanged; the added row leads and has XP 0; the XP total is unchanged |
| Members.SummarizeMembers | server.js:265-316 | ids normalised in place; count and XP total of the rows read before the owner is added; member list with the owner prepended when absent; owner row found or synthesised |
| Members.CompareMeansInOrder | public/app.js:470-474 | the comparator says "not after" exactly when leaders precede non-leaders and, within a group, XP is descending; it is antisymmetric |
| Members.Insert | public/app.js:470-474 | inserting into a sorted list keeps it sorted and adds exactly that member |
| Members.SortMembers | public/app.js:470-474 | the result is sorted and a permutation of the members |
| Members.InsertKeepsTies | public/app.js:470-474 | inserting a member puts it ahead of the members it ties with and keeps their order |
| Members.SortMembersStable | public/app.js:470-474 | the sort is stable: for every sort key (leader or not, XP), the members with that key keep their input order |
| Members.SortedMeansLeadersFirst | public/app.js:470-474 | in a sorted list every leader precedes every non-leader, and within each group XP does not increase |
| SteamLookup.NormalizeSteamId | server.js:821-847 | a numeric id becomes the canonical text of its value; anything else is only trimmed |
| SteamLookup.CanonicalIdKept | server.js:821-847 | a canonical id normalises to itself |
| SteamLookup.SameNumberSameKey | server.js:821-847 | two numerals of the same value search under the same key |
| SteamLookup.AsAnswered | server.js:995-998 | a truthy `SteamId` in the answer is turned into text; everything else is kept |
| SteamLookup.LookupPlayer | server.js:815-1003 | no table: 404 and no query; otherwise stages run in order, a later one only when all earlier ones returned nothing; the first row of the last stage is returned; not found iff every stage is empty, and then the normalised id is echoed as both `steamId` and `searched` |
| Quests.TierOf | server.js:1059 | a missing or zero tier counts as tier 1, a nonzero tier as itself; the result is never 0 |
| Quests.TiersOfOccur | server.js:1058-1063 | the tiers tallied are exactly the tiers of the completions |
| Quests.TierCountPositive | server.js:1058-1063 | a tier's count is positive iff some completion has that tier |
| Quests.Tally | server.js:1052-1065 | total is the number of completions; `byTier` has exactly the tiers seen, each with its count; total points is the sum of points, missing ones as 0 |
| Quests.TierCountsSumToTotal | server.js:1052-1065 | the per-tier counts sum to the number of completions |
| Quests.AverageFloor | public/app.js:649 | the average is the floor of total over count when the count is positive, else 0 |
| Quests.Cell | public/app.js:1284-1295 | a tier's cell has its tier and name; a present tier shows its own count, and its points exactly when they are positive; an absent tier shows count 0 and no points |
| Quests.TierCells | public/app.js:1283-1295 | exactly five cells, for tiers 1 to 5 in order |
| Quests.QuestPanelFor | public/app.js:1253-1322 | no stats or zero quests gives the empty message; otherwise the totals, the floor average and the five tier cells |
| Pagination.CurrentPage | public/app.js:823 | the current page is at least 1 |
| Pagination.TotalPagesBounds | public/app.js:822 | the page count is `ceil(total/limit)`: enough pages for all rows, and one fewer would not be enough |
| Pagination.CurrentPageBounds | public/app.js:823 | the current page is the one-based page holding the row at `offset` |
| Pagination.PageOfOffset | public/app.js:719 | requesting zero-based page p shows page p+1 as current |
| Pagination.CurrentWithinTotal | public/app.js:822-823 | for an offset inside the rows, the current page lies between 1 and the page count |
| Pagination.Rank | public/app.js:767 | a row's rank is past the offset |
| Pagination.RanksContinue | public/app.js:719-767 | the last rank of one page is one less than the first rank of the next |
| Pagination.PlayerStatsPager.constructor | public/app.js:8-9 | the pager starts at page 0 with page size 50 |
| Pagination.PlayerStatsPager.GoToPage | public/app.js:879-882 | the page becomes the one requested, the size is kept, and the request offset is page × size |
| Pagination.PlayerStatsPager.Restart | public/app.js:889-900 | a new search or sort goes back to page 0, offset 0 |
| Pagination.StartPage | public/app.js:842 | the window starts at `max(1, cur-2)` |
| Pagination.EndPage | public/app.js:843 | the window ends at `min(totalPages, cur+2)` |
| Pagination.UpdatePagination | public/app.js:820-876 | the items built step by step are exactly the specified pagination bar |
| Pagination.NumberedItems | public/app.js:848-858 | the numbered items are buttons, one for each page of the window and none outside it, each built by the button rule |
| Pagination.ViewButtons | public/app.js:845-865 | every numbered button is in range and aims at page i-1; the current page has no target; it is page 1 only when the window starts after 1, the last page only when the window ends before it, or a page of the window |
| Pagination.ViewEnds | public/app.js:823-872 | with at most one page only "Showing N results"; otherwise the range summary, then Previous enabled iff cur > 1 aiming at cur-2, and last Next enabled iff cur < totalPages aiming at cur |
| Pagination.TargetsLand | public/app.js:835-872 | following any target shows the page it names: the button's number, cur-1 for Previous, cur+1 for Next |
| Pagination.BarLayout | public/app.js:845-865 | between Previous and Next the bar starts with page 1, ends with the last page, page numbers strictly increase, and an ellipsis stands between two neighbouring buttons exactly when they skip a page; the first page's ellipsis appears iff the window starts after page 2, the last page's iff it ends before the page before the last |
| Pagination.EllipsisMarksGap | public/app.js:845-865 | for a page inside the rows, pages 1, last and current are offered, all offered pages are in range, and an ellipsis appears iff some page has no button |
| Pagination.RangeMatchesRanks | public/app.js:767-831 | the summary's range is the ranks of the page's first and last rows |
| Playtime.RemHour | public/app.js:768 | JavaScript's `% 3600`: below 3600 in magnitude, with the sign of the dividend |
| Playtime.SplitOf | public/app.js:767-768 | for a non-negative playtime, the hours and minutes under 60 it covers, to the minute |
| Playtime.MissingPlaytime | public/app.js:767-772 | a missing playtime is written as zero minutes |
| Playtime.ReadFormat | public/app.js:768-772 | reading the written text gives back the split hours and minutes, in both styles |
| Playtime.SameTextSameMinute | public/app.js:1002-1006 | two playtimes are written alike iff they fall in the same whole minute |

## Left out

- The Express layer: routing, CORS, static files, `res.status(...).json`
  and `app.listen`. Each response is a status plus payload record.
- The MySQL pool and SQL execution: `pool.execute`, the connection test and
  the `INFORMATION_SCHEMA` queries. The catalog is an input set of columns
  and a table-exists flag, and query results are given rows. `LEFT JOIN`,
  `GROUP BY`, `ORDER BY`, `COUNT` and `LIKE` are not evaluated, so
  `MemberCount` computed by SQL in the listing is not modelled.
- The SQL text of the statements is not rendered. Lists are modelled as
  sequences of columns, select items, assignments and `?`/literal entries,
  and the GROUP BY string splitting and joining (server.js:115) is
  abstracted.
- Concurrency: the pool's queueing and the non-atomic two-step create
  (server.js:401-423) are modelled as two sequential writes.
- The diagnostic "similar SteamIDs by last 8 digits" query
  (server.js:959-980), the `/api/debug/schema` and `/api/health`
  endpoints, and all logging.
- All DOM work in `public/app.js`: HTML strings, `escapeHtml`, modals,
  toasts and the search debounce timer. `formatNumber` (Intl) is left out;
  the model keeps numbers as numbers and tier cells as records.
- Floating point: the contribution percentage (public/app.js:478-480) and
  dates.
- `BigInt`/`Number` coercions. Ids are digit strings, and the SteamId
  normalisation is "canonical decimal text of its value". `parseInt` on
  `OwnerId` in the client form (public/app.js:360) is not modelled.
- `parseInt` recognising a `0x` prefix is not modelled: after the
  whitespace and the sign, only decimal digits are read.
- Members.Compare and Members.FindOwner: the loose `==` between `PlayerId`
  and `OwnerId` (server.js:295, public/app.js:471) is modelled as equality
  of the trimmed id text, not JavaScript's number/string coercion. When
  both ids are strings JavaScript's `==` compares them untrimmed (`"765"`
  and `" 765"` differ), whereas the model treats them as the same id.
- SteamLookup.LookupPlayer: the three stage queries (by value, by unsigned
  cast, by text) are a function from stage and key to rows. Their SQL
  semantics are not modelled.
- Quests.Tally: `PointsEarned` read as a MySQL DECIMAL string, and the
  string concatenation that `+=` would then perform, are not modelled;
  points are integers.
- Playtime: `Playtime` is an integer number of seconds. The model does not
  cover a string or fractional value from the database.
- Pagination.UpdatePagination: the "Showing" summary's numbers are kept as
  numbers, without `formatNumber`.
- Pagination.EllipsisMarksGap: the client builds the bar only for a
  non-empty page of stats (offset below total), so that is a hypothesis of
  the lemma rather than a case it covers.
- config.example.js holds only environment defaults and is not part of this
  model.
- On a 404 the lookup echoes the normalised id, not the id as supplied:
  the code (server.js:986-992) does so, and the model follows the code.

## Findings

| source | as written | input that shows it | evidently intended | confidence | as-written member | corrected member |
|---|---|---|---|---|---|---|
| server.js:459 | the UPDATE always includes `UpdatedAt = CURRENT_TIMESTAMP`, although every other builder checks the catalog for `UpdatedAt` | a `factions` table with `Prefix`, `Suffix` and `ChatColor` but no `UpdatedAt`: the statement assigns a column that does not exist | assign `UpdatedAt` only when the column exists, as the INSERT and SELECT builders do | not executed | Schema.BuildUpdateAsWritten, Schema.UpdateAsWrittenNamesMissingColumn | Schema.BuildUpdate, Schema.UpdateTimestampRule |
