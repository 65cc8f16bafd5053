# ListingHelper notifier core, in Dafny

ListingHelper is a Telegram bot. It watches the ss.lv real-estate RSS feed for Riga flats and
sends each user the new listings that match their saved subscriptions. This project models the
backend core of the bot and proves properties of it.

- **Feed parsing** (`RssService`, over `Patterns`, `Text` and `Numerals`):
  - `parseRssItem` pulls the id, price, price per m², district, rooms, area and floor out of
    an item's HTML description with the regular expressions `LABEL\s*<b>([^<]+)<\/b>`.
  - `storeListings` upserts the parsed items into the listing table.
  - `fetchRssItemsByDistrict` builds the district feed URL with its query.
- **Polling** (`Polling`, `PollingCycle`):
  - the subscription matcher and the notification text
  - `matchAndNotify`, the loop that sends each matching listing at most once per user and
    records the failures
  - `pollAndNotify`, which ingests the feed, then notifies about the listings of the last ten
    minutes
  - `getLastAvailableListing`, which ingests the feed for some filters, then runs the
    newest-first query
- **Users** (`UserService`): `ensureUser`, `createSubscription`, `getSubscriptions` and
  `removeSubscription`.
- **Failure sink** (`FailedListings`): logging, listing, resolving and counting failed listings.
- **Start-up check** (`EnvValidation`): `validateEnv`.

The database is one object, `Store.Db`. Its fields are the tables the services read and write:
- `users`
- `subscriptions`, with the next free id
- `listings`
- `sent`: the delivery ledger of (chat id, listing id) pairs
- `failed`: the failure log

The services that write tables are methods with `modifies` clauses on exactly those fields. Each
method is proved equal to a specification function:
- `StoreListings` equals `IngestFrom`.
- `MatchAndNotify` equals `NotifyListings`.
- `RemoveSubscription` equals `Without`.

The lemmas about those functions carry the promises of the source. The collaborators the core
cannot see are parameters:
- the feed download: url to items
- the database's per-row insert errors
- the Telegram send result of each attempt
- JavaScript's rendering of a float
- the clock: `now`, in milliseconds

Modelling choices, where the code is followed as written:
- **Price per m²** is read with the unscoped expression `:\s*<b>([^<]+)<\/b>`. That takes the
  first colon-labelled bold value of the description. Often that is not the price per m².
  `Patterns.ColonSearchNoLater` shows it is never later than any labelled field.
- **NaN** is a value of its own (`Numerals.Num`).
  - parseFloat can store NaN for rooms or area.
  - The matcher treats NaN as falsy, so NaN never fails a bound.
  - The query follows PostgreSQL, which orders NaN above every number.
- **The query and the matcher differ.** A stored listing that `getLastAvailableListing`
  returns for a subscription's criteria always matches that subscription. The converse fails:
  a listing without a room count matches a subscription that sets a room minimum, but the
  query drops it (`Polling.MatchDoesNotImplyQuery`).
- **The send can succeed while the ledger insert fails.** `matchAndNotify` then logs a
  notification error and leaves the pair out of the ledger. A later poll can therefore send
  that listing again. The "at most once" lemmas are about recorded deliveries.

## Model

| member | source | states |
|---|---|---|
| Text.Trim | backend/src/rss/rss.service.ts:197 | `trim()` gives a middle slice of the text, with no white space at either end and only white space cut off |
| Text.TrimOfPadded | backend/src/rss/rss.service.ts:216-220 | any split into white space, a trimmed middle and white space trims to exactly that middle |
| Text.TrimIdempotent | backend/src/rss/rss.service.ts:216-220 | trimming twice is trimming once |
| Text.IndexOf | backend/src/rss/rss.service.ts:218-219 | `indexOf` gives the first position of the character, or -1 exactly when it is absent |
| Text.Includes | backend/src/polling/polling.service.ts:220 | `includes` holds exactly when the text contains the substring at some position |
| Text.Remove | backend/src/rss/rss.service.ts:201 | a global `replace` with a character class keeps exactly the characters outside the class, and no dropped character is left |
| Text.RemoveOne | backend/src/rss/rss.service.ts:201 | a single character is kept exactly when it is outside the class |
| Text.RemoveConcat | backend/src/rss/rss.service.ts:201 | removal works piecewise over a concatenation, so the kept characters keep their order and multiplicity |
| Numerals.NatToString | backend/src/rss/rss.service.ts:103-104 | the decimal rendering of a number is a non-empty digit string that reads back as the number, with no leading zero (0 renders as the single digit `0`) |
| Numerals.IntToString | backend/src/rss/rss.service.ts:103-104 | the rendering of a negative integer is `-` followed by the digits of its magnitude |
| Numerals.ParseFloatOfDigits | backend/src/rss/rss.service.ts:229 | parseFloat reads a digit run as that integer when what follows cannot continue a number |
| Numerals.ParseFloatOfNatToString | backend/src/rss/rss.service.ts:236 | parseFloat of a rendered natural number gives it back |
| Numerals.ParseFloatOfWord | backend/src/rss/rss.service.ts:229 | parseFloat of text that starts with a letter, other than text starting with `Infinity`, is NaN |
| Numerals.DigitsAreNumeric | backend/src/config/env.validation.ts:25 | `Number` of a non-empty digit string is not NaN |
| Patterns.MatchAtComplete | backend/src/rss/rss.service.ts:194-195 | wherever the regular expression denotes a match, the matcher finds it with that capture, so the capture is unique |
| Patterns.MatchAtSound | backend/src/rss/rss.service.ts:194-195 | every capture the matcher reports is one the regular expression denotes |
| Patterns.FirstMatch | backend/src/rss/rss.service.ts:195 | the matcher reports the leftmost matching position, or none when no position matches |
| Patterns.Search | backend/src/rss/rss.service.ts:195-196 | a capture of `([^<]+)` is non-empty and contains no `<` |
| Patterns.ColonMatchInsideLabelled | backend/src/rss/rss.service.ts:206-207 | the unscoped `:` expression matches inside every labelled match, with the same capture |
| Patterns.ColonSearchNoLater | backend/src/rss/rss.service.ts:206-207 | when a labelled field is found, the price-per-m² expression finds a value no later than that field |
| RssService.ExtractId | backend/src/rss/rss.service.ts:173-174 | the id is the link itself or a non-empty run of word characters |
| RssService.ExtractIdOfPattern | backend/src/rss/rss.service.ts:173-174 | a link ending in `/word.html` yields exactly that word as the id |
| RssService.ExtractIdSound | backend/src/rss/rss.service.ts:173-174 | whenever the id differs from the link, the link is some prefix, `/`, the id and `.html` at the very end |
| RssService.ExtractedIdIsNotSentinel | backend/src/rss/rss.service.ts:173-174 | an id taken from a link never starts with the placeholder prefix `error-` |
| RssService.FirstDigit | backend/src/rss/rss.service.ts:199 | the position of the first digit, or none when there is no digit |
| RssService.GroupRun | backend/src/rss/rss.service.ts:199 | the length of the longest `[\d\s,]` run from a position |
| RssService.NumericPrice | backend/src/rss/rss.service.ts:199-203 | the numeric price is absent exactly when the price text has no digit |
| RssService.NumericPriceOfNatToString | backend/src/rss/rss.service.ts:199-203 | a plain rendered amount is read back as itself |
| RssService.NumericPriceOfGroups | backend/src/rss/rss.service.ts:199-203 | digits in groups separated by white space or commas, then a non-group tail, read as the concatenated digits (so `95 000 €` reads as 95000) |
| RssService.RemoveKeepsDigitString | backend/src/rss/rss.service.ts:201 | stripping white space and commas leaves a digit string unchanged |
| RssService.District | backend/src/rss/rss.service.ts:213-222 | a district is present exactly when the `Pagasts:` expression matches; it has no newline and no white space at either end |
| RssService.Rooms | backend/src/rss/rss.service.ts:224-231 | a room count is present exactly when `Ist.:` matches and its trimmed text is not `Citi` |
| RssService.CitiRoomsUnset | backend/src/rss/rss.service.ts:228-230 | a room text of `Citi` leaves the room count unset |
| RssService.ParseRssItem | backend/src/rss/rss.service.ts:168-287 | the category is always `flats`. The parse fails exactly when the link or the description is a non-string node. A failure gives an `error-` placeholder with an empty price and a PARSING_ERROR report holding the raw item. Otherwise the id is the one extracted from the link |
| RssService.ParseWithoutDescription | backend/src/rss/rss.service.ts:179-180 | an item without a description parses with every description field unset and an empty price |
| RssService.ParseWithoutLink | backend/src/rss/rss.service.ts:170-174 | an item without a link gets the empty link and the empty id |
| RssService.ParseWithoutPubDate | backend/src/rss/rss.service.ts:182-184 | a missing publish date falls back to the parse time |
| RssService.DistrictQueryReadBack | backend/src/rss/rss.service.ts:102-106 | reading the query back gives each bound's text exactly when the bound is truthy, so a bound of 0 is never sent |
| RssService.DistrictQueryOrder | backend/src/rss/rss.service.ts:103-106 | the parameters appear in the order price-min, price-max, rooms-min, rooms-max |
| RssService.DistrictFeedUrl | backend/src/rss/rss.service.ts:100-111 | the URL is the base, the district and `/rss/`. It continues with `?` and the query exactly when some bound is truthy, and what follows the `?` is the encoded district query |
| RssService.IngestOnlyAppends | backend/src/rss/rss.service.ts:292-347 | storing never changes an existing listing or failure row, and the count grows by at most one per item |
| RssService.IngestAddsParsedItems | backend/src/rss/rss.service.ts:296-320 | listing ids stay unique. Every new row is the parse of an item of the batch, with a new id that is not a placeholder, stamped with the time of storing |
| RssService.ReingestKeepsListings | backend/src/rss/rss.service.ts:303-320 | storing a batch whose ids are all stored already, or are placeholders, changes no listing: the upsert's update is empty |
| RssService.IngestKeepsFailureLog | backend/src/rss/rss.service.ts:322-343 | the failure rows that storing adds keep the log's ids and time order |
| RssService.LoggedParseFailure | backend/src/rss/rss.service.ts:264-276 | a parse failure reaches the failure log exactly when the description is a node and the link is not: with a node link the sink's `create` is handed a non-string link, rejects it, and the sink swallows the error. The row written is the PARSING_ERROR report of the parse |
| RssService.NodeLinkChangesNothing | backend/src/config/failed-listing.service.ts:31-63 | an item whose link is a node changes neither table: no listing is stored and the failure row is refused by the database |
| RssService.NodeDescriptionLogged | backend/src/rss/rss.service.ts:264-276 | an item with a string link and a node description stores no listing and appends exactly its PARSING_ERROR report to the failure log |
| RssService.UpsertKeepsUnique | backend/src/rss/rss.service.ts:303-320 | the upsert keeps listing ids unique |
| RssService.IngestCovers | backend/src/rss/rss.service.ts:296-320 | every item of the batch that parses to a real entry and whose store call succeeds ends with its id in the listing table |
| RssService.IngestCounts | backend/src/rss/rss.service.ts:292-347 | each store error adds exactly one INVALID_DATA row and the loop goes on; each parse failure the sink accepts adds one PARSING_ERROR row; no NOTIFICATION_ERROR row is added; the returned count is the number of accepted writes |
| RssService.StoreItem | backend/src/rss/rss.service.ts:296-343 | one loop iteration: the new tables and the stored flag are those of the ingestion step |
| RssService.StoreListings | backend/src/rss/rss.service.ts:292-347 | the new listing table, the new failure log and the returned count are those of the ingestion fold over the batch. The count is at most the number of items |
| FailedListings.AppendKeepsLog | backend/src/config/failed-listing.service.ts:43-45 | an appended failure row gets the next id and keeps the log in time order |
| FailedListings.LogFailedListing | backend/src/config/failed-listing.service.ts:22-65 | exactly one unresolved row holding the report and stamped `now` is appended; nothing else changes |
| FailedListings.SelectedNewestFirst | backend/src/config/failed-listing.service.ts:77-88 | the selected rows are exactly the rows passing the filter, newest first, and no row appears more often than it does in the log |
| FailedListings.NewestPrefix | backend/src/config/failed-listing.service.ts:84-87 | taking the first `limit` rows of a newest-first list gives a newest-first sub-multiset of at most `limit` rows, and every row cut is no newer than any row kept |
| FailedListings.GetFailedListings | backend/src/config/failed-listing.service.ts:70-91 | every row returned passes the filter (unresolved by default), newest first, at most `limit` (default 50), and no row appears more often than it does in the log. A passing row is left out only when the result is full of rows at least as new |
| FailedListings.DefaultOptions | backend/src/config/failed-listing.service.ts:75 | no options means unresolved rows of every kind, at most 50 |
| FailedListings.MarkAsResolved | backend/src/config/failed-listing.service.ts:96-106 | it succeeds exactly when the id names a row; only that row becomes resolved at `now`. An unknown id fails and changes nothing |
| FailedListings.ResolveTouchesOnlyThatRow | backend/src/config/failed-listing.service.ts:96-106 | resolving sets the row's resolved flag and time, and leaves its report, its creation time and every other row alone |
| FailedListings.CountKind | backend/src/config/failed-listing.service.ts:122-132 | a per-kind count is at most the total |
| FailedListings.GetFailedListingStats | backend/src/config/failed-listing.service.ts:111-154 | the total is the number of rows; the unresolved and last-24-hours counts are at most the total |
| FailedListings.KindCountsPartition | backend/src/config/failed-listing.service.ts:120-132 | the three per-kind counts add up to the total |
| FailedListings.StatsKindsSumToTotal | backend/src/config/failed-listing.service.ts:144-153 | in the statistics, the by-type counts sum to the total |
| FailedListings.AppendCounts | backend/src/config/failed-listing.service.ts:43-45 | logging a failure raises its own kind's count and the unresolved count by one, and leaves the other kinds' counts alone |
| FailedListings.ResolveCounts | backend/src/config/failed-listing.service.ts:96-106 | resolving an unresolved row lowers the unresolved count by one; resolving a resolved row changes nothing |
| Polling.MatchesWithoutCriteria | backend/src/polling/polling.service.ts:147-204 | a subscription with no criteria but its category matches exactly the listings of that category |
| Polling.MissingValuesPassBounds | backend/src/polling/polling.service.ts:159-202 | a listing whose price, rooms and area are missing, 0 or NaN passes every bound; only category and district decide |
| Polling.CategoryMismatchFails | backend/src/polling/polling.service.ts:151-153 | a listing of another category never matches |
| Polling.InRangeMatches | backend/src/polling/polling.service.ts:147-204 | a listing in the right category and district whose truthy values lie within the truthy bounds matches |
| Polling.PriceBelowMinimumFails | backend/src/polling/polling.service.ts:159-165 | a truthy price below a truthy minimum never matches |
| Polling.BuildListingMessage | backend/src/polling/polling.service.ts:209-242 | the message starts with the icon (office for commercial, house otherwise), then the title and the price line. It always ends with the link line |
| Polling.CommercialMarked | backend/src/polling/polling.service.ts:220-239 | a commercial listing's message has the commercial marker right before the link line |
| Polling.PlainMessage | backend/src/polling/polling.service.ts:209-242 | a listing with no optional data gets exactly the header, the title, the price (or `Contact for price`) and the link |
| Polling.FindLatest | backend/src/polling/polling.service.ts:310-315 | a row is found exactly when one satisfies the query. The row found satisfies it and is the latest created of those that do |
| Polling.QueryImpliesMatch | backend/src/polling/polling.service.ts:280-308 | a listing that satisfies the query built from a subscription's criteria matches that subscription |
| Polling.MatchDoesNotImplyQuery | backend/src/polling/polling.service.ts:174-187 | a listing without rooms matches a subscription with a room minimum, while the query drops it |
| Polling.QueryRequiresPrice | backend/src/polling/polling.service.ts:282 | a listing returned always has a price |
| PollingCycle.NotifySubscriber | backend/src/polling/polling.service.ts:86-140 | one inner iteration: the ledger, the failure log and the attempts become those of the notify step |
| PollingCycle.MatchAndNotify | backend/src/polling/polling.service.ts:63-142 | the new ledger and failure log, and the attempts made, are those of the notify fold over the listings and the subscription table |
| PollingCycle.SubsGrow | backend/src/polling/polling.service.ts:86-140 | the inner loop only adds ledger pairs, failure rows and attempts |
| PollingCycle.ListingsGrow | backend/src/polling/polling.service.ts:63-142 | the loop only adds ledger pairs, failure rows and attempts |
| PollingCycle.ListingsAccounted | backend/src/polling/polling.service.ts:91-116 | the ledger gains exactly the pairs of delivered attempts. No attempt is for a pair recorded before, or for the pair of an earlier delivered attempt |
| PollingCycle.NotifyAtMostOnce | backend/src/polling/polling.service.ts:91-116 | one run: the new ledger is the old one plus the delivered pairs. No two attempts of a delivered pair, and no attempt for a recorded pair |
| PollingCycle.CountUndelivered | backend/src/polling/polling.service.ts:121-138 | the number of attempts without a recorded delivery is at most the number of attempts |
| PollingCycle.ListingsCounts | backend/src/polling/polling.service.ts:65-82 | the log gains one INVALID_DATA row per listing without a usable price and one NOTIFICATION_ERROR row per undelivered attempt, and no PARSING_ERROR row |
| PollingCycle.ListingsCover | backend/src/polling/polling.service.ts:86-140 | every pair of a listing with a usable price and a subscription it matches ends in the ledger or with a failed attempt |
| PollingCycle.ListingsSkipRecorded | backend/src/polling/polling.service.ts:91-102 | when every matching pair is already in the ledger, the loop makes no attempt and leaves the ledger alone |
| PollingCycle.SecondRunSendsNothing | backend/src/polling/polling.service.ts:91-116 | after a run whose attempts were all delivered, a second run over the same listings sends nothing |
| PollingCycle.ListingsSound | backend/src/polling/polling.service.ts:64-140 | every attempt offers a listing with a positive price to a subscription it matches, with that listing's message |
| PollingCycle.RecentListings | backend/src/polling/polling.service.ts:45-51 | the recent listings are exactly the stored rows created within the last ten minutes, each no more often than it is stored |
| PollingCycle.StoredListingsAreRecent | backend/src/polling/polling.service.ts:42-57 | every listing a poll stores is in that poll's ten-minute window |
| PollingCycle.PollAndNotify | backend/src/polling/polling.service.ts:30-58 | an empty feed changes nothing. Otherwise the tables are those of storing the feed, then notifying about the recent listings |
| PollingCycle.FeedUrlFor | backend/src/polling/polling.service.ts:262-273 | with a truthy district, the URL is the district feed URL built from the filter's district and bounds; otherwise the default feed |
| PollingCycle.GetLastAvailableListing | backend/src/polling/polling.service.ts:250-318 | the feed for the filters is fetched and stored; the result is the latest stored row satisfying the query built from the filters |
| UserService.Registered | backend/src/user/user.service.ts:19-28 | afterwards the chat is a user, and the other users are exactly those before |
| UserService.RegisteredOnce | backend/src/user/user.service.ts:19-28 | chat ids stay unique and the chat is there exactly once |
| UserService.RegisteredIdempotent | backend/src/user/user.service.ts:19-28 | ensuring a user twice is ensuring it once |
| UserService.EnsureUser | backend/src/user/user.service.ts:19-28 | the user table becomes the registered one |
| UserService.NewSubscription | backend/src/user/user.service.ts:30-44 | the row copies the chat and every criterion. The category defaults to `flats` when missing or empty. It gets the next id and the creation time |
| UserService.CreateSubscription | backend/src/user/user.service.ts:30-44 | exactly that row is appended and returned, and the id counter advances |
| UserService.GetSubscriptions | backend/src/user/user.service.ts:46-51 | exactly the chat's subscriptions are returned |
| UserService.GetSubscriptionsNewestFirst | backend/src/user/user.service.ts:49 | in a well-formed table they come newest first |
| UserService.CreatedComesFirst | backend/src/user/user.service.ts:46-51 | a subscription just created is listed first, before the earlier ones in their order |
| UserService.WithoutMembers | backend/src/user/user.service.ts:64 | the delete keeps exactly the rows with another id, and never more rows than there were |
| UserService.WithoutRemovesOne | backend/src/user/user.service.ts:64 | in a well-formed table the delete removes exactly the one row with that id, and the table stays well formed |
| UserService.WithoutAbsent | backend/src/user/user.service.ts:64 | deleting an id that no row has changes nothing |
| UserService.RemoveSubscription | backend/src/user/user.service.ts:53-65 | it succeeds exactly when the subscription exists and belongs to the chat, and the row is then deleted. Otherwise it fails with `Subscription not found or does not belong to the user` and changes nothing |
| EnvValidation.MissingVars | backend/src/config/env.validation.ts:5-7 | the missing variables are exactly the required ones that are unset or empty |
| EnvValidation.ValidateEnv | backend/src/config/env.validation.ts:3-32 | validation passes exactly when both variables are set, the database URL starts with `postgresql://`, and PORT is unset or numeric. Otherwise it fails with the message of the first check that fails |
| EnvValidation.MissingTokenReported | backend/src/config/env.validation.ts:9-14 | with only the bot token unset, the message names exactly it |
| EnvValidation.BothMissingReported | backend/src/config/env.validation.ts:9-14 | with both unset, the message names both, in list order |
| EnvValidation.UnsetPortIgnored | backend/src/config/env.validation.ts:24-28 | an unset or empty PORT never fails validation |
| EnvValidation.DigitPortAccepted | backend/src/config/env.validation.ts:24-28 | a digit PORT is accepted |
| EnvValidation.WordPortRejected | backend/src/config/env.validation.ts:24-28 | a PORT that starts with a lower-case letter and consists of word characters (letters, digits, `_`) is rejected with `PORT must be a valid number` |

## Left out

- **Telegram**: the bot and its commands (backend/src/telegram/telegram.service.ts) are not part of this model. Each send is an outcome the caller supplies: delivered, send failed, or ledger insert failed.
- **Fetching the feed**: `fetchRssFeed` and `fetchRssItems`, the HTTP call, xml2js and their error handling are a function from URL to items. A failed fetch is the empty list.
- **Percent-encoding**: `FormEncode` escapes only code points below 128, and renders others as themselves. Non-ASCII district names and Unicode escapes are not modelled.
- **Dates**: publish dates stay text, and `new Date(...)` parsing is not modelled. The clock is the `now` parameter, in milliseconds. "Yesterday" in the statistics is `now` minus 24 hours, so daylight-saving shifts are ignored.
- **Number conversions**: parseFloat reads only `[sign] digits [. digits]`, without exponents or `Infinity`. Values read with parseFloat (price per m², rooms, area) and the room bounds of the district query are reals, and JavaScript's rendering of them is the `show` parameter, which the model does not constrain, even when the value is whole. Integers (the price bounds of the district query, the price in the `Invalid price value` report, the clock value in an `error-` placeholder id) are rendered by `IntToString` and `NatToString`, whose digits are proved to read back with no leading zero.
- IntToString, NatToString: print every integer as plain digits. JavaScript switches to exponent form (`1e+21`) from 10^21 upward, which the model does not reproduce.
- NumericPrice: reads the digits of the price as an exact integer. JavaScript's `parseInt` yields a double, so a price above 2^53 is rounded there and exact here; likewise the price per m² is an exact rational, not a rounded double.
- **Prisma**: the database is in-memory state.
  - Subscription ids are natural numbers from a counter, not generated strings.
  - Failure-row ids are row numbers (`FailureLog`), so `markAsResolved` takes a natural number rather than a generated id string.
  - One `now` both stamps the rows a poll stores and opens its ten-minute window. In the source the database stamps `createdAt` at insert time and `Date.now() - 10 min` is taken later, so `StoredListingsAreRecent` relies on that shared clock value.
  - The foreign-key check that makes `createSubscription` throw for an unknown chat is not modelled.
  - Ties in `createdAt` ordering are broken by table order (newest-first reads list later rows first).
  - The model assumes the clock never runs backwards (`NotBefore`).
- **Failure-log side effects**: the failure sink's writes to the log file and to the logger are left out. The sink swallows any error, so it never fails; a row the database rejects (a parse failure whose link is an XML node rather than text) is simply not written. In `storeListings` the calls to it are not awaited; the model appends their rows at once, in call order.
- **Parse errors**: JSON serialisation of the raw item is not modelled; the report keeps the item itself. The only source of exceptions in `parseRssItem` is a non-string link or description node.
- **Infrastructure**: the cron schedule, logging, bootstrap, health checks, configuration modules and the `AVAILABLE_DISTRICTS` list (unused by the core) are left out.
- **Concurrency**: each service call is modelled as running alone. Overlapping polls are not modelled.
