# Facepunch forum headlines, modelled in Dafny

The system has three AWS Lambda functions around two DynamoDB tables, one
for each forum category ("Sensationalist Headlines" and "Polidicks").

- **Refresh** (`lambda_updateNewpunchInfo`) builds the listing-page URLs of
  both categories. It fetches every page and reads one record per thread
  block that is not pinned. For each category it then empties the table
  and writes the records back, in batches of at most 25 requests. The
  first failure stops the run, and the handler then answers `false`.
- **Read** (`lambda_getNewpunchInfo`) picks a table from the event's
  `type` and scans it. It decodes every stored item back into a thread
  record and sorts the records in place, largest first, by the requested
  key. It then drops records from the end until at most `count` remain,
  or 3 when no count is given.
- **Voice skill** (`lambda_alexaSkill_getNewpunchInfo`) turns the spoken
  count into 3, 5 or 10. It asks the read function for the newest
  threads of one category and builds a spoken sentence and a numbered
  card from the answer.

The Dafny modules follow those three files:

- `UpdateNewpunchInfo`: URL building, fetching, block extraction, the
  clear and populate batching loops, and the handler.
- `GetNewpunchInfo`: table choice, sort key, item decoding, the scan
  loop, the in-place sort, truncation, and the handler.
- `AlexaSkill`: count clamping, dispatch, the request payload, text
  building for each kind of answer (records, the error object of a read
  that throws, a payload that does not parse), and the handler as written
  beside the one with the corrected count.

Shared pieces sit in their own modules:

- `Wrappers`: `Option`, `Result` and `TryMap`.
- `Decimal`: JavaScript's `parseInt(_, 10)` and `toString` on integers.
- `Strings`: lower-casing, first-occurrence `replace`, joining.
- `Batching`: cutting a request list into batches of 25.
- `Dynamo`: a store of tables keyed by `headline`. Its `Store` class has
  `Scan`, `BatchWriteItem`, and a `BatchWriteAll` that applies a list of
  batches in order.

`RoundTrip` connects the write side to the read side. A record the refresh
stores decodes, on the read side, into the values it was extracted from.
`CounterExample` works the counter regular expression through one concrete
counter text.

Time values are epoch seconds. The refresh writes them as decimal text,
and the read side parses them back with the same `parseInt` model. This
stands in for ISO 8601 text and JavaScript `Date`.

## Model

| member | source | states |
|---|---|---|
| Decimal.ParseIntNegative | lambda_getNewpunchInfo/index.js:73 | `parseInt` of a minus sign followed by digits gives the negated value of those digits, as a time before the epoch is read back. |
| Decimal.NatToString | lambda_updateNewpunchInfo/index.js:83-85 | `toString` of a counter: a non-empty run of decimal digits that starts with 0 only for zero. |
| Decimal.NatRoundTrip | lambda_updateNewpunchInfo/index.js:83-85 | `parseInt(n.toString(), 10) == n` for every natural number: a counter survives the trip from text to the stored `N` value and back. |
| Decimal.ParseIntDigits | lambda_updateNewpunchInfo/index.js:71-73 | `parseInt` of a digit run followed by anything that starts with a non-digit gives the value of that run. |
| Decimal.IntRoundTrip | lambda_updateNewpunchInfo/index.js:76-77 | Writing a timestamp as signed decimal text and parsing it back gives the same timestamp, negative values included. |
| Strings.ToLower | lambda_getNewpunchInfo/index.js:26 | `toLowerCase`: same length, each upper-case ASCII letter mapped to its lower-case form, everything else kept. |
| Strings.FindFirst | lambda_updateNewpunchInfo/index.js:54 | The first index at or after `from` where the pattern occurs, or `None` when it occurs nowhere there. |
| Strings.ReplaceAfterPrefix | lambda_updateNewpunchInfo/index.js:54 | `replace` with a string pattern changes only the first occurrence: after a prefix that holds no part of the pattern, the pattern becomes the replacement and the rest is kept. |
| Wrappers.TryMapSuccess | lambda_getNewpunchInfo/index.js:41-43 | Mapping a fallible conversion over a list succeeds exactly when every element converts. The result then has one value per element, in order. |
| Wrappers.TryMapFailure | lambda_updateNewpunchInfo/index.js:62-88 | When the mapping fails, it reports the error of the first element that fails, and every element before it converts. |
| Batching.Batches | lambda_updateNewpunchInfo/index.js:146-192 | There are ceil(n/25) batches, each holding between 1 and 25 requests, so an empty list gives no batch. |
| Batching.FlattenBatches | lambda_updateNewpunchInfo/index.js:146-192 | Concatenating the batches gives back the request list, in order: nothing is lost, repeated or reordered. |
| Batching.BatchesAtBoundaries | lambda_updateNewpunchInfo/index.js:150-155 | 0 requests give 0 batches, 25 give 1, and 26 give 2 with one request in the last batch. |
| Dynamo.ApplyDeletes | lambda_updateNewpunchInfo/index.js:117-125 | Applying delete requests removes exactly the listed keys and leaves every other entry unchanged. |
| Dynamo.ApplyPuts | lambda_updateNewpunchInfo/index.js:157-183 | Applying put requests in order stores each item under its `headline` and leaves every other entry unchanged. Under that in-order application, the last put of a key is the one kept. |
| Dynamo.Store.Scan | lambda_updateNewpunchInfo/index.js:95 | A scan returns every item of the table exactly once, each under its own key. |
| Dynamo.Store.BatchWriteItem | lambda_updateNewpunchInfo/index.js:132 | One batch write applies its requests to the named table; the other tables are unchanged. |
| Dynamo.Store.BatchWriteAll | lambda_updateNewpunchInfo/index.js:137 | Awaiting all batch writes leaves the named table as if every request of every batch were applied in order; the other tables are unchanged. |
| UpdateNewpunchInfo.EncodeTime | lambda_updateNewpunchInfo/index.js:82 | Stored time text parses back to the same epoch seconds. |
| UpdateNewpunchInfo.PageUrlList | lambda_updateNewpunchInfo/index.js:53 | One URL per page 1..maxPages; no URL when `maxPages` is 0 or less. |
| UpdateNewpunchInfo.PageUrls | lambda_updateNewpunchInfo/index.js:52-56 | The `tasks` loop builds exactly the URLs of pages 1..maxPages, in page order, each the template with `{pageNum}` replaced by the page number. |
| UpdateNewpunchInfo.CategoryPageUrls | lambda_updateNewpunchInfo/index.js:5-8 | For both categories the URL of page i is the host, the category path, then i in decimal. |
| UpdateNewpunchInfo.FetchAll | lambda_updateNewpunchInfo/index.js:57 | `Promise.all` succeeds exactly when every fetch succeeds. It then gives every page body in URL order; otherwise the run fails. |
| UpdateNewpunchInfo.RunEnd | lambda_updateNewpunchInfo/index.js:71 | `\d{1,}` is greedy: the run ends at the first non-digit, and everything in between is a digit. |
| UpdateNewpunchInfo.FindMatch | lambda_updateNewpunchInfo/index.js:71 | The regex match is leftmost: the result is the first position with a digit run followed by " Word", and no earlier position matches. |
| UpdateNewpunchInfo.CaptureIsWholeRun | lambda_updateNewpunchInfo/index.js:71-73 | The captured group is a whole maximal digit run that is followed directly by " Word". |
| UpdateNewpunchInfo.Counter | lambda_updateNewpunchInfo/index.js:71-73 | A counter exists exactly when the pattern matches, and it is `parseInt` of the captured digits. |
| CounterExample.SampleViewsCounter | lambda_updateNewpunchInfo/index.js:72 | For "42 Replies, 1,337 Views, 7 Subscribers" the views counter is 337, not 1337: the digit run stops at the thousands separator. |
| UpdateNewpunchInfo.ExtractThread | lambda_updateNewpunchInfo/index.js:62-87 | A block yields a record exactly when its counter text, its three counters and both dates are present. The link is the `href` and the headline the title; the counters and times are decimal text that parses back to the extracted values. |
| UpdateNewpunchInfo.NonSticky | lambda_updateNewpunchInfo/index.js:61 | No kept block is pinned. |
| UpdateNewpunchInfo.NonStickyMembers | lambda_updateNewpunchInfo/index.js:61 | The selector keeps exactly the blocks that are not pinned, and never more blocks than the page has. |
| UpdateNewpunchInfo.GetThreads | lambda_updateNewpunchInfo/index.js:49-92 | `getThreads` gives the records of all non-pinned blocks of pages 1..maxPages, in page and block order. It fails when a fetch fails or a block cannot be read. |
| UpdateNewpunchInfo.ExtractPages | lambda_updateNewpunchInfo/index.js:59-89 | The nested page and block loops give exactly the extraction of the non-pinned blocks of all pages, in order. The first unreadable block fails the whole extraction. |
| UpdateNewpunchInfo.PutItem | lambda_updateNewpunchInfo/index.js:157-183 | The put item is keyed by the record's headline. `link`, `headline`, `created` and `lastPostTime` are `S`; the three counters are `N`. |
| UpdateNewpunchInfo.PutItems | lambda_updateNewpunchInfo/index.js:150-183 | One keyed put item per record, in record order. |
| UpdateNewpunchInfo.PutBatch | lambda_updateNewpunchInfo/index.js:150-184 | The inner loop collects the put requests of the records from `start` on, up to 25 of them. It stops early, and sets `done`, exactly when the records run out before the batch is full. |
| UpdateNewpunchInfo.PopulateBatches | lambda_updateNewpunchInfo/index.js:142-192 | The batches issued are exactly the batching of the records' put requests; `Batching.Batches` and `Batching.FlattenBatches` give their count, sizes and order. |
| UpdateNewpunchInfo.PopulateTable | lambda_updateNewpunchInfo/index.js:141-196 | After all put batches complete, the table holds its old contents with every put applied in record order; the other tables are unchanged. |
| UpdateNewpunchInfo.DeleteBatch | lambda_updateNewpunchInfo/index.js:110-127 | The inner loop collects delete requests keyed by the `headline` of the scanned items from `start` on, up to 25 of them. It sets `done` exactly when the items run out before the batch is full. |
| UpdateNewpunchInfo.ClearBatches | lambda_updateNewpunchInfo/index.js:97-135 | The batches issued are exactly the batching of one delete per scanned item, keyed by its `headline`, in scan order. No batch is issued for an empty scan. |
| UpdateNewpunchInfo.ClearTable | lambda_updateNewpunchInfo/index.js:94-139 | Scanning, then waiting for every delete batch, leaves the table empty; the other tables are unchanged. |
| UpdateNewpunchInfo.RefreshedContents | lambda_updateNewpunchInfo/index.js:141-196 | After a refresh the table's keys are exactly the records' headlines. With the writes applied in issue order, the last record with a given headline is the one stored. |
| UpdateNewpunchInfo.RefreshedRecords | lambda_updateNewpunchInfo/index.js:141-196 | Whatever the order of the writes: every stored entry is the item of some record with that headline. When the headlines are distinct, each record is stored under its own headline. |
| UpdateNewpunchInfo.ClearEmpties | lambda_updateNewpunchInfo/index.js:94-135 | The deletes built from a full scan leave the table empty. |
| UpdateNewpunchInfo.ReplaceTable | lambda_updateNewpunchInfo/index.js:17-18 | Clearing then populating leaves the category's table holding exactly the new records, whatever it held before; the other tables are unchanged. |
| UpdateNewpunchInfo.Handler | lambda_updateNewpunchInfo/index.js:14-33 | The answer is `true` exactly when both categories' threads are read. If the sensationalist read fails, no table changes. If only the polidicks read fails, only the sensationalist table is replaced. Otherwise both tables hold exactly the new records. |
| GetNewpunchInfo.GetTargetTable | lambda_getNewpunchInfo/index.js:24-36 | The table is one of the two. It is the polidicks table exactly when the type, lower-cased, is "polidicks"; an absent or unknown type gives the sensationalist table. |
| GetNewpunchInfo.TargetTableIgnoresCase | lambda_getNewpunchInfo/index.js:26 | Two types that lower-case to the same text choose the same table. |
| GetNewpunchInfo.GetSortKey | lambda_getNewpunchInfo/index.js:47-60 | Any key other than `lastPostTime` is chosen only by its exact name; an absent or unknown name gives `lastPostTime`. |
| GetNewpunchInfo.SortKeyByName | lambda_getNewpunchInfo/index.js:47-60 | Each of the five key names selects its own key. |
| GetNewpunchInfo.DynamoThreadToJson | lambda_getNewpunchInfo/index.js:71-80 | Decoding succeeds exactly when all seven attributes are present and well formed. It fails with a missing attribute exactly when one is absent. A decoded record holds the parsed times and counters and the copied headline, and its link is the host followed by the stored `link`. |
| GetNewpunchInfo.DecodeWellFormed | lambda_getNewpunchInfo/index.js:71-80 | A well-formed item decodes into exactly the record built from its parsed attributes. |
| GetNewpunchInfo.FirstMissingReported | lambda_getNewpunchInfo/index.js:72-79 | When attributes are missing, the error names the first missing one in the order the fields are read. |
| GetNewpunchInfo.GetItemsFromTable | lambda_getNewpunchInfo/index.js:38-45 | The read decodes every item of a full scan of the table, in scan order, and fails on the first item that does not decode. |
| GetNewpunchInfo.DecodeItems | lambda_getNewpunchInfo/index.js:40-44 | The loop gives exactly the mapping of the decoder over the scanned items: one record per item, in order, or the first failure. |
| GetNewpunchInfo.ApplySortKeyToResults | lambda_getNewpunchInfo/index.js:62-69 | Sorting in place leaves the array in non-increasing order of the key and a permutation of what it held. |
| GetNewpunchInfo.Limit | lambda_getNewpunchInfo/index.js:16 | `event.count \|\| 3`: at least one record is asked for, and a positive count is used as it is. |
| GetNewpunchInfo.LimitDefault | lambda_getNewpunchInfo/index.js:16 | An absent count and a count of zero both give the default of 3. |
| GetNewpunchInfo.TakeKeepsLargest | lambda_getNewpunchInfo/index.js:16-17 | Popping from the end of a sorted list keeps its first n entries, and none of the dropped entries is larger than a kept one. |
| GetNewpunchInfo.TakeOfSortedIsTopN | lambda_getNewpunchInfo/index.js:14-17 | Sorting a permutation of the records and then popping down to n leaves the top n: min(n, size) records, sorted, drawn from the input, and no left-out record larger than a kept one. |
| GetNewpunchInfo.SortAndTruncate | lambda_getNewpunchInfo/index.js:14-17 | Sorting the decoded records and popping down to the limit leaves the top `limit` records by the key, in non-increasing order. |
| GetNewpunchInfo.Handler | lambda_getNewpunchInfo/index.js:9-22 | The reply holds the top `count` (or 3) records of the chosen table by the chosen key, in non-increasing order. If any scanned item fails to decode, the reply is that decode failure. |
| RoundTrip.StoredItemDecodes | lambda_getNewpunchInfo/index.js:71-80 | The item the refresh stores for a record decodes to that record's values, with the host prepended to the link. |
| RoundTrip.BlockReadsBack | lambda_updateNewpunchInfo/index.js:79-87 | For a readable block, the stored item decodes to the block's own counters, dates and title, with the host prepended to its `href`. |
| RoundTrip.RefreshedTableDecodes | lambda_getNewpunchInfo/index.js:38-45 | Scanning a table that a refresh wrote decodes every item: the read never fails on it and returns one record per item. |
| RoundTrip.ReadAfterRefresh | lambda_updateNewpunchInfo/index.js:16-18 | After a successful refresh of a category, reading its table back succeeds, with one record per stored item. |
| AlexaSkill.Clamp | lambda_alexaSkill_getNewpunchInfo/index.js:155-160 | A parsed count becomes the least of 3, 5 and 10 at or above it (so 4 gives 5 and 6 to 9 give 10), and any count above 10 gives 10. |
| AlexaSkill.ClampMonotone | lambda_alexaSkill_getNewpunchInfo/index.js:155-160 | Asking for more never gives fewer. |
| AlexaSkill.ClampFixedPoints | lambda_alexaSkill_getNewpunchInfo/index.js:155-160 | Clamping leaves a count unchanged exactly when it is 3, 5 or 10, so clamping twice is the same as clamping once. |
| AlexaSkill.CountFromSlots | lambda_alexaSkill_getNewpunchInfo/index.js:149-164 | No count slot, or no value in it, gives 3. Otherwise the count is NaN exactly when the value does not parse; when it parses, the count is `Clamp` of the parsed value. |
| AlexaSkill.GetHeadlineCountAsWritten | lambda_alexaSkill_getNewpunchInfo/index.js:146-147 | Reading the slots throws exactly for a launch request; an intent request gives the count of its slots. |
| AlexaSkill.GetHeadlineCount | lambda_alexaSkill_getNewpunchInfo/index.js:146-165 | A launch request gives 3 and an intent request the count of its slots. A numeric count is always 3, 5 or 10. |
| AlexaSkill.LaunchRequestFails | lambda_alexaSkill_getNewpunchInfo/index.js:35 | A launch request is accepted by the sensationalist handler, but the count cannot be read from it as written. The corrected reading gives 3. |
| AlexaSkill.Ordinal | lambda_alexaSkill_getNewpunchInfo/index.js:171 | A position is spoken as "undefined" exactly when it is past the tenth. |
| AlexaSkill.OrdinalsDistinct | lambda_alexaSkill_getNewpunchInfo/index.js:19-30 | The first ten positions are spoken with ten different words. |
| AlexaSkill.RecordNumber | lambda_alexaSkill_getNewpunchInfo/index.js:173 | For an array, `parseInt` of a position's key plus one prints as the position plus one, so the card numbers from 1. |
| Decimal.ParseIntNoNumber | lambda_alexaSkill_getNewpunchInfo/index.js:173 | `parseInt` of text that starts with anything but white space, a sign or a digit is NaN. |
| AlexaSkill.GetHeadlineData | lambda_alexaSkill_getNewpunchInfo/index.js:167-180 | The loop over `Object.entries` gives one " <ordinal> headline: <headline>." spoken entry and one "<key+1>. <headline>" card line per entry of the reply, in order. An empty array gives two empty texts. |
| AlexaSkill.EntryLineCount | lambda_alexaSkill_getNewpunchInfo/index.js:173 | When no entry's number or headline holds a line break, the card has exactly one line break per entry. |
| AlexaSkill.CardLineCount | lambda_alexaSkill_getNewpunchInfo/index.js:173 | When no headline holds a line break, the card of a list of records has exactly one line break per record. |
| AlexaSkill.RequestIsServed | lambda_alexaSkill_getNewpunchInfo/index.js:121-133 | Every payload the skill sends is one the read side serves. Its count is not negative, the read side returns at most 3, 5 or 10 records, the order is by last post, and the category's own table is read. |
| AlexaSkill.RequestCount | lambda_alexaSkill_getNewpunchInfo/index.js:124 | A clamped or NaN count reaches the read side as a non-negative count or none, and asks for 3, 5 or 10 records. |
| AlexaSkill.RequestTable | lambda_alexaSkill_getNewpunchInfo/index.js:123 | The `type` the skill sends selects that category's table on the read side. |
| AlexaSkill.UnparseableSpeaksNone | lambda_alexaSkill_getNewpunchInfo/index.js:137-143 | A payload that does not parse is answered as an empty array: "the latest 0" headlines and an empty card. |
| AlexaSkill.UndefinedSpokenText | lambda_alexaSkill_getNewpunchInfo/index.js:172 | A field of an error object is spoken as " undefined headline: undefined.". |
| AlexaSkill.UndefinedCardText | lambda_alexaSkill_getNewpunchInfo/index.js:173 | A field of an error object is printed on the card as "NaN. undefined". |
| AlexaSkill.ErrorObjectSpeaksUndefined | lambda_alexaSkill_getNewpunchInfo/index.js:130-143 | When the read function throws, the invoke still resolves and its error object parses. The reply then announces "undefined" headlines, and every field whose name is no number is spoken and printed as an undefined entry. |
| AlexaSkill.FunctionErrorSpeech | lambda_alexaSkill_getNewpunchInfo/index.js:46 | The error object of a Node.js function (`errorMessage`, `errorType`, `stackTrace`) is spoken as "Here are the latest undefined sensationalist headlines from Facepunch." followed by three " undefined headline: undefined." entries. |
| AlexaSkill.AnswerHeadlines | lambda_alexaSkill_getNewpunchInfo/index.js:42-48 | Asking the read path for `count` records and building the spoken text and the card gives the headlines reply to what the read path answered. |
| AlexaSkill.HandleHeadlines | lambda_alexaSkill_getNewpunchInfo/index.js:39-53 | The handler as written: a launch request throws while reading the count, and the error handler's "Sorry, an error occurred." is the reply. An intent request is answered with the headlines for its slot count. |
| AlexaSkill.HandleHeadlinesCorrected | lambda_alexaSkill_getNewpunchInfo/index.js:39-53 | The handler with the corrected count: a launch request is answered with the default 3 headlines, and an intent request as before. |

## Left out

- Fetching over HTTPS (`httpsPromise`) is the parameter `fetch`. A non-2xx status or a transport error is `None`, and bodies are not read chunk by chunk.
- HTML parsing with cheerio is left out. A page arrives as its list of thread blocks, each with the `href`, title, date, counter text and last-post seconds the extractor reads.
- JavaScript `Date` and ISO 8601 text are left out. Times are epoch seconds, written as decimal text, and an unparseable `.threadage` date is `None`.
- Concurrency is left out: `Promise.all` over fetches and batch writes is sequential, in issue order. Completion order and interleaving with other writers are not modelled.
- DynamoDB's service behaviour is left out: scan pagination beyond one page, unprocessed items in a batch write, the rejection of a batch that names one key twice, throttling and errors. Store calls always succeed.
- `process.env` (table names, `MAX_PAGES_TO_RETURN`) becomes handler parameters. A page count that is not a number is not modelled.
- `console` logging is left out.
- The Alexa SDK is left out: the skill builder, `responseBuilder`, the Help and Cancel/Stop handlers, and routing order. The model keeps the headline handlers' `canHandle` test, the count, the texts, the reply fields, and the error handler's reply to a handler that throws.
- `lambda.invoke` is the parameter `invoke`. It gives the parsed payload: the array of records, the error object the invoke resolves with when the read function throws, or text that does not parse. Which reply a given read produces is not derived from the read side's model. Any other JSON value is not modelled. The invoke never rejects here: a rejected `lambda.invoke(...).promise()` (permissions, throttling, transport) would make the handler throw, and the error handler's apology would be the reply; that path is not modelled.
- UpdateNewpunchInfo.ExtractThread: a block with no link is not modelled; the `href` is always text. In the source a missing `href` becomes `{S: undefined}` in the put request (lambda_updateNewpunchInfo/index.js:161), and the batch write then fails. A missing title is the empty text, as `.text().trim()` gives.
- GetNewpunchInfo.DynamoThreadToJson: an attribute of the wrong type, a time that is not a date, or a counter that does not parse is a decode failure. The source does not throw for these (lambda_getNewpunchInfo/index.js:72-79): it carries `Invalid Date` (a time that is not `S` or not a date), `NaN` (a counter that is not `N` or does not parse), `undefined` (a headline that is not `S`) or the host followed by "undefined" (a link that is not `S`). Only a missing attribute throws, which the model reports as `MissingAttribute`.
- GetNewpunchInfo.GetTargetTable: lower-casing covers ASCII letters only, and a `type` that is not a string is not modelled.
- GetNewpunchInfo.Handler: a negative `count` is excluded by its precondition, because the source's pop loop never ends for it. A count that is not an integer is not modelled.
- GetNewpunchInfo.ApplySortKeyToResults: an insertion sort stands in for the engine's `Array.prototype.sort`. Only the order and the permutation are promised, not stability or which of several equal records comes first.
- AlexaSkill.CountFromSlots: a slot value that is not a string is not modelled.
- Decimal.NatToString: JavaScript numbers are doubles, and from 10^21 up `toString` gives exponent text ("1e+21"). The model assumes the counters and timestamps stay below 2^53, where the decimal text is exact.
- Decimal.ParseIntDigits: `parseInt` rounds a digit run above 2^53 to the nearest double; the model reads every digit run exactly. Values are assumed to stay below 2^53.
- Decimal.NatRoundTrip: holds in JavaScript only below 2^53 (and not at all from 10^21 up, where `toString` gives exponent text); the model states it for every natural number.
- Decimal.IntRoundTrip: the same bound applies to timestamps; the model states it for every integer.
- UpdateNewpunchInfo.RefreshedContents: the last record with a repeated headline winning holds only for the model's in-order writes. In the source two such records in one batch of 25 make that batch write fail, and in different batches the writes race. RefreshedRecords states what holds in any order.
- The polidicks headline handler is the sensationalist one with another category, modelled by `AlexaSkill.HandleHeadlines` with `Polidicks`.
- The refresh stores the page's `href` as it is (lambda_updateNewpunchInfo/index.js:161), and the read side puts the host in front of it (lambda_getNewpunchInfo/index.js:79).

## Findings

| source | as written | input that shows it | evidently intended | confidence | as-written member | corrected member |
|---|---|---|---|---|---|---|
| lambda_alexaSkill_getNewpunchInfo/index.js:147 | The sensationalist handler accepts a `LaunchRequest`. `getHeadlineCount` then reads `request.intent.slots`, and a launch request has no `intent`, so the read throws and the error handler's "Sorry, an error occurred." is the reply (AlexaSkill.HandleHeadlines). | A `LaunchRequest`: the user opens the skill without asking for anything. | Opening the skill gives the default three sensationalist headlines (AlexaSkill.HandleHeadlinesCorrected). | high; not executed | AlexaSkill.GetHeadlineCountAsWritten | AlexaSkill.GetHeadlineCount |
