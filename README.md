# fd2zd core, modelled in Dafny

fd2zd migrates help-desk records from Freshdesk to Zendesk. Records fetched
from Freshdesk are stored in a local `resources` table with status `new`.
Worker loops then claim batches of `new` records and mark them `queued`.
Each batch is converted to Zendesk payloads, submitted as a bulk import job,
and the job is polled until it settles. The per-record results are written
back as `synced`, `failed` or `job-failed`.

This project models that core and proves what it promises:

- **`ImportResource`**: the work-queue status machine. This covers:
  - `next_batch`, `save_progress`, `build_data` and `wait_for_completion!`;
  - the worker loop `import_resources`, as a `Store` class whose `rows` field is the table.
- **`RequestHandler`**: the retry policy of `perform_request`.
  - It retries a rate limit at most six times, waiting the `retry_after` header or 10 seconds.
  - Network errors are retried without limit, after 30 seconds each.
  - Everything else is re-raised.
- **`FreshdeskClient`**: page-number pagination, including the 300-page watermark rollover, plus `all_resources`, `each_ticket` and `validate!`.
- **`ZendeskClient`**: the three next-page indicators, `each_page`, `search`, `wait_for_completion!`, `bulk_import_path` and `validate!`.
- **`UsersImportService`**: the users hash, the pre-matching scan with its flush-at-100 buffer, and `import`, which runs the scan before the generic worker.
- **`TicketsToImport`**: the filter-then-enrich stream.
- **Converters**: `TicketConverter` and `UserConverter`, the record-to-payload maps.

`Wrappers` (Option), `Text` and `Seqs` (flattening) are support modules. `Text` holds the Ruby string behaviour the code relies on: `blank?`, `presence`, ASCII `downcase`, `Integer#to_s` and its inverse.

How the model is set up:

- **Remote answers are data.** Every remote answer is given as a finite script, consumed in request order. This covers HTTP responses, listing pages, job polls and bulk-import replies. A loop that would ask for more than the script holds ends with an explicit "ran out" outcome: `Unanswered`, `Exhausted`, `StillPending` or `Halted`. That is how every loop is shown to terminate.
- **Imperative code stays imperative.** Where the source loops or mutates, the model is a method with a loop.
  - Most such methods are proved equal to a recursive specification function, and the properties are proved as lemmas about that function.
  - The worker loop `Store.ImportResources`, the pre-match scan `ScanPreCreatedUsers` and the users `Import` are proved against invariants over the table instead. These are the ghost predicates `Worker`, `Progressed`, `Outcomes` and `Scanning`, kept by one step lemma per claim, save or flush.
- **The table is a sequence, not a map.** Its rows are kept in non-decreasing `fd_id` order, the default scope of `Resource`, and primary keys are distinct. `fd_id` is unique only within one record type, and the users table holds two (`Contact` and `Agent`), so two rows may share an `fd_id`. Such rows stand in the database's own order.
- **`upsert_all` is per row.** Every write names the primary key of an existing row, so an upsert updates rows in place and never inserts one. A row's final value is what the writes for its id make of it, applied in order (the database is MySQL, where the last duplicate wins).

## Model

| member | source | states |
|---|---|---|
| ImportResource.Store.NextBatch | lib/zendesk/import_resource.rb:73-82 | the claim is `SelectNew` of the table before it, and afterwards exactly the claimed rows are `queued`; ids, fd_ids and columns are unchanged and the table stays ordered with distinct ids |
| ImportResource.SelectNewSpec | lib/zendesk/import_resource.rb:76 | a claim holds at most `limit` rows, all of them `new` rows of the table. It holds exactly `limit` of them unless fewer exist, and then it holds every `new` row. On an ordered table it is in fd_id order, and no `new` row left out has a lower fd_id than a claimed one |
| ImportResource.SelectNewBasics | lib/zendesk/import_resource.rb:76 | size of a claim is min(number of `new` rows, limit); every element is a `new` row of the table |
| ImportResource.SelectNewComplete | lib/zendesk/import_resource.rb:76 | a claim shorter than the limit holds every `new` row |
| ImportResource.SelectNewOrdered | app/models/resource.rb:6 | on a table ordered by fd_id, a claim is in (non-strictly) ascending fd_id order |
| ImportResource.SelectNewLowest | app/models/resource.rb:6 | no `new` row left out of a claim has a lower fd_id than a claimed row |
| ImportResource.SelectNewLowestFirst | app/models/resource.rb:6 | both of the above together |
| ImportResource.ClaimQueuesExactlyTheBatch | lib/zendesk/import_resource.rb:77 | after a claim, the claimed rows are `queued` with nothing else changed, and every other row is unchanged |
| ImportResource.SuccessiveClaimsDisjoint | lib/zendesk/import_resource.rb:56-77 | two serialised claims have disjoint id sets |
| ImportResource.EmptyClaimMeansDrained | lib/zendesk/import_resource.rb:57 | with a positive limit, a claim is empty if and only if no `new` row is left |
| ImportResource.ClaimsInFdIdOrder | lib/zendesk/import_resource.rb:76-77 | three `new` rows with claims of two: the first claim takes fd_ids 10 and 20, the second takes 30, and the third is empty |
| ImportResource.Store.SaveProgress | lib/zendesk/import_resource.rb:100-114 | the table becomes `Save` of the old table when save_progress succeeds; when it raises, nothing is written and `ok` is false |
| ImportResource.NoJobMarksBatchJobFailed | lib/zendesk/import_resource.rb:101-103 | with no job, every claimed record becomes `job-failed` and nothing else changes, so none becomes `synced` or `failed` |
| ImportResource.RubyIndex | lib/zendesk/import_resource.rb:111 | Ruby array indexing: a negative index counts from the end, and anything outside the array is nil |
| ImportResource.SavedOutcome | lib/zendesk/import_resource.rb:106-113 | the record result i refers to (by its index, else by position) ends with that result's outcome, unless a later result refers to it |
| ImportResource.UnreportedRecordUntouched | lib/zendesk/import_resource.rb:106-113 | a record that no result refers to keeps its row |
| ImportResource.ResultsByIndexPositionAndFromEnd | lib/zendesk/import_resource.rb:106-113 | results with index 0, no index and index -1 sync the first record, fail the second with "bad payload: " and sync the third |
| ImportResource.IndexOutsideBatchRaises | lib/zendesk/import_resource.rb:111 | a result index past the end of the batch makes save_progress raise before writing |
| ImportResource.SaveTouchesOnlyBatch | lib/zendesk/import_resource.rb:102-113 | save_progress writes only status columns of batch records, leaves every other record unchanged, and never makes a record `new` |
| ImportResource.SaveIdempotent | lib/zendesk/import_resource.rb:113 | repeating save_progress with the same batch and job gives the same table |
| ImportResource.ProgressWritesFacts | lib/zendesk/import_resource.rb:106-112 | the rows written all carry the three progress columns, are ids of the batch and have a non-`new` status |
| ImportResource.Upsert | lib/zendesk/import_resource.rb:113 | `upsert_all` keeps the table's length |
| ImportResource.UpsertSameRecords | lib/zendesk/import_resource.rb:113 | an upsert changes no id, fd_id or columns |
| ImportResource.RowAfterIsLastWrite | lib/zendesk/import_resource.rb:113 | when all the writes set the same columns, a row ends as its last write for its id made it, or untouched if there is none |
| ImportResource.UpsertIdempotent | lib/zendesk/import_resource.rb:113 | upserting the same writes twice equals upserting them once |
| ImportResource.UpsertConcat | lib/zendesk/users_import_service.rb:42-45 | two successive upserts equal one upsert of both lists |
| ImportResource.LastIsLatest | lib/zendesk/import_resource.rb:113 | the last write for an id is the latest one in the list |
| ImportResource.PositionalResultMatchesPayload | lib/zendesk/import_resource.rb:111-118 | payload position k is claimed record k, so a result matched by position goes to the record whose payload sits there |
| ImportResource.WaitForCompletion | lib/zendesk/import_resource.rb:84-98 | re-polls while queued or working and returns the last job polled, whatever its final status (a non-completed one is only logged) |
| ImportResource.Store.ImportResources | lib/zendesk/import_resource.rb:53-71 | the worker leaves untouched every record that was not `new`, every record still `new` and every record in no claim. Claims are pairwise disjoint, at most batch_size long and made of `new` records; every claimed record ends non-`new`; each submitted payload is the claim's built data. Saved claim a got the job its reply settled on (none when the bulk import raised), and each of its records ends as saving that job makes of the queued record; a claim without a job ends `job-failed`, and an unsaved last claim stays `queued`. When the loop ends by itself every claim was saved, no `new` record is left and every record that was `new` lies in some claim |
| ImportResource.Store.Round | lib/zendesk/import_resource.rb:55-69 | one pass of the loop body keeps the worker state `Worker`, records outside the claims included: an empty claim changes nothing and ends `Drained`, and a round that does not stop adds one claim, its payloads and its saved job |
| ImportResource.NoJobClaimsJobFailed | lib/zendesk/import_resource.rb:101-103 | every record of a saved claim without a job is its start row marked `job-failed` |
| ImportResource.DrainedClaimsEveryNew | lib/zendesk/import_resource.rb:56-57 | once no `new` record is left, every record that was `new` when the worker started lies in one of its claims |
| ImportResource.OutcomeWithoutJob | lib/zendesk/import_resource.rb:101-103 | one such record: saving a queued record with no job marks it `job-failed` |
| ImportResource.SaveRowwise | lib/zendesk/import_resource.rb:100-113 | save_progress acts on each row by itself: a row ends as saving the batch makes of that row alone |
| ImportResource.ClaimOutcomesStep | lib/zendesk/import_resource.rb:56-57 | a claim leaves the records of earlier claims as they were and queues the new claim's records |
| ImportResource.SaveOutcomesStep | lib/zendesk/import_resource.rb:67-69 | saving the last claim fixes its records' outcomes and leaves every earlier claim's records alone |
| ImportResource.ClaimStep | lib/zendesk/import_resource.rb:56-57 | a non-empty claim keeps the worker's bookkeeping, with the batch added to the claims; a record in no claim, the new one included, is still as at the start |
| ImportResource.SaveStep | lib/zendesk/import_resource.rb:69 | saving the last claimed batch keeps the worker's bookkeeping |
| ImportResource.SaveUntouchedStep | lib/zendesk/import_resource.rb:100-113 | save_progress writes only the batch's records: records that were not `new`, still `new` or in no claim stay as at the start |
| ImportResource.SaveClaimedStep | lib/zendesk/import_resource.rb:100-113 | save_progress turns no record back to `new`, so every claimed record stays non-`new` |
| ImportResource.ClaimedBatchFacts | lib/zendesk/import_resource.rb:76 | a fresh claim holds `new` records of the start table that no earlier claim took |
| ImportResource.BuildData | lib/zendesk/import_resource.rb:116-119 | one payload per claimed record, in claim order, each the converter's output for that record; no data when the converter raises for some record |
| ImportResource.Store.UpsertAll | lib/zendesk/users_import_service.rb:42 | one `upsert_all`: the table becomes `Upsert` of the old table |
| RequestHandler.PerformRequest | lib/request_handler.rb:17-55 | the begin/rescue/retry loop, with its one-second sleeps counted, equals the policy `Perform` |
| RequestHandler.Delay | lib/request_handler.rb:26-33 | the wait after a 429 is the header value, or 10 when absent; a negative value waits nothing |
| RequestHandler.FirstSuccessReturned | lib/request_handler.rb:20 | after retried responses with at most six 429s, the first success is returned, having waited their delays |
| RequestHandler.SeventhRateLimitRaises | lib/request_handler.rb:18-37 | the seventh 429 of one call is re-raised at once, after the six earlier delays |
| RequestHandler.SevenBareRateLimits | lib/request_handler.rb:8-37 | seven 429s without a header: six waits of 10 seconds, then RateLimited, after 7 attempts |
| RequestHandler.OtherErrorRaisedImmediately | lib/request_handler.rb:49-54 | any other RestClient error is re-raised on the attempt that produced it, with no wait of its own |
| RequestHandler.RetriedPrefix | lib/request_handler.rb:36-48 | retried responses only add their delays and one attempt each; network errors leave the rate-limit counter alone |
| RequestHandler.NetworkRetriesUnbounded | lib/request_handler.rb:38-48 | any number of network errors is retried, 30 seconds each, before a success |
| RequestHandler.PerformAccounting | lib/request_handler.rb:17-55 | every call: its attempts are a prefix of the script, all but the last retried, and the rate-limit count stays at most six; the wait is the sum of the retried delays; it raises RateLimited exactly when the last attempt was the seventh 429 |
| RequestHandler.PerformAccounted | lib/request_handler.rb:17-55 | the same accounting from any retry count reached so far |
| FreshdeskClient.EachPage | lib/freshdesk/client.rb:36-61 | the loop that mutates page and updated_since equals the pagination function `Pages` |
| FreshdeskClient.PagesShape | lib/freshdesk/client.rb:41-60 | one request per answer, starting with the initial request; each yielded page is the whole non-empty answer; each later request follows from the previous one and its full page; a run that ends by itself ends on an empty page (not yielded) or a short page (yielded) |
| FreshdeskClient.PagesCounts | lib/freshdesk/client.rb:45-49 | the counting and termination half of the above |
| FreshdeskClient.PagesContents | lib/freshdesk/client.rb:47-58 | the page-content and next-request half of the above |
| FreshdeskClient.PageCounterBounded | lib/freshdesk/client.rb:53-58 | with a watermark, every request's page stays within 1..300 and the watermark is kept |
| FreshdeskClient.RolloverAtPage300 | lib/freshdesk/client.rb:53-56 | after a full page 300 the next request asks page 1, with updated_since set to the last item's time |
| FreshdeskClient.PagesWithoutWatermark | lib/freshdesk/client.rb:58 | without a watermark, request k asks for page `page + k` |
| FreshdeskClient.AllResources | lib/freshdesk/client.rb:69-73 | the result is the in-order concatenation of the yielded pages |
| FreshdeskClient.TicketParams | lib/freshdesk/client.rb:84 | `Hash#merge`: every caller argument overrides the default of the same name, and the other defaults remain |
| FreshdeskClient.TicketParamsDefaults | lib/freshdesk/client.rb:84 | without caller overrides: updated_since '2000-01-01', order_type 'asc', order_by 'updated_at' |
| FreshdeskClient.EachTicket | lib/freshdesk/client.rb:83-86 | tickets are the flattened pages of the merged query, and every request's page stays in 1..300 with a watermark |
| FreshdeskClient.Validate | lib/freshdesk/client.rb:94-97 | there is no error if and only if the subdomain and the token are non-nil and non-empty; the subdomain is checked first |
| ZendeskClient.NextPageKeyWins | lib/zendesk/client.rb:126 | a `next_page` key, even a null one, decides alone; `links` and `meta` are ignored, and the URL is the key's value (nil for null); it is blank exactly when that value is |
| ZendeskClient.LinksBeforeMeta | lib/zendesk/client.rb:128 | without that key, a present `links.next` wins over `meta` |
| ZendeskClient.NextPageUrl | lib/zendesk/client.rb:125-134 | the corrected `next_page_url`: a present `next_page` is returned as it is; the result is nil only for a null `next_page`; a built URL arises only from the cursor shape and carries the reported `after_cursor` |
| ZendeskClient.NextPageUrlAsWritten | lib/zendesk/client.rb:125-134 | `next_page_url` as written: it raises only on the cursor shape, and otherwise agrees with the corrected version |
| ZendeskClient.NextPageStops | lib/zendesk/client.rb:126-134 | pagination stops if and only if no shape gives a usable indicator; otherwise, with no `next_page` and no `links.next`, the cursor URL is built |
| ZendeskClient.AsWrittenDiffersOnlyOnCursor | lib/zendesk/client.rb:132-133 | the code as written raises exactly on the cursor shape, and agrees with the intended version everywhere else |
| ZendeskClient.CursorResponseRaisesAsWritten | lib/zendesk/client.rb:133 | a `meta.has_more` response with a cursor makes the written code raise NameError; the corrected one builds the cursor URL |
| ZendeskClient.EachPage | lib/zendesk/client.rb:36-51 | the loop equals `ListPages`, which follows the corrected `NextPageUrl` |
| ZendeskClient.ListPagesShape | lib/zendesk/client.rb:39-49 | each yielded page is the non-empty item array of its response; each later URL is the corrected next-page URL of the previous response; a page is missing only from a run that stopped on an empty page |
| ZendeskClient.Search | lib/zendesk/client.rb:65-77 | the loop equals `SearchFrom` for any limit; the default limit is `DEFAULT_SEARCH_LIMIT`, 100 |
| ZendeskClient.SearchFrom | lib/zendesk/client.rb:68-75 | a search reads at most one page per answer |
| ZendeskClient.SearchAccumulates | lib/zendesk/client.rb:70-72 | the results are the non-empty pages answered, in order |
| ZendeskClient.SearchOvershootsByAtMostOnePage | lib/zendesk/client.rb:74 | the limit is checked after a whole page is appended, so the results exceed the limit by less than one page |
| ZendeskClient.SearchStopsBelowLimit | lib/zendesk/client.rb:70-74 | a search that ends by itself below the limit ended on empty results or a blank `next_page` |
| ZendeskClient.SearchOvershoots | lib/zendesk/client.rb:72-74 | no truncation: a three-result page against a limit of one returns all three |
| ZendeskClient.SearchDefaultLimitStops | lib/zendesk/client.rb:65-74 | with the default limit of 100, the search stops on the page that brings the results to 100 or more, whatever pages follow |
| ZendeskClient.SettleShape | lib/zendesk/client.rb:94-99 | polling repeats exactly while queued or working, and ends on the last job polled |
| ZendeskClient.ThreePolls | lib/zendesk/client.rb:94-99 | queued, working, then completed: three polls, and the completed job is returned |
| ZendeskClient.WaitForCompletion | lib/zendesk/client.rb:93-104 | 5 seconds per poll; returns the job when it is completed and raises JobFailed for any other settled status |
| ZendeskClient.BulkImportPathRoundTrip | lib/zendesk/client.rb:114-121 | the resource name can be read back from its path, except for 'imports/tickets' |
| ZendeskClient.BulkImportPathCollision | lib/zendesk/client.rb:117-119 | 'imports/tickets' and 'tickets' get the same path |
| ZendeskClient.Validate | lib/zendesk/client.rb:137-141 | there is no error if and only if none of subdomain, token and admin email is blank; the first blank one is reported |
| UsersImportService.HashOfSpec | lib/zendesk/users_import_service.rb:49-59 | the hash is built if and only if every non-synced user has a key; its keys are exactly those users' keys, each listing all their ids in iteration order; synced users are never listed |
| UsersImportService.KeysAreDowncased | lib/zendesk/users_import_service.rb:54 | every key is already downcased |
| UsersImportService.HashOfNoneSticks | lib/zendesk/users_import_service.rb:52-54 | once a key cannot be computed, the build fails |
| UsersImportService.BuildUsersHash | lib/zendesk/users_import_service.rb:49-59 | the loop equals `HashOf` |
| UsersImportService.MatchWrites | lib/zendesk/users_import_service.rb:34-38 | a destination user whose email is a key gets one write per listed local id, in list order, each marking that id `synced` with the destination user's id; any other destination user gets none |
| UsersImportService.ScanPreCreatedUsers | lib/zendesk/users_import_service.rb:30-47 | the flushes are non-empty, all but the last hold at least 100 writes, and together they are every pre-match write exactly once, in order; the table ends as one upsert of all of them |
| UsersImportService.ScanStep | lib/zendesk/users_import_service.rb:34-43 | one destination user: its writes are buffered, and the buffer is flushed at 100 |
| UsersImportService.FinalFlush | lib/zendesk/users_import_service.rb:45 | a non-empty remainder is flushed at the end |
| UsersImportService.Flush | lib/zendesk/users_import_service.rb:42 | one flush: the table is the start upserted with every flush so far |
| UsersImportService.PreMatchOutcome | lib/zendesk/users_import_service.rb:33-45 | after the scan a local user that no destination user's email lists is unchanged; a listed one is `synced` with the id of the last destination user listing it (its error column untouched) |
| UsersImportService.LastMatchIsLastListing | lib/zendesk/users_import_service.rb:33-38 | `LastMatch` is none exactly when no destination user lists the id, and otherwise the id of the listing user that no later one supersedes |
| UsersImportService.LastForMatches | lib/zendesk/users_import_service.rb:33-45 | the last pre-match write for a local id carries the id of the last destination user listing it |
| UsersImportService.LastForMatchWrites | lib/zendesk/users_import_service.rb:36-38 | within one destination user's writes, the last write for an id exists exactly when that user lists it |
| UsersImportService.LastForConcat | lib/zendesk/users_import_service.rb:42-45 | across two upsert lists the last write for an id comes from the second when it has one |
| UsersImportService.MatchWritesCarryIds | lib/zendesk/users_import_service.rb:37 | every pre-match write sets a destination id |
| UsersImportService.LookupIsCaseSensitive | lib/zendesk/users_import_service.rb:34 | a destination email differing only in case from a key does not match |
| UsersImportService.KeyMayDifferFromSubmittedEmail | lib/zendesk/users_import_service.rb:53 | a user with both emails is keyed by the top-level one but submitted with the contact's |
| UsersImportService.Import | lib/zendesk/users_import_service.rb:23-26 | a failed hash build writes nothing; otherwise the scan runs before the worker, and the worker never claims a pre-matched user |
| TicketsToImport.Each | lib/freshdesk/tickets_to_import.rb:16-23 | the loop equals `Emitted`, and the fetched ids equal `Fetched` |
| TicketsToImport.EmittedSpec | lib/freshdesk/tickets_to_import.rb:17-21 | the stream is the accepted tickets in listing order, each enriched when configured (filtering happens before enrichment) |
| TicketsToImport.AcceptedSpec | lib/freshdesk/tickets_to_import.rb:18 | the tickets kept are exactly the listed tickets the filter accepts |
| TicketsToImport.RejectedSkipped | lib/freshdesk/tickets_to_import.rb:18-20 | a rejected ticket is neither emitted nor fetched for |
| TicketsToImport.ConversationsAttachedWhenIncluded | lib/freshdesk/tickets_to_import.rb:20 | when included, every emitted ticket carries its fetched conversations; otherwise the accepted tickets are emitted unchanged |
| TicketsToImport.FetchedAreEmitted | lib/freshdesk/tickets_to_import.rb:18-20 | conversations are fetched for exactly the emitted tickets, in order, and only when included |
| TicketsToImport.EmittedAppend | lib/freshdesk/tickets_to_import.rb:17-22 | streaming two listings emits the tickets of one after the other |
| TicketsToImport.FetchedAppend | lib/freshdesk/tickets_to_import.rb:17-20 | likewise for the conversation fetches |
| TicketsToImport.NoFilterEmitsAll | lib/freshdesk/tickets_to_import.rb:28 | with no filter and no conversations, the stream is the listing itself |
| TicketConverter.PriorityName | lib/converters/ticket_converter.rb:37-42 | there is a name if and only if the code is 1..4 |
| TicketConverter.PriorityRoundTrip | lib/converters/ticket_converter.rb:115-117 | the priority table is one-to-one, both ways |
| TicketConverter.AssigneeId | lib/converters/ticket_converter.rb:77-79 | with the nil default, an assignee is set exactly when the responder maps to a destination user, and it is that user's id |
| TicketConverter.RequesterId | lib/converters/ticket_converter.rb:81-83 | the same for the requester |
| TicketConverter.ExternalIdRoundTrip | lib/converters/ticket_converter.rb:73-75 | "fd" followed by the ticket id, which reads back |
| TicketConverter.SubjectSpec | lib/converters/ticket_converter.rb:85-87 | "FD#", then the id (which reads back), then " - ", then the source subject |
| TicketConverter.Comments | lib/converters/ticket_converter.rb:89-109 | the loop equals `CommentsOf`: the description comment, then one per conversation with a non-blank body; nil conversations raise |
| TicketConverter.ConversationCommentsSpec | lib/converters/ticket_converter.rb:98-106 | one comment per non-blank conversation, each with a non-blank body taken from a conversation of the input |
| TicketConverter.ConversationCommentsAppend | lib/converters/ticket_converter.rb:98-106 | comments follow the source order of the conversations |
| TicketConverter.BlankConversationDropped | lib/converters/ticket_converter.rb:99 | a conversation with a blank body leaves no comment |
| TicketConverter.ConvertTicket | lib/converters/ticket_converter.rb:56-71 | the whole conversion equals `Convert` |
| TicketConverter.ConvertSpec | lib/converters/ticket_converter.rb:56-123 | the conversion fails exactly when conversations are missing. Otherwise the status is 'closed' and the tags are exactly ['freshdesk-import']; the priority comes from the table; the comment count is 1 plus the non-blank conversations; the first comment is the description, by the requester, at creation time; requester and assignee come from the mapping, with the nil defaults |
| TicketConverter.StatusIgnored | lib/converters/ticket_converter.rb:56-71 | the source status never reaches the payload |
| UserConverter.ExternalId | lib/converters/user_converter.rb:24-26 | starts with "fd" and is longer than it |
| UserConverter.ExternalIdRoundTrip | lib/converters/user_converter.rb:24-26 | the source id reads back from the external id |
| UserConverter.ExternalIdInjective | lib/converters/user_converter.rb:24-26 | distinct users get distinct external ids |
| UserConverter.ConvertSpec | lib/converters/user_converter.rb:14-22 | exactly email, name, external_id and the two UTC timestamps. Email and name come from the same object, and the external id identifies the user |
| UserConverter.EmptyContactIgnored | lib/converters/user_converter.rb:28-30 | an empty contact object counts as absent |
| Text.Downcase | lib/zendesk/users_import_service.rb:54 | ASCII downcase: same length, no capital letter left, and every character kept or replaced by its lower-case letter |
| Text.IntToStringRoundTrip | lib/converters/ticket_converter.rb:74 | `Integer#to_s` can be parsed back |

## Left out

- Threads, the mutex and `Thread#join` are not modelled. Claims and saves are atomic steps of one worker, and the worker runs alone. An exception re-raised by `join` is modelled only as the worker ending `Crashed`.
- HTTP, JSON, `Base64` authentication and `to_query` encoding are not modelled: they are foreign library calls.
  - Responses are abstract data.
  - `bulk_import_resources` is not modelled: its URL and JSON envelope are foreign calls, and so is the `{name => data}` envelope of `build_data`. Only the list of payloads is modelled, by `BuildData`.
- `sleep` and logging: waits are counted as seconds (`waited`) or polls, and `LOGGER` output is left out.
- `Util.utc_format` is a parameter `utc` of the converters, left uninterpreted.
- Configuration and wiring files, connection handling and `with_db_connection` are outside the model.
- Database schema: `db/migrate/001_create_schema.rb` is not part of this model. The invariant `Valid()` of `Store` is only what holds for every table: rows in non-decreasing fd_id order and distinct primary keys. The unique (type, fd_id) index is not modelled, because rows carry no type. The default status 'new' is not modelled; rows are given with their statuses.
- `bulk_soft_delete` and `bulk_permanent_delete` are thin wrappers around a request and `wait_for_completion!`, which is modelled.
- `lib/zendesk/tickets_import_service.rb` is not part of this model. Its batch size (25) is simply a value of the `batchSize` parameter.
- The memoised class-level cache `user_ids_mapping` is not modelled; the fd→zd mapping is passed in as a parameter.
- In the ticket converter, the `DEFAULTS` author_id is declared but never read, so it is not modelled. `StatusName` models the `STATUS` table, which `convert` does not use.
- Freshdesk `find_resource`, `find_contact`, `find_agent!`, `all_conversations`, and the Zendesk `find_resource`, `job_status`, `each_resource` and `each_user` are single requests or thin wrappers. The fetched data is a parameter (`fetch`, the destination user list).
- UsersImportService.ScanPreCreatedUsers: the page structure of `each_user` is flattened. The scan takes the destination users as one list, in listing order.
- UsersImportService.BuildUsersHash: `find_each` walks the table in primary-key batches, while the model walks it in table order (fd_id). This changes only the order of ids inside a hash entry, not which writes are made, and it does not change the final table.
- `blank?` and `downcase` are restricted to ASCII; Unicode white space and case mapping are left out.
- The "ran out" outcomes (`Unanswered`, `Exhausted`, `StillPending`, `Halted`) are artefacts of finite scripts and have no counterpart in the source, which would go on asking for answers.
- ImportResource.Store.ImportResources: when the job-status poll itself raises (`find_resource` on a failing request), the worker would crash with the batch still `queued`. The model covers this only through `Halted`, which also leaves the batch `queued`.
- ImportResource.Store.ImportResources: `Drained` with no `new` row left is proved for a positive batch size only; with a batch size of 0 every claim is empty at once.
- ImportResource.SelectNewLowest: states that no left-out `new` row has a lower fd_id than a claimed one, not a strictly higher one, because a Contact and an Agent may share an fd_id.
- ImportResource.SelectNewSpec: its ordering clauses are non-strict for the same reason.
- ZendeskClient.Listing: a `results` or `links` key holding JSON null is not representable. The code raises NoMethodError on it (`nil.length` at lib/zendesk/client.rb:43, `nil['next']` at line 128); the model covers only listings where those keys are absent or hold an array or object.
- ZendeskClient.EachPage: follows the corrected `NextPageUrl`. On a non-empty response with only the cursor shape (`meta.has_more` and `after_cursor`), the code as written yields the page and then raises NameError (see Findings); the model requests the cursor URL instead.
- ZendeskClient.ListPagesShape: proved of the corrected pagination, so on a cursor-only response its next URL is the cursor URL where the code as written raises.
- FreshdeskClient.EachTicket: caller arguments are string-valued and do not include `per_page` or `page`, so both take the `each_page` defaults.
- In these cases the model follows the code as written:
  - `ImportResource#wait_for_completion!` only logs a non-completed final status. The job is then saved like a completed one, and no batch becomes `job-failed` through it.
  - An exception in `build_data` or in `save_progress` leaves the worker: the batch stays `queued`, and no batch becomes `job-failed`.
  - `save_progress` with an empty results list raises, because Rails 6.1's `upsert_all` rejects an empty list.

## Findings

| source | as written | input that shows it | evidently intended | confidence | as-written member | corrected member |
|---|---|---|---|---|---|---|
| lib/zendesk/client.rb:133 | the cursor branch assigns through `page[:page][:after]`, but no `page` is defined in `next_page_url`, so Ruby raises NameError | a listing response with no `next_page` key, no `links.next`, and `meta` = {has_more: true, after_cursor: "c1"} | `params[:page][:after] = response['meta']['after_cursor']`, so that the next URL carries the cursor | high (not executed) | ZendeskClient.CursorResponseRaisesAsWritten | ZendeskClient.NextPageUrl | 