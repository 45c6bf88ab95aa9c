# PRSync, modelled and proved

This project models the parts of PRSync whose correctness is hard to see from one
function: the current-bundle inbox shared by concurrent Workers, request authorization
and rate limiting, the Markdown paginator with its compact page index, the bounded reading
session, and three self-contained algorithms. Each part is a Dafny model of the code at
the cited lines, and the promises of that code are theorems about every input, every
reachable state or every run. `dafny verify dfyconfig.toml` checks everything.

## The components

Files are named below; a few modules carry a plural or longer name (`Layouts`, `DisplayLists`,
`GlyphCaches`, `Readers`, `ReaderSessions`, `BundleStorage`, `AuthorizationServices`,
`RateLimiting`, `ContentAnchors`) where the file has the name of its class or entity.

**Inbox** (`InboxStore`, `InboxProtocol`, `InboxInvariant`, `InboxSteps`, `InboxTheorems`,
`BundleStore`, `CleanupPass`). The state is the `inbox`, `bundles` and `bundle_lifecycle`
tables and the R2 bucket. Every D1 statement or batch and every R2 call is one step of an
actor; pushes, clears, cleanups and reads of any number of Workers interleave, and an actor
may stop before or after the effect of any call. The proof is rely-guarantee: one invariant
for the store, the revision log and what each actor has concluded, and one guarantee that
bounds what any single call changes. `BundleStore` has the same operations as methods
that run undisturbed, with faults at the awaited calls.

**Authorization** (`AuthorizationStore`, `AuthorizationProtocol`, `AuthorizationInvariant`,
`AuthorizationSteps`, `AuthorizationTheorems`, `Retention`, `AuthorizationService`,
`RateLimiter`).
Requests are created, decided, claimed, expired, revoked and maintained by interleaving
actors with unrelated clocks. The rate limiter is the single upsert, over schedules of
requests and maintenance.

**Paginator** (`PageGeometry`, `Navigation`, `Layout`, `DisplayList`, `Pagination`,
`PaginationTheorems`, `PageBreaks`, `PageContents`). The greedy scan and the rebuilding of one
page are two loops proved against separate specifications; the theorems connect both with
an independent description of the greedy tiling. Coordinates are 32-bit with the original
saturating, casting and wrapping operations.

**Reader** (`PageCaches`, `ReaderHistories`, `OpenDocuments`, `Reader`, `Anchors`,
`TableAnchors`, `ReaderSession`). The reader is a class whose invariant says that every page it holds, in the
current or a cached document, is the page that full pagination gives.

**Algorithms** (`GlyphCache`; `Folds`, `Bytes`, `Checksums`, `Adler`, `PngWriter`;
`DependencyRoots`; `Counting` and `Options` serve all parts). The PNG decoder is written from RFC 2083, RFC 1950 and RFC 1951 and shares
only the checksum definitions with the writer; the CRC is related to the table-driven
one, and shown to react to every changed byte.

## Assumptions

- A D1 batch is atomic, and D1 enforces the declared constraints: the foreign key from
  `inbox.current_bundle_id` to `bundles`, unique ids and keys, one active credential for
  each name, a name for every sender request and for no other, and a lifetime for sessions.
- UUIDs, request ids, credential ids and session ids never repeat.
- The rate-limit theorems assume that the clock does not go back; the inbox and the
  authorization theorems assume nothing about clocks.
- A layout comes from outside. Row ranges lie in their block and are not empty, and
  the header rows of a group lie above its data rows. The geometric theorems also name
  ordered lines, disjoint rows, or coordinates too small to saturate, where they
  need them. The reader assumes one layout block for each document block.
- The theorems on table anchors assume what layout makes of a parsed table: every source row
  has all columns, the groups of columns lie one below the other and show the same rows in
  the same order, and a header row is the first of its group.
- What a provider, a parser, a font or a bucket listing returns is a parameter.

## What the code does not do

- `push_history` (`crates/prs-markdown/src/reader.rs:1263-1274`) moves the index back by the
  number of dropped entries but never to the new entry. When a push overflows a limit
  of two or more, the index is one before the entry just pushed, and going back overwrites and
  skips the place that was left. `ReaderHistories` gives the exact condition, and what is lost
  at every limit.
- "`AlreadyClaimed` means consumed" fails if the blocking credential is revoked between the
  claim batch and the name check (`crates/prs-cloudflare/src/authorization.rs:858-874`). The
  request may then be approved, expired or deleted. `AuthorizationTheorems` has the exact
  condition and two runs.
- Outside tables, a later line can start earlier in the text than the line above it, and then
  the anchor of the upper line drifts when it is restored. It takes a line that shows nothing
  of the text, such as a rule, above a line that opens with a space of code or with an image
  without a name (`crates/prs-markdown/src/reader.rs:1425-1459`), as in an alert, whose parts
  are joined by ": ". `ContentAnchors` has the exact condition for all texts and lines.
- A table that is too wide is continued in further groups of columns, which repeat the header
  and all rows (`crates/prs-markdown/src/layout/mod.rs:978-1062`), and an anchor comes back
  in the last group. The text of a cell that is shown in an earlier group only drifts to the
  key of its row, and so leaves its cell. In a viewport that is too narrow to repeat the key
  column the anchor can leave its row for the last line of the row above. `TableAnchors` has
  the exact conditions for the row, the cell and the anchor, the layouts in which the row is
  always kept, and a table for either failure.
- Text can be on no page: an image block keeps its later lines on the page that it opened
  (`crates/prs-markdown/src/pagination.rs:652-665`), and lines below the viewport are dropped.
  The fallback text of an image that could not be loaded loses its end when it is taller
  than the page. `PageContents` has a layout, and the exact condition for every item.
- The paginator splits a paragraph that would fit a fresh page when it opens the document and
  ends below the first page, because a page break needs a started page
  (`crates/prs-markdown/src/pagination.rs:698-703`). `PageBreaks` has the exact condition and a
  layout. Layouts of the layout engine are spared: it starts the first block at the top padding,
  and then no fitting paragraph is split.
- A heading can be the last line of its page. The comment at
  `crates/prs-markdown/src/pagination.rs:677-680` reads as if it always kept its next line, but
  only room for that line is assured, and the rule of that line may still move it. `PageBreaks`
  has a layout and the exact condition.
- Two fixed windows can reach into one sliding minute. The bound is 2*limit - 1, and it
  is reached.
- On the first day of 1970 the maintenance cutoff wraps to a huge value, since a negative
  number is cast to an unsigned one (`crates/prs-cloudflare/src/authorization.rs:313-332`), and
  a pass deletes what has just ended. `Retention` shows that it never does from the second day
  on.

## Model

| member | source | states |
|---|---|---|
| InboxTheorems.CurrentBundleIsServed | crates/prs-cloudflare/src/storage.rs:89-169 | In every run of interleaved, failing and stopping pushes, clears, cleanups and reads, a named current bundle has its metadata row, a `published` lifecycle row, and a stored object that the metadata describes (manifest, etag, size). |
| InboxTheorems.CondemnedIsNeverCurrent | crates/prs-cloudflare/src/storage.rs:429-454 | Once a clear, a lifecycle cleanup or an untracked sweep is about to delete an object, that object is not current then or at any later moment of the run. |
| InboxTheorems.DoomedForever | crates/prs-cloudflare/src/storage.rs:501-582 | An object that is not current and whose lifecycle row, if any, can no longer be published stays so for the rest of the run. |
| InboxTheorems.RevisionDeterminesBundle | crates/prs-cloudflare/src/storage.rs:266-366 | Over a whole run two moments with the same revision show the same bundle with the same metadata. |
| InboxTheorems.MovesRaiseRevisionByOne | crates/prs-cloudflare/src/storage.rs:266-282 | Every move leaves the inbox alone or is one committed write that raises the revision by exactly one. |
| InboxTheorems.SuccessfulWritesHaveDistinctRevisions | crates/prs-cloudflare/src/storage.rs:134-168 | No two successful pushes or clears are told the same revision. |
| InboxTheorems.ResponsesAgreeWithTheirRevision | crates/prs-cloudflare/src/storage.rs:173-235 | The two queries of a read are consistent with the inbox at the first; every answer agrees with the inbox at each moment that has its revision, and a downloaded archive is the one its metadata describes. |
| InboxTheorems.NotModifiedReaderIsUpToDate | crates/prs-cloudflare/src/api.rs:510-556 | A reader that asks with the revision or the etag of a manifest it holds and is told `NotModified` holds the manifest and etag of the revision it is told; by etag alone this rests on equal etags meaning equal archives, by revision on nothing. |
| InboxSteps.InitHasInv | crates/prs-cloudflare/migrations/0005_bundle_cleanup_lifecycle.sql:9-40 | The invariant of the protocol holds of every migrated database before the first request. |
| InboxSteps.NextKeepsInv | crates/prs-cloudflare/src/storage.rs:89-582 | Every move of every actor keeps the inductive invariant over lifecycle states, bundle rows, objects, the revision log and what the actors in flight know, and changes the store only within the guarantee that the other actors rely on. |
| InboxSteps.PublishCommitsOnlyUploading | tools/test-prs-cloudflare-migrations.py:649-667 | The publication batch commits exactly when its lifecycle row is still `uploading`; after a cleanup claim the foreign key aborts it and nothing changes. |
| InboxInvariant.ActorInvStays | crates/prs-cloudflare/src/storage.rs:368-407 | What one actor has concluded (a settled key, a reserved id, a stored archive, a condemned object) survives every call of any other actor. |
| BundleStorage.BundleStore.Push | crates/prs-cloudflare/src/storage.rs:89-153 | A push that is not interfered with succeeds exactly when the archive is valid and no call fails, before or after its effect, and then replaces the previous bundle; a failed push leaves the store as it was, or with nothing current, or, when only the answer of the publication was lost, with the new bundle; the store stays healthy. |
| BundleStorage.BundleStore.StoreAndPublish | crates/prs-cloudflare/src/storage.rs:104-143 | After clearing: reserve, put, publish. Success, or a publication whose answer is lost, adds exactly the metadata, the published lifecycle row and the object of the new id; any other failure adds no metadata and no inbox write. |
| BundleStorage.BundleStore.Clear | crates/prs-cloudflare/src/storage.rs:160-169 | The reference is removed before the object; which faults make it fail, and that only the object of the current bundle can go. |
| BundleStorage.BundleStore.CurrentBundle | crates/prs-cloudflare/src/storage.rs:237-264 | The key of the current bundle, nothing for an empty inbox, an error exactly when the metadata row is missing. |
| BundleStorage.BundleStore.ClearInboxRow | crates/prs-cloudflare/src/storage.rs:266-282 | No bundle is current and the revision has gone up by one. |
| BundleStorage.BundleStore.PublishBatch | crates/prs-cloudflare/src/storage.rs:284-366 | Succeeds exactly for a row that is still uploading and collides with no bundle, and then adds that bundle, points the inbox at it and marks the row; on failure no row changes, and the inbox only moves for an id that has a bundle but is not uploading. |
| BundleStorage.BundleStore.Claim | crates/prs-cloudflare/src/storage.rs:429-454 | True exactly for an expired row that does not belong to the current bundle; the row keeps its key and deadline and becomes claimed, and no other row changes. |
| BundleStorage.BundleStore.Finish | crates/prs-cloudflare/src/storage.rs:456-499 | Exactly the bundles of the row that are not current go, and the row goes exactly when it is claimed and the current bundle does not belong to it; everything else stays as it is. |
| BundleStorage.BundleStore.ExpiredCandidates | crates/prs-cloudflare/src/storage.rs:413-427 | The expired rows with the earliest deadlines, at most a hundred, each once, in deadline order. |
| BundleStorage.BundleStore.CleanupLifecycle | crates/prs-cloudflare/src/storage.rs:371-407 | Removes exactly the selected rows that are neither current nor failing, with their bundles and objects; the report counts them; a pass without failures removes at least min(n, 99). A failing claim or finish ends the pass exactly where it stands, and the store stays healthy. |
| BundleStorage.BundleStore.SweepPage | crates/prs-cloudflare/src/storage.rs:516-539 | Of one listed page exactly the stale, untracked, non-current objects are deleted, and counted, up to the first stale object whose query fails. |
| BundleStorage.BundleStore.CleanupUntrackedObjects | crates/prs-cloudflare/src/storage.rs:501-551 | Over the pages of the listing of the bucket at most a hundred bundle objects are looked at, and exactly the sweepable ones among them go. The sweep ends without a report only at a listing that fails or at the first stale object whose query fails; the store stays healthy. With a cursor after every page all or a hundred objects are looked at, and `r2_truncated` is set exactly when the bucket holds more. |
| BundleStorage.SweepDecision | crates/prs-cloudflare/src/storage.rs:524-528 | Earlier deletions of a sweep do not change whether a later object is deleted. |
| CleanupPass.CleanAllEffect | crates/prs-cloudflare/src/storage.rs:376-407 | The pass removes exactly the selected rows that are not current and whose delete works; every other row keeps its key and deadline, and the inbox is untouched. |
| CleanupPass.PassRemovesAtLeast | crates/prs-cloudflare/src/storage.rs:371-427 | With n expired rows besides the current one, a pass without failures removes at least min(n, 99) of them and never the current one. |
| CleanupPass.EnoughPassesLeaveNoneIdle | crates/prs-cloudflare/src/storage.rs:371-407 | Rounded-up n/99 undisturbed passes leave no expired row but the current one. |
| InboxStore.CandidateKeysAreDistinct | crates/prs-cloudflare/src/storage.rs:720-722 | Different bundle ids have different object keys. |
| AuthorizationTheorems.RequestsOnlyMoveForward | crates/prs-cloudflare/src/authorization.rs:716-973 | In every run a request only moves from pending to approved, denied or expired and from approved to consumed or expired; its kind, name, secret and times never change, and a deleted request never comes back. |
| AuthorizationTheorems.AtMostOneTokenPerRequest | crates/prs-cloudflare/src/authorization.rs:809-955 | A request yields at most one credential or session. |
| AuthorizationTheorems.MintingsAreKept | crates/prs-cloudflare/src/authorization.rs:809-955 | The record of who was granted which token only grows, so the bound of one token spans the whole run. |
| AuthorizationTheorems.TokenIsToldIffMinted | crates/prs-cloudflare/src/authorization.rs:858-888 | A claimer is answered with a token exactly when its own batch inserted that token. |
| AuthorizationTheorems.TokenRowAppearsWithItsConsumption | crates/prs-cloudflare/src/authorization.rs:843-857 | A token row is inserted exactly by the move that consumes its approved request, with that token, strictly before the deadline. |
| AuthorizationTheorems.ConsumedInTime | crates/prs-cloudflare/src/authorization.rs:919-933 | Every request consumed in the run holds the one token minted for it and has `consumed_at < expires_at`. |
| AuthorizationTheorems.ActiveNamesAreUnique | tools/test-prs-cloudflare-migrations.py:459-483 | At every moment of every run at most one active credential has a given name. |
| AuthorizationTheorems.ApprovedStaysWhileNameIsActive | crates/prs-cloudflare/src/authorization.rs:843-875 | Over every run, an approved sender request is never consumed while an active credential holds its name: it stays approved, or expires. |
| AuthorizationTheorems.OneActiveCredentialAmongConsumed | crates/prs-cloudflare/src/authorization.rs:809-889 | At every moment of every run, two consumed sender requests for one name hold different credentials of that name, at most one of which is still active. |
| AuthorizationTheorems.NothingIsMintedWhileActive | crates/prs-cloudflare/src/authorization.rs:843-857 | While a name is active, no token is minted for another approved request for it. |
| AuthorizationTheorems.AlreadyClaimedUnconsumed | crates/prs-cloudflare/src/authorization.rs:858-874 | The exact condition under which a claimer is told `AlreadyClaimed` while its request is not consumed (approved, expired, or deleted): the name check finds no active credential; then the one that blocked the batch has been revoked in between. |
| AuthorizationTheorems.OnlyClaimersAreToldAlreadyClaimed | crates/prs-cloudflare/src/authorization.rs:765-955 | No other operation gives that answer. |
| AuthorizationTheorems.AlreadyClaimedWitness | crates/prs-cloudflare/src/authorization.rs:858-874 | A run that ends with such an answer for an approved request: "already claimed implies consumed" does not hold. |
| AuthorizationTheorems.AlreadyClaimedAfterExpiryWitness | crates/prs-cloudflare/src/authorization.rs:858-874 | A run that ends with such an answer for an expired request. |
| AuthorizationSteps.NextKeepsInv | crates/prs-cloudflare/src/authorization.rs:312-354 | Every move of create, decide, claim, expiry, revocation and maintenance keeps the inductive invariant and the guarantee on requests, tokens and names. |
| AuthorizationSteps.InitHasInv | crates/prs-cloudflare/migrations/0004_approved_authorization_expiry.sql:8-106 | The invariant holds of every database that satisfies the schema. |
| AuthorizationInvariant.BatchIsAllOrNothing | crates/prs-cloudflare/src/authorization.rs:843-874 | A claim batch inserts the token row and consumes the request together, or changes nothing; when it does which. |
| AuthorizationServices.AuthorizationService.Claim | crates/prs-cloudflare/src/authorization.rs:765-807 | Undisturbed, a token is granted exactly to an approved request in time with the right kind and secret, timestamps that the database takes and, for a sender, a free name; every other answer, and the Worker error for such timestamps, has its exact condition, and only overdue requests change. |
| AuthorizationServices.AuthorizationService.ClaimApproved | crates/prs-cloudflare/src/authorization.rs:809-955 | Both claim batches: the grant and its exact condition; a Worker error exactly for times above 32 bits or a session without a lifetime; no change otherwise. |
| AuthorizationServices.AuthorizationService.Transition | crates/prs-cloudflare/src/authorization.rs:716-763 | Succeeds exactly on a pending request of the right kind in time and changes its state alone; each failure has its exact condition, a Worker error among them; an overdue pending request expires. |
| AuthorizationServices.AuthorizationService.ExpireOverdue | crates/prs-cloudflare/src/authorization.rs:957-973 | True exactly for a pending or approved request past its deadline, which becomes expired with its terms kept; no other request changes; a time above 32 bits is an error without effect. |
| AuthorizationServices.AuthorizationService.Cleanup | crates/prs-cloudflare/src/authorization.rs:312-354 | Each statement takes at most a hundred of the rows that it may take, the oldest first, sessions before the requests that refer to them; of overdue requests, stale sessions and settled requests, a backlog of at most a hundred is cleared at once. From the second day of 1970 on, nothing goes that ended less than a day ago. |
| Retention.CutoffIsRightIff | crates/prs-cloudflare/src/authorization.rs:313-314 | The cutoff lies at least a day back for every time that it admits if and only if a day has passed since 1970. |
| Retention.RetentionIsRespectedIff | crates/prs-cloudflare/src/authorization.rs:313-332 | No maintenance pass over any database deletes a session or request that ended less than a day ago if and only if a day has passed since 1970. |
| Retention.EarlyPassDeletesFreshRequest | crates/prs-cloudflare/src/authorization.rs:313-332 | On the first day of 1970 a pass deletes a request that was denied at that very second. |
| RateLimiting.SlidingWindowBound | crates/prs-cloudflare/src/authorization.rs:612-656 | Under a nondecreasing clock any half-open interval of 60 seconds contains at most 2*limit - 1 allowed requests of a client, one fewer than the fixed windows suggest. |
| RateLimiting.SlidingWindowBoundIsTight | crates/prs-cloudflare/src/authorization.rs:26-28 | For both limits there is a schedule that reaches 2*limit - 1. |
| RateLimiting.RetryAfterIsExact | crates/prs-cloudflare/src/authorization.rs:647-655 | After a refusal, whatever else happens, a request before the announced instant is refused with the delay that is left and the first one at or after it is allowed. |
| RateLimiting.MaintenanceIsInvisible | crates/prs-cloudflare/src/authorization.rs:326-338 | For any schedule of requests and maintenance under a nondecreasing clock the decisions are those of the requests alone. |
| RateLimiting.KeysIdentifyClients | crates/prs-cloudflare/src/authorization.rs:288-306 | The creation and polling buckets of all clients are distinct. |
| RateLimiting.RateLimiter.Check | crates/prs-cloudflare/src/authorization.rs:612-656 | Allowed exactly when the client has no live window or its window has counted fewer requests than the limit; a refusal names the seconds until that window ends; only the bucket of the client changes; a time above 32 bits is an error without effect. |
| RateLimiting.RateLimiter.Cleanup | crates/prs-cloudflare/src/authorization.rs:326-338 | Removes at most a hundred obsolete buckets, oldest first; fewer than a hundred means that none is left. |
| RateLimiting.OldestObsolete | crates/prs-cloudflare/src/authorization.rs:326-338 | The buckets that are picked are obsolete, at most as many as asked for and no younger than those left; all obsolete ones if there are fewer. |
| RateLimiting.Limit | crates/prs-cloudflare/src/authorization.rs:26-28 | Both limits are positive and below the saturation of the counter. |
| PaginationTheorems.PagesTileTheDocument | crates/prs-markdown/src/pagination.rs:453-546 | Pagination yields the greedy tiling: non-empty pages, each starting where the last one ended and ending where a rule first asks for a break, the last at (block count, 0), each showing exactly its range under its repeated header. |
| PaginationTheorems.PaginationIsUnique | crates/prs-markdown/src/pagination.rs:453-546 | That description is complete: a list of pages is a greedy tiling if and only if it is the result of the scan. |
| PaginationTheorems.EveryLineIsOnOnePage | crates/prs-markdown/src/pagination.rs:38-57 | Every line belongs to exactly one page. |
| PaginationTheorems.IndexIsExact | crates/prs-markdown/src/pagination.rs:558-609 | For every layout whose headers come first and every page, the page rebuilt from the compact index is the page of the full scan: range, commands and hit regions in order. |
| PaginationTheorems.IndexRebuildsEveryPage | crates/prs-markdown/src/pagination.rs:306-328 | The same with only what it needs: the document must not open below a header of its own group. |
| PaginationTheorems.IndexFindsThePage | crates/prs-markdown/src/pagination.rs:300-304 | `page_index_for_cursor` returns the first page whose range holds a position, nothing exactly when no page holds it, and for a line the one page of that line. |
| PaginationTheorems.ScanHasInv | crates/prs-markdown/src/pagination.rs:461-532 | After every line of the nested loops the closed pages tile what was passed and the open page shows the rest. |
| Pagination.Paginate | crates/prs-markdown/src/pagination.rs:453-546 | The nested loops compute the specified scan. |
| Pagination.PlaceLine | crates/prs-markdown/src/pagination.rs:463-531 | One iteration is one step of the scan: close and open a page if a rule says so, then draw the line. |
| Pagination.OpenPage | crates/prs-markdown/src/pagination.rs:478-516 | The page a break opens starts with the header of the group of its first line, and its origin leaves room for it. |
| Pagination.AddHeader | crates/prs-markdown/src/pagination.rs:496-513 | Draws the lines of a header row in order from the top padding on. |
| Pagination.PageFromIndex | crates/prs-markdown/src/pagination.rs:558-609 | The second loop draws the header of an entry and then every line of its range; it fails exactly for a missing page or header. |
| Pagination.PageIndexForCursor | crates/prs-markdown/src/pagination.rs:213-221 | The first range that contains a cursor; nothing when none does. |
| Pagination.HeaderAbove | crates/prs-markdown/src/pagination.rs:932-966 | The header repeated above a page is a row of the same table. |
| Layouts.FindRow | crates/prs-markdown/src/pagination.rs:906-911 | The first row that satisfies a test, or none if no row does. |
| Layouts.TableHeaderForLine | crates/prs-markdown/src/pagination.rs:913-919 | What is found is a header row of the table. |
| PageBreaks.LinesEndAboveBottomPadding | crates/prs-markdown/src/pagination.rs:611-665 | Every line that is not the first of its page ends at or above the bottom padding, except later lines of an image that opened the page. |
| PageBreaks.HeaderFillsTheTop | crates/prs-markdown/src/pagination.rs:921-966 | A page after the first starts at the top padding, and its repeated header ends exactly where its first line begins. |
| PageBreaks.HeaderAndBodyDoNotOverlap | crates/prs-markdown/src/pagination.rs:932-966 | No line of a repeated header reaches below any line of the page body. |
| PageBreaks.SplitRowOpenedItsPage | crates/prs-markdown/src/pagination.rs:629-650 | If a page starts inside a table row, the page with the first line of the row starts with that line. |
| PageBreaks.ParagraphIsSplitIff | crates/prs-markdown/src/pagination.rs:691-716 | On a page higher than its padding, a paragraph no taller than a fresh page is split if and only if it opens the document, has several lines and ends below the first page. |
| PageBreaks.FittingParagraphIsKept | crates/prs-markdown/src/layout/mod.rs:244-271 | No fitting paragraph is split when the first one starts no lower than the top padding, which is where the layout engine starts it. |
| PageBreaks.OpeningParagraphIsSplit | crates/prs-markdown/src/pagination.rs:691-716 | A concrete layout whose opening paragraph starts lower, would fit a fresh page, and is split. |
| PageBreaks.ParagraphEndsOnItsPage | crates/prs-markdown/src/pagination.rs:742-756 | Otherwise the page that holds its first line has room for all of it. |
| PageBreaks.HeadingHasRoomForTheNextLine | crates/prs-markdown/src/pagination.rs:681-688 | A heading that fits a fresh page and does not open its page leaves room for the next line. |
| PageBreaks.NextLineLeavesHeadingIff | crates/prs-markdown/src/pagination.rs:652-716 | The line after a heading starts a new page if and only if it ends below the limit, which such a heading rules out, or its own rule fires: a row, rule, image or paragraph that does not fit, a heading without room for its own next line, or a last line left alone. |
| PageBreaks.HeadingLosesItsNextLine | crates/prs-markdown/src/pagination.rs:677-703 | A concrete layout in which a heading is the last line of its page although there was room for the next line. |
| PageBreaks.NextLineTurnsThePage | crates/prs-markdown/src/pagination.rs:461-518 | For every line and the next one: the next page starts there exactly when the rules say so, else the page goes on. |
| PageBreaks.NoBreakInsideFittingRow | crates/prs-markdown/src/pagination.rs:629-650 | A row whose last line is above the limit is not split at any of its later lines. |
| PageContents.PagesReadAsTheDocument | crates/prs-markdown/src/pagination.rs:453-546 | What the pages place is every text, image and link of the document exactly once and in order; what their own commands and hit regions hold after the repeated headers is exactly the part of it inside the viewport. |
| PageContents.NothingIsLostIff | crates/prs-markdown/src/pagination.rs:139-156 | The pages show the whole document, each item once and in order, if and only if the placed bounds of every item reach into the viewport. |
| PageContents.PageShowsWhatIsVisible | crates/prs-markdown/src/pagination.rs:453-546 | The commands and hit regions of each page are the visible content of its repeated header followed by the visible content of the lines of its range. |
| PageContents.FittingDocumentIsShown | crates/prs-markdown/src/pagination.rs:611-719 | A layout whose fragments fit their lines is shown whole when the first line of every page and the lines of its images end on the page. |
| PageContents.FallbackTextIsLost | crates/prs-markdown/src/pagination.rs:652-665 | A concrete fallback text of an image, taller than the page, whose second line is on no page. |
| PageContents.DrawingShows | crates/prs-markdown/src/pagination.rs:139-156 | Drawing adds to a page exactly what is visible of the drawing. |
| PageContents.PagesStayInside | crates/prs-markdown/src/pagination.rs:139-156 | Every command and hit region of every page is non-empty and inside the viewport; pages are numbered from one. |
| PageContents.LineShowsItsFragments | crates/prs-markdown/src/pagination.rs:759-904 | A line adds to the commands and hit regions of a page exactly what the viewport shows of its fragments and links, in order, and no other content. |
| PageGeometry.Clip | crates/prs-markdown/src/geometry.rs:64-67 | What is left of a clipped rectangle is non-empty and inside the viewport. |
| PageGeometry.ClipIsTheIntersection | crates/prs-markdown/src/geometry.rs:257-260 | Clipping keeps exactly the points that the rectangle and the viewport share. |
| DisplayLists.AddLine | crates/prs-markdown/src/pagination.rs:759-904 | The pushes of a line draw its specified drawing: frame, fragments, and the fallback of a line without fragments. |
| DisplayLists.AddTableDecoration | crates/prs-markdown/src/pagination.rs:969-1106 | Header fills, column rules and the top and bottom rules of a table line, including the `starts_page` border. |
| DisplayLists.FillHeader | crates/prs-markdown/src/pagination.rs:997-1023 | Only header rows are filled, column by column. |
| DisplayLists.RuleColumns | crates/prs-markdown/src/pagination.rs:1029-1062 | One rule at each column boundary. |
| DisplayLists.AddFragments | crates/prs-markdown/src/pagination.rs:834-882 | All fragments with their links, in order. |
| DisplayLists.AddFrame | crates/prs-markdown/src/pagination.rs:780-833 | Quote rule, code surface, table decoration and checkbox of a line. |
| Readers.Reader.constructor | crates/prs-markdown/src/reader.rs:483-507 | A new reader is empty and within its limits. |
| Readers.Reader.CurrentPage | crates/prs-markdown/src/reader.rs:656-660 | In bounded mode the page shown is always exactly the page that paginating the whole layout gives at that index. |
| Readers.Reader.TurnPage | crates/prs-markdown/src/reader.rs:867-898 | Moves one page on or back, to the first line of that page, unless there is none; the current history entry follows; the invariant that the page holds the cursor and is resident is kept. |
| Readers.Reader.OpenDocument | crates/prs-markdown/src/reader.rs:851-864 | Opens exactly what the location leads to, as a history of one entry; on failure only the document cache may change. |
| Readers.Reader.GoWithin | crates/prs-markdown/src/reader.rs:1061-1107 | Within the current document: no change exactly when the location and the line are the present ones; otherwise the entry left is overwritten by the present position and the new one is pushed. |
| Readers.Reader.NavigateToAnchor | crates/prs-markdown/src/reader.rs:968-978 | Goes to the anchor, records the place that was left and pushes the new one; no change when it is the current place or the anchor is missing. |
| Readers.Reader.NavigateToLocation | crates/prs-markdown/src/reader.rs:1052-1124 | Follows a link: success, failure, destination, history and document cache are determined by the cached document or its source. |
| Readers.Reader.MoveHistory | crates/prs-markdown/src/reader.rs:1294-1322 | Back and forward restore the recorded content of the neighbouring entry, or report the end or the loading error without moving. |
| Readers.Reader.RestoreEntry | crates/prs-markdown/src/reader.rs:1307-1321 | Brings up the location of an entry and stands on the line that shows its content in the present layout. |
| Readers.Reader.Reflow | crates/prs-markdown/src/reader.rs:731-781 | The content anchor stays what it was; the cursor is the line that shows it in the new layout; only the current history entry changes; a failure restores everything but the document cache. |
| Readers.Reader.LoadLocation | crates/prs-markdown/src/reader.rs:1126-1138 | A location is brought up from the cache, else from its source; what it reaches, and the exact document cache afterwards. |
| Readers.Reader.LoadCached | crates/prs-markdown/src/reader.rs:1127-1133 | On failure the cached document returns as the newest entry. |
| Readers.Reader.LoadUncached | crates/prs-markdown/src/reader.rs:1140-1145 | A document that cannot be read or lacks the anchor changes nothing. |
| Readers.Reader.CacheCurrent | crates/prs-markdown/src/reader.rs:1252-1256 | The current document becomes the newest cached one. |
| Readers.Reader.PushHistory | crates/prs-markdown/src/reader.rs:1263-1274 | The history after a push, with the index the code leaves. |
| Readers.Reader.UpdateCurrentHistory | crates/prs-markdown/src/reader.rs:1285-1292 | Only the current entry is overwritten, by the current position. |
| Readers.Keep | crates/prs-markdown/src/reader.rs:385-395 | The loop keeps the newest documents and never two of one id. |
| Readers.KeptAreDifferent | crates/prs-markdown/src/reader.rs:364-396 | The document cache holds each document once, at most its capacity, and the document just kept unless the capacity is zero. |
| OpenDocuments.CurrentPageIsTrue | crates/prs-markdown/src/reader.rs:266-272 | The current page is resident and is the page of full pagination. |
| OpenDocuments.EveryPageIsAvailable | crates/prs-markdown/src/reader.rs:308-320 | Every page in range can be made resident, as the true page, within the cache bound. |
| OpenDocuments.PageForIsThePage | crates/prs-markdown/src/reader.rs:286-297 | For a laid-out line the page found is the page that contains it. |
| OpenDocuments.EnsurePage | crates/prs-markdown/src/reader.rs:308-320 | A page is rebuilt only when it is not resident. |
| OpenDocuments.PlaceAt | crates/prs-markdown/src/reader.rs:764-776 | The document stands on the page of its cursor, or on the fallback when no page has it. |
| OpenDocuments.TurnTo | crates/prs-markdown/src/reader.rs:874-878 | The cursor is the first line of the page and the content anchor is the one of that line. |
| OpenDocuments.Build | crates/prs-markdown/src/reader.rs:1147-1228 | Opening succeeds exactly when the anchor, if any, is on a page, and stands there. |
| OpenDocuments.Prepare | crates/prs-markdown/src/reader.rs:1230-1250 | The same in a document that is laid out; on failure only its location has changed. |
| OpenDocuments.Restore | crates/prs-markdown/src/reader.rs:1309-1318 | The position that shows recorded content in the present layout. |
| OpenDocuments.AnchorBlock | crates/prs-markdown/src/reader.rs:1639-1662 | The block found carries the anchor. |
| PageCaches.InsertedIsBounded | crates/prs-markdown/src/reader.rs:349-361 | No page twice, at most max(capacity, 1) entries, the inserted page is found, all others are unchanged. |
| PageCaches.Insert | crates/prs-markdown/src/reader.rs:349-361 | The page becomes the newest entry and only the oldest give way. |
| PageCaches.EvictBelow | crates/prs-markdown/src/reader.rs:357-359 | Exactly the oldest entries past the room are dropped. |
| ReaderHistories.PushIsAWindowIff | crates/prs-markdown/src/reader.rs:1263-1274 | A push shows the newest part of the unbounded history exactly when it does not overflow or the limit is at most one; with the index on the last entry it always would. |
| ReaderHistories.SlidingWindowIsAZipper | crates/prs-markdown/src/reader.rs:1263-1322 | With the index on the pushed entry, every run that stays inside the window would be the unbounded zipper with its oldest entries hidden. |
| ReaderHistories.PushedEntryIsCurrentIff | crates/prs-markdown/src/reader.rs:1267-1273 | Exactly when the pushed entry is the current one; otherwise the index is one before it. |
| ReaderHistories.PushKeepsTheNewest | crates/prs-markdown/src/reader.rs:1264-1269 | The entries are the newest of the unbounded history, as many as the limit allows. |
| ReaderHistories.OverflowLosesTheOrigin | crates/prs-markdown/src/reader.rs:1263-1322 | At every limit of two or more, after a push that overflows the place where the link was followed is the current entry; going back overwrites it and skips it, or finds no entry at limit two. |
| ReaderHistories.RunsStayBounded | crates/prs-markdown/src/reader.rs:1263-1322 | In every run the index stays inside the history and the history within max(limit, 1). |
| ReaderHistories.BelowTheLimitIsAZipper | crates/prs-markdown/src/reader.rs:1263-1322 | In every run below the limit the history is the unbounded zipper. |
| ReaderSessions.ReaderHistory.Push | crates/prs-markdown/src/navigation.rs:158-165 | Pushing the current location changes nothing; otherwise what lies ahead is replaced; neighbours always differ. |
| ReaderSessions.ReaderHistory.Back | crates/prs-markdown/src/navigation.rs:167-173 | Moves one entry back if there is one, to a location that differs. |
| ReaderSessions.ReaderHistory.Forward | crates/prs-markdown/src/navigation.rs:175-181 | Moves one entry on if there is one, to a location that differs. |
| ReaderSessions.ReaderSession.constructor | crates/prs-markdown/src/reader.rs:1789-1796 | The location is the only history entry and there is at least one page. |
| ReaderSessions.ReaderSession.Open | crates/prs-markdown/src/reader.rs:1833-1849 | Links inside the library are followed and recorded; assets and external links are not; the location is always the current history entry. |
| ReaderSessions.ReaderSession.Move | crates/prs-markdown/src/reader.rs:1851-1873 | Back and forward succeed exactly when the history has an entry there: the returns for an equal location are dead. |
| ReaderSessions.ReaderSession.SetPageCount | crates/prs-markdown/src/reader.rs:1810-1813 | The page stays if it still exists, else the last page. |
| ContentAnchors.RestoringKeepsTheAnchor | crates/prs-markdown/src/reader.rs:1358-1402 | In every block, restoring an anchor in the layout it was taken from gives a line that is not above; it has the same anchor if and only if the anchor is not lost to a later line that starts earlier with all lines after it starting later. |
| ContentAnchors.LostIsOvertaken | crates/prs-markdown/src/reader.rs:1412-1462 | Outside tables (`TableAnchors` has those) an anchor is lost exactly when a later line overtakes it and all lines after that start later, so never where no line opens early. |
| ContentAnchors.RuleInAlertDrifts | crates/prs-markdown/src/reader.rs:1358-1402 | A concrete alert with a rule and indented code whose rule comes back on the code line, with another anchor. |
| ContentAnchors.RestoringFindsTheContent | crates/prs-markdown/src/reader.rs:1380-1402 | In any layout that has the block an anchor restores the last line that starts at or before it, line 0 if none does; where no line opens early, no line above that one starts later. |
| ContentAnchors.LineStartsGoForward | crates/prs-markdown/src/reader.rs:1412-1462 | No line starts after a later line that does not open early. |
| ContentAnchors.WordsDoNotOpenEarly | crates/prs-markdown/src/reader.rs:1608-1637 | A line whose first fragment begins visibly and is found in the text does not open early, as in wrapped prose. |
| ContentAnchors.LineStartsAt | crates/prs-markdown/src/reader.rs:1425-1459 | Every line starts at the next visible text, except that a line that opens early starts where the text stopped. |
| ContentAnchors.LineStartGoesBackIff | crates/prs-markdown/src/reader.rs:1412-1462 | For all texts and lines, exactly when a later line starts earlier: its first match is white space where the text stopped, inside white space that the earlier line skipped. |
| ContentAnchors.AlertStartsGoBack | crates/prs-markdown/src/reader.rs:1425-1459 | Two concrete alerts, a rule before indented code and a rule before an image without a name, in which the last line starts before the rule. |
| ContentAnchors.TableLineStartsInItsRow | crates/prs-markdown/src/reader.rs:1464-1545 | A line of a table starts in the text of one of the cells that its displayed row shows, inside the part of the reading text that the source row covers. |
| TableAnchors.TableAnchorKeepsItsRowIff | crates/prs-markdown/src/reader.rs:1380-1402 | In any layout of a table an anchor in the text of a source row comes back on that row if and only if, in the last group of columns, the row has a line that starts at or before the anchor or is the first row of the table; otherwise on the last line of the row above. |
| TableAnchors.TableAnchorIsKeptIff | crates/prs-markdown/src/reader.rs:1380-1402 | An anchor with such a line comes back as itself if and only if a line of its row in the last group starts at it and all later lines of the row after it; and in its cell if and only if a line starts in the cell by the anchor and all later lines after the anchor. |
| TableAnchors.OneGroupKeepsTheRow | crates/prs-markdown/src/layout/mod.rs:1377-1442 | With one group of columns an anchor in the text of its row comes back on that displayed row. |
| TableAnchors.KeyColumnKeepsTheRow | crates/prs-markdown/src/layout/mod.rs:988-1011 | With several groups, if the first line of a row in the last group begins with the key, the text at the start of the row, every anchor in the text of the row, from any layout, comes back on the row in that group. |
| TableAnchors.MissingColumnLeavesTheRow | crates/prs-markdown/src/layout/mod.rs:1012-1033 | An anchor in a row that is not the first of the table, before the first column that the last group shows, leaves its row for the last line of the row above. |
| TableAnchors.AnchorLeavesItsRowIff | crates/prs-markdown/src/reader.rs:1464-1545 | The anchor of a line lies outside the text of its source row, at its end, if and only if the line matches nothing and the row has no text from the first column of the group on. |
| TableAnchors.WrappedCellDrifts | crates/prs-markdown/src/layout/mod.rs:988-1011 | A concrete table in two groups with the key: the anchor of a wrapped cell, shown in the first group only, comes back at the key of its row in the second. |
| TableAnchors.NarrowTableLeavesTheRow | crates/prs-markdown/src/layout/mod.rs:1012-1023 | A concrete table in two groups without the key: the anchor of a data row comes back on a header row. |
| TableAnchors.GridIsTable | crates/prs-markdown/src/layout/mod.rs:1377-1442 | From the order of the displayed rows alone: in each group source rows go down, every group shows all of them, and each line starts inside the part of the text that its source row covers. |
| TableAnchors.SourceRowsGoDown | crates/prs-markdown/src/reader.rs:1474-1486 | Counting data rows by group, a lower displayed row of the same group shows a later source row. |
| ContentAnchors.CellsStayInTheirRow | crates/prs-markdown/src/reader.rs:1549-1566 | The cells of a row follow each other without a gap, from the end of the row before to the end of the row. |
| ContentAnchors.LineStarts | crates/prs-markdown/src/reader.rs:1412-1462 | The loops over lines and fragments compute the start of every line, for tables and other blocks. |
| ContentAnchors.ReadLines | crates/prs-markdown/src/reader.rs:1421-1461 | The running offset gives every line its start. |
| ContentAnchors.ReadFragments | crates/prs-markdown/src/reader.rs:1425-1459 | One line: its first match is its start, its last match is where the text goes on. |
| ContentAnchors.ReadTable | crates/prs-markdown/src/reader.rs:1464-1545 | Displayed rows of every column group are read against their own source row. |
| ContentAnchors.ReadRow | crates/prs-markdown/src/reader.rs:1501-1544 | One displayed row: only its lines get new starts. |
| ContentAnchors.TakeAnchor | crates/prs-markdown/src/reader.rs:1358-1378 | The anchor of a position, also past the end of a block, of the layout or of the document. |
| ContentAnchors.RestoreAnchor | crates/prs-markdown/src/reader.rs:1380-1402 | The search from the last line back finds the specified line. |
| ContentAnchors.MatchFragment | crates/prs-markdown/src/reader.rs:1619-1637 | A match stands in the text at or after the offset. |
| ContentAnchors.SkipWhitespace | crates/prs-markdown/src/reader.rs:1608-1617 | Only white space is skipped, and all of it. |
| ContentAnchors.MatchInCell | crates/prs-markdown/src/reader.rs:1568-1594 | A match lies inside its cell. |
| GlyphCaches.TextEngine.RasterizeGlyph | crates/prs-markdown/src/typography.rs:757-771 | Always what rasterizing without a cache gives; the cache stays a true copy of the most recently used keys; hits and rasterizations are counted. |
| GlyphCaches.RequestKeepsRecency | crates/prs-markdown/src/typography.rs:434-471 | After every request the stored keys are a suffix of the order of last use of all cacheable keys, every bitmap is the true one, and a key that can be stored is stored. |
| GlyphCaches.GlyphCache.Get | crates/prs-markdown/src/typography.rs:434-445 | Finds exactly the stored keys and makes the entry the newest. |
| GlyphCaches.GlyphCache.Insert | crates/prs-markdown/src/typography.rs:447-471 | Stores what can fit and drops only as many of the oldest entries as both bounds need. |
| GlyphCaches.GlyphCache.Evict | crates/prs-markdown/src/typography.rs:461-468 | The loop stops at the first point at which there is room. |
| GlyphCaches.GlyphCache.Clear | crates/prs-markdown/src/typography.rs:473-476 | Empty, with a byte count of zero. |
| GlyphCaches.EvictionPoint | crates/prs-markdown/src/typography.rs:461-468 | The least number of oldest entries whose removal leaves room. |
| GlyphCaches.TextEngine.Fetch | crates/prs-markdown/src/typography.rs:762-770 | Cached or not, the bitmap is the one of the font; a stored key is a hit, any other is rasterized once. |
| GlyphCaches.TextEngine.ClearCache | crates/prs-markdown/src/typography.rs:606-608 | Empties the cache and keeps the counters. |
| PngWriter.PngRoundTrip | crates/prs-markdown/src/harness.rs:249-295 | An independent decoder of PNG, zlib and stored deflate blocks gives back the width, height and pixels of every image that the writer accepts. |
| PngWriter.Output.WritePng | crates/prs-markdown/src/harness.rs:249-295 | Succeeds exactly for non-zero dimensions and image data that fits one chunk, and then appends the specified file; a failure leaves exactly nothing, or the signature and the header. |
| PngWriter.ImageDataLength | crates/prs-markdown/src/harness.rs:249-295 | The dimensions alone give the exact length of the image data, so a caller can tell which images the writer accepts. |
| PngWriter.StoredRoundTrip | crates/prs-markdown/src/harness.rs:325-343 | Stored blocks (section 3.2.4 of RFC 1951) inflate to the data, whatever follows; only the last block is final. |
| PngWriter.ZlibRoundTrip | crates/prs-markdown/src/harness.rs:325-345 | The zlib stream (section 2.2 of RFC 1950) has a valid header and checksum and decodes to the data. |
| PngWriter.ChunkRoundTrip | crates/prs-markdown/src/harness.rs:316-323 | A chunk with its length and CRC reads back as written, whatever follows. |
| PngWriter.ChunksRoundTrip | crates/prs-markdown/src/harness.rs:280-294 | A sequence of chunks reads back as written. |
| PngWriter.ScanlinesRoundTrip | crates/prs-markdown/src/harness.rs:262-270 | Rows behind a zero filter byte give back the pixels. |
| PngWriter.Output.WriteZlibStored | crates/prs-markdown/src/harness.rs:325-345 | The loop writes the specified stream, with one empty final block for no data. |
| PngWriter.Output.WriteStored | crates/prs-markdown/src/harness.rs:329-341 | Blocks of at most 65535 bytes, the last one final. |
| PngWriter.WriteScanlines | crates/prs-markdown/src/harness.rs:262-270 | One filter byte before each whole row. |
| PngWriter.Output.WriteChunk | crates/prs-markdown/src/harness.rs:316-323 | Appends one chunk; fails exactly for data longer than 2^32 - 1 bytes, and then writes nothing. |
| Checksums.CrcMatchesTable | crates/prs-markdown/src/harness.rs:357-367 | The bit-by-bit CRC equals the table-driven one of section 3.4 of RFC 2083. |
| Checksums.OneChangedByteIsDetected | crates/prs-markdown/src/harness.rs:357-367 | Changing one byte always changes the CRC. |
| Checksums.Crc | crates/prs-markdown/src/harness.rs:357-367 | The loop computes the CRC of type and data. |
| Adler.Adler32 | crates/prs-markdown/src/harness.rs:347-355 | The running sums are the Adler-32 of the data. |
| Adler.AddByte | crates/prs-markdown/src/harness.rs:350-353 | Reducing both sums at every byte is exact, and no sum leaves 32 bits. |
| Bytes.BigEndianRoundTrip | crates/prs-markdown/src/harness.rs:316-320 | Four big-endian bytes determine the number. |
| Bytes.RegisterBytesDiffer | crates/prs-markdown/src/harness.rs:322-322 | Different CRC registers are written as different bytes. |
| DependencyRoots.FindRoots | tools/prs-cloudflare-deploy-gate.py:127-163 | Ends on every finite graph, cycles included; succeeds exactly when every reachable manifest exists, can be read, is inside the repository and names no place without a manifest, and then returns exactly their directories. |
| DependencyRoots.QueueDependencies | tools/prs-cloudflare-deploy-gate.py:150-161 | Queues exactly the local dependencies, and stops exactly when one has no manifest. |

## Left out

- InboxTheorems.NotModifiedReaderIsUpToDate: that an equal etag means an equal archive is a property of R2, which is not part of this model; it is a hypothesis where a reader asks by etag alone.
- BundleStorage.BundleStore.ExpiredCandidates: leaves the order of rows with equal deadlines open; the properties hold for every such order.
- AuthorizationServices.AuthorizationService.Cleanup: leaves the order of equally old rows open; the rate-limit statement of the same batch is `RateLimiting.RateLimiter.Cleanup`.
- PaginationTheorems.IndexRebuildsEveryPage: for a document that opens below a header of its own group the first page is not claimed; layouts of the original never have that shape.
- PngWriter.Output.WritePng: failures of the underlying writer and the capacity of vectors are not modelled.
- ContentAnchors.LostIsOvertaken: blocks without a table; the conditions for tables are in `TableAnchors`.
- TableAnchors.TableAnchorKeepsItsRowIff: tables with rows that lack cells, which the parser completes; their missing cells count as empty ones at the end of the text.
- PageContents.FittingDocumentIsShown: one direction, for layouts that can be judged line by line; the exact condition for every layout is `NothingIsLostIff`.
- DependencyRoots.FindRoots: the final sort of the directories; paths and manifests are nodes of a graph.
- Limits of D1 integers: revisions, sizes and inbox timestamps are unbounded; only the authorization timestamps are held to 32 bits.
- Bookkeeping columns that no decision reads: `updated_at`, `created_at` of bundles, `approved_at`, `last_used_at`, approval URLs.
- The plain subtraction at `crates/prs-markdown/src/pagination.rs:498` is modelled as the wrapping one of a release build.
- Machine-word limits of `usize`: indices and counts are natural numbers.
- Eager pagination mode, font scales and image resources of the reader: its settings are viewport, style and page limit.
- Documents, layouts, pages and the page cache are values, since the original owns and moves them; only the reader, the simple session, the stores, the limiter, the glyph cache and the PNG output change in place.
- Hit testing, link activation and reference resolution only select which of the modelled operations runs.
- Authentication of bearer tokens, status routes, credential listing and session revocation: single statements that the modelled state machine does not depend on.
- Bounded request bodies, HTTP routing, CORS, HTML, Access tokens, hashing and schema readiness.
- Text layout and wrapping, Markdown parsing, highlighting, image decoding and font rasterization: libraries and adapters around them.
- Uniqueness of heading anchors: a literal heading can collide with a generated suffix (`crates/prs-markdown/src/parse.rs:361-372`), so the first block with an anchor is taken.
- Device code, browser scripts, the command line and deployment.
