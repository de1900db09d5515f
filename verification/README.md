# Silicon DM: a Dafny model of its protocols

Silicon DM is a messaging service. This project models the parts of it whose correctness spans several functions,
several processes or many calls, and proves what they promise: the account feed and its long polls, the handoff of
deliveries to Ting, the re-key of account identities, the rendering of accounts in responses, bug reports, contract
lifecycle, three codecs and lexers, and three timed policies. `dafny verify dfyconfig.toml` checks all of it.

| file | component |
|---|---|
| `SyncFeed.dfy`, `SyncCursors.dfy`, `SyncPages.dfy` | the feed behind `GET /api/v1/sync`: the scan of one stream, the signed cursor, and paging while the stream moves |
| `SyncHub.dfy` | long polls over a lossy broadcast |
| `TingSocket.dfy`, `TingWorker.dfy` | the single publisher socket, and the leasing workers above it |
| `Rekey.dfy`, `Migration.dfy`, `JsonTrees.dfy` | the identity re-key script: its mapping file, its JSON rewriting, its runs under a ledger |
| `Render.dfy`, `RenderNames.dfy`, `Resolution.dfy` | the two walks that show accounts under their current ids, the member names they go by, and the lookups between them |
| `Reports.dfy`, `Contracts.dfy` | two state machines whose SQL is in the source |
| `MessageCodes.dfy`, `WebSocket.dfy` | base-36 codes, WebSocket frames |
| `Tokens.dfy`, `ShellHighlighter.dfy`, `ScriptHighlighter.dfy` | the lossless syntax highlighter |
| `DevicePolling.dfy`, `LookupBudget.dfy`, `Cutoff.dfy` | device sign-in polling, the lookup token bucket, the sign-out cutoff |
| `Results.dfy`, `Basics.dfy`, `Identifiers.dfy` | `Option`, `Result`, and what several files share |

Protocols are state machines: a `Step` is one atomic action of one party, `Next` is total (a step that cannot be taken
changes nothing), and the main theorems hold of `Run` over every sequence of steps. Code that updates objects or loops
is a class or a method, tied by its postconditions to the function or the property it implements.

## Where the code does not do what one might expect

- **A dropped listener delays long polls.** A waiting request has the signal of a commit ahead of it if and only if the
  signal was not lost with the database connection (`SyncHub.NoLostWakeup`). A lost one makes it wait out its time
  (`SyncHub.DisconnectDelaysAnswer`), and the next request finds the commit (`SyncHub.DroppedIsLateNotLost`).
- **Two rows on one sequence can be skipped.** The unique key of deliveries includes the organization. A page that
  succeeds passes over a row if and only if its limit falls between two rows of one sequence
  (`SyncFeed.SkipsExactlyAtItsLimit`; input: `SyncFeed.RepeatIsSkipped`). Elsewhere such rows ask for a reset.
- **Twenty lookups need not cover sixteen accounts.** The lookups count entries, and an account that is named and also
  linked from old ids has several. `Resolution.RepeatsCrowdOut` gives the input, and `Resolution.AskedInEveryOrder` says
  exactly when every missing account is asked for whatever the hash order.
- **A re-key can move an account to a retired id.** Sign-in refuses every id that is an old id in the ledger, and the
  script does not look whether a new target is one (`Migration.FenceCanBreak`; exactly then: `Migration.FenceKept`).
- **A re-key can make a dangling reference name an account**, exactly as `Migration.StrayReferences` says.
- **Rendering twice can differ from rendering once**, exactly when the accounts are not `Stable`
  (`Render.IdempotentExactlyWhenStable`). Returning early when no account is needed also skips the `legacy` mark
  (`Render.EarlyReturnIsRendering`).
- **The report budget is per half-open hour.** A run can put eleven reports into an hour that counts both of its ends
  (`Reports.ClosedHourCanHoldEleven`; exactly when: `Reports.ClosedHourBound`).
- **A WebSocket stream that ends inside a frame** is taken for a peer that is gone if and only if it does not end inside
  the extended length of an unmasked frame (`WebSocket.CutFrameIsGone`), which reads as an empty frame
  (`WebSocket.CutLengthReadsAsEmpty`).

## What is taken for granted

- `SyncCursors.Lawful`: JSON and base64 reading undo writing, base64url has no dot, and the sizes of the results. The
  keyed hash is any function.
- PostgreSQL: a row's sequence is assigned under the stream's lock, transactions holding one advisory lock are serial,
  and `now()` is the start of the transaction.
- `TingWorker` has one clock for the database and the workers, and timers that fire on time. `TingSocket` request ids and
  lease ids are fresh.
- The tokio broadcast channel keeps the last 4096 signals and reports a receiver that fell behind them. The database
  delivers notifications in commit order while the listener is connected.
- `Resolution.RenderAccounts` is given identity links that lead to account uuids.

## Model

| member | source | states |
|---|---|---|
| SyncFeed.SyncEvents | src/infrastructure/postgres/sync.rs:69-141 | answers what `Scan` says: exactly the next rows up to the limit or the bound, with the references the account may see now; a reset whenever a row in between or at the end has expired; an error only for a shown row without its message |
| SyncFeed.ReadRows | src/infrastructure/postgres/sync.rs:107-132 | the row loop yields the references of exactly the rows it was given, unbroken from the position, or the error `Scan` answers with |
| SyncFeed.Progress | src/infrastructure/postgres/sync.rs:107-135 | the run of rows from a position is unbroken up to its result and broken right after it |
| SyncFeed.SelectNext | src/infrastructure/postgres/sync.rs:79-104 | the query hands out the next row there is, and nothing exactly when no row is left below the bound |
| SyncFeed.ScanSequences | src/infrastructure/postgres/sync.rs:107-135 | the same loop over rows that may share a sequence: it succeeds exactly when the rows it uses are consecutive and reach the bound or the limit |
| SyncFeed.SkipsExactlyAtItsLimit | src/infrastructure/postgres/sync.rs:107-135 | a page that succeeds skips a row if and only if its limit falls between two rows of one sequence |
| SyncFeed.SomePageSkips | src/infrastructure/postgres/sync.rs:79-135 | some page size skips a row if and only if the first repeated sequence is among the first 101 rows |
| SyncFeed.RepeatIsSkipped | migrations/0003_delivery_presence_and_idempotency.sql:94 | two rows on sequence 1, and a page of one row after which the second is never read |
| SyncCursors.CursorRoundTrips | src/api/sync.rs:161-194 | reading back a cursor the server wrote comes down to the checks on its fields |
| SyncCursors.IssuedCursorsAreNeverInvalid | src/api/sync.rs:170-194 | an issued cursor is never called invalid: it is accepted in scope and before its deadline, and otherwise asks for a reset |
| SyncCursors.ForeignCursorsAskForReset | src/api/sync.rs:178-182 | a cursor signed under another key asks for a reset and is not called invalid |
| SyncCursors.AcceptedCursorsAreSigned | src/api/sync.rs:174-193 | an accepted text is a body under the right signature, in scope, unexpired, with its bounds in order |
| SyncPages.EveryRunIsExactlyOnce | src/api/sync.rs:94-142 | over every interleaving of appends, expiry, lost messages, membership changes, floor rises, restarts, clock ticks and requests, the pages since the client began cover its positions once each without a gap and show exactly what those rows were appended with, in strictly increasing order; the cursor satisfies 0 <= position <= upper <= head |
| SyncPages.ShownInOrder | src/api/sync.rs:120-125 | what a caught-up client was shown is ordered, without repeats, inside (start, position], and is exactly the rows it could see when each was scanned |
| SyncPages.ResetsInsteadOfSkipping | src/api/sync.rs:103-116 | a request opens exactly when its cursor is unexpired and not below the floor; otherwise it gets a reset, and never reads from anywhere but its position |
| SyncPages.PageSucceedsExactly | src/api/sync.rs:120-125 | a page succeeds exactly when every row it needs is there with its message |
| SyncPages.PageReads | src/api/sync.rs:117-141 | a successful page ends at its bound, or `limit` rows further with more to come, and its cursor carries its snapshot |
| SyncPages.RunCursorsAreNeverInvalid | src/api/sync.rs:126-141 | every cursor of a run survives the wire and is accepted until it expires |
| SyncPages.SnapshotStep | src/api/sync.rs:126-135 | a step leaves an open snapshot alone or moves it on under the same bound and deadline |
| SyncPages.SnapshotDrains | src/api/sync.rs:108-135 | while a snapshot is open its bound and deadline never change, and it closes within upper - position pages however much is appended |
| SyncHub.Hub.Subscribe | src/application/sync_hub.rs:31-33 | a receiver sees what is sent from now on |
| SyncHub.Hub.Publish | src/application/sync_hub.rs:36-38 | a signal goes to the end of the channel |
| SyncHub.Hub.WaitFor | src/application/sync_hub.rs:42-56 | `true` only if the account was signalled since the subscription or signals were dropped; `false` only if everything that came was received and none of it was for the account |
| SyncHub.AwaitPage | src/api/sync.rs:73-91 | the loop stops at the first page with something to say, or where the wait ended without a signal for the account since before that page's read |
| SyncHub.LongPoll | src/api/sync.rs:55-91 | a query out of bounds is refused; otherwise the answer is the page some turn reads from the query's own cursor, every page before it was empty, and an empty answer before the deadline means no signal for the account since before that page's read |
| SyncHub.NoLostWakeup | src/api/sync.rs:73-91 | in every interleaving of commits, notifications, reconnects, subscribe, read, receive and timeout, a commit for the account after a waiting request's read has its signal still ahead if and only if the connection did not drop it |
| SyncHub.TimeoutMeansUnsignalled | src/application/sync_hub.rs:48-55 | a request gives up only if no such commit was signalled: each is either still to be notified or was dropped, not both |
| SyncHub.SignalWakes | src/application/sync_hub.rs:48-55 | once such a commit is signalled, receiving wakes the request |
| SyncHub.DroppedIsLateNotLost | src/api/sync.rs:73-83 | the next request, going on from what the last answer covered, answers with a dropped commit at once |
| SyncHub.DisconnectDelaysAnswer | src/application/sync_hub.rs:78-102 | a run in which a lost connection makes a request wait out its time although its event was committed |
| TingSocket.Socket.NextJson | src/infrastructure/ting.rs:330-344 | passes over pongs, and over pings as long as each can be answered with its payload, up to the next application frame, and returns it; unreadable text is a protocol failure, and a transport failure means a bad frame, the end of the stream or a pong that could not be sent |
| TingSocket.Socket.SendOne | src/infrastructure/ting.rs:272-305 | on a connection with nothing outstanding: the request is written exactly once, or not at all exactly when its frame is too large; the outcome is what the frame it stopped at says of this id and this key; an acceptance or rejection answers this request before anything else is sent; and every outcome that keeps the connection leaves nothing outstanding |
| TingSocket.Serve | src/infrastructure/ting.rs:185-219 | however requests time out, are cancelled or meet unasked frames: whenever a request was written all earlier ones on the connection had been answered; every wanted request gets one reply, in order, justified by the log; only the last can be uncertain, and then the connection is given up |
| TingSocket.Run | src/infrastructure/ting.rs:165-238 | there is one connection for every peer whose frames greet and no other, the promise holds on each, and the delay before each reconnect is the one the failures so far call for, 0.8 to 30 seconds |
| TingSocket.Connect | src/infrastructure/ting.rs:240-270 | a peer is used if and only if it is reachable and the first application frame it sends in time, behind pings that can be answered, is a v1 ready frame; its connection then keeps the promise |
| TingSocket.BaseDelays | src/infrastructure/ting.rs:346-348 | the base delays are 1, 2, 4, 8, 16 and then 30 seconds |
| TingSocket.ReconnectDelayBounds | src/infrastructure/ting.rs:346-352 | a delay is within a fifth of its base, at most thirty seconds, and never shorter after more failures on the same draw |
| TingWorker.RetryDelayBounds | src/worker/ting.rs:257-260 | between one second and max(1 s, maximum), and never shorter after more failures |
| TingWorker.PublishesNeverOverlap | src/worker/ting.rs:160-194 | with any number of workers, crashes and expired leases, two publishes of one handoff never overlap, none runs into the last 500 ms of its lease, and the handoff of a running one is its own, unaccepted and not discarded |
| TingWorker.PublishedOnlyIfAuthorized | src/worker/ting.rs:183-194 | over any run, nothing is published or accepted without a check of its own that found the recipient a participant and the lease its own |
| TingWorker.AcceptedUnderOwnBody | src/infrastructure/postgres/ting.rs:240-269 | a handoff is recorded accepted only under an id Ting gave its own body, and never together with being discarded |
| TingWorker.NothingIsUndone | src/infrastructure/postgres/ting.rs:101-186 | a sealed body, an acceptance and a discarding survive every further step |
| TingWorker.EveryFailureIsPutOff | src/worker/ting.rs:184-227 | whatever step makes an attempt fail, a refusal, a failed check or a passed deadline, puts the next one off by 1 s to max(1 s, maximum) |
| TingWorker.FailureStaysPending | src/worker/ting.rs:225-235 | whenever a failure is recorded, however much has happened since: while the lease lasts the handoff is left pending, free, its body kept, and due when the failure said; a stale record changes nothing |
| TingWorker.SuccessIsRecordedInTime | src/infrastructure/postgres/ting.rs:248-268 | an acceptance is recorded exactly while its lease lasts; a stale one changes nothing |
| TingWorker.UndisturbedTurnDelivers | src/worker/ting.rs:168-244 | the steps of a turn nobody gets in the way of leave a free, due handoff accepted under Ting's id, or pending with its retry time if Ting refuses |
| TingWorker.TakeKeeps | src/infrastructure/postgres/ting.rs:107-162 | taking a free row takes it from nobody who may still publish or record |
| TingWorker.ReleaseKeeps | src/infrastructure/postgres/ting.rs:248-295 | recording an outcome keeps the invariant of all workers |
| TingWorker.OverForGood | src/worker/ting.rs:167-245 | an attempt that is over never publishes or records again |
| TingWorker.Database.ProcessOnce | src/worker/ting.rs:150-247 | a batch is one attempt after the other, all of them claiming a row but perhaps the last, at most min(batch, 100); it counts the claims and keeps the invariant of all workers; every claim's attempt is over and the last one never held a row; a lease of 500 ms or less is refused without a change; without a publisher it discards and counts |
| TingWorker.Database.Attempts | src/worker/ting.rs:167-245 | the loop: the attempts that claimed are all over, and it stops at the first that found nothing |
| TingWorker.Database.Attempt | src/worker/ting.rs:168-244 | one turn takes exactly the steps of `Script` between those of other workers, and ends over if it claimed a row and otherwise never held one |
| TingWorker.Database.DiscardAll | src/infrastructure/postgres/ting.rs:218-234 | of the rows found, up to 500, every one nobody holds is discarded, nothing else changes, and the count is the number of rows newly discarded |
| TingWorker.Database.Obtain | src/infrastructure/postgres/ting.rs:101-185 | a claim discards what cannot be sent and takes the row it finds; its attempt holds that row, or none and stays startable |
| TingWorker.Database.Publish | src/worker/ting.rs:183-235 | from a claim to its end, whatever others do in between: the attempt is over; it succeeded only if Ting accepted and the recipient was a participant, and otherwise failed with a bounded delay; and while its lease lasts the handoff is accepted under Ting's id or pending until then |
| TingWorker.Database.Reach | src/worker/ting.rs:183-194 | a claim comes to a publish, which starts only for a participant, or to a failure with a bounded delay |
| TingWorker.Database.LaunchPublish | src/worker/ting.rs:184-194 | publishing starts exactly when the check passed and the deadline has not |
| TingWorker.Database.Store | src/worker/ting.rs:195-243 | the attempt is over, and if its lease lasts its handoff is settled as the outcome says |
| Rekey.ReadMapping | scripts/accounts_uuid128.py:21-47 | accepts exactly the acceptable files, and then returns an injective, unchained mapping of valid sources to canonical UUIDv4s that records every row |
| Rekey.RewriteKeepsSkeleton | scripts/accounts_uuid128.py:54-69 | shape and everything outside identity positions are preserved |
| Rekey.RewriteMovesIdentities | scripts/accounts_uuid128.py:54-69 | the identities afterwards are exactly the images of those before |
| Rekey.NoSourceRemains | scripts/accounts_uuid128.py:54-69 | no source id is left in an identity position |
| Rekey.RewriteComposes | scripts/accounts_uuid128.py:54-69 | rewriting twice is rewriting once with the composition |
| Rekey.RewriteIsIdempotent | scripts/accounts_uuid128.py:54-69 | rewriting again with the same mapping changes nothing |
| Rekey.InverseRestores | scripts/accounts_uuid128.py:54-69 | the inverse mapping restores the tree if and only if it held no target id |
| Migration.RunMergesNothing | scripts/accounts_uuid128.py:189-205 | an accepted run's renaming is injective on the existing accounts |
| Migration.AccountsKept | scripts/accounts_uuid128.py:225-229 | every account keeps its record under its new key and there are no others |
| Migration.EverythingSettled | scripts/accounts_uuid128.py:83-96 | afterwards every account key is a canonical UUID or an allowed placeholder, and no source id is left in accounts, columns or documents |
| Migration.ReferencesFollow | scripts/accounts_uuid128.py:225-229 | a column entry that named an account names the same account afterwards, and entries that named different accounts still do |
| Migration.StrayReferences | scripts/accounts_uuid128.py:225-229 | an entry that named no account comes to name one if and only if it is renamed to an existing account or is where one is moved to |
| Migration.LedgerExtends | scripts/accounts_uuid128.py:189-195 | a run records its mapping, changes no earlier entry and shares no target |
| Migration.RepeatChangesNothing | scripts/accounts_uuid128.py:189-263 | the same mapping is accepted again and changes nothing at all |
| Migration.FenceKept | src/application/accounts.rs:80-91 | a run keeps live accounts out of the fence of retired ids if and only if none it renames moves to a retired id |
| Migration.FenceCanBreak | scripts/accounts_uuid128.py:189-205 | after a run that retired an id, reached from nothing but one account, a valid and accepted run that moves an account there |
| Migration.LedgerOverRuns | scripts/accounts_uuid128.py:189-195 | over any sequence of runs and new accounts the ledger stays injective and keeps every entry |
| Migration.AccountsOverRuns | scripts/accounts_uuid128.py:173-265 | over any such sequence no account is lost, changed or merged |
| Migration.Database.Refusal | scripts/accounts_uuid128.py:189-205 | a mapping passes the checks exactly if `Accepts` holds, no account is then merged, and a refusal for coverage counts exactly the accounts omitted |
| Migration.CheckLedger | scripts/accounts_uuid128.py:191-193 | the loop finds a conflict exactly if some mapped id is in the ledger under another target or kind |
| Migration.CheckTargets | scripts/accounts_uuid128.py:194-195 | the loop finds a taken target exactly if the ledger gave it to an id that is not mapped |
| Migration.CountMissing | scripts/accounts_uuid128.py:83-96 | the count is the number of accounts neither mapped nor settled, zero exactly if the mapping covers all |
| Migration.CheckAccounts | scripts/accounts_uuid128.py:201-205 | the loop passes exactly if every kind agrees and no target exists but by an earlier run of the same entry |
| Migration.Database.Migrate | scripts/accounts_uuid128.py:173-265 | applies an accepted mapping to accounts, columns, documents and ledger, and leaves everything as it was on a refusal or a dry run |
| Migration.Database.UpdateColumns | scripts/accounts_uuid128.py:225-229 | every identity column is renamed and the script's later check for leftovers always passes |
| Migration.Database.UpdateDocuments | scripts/accounts_uuid128.py:230-240 | every structured column is rewritten |
| Migration.RenameRows | scripts/accounts_uuid128.py:225-229 | renaming key by key is the renaming of the whole table |
| Render.CollectKeys | src/api/render.rs:83-88 | the first walk gathers exactly the keys the response names |
| Render.SlotLookupsAreNames | src/api/render.rs:157-221 | no slot looks up what an earlier slot wrote |
| Render.RenderVisit | src/api/render.rs:234-270 | the second walk, which changes the tree while walking it, computes `Render` and looks up only keys the first walk gathers |
| Render.RenderMembers | src/api/render.rs:246-266 | the same of one object, whose slots are rewritten before its members are walked |
| Resolution.RenderAccounts | src/api/render.rs:82-134 | renders with what was resolved for the named keys: exactly the cached accounts and the answers to the entries asked for, each also under the old ids linked to it; a response that wants no uuid is returned as it is |
| Resolution.AskDirectory | src/api/render.rs:105-126 | cached accounts are kept, the first twenty missing entries are asked for, named uuids first and old ids' targets after them in any order and with repeats, and what is added is exactly what the directory or the record of a deleted account has |
| Resolution.LookUp | src/api/render.rs:97-132 | what is held afterwards is what was cached or answered for the uuids a response names and the targets of its old ids |
| Resolution.AskedInEveryOrder | src/api/render.rs:97-111 | every missing account is asked for in every order of the entries if and only if the named ones are at most twenty and no account known only by old ids can be crowded out |
| Resolution.SomeOrderMisses | src/api/render.rs:97-111 | otherwise an order that leaves one out |
| Resolution.RepeatsCrowdOut | src/api/render.rs:97-111 | fifteen named accounts and six old ids: sixteen accounts missing and one of them can be left out |
| Render.RenderNeedsOnlyNamed | src/api/render.rs:146-222 | the result depends only on the accounts of named keys |
| Render.RenderTouchesOnlySlots | src/api/render.rs:224-270 | on the classified tree, user content and every value outside a slot are unchanged; by name: `RenderNames.UserContentIsUntouched` |
| RenderNames.UserContentIsUntouched | src/api/render.rs:24-32 | what an object holds under one of the seven user-content names is sent as it is, and what it holds under a name the contract does not know is rendered in turn, for responses keyed by their JSON names |
| RenderNames.KeysAreThoseNamed | src/api/render.rs:234-270 | the keys gathered are those in the members the source names, outside the user content it names |
| RenderNames.ReferenceByName | src/api/render.rs:224-231 | the test for a reference, which counts members, is the same on names and on classes |
| RenderNames.ParseLosesNothing | src/api/render.rs:224-270 | classifying the names of a response and writing them out again gives the response back |
| RenderNames.NameIsKept | src/api/render.rs:24-32 | no two member names fall into one class |
| RenderNames.RenderKeepsNames | src/api/render.rs:157-221 | rendering adds no member under a name of another class |
| RenderNames.NothingToRender | src/api/render.rs:224-270 | without accounts and references a response is sent as it came |
| Render.PlainIdsAreStable | src/domain/account.rs:43-45 | accounts are stable when display ids hold no `@` and one that is also a lookup key belongs to the same account |
| Render.RenderTwice | src/api/render.rs:157-221 | with stable accounts rendering is idempotent |
| Render.IdempotentExactlyWhenStable | src/api/render.rs:157-221 | rendering is idempotent on all responses if and only if the accounts are stable |
| Render.EarlyReturnIsRendering | src/api/render.rs:102-104 | leaving a response alone is rendering it with no accounts exactly when it holds no reference |
| Reports.HourlyBudget | src/reporting.rs:72-99 | in every run, whatever the transaction times, no half-open hour holds more than ten reports of one actor and no actor has two under one key |
| Reports.AdmittedKeepsWindow | src/reporting.rs:88-97 | admitting a report keeps every hour within budget even when older and newer transactions commit out of order |
| Reports.ClosedHourBound | src/reporting.rs:88-92 | an hour with both ends is within budget if and only if what was created at its first instant fits in beside the rest |
| Reports.ClosedHourCanHoldEleven | src/reporting.rs:88-92 | a run from an empty table: ten submissions at one instant and one exactly an hour later are eleven in a closed hour |
| Reports.ReportsAreFixed | src/reporting.rs:78-99 | a report keeps its id, owner, key, payload and time for good, and `sent` and `simulated` are final |
| Reports.BackoffBounds | src/reporting.rs:147-147 | one minute doubling to an hour |
| Reports.Table.CountSince | src/reporting.rs:88-89 | the number of the actor's reports after an instant |
| Reports.Table.Submit | src/reporting.rs:72-103 | a known key returns its report and creates nothing, other content under it conflicts, an eleventh report is refused, and anything else adds one row |
| Reports.Table.DeliverOne | src/reporting.rs:110-152 | of the due rows nobody has locked, the one due longest is sent or put off; nothing else changes |
| Contracts.SunsetIsPermanent | src/api/contracts.rs:100-121 | a sunset contract never changes again |
| Contracts.CounterCountsAdmissions | src/api/contracts.rs:113-116 | the counter grows by exactly the admitted requests |
| Contracts.SunsetExactlyWhenIdle | src/worker/ting.rs:129-131 | a contract is sunset if and only if a sweep or a request of its own meets it deprecated and a week idle |
| Contracts.BusyIsNeverSunset | src/api/contracts.rs:109-113 | a contract requested at gaps under seven days is never sunset, and every one of those requests is admitted |
| Contracts.Registry.Admit | src/api/contracts.rs:100-117 | `false` exactly for a missing or sunset contract |
| Contracts.Registry.Sweep | src/api/contracts.rs:119-121 | every deprecated contract a week idle is sunset, and nothing else changes |
| MessageCodes.MessageCode | crates/protocol/src/lib.rs:217-232 | every i64 from one up has a code, the canonical one of its number, of at most thirteen characters |
| MessageCodes.LittleDigits | crates/protocol/src/lib.rs:220-226 | the division loop yields the digits of the number without a leading zero |
| MessageCodes.Pad | crates/protocol/src/lib.rs:227-229 | padding to three digits changes no value |
| MessageCodes.Accumulate | crates/protocol/src/lib.rs:239-247 | the number of a digit string, or nothing exactly when it is none or leaves 64 bits |
| MessageCodes.MessageSequence | crates/protocol/src/lib.rs:235-250 | accepts exactly the canonical codes below i64::MAX, without overflow |
| MessageCodes.CodeOrderIsNumeric | crates/protocol/src/lib.rs:215-250 | length then character order is numeric order, and canonical codes are unique |
| MessageCodes.CodeLength | crates/protocol/src/lib.rs:236-238 | no canonical code of an i64 is longer than thirteen characters |
| MessageCodes.BundleCode | crates/protocol/src/lib.rs:282-287 | the same codes shifted by one, never "000", not for i64::MAX |
| MessageCodes.BundleSequence | crates/protocol/src/lib.rs:289-292 | accepts exactly those |
| MessageCodes.RoundTrips | crates/protocol/src/lib.rs:217-292 | decoding undoes encoding and encoding undoes decoding, for messages and bundles |
| WebSocket.PackRoundTrips | scripts/dev_ting_stub.py:233-236 | a length is read back from its bytes in network order |
| WebSocket.MaskAt | scripts/dev_ting_stub.py:241-241 | octet i is masked with key octet i modulo 4 |
| WebSocket.MaskUndoes | scripts/dev_ting_stub.py:241-241 | masking undoes itself |
| WebSocket.FrameRoundTrips | scripts/dev_ting_stub.py:228-241 | every well-formed frame of section 5.2 of RFC 6455, in any length form, masked or not, is read back and nothing after it is touched |
| WebSocket.MessageRoundTrips | scripts/dev_ting_stub.py:224-251 | for any masks, any fragmentation and any interleaved pings and pongs the message comes out whole, every ping is answered with its payload, and the next message is left alone |
| WebSocket.SentIsRead | scripts/dev_ting_stub.py:253-262 | what `send_frame` writes is read back, for every payload under 2^64 bytes |
| WebSocket.CutFrameIsGone | scripts/dev_ting_stub.py:215-241 | a stream cut anywhere inside a well-formed frame reads as a peer that is gone if and only if the cut is not inside the extended length of an unmasked frame |
| WebSocket.CutLengthReadsAsEmpty | scripts/dev_ting_stub.py:233-240 | what a stream cut inside an extended length reads as |
| WebSocket.Stream.ReadExact | scripts/dev_ting_stub.py:215-222 | exactly the bytes asked for however they come in, or nothing and the stream used up |
| WebSocket.Stream.NextLength | scripts/dev_ting_stub.py:232-236 | the announced length, read on if extended |
| WebSocket.Stream.NextBody | scripts/dev_ting_stub.py:237-241 | the payload, unmasked |
| WebSocket.Stream.NextFrame | scripts/dev_ting_stub.py:228-241 | one frame as `ReadFrame` defines it |
| WebSocket.Stream.ReadMessage | scripts/dev_ting_stub.py:224-251 | the message and the pongs that `ReadMessageFrom` defines, which `MessageRoundTrips` ties to the standard |
| WebSocket.Stream.SendFrame | scripts/dev_ting_stub.py:253-262 | writes one unmasked frame with the shortest length |
| Tokens.Out.Push | web/lib/highlight.ts:41-50 | the text grows by the value under its kind, no token is empty and neighbours differ |
| ShellHighlighter.ShellVariable | web/lib/highlight.ts:60-68 | a variable ends within the code, at or after its dollar |
| ShellHighlighter.HeredocBody | web/lib/highlight.ts:84-105 | a heredoc body is shown whole |
| ShellHighlighter.HeredocBodies | web/lib/highlight.ts:82-107 | and so are all a line opened, in order |
| ShellHighlighter.DoubleQuoted | web/lib/highlight.ts:144-169 | text in double quotes is shown whole, with its variables and escapes |
| ShellHighlighter.Quoted | web/lib/highlight.ts:129-187 | everything that starts with a quote or a dollar is shown whole |
| ShellHighlighter.Word | web/lib/highlight.ts:219-246 | a word is shown whole, whatever it is taken for |
| ShellHighlighter.HighlightShell | web/lib/highlight.ts:70-248 | ends on every input, and what it emits spells the input in tidy tokens |
| ScriptHighlighter.Template | web/lib/highlight.ts:345-370 | a template literal is shown whole, its expressions highlighted in turn |
| ScriptHighlighter.HighlightScript | web/lib/highlight.ts:327-396 | ends on every input, shows exactly the code it passes, and stops inside a template only at a closing brace |
| ScriptHighlighter.HighlightFile | web/lib/highlight.ts:327-396 | a whole file is shown, in tidy tokens |
| DevicePolling.WaitForDevice | crates/client/src/accounts.rs:353-380 | ends whatever the peer does; every poll is scheduled exactly the interval plus five seconds per slow_down so far after the client was ready, within the lifetime (at most 600 s); polls and slow_downs together fit the lifetime; and it gives up only when the next poll would come too late |
| DevicePolling.NeededFormula | crates/client/src/accounts.rs:358-371 | n polls with k slow_downs need n * interval + 5 * k * (k - 1) / 2 seconds |
| DevicePolling.GapIsLongEnough | crates/client/src/accounts.rs:360-372 | each gap is at least the initial interval plus 5 s per earlier slow_down (section 3.5 of RFC 8628) |
| DevicePolling.PollKeeps | crates/client/src/accounts.rs:362-372 | one more poll on time keeps the schedule and the lifetime |
| LookupBudget.WindowBound | src/infrastructure/accounts.rs:432-447 | after any calls, any T seconds grant at most 550 + 550 * T / 60 lookups |
| LookupBudget.BalanceStays | src/infrastructure/accounts.rs:432-447 | the balance stays in [0, 550] |
| LookupBudget.GrantsAreCovered | src/infrastructure/accounts.rs:434-445 | what is granted was there or has flowed in since |
| LookupBudget.GrantedAgainSoon | src/infrastructure/accounts.rs:434-446 | sixty 550ths of a second after a call the next is granted |
| LookupBudget.Bucket.Spend | src/infrastructure/accounts.rs:432-447 | the locked update, and that it stays balanced |
| Cutoff.OrderIsCertain | src/application/accounts.rs:391-399 | for a token issued at t and stamped with its second: Before implies t < cutoff, After implies t > cutoff, and SameSecond is exactly the cutoff's own second |
| Cutoff.SameSecondIsUndecided | src/application/accounts.rs:385-388 | in that second the stamp cannot tell the two sides apart |
| Cutoff.CutoffOnlyRises | src/infrastructure/postgres/accounts.rs:408-425 | a cutoff never moves back and covers every revocation |
| Cutoff.RefusedForever | src/application/accounts.rs:106-128 | a token once Before is refused through every later revocation |
| Cutoff.RefusedExactlyWhenOld | src/application/accounts.rs:106-128 | a live sign-in newer than the cutoff is never refused and one a second older always is |
| Cutoff.Decisions.SignInLive | src/infrastructure/accounts.rs:562-590 | an answer is the one kept for the same token and cutoff if that is under thirty minutes old, and otherwise a new one, asked for outside the lock while others store theirs, and kept; a failure to ask fails and stores nothing; no answer for another cutoff is ever used |

## Left out

- SyncFeed.SyncEvents: an event names its message by sequence number; that its code says the same is `MessageCodes`.
- SyncPages.EveryRunIsExactlyOnce: in its runs, re-linking identities raises the head and the floor above every inherited row; one that leaves the head alone can put two rows on one sequence, where the property fails exactly as `SyncFeed.SkipsExactlyAtItsLimit` says.
- TingSocket.Serve: the checks of `send` on a request before it reaches the driver (body size, the key in the body) are not modelled; a request carries its key.
- TingWorker.NothingIsUndone: a worker that dies between Ting's acceptance and its record makes the handoff be sent again; nothing is claimed about Ting seeing a body once.
- TingWorker.Database.ProcessOnce: a failing database, which ends the batch early and is a crash step in the runs of `TingWorker.PublishesNeverOverlap`; re-enrolling a recipient that is not registered.
- Migration.Database.Migrate: deleting expired rows, retiring outgoing deliveries, resealing stored proofs and restoring conversation seals.
- Resolution.RenderAccounts: the reduction of conversations to summaries, the translation of messages and conversation ids before it, and failures of the store.
- Reports.Table.Submit: the validation of a report's fields and of its pull-request link.
- WebSocket.Stream.ReadMessage: decoding the bytes as UTF-8.
- ShellHighlighter.HighlightShell: which words are keywords, options or numbers; the theorem holds for any word lists. The nesting of `$(...)`, which the scanner counts without using.
- ScriptHighlighter.HighlightScript: what the regular expressions match; the theorem holds for any that match within the text.
- DevicePolling.WaitForDevice: intervals so large that adding them to a clock overflows.
- LookupBudget.WindowBound: rounding of floating-point numbers.
- Cutoff.Decisions.SignInLive: that the cache key is a hash, and that it leaves out the account, which the token determines.
- The highlighters for JSON, Rust, HTTP, TOML, HTML, CSV, YAML and diffs; the HTTP one does not preserve its text.
- Presence, messages, groups, files, the command line, the website, configuration and deployment.
- Cryptography, HTTP and the database itself.
