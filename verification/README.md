# Verified model of the LLM serving pack's stateful core

Nebari's LLM serving pack gives people API keys for language models, routes their requests through a gateway, and shows what
they used and what it cost. Its hard logic is in small state machines and list functions in Go and TypeScript.
This project models them in Dafny and proves what they keep, over every interleaving, failure and input.

`dafny verify dfyconfig.toml` checks everything.

| files | what they model |
|---|---|
| ClientIds, KeyStore, KeyManager | API keys in two Kubernetes objects (Secret and ConfigMap), each written by its own compare-and-swap; create and revoke attempts interleave freely and may stop anywhere |
| ModelAccess, FleetKeys, StringOrder | the operator's rendering of allow-lists and pooled credentials from those objects, and all models' objects together |
| OwnerLookup, LookupAnswers, LookupCode | the key-owner cache shared by concurrent lookups |
| CustomerSync | attaching keys to their creators' billing customers |
| JwksValidator, JwksAnswers, JwksRefresh, JwksCode | fetching signing keys: first fetch, slow poll, refresh, unknown key IDs |
| StreamHub, StreamOffers, HubCode, StreamReader, StreamChanges, StreamDelivery, LiveRows | the live traffic stream: one poller, many readers, bounded queues, drop counts, and the browser's list |
| Receipts, ReceiptScan, ReceiptPaging, TokenLookup | reading request events into receipts, page by page and batch by batch |
| Totals, UsageCounting, UsageCells, Spend | counts, charts and spend from grouped meter rows |
| EndpointRemoval, HeaderPolicy, HeaderTargets | the operator's ordered removal of an endpoint, and its header policy as a reconcile fixed point |
| Csv | the CSV printer with a reader for section 2 of RFC 4180 |

How it is written: a protocol is a `State`, a type of actions and a total function `Apply`; `Run` folds any
sequence of actions, and the main results are about `Run` of every sequence. Code that changes fields is a class
whose methods are proved to take exactly the model's steps (`Valid()` says that the fields are `Run(start,
trace)`), so what is proved of all runs holds of the code. Calls into Kubernetes, OpenMeter and the identity
provider are nondeterministic or come from a schedule given in advance: they may fail, and a failed write may have
been applied. An error a method reports is traced to a failed call, a lost race or unreadable input, so that failing is
no way out. What a step does is also said without the functions that compute it (`...IsExact`, `...GoesOn`, `...Says`), so
that a change of a branch or a constant shows. SHA-256, random suffixes, error texts of the API server and Go's `%v`
and `%q` are parameters: the results that need the truncated hash to be injective assume it only on the user and model
pairs that occur.

Where the code does not do what its own text says, the model follows the code:

- Two different user names can sanitize to one key prefix, although the comment says they get unique keys
  (`ClientIds.SanitizedCollidesExactly` says exactly when). Client IDs still differ, since they carry a hash of the pair.
- Errors are told apart by text, so an unknown key is retried as a conflict exactly when its client ID, as quoted, or
  the model's name contains "conflict" or "409" (`KeyManager.UnknownKeyCanLookLikeConflict`). A model so named has every
  failed call retried, and a lost race for any other model is retried exactly when the API server's own text says
  either word (`KeyManager.UpdateErrorIsConflictExactly`).
- A token can be refused for good although its key is in the set by then: the request looks, a fetch ends well, and
  the request loads that fetch's mark (`JwksValidator.RefusedThoughPresent`; `UnknownKidExactly` is the exact condition).
- An hourly refresh goes without a fetch exactly when it joins an unknown-key call that is about to end or that the
  cooldown then refuses (`JwksRefresh.RefreshIsLostExactly`; `RefreshIsLost` is such a run from the start).
- A lookup that waited for a read is told its key is unknown exactly when that latest read failed and no earlier one
  brought the key (`OwnerLookup.RecordedKeyIsAnswered`; `FailedReadHidesKey` is such a run from the start).
- The stream reader loses a missed count exactly when filling in the receipts fails after the count was made, and never
  counts its span again (`StreamReader.Reader.Read`, `LosesCount`; `LosesFirstCount` is such a reader). A count a read
  does return reaches every stream that is ready (`StreamHub.CountReachesReadyStreamsExactly`).
- Scrolling the receipt list gets every match exactly when no millisecond traps it, or the first that does holds the
  last page (`ReceiptPaging.LoadsAllExactly`). A trap is a millisecond inside which a scan from its first event stops
  before the window does. Behind the first trap the list ends short if it is a full page and more matches follow
  (`EndsShortExactly`), and loads the same page for ever if it is the scan's cap (`NeverEndsExactly`);
  `CrowdedMillisecondEndsShort` and `CrowdedMillisecondNeverEnds` are such windows.
- Traffic's count answers for whole seconds: it is right for all events exactly when both ends are whole seconds, the
  window is empty or nothing can match (`UsageCounting.CountIsRightExactly`).
- If somebody else's policy has the reserved header-policy name, passes undo one another (`HeaderPolicy.OnePassIsEnoughExactly`).
- Plain policy values that print alike, such as 8 and "8", are never corrected (`HeaderPolicy.LookalikeStays`): every
  pass stores the desired policy exactly when plain values print like no other value (`PassStoresDesiredExactly`).

## Model

| member | source | states |
|---|---|---|
| ClientIds.SanitizeUsernameForKey | key-manager/internal/secrets/manager.go:93-119 | The two-pass builder gives the sanitized name: legal names unchanged, others with @ as -at-, other bytes as -, and a hash. |
| ClientIds.PlainNamesAreKept | key-manager/internal/secrets/manager.go:93-119 | A name of letters, digits and - . _ is kept, and any other gets its digest behind. |
| ClientIds.BytesAreReplaced | key-manager/internal/secrets/manager.go:104-118 | Byte by byte an @ becomes -at- and any other byte not allowed becomes -. |
| ClientIds.ClientIdIsDataKey | key-manager/internal/secrets/manager.go:269-286 | Every minted client ID is a legal Secret and ConfigMap data key, whatever bytes user and model hold. |
| ClientIds.PairInjective | key-manager/internal/secrets/manager.go:164-174 | User and model joined by NUL are told apart whenever the models hold no NUL. |
| ClientIds.ClientIdIdentifiesPair | key-manager/internal/secrets/manager.go:159-174 | Equal client IDs mean the same user and model, if the hash does not collide on the two pairs. |
| ClientIds.SanitizedCollides | key-manager/internal/secrets/manager.go:82-92 | For every hash, two concrete different user names with one sanitized form. |
| ClientIds.SanitizedCollidesExactly | key-manager/internal/secrets/manager.go:82-92 | Two different names whose hashes differ share a sanitized form if and only if one of them is literally the sanitized form of the other. |
| KeyStore.InvRun | key-manager/internal/secrets/manager.go:223-335 | Every reachable state keeps the protocol invariant: versions only grow and attempts hold true snapshots. |
| KeyStore.SecretStep | key-manager/internal/secrets/manager.go:303-318 | One step adds, removes or keeps a Secret entry; it never overwrites a credential. |
| KeyStore.MetaStepKeepsOwner | key-manager/internal/secrets/manager.go:320-332 | An entry that stays keeps its owner and only ever turns into a tombstone. |
| KeyStore.MetaStepDropsExpired | key-manager/internal/secrets/manager.go:440-465 | An entry leaves the ConfigMap only as a tombstone expired by its whole-second timestamp. |
| KeyStore.CredentialNeverReplaced | key-manager/internal/secrets/manager.go:242-335 | Over every run, even with repeated suffixes, a credential present at two times without a gap is the same one. |
| KeyStore.OwnerNeverChanges | key-manager/internal/secrets/manager.go:242-335 | Over every run, a retained entry's owner never changes, even with repeated suffixes. |
| KeyStore.TombstoneKeptNinetyDays | key-manager/internal/secrets/manager.go:440-465 | A tombstone is dropped only when more than 90 real days old, despite truncation to seconds. |
| KeyStore.FreshRun | key-manager/internal/secrets/manager.go:223-335 | Without repeated suffixes, every reachable state keeps: removed IDs are out of the Secret, tombstones stay tombstones, no ID is minted twice. |
| KeyStore.RevocationIsFinal | key-manager/internal/secrets/manager.go:398-470 | Once tombstoned, an ID is never in the Secret and never listed live again, across all conflict retries. |
| KeyStore.OrphanWasNeverReturned | key-manager/internal/secrets/manager.go:303-335 | A Secret entry without metadata belongs to a key no caller was given. |
| KeyStore.OwnerIsForever | key-manager/internal/secrets/manager.go:374-395 | An ID seen with metadata twice has one owner, even if dropped in between. |
| KeyManager.Cluster.UpdateSecret | key-manager/internal/secrets/manager.go:303-318 | The Secret's compare-and-swap: applied exactly when the version read is still current. |
| KeyManager.Cluster.UpdateConfigMap | key-manager/internal/secrets/manager.go:320-332 | The ConfigMap's compare-and-swap, likewise. |
| KeyManager.DrawClientId | key-manager/internal/secrets/manager.go:269-292 | The draw-again loop returns an ID in neither object read, or every suffix offered was taken. |
| KeyManager.ReadBoth | key-manager/internal/secrets/manager.go:202-221 | The two reads an attempt starts with; the only errors are those of the two calls. |
| KeyManager.WriteKey | key-manager/internal/secrets/manager.go:303-335 | Success means this very key was put into the Secret under this ID, in the version read, and its metadata (creator, description, whole second, model, namespace) into the ConfigMap; an error is a lost race or a failed call, in the text the code builds, and says whether the key is stored by then. |
| KeyManager.WriteInfo | key-manager/internal/secrets/manager.go:320-332 | The ConfigMap half of a create: exactly the metadata is put in, in one step, or the update lost a race or failed. |
| KeyManager.CreateKeyOnce | key-manager/internal/secrets/manager.go:242-335 | One attempt with others' steps between any two calls: success means exactly this credential and its metadata were written; an error means a failed call, an object moved between its read and its write, or every ID drawn was in an object read. Undisturbed it succeeds exactly when an ID drawn is free, and changes nothing else. |
| KeyManager.CreateKey | key-manager/internal/secrets/manager.go:223-240 | Another attempt exactly after a conflict, at most three, and every error has one of the reasons of an attempt; an empty user name changes nothing. Undisturbed with a free ID drawn, the first attempt succeeds and both objects hold the new key and nothing else new. |
| KeyManager.DropExpired | key-manager/internal/secrets/manager.go:440-452 | The purge loop keeps exactly the entries not expired. |
| KeyManager.RevokedDataIsPurged | key-manager/internal/secrets/manager.go:440-465 | The data a revoke writes: this key's tombstone, and every other entry as it was but the tombstones more than ninety days old. |
| KeyManager.WriteTombstone | key-manager/internal/secrets/manager.go:440-470 | Success means the ConfigMap read now holds this key's tombstone, with the owner read and the time taken, and lacks exactly the expired ones. |
| KeyManager.RemoveKey | key-manager/internal/secrets/manager.go:425-470 | A revoke's steps in order: the credential taken out of the Secret read, then the tombstone's time, then the ConfigMap's update; an error is a lost race or a failed call, after the credential is gone unless it was the Secret's. |
| KeyManager.RevokeKeyOnce | key-manager/internal/secrets/manager.go:413-470 | One attempt: success means it took the credential out of the Secret and wrote the tombstone; an error means a failed call, an ID not in the Secret it read, or an object that moved between its read and its write. Undisturbed it succeeds exactly when the ID is in the Secret. |
| KeyManager.RevokeKey | key-manager/internal/secrets/manager.go:398-411 | Another attempt exactly after a conflict, at most three, and every error has one of the reasons of an attempt; for a model named like a conflict all three are made. Undisturbed, a key in the Secret is revoked at the first attempt, and an unknown one is answered as not found. |
| KeyManager.UnknownKeyCanLookLikeConflict | key-manager/internal/secrets/manager.go:508-514 | An unknown key is taken for a conflict if and only if its quoted ID or the model name contains "conflict" or "409". |
| KeyManager.UpdateErrorIsConflictExactly | key-manager/internal/secrets/manager.go:508-514 | A failed update is taken for a conflict if and only if its cause or the model name contains either word. |
| ModelAccess.MinterOf | key-manager/internal/secrets/manager.go:269-292 | Every reachable Secret entry is the client ID of a user for that very model, and a legal data key. |
| ModelAccess.SecretsDisjoint | key-manager/internal/secrets/manager.go:159-174 | Different models' Secrets share no client ID, even at different times of a run. |
| ModelAccess.ClientIDsFromSecret | operator/internal/controller/reconcilers/auth.go:73-83 | The allow-list source is the Secret's IDs, sorted; no Secret gives none. |
| ModelAccess.ApiKeySecretNamesWith | operator/internal/controller/apikeys.go:71-89 | Every managed api-keys Secret's name and always the model's own, sorted without repeats. |
| ModelAccess.PermitsExactlyListed | operator/internal/controller/reconcilers/auth.go:202-228 | The authorization built lets exactly the listed client IDs pass, and denies all when there are none. |
| ModelAccess.AuthorizationIsOneRule | operator/internal/controller/reconcilers/auth.go:202-228 | It denies by default and has one rule, on the client ID header, exactly when there is anybody to allow. |
| ModelAccess.KeyReachesOnlyItsModel | operator/internal/controller/reconcilers/auth.go:136-228 | A key authenticated through copies of the Secrets, each read at a time of its own, passes a model's allow-list, older or newer, only if it was minted for that model. |
| ModelAccess.PoolingHidesNothing | operator/internal/controller/reconcilers/auth.go:136-200 | Pooling one copy per model keeps every credential of every copy as it is, whatever the order and the times the copies were read. |
| FleetKeys.MetadataDisjoint | key-manager/internal/secrets/manager.go:374-395 | Different models' metadata share no client ID, tombstones included, at any two times of a run. |
| FleetKeys.OneModelOneOwner | key-manager/internal/secrets/manager.go:374-395 | An ID listed anywhere at two times of a fleet's run is one model's, with one owner. |
| StringOrder.AscendingIsUnique | operator/internal/controller/apikeys.go:71-89 | A set has one sorted listing, so rendering does not depend on map order. |
| StringOrder.SortedListing | operator/internal/controller/reconcilers/auth.go:73-83 | Collecting in any order and sorting gives that listing. |
| StringOrder.LessIsLexicographic | operator/internal/controller/apikeys.go:71-89 | The order is byte by byte: one text ends first, or is smaller at the first place they differ. |
| OwnerLookup.InvRun | key-manager/internal/identity/lookup.go:74-114 | In every run the cache and all answers agree with what the store recorded, one lookup at a time holds the read lock, reads are spaced. |
| OwnerLookup.ReadsAreSpaced | key-manager/internal/identity/lookup.go:87-95 | However many unknown IDs arrive, the i-th and j-th reads start at least (j - i) intervals apart. |
| OwnerLookup.AnswersNeverChange | key-manager/internal/identity/lookup.go:63-73 | An owner once given for an ID is the one given ever after, revoked or not. |
| OwnerLookup.CacheIsWhatWasBrought | key-manager/internal/identity/lookup.go:101-105 | In every run the cache holds an ID exactly if some read that ended listed it. |
| OwnerLookup.RecordedKeyIsAnswered | key-manager/internal/identity/lookup.go:74-107 | Over every run, a lookup for a key recorded at its arrival and not dropped since is told the key is unknown if and only if the latest read started after the arrival and failed and no read so far brought the key; an error is its own failed read, and an owner is the right one. |
| OwnerLookup.RecordedKeyIsFound | key-manager/internal/identity/lookup.go:74-107 | Whatever happened before, a lookup for a recorded key is answered with its owner if since its arrival no read failed and the key was not dropped. |
| OwnerLookup.FailedReadHidesKey | key-manager/internal/identity/lookup.go:81-100 | A concrete run from the start in which a recorded key is called unknown. |
| LookupAnswers.CachedIsAnsweredAtOnce | key-manager/internal/identity/lookup.go:75-77 | Over every run, once an ID is cached every lookup for it that arrives is answered by its arrival, with the owner cached then, without the lock, a wait or a read. |
| LookupAnswers.LookupsShareReads | key-manager/internal/identity/lookup.go:78-86 | Over every run, a lookup that queued before the latest read started never reads itself: it stays queued until it is answered. |
| LookupAnswers.AnswerIsExact | key-manager/internal/identity/lookup.go:74-107 | A step answers a lookup in exactly one of five ways, with exactly that answer: cached at arrival, a read started after it arrived, given up while waiting, its own read failed, its own read ended. |
| LookupAnswers.AnswerIsExplained | key-manager/internal/identity/lookup.go:74-107 | Every answer of every run was given in such a step. |
| LookupCode.RecordIsNeverRefused | key-manager/internal/secrets/manager.go:374-395 | What the lookups take the key store to do follows from the protocol of all models' stores together: without repeated suffixes an owner listed never contradicts one listed before. |
| LookupCode.StoreInto | key-manager/internal/identity/lookup.go:101-105 | The merge loop overrides the cache by the keys listed and takes nothing out. |
| LookupCode.LastOwnerCounts | key-manager/internal/identity/lookup.go:101-105 | An ID listed several times gets its last owner. |
| LookupCode.ListingIsOfKeys | key-manager/internal/identity/lookup.go:101-105 | And nothing but the IDs listed is stored. |
| LookupCode.Handler.ReadCache | key-manager/internal/identity/lookup.go:75-77 | The first look answers with the cached owner exactly when there is one, and is the model's arrival step. |
| LookupCode.Handler.TakeLock | key-manager/internal/identity/lookup.go:78-86 | A read started after the arrival, and only such a one, answers at once from the cache; otherwise the lookup holds the lock. |
| LookupCode.Handler.BeginRead | key-manager/internal/identity/lookup.go:87-96 | The start of the read, not its end, is remembered. |
| LookupCode.Handler.StoreKeys | key-manager/internal/identity/lookup.go:97-107 | The keys read are stored over the cache, the lock is released and the lookup answered from the result, as in the model. |
| CustomerSync.CustomersWithSubjectKey | key-manager/internal/openmeter/customers.go:111-136 | Paging through partial matches finds exactly the customers holding the key, in order. |
| CustomerSync.KeysToAdd | key-manager/internal/openmeter/customers.go:237-254 | Only keys no customer holds are added; keys held elsewhere are noted with a real holder. |
| CustomerSync.SyncOwner | key-manager/internal/openmeter/customers.go:227-271 | One creator: customers only grow, by wanted keys alone, keys stay on one customer, at most one write; without error every wanted key is placed, and an error means a failed call or a customer that cannot be read. |
| CustomerSync.AddKeys | key-manager/internal/openmeter/customers.go:255-271 | The write: the creator's customer is created with its name, or extended by exactly the keys to add. |
| CustomerSync.Syncer.GroupByCreator | key-manager/internal/openmeter/customers.go:186-201 | Keys are grouped by creator subject; keys without one are counted and left out. |
| CustomerSync.SkippedHaveNoSubject | key-manager/internal/openmeter/customers.go:186-201 | The keys counted as skipped are those without a creator subject. |
| CustomerSync.Syncer.Sync | key-manager/internal/openmeter/customers.go:181-223 | For any order and any failures: customers get only keys their creators want, and each key stays on one customer; without error every wanted key is on its creator's customer or is exactly a noted conflict; an error means a failed call or an unreadable customer; if all wanted keys are held there is no write. |
| CustomerSync.SyncTwice | key-manager/internal/openmeter/customers.go:163-181 | After an error-free sync a second one with nothing changed performs no write and has nothing new to warn about. |
| CustomerSync.OwnersWant | key-manager/internal/openmeter/customers.go:186-201 | The grouped owners want exactly what the key list says. |
| CustomerSync.ConflictsAreUnique | key-manager/internal/openmeter/customers.go:208-222 | The conflicts found depend on the customers alone, not on the order of creators. |
| StringOrder.SortSorts | key-manager/internal/openmeter/customers.go:257-268 | The sorted key list is in order. |
| StreamHub.OnePollerAndReadyOnce | usage-console/server/internal/openmeter/stream.go:187-215 | In every run the poller handle is set exactly when there are subscribers, at most one poller is not cancelled, and a subscriber's ready channel is closed exactly when the hub is baselined, never twice. |
| StreamHub.CancelledNeverPublishes | usage-console/server/internal/openmeter/stream.go:219-279 | Every publication, and every setting of the baseline, is the work of the one uncancelled poller; the baseline is lost only with the last subscriber. |
| StreamHub.ReadyIsOpenWhenClosed | usage-console/server/internal/openmeter/stream.go:187-215 | Before the baseline the publishing loop only closes ready channels that are still open. |
| StreamHub.LedgerRun | usage-console/server/internal/openmeter/stream.go:236-279 | Each subscriber's counters account for all batches and missed counts offered so far. |
| StreamHub.EveryChangeIsAccountedFor | usage-console/server/internal/openmeter/stream.go:242-272 | Matching changes published since baseline plus missed counts equal received + queued + drops pending + drops reported, for every subscriber and interleaving; what is received and queued are offered batches in order, none altered or repeated. |
| StreamHub.StoppedReadReachesNobody | usage-console/server/internal/openmeter/stream.go:219-241 | Once a poller is stopped every stream it read for has gone for good, and its read changes no stream and publishes nothing. |
| StreamHub.CountReachesReadyStreamsExactly | usage-console/server/internal/openmeter/stream.go:236-259 | A stream that was there during a poller's life and still is when its read is taken gets the missed count if and only if it is ready; otherwise the read is its baseline. |
| StreamHub.SizeSplits | usage-console/server/internal/openmeter/stream.go:260-272 | Kept and dropped batches together hold every change offered. |
| StreamOffers.TurnIsExact | usage-console/server/internal/openmeter/stream.go:242-275 | What a stream's turn does: before the baseline it makes the stream ready; after it the changes its filter asks for are queued as one batch if fewer than sixteen are queued and otherwise dropped and counted; no other stream is touched. |
| StreamOffers.BatchMembers | usage-console/server/internal/openmeter/stream.go:254-263 | A batch holds exactly the published changes each dimension of the filter is open to or names. |
| StreamOffers.BatchLostExactlyWhenFull | usage-console/server/internal/openmeter/stream.go:264-271 | Over every run, a stream has lost a batch if and only if one was due to it while sixteen were queued. |
| StreamOffers.PromptHandlerLosesNothing | usage-console/server/internal/openmeter/stream.go:264-271 | A stream whose handler never lets sixteen batches pile up before its turns has received or has queued every matching change published to it since the baseline. |
| HubCode.Hub.Subscribe | usage-console/server/internal/openmeter/stream.go:187-204 | Subscribing registers the stream, closes its ready channel if baselined, and starts a poller only if there is none. |
| HubCode.Hub.Unsubscribe | usage-console/server/internal/openmeter/stream.go:206-215 | The last stream to leave cancels the poller and clears the baseline. |
| HubCode.Hub.TakeDropped | usage-console/server/internal/openmeter/stream.go:179-185 | The pending drop count is reported and reset. |
| HubCode.Hub.Receive | usage-console/server/internal/openmeter/stream.go:56-69 | A handler takes the oldest batch of its queue. |
| HubCode.Hub.Handle | usage-console/server/internal/openmeter/stream.go:56-69 | Handlers' steps of any streams in any order, without the mutex: batches move from queued to received and drops to reported, and nothing is lost. |
| HubCode.Hub.Serve | usage-console/server/internal/openmeter/stream.go:242-275 | One stream's turn with handlers' steps between its two halves: a due batch is added to what is queued and received, or is dropped and counted, and then sixteen were queued when the turn began. |
| HubCode.Hub.ServeAll | usage-console/server/internal/openmeter/stream.go:242-275 | The loop serves every stream once, in any order, while handlers work at any point: each stream gets its due batch, or lost it with sixteen queued when the loop began. |
| HubCode.Hub.Publish | usage-console/server/internal/openmeter/stream.go:230-279 | A cancelled poller leaves without effect; otherwise every stream gets the read's matching changes and missed count, or lost them with sixteen batches queued, and the hub is baselined. |
| StreamReader.Reader.CountMissed | usage-console/server/internal/openmeter/stream.go:107-122 | What a capped scan left out is counted over exactly the span that starts at the window's start, the end of the last span counted or the newest row of the read before, whichever is latest, and ends with the scan's last row. |
| StreamReader.Reader.LeftOutIsExact | usage-console/server/internal/openmeter/stream.go:107-112 | Nothing is left out exactly when the scan saw the whole window or its last row is no later than what was read or counted before. |
| StreamReader.Reader.Settle | usage-console/server/internal/openmeter/stream.go:132-152 | Receipts whose tokens are known keep their first resolved form, others are looked up; memory holds exactly the latest read's receipts that are not allowed ones without tokens. |
| StreamReader.Reader.Read | usage-console/server/internal/openmeter/stream.go:99-153 | Spans counted as missed never overlap over the reader's life; the read returns no count exactly when it counted nothing or filling in failed after it. |
| StreamReader.TwoReads | usage-console/server/internal/openmeter/stream.go:132-152 | A settled receipt is the same in the next read. |
| StreamReader.LosesCount | usage-console/server/internal/openmeter/stream.go:107-134 | A read that counts and then fails to fill in: the next read of the same window succeeds and returns no count. |
| StreamReader.LosesFirstCount | usage-console/server/internal/openmeter/stream.go:107-134 | It happens to a new reader that finds a whole scan of requests. |
| StreamChanges.Streamed.Update | usage-console/server/internal/openmeter/stream.go:306-318 | The changes emitted and the new memory, as functions of the read and the old memory. |
| StreamChanges.MemoryIsOneRead | usage-console/server/internal/openmeter/stream.go:306-318 | The server remembers exactly the latest read's receipts. |
| StreamChanges.OnlyDifferencesAreSent | usage-console/server/internal/openmeter/stream.go:306-318 | A receipt is sent if and only if the previous read did not have it just so. |
| StreamChanges.ClientHoldsLatestRead | usage-console/server/internal/openmeter/stream.go:236-264 | A client applying the baseline and every later change holds, for each matching receipt of the latest read, exactly that receipt. |
| StreamDelivery.DeliveryRun | usage-console/server/internal/openmeter/stream.go:219-279 | Over every run, the publications are the running poller's reads, each compared with the one before, the first not live; each stream is offered the last so many. |
| StreamDelivery.StreamHoldsLatestRead | usage-console/server/internal/openmeter/stream.go:219-279 | From end to end over every interleaving: a stream that lost no batch holds, from its baseline plus what it received and has queued, each matching receipt of the latest published read. |
| LiveRows.ApplyLive | usage-console/console/src/state/traffic-feed.ts:203-216 | Live rows: no ID twice, listed rows keep their places with the batch's values, new ones on top newest first, cut to the limit. |
| LiveRows.MergedById | usage-console/console/src/state/traffic-feed.ts:203-216 | By ID the merged list is the old rows overridden by the batch. |
| LiveRows.MergeNewer | usage-console/console/src/state/traffic-feed.ts:195-200 | The first page under live rows that raced it: by ID the page overridden by the listed copies, newest first, no ID twice. |
| ReceiptScan.ScanRequests | usage-console/server/internal/openmeter/receipts.go:49-71 | The scan over cursor pages finds what one pass over the flat list finds, however pages are cut: the rows of exactly the events asked for among the first n, n being all, the event that filled the page, or 5000. |
| ReceiptScan.ScanExplained | usage-console/server/internal/openmeter/receipts.go:49-71 | A scan is the matches of a prefix, ended by a full page, the cap with a continuation point, or the list's end. |
| ReceiptScan.MatchingListsAsked | usage-console/server/internal/openmeter/filter.go:35-42 | The rows of a list of events show exactly the events the filter asks for by their own key, team, project, model and verdict, each once and in order. |
| ReceiptScan.ServedIsPrefix | usage-console/server/internal/openmeter/receipts.go:49-71 | The pages are read from the first on until one is empty. |
| Receipts.MatchIsAskedFor | usage-console/server/internal/openmeter/filter.go:35-38 | An event passes the filter exactly when each dimension is open or names the event's own value. |
| Receipts.VerdictIsExact | usage-console/server/internal/openmeter/receipts.go:181-194 | Throttled is 429, blocked any other status from 400 on, truncated one below whose usage was not reported, allowed the rest. |
| ReceiptScan.CappedScanHasARow | usage-console/server/internal/openmeter/stream.go:102-111 | A capped unfiltered scan always has a last row to index. |
| ReceiptPaging.Feed.FirstPage | usage-console/console/src/state/traffic-feed.ts:112-128 | The first page is the first scan of the window; its rows are the matches among the events looked through. |
| ReceiptPaging.Feed.LoadOlder | usage-console/console/src/state/traffic-feed.ts:159-177 | An older page keeps the rows and adds exactly the matches of further events, and gets further unless the list ends or its first trap is capped. |
| ReceiptPaging.Feed.LoadAll | usage-console/console/src/state/traffic-feed.ts:154-177 | Where the window is passable, repeated loading ends and the list shows exactly the events of the window that the filter asks for, newest first and each once. |
| ReceiptPaging.WantedIsExpected | usage-console/console/src/state/traffic-feed.ts:154-177 | An event has a row in the whole list if and only if it is in the window and the filter asks for its own key, team, project, model and verdict. |
| ReceiptPaging.Feed.Scroll | usage-console/console/src/state/traffic-feed.ts:154-177 | Scrolling n times takes exactly the steps the results below are about. |
| ReceiptPaging.PageAdds | usage-console/console/src/state/traffic-feed.ts:159-177 | One page from the millisecond reached adds exactly the matches up to where its scan stops, over full and capped scans alike. |
| ReceiptPaging.UnseenAreLater | usage-console/console/src/state/traffic-feed.ts:166-171 | Dropping known IDs from an overlapping page leaves exactly the new part. |
| ReceiptPaging.LoadsAllExactly | usage-console/console/src/state/traffic-feed.ts:150-177 | For any sorted window, scrolling ends with every match if and only if no millisecond traps it or the first that does is a full page with no match behind. |
| ReceiptPaging.EndsShortExactly | usage-console/console/src/state/traffic-feed.ts:150-177 | It ends with fewer matches if and only if the first trap is a full page with matches behind it. |
| ReceiptPaging.NeverEndsExactly | usage-console/console/src/state/traffic-feed.ts:150-177 | It never ends if and only if the cap stops the scan inside the first trap. |
| ReceiptPaging.SpreadIsPassable | usage-console/console/src/state/traffic-feed.ts:150-177 | No millisecond with a page of matches or a scan of events: then nothing traps the list. |
| ReceiptPaging.CrowdedMillisecondEndsShort | usage-console/console/src/state/traffic-feed.ts:150-173 | A window that begins with a page of matches or more in one millisecond, with another match there or behind: scrolling ends short. |
| ReceiptPaging.CrowdedMillisecondNeverEnds | usage-console/console/src/state/traffic-feed.ts:150-173 | A window that begins with as many events in one millisecond as one scan reads, with too few matches among them: scrolling never ends. |
| TokenLookup.SplitUndoesJoin | usage-console/server/internal/openmeter/receipts.go:115-131 | Splitting at the last colon undoes joining an ID to a type, whatever colons the ID has. |
| TokenLookup.JoinUndoesSplit | usage-console/server/internal/openmeter/receipts.go:127-131 | And joining undoes splitting. |
| TokenLookup.TokensOf | usage-console/server/internal/openmeter/receipts.go:107-138 | The batches of twenty, their queries and the map updates compute the batched lookup. |
| TokenLookup.BuildQuery | usage-console/server/internal/openmeter/receipts.go:109-125 | A batch's query has every receipt's IDs and the span of their seconds. |
| TokenLookup.QueryCovers | usage-console/server/internal/openmeter/receipts.go:109-125 | That query names exactly the batch's token events and covers each receipt's second. |
| TokenLookup.QuerySpansSeconds | usage-console/server/internal/openmeter/receipts.go:109-125 | It runs from the second of the batch's earliest receipt to the end of its latest one's. |
| TokenLookup.BatchedIsSeparate | usage-console/server/internal/openmeter/receipts.go:105-138 | If token events carry their request's second, every receipt gets the count a lookup of its own would find, for lists of any length. |
| TokenLookup.BatchedIsSeparateExactly | usage-console/server/internal/openmeter/receipts.go:105-138 | For any events and a list that holds each receipt once, a receipt gets the same count in company and alone if and only if the last event its batch finds for it is of its own second, or is none, or repeats the count found there. |
| TokenLookup.OnlyAsked | usage-console/server/internal/openmeter/receipts.go:105-138 | Nothing is found for an ID or type not asked for. |
| TokenLookup.LateTokensDiffer | usage-console/server/internal/openmeter/receipts.go:110-111 | A token event one second late is found only in company: the hypothesis is needed. |
| Totals.TotalsByKey | usage-console/server/internal/openmeter/catalog.go:186-210 | Per-key totals over distinct keys add up to the total of the rows, for any commutative sum. |
| Totals.GroupedTotal | usage-console/server/internal/openmeter/pages.go:27-43 | Whatever is asked of grouped rows' keys, their values add up to the ungrouped total. |
| UsageCounting.ReceiptCount | usage-console/server/internal/openmeter/pages.go:12-44 | The count from grouped rows is the number of events between the window's ends, cut to seconds, that the filter asks for by their own values; an open start is thirty days ago. |
| UsageCounting.WholeSecondsCountExactly | usage-console/server/internal/openmeter/filter.go:35-42 | With both ends on whole seconds it is the length of the fully loaded list. |
| UsageCounting.CountMissesFractions | usage-console/server/internal/openmeter/pages.go:14-22 | For every window: count plus the end's unfinished second equals the list plus the start's second before the start. |
| UsageCounting.CountIsRightExactly | usage-console/server/internal/openmeter/pages.go:14-44 | The count is right for all events if and only if both ends are whole seconds, the window is empty, or no group can match. |
| UsageCounting.TrafficSeries | usage-console/server/internal/openmeter/catalog.go:172-210 | Each bucket's four counts are the numbers of its requests with each verdict, and all counts together are all requests. |
| UsageCounting.TrafficCoversRange | usage-console/server/internal/openmeter/catalog.go:157-168 | The buckets cover exactly the range asked for, a day for anything unknown. |
| UsageCounting.QueryWindowIsLargest | usage-console/server/internal/openmeter/spend.go:87-95 | The query's windows are the largest of a minute, an hour and a day that fit into a bucket. |
| UsageCounting.NoneLost | usage-console/server/internal/openmeter/catalog.go:186-210 | Every request from the first bucket to the last whole second is counted once. |
| UsageCounting.VerdictsDiffer | usage-console/server/internal/openmeter/receipts.go:181-194 | The chart's branches and the receipts' verdicts agree. |
| UsageCounting.WindowInOneBucket | usage-console/server/internal/openmeter/spend.go:87-95 | An aligned query window lies wholly inside one bucket. |
| UsageCounting.RowBucket | usage-console/server/internal/openmeter/catalog.go:191-195 | Go's truncating division finds a row's bucket, or the row counts nothing. |
| UsageCells.CellTextIsInjective | usage-console/server/internal/openmeter/usage.go:122-127 | Without NUL in the dimensions the joined text names one window and combination. |
| UsageCells.NulMixesCells | usage-console/server/internal/openmeter/usage.go:122-127 | With a NUL inside a dimension two combinations can share a cell. |
| UsageCells.CellsMixExactly | usage-console/server/internal/openmeter/usage.go:122-127 | Whatever the dimensions hold, two windows and combinations share a cell if and only if, cut at every NUL, they read the same. |
| UsageCells.Table.At | usage-console/server/internal/openmeter/usage.go:110-133 | The cell for a row's key, made empty on first sight and listed once. |
| UsageCells.Table.AddCost | usage-console/server/internal/openmeter/usage.go:142-152 | A cost row adds its tokens, and its dollars or the unpriced mark, to its cell only. |
| UsageCells.Table.AddRequests | usage-console/server/internal/openmeter/usage.go:158-160 | A request row adds to its cell only. |
| UsageCells.Usage | usage-console/server/internal/openmeter/usage.go:102-164 | The merged cells group priced features' tokens and dollars, and all requests, and lose none; without windows all rows share the query's start; each cell has its resource's provider. |
| UsageCells.CellsAreExact | usage-console/server/internal/openmeter/usage.go:102-164 | Without NUL, whatever is asked of windows and dimensions, cells and rows have the same totals. |
| Spend.KeyGroupsMixExactly | usage-console/server/internal/openmeter/spend.go:214-219 | Two cells share a key group exactly when they share the key and, for logins, the person, or a key is spelt like a login. |
| Spend.GroupIsItsDimension | usage-console/server/internal/openmeter/spend.go:212-219 | Each dimension groups by its own part of a cell; logins group by person. |
| Spend.RoundIsNear | usage-console/server/internal/openmeter/spend.go:221-222 | Rounding moves an amount by at most half a millionth of a dollar. |
| Spend.HalvesGoAway | usage-console/server/internal/openmeter/spend.go:221-222 | Halves round away from zero. |
| Spend.RoundingDrift | usage-console/server/internal/openmeter/spend.go:108-112 | Rounding at each of n additions drifts at most n halves of a millionth from the exact sum. |
| Spend.WholeMicrosDoNotDrift | usage-console/server/internal/openmeter/spend.go:221-222 | Amounts of whole millionths do not drift at all. |
| Spend.CellIsInOneBar | usage-console/server/internal/openmeter/spend.go:97-112 | Everything in a cell's window happened in the bar the cell is added to, and in no other, for every range. |
| Spend.TrendCoversRange | usage-console/server/internal/openmeter/spend.go:73-84 | The bars cover exactly the range asked for, a day for anything unknown. |
| Spend.SpendTrend | usage-console/server/internal/openmeter/spend.go:97-117 | Each bar has exactly the groups with a cell in it, each with the rounded total of those cells. |
| Spend.SpendRows | usage-console/server/internal/openmeter/spend.go:176-211 | One row per group seen in either period with that group's totals, biggest spend first, then by ID. |
| Spend.SortedByAmountThenId | usage-console/server/internal/openmeter/spend.go:205-208 | Of two rows the one with more spend comes first, and of equal ones the one whose ID is less, byte by byte. |
| Spend.TableConserves | usage-console/server/internal/openmeter/spend.go:176-211 | Under every dimension the rows' requests, tokens and unpriced requests add up to the cells'. |
| JwksValidator.OneFetchAndReadyHasKeys | shared/oidc/validator.go:227-287 | In every run at most one fetch is in flight, and ready means a non-empty key set. |
| JwksValidator.KeysChangeOnlyOnSuccess | shared/oidc/validator.go:446-509 | The key set changes only in the swap of a fetch that ends well, to exactly what it answered; the failure mark is stored in a later step, and ready is never taken back. |
| JwksValidator.FlagIsLastMark | shared/oidc/validator.go:446-448 | Over any stretch of a run the failure mark says how the last fetch that ended went. |
| JwksValidator.UnknownKeysCannotStormFetches | shared/oidc/validator.go:426-444 | Unknown-key fetches start at least 30 s apart: any span L holds at most L/30s + 1. |
| JwksValidator.BurstIsServed | shared/oidc/validator.go:346-364 | Every caller waiting on the shared fetch that brings its key is served and never refused, whatever follows, as long as no later key set lacks the key. |
| JwksValidator.UnknownKidExactly | shared/oidc/validator.go:346-364 | Whatever runs between the two reads, the second look ends in found, with the key of the look, in refused for good or in unavailable exactly as the key was there at the look and, if not, the last fetch to end before the load went well or not. |
| JwksValidator.RefusalMeansAbsent | shared/oidc/validator.go:346-364 | Every refusal for good in every run comes from a look that did not find the key and a later load of the mark, the last fetch to end before it having ended well. |
| JwksValidator.RefusedThoughPresent | shared/oidc/validator.go:346-364 | A concrete run from the start in which a request whose look fell after a failed fetch is refused for good although its key is there by then. |
| JwksAnswers.KnownKeyIsFound | shared/oidc/validator.go:319-344 | Over every run, a request asked while ready whose key is in the set is answered with exactly that key, in that step and ever after. |
| JwksAnswers.AnswerIsExplained | shared/oidc/validator.go:319-364 | Over every run, not ready is answered only when not ready at the ask, unavailable only after a look that missed and a load of a bad mark, refused only after such a look and a good mark, and found with what the set held at the look. |
| JwksAnswers.KeysAreTheLast | shared/oidc/validator.go:486-501 | Of several usable keys with one ID the last one counts. |
| JwksRefresh.RefreshIsLostExactly | shared/oidc/validator.go:274-287 | In every run, an hourly tick sees no fetch end while it waits if and only if the call it found was about to end or the cooldown then refused it; that never befalls a call the tick made or one already fetching. |
| JwksRefresh.RefreshIsLost | shared/oidc/validator.go:274-287 | A concrete run from the start in which the hourly tick joins a refused call and no fetch is made for it. |
| JwksCode.DecodeKeys | shared/oidc/validator.go:486-501 | The decoding loop keeps the usable signing keys, and fails when there are none. |
| JwksCode.Validator.Fetch | shared/oidc/validator.go:446-509 | One background fetch is the model's steps, others' between them: the swap if it brought keys, then the mark. |
| JwksCode.Validator.InitialFetch | shared/oidc/validator.go:227-272 | The i-th fetch is an active attempt for the first five and a slow poll after; it ends online after the first success, or ends by Stop, which may come at any point. |
| JwksCode.Validator.FirstLook | shared/oidc/validator.go:319-344 | The first look settles a request exactly when not ready or when its key is in the set, and is the model's step. |
| JwksCode.Validator.JoinRefresh | shared/oidc/validator.go:426-444 | A request joins the shared call there is, whatever it is for, or makes one. |
| JwksCode.Validator.RunCallback | shared/oidc/validator.go:430-443 | The call made for an unknown key fetches exactly when thirty seconds have passed since such a fetch last started; a refused one holds the call until it ends. |
| JwksCode.Validator.CheckAgain | shared/oidc/validator.go:354-364 | The second look reads the keys and then the mark, with others' steps between the two. |
| EndpointRemoval.InvRun | operator/internal/controller/passthroughmodel_endpoints.go:21-38 | What every pass has learnt stays true in every interleaving. |
| EndpointRemoval.NeverUnguarded | operator/internal/controller/passthroughmodel_endpoints.go:18-21 | No run shows the HTTPRoute without its SecurityPolicy. |
| EndpointRemoval.OnlyOwnRemoved | operator/internal/controller/passthroughmodel_endpoints.go:55-64 | What a pass deletes is controlled by this provider in the very version deleted, even if adopted or replaced meanwhile. |
| EndpointRemoval.RemovedIsTrue | operator/internal/controller/passthroughmodel_endpoints.go:21-38 | A pass that reports removal is right for good: neither route is there or comes back. |
| EndpointRemoval.PassResult | operator/internal/controller/passthroughmodel_endpoints.go:21-65 | What an undisturbed pass does in every state; it reports removal exactly when nothing is left. |
| EndpointRemoval.EndIsExact | operator/internal/controller/passthroughmodel_endpoints.go:21-65 | A call ends a pass in exactly these ways: an error at a foreign object, pending at one on its way out or while the HTTPRoute is there, removed with no policy left, and what its delete or a failed call says. |
| EndpointRemoval.EndIsExplained | operator/internal/controller/passthroughmodel_endpoints.go:21-65 | Every outcome of every run is that of such a call. |
| EndpointRemoval.FullRemoval | operator/internal/controller/passthroughmodel_endpoints.go:21-65 | From any mixture of own objects two undisturbed passes remove everything and the next reports it, whatever anybody does after each that undoes no removal, once Kubernetes has caught up. |
| EndpointRemoval.Cluster.DeleteVersion | operator/internal/controller/passthroughmodel_endpoints.go:58-63 | Deletion with preconditions changes only the version read: any other is left as it is, that one goes or is marked. |
| EndpointRemoval.Cluster.RemoveControlledObject | operator/internal/controller/passthroughmodel_endpoints.go:48-65 | Pending, error and absent outcomes are the model's, with others' writes between the calls. |
| EndpointRemoval.Cluster.RemoveEndpoint | operator/internal/controller/passthroughmodel_endpoints.go:21-38 | One pass returns what the model's pass ends with; neither pending nor error means both routes are gone; an error other than a refusal means a failed call or an object changed since it was read. |
| HeaderPolicy.ValueEqualReflexive | operator/internal/controller/clustertls_singleton.go:383-408 | The structural comparison accepts every value as equal to itself. |
| HeaderPolicy.BuildListenerHeaderPolicy | operator/internal/controller/reconcilers/listener_headers.go:52-104 | The edits in place build the policy, level by level. |
| HeaderPolicy.BuiltKeepsTheRest | operator/internal/controller/reconcilers/listener_headers.go:30-51 | The policy targets the listener, generates request IDs, removes all identity headers and all the inherited policy removed; every other inherited setting survives at each level. |
| HeaderPolicy.BuiltSays | operator/internal/controller/reconcilers/listener_headers.go:30-104 | The built policy in its own JSON: its one target, generated request IDs and the four headers removed. |
| HeaderPolicy.PolicyScopeForListener | operator/internal/controller/listener_headers.go:212-253 | On the listener, on the whole Gateway or unreadable, exactly as the policy's JSON says: a reference to this Gateway by kind, group, name and section wins over one without section, any reference over the selectors. |
| HeaderPolicy.ScopeIsExact | operator/internal/controller/listener_headers.go:212-258 | The same for the scope function all the results use: in both directions, selectors in order, an unreadable one an error only if none before it picks. |
| HeaderPolicy.AppliedGatewayWidePolicy | operator/internal/controller/listener_headers.go:171-185 | The oldest Gateway-wide policy, then the first by name. |
| HeaderTargets.InheritsTheOldest | operator/internal/controller/listener_headers.go:171-185 | The settings inherited are those of the policy on the whole Gateway that was created first, the first by name of several; without one, none. |
| HeaderTargets.OthersDoNotMatter | operator/internal/controller/listener_headers.go:212-253 | A pass does the same with and without a policy all of whose references name other Gateways and that has no selectors. |
| HeaderTargets.OwnByLabelAndName | operator/internal/controller/listener_headers.go:187-196 | The operator's own policies are told by their label and the two reserved names. |
| HeaderPolicy.Cluster.CreateOrUpdate | operator/internal/controller/clustertls_singleton.go:277-308 | Creates, leaves an equal spec alone, or replaces the spec only. |
| HeaderPolicy.Cluster.EnsureListenerHeaderPolicy | operator/internal/controller/listener_headers.go:101-155 | Whatever the listing order, a pass without error leaves exactly the model's policies; a failed one leaves them or the old ones, and means a failed call or a selector that cannot be read. |
| HeaderPolicy.OwnPoliciesDoNotMatter | operator/internal/controller/listener_headers.go:187-196 | What a pass wants depends on other people's policies only. |
| HeaderPolicy.PassSettles | operator/internal/controller/listener_headers.go:101-155 | With the reserved name unused or the operator's, one pass settles the listener. |
| HeaderPolicy.BothListenersSettle | operator/internal/controller/listener_headers.go:51-62 | After both listeners' passes, either pass again changes nothing. |
| HeaderPolicy.PassProtects | operator/internal/controller/listener_headers.go:44-50 | After a pass the stored policy removes every identity header, unless another policy has the listener. |
| HeaderPolicy.ComparisonIsEqualityExactly | operator/internal/controller/clustertls_singleton.go:376-408 | Equal by the comparison means the same spec, for all specs, if and only if texts and plain values print like no other value. |
| HeaderPolicy.PassKeepsSettings | operator/internal/controller/listener_headers.go:101-155 | Then a pass stores the desired policy, in which every setting of the applied Gateway-wide policy survives. |
| HeaderPolicy.LookalikeStays | operator/internal/controller/clustertls_singleton.go:297-308 | Two plain values that print alike: a pass leaves the stored setting different from the Gateway-wide one. |
| HeaderPolicy.PassStoresDesiredExactly | operator/internal/controller/listener_headers.go:101-155 | All passes store the desired policy if and only if texts and plain values print like no other value. |
| HeaderPolicy.OnePassIsEnoughExactly | operator/internal/controller/listener_headers.go:187-196 | One pass is a fixed point if and only if the reserved name is unused or the operator's, or another policy has the listener. |
| Csv.FieldRoundTrip | usage-console/console/src/lib/csv.ts:7-12 | A cell as printed, quoted or not, is read back whatever quotes, commas and line breaks it holds. |
| Csv.RowRoundTrip | usage-console/console/src/lib/csv.ts:13 | A printed row is read back as its cells; a row without cells as one empty field. |
| Csv.FileRoundTrip | usage-console/console/src/lib/csv.ts:13 | A printed table with rows is read back row by row. |
| Csv.CellIsPrintedSo | usage-console/console/src/lib/csv.ts:7-12 | A text gets the formula mark exactly before = + - @ tab CR, and quotes exactly around a quote, comma, LF or CR. |
| Csv.PrintedIsReadExactly | usage-console/console/src/lib/csv.ts:6-14 | Reading gives back exactly the table printed if and only if it has rows and every row has cells. |
| Csv.TextIsNoFormula | usage-console/console/src/lib/csv.ts:10 | No text cell starts like a formula. |
| Csv.TextsTellApartExactly | usage-console/console/src/lib/csv.ts:10 | Two texts print alike exactly when equal or one is the other with the formula mark. |

## Left out

- HTTP, JSON, Kubernetes and OpenMeter clients: modelled as versioned maps, event lists and calls that may fail.
- Token signatures and claims, SHA-256 and random bytes: parameters; nothing is proved about their strength.
- KeyManager: the 253-character limit on data keys and the objects' size limits are not modelled; an update that breaks them fails like any other.
- ModelAccess.KeyReachesOnlyItsModel: assumes model names without NUL bytes and a hash that does not collide on the pairs in play.
- KeyStore.RevocationIsFinal: assumes random suffixes that do not repeat; what holds without that is stated separately.
- OwnerLookup.RecordedKeyIsAnswered: about keys the store still holds; a key dropped after the lookup arrived may be answered either way.
- CustomerSync.Syncer.Sync: nobody else writes customers while it runs, a customer is found by one name (key, else id), and listing the keys has already succeeded.
- StreamReader: two reads at a time (an old poller's still running when a new one starts) are not modelled; the hub takes what a read answers as an oracle, the reader takes each read as one step.
- StreamDelivery.StreamHoldsLatestRead: about streams that lost no batch; a read holds no ID twice, and equal JSON has equal filter fields.
- StreamReader.Reader.Read: assumes that one scan lists no ID twice.
- ReceiptPaging.Feed.LoadAll: events are fixed and no live rows are mixed in while the list loads; a failed page request is not modelled.
- LiveRows: the shared receipt store's upsertMany is not modelled; MergeNewer takes a page that repeats no ID.
- Cost of a receipt (TokenLookup stops at the token counts), price lookup and the monthly projection.
- The catalog's keys, spendSeries, teams, projects and models: the same grouping and bucket arithmetic as the charts.
- Spend: the ranking and colours of the chart's groups.
- Floating point: dollars are real numbers, counts integers.
- EndpointRemoval.NeverUnguarded: the gateway controller creates the HTTPRoute only while the AIGatewayRoute exists, and nobody recreates that route or deletes the policy by hand. Enabling an endpoint (route applied before policy) is not modelled.
- EndpointRemoval.FullRemoval: each of the passes counted runs undisturbed; a foreign object is refused, as `PassResult` says, and whether Kubernetes catches up is not promised.
- HeaderPolicy: one namespace; nobody else writes between a pass's list and its write; warnings are not modelled. `PassProtects` assumes that nothing else prints like an identity header's name; numbers, truth values and null are one kind of plain value.
- NormalizeModelID, routing and resource builders, webhooks, configuration, React components, mock data: each is settled by reading one function.
