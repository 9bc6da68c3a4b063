# Catalogger in Dafny

Catalogger is a Discord bot that logs what happens in a server: deleted and edited messages, changed roles, and so on.
This project models its stateful cores and proves what they are for.

* **Webhook queue** (`Embeds`, `EmbedQueue`, `QueueBot`). Log embeds are batched per webhook and sent when a batch is
  full or five seconds after its first embed. `EmbedQueue` is a step system of enqueuers, timers and timer callbacks in
  which `Stop` may come too late; `QueueBot` is the code on mutable queue objects, proved to take those steps.
* **Message handlers** (`MessageTable`, `Routing`, `Lifecycle`, `ProxyTriggers`, `DeleteAccounting`,
  `AtomicRuns`, `EditLogs`, `InterleavedEdits`, `Handlers`, `Races`).
  Four handlers share a table and two sets. `Lifecycle` splits each handler into steps that touch shared state once and
  interleaves them freely; whatever a handler learns from Discord, PluralKit, the clock or a failing database is part of
  its environment, so every theorem holds for all of it. `Handlers` is the code as methods on a mutable bot, proved to
  do what the steps do when a handler runs alone.
* **Edit logs** (`ContentSplit`). Old and new content cut into embed fields, with files when they are long.
* **Memory store** (`MemoryStore`). A map and per-guild ID slices with shared backing arrays, and a `remove` that shifts
  the array in place while its result is dropped. One generic class stands for channels and for roles.
* **Migration** (`Migration`), **fetch queue** (`FetchQueue`), **metrics** (`Metrics`), **paths** (`Paths`,
  `Tokens`, `Snowflakes`), **durations** (`Durations`), **permission diffs** (`RolePermissions`).

Texts are sequences of characters and "…" is one of them, while the Go code counts UTF-8 bytes; for ASCII content the two
agree but for the ellipsis. Durations are integer nanoseconds and floor division stands for `math.Floor` on floats.

Where the code does less than one might expect, the model follows the code and says exactly when:

* A failed invite fetch puts back the guild whose *members* were popped (`logging/cache/fetch_queue.go:96`):
  `FailedInviteReturnsIffSameGuild`, with a run in `InviteGuildLost`; `NoInviteGuildLost` is what remains true.
* `remove` shifts a guild's ID slice in place and its result is dropped (`store/memory/channel.go:92`). A removed ID stays
  listed exactly when it was the first or the last (`RemovedStaysIffAtEnd`). Removing one from the middle lists the last ID
  twice: after a run a list repeats an ID exactly when that happened since the guild was last cleared
  (`RepeatsIffCrowded`), as in `ListingRepeats`. Listings agree with the simple model as sets.
* An embed of 6000 characters or more on an empty buffer sends an empty batch (`bot/queue.go:146`):
  `EmptyBatchIffOversized`, and over whole runs `NoEmptyBatchIff`.
* A timer that is stopped after its callback has started still takes the next buffer, so a batch can be cut before its
  five seconds and with room left: `StaleTimerCutsEarly`. `NoBatchCutEarly` says what cuts a batch otherwise.
* Edit logs stay below the batch limit only while the rest of the embed is at most 1935 characters: `QueuedUpdatesFit`.
  This counts the ellipsis and the zero-width space as one character each. A count of UTF-8 bytes gives them three, 12
  more in all for two texts of 1999 ASCII characters, and so 1923. `EditLogsFit` is the same for Discord's own limit.
* Negative durations would be shown as if whole days had been added: `ExactIffNonNegative`. `FormatTime`, the only caller
  in the repository, passes none.
* The fields of an edit log do not always determine its texts without the files: `NewFieldsDetermineIff`,
  `OldFieldsDetermineIff` and `FieldsDetermineEditIff` say when they do, again with the ellipsis as one character.
* A mark protects one delete: a second delete event of a trigger before its row is dropped is logged
  (`SecondDeleteLogs`). A delete can be logged exactly when its check finds no mark and the row: `DeleteCanLogIff`.
* Two concurrent deletes of one message can both log it (`ConcurrentDeletesBothLog`). Delete logs can exceed inserts
  exactly when more deletes are committed to log than the logs are behind (`OverdrawnIff`), and never do while deletes of
  a message take turns (`InterleavingsAccounted`).
* Two concurrent updates of one message can both start from the same content, so that its edit logs fork
  (`ConcurrentUpdatesFork`, and in general `TwoOpenFork`). A log continues the chain exactly when its handler read the
  content at which the last log ended (`LogLinksIff`). While updates take turns, the logs tell the changes of the
  stored content in every interleaving (`InterleavedEditsTell`).

## Model

| member | source | states |
|---|---|---|
| EmbedQueue.NothingLostOrReordered | bot/queue.go:130-180 | In every interleaving of enqueues, expiries, late stops and stale callbacks, a webhook's cut batches in lock order followed by its buffer are exactly the embeds accepted, in order |
| EmbedQueue.StepConserves | bot/queue.go:144-172 | Any single step adds to batches plus buffer just the embed it appends |
| EmbedQueue.OtherQueuesUntouched | bot/queue.go:131-138 | A step on one webhook changes neither the queue nor the batches of another |
| EmbedQueue.NoEmbedStranded | bot/queue.go:144-180 | In every reachable state a timer is set exactly when the buffer holds embeds, and names a callback still armed or waiting, due five seconds after the buffer's first append, even when an old callback cleared a newer timer |
| EmbedQueue.StepKeepsTimers | bot/queue.go:150-169 | The timer invariant survives every step from every state that has it |
| EmbedQueue.BufferDrains | bot/queue.go:162-178 | From every reachable state with a non-empty buffer a finite schedule, no later than the timer's deadline, empties it into one batch beginning with what it held |
| EmbedQueue.EveryBatchFits | bot/queue.go:146-160 | In every run each cut batch holds at most five embeds and stays under 6000 characters unless it is a single embed |
| EmbedQueue.StepKeepsBounded | bot/queue.go:144-160 | Lock ownership and room in the buffer, on which the batch bound rests, survive every step |
| EmbedQueue.CheckCutsIffOverfull | bot/queue.go:146-158 | Taking the lock cuts the buffer if and only if buffer and embed together are more than five embeds or have 6000 characters; a cut stops the queue's timer if its callback has not started, and anything else stays |
| EmbedQueue.NoBatchCutEarly | bot/queue.go:146-178 | In every run each batch was cut because an embed did not fit beside it, or because a timer had run out, the buffer's own no earlier than five seconds after its first embed |
| EmbedQueue.StaleTimerCutsEarly | bot/queue.go:150-169 | A run in which a timer stopped too late cuts the next buffer in the moment it is begun, with room left in it |
| EmbedQueue.EmptyBatchIffOversized | bot/queue.go:146-155 | A step hands off an empty batch if and only if an embed of 6000 characters or more meets an empty buffer |
| EmbedQueue.OversizedCutsEmpty | bot/queue.go:146-155 | One such embed on a fresh queue is enough: the run of its arrival and check cuts an empty batch |
| EmbedQueue.NoEmptyBatchIff | bot/queue.go:146-155 | No run over embeds of at most a given length cuts an empty batch if and only if that length is below 6000 |
| EmbedQueue.EveryBatchSentOnce | bot/queue.go:155-174 | The execution of every cut batch has been attempted or is about to be by exactly one callback, none is attempted twice, and each with the embeds it was cut with |
| QueueBot.QueueObject.TotalLength | bot/queue.go:112-117 | The loop returns the sum of the lengths of all queued embeds |
| QueueBot.Bot.LookUp | bot/queue.go:131-138 | The webhook's own queue object, created empty when there is none |
| QueueBot.Bot.HandOff | bot/queue.go:147-157 | Takes the buffer, stops and clears the timer and executes the batch, and leaves every other queue alone |
| QueueBot.Bot.CutIfFull | bot/queue.go:146-158 | On the mutable queue: a batch is cut exactly when queue and embed together are more than five embeds or have 6000 characters, and otherwise nothing changes |
| QueueBot.Bot.AppendAndArm | bot/queue.go:160-179 | Appends the embed and arms a new timer exactly when none is set |
| QueueBot.Bot.Enqueue | bot/queue.go:130-180 | The whole call, including creation of a missing queue, as one transition of the step system |
| QueueBot.EnqueueIsThreeSteps | bot/queue.go:130-180 | An uninterrupted call is the arrive, check and append steps of EmbedQueue in a row |
| QueueBot.Bot.TimerCallback | bot/queue.go:163-178 | The callback takes the buffer, clears the timer and sends a non-empty batch |
| QueueBot.CallbackIsTwoSteps | bot/queue.go:163-178 | An uninterrupted callback is the fire and deliver steps of EmbedQueue |
| QueueBot.Bot.Send | bot/queue.go:27-82 | Nothing without embeds or webhook; queued for a listed event with one embed and no file; otherwise sent at once, past the queue. Every embed, and every file, is in one of the two |
| QueueBot.EditLogsQueuedIff | bot/queue.go:65-68 | In every interleaving of the handlers an edit log is queued if and only if both its texts are shorter than 2000 characters |
| QueueBot.QueuedUpdateUnderLimit | bot/queue.go:65-68 | An edit log of two texts below 2000 characters with at most 1935 characters of other text is under the limit and never causes an empty batch |
| ContentSplit.OldContentFields | logging/messages/message_update.go:130-180 | The branches build the pieces of the old text given by a closed form over its length |
| ContentSplit.NewContentFields | logging/messages/message_update.go:184-210 | The same for the new text, cut at 2015 characters from 2024 on |
| ContentSplit.UpdateFields | logging/messages/message_update.go:130-210 | Old pieces, a spacer and new pieces come first, in that order |
| ContentSplit.AttachedFiles | logging/messages/message_update.go:297-309 | No file exactly when both texts are shorter than 2000 characters; with the files, decoding the embed's fields gives back both texts exactly, whatever fields follow |
| ContentSplit.OldFieldsShowPrefix | logging/messages/message_update.go:130-180 | The old fields without their ellipses join to the first 3500 characters of the old text |
| ContentSplit.NewFieldsShowPrefix | logging/messages/message_update.go:184-210 | The new fields without their ellipses join to the new text up to 2023 characters, to its first 2015 beyond |
| ContentSplit.CutTextsAreAttached | logging/messages/message_update.go:297-309 | Whenever either text is cut, both full texts are attached |
| ContentSplit.SplitIsLossless | logging/messages/message_update.go:130-210 | Decoding fields and files gives back both texts exactly, for every edit and whatever fields follow |
| ContentSplit.DifferentEditsDiffer | logging/messages/message_update.go:130-210 | Two different edits never give the same fields and files, whatever other fields each has |
| ContentSplit.NewFieldsDetermineIff | logging/messages/message_update.go:184-210 | The new fields alone determine the new text if and only if it is shorter than 2024 characters and not one of 2016 ending in an ellipsis |
| ContentSplit.OldFieldsDetermineIff | logging/messages/message_update.go:130-180 | The old fields alone determine the old text if and only if it has at most 3500 characters |
| ContentSplit.FieldsDetermineEditIff | logging/messages/message_update.go:130-210 | All content fields together determine the edit if and only if both hold |
| ContentSplit.FieldsAloneAreAmbiguous | logging/messages/message_update.go:189-193 | A text of 2016 characters ending in an ellipsis shows like every longer text it is cut from |
| ContentSplit.FieldsFit | logging/messages/message_update.go:130-210 | At most seven content fields, none longer than Discord's 1024 characters |
| ContentSplit.OldLength | logging/messages/message_update.go:130-180 | The exact length of the old content's fields over the length of the text: field names, text shown and ellipses |
| ContentSplit.NewLength | logging/messages/message_update.go:184-210 | The same for the new content |
| ContentSplit.EditLogsFit | logging/messages/message_update.go:130-210 | Every edit log stays within Discord's 6000 characters if and only if the embed's other text is at most 369 |
| ContentSplit.QueuedUpdatesFit | bot/queue.go:65-68 | Every edit without files stays under 6000 characters if and only if the embed's other text is at most 1935 |
| MessageTable.DB.InsertMessage | db/message.go:49-84 | Inserts a row, or on conflict changes nothing but the content; empty content becomes "None" |
| MessageTable.DB.UpdatePKInfo | db/message.go:87-103 | Sets user, original, system and member of an existing row only |
| MessageTable.KnownAfterUpdate | db/message.go:105-114 | After a PluralKit update of a stored message, the query knows that message and its trigger |
| MessageTable.KnownOnlyByUpdate | db/message.go:105-114 | Creates and edits change no answer of the query, deletes make none positive, and an update makes only those of its two messages positive |
| MessageTable.DB.DeleteMessage | db/message.go:177-190 | Removes this row and no other |
| MessageTable.LastInsertReadsBack | db/message.go:131-174 | Through any statements that neither insert nor delete it, a message reads back with the content last inserted, "None" for none |
| MessageTable.InsertedReadsBack | db/message.go:72-83 | A new message reads back column by column, a stored one changes in nothing but its content, and no other row changes |
| MessageTable.LastUpdateReadsBack | db/message.go:87-103 | Through any statements that neither update nor delete it again, a message reads back with the user, original, system and member of its last PluralKit update, which leaves every other column and row alone |
| MessageTable.KnownWasUpdated | db/message.go:105-114 | From an empty table the query knows only messages that an update has named |
| MessageTable.ExecuteKeepsAttribution | db/message.go:78-103 | A statement removes a row or changes its attribution only by naming its ID in a delete or PluralKit update |
| MessageTable.ReplayKeepsAttribution | db/message.go:78-103 | The same over any sequence of statements |
| Lifecycle.StepExecutes | logging/messages/message_create.go:18-170 | Every handler step changes the table by at most one statement, and records it |
| Lifecycle.AttributionIsStable | db/message.go:78-103 | In every interleaving of the handlers, until a row's PluralKit data is updated or it is deleted, its user, original, system and member stay, whatever is created or edited |
| Lifecycle.PairedInEveryRun | logging/messages/message_delete.go:187-189 | In every interleaving each row has both system and member or neither |
| Lifecycle.DestinationFollowsTree | logging/messages/message_delete.go:99-210 | On a layered channel tree a log is sent exactly when the channel is stored, with a thread's parent, nothing on the path up or its user is ignored and the first redirect on that path is valid, and then to it |
| ProxyTriggers.LoggedDeleteChain | logging/messages/message_delete.go:27-129 | Behind every delete log of every interleaving stand, in this order: the ID found unmarked, PluralKit skipped, failed or naming the same ID, the logged row read from the table, nothing about it ignored |
| ProxyTriggers.TrailStep | logging/messages/message_delete.go:27-129 | Each step of a delete handler extends the record of the checks it has passed |
| ProxyTriggers.LoggedDeletesFollowTree | logging/messages/message_delete.go:99-210 | On a layered channel tree no delete log comes from below an ignored channel or of an ignored user, and each went to the first redirect on the way up |
| ProxyTriggers.SeenMarkNeverLogs | logging/messages/message_delete.go:27-31 | A delete handler that sees the mark never logs, however the run goes on |
| ProxyTriggers.DroppedNeverLogged | logging/messages/message_create.go:163-167 | Once a trigger's row is dropped and not inserted again, no delete handler that had not fetched it before ever logs |
| ProxyTriggers.MarkStays | logging/messages/message_create.go:150-154 | A mark stays until a delete handler of that ID takes it away |
| ProxyTriggers.CheckNeverLogs | logging/messages/message_delete.go:27-97 | A delete whose check finds the mark, or finds no row and none comes back, is never logged |
| ProxyTriggers.DeleteCanLogIff | logging/messages/message_delete.go:27-210 | On a layered channel tree a delete about to check whose guild is valid, with delete logs on, which PluralKit does not name the trigger of another message, and whose row has somewhere to go, has a continuation without a new insert in which it is logged if and only if its ID is unmarked and its row is there |
| ProxyTriggers.ReadyDeleteCanLogIff | logging/messages/message_delete.go:27-97 | The same on any tree, for a delete whose own checks would let its row through |
| ProxyTriggers.TriggerNeverLogged | logging/messages/message_create.go:150-170 | In every interleaving the delete of a proxy trigger checked after the mark was set is never logged, if the mark was not consumed in between or the row was dropped before the check |
| ProxyTriggers.TriggerHasNoDeleteLog | logging/messages/message_create.go:150-170 | If every delete of the trigger is checked so, the delete logs hold none of it |
| ProxyTriggers.NoneHeldNoneLogged | logging/messages/message_delete.go:93-97 | Without a delete handler that fetched the row there is no delete log of the message |
| DeleteAccounting.InterleavingsAccounted | logging/messages/message_delete.go:82-97 | In every interleaving in which deferred deletes succeed and at most one delete of an ID is between fetching the row and finishing, delete logs plus the row exceed the inserts by at most the one log still to be finished, and delete logs alone never do |
| DeleteAccounting.StepAccounted | logging/messages/message_delete.go:82-97 | A deciding delete can still pay for its log and a finishing one has, and every step keeps that |
| DeleteAccounting.OverdrawnIff | logging/messages/message_delete.go:93-97 | From any reachable state, delete logs can come to exceed inserts without another fetch if and only if more deletes have fetched the row and will log than the logs are behind |
| DeleteAccounting.TwoCommittedOverdraw | logging/messages/message_delete.go:93-97 | Two deletes that have fetched the row and will log overdraw a balanced account |
| AtomicRuns.DeleteLogsAccounted | logging/messages/message_delete.go:82-97 | With handlers one after the other and deferred deletes that succeed, delete logs of an ID, plus one while its row is there, never exceed the inserts of that ID |
| Races.ConcurrentDeletesBothLog | logging/messages/message_delete.go:82-97 | A schedule with successful database calls in which one insert leads to two delete logs |
| Races.SecondDeleteLogs | logging/messages/message_delete.go:27-31 | A schedule in which a marked trigger's first delete consumes the mark and its second is logged |
| AtomicRuns.AtomicRunIsARun | logging/messages/module.go:33-42 | The four handlers run one after the other are one of their interleavings, one in which at most one handler has steps left at any time |
| EditLogs.HandlerTells | logging/messages/message_update.go:80-115 | One handler run alone changes a message's stored content and edit logs exactly as the simple model's edit, unless it deletes the row |
| EditLogs.EditLogsTellChanges | logging/messages/message_update.go:80-115 | With handlers one after the other and between deletions, the edit logs and the stored content are what the simple model tells of the creates and updates: a log for each announced change, none for an edit with equal content |
| EditLogs.EditLogsFormChain | logging/messages/message_update.go:80-115 | With handlers one after the other, between deletions and if every later edit is an update that succeeds and may be announced, the logs since a message was stored form a chain from that content to the content stored now, the last edit's |
| InterleavedEdits.InterleavedEditsTell | logging/messages/message_update.go:80-115 | In every interleaving in which no other handler reads the message for an update, stores or deletes it while an update of it is open, and between deletions, stored content and edit logs are what the simple model tells of the edits completed, with at most one log ahead of its store |
| InterleavedEdits.InterleavedEditsFormChain | logging/messages/message_update.go:80-115 | In those interleavings, if every edit completed since is an announced, successful update, the logs form a chain from the content stored then to the content stored now |
| InterleavedEdits.StepTells | logging/messages/message_update.go:80-115 | Each step that takes its turn keeps table, logs and open updates in accord with the story told so far |
| InterleavedEdits.LogLinksIff | logging/messages/message_update.go:106-115 | In any interleaving a log about to be sent continues the chain if and only if the content its handler read is the one at which the last log ended |
| InterleavedEdits.TwoOpenFork | logging/messages/message_update.go:106-115 | Two updates that have read the same content and will both log it send two logs from that content, which link up in no chain |
| Races.ConcurrentUpdatesFork | logging/messages/message_update.go:80-115 | A schedule in which two updates at once log from "a" to "x" and from "a" to "y" |
| EditLogs.EditLogsAreFaithful | logging/messages/message_update.go:48-115 | In every interleaving an edit log's old text is the content its handler read from the table, and its new text another one; both are shown recoverably, nothing above is ignored, and it went to the first redirect above |
| EditLogs.LogsCarryFilesIff | logging/messages/message_update.go:297-309 | In every interleaving an edit log carries files if and only if one of its texts has 2000 characters or more, and then both in full |
| EditLogs.UpdateEditOnTree | logging/messages/message_update.go:16-78 | On a layered tree an edit counts exactly when guild, author and content are there, it is not marked as ignored, edit logs are on, its channel is stored and nothing on the path up is ignored; it is announced exactly when the old content can be read and the first redirect is valid |
| EditLogs.CreateEdit | logging/messages/message_create.go:18-45 | A new message counts exactly when its guild is valid and update, delete or bulk delete logs are on |
| Handlers.MessageBot.MessageCreate | logging/messages/message_create.go:18-95 | The code does what the create handler's steps do when it runs alone |
| Handlers.MessageBot.PKMessageCreate | logging/messages/message_create.go:145-171 | Mark, update, drop and remember, in the order of the steps |
| Handlers.MessageBot.MessageDelete | logging/messages/message_delete.go:15-97 | The code does what the delete handler's steps do when it runs alone, deferred delete included |
| Handlers.MessageBot.LogDelete | logging/messages/message_delete.go:89-216 | Sends the delete log of the steps: by `DeleteAloneLogs` exactly when the row is there, nothing on its path is ignored and the first redirect is valid |
| Handlers.MessageBot.MessageUpdate | logging/messages/message_update.go:16-110 | The code does what the update handler's steps do when it runs alone, deferred insert included |
| Handlers.MessageBot.LogUpdate | logging/messages/message_update.go:102-316 | Sends the edit log of the steps: by `UpdateAloneLogs` exactly when the row is there with another content and the first redirect is valid, with its fields and files |
| Handlers.CompleteDelete | logging/messages/message_delete.go:15-97 | The steps of a delete handler run alone amount to the five outcomes of the code |
| Handlers.DeleteAloneLogs | logging/messages/message_delete.go:15-216 | Run alone, a delete logs its row, to the first redirect on the way up, if and only if it is unmarked, stored and unobstructed |
| Handlers.DeleteAloneRemoves | logging/messages/message_delete.go:27-87 | Run alone, a delete takes its mark away, and otherwise removes the row wherever delete logs are on, whether it is logged or not |
| Handlers.ProxiedDeleteAttributes | logging/messages/message_delete.go:33-59 | A delete that PluralKit names the trigger of a stored message gives that message its sender, original, system and member, removes the trigger and logs nothing |
| Handlers.LoggedProxyAttributes | logging/messages/message_create.go:145-171 | PluralKit's log message does the same, marks the trigger and remembers the message |
| Handlers.CreateAloneStores | logging/messages/message_create.go:18-95 | Run alone, a create stores its message exactly when the guild is valid and a message log is on, and then forgets a proxied one |
| Handlers.UpdateAloneLogs | logging/messages/message_update.go:16-316 | Run alone, an update stores the message exactly when its edit counts, and logs exactly an announced change, to the first redirect |
| EditLogs.CompleteUpdate | logging/messages/message_update.go:16-115 | The steps of an update handler run alone amount to one possible log followed by one upsert |
| Routing.HandlersFollowTree | logging/messages/message_delete.go:99-210 | The handlers' checks suppress exactly what has its channel, root, category or user ignored, and choose the first redirect along that path |
| Routing.AncestorsOf | store/memory/channel.go:43-56 | Channel, root channel and its parent are the whole path up a tree whose thread parents are no threads |
| MemoryStore.Remove | store/memory/store.go:34-48 | The result is the slice without the first occurrence, and the caller's own slice header sees the array shifted under it |
| MemoryStore.RemoveAt | store/memory/store.go:37-43 | Either end is cut off by reslicing, a middle element by shifting; the old header sees the array as it then is |
| MemoryStore.ShiftLeft | store/memory/store.go:42-42 | The elements behind i move down by one and the last one stays visible twice |
| MemoryStore.Contains | store/memory/store.go:51-58 | True exactly when the value is in the slice |
| MemoryStore.Append | store/memory/channel.go:64-66 | The slice extended by one, in place or in a fresh array |
| MemoryStore.Store.Listing | store/memory/channel.go:12-29 | The values still stored for the listed IDs, or not found when no ID is listed |
| MemoryStore.Store.SetOne | store/memory/channel.go:58-69 | Stores the value and lists its ID once, in that guild only |
| MemoryStore.Store.SetMany | store/memory/role.go:56-70 | The same for each value in turn |
| MemoryStore.SetAllIsRun | store/memory/role.go:56-70 | Setting several values is a run of single sets, in their order |
| MemoryStore.Store.Delete | store/memory/channel.go:87-95 | Deletes the value and shifts the guild's array without shortening its slice; other guilds' slices are untouched |
| MemoryStore.Store.DeleteAll | store/memory/channel.go:97-108 | Deletes every listed value and the guild's list |
| MemoryStore.ListingsAgree | store/memory/channel.go:12-108 | Over every run of operations, each ID used under one guild, a guild lists exactly the live IDs with the latest values of a map of maps |
| MemoryStore.StepLive | store/memory/channel.go:58-108 | One operation changes a guild's live values as it changes the map of maps |
| MemoryStore.ShiftKeepsOthers | store/memory/store.go:34-48 | The shift in place loses no other ID and brings in none |
| MemoryStore.LiveValuesShowLive | store/memory/channel.go:21-26 | A listing shows exactly the values of its listed IDs that are stored |
| MemoryStore.NotFoundIffUnknown | store/memory/channel.go:16-19 | A guild is reported unknown exactly when nothing was set for it since it was last removed |
| MemoryStore.ShiftDuplicatesIffMiddle | store/memory/store.go:41-43 | In an array without duplicates one removal lists the last ID twice exactly when it removes a middle element |
| MemoryStore.RemovedStaysIffAtEnd | store/memory/store.go:37-43 | The removed ID stays listed exactly when it was the first or the last |
| MemoryStore.RepeatsIffCrowded | store/memory/channel.go:58-108 | After every run a guild's list repeats an ID if and only if one was removed from its middle since the guild was last cleared |
| MemoryStore.ListingRepeats | store/memory/channel.go:12-29 | Three values set and the middle one removed, the listing shows the last one twice |
| Migration.SelectPage | cmd/importdb/message.go:44-49 | The least IDs above the last one, in ascending order, as many as the page holds |
| Migration.GetOldMessages | cmd/importdb/message.go:43-100 | The next page in ascending order, each row column by column with its texts decrypted, or a row above the last ID one of whose texts does not open, or the query's failure |
| Migration.OpensIffReadable | cmd/importdb/message.go:60-98 | A row can be decoded if and only if content, username and metadata open, and gives its own columns |
| Migration.NewDatabase.InsertNewMessage | cmd/importdb/message.go:105-156 | Upserts content and metadata under the new key; a refused row changes nothing |
| Migration.CopyPage | cmd/importdb/message.go:179-184 | Upserts the page's rows in order up to the first refused one, under any nonces |
| Migration.MigrateMessages | cmd/importdb/message.go:158-194 | For every table and page size the loop terminates, inserts each copied ID once in ascending order, and copies all rows with positive IDs or names the row or the page query that failed |
| Migration.PageAdvances | cmd/importdb/message.go:188-188 | A non-empty page moves the last ID up and leaves fewer rows above it |
| Migration.EmptyPageIsLast | cmd/importdb/message.go:175-177 | An empty page means every row with a positive ID has been passed |
| Migration.NextBoundary | cmd/importdb/message.go:167-189 | A page leads from one ID after which a query is made to the next: the start, each multiple of the page size, and the last row |
| Migration.PageProgress | cmd/importdb/message.go:179-189 | Copying part of a page keeps the log ascending and duplicate-free and the copied rows right |
| Migration.CompleteIffAllReadable | cmd/importdb/message.go:167-190 | The migration succeeds if and only if every row with a positive ID can be read and is accepted and no page query it needs fails |
| Migration.CopyReadsBack | cmd/importdb/message.go:105-156 | Into an empty table, the new rows decrypt to the old ones, with empty content as "None" |
| Migration.CopyKeepsColumns | cmd/importdb/message.go:105-156 | Into an empty table, column by column: numbers and PluralKit columns as they were, content, username and metadata opening to the same texts, empty content to "None" |
| Migration.CopyKeepsExistingRows | cmd/importdb/message.go:153-154 | A row that was there keeps everything but content and metadata |
| Migration.RerunReadsTheSame | cmd/importdb/message.go:150-154 | A second complete migration, under other nonces, leaves the same keys and the same texts for every reader, and rows it does not copy untouched |
| Paths.NormalizeIdempotent | bot/metrics/paths.go:38-61 | Normalising twice is normalising once, on every string |
| Paths.NormalizeReachesNormalForm | bot/metrics/paths.go:38-61 | The result has no listed kind followed by an ID and no run of fifteen digits |
| Paths.UnchangedIffNormalForm | bot/metrics/paths.go:38-61 | A path is left alone exactly when it is in that form |
| Paths.PassKeepsClean | bot/metrics/paths.go:11-30 | No pass creates a match of any rule that has none left |
| Paths.PassOnClean | bot/metrics/paths.go:11-30 | A pass changes nothing where its rule has no match |
| Paths.PrefixSurvives | bot/metrics/paths.go:11-30 | Whatever brace-free prefix a pass's result has, its input had |
| Paths.PassCollapsesId | bot/metrics/paths.go:39-57 | A pass replaces a kind followed by an ID by the kind and its label and treats the text around it separately |
| Paths.IdsIndistinguishable | bot/metrics/paths.go:39-51 | Paths that differ only in an ID after one of the eleven kinds without a token are reported the same, behind webhooks unless the path before ends in a webhook ID |
| Snowflakes.SnowflakesIndistinguishable | bot/metrics/paths.go:38-61 | Paths that differ only in a run of at least fifteen digits, wherever it stands and whatever is around it, are reported the same |
| Snowflakes.PassKeepsTwins | bot/metrics/paths.go:39-58 | Each pass replaces such a run whole or leaves it whole, and the last pass replaces it |
| Snowflakes.NumberHidden | bot/metrics/paths.go:58-58 | A number alone becomes "{snowflake}" if and only if it has at least fifteen digits |
| Paths.ChannelIdsIndistinguishable | bot/metrics/paths.go:39-39 | Paths that differ only in a channel ID are reported the same |
| Tokens.WebhookTokenHidden | bot/metrics/paths.go:42-42 | A webhook's path with any ID and any token is reported as "/webhooks/{webhook_id}/{webhook_token}" |
| Tokens.InteractionTokenHidden | bot/metrics/paths.go:55-55 | The same for interactions |
| Tokens.ReactionHidden | bot/metrics/paths.go:52-52 | The same for a user's reaction, with any emoji that is none of the kinds replaced before |
| Tokens.WebhookTokensIndistinguishable | bot/metrics/paths.go:38-61 | Paths that differ only in a webhook's ID and token are reported the same in every context, unless the path before ends in another webhook's ID or a token followed by more is one of the three kinds replaced before |
| Tokens.InteractionTokensIndistinguishable | bot/metrics/paths.go:38-61 | The same for interactions |
| Tokens.ReactionsIndistinguishable | bot/metrics/paths.go:38-61 | The same for emoji and user of a reaction |
| Tokens.SegmentHidden | bot/metrics/paths.go:39-56 | Each of the fifteen kinds with an ID, emoji or code and nothing else is reported as the kind with its label |
| Tokens.SuffixSurvives | bot/metrics/paths.go:11-30 | Whatever brace-free end a pass's result has, its input had |
| FetchQueue.Bot.GuildCreate | logging/cache/guild_create.go:40-50 | An uncached guild is added to both queues of its shard |
| FetchQueue.Bot.AddToMemberFetchQueue | logging/cache/guild_create.go:53-58 | Adds the guild to this shard's member set, creating it if need be, and to no other |
| FetchQueue.Bot.AddToInviteFetchQueue | logging/cache/guild_create.go:60-65 | The same for the invite set |
| FetchQueue.Bot.Pop | logging/cache/fetch_queue.go:42-59 | Takes some queued guild of this shard from each queue, or none from an empty one |
| FetchQueue.Bot.FetchOneGuild | logging/cache/fetch_queue.go:39-109 | One uninterrupted fetch is the pop, send and invite steps in a row |
| FetchQueue.NoGuildLost | logging/cache/fetch_queue.go:42-79 | In every interleaving across shards a guild ever queued is queued, held by a running fetch or requested |
| FetchQueue.StepKeepsPlaces | logging/cache/fetch_queue.go:42-79 | A step moves a guild between these places and adds it only when it is created |
| FetchQueue.PopsAccounted | logging/cache/fetch_queue.go:46-79 | Each pop ended in an accepted request, is still running, or put the guild back |
| FetchQueue.NoPopWithoutReadding | logging/cache/fetch_queue.go:46-79 | A guild is never popped more often than it was queued or put back |
| FetchQueue.OtherShardsUntouched | logging/cache/fetch_queue.go:40-56 | No step touches the queues of another shard |
| FetchQueue.RefusedRequestReturnsIffValid | logging/cache/fetch_queue.go:61-79 | A refused request puts the guild back exactly when its ID is valid |
| FetchQueue.FailedInviteReturnsIffSameGuild | logging/cache/fetch_queue.go:95-97 | A failed invite fetch puts its guild back exactly when the same guild's members were popped; a list or a refusal puts nothing back |
| FetchQueue.NoInviteGuildLost | logging/cache/fetch_queue.go:52-99 | In every run in which each failed invite fetch of a guild had popped the guild's members too, the guild once queued is queued, held by a fetch, or answered |
| FetchQueue.InviteGuildLost | logging/cache/fetch_queue.go:81-99 | A run after which a guild is in no invite queue |
| Metrics.Client.RegisterEvent | bot/metrics/metrics.go:65-73 | Adds one to this event's counter, wrapping at 2^32, and to nothing else |
| Metrics.Client.IncRequests | bot/metrics/metrics.go:75-83 | The same for an endpoint |
| Metrics.Client.IncQuery | bot/metrics/metrics.go:86-94 | The same for the query counter |
| Metrics.Client.IncCommand | bot/metrics/metrics.go:97-105 | The same for the command counter |
| Metrics.Client.DrainEvents | bot/metrics/metrics.go:150-157 | The loop reads every counter, sums them modulo 2^32 and leaves zeros |
| Metrics.Client.DrainRequests | bot/metrics/metrics.go:163-169 | The same loop over endpoints, without a sum |
| Metrics.Client.SubmitInner | bot/metrics/metrics.go:131-192 | One submission leaves every counter zero and writes what it held |
| Metrics.SectionsAreSubmitInner | bot/metrics/metrics.go:140-182 | A submission run alone, section by section, is the method |
| Metrics.AdvanceConserves | bot/metrics/metrics.go:140-182 | Each critical section moves counts between counter, submission and points without loss |
| Metrics.CountersConserved | bot/metrics/metrics.go:138-169 | Under any interleaving of increments and concurrent submissions, written plus in flight plus current counts equal the increments modulo 2^32 |
| Metrics.SettledCountersConserved | bot/metrics/metrics.go:138-182 | With no submission under way, all written values plus the counter equal the increments modulo 2^32 |
| Metrics.ReportedTotalsAgree | bot/metrics/metrics.go:152-182 | In every interleaving a reported event total is the sum modulo 2^32 of its submission's event values |
| Durations.Format | common/duration/duration.go:21-51 | The branch by size and its parts, zero parts left out |
| Durations.FormatWithoutMonth | common/duration/duration.go:81-105 | Days to rounded seconds |
| Durations.FormatWithoutYear | common/duration/duration.go:54-78 | Months to minutes |
| Durations.PartsAddUp | common/duration/duration.go:121-149 | Over any units the shown parts and the rest add up to the duration, and the rest is less than the last unit |
| Durations.ShownIsExact | common/duration/duration.go:21-105 | What is shown is off by less than an hour from a year on, less than a minute from a month on, at most half a second below |
| Durations.Length | common/duration/duration.go:114-149 | Each unit in nanoseconds is what its function divides by |
| Durations.ShownAreDigits | common/duration/duration.go:21-105 | From each threshold on exactly the digits above zero are shown with their units, in order; below a month also "0 seconds" for less than half a second |
| Durations.ExactIffNonNegative | common/duration/duration.go:81-105 | Below a month the half-second bound holds exactly for durations that are not negative |
| Durations.SecondsInRange | common/duration/duration.go:81-105 | Below a month: days under 30, hours under 24, minutes under 60, rounded seconds at most 60 |
| Durations.MinutesInRange | common/duration/duration.go:54-78 | Below a year: one to twelve months, days under 30, and under 5 when there are twelve months |
| Durations.HoursInRange | common/duration/duration.go:28-48 | From a year on: months at most 12, days under 30, and under 5 when there are twelve months |
| Durations.OrderPreserved | common/duration/duration.go:21-105 | Within a branch longer durations have lexicographically no smaller digits |
| Durations.SmallerDigitsShorter | common/duration/duration.go:21-105 | Within a branch smaller digits mean a shorter duration |
| RolePermissions.PermStringsFor | common/permission_strings.go:88-97 | The names of the entries all of whose bits are set, in table order |
| RolePermissions.NamesAppend | common/permission_strings.go:88-97 | The names come in table order, each entry deciding about its own only |
| RolePermissions.PermissionDiff | logging/roles/role_update.go:83-100 | When every table entry has a bit, a name is in the plus list exactly when an entry of that name was wholly gained, and in the minus list exactly when one was wholly lost |
| RolePermissions.MaskedChange | logging/roles/role_update.go:84-98 | The two masked words are disjoint, and applying both turns the old word into the new one and back |
| RolePermissions.ListedIffChanged | common/permission_strings.go:88-97 | The names for the bits only one word has are exactly those of the table entries all of whose bits it has and none of which the other has |

## Left out

- Discord, PluralKit, Postgres, Redis, Influx and Sentry calls: sends append to a history, tables are maps, and replies and database failures are inputs. The outcome of sending a log is not modelled.
- EmbedQueue.EveryBatchSentOnce: speaks of attempted executions; when one fails the source logs the error and the batch is lost.
- Order of delivery: the timer path sends after unlocking, so only the order in which batches are cut is claimed.
- AES-GCM, hex and JSON: decoding after encoding with the same key is taken to be the identity, whatever the nonce; a row that does not decode is `Corrupt`. Only the migration models nonces; a message row of the handlers holds its texts in the clear.
- AttachmentSize: summed by the create handler but not among the columns the insert writes.
- Durations.Format: works on integers; the rounding of Go's floats near unit boundaries, `FormatTime`, plural forms and English lists are not modelled.
- ContentSplit.FieldsFit: counts characters; Go slices bytes, and can cut inside a multi-byte character.
- EditLogs.EditLogsAreFaithful: the fields after the content, with channel, sender, link and PluralKit data, are any fields.
- ProxyTriggers.TriggerNeverLogged: does not cover a check that comes after the mark was consumed and before the row is dropped: `Races.SecondDeleteLogs` shows it logged, and `ProxyTriggers.DeleteCanLogIff` says when that can happen.
- DeleteAccounting.InterleavingsAccounted: needs deferred deletes that succeed and deletes of one message that take turns between fetch and finish; `DeleteAccounting.OverdrawnIff` says what happens otherwise.
- Metrics.Client.IncRequests: takes the endpoint name as given; `EndpointMetricsName`, `LoggingName` and a nil client are not modelled, nor are runtime figures.
- RolePermissions.PermissionDiff: gives the two lists; the signs, spacer and code block around them, and the role's name, colour and flags, are left out.
- MemoryStore.ListingsAgree: agrees as sets with values; a listing may repeat an entry.
- FetchQueue.NoGuildLost: speaks of the member queue; for the invite queue see `FetchQueue.NoInviteGuildLost`, whose condition the code does not ensure.
- Migration.RerunReadsTheSame: does not promise equal bytes, since every encryption draws a new nonce.
- Paths.IdsIndistinguishable: leaves out short IDs of the kinds with a token, for which see `Tokens`, and behind webhooks short IDs in a path that ends in a webhook ID before the kind, since the token pass takes the kind for the token. IDs of fifteen digits and more are covered by `Snowflakes.SnowflakesIndistinguishable` everywhere.
- Tokens.WebhookTokensIndistinguishable: and its companions leave out tokens and emojis that are themselves one of the kinds replaced before ("/webhooks/1/channels/2"), and paths whose front end makes a pass take the kind for a token or word.
- EditLogs.EditLogsFormChain: and `InterleavedEdits.InterleavedEditsFormChain` ask that updates of the message take turns and that none fails or stays unannounced; `Races.ConcurrentUpdatesFork` shows a fork otherwise.
- PluralKit's log message is taken as already parsed; its regular expressions are not modelled.
- Clock tests, sleeps and `IsMessageIgnored` are nondeterministic inputs of a handler. The comment at `logging/messages/message_delete.go:34` says that messages older than a minute are not looked up at PluralKit; the test at line 35 holds for every message not from the future. The model leaves its outcome open.
- `UpdateUserID`, `IgnoreMessage` and `GuildUser`, which no modelled handler needs for its decisions.
- Commands, buttons, menus, embed titles, colours and mentions: user interface.
- Guild, member and invite caches, Redis stores and configuration parsing: one-step wrappers.
