# Model of publishing, search documents, URL migration and reindexing

This project models four parts of The Monkeys backend and proves what they
promise:

- **The publisher-confirm protocol** of `microservices/rabbitmq`. Any number of
  goroutines share one `ConnManager`. `PublishProtocol` is a step system: every
  goroutine has a program counter, and the manager's lock, the `pubMu` of each
  connection, the confirm channel, the broker, timeouts and network losses are
  interleaved one step at a time. `PublishInvariants` proves an invariant of every
  step; `PublishTheorems` draws from it what holds in every reachable state, and
  `PublishProgress` that the locks never block each other.
  `Publisher` and `Manager` hold the same operations as the source writes them,
  as classes whose methods update a connection and a manager, with the retry loop
  and its pauses; `PublisherTheorems` and `ManagerTheorems` show that every attempt,
  every retry loop and every whole call of the manager is a run of the step system.
- **The search document** of `searchdoc`: `GoStrings` (Go's UTF-8 decoding, section
  4 of RFC 3629, with one U+FFFD for each byte that starts no valid sequence),
  `Text` (truncation, trimming, tag stripping, summary), `Json`, `SearchDoc` (Build
  and Apply), `SearchDocTheorems`, `DeriveTheorems` (what each derived field is made of,
  read off the document) and `ApplyTheorems`.
- **The storage URL migration** of `scripts/migrate`: `StorageUrls` (the rewrite, the
  wildcard query, repeated runs), `UrlEncodings` (the Go rewrite on UTF-8 bytes and
  the Painless rewrite on UTF-16 units give the same text), `Migration` (the scan and
  the script over whole documents).
- **The reindex job** of `scripts/reindex_blogs_v3`: `Reindex` (the loop, the bulk
  call, the counters) and `ReindexTheorems` (what the destination holds).

Loops of the source are loops here, proved against a recursive function that the
theorems are about; the theorems then state what those functions mean.

## What the environment is taken to do

- The broker numbers the publishes of a channel from 1 and the AMQP library hands
  confirmations to the listener in tag order. Closing a channel closes the listener,
  so a receive from it yields the zero confirmation once the buffer is empty. The
  listener buffers 256 confirmations; the library waits when it is full.
- A dial either fails, and is tried again, or yields a new connection, with confirms
  enabled or not. A connection can be lost at any moment. A timeout can happen at
  any moment of a wait.
- The generation counter does not wrap around.
- An index performs any subset of the operations of a bulk request, whatever it
  answers; indexing under an id replaces what was there. What a run reports means
  something only if the index is `Honest`: one status for each operation, and a success
  status only for an operation it has performed. Searches and scrolls return
  any pages, or fail.
- A document comes from JSON: its strings are valid UTF-8. `strings.ToLower` is a
  parameter. Where a theorem needs something of it, `IsNormaliser` says what: it keeps
  UTF-8 valid, and lower-casing and trimming twice is the same as once.

## Where the code does not do what its comments say

- `Reconnect` (`microservices/rabbitmq/rabbitmq.go:329-335`) says that only one of
  several concurrent callers reconnects. It has no gate: each of them closes the
  current connection and dials (`UngatedAlwaysDials`), even if all were waiting for the
  lock together (`BothReconnectsDial`).
- `pubMu` (`microservices/rabbitmq/rabbitmq.go:23`, `228-230`) is said to keep
  confirmations from being mismatched. Delivery tags are never compared, so a
  confirmation that comes after its own wait has timed out is taken by the next
  publisher (`LateAckIsMistaken`). `ConfirmationMatches` gives the exact condition:
  nothing is unanswered at the broker when the publisher leaves the drain loop.
- The drain loop (`microservices/rabbitmq/rabbitmq.go:242-248`) never leaves a closed
  channel. An open channel can be left, and in no interleaving does the loop take more
  turns than there were confirmations outstanding without having ended or lost the
  channel (`DrainEndsIffOpen`). A reconnect can close the channel under a publisher that then loops forever with
  `pubMu` locked (`CloseStrandsPublisher`).
- `Build` (`searchdoc/searchdoc.go:97-102`) says it walks on for a title after the body
  is full. It breaks out of the loop; a later header is lost (`TitleIff`, `TitleLost`).
- `Apply` is a fixed point only through a JSON round trip. Applied twice in memory it
  can exchange the tags, because its own `[]string` is not an `[]interface{}`
  (`ApplyTwiceInMemoryIff`, `ApplyTwiceDiffers`).
- The migration (`scripts/migrate/migrate_es_storage_urls.go:33`) calls itself
  idempotent. A second run is idle exactly when no v1 path starts in what the first
  run kept of the URL (`IdempotentIff`, `NotIdempotent`); as many runs as there are v1
  paths always suffice (`RunsSettle`).
- A URL `http://api/v2/storage/...`, whose host is literally `api`, is altered by the
  rewrite although no wildcard clause selects it (`AlteredIff`, `AltersUnselected`).

## Model

| member | source | states |
|---|---|---|
| PublishInvariants.InvKept | microservices/rabbitmq/rabbitmq.go:165-400 | Every step of every goroutine, of the broker and of the network keeps the whole invariant: lock ownership, one connection per generation, the ledger of each confirm channel, what each waiting publisher knows, and the record of every finished call. |
| PublishInvariants.InvAlong | microservices/rabbitmq/rabbitmq.go:301-400 | So it holds after every run, of any length and any interleaving. |
| PublishInvariants.KeepsManager | microservices/rabbitmq/rabbitmq.go:322-335 | Replaced connections stay closed; a successor is dialled only after the old connection has been closed. |
| PublishInvariants.KeepsHolder | microservices/rabbitmq/rabbitmq.go:165-169 | `pubMu` of a connection is held exactly by the caller inside its critical section, whichever copy of the Conn it uses. |
| PublishInvariants.KeepsPubs | microservices/rabbitmq/rabbitmq.go:236-266 | What the holder of `pubMu` knows about outstanding confirmations survives every step of everybody else. |
| PublishTheorems.OneLiveConnection | microservices/rabbitmq/rabbitmq.go:322-335 | Whenever nobody writes, the manager's connection is the one dialled for its generation; no other connection is open, and none at all while a successor is being dialled. |
| PublishTheorems.GatedReconnectDialsOnce | microservices/rabbitmq/rabbitmq.go:345-358 | Among all reconnectIfStale(g) calls at most one dials; every returned one leaves the generation above g; one did dial unless an ungated Reconnect replaced that generation. |
| PublishTheorems.UngatedAlwaysDials | microservices/rabbitmq/rabbitmq.go:329-335 | Any two completed Reconnect calls made two different dials, against the comment. |
| PublishTheorems.BothReconnectsDial | microservices/rabbitmq/rabbitmq.go:329-335 | A run in which two goroutines wait for the lock inside Reconnect together and both dial, the second closing the first one's unused connection. |
| PublishTheorems.RetryUsesLaterConnection | microservices/rabbitmq/rabbitmq.go:372-384 | The second half of a manager call runs on a connection of a strictly later generation, and the one that failed is closed by then. |
| PublishTheorems.PublishersExclude | microservices/rabbitmq/rabbitmq.go:236-238 | No two goroutines are inside the publish-and-wait section of one connection. |
| PublishTheorems.ConfirmationsConserved | microservices/rabbitmq/rabbitmq.go:165-266 | Publishes = received + drained + buffered + at the broker, in tag order; with `pubMu` free on an open channel, at most as many are outstanding as waits have timed out, and exactly how many is stated. |
| PublishTheorems.ReceivedVerdict | microservices/rabbitmq/rabbitmq.go:260-262 | In every state that satisfies the invariant, a receive yields the verdict `ahead` tags before the publisher's own, or zero only if the channel is closed. |
| PublishTheorems.ConfirmationMatches | microservices/rabbitmq/rabbitmq.go:242-262 | Through any interleaving between drain, send and receive: the confirmation received is the verdict on the publisher's own message if and only if nothing was unanswered at the broker when it left the drain loop. |
| PublishTheorems.NilMeansAcked | microservices/rabbitmq/rabbitmq.go:204-210 | A PublishReliable that returned nil was published, and the broker acked the publish `ahead` places before it, `ahead` being at most the number of timed-out waits. |
| PublishTheorems.NilWithoutTimeouts | microservices/rabbitmq/rabbitmq.go:194-225 | On a connection where no wait has timed out, nil means that the broker acked a copy of this very message. |
| PublishTheorems.CopiesBounded | microservices/rabbitmq/rabbitmq.go:372-400 | A call errs only after all attempts on both connections - maxRetries each, 3 if that is not positive, 1 for PublishMessage - goes through reconnectIfStale at most once, and at most twice that number of copies of its message is ever sent, counted over the whole run. |
| PublishTheorems.DrainTurnsPay | microservices/rabbitmq/rabbitmq.go:242-249 | In every interleaving, as long as the drainer is in the loop and the channel open, its turns and the confirmations still outstanding add up to those outstanding at the start: each turn removes one and nobody else adds any. |
| PublishTheorems.DrainEnds | microservices/rabbitmq/rabbitmq.go:242-249 | If nobody else moves, an open channel is left after one turn more than there are buffered confirmations. |
| PublishTheorems.DrainHangs | microservices/rabbitmq/rabbitmq.go:242-249 | Once the channel is closed, no continuation of the run lets the drainer out, and it keeps `pubMu`. |
| PublishTheorems.DrainEndsIffOpen | microservices/rabbitmq/rabbitmq.go:242-249 | In every reachable state a draining caller can leave the loop if and only if its channel is open; and in every run that takes more turns of the loop than confirmations were outstanding, it has left or the channel is closed. |
| PublishProgress.NoDeadlock | microservices/rabbitmq/rabbitmq.go:236-358 | In every reachable state a goroutine can take a step if and only if it waits for neither lock, and if it waits, the holder of that lock is another goroutine that can. |
| PublishProgress.MuComesFree | microservices/rabbitmq/rabbitmq.go:322-358 | The holder of the manager's lock unlocks it by at most five steps of its own, once a dial succeeds. |
| PublishProgress.PubMuComesFreeIff | microservices/rabbitmq/rabbitmq.go:236-266 | The `pubMu` of a connection can come free if and only if its holder is not in the drain loop of a closed channel; and then the holder frees it by its own steps. |
| PublishTheorems.LateAckIsMistaken | microservices/rabbitmq/rabbitmq.go:236-266 | A run in which a publisher takes the late ack of another's message, returns nil, and its own message is nacked. |
| PublishTheorems.CloseStrandsPublisher | microservices/rabbitmq/rabbitmq.go:322-335 | A run in which Reconnect closes the channel under a publisher that then never returns, whatever happens next. |
| Publisher.Conn.PublishMessage | microservices/rabbitmq/rabbitmq.go:165-192 | Tag order and balance of the channel are kept; with confirms on, the message gets a tag exactly if nil is returned; at most one confirmation more is outstanding, none after an error. |
| Publisher.Conn.PublishAndWaitConfirm | microservices/rabbitmq/rabbitmq.go:231-266 | Refines TryOnce under any answers and any loss of the channel before and during the wait: disabled confirms, drain, publish error, timeout, or the confirmation taken, the closed channel's zero value included; on a channel closed before the drain it does not return. |
| Publisher.Conn.PublishReliable | microservices/rabbitmq/rabbitmq.go:197-226 | Refines Retry under any broker answers and losses during and between the attempts; at most maxRetries attempts, or 3 if that is not positive, and exactly that many before an error; nil exactly when the last attempt received an ack; the pause after failed attempt k is min(500 * 2^(k-1), 10000) ms. |
| PublisherTheorems.AttemptIsARun | microservices/rabbitmq/rabbitmq.go:231-266 | Every attempt of the imperative publisher is a run of the interleaved protocol with the same resulting connection and outcome. |
| PublisherTheorems.RetryIsARun | microservices/rabbitmq/rabbitmq.go:197-226 | So is the whole retry loop, for every number of attempts: the run ends with the connection, the attempt number and the outcome that Conn.PublishReliable computes. |
| PublisherTheorems.SendIsARun | microservices/rabbitmq/rabbitmq.go:165-192 | So is every PublishMessage, with or without confirms; it returns nil exactly when the protocol counts its outcome as a success. |
| PublisherTheorems.AckedIff | microservices/rabbitmq/rabbitmq.go:231-266 | With nothing unanswered at the broker, an attempt is acked exactly when confirms are on, the channel survives until the send, the send succeeds and an ack is the first thing to happen then, before the timer fires. |
| PublisherTheorems.StopsAtFirstDecisive | microservices/rabbitmq/rabbitmq.go:204-225 | Between 1 and max attempts are made: up to the first that is acked or hangs, otherwise all; the result is the last one's. |
| PublisherTheorems.CopiesPerRetry | microservices/rabbitmq/rabbitmq.go:197-234 | At most one copy per attempt, all of this message; with confirms disabled nothing is sent and all attempts fail. |
| PublisherTheorems.NackedThroughout | microservices/rabbitmq/rabbitmq.go:197-225 | Against nothing but nacks on an open channel exactly maxRetries attempts are made, or 3 if that is not positive, and exactly that many copies are published. |
| PublisherTheorems.SentIff | microservices/rabbitmq/rabbitmq.go:171-191 | PublishMessage returns nil exactly if the channel survives until the send and the send succeeds, whatever the confirmation says. |
| Publisher.SendOnceKeeps | microservices/rabbitmq/rabbitmq.go:180-188 | PublishMessage keeps tag order and balance, and leaves one confirmation more outstanding exactly if its wait was not answered by one. |
| PublisherTheorems.PausesTotal | microservices/rabbitmq/rabbitmq.go:215-222 | m pauses add up to 500 * (2^m - 1) ms for m <= 5 and 15500 + 10000 * (m - 5) ms beyond. |
| Manager.Dialer.GetConn | microservices/rabbitmq/rabbitmq.go:27-112 | It connects exactly when there are queues, a routing key for each, a second queue if dead letters are routed, and all 3 + 2 per queue library calls succeed, 3 more with a dead-letter exchange; a failed call leaves no connection open; confirms are on exactly if the broker agreed. |
| Manager.ConnManager.ReconnectIfStale | microservices/rabbitmq/rabbitmq.go:348-358 | Dials exactly if the generation is the caller's, closing the old connection; otherwise nothing changes; the generation ends above the caller's. |
| Manager.ConnManager.PublishReliable | microservices/rabbitmq/rabbitmq.go:372-384 | The result is the first Retry, or after closing and at most one dial the Retry on the connection then current, whoever dialled it; at most twice maxRetries attempts, or 6 if that is not positive, and exactly that many before an error. |
| ManagerTheorems.ReliableCallIsARun | microservices/rabbitmq/rabbitmq.go:372-384 | That whole call, snapshot to return, with any reconnections by another goroutine between its halves, is a run of the interleaved protocol with the same links, generation, attempts and outcome. |
| Manager.ConnManager.PublishMessage | microservices/rabbitmq/rabbitmq.go:388-400 | One send, and only if that failed a second on the connection then current; the failed connection is closed and the generation has moved. |
| ManagerTheorems.PlainCallIsARun | microservices/rabbitmq/rabbitmq.go:388-400 | So is the whole PublishMessage of the manager. |
| GoStrings.BadByteIs | searchdoc/searchdoc.go:216 | A string starts with no properly encoded rune exactly if ranging over it yields U+FFFD for its first byte alone. |
| GoStrings.DecodeEncode | searchdoc/searchdoc.go:213-226 | Decoding what WriteRune wrote gives the runes back, and what it wrote is valid UTF-8. |
| GoStrings.EncodeDecode | searchdoc/searchdoc.go:20-24 | Re-encoding the decoded runes gives the string back exactly if it is valid UTF-8. |
| GoStrings.DecodeConcat | searchdoc/searchdoc.go:92-95 | Appending text that starts with a rune appends its runes. |
| Text.TruncateRunes | searchdoc/searchdoc.go:274-289 | The loop returns the prefix up to the n-th rune. |
| Text.TruncateKeepsRunes | searchdoc/searchdoc.go:274-289 | For every byte string: a prefix, whose runes are the first min(n, count) runes; valid UTF-8 stays valid. |
| Text.TruncateIgnoresRest | searchdoc/searchdoc.go:97-105 | Text appended after the n-th rune at a rune boundary cannot change the truncation. |
| Text.TrimSpaceSplits | searchdoc/searchdoc.go:176 | Trimming cuts white-space runes off both ends and nothing else, and keeps UTF-8 valid. |
| Text.TrimSpaceEnds | searchdoc/searchdoc.go:176 | The result neither starts nor ends with white space. |
| Text.WhiteSpaceIs | searchdoc/searchdoc.go:176 | White space is exactly the 25 runes with Unicode's White_Space property. |
| Text.TrimSpaceStable | searchdoc/searchdoc.go:246 | Trimming twice is trimming once. |
| Text.StripHtmlLite | searchdoc/searchdoc.go:209-227 | The toggling loop with its fast path writes the runes the specification keeps. |
| Text.KeepIsVisible | searchdoc/searchdoc.go:215-225 | Toggling keeps exactly the runes that stand outside every tag, where inside means after a '<' with no '>' since. |
| Text.StripHtmlSpec | searchdoc/searchdoc.go:205-227 | With a '<': exactly the visible runes remain, no bracket among them, valid UTF-8. On any input: stripping again changes nothing. |
| Text.FastPathAgreesIff | searchdoc/searchdoc.go:210-212 | On valid UTF-8 without '<', skipping the loop gives the loop's result exactly if there is no '>'. |
| Text.MakeSummary | searchdoc/searchdoc.go:259-272 | A body of at most 300 runes is returned whole; of a longer one a contiguous piece and an ellipsis, at most 301 runes, valid UTF-8 if the body is. |
| Text.SummaryShape | searchdoc/searchdoc.go:259-272 | At most 301 runes; the whole body if that has at most 300; else a contiguous trimmed piece of it and U+2026. The cut is at the last space, newline or tab of the first 300 runes if that stands beyond byte 150, and then directly before it, otherwise after the 300th rune. Valid UTF-8 stays valid. |
| Json.WireFixes | scripts/reindex_blogs_v3/main.go:226-239 | Marshalling and reading back leaves a value alone exactly if it could have come from JSON. |
| SearchDoc.CastBlockSlice | searchdoc/searchdoc.go:160-168 | Keeps the object entries, in order. |
| SearchDoc.ReadBlockText | searchdoc/searchdoc.go:173-203 | The first non-empty prose field in priority order, otherwise the joined items. |
| SearchDoc.ScanBlocks | searchdoc/searchdoc.go:72-103 | The loop of Build with its early exit, as the scan the body and title theorems are about. |
| SearchDoc.ExtractTags | searchdoc/searchdoc.go:229-257 | The dedup loop with its seen set computes Tags. |
| SearchDoc.Apply | searchdoc/searchdoc.go:120-145 | Copies the document key by key and writes the non-empty derived fields over the copy. |
| SearchDocTheorems.CastSpec | searchdoc/searchdoc.go:160-168 | The blocks are exactly the entries that are objects, in order. |
| DeriveTheorems.BlockTextIs | searchdoc/searchdoc.go:170-203 | A block's text is what "text", "content", "caption" or "code" shows, the first of them in this order that shows anything, and otherwise the trimmed space-join of what the items show; a value shows the runes outside tags. |
| DeriveTheorems.ProseIsVisible | searchdoc/searchdoc.go:174-181 | For a trimmed value with a '<' that leaves a visible rune, and nothing shown by an earlier key, the text decodes to exactly the visible runes of that value. |
| DeriveTheorems.NoTagInBlock | searchdoc/searchdoc.go:173-203 | No block's text has a '<' in it. |
| DeriveTheorems.NoTagInFields | searchdoc/searchdoc.go:62-115 | For every document, neither title nor body nor summary has a '<' in it. |
| SearchDocTheorems.BlockTextItems | searchdoc/searchdoc.go:182-202 | Without any such key it is the tag-stripped texts of the items, joined by single spaces and trimmed; without items it is empty. |
| SearchDocTheorems.JoinItemsSplits | searchdoc/searchdoc.go:184-199 | Items are joined by single spaces, empty ones included, wherever the list is cut in two. |
| SearchDocTheorems.BodyIsLossless | searchdoc/searchdoc.go:92-105 | The early exit loses nothing: the body is the truncated newline-join of the non-empty texts of all blocks. |
| DeriveTheorems.BodyIs | searchdoc/searchdoc.go:147-158 | A top-level `blocks` array wins, else `blog.blocks` is used, and the body is the newline-join of the texts of its object entries cut after 200,000 runes; with neither, title, body and summary are empty. |
| DeriveTheorems.SummaryIsOfBody | searchdoc/searchdoc.go:105-106 | The summary is the body if that has at most 300 runes, and otherwise a summary of that very body. |
| DeriveTheorems.HeaderIff | searchdoc/searchdoc.go:86 | A block is a header exactly if its type is the word header in any mixture of upper and lower case. |
| SearchDocTheorems.TitleIff | searchdoc/searchdoc.go:84-102 | The title is the first non-empty header of the document if and only if there is none or the texts before it fit the byte cap; otherwise it is empty. |
| SearchDocTheorems.TitleLost | searchdoc/searchdoc.go:97-102 | A document whose header is lost because the loop breaks first. |
| SearchDocTheorems.TagsSpec | searchdoc/searchdoc.go:229-257 | Each tag is non-empty and stands at its first occurrence, in order, and every non-blank string entry is represented. |
| DeriveTheorems.TagsAre | searchdoc/searchdoc.go:241-255 | The tags are exactly the non-empty results of lower-casing and then trimming the string entries. |
| DeriveTheorems.TagsFrom | searchdoc/searchdoc.go:229-235 | A top-level `tags` array wins, else `blog.tags` is used, else there are none. |
| SearchDocTheorems.TagsDistinct | searchdoc/searchdoc.go:250-254 | No tag occurs twice. |
| SearchDocTheorems.TagsOfTags | searchdoc/searchdoc.go:229-257 | Extracting tags from extracted tags gives them back unchanged. |
| ApplyTheorems.DerivedValid | searchdoc/searchdoc.go:20-24 | Every derived field of a document that came from JSON is valid UTF-8, and its tags are settled. |
| ApplyTheorems.ApplyTouchesOnlyDerived | searchdoc/searchdoc.go:120-145 | No key is lost, only the four derived keys are added or changed, and an empty derived field leaves its key alone. |
| ApplyTheorems.ApplyWrites | searchdoc/searchdoc.go:132-143 | Each of the four keys gets the derived field of its name unless that came out empty. |
| ApplyTheorems.StoredDerivesSame | searchdoc/searchdoc.go:117-145 | A stored document yields the same fields again. |
| ApplyTheorems.ApplyIdempotent | searchdoc/searchdoc.go:117-145 | Apply followed by a JSON round trip is idempotent. |
| ApplyTheorems.ApplyTwiceInMemoryIff | searchdoc/searchdoc.go:141-143 | Without the round trip, a second Apply changes nothing if and only if there were no tags, or `blog.tags` yields none or the same. |
| ApplyTheorems.ApplyTwiceDiffers | searchdoc/searchdoc.go:229-235 | A document whose tags change on the second Apply. |
| ApplyTheorems.AsciiLowerIsNormaliser | searchdoc/searchdoc.go:246 | What the theorems ask of lower-casing can be met: lower-casing ASCII does. |
| StorageUrls.AlteredIff | scripts/migrate/migrate_es_storage_urls.go:131-153 | The rewrite alters a URL if and only if one of the four wildcard clauses selects it or its host is literally "api"; every selected URL is altered. |
| StorageUrls.AltersUnselected | scripts/migrate/migrate_es_storage_urls.go:131-153 | A URL that is altered although no clause selects it. |
| StorageUrls.RewrittenIsRelative | scripts/migrate/migrate_es_storage_urls.go:199-214 | Every rewritten URL starts with /api/v2/storage/. |
| StorageUrls.PostRewritten | scripts/migrate/migrate_es_storage_urls.go:203-205 | A URL with /api/v1/files/post/ becomes /api/v2/storage/posts/ and what follows its first occurrence. |
| StorageUrls.ProfileRewritten | scripts/migrate/migrate_es_storage_urls.go:206-208 | Without that, one with /api/v1/files/profile/ becomes /api/v2/storage/profiles/ and what follows its first occurrence. |
| StorageUrls.OtherRewritten | scripts/migrate/migrate_es_storage_urls.go:209-213 | Without either, an http or https URL is cut to its first /api/v2/storage/, and any other is left as it is. |
| StorageUrls.RewrittenDiffers | scripts/migrate/migrate_es_storage_urls.go:199-214 | The changed flag is true exactly when the string differs. |
| StorageUrls.RewriteReduces | scripts/migrate/migrate_es_storage_urls.go:202-208 | A v1 rewrite leaves exactly the v1 paths that start from the old path's last slash on, which are strictly fewer, overlapping ones included. |
| StorageUrls.IdempotentIff | scripts/migrate/migrate_es_storage_urls.go:31-36 | Rewriting twice is rewriting once if and only if no v1 path starts in that rest; so for every URL with at most one v1 path. |
| StorageUrls.RunsSettle | scripts/migrate/migrate_es_storage_urls.go:31-36 | Repeated rewriting reaches a fixed point after at most as many runs as there are v1 paths, and at least one. |
| StorageUrls.NotIdempotent | scripts/migrate/migrate_es_storage_urls.go:33 | A URL on which the second run is not idle. |
| UrlEncodings.IndexCommutes | scripts/migrate/migrate_es_storage_urls.go:338-352 | In every encoding that is transparent to ASCII, an ASCII pattern is found right after the encoding of what precedes it in the text. |
| UrlEncodings.PreviewCommutes | scripts/migrate/migrate_es_storage_urls.go:201-214 | Rewriting the encoded URL is encoding the rewritten URL, and the changed flag is the same. |
| UrlEncodings.ScriptAgrees | scripts/migrate/migrate_es_storage_urls.go:332-356 | On every UTF-8 URL the Go rewrite and the Painless rewrite, one on bytes and one on UTF-16 units, give the same URL. |
| Migration.Scan.ProcessHits | scripts/migrate/migrate_es_storage_urls.go:217-267 | The three counters grow by the documents, by the documents with a conversion, and by the conversions. |
| Migration.RewriteInPlace | scripts/migrate/migrate_es_storage_urls.go:334-355 | The script's loop over the block list, in place: it throws exactly on the stated malformed values, and otherwise every block keeps all its keys and values but data.file.url, which becomes the previewed URL. |
| Migration.ScriptKeepsTheRest | scripts/migrate/migrate_es_storage_urls.go:335-353 | One turn of the script keeps every key of the block, of its data and of its file, and every value but data.file.url, which becomes the previewed URL; a block without a URL is unchanged. |
| Migration.ScriptDocKeepsTheRest | scripts/migrate/migrate_es_storage_urls.go:333-356 | And of the document everything but the listed blocks. |
| Migration.BlockAltered | scripts/migrate/migrate_es_storage_urls.go:335-353 | The script alters exactly the blocks the scan counts, sets their URL to the previewed one, and changes nothing else of them. |
| Migration.ScanPredictsScript | scripts/migrate/migrate_es_storage_urls.go:232-265 | On a document the script can process, the URLs counted are exactly the blocks it alters, and the document needs an update exactly if it is altered. |
| Migration.TotalsPredict | scripts/migrate/migrate_es_storage_urls.go:301-305 | Over any documents that come from JSON and that the script does not throw on, the totals the scan prints are the numbers of blocks and of documents the script alters. |
| Migration.SecondRun | scripts/migrate/migrate_es_storage_urls.go:31-36 | A second scan counts exactly the URLs that kept a v1 path; a second run changes the document exactly if there is one. |
| Reindex.BulkIndex | scripts/reindex_blogs_v3/main.go:222-276 | Written is the number of statuses from 200 to 299 over all items and failed the number of the others, 0 and all operations on an HTTP error, 0 and 0 without an answer; the index has performed what it performed. |
| Reindex.BuildBatch | scripts/reindex_blogs_v3/main.go:133-142 | One operation for each hit with an object source, in order; the others are counted as skipped. |
| Reindex.Run | scripts/reindex_blogs_v3/main.go:108-173 | The scroll loop computes Loop: destination, counters and error. |
| ReindexTheorems.RunIsPrefix | scripts/reindex_blogs_v3/main.go:130-173 | Whatever fails, the run has stored and counted exactly the pages before the one that ended it, and a page whose bulk failed as far as the index performed it; which error is returned says why; a dry run stores nothing. |
| ReindexTheorems.CountsDelivered | scripts/reindex_blogs_v3/main.go:130-153 | In every run read is the number of hits on the handled pages and skipped the number of those without an object source; in a dry run written is the number with one, and errors is 0. |
| ReindexTheorems.PageBalancedIff | scripts/reindex_blogs_v3/main.go:130-153 | A page keeps read = written + skipped + errors if and only if it is a dry run, an empty batch, an HTTP error, or the answer has one status for each operation. |
| ReindexTheorems.RunBalanced | scripts/reindex_blogs_v3/main.go:108-173 | So the counters balance at the end of every run, aborted or not, whose bulk answers account for each operation. |
| ReindexTheorems.SuccessMeansUpsert | scripts/reindex_blogs_v3/main.go:144-170 | If an honest index let the run end without a bulk error and with no item counted as failed, the destination is the old one with every delivered document stored in order. |
| ReindexTheorems.DestinationIsApplied | scripts/reindex_blogs_v3/main.go:108-173 | So after a run that reports no error every document on the pages it handled with an object source is stored under its id enriched, and every other id is as before. |
| ReindexTheorems.StatusTells | scripts/reindex_blogs_v3/main.go:265-274 | Whatever the run reports as a whole, on a page answered by an exact index a document delivered once is stored enriched if its item has a success status, and its id is untouched if not. |
| ReindexTheorems.WrittenIsPerformed | scripts/reindex_blogs_v3/main.go:145-153 | With an honest index no run counts more documents as written than the index performed on the pages it handled; with an index that also owns up to everything it did, the counter is right unless a bulk gave up. |
| ReindexTheorems.UpsertOrderless | scripts/reindex_blogs_v3/main.go:130-142 | The destination depends only on which documents are delivered, not on their order or pages. |
| ReindexTheorems.SecondRunChangesNothing | scripts/reindex_blogs_v3/main.go:108-173 | Two runs that report no error and whose handled pages deliver the same documents once each, in any order and pages, leave the same destination, and the second changes nothing. |
| ReindexTheorems.ReindexOfReindexed | scripts/reindex_blogs_v3/main.go:140-141 | Reindexing an index that a reindex wrote copies its documents unchanged. |

## Left out

- The AMQP library, Elasticsearch, HTTP, clocks and logging: their outcomes are steps or parameters; requests, credentials and message texts are not part of this model.
- The infinite dial loop of Reconnect (`microservices/rabbitmq/rabbitmq.go:145-159`): a failing dial is a step that can repeat for ever; that it ends is not claimed.
- Fairness and progress: the step system says what can happen, not that a goroutine is scheduled; only the drain loop has a termination result.
- Sleeps between attempts are not steps of the interleaved protocol, since any steps may come between two attempts anyway; their lengths are those of Conn.PublishReliable.
- The writer preference of the read-write lock, and connSnapshot and Channel as separate steps: a snapshot is one atomic step that needs no writer inside.
- Publisher.Conn.PublishReliable: other goroutines' publishes between two of its attempts are not among its events; how it interleaves with them is what the step system says.
- Manager.ConnManager.PublishReliable: others replace the manager's connection only between its halves, while inside a half the connection can be lost at any event; every other interleaving is in the step system.
- Manager.ConnManager.PublishMessage: as for PublishReliable.
- Manager.Dialer.GetConn: the declarations are calls that succeed or fail; their arguments, and what the broker does with exchanges, queues and bindings, are not modelled.
- Wrap-around of the 64-bit generation.
- ReceiveData, Channel and signal handling in `microservices/rabbitmq/rabbitmq.go`: plumbing.
- The Unicode tables behind ToLower: a parameter, see IsNormaliser above. TrimSpace has its exact table.
- A nil document passed to Apply, which is returned as nil; `map[string]Json` values are never nil.
- JSON numbers are reals: rounding to float64 is not modelled, and no modelled code looks at numbers.
- Aliasing between the copy Apply makes and the original's nested values: documents are values here, so that the input stays unmodified is built in.
- UrlEncodings.ScriptAgrees: covers URLs that are valid UTF-8, the only ones a JSON document can hold; a lone surrogate in a stored document is not modelled.
- The scroll loop of the migration, its conflict handling and refresh: processHits and the script are modelled for any hits and any document.
- assertIndexExists, clearScroll and the command line of the reindex job.
- Services, gateway, generated protobuf code, configuration and constant tables of the repository: wiring, or single branches.
