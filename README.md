# Ingestion pipeline of protoss, modelled in Dafny

protoss turns files dropped into a watch folder into searchable vectors. The
work passes through a chain of stages that talk only through named Redis
lists:

- the **watcher** (`cybernetics_core/sentry.py`, and an older module-level
  version in `cybernetics-core/sentry.py`) lists the supported files of the
  watch folder. Each file goes out as a message carrying its Base64 content,
  after which the file is moved into the processed folder;
- the **extractor** (`gateway/zealot.py`) pops file messages, validates them,
  decodes the Base64 content, dispatches on the file extension (PDF, text,
  Markdown, JSON rendered by `json_to_text`) and forwards the documents under
  the same message id;
- the **chunker** (`twilight_council/stalker.py`, and the older
  `twilight-council/stalker.py`) reads the documents back, splits them into
  pages and forwards them under a freshly generated id;
- the **embedder** (`nexus/probe.py`) keeps the non-blank pages, asks for one
  vector per page and upserts points into the vector store
  (`pylon/warp_prism.py`);
- the **question-answering API** (`robotics-bay/disruptor.py`) validates
  requests, embeds the question, collects the indexed text of the search
  hits and wraps it into a prompt.

The queue store is modelled on values: `pylon/colossus.py` becomes a map from
queue name to list, with `rpush` at the tail, `blpop` at the head and an
empty name standing for the default queue. The gateway objects whose fields
change (`RedisGateway`, `QdrantGateway`, the watcher's `FileSystem`,
`WatcherService` with its `seen` set, the id source) are classes. Every stage
iteration is a method whose `ensures` ties the new state to a pure step
function, and the properties are proved as lemmas about those functions.
Library calls whose code is not part of the model become function-typed
parameters: the PDF loader, `bytes.decode`, `json.loads`/`json.dumps`, the
semantic splitter, the embedding model, mime detection, the embedding HTTP
endpoint and `qdrant.search`. A raising call is `None`.

Files:

| file | models |
|---|---|
| `wrappers.dfy` | `Option` and `Result` |
| `text.dfy` | `str.join`, `split`, `lower`, `strip`, `endswith`, `rfind`, `basename`, `str(n)` |
| `base64.dfy` | `base64.b64encode` and CPython's non-strict `b64decode` (RFC 4648, section 4) |
| `json_text.dfy` | JSON values, `str()`/`repr()`, `json_to_text` of `pylon/void_ray.py` |
| `envelope.dfy` | the message envelope (`decode_message`, `is_valid_message`, `generate_message`, `send_it`) |
| `queue_store.dfy` | `pylon/colossus.py`, the error counters, the id source |
| `documents.dfy` | `Document` records and their JSON form |
| `vector_index.dfy` | `pylon/warp_prism.py` |
| `extractor.dfy` | `gateway/zealot.py` |
| `chunker.dfy`, `legacy_chunker.dfy` | the two chunkers |
| `embedder.dfy` | `nexus/probe.py` and `get_vectors` of `pylon/mothership_core.py` |
| `watcher.dfy`, `legacy_watcher.dfy` | the two watchers |
| `retrieval.dfy` | `robotics-bay/disruptor.py` |

Where the code departs from the obvious protocol, the model follows the code:

- the chunker forwards under a fresh id, not the incoming one;
- the `continue` paths of every stage skip the `check_interval` sleep;
- the watcher leaves `seen` unchanged on a failed tick;
- the older chunker reads the fixed key `"content"`;
- `get_message` as written returns nothing. The stages are modelled with the
  evidently intended `get_message`, which returns the popped item (see
  Findings).

## Model

| member | source | states |
|---|---|---|
| Text.Digits | pylon/colossus.py:25-26 | every id text is non-empty and longer than one digit from 10 on |
| Text.DigitsInjective | pylon/colossus.py:25-26 | distinct counters give distinct id texts, which is what makes the counter a fresh-id source |
| Text.LowerIdempotent | cybernetics_core/sentry.py:34-35 | lower-casing twice is lower-casing once |
| Text.StripLeft | nexus/probe.py:41 | `lstrip` removes exactly a prefix of whitespace and leaves no leading whitespace |
| Text.StripRight | nexus/probe.py:41 | `rstrip` removes exactly a suffix of whitespace and leaves no trailing whitespace |
| Text.StripEmptyIffBlank | nexus/probe.py:41 | `page_content.strip()` is empty exactly when the text is whitespace only |
| Text.RFind | cybernetics_core/sentry.py:44 | the found position holds the character and no later position does; -1 when absent |
| Text.JoinLength | robotics-bay/disruptor.py:157 | a join holds every part plus one separator between each two |
| Text.SplitJoin | pylon/void_ray.py:22-24 | splitting a newline join of newline-free parts gives the parts back |
| Base64.Encode | cybernetics_core/sentry.py:50 | the encoding is padded to 4·ceil(n/3) characters drawn from the alphabet and `=` |
| Base64.CharOfValue | gateway/zealot.py:131 | decoding a character of the alphabet gives the value it encodes |
| Base64.RunEncode | gateway/zealot.py:131 | the decoder, run over an encoding, appends exactly the encoded octets |
| Base64.DecodeEncode | gateway/zealot.py:131 | `b64decode(b64encode(data)) == data` for every byte string |
| JsonText.Lookup | gateway/zealot.py:72 | a key is found exactly when an entry carries it, and the value found is that entry's |
| JsonText.JsonToText | pylon/void_ray.py:19-26 | an empty dict and an empty list print as ""; a non-empty dict starts with its first key's line head and a list with its item marker |
| JsonText.ScalarIgnoresIndent | pylon/void_ray.py:25-26 | a value that is neither dict nor list prints as its `str()`, whatever the indent |
| JsonText.FlatDictLines | pylon/void_ray.py:21-22 | a dict of scalars prints one line per entry, in order: 2·indent spaces, the key, `": "`, the value |
| JsonText.FlatListLines | pylon/void_ray.py:23-24 | a list of scalars prints one line per item, in order: 2·indent spaces, `"- "`, the item |
| JsonText.NestPrefixStep | pylon/void_ray.py:22-24 | each nesting level adds one marker indented two spaces deeper |
| JsonText.SingletonList | pylon/void_ray.py:23-24 | a one-item list prints as its marker followed by the item one level deeper |
| JsonText.NestText | pylon/void_ray.py:19-26 | a scalar at depth d is printed after d markers, the k-th carrying 2·(indent+k) spaces |
| Envelope.DecodeMessage | gateway/zealot.py:116-118 | a serialised message decodes to its fields, anything else to nothing |
| Envelope.Get | gateway/zealot.py:127-130 | `dict.get` finds exactly the present keys |
| Envelope.GetValue | twilight_council/stalker.py:45 | a missing field reads as `None` |
| Envelope.FileMessageValid | gateway/zealot.py:121-124 | a watcher message carries every field the extractor requires, each holding what the watcher wrote |
| Envelope.ContentMessageRoundTrip | gateway/zealot.py:139 | a `send_it` message carries the id as given and its content decodes back to the serialised bytes |
| QueueStore.Recorded | gateway/zealot.py:88 | `record_error` adds one to its type and leaves the others |
| QueueStore.Push | pylon/colossus.py:34 | `rpush` appends at the tail of its list and changes no other list |
| QueueStore.Pop | pylon/colossus.py:47 | `blpop` takes the head of a non-empty list, keeps the rest in order, and changes no other list |
| QueueStore.PushAllContents | pylon/colossus.py:34 | pushing a batch appends it in order |
| QueueStore.PopManyDrains | pylon/colossus.py:47 | popping as many times as a list is long returns it oldest first and empties it |
| QueueStore.FifoOrder | pylon/colossus.py:34-47 | with one consumer, items come out in the order they were pushed, after what the list held |
| QueueStore.PushPopCommute | pylon/colossus.py:34-47 | a push at the tail does not change what the next pop of a non-empty list returns |
| QueueStore.GetReturnsHead | pylon/colossus.py:41-50 | with a working connection a non-empty queue hands out its head, keeps the rest, records nothing and does not sleep |
| QueueStore.GetFaults | pylon/colossus.py:51-64 | as the handlers intend (as written they never run, see Findings): a connection error records `redis`, any other error `unexpected`, a timeout nothing; every failure sleeps and leaves the queues |
| QueueStore.MessageLostAsWritten | pylon/colossus.py:41-64 | as written, on the synchronous connected client this model assumes, a non-empty queue loses its head and `get_message` returns `None` |
| QueueStore.GetMessageAsWritten | pylon/colossus.py:45-64 | as written, a failing `blpop` escapes `get_message` because the first `except` clause itself raises; otherwise it returns `None`, counting nothing and not sleeping |
| QueueStore.FaultHandlersNeverRunAsWritten | pylon/colossus.py:45-64 | as written, every fault escapes and the stage ends failed with its counters as they were and its sleep, where the intended handlers count a lost connection or an unexpected error and return `None` |
| QueueStore.IdsDistinct | pylon/colossus.py:25-26 | ids minted from different counters differ |
| QueueStore.IdRange | pylon/warp_prism.py:61 | a batch of n point ids holds n ids |
| QueueStore.IdRangeFresh | pylon/warp_prism.py:61 | the ids of one batch are pairwise distinct and differ from every id issued before |
| QueueStore.UuidSource.constructor | pylon/colossus.py:25-26 | a new id source has issued nothing |
| QueueStore.UuidSource.Mint | pylon/colossus.py:25-26 | each id is one never issued before, and it joins the issued set |
| QueueStore.UuidSource.MintMany | pylon/warp_prism.py:59-66 | n calls of `uuid4` give the next n ids, in order |
| QueueStore.Metrics.constructor | gateway/zealot.py:88 | the error counters start empty |
| QueueStore.RedisGateway.constructor | pylon/colossus.py:10-11 | a new gateway sees empty queues |
| QueueStore.RedisGateway.SendMessage | pylon/colossus.py:28-39 | the message joins the tail of the resolved queue, the default one for an empty name; a lost connection changes nothing and raises nothing |
| QueueStore.RedisGateway.GetMessage | pylon/colossus.py:41-64 | `get_message` as its handlers intend (see Findings): it takes the head of the resolved queue or fails as `GetStep` says, updating the counters |
| QueueStore.RedisGateway.GetQueueSize | pylon/colossus.py:66-70 | the size is the length of the resolved queue, the default one for an empty name, and nothing changes |
| QueueStore.RedisGateway.GenerateMessageId | pylon/colossus.py:25-26 | the id returned was never issued before |
| QueueStore.RedisGateway.SendIt | gateway/zealot.py:139 | the content, Base64-encoded under the content field, joins the tail of the resolved queue under the given id |
| Documents.DocsToJson | twilight_council/stalker.py:58 | the JSON list holds one object per document, in order |
| Documents.DocRoundTrip | twilight_council/stalker.py:50 | `Document(**d)` of a serialised document is that document |
| Documents.Iterate | twilight_council/stalker.py:49-52 | iterating a list gives its items, a dict its keys and a string its characters; anything else is not iterable |
| Documents.NormaliseAll | twilight_council/stalker.py:49-52 | the comprehension succeeds exactly when every element does, and keeps length and order |
| Documents.FromPages | nexus/probe.py:39 | `[Document(**page) for page in ...]` succeeds exactly when every element is a document object, keeping length and order |
| Documents.DocsRoundTrip | nexus/probe.py:39 | a list of serialised documents reads back as the same documents, in both stages |
| Documents.StringBecomesCharacters | twilight_council/stalker.py:49-52 | a string where a list is expected becomes one document per character |
| VectorIndex.GeneratePoints | pylon/warp_prism.py:55-67 | `None` exactly when vectors or documents are missing or empty; otherwise min of the lengths points, point i pairing vector i with `{index_field: document i}` |
| VectorIndex.PointIdsFresh | pylon/warp_prism.py:61 | point ids are pairwise distinct and differ from every earlier id, so from any message id |
| VectorIndex.UpsertedContents | pylon/warp_prism.py:69-74 | after an upsert the collection holds each point under its id, keeps every other entry and adds nothing else |
| VectorIndex.QdrantClient.constructor | pylon/warp_prism.py:11-18 | a new client sees an empty collection |
| VectorIndex.QdrantClient.RecreateCollection | pylon/warp_prism.py:30-36 | recreating empties the collection |
| VectorIndex.QdrantClient.CreatePayloadIndex | pylon/warp_prism.py:40-44 | the index joins the indexes and the collection is unchanged |
| VectorIndex.QdrantClient.Upsert | pylon/warp_prism.py:71-74 | the collection becomes the upsert of the points |
| VectorIndex.QdrantGateway.constructor | pylon/warp_prism.py:8-9 | a new gateway has no client |
| VectorIndex.QdrantGateway.InitializeClient | pylon/warp_prism.py:11-18 | a fresh, empty client replaces any earlier one |
| VectorIndex.QdrantGateway.GetClient | pylon/warp_prism.py:23-26 | an existing client is returned as it is; only a missing one is created |
| VectorIndex.QdrantGateway.RecreateCollection | pylon/warp_prism.py:28-36 | without a client nothing happens; with one its collection is emptied |
| VectorIndex.QdrantGateway.CreatePayloadIndex | pylon/warp_prism.py:38-44 | without a client nothing happens; with one the index is added |
| VectorIndex.QdrantGateway.AddPointsAsWritten | pylon/warp_prism.py:69-74 | as written, a non-empty batch raises exactly when no client exists; with a client it is upserted, a missing batch leaves the collection, and the indexes never change |
| VectorIndex.QdrantGateway.AddPoints | pylon/warp_prism.py:69-74 | the corrected `add_points`, reaching the client through `get_client` where lines 69-74 raise without one: an empty or missing batch changes nothing; a non-empty one is upserted, keeping the indexes of an existing client |
| VectorIndex.StartupAsWritten | nexus/probe.py:13-15 | the embedder's gateway as written stores nothing and raises on the first batch |
| VectorIndex.StartupCorrected | nexus/probe.py:13-15 | with `add_points` going through `get_client`, the first batch is stored |
| Extractor.Suffix | gateway/zealot.py:37 | `Path.suffix` is empty or a dot-led ending of the name with no other dot, and a last dot strictly inside the name yields the name from that dot on |
| Extractor.ExtensionIgnoresCase | gateway/zealot.py:37 | the lower-cased suffix does not depend on the case of the file name |
| Extractor.ExtractUnsupported | gateway/zealot.py:81 | any extension but `.pdf`, `.txt`, `.md` and `.json` is refused with that extension, and only those |
| Extractor.ExtractPages | gateway/zealot.py:40-55 | pages come exactly from a `.pdf` file whose loading succeeds, and they are the loader's pages |
| Extractor.ReportPdfIsPdf | gateway/zealot.py:37-55 | `dir/Report.PDF` has the extension `.pdf` and goes to the PDF loader, getting its pages |
| Extractor.ExtractPlainText | gateway/zealot.py:63-68 | `.txt` and `.md` give the decoded text and fail exactly when decoding fails |
| Extractor.ExtractJson | gateway/zealot.py:70-79 | `.json` gives `json_to_text` of the parsed value; decoding and parse failures are told apart |
| Extractor.ExtractIgnoresCase | gateway/zealot.py:36-81 | the dispatch does not depend on the case of the file name |
| Extractor.ReadDocumentsRecords | gateway/zealot.py:83-104 | exactly one error is recorded exactly when no documents come back; documents returned are the non-empty extraction |
| Extractor.ReadPlainText | gateway/zealot.py:83-96 | a non-empty text file is read with no error recorded |
| Extractor.ForwardKeepsId | gateway/zealot.py:128-139 | a forwarded documents message carries the file message's id, and only valid messages with decodable content are forwarded |
| Extractor.ExtractStepOutput | gateway/zealot.py:111-139 | one iteration appends at most one message, to the documents queue only and only on a forward; no other queue changes |
| Extractor.ExtractStepKeepsId | gateway/zealot.py:111-139 | the pushed documents message carries the popped file message's `id` and no id is taken from the id source; its content decodes back to the serialised extraction |
| Extractor.ExtractStepSleeps | gateway/zealot.py:112-145 | the `continue` paths skip the sleep; a forward and a caught exception sleep |
| Extractor.HelloScenario | gateway/zealot.py:111-139 | the message for `a.txt` holding `SGVsbG8=` is forwarded as the text `Hello` under its own id |
| Extractor.ExtractorService.constructor | gateway/zealot.py:20-21 | the service holds the shared gateway |
| Extractor.ExtractorService.ReadDocumentsFromMessage | gateway/zealot.py:83-104 | returns the read documents and records its error in the shared counters |
| Extractor.ExtractorService.LookForFileMessagesOnce | gateway/zealot.py:106-145 | one iteration changes the queues and counters exactly as `ExtractStep` says |
| Chunker.SplitIntoChunks | pylon/mothership_core.py:26-35 | nothing for an empty list; otherwise the splitter's pages, raising when it raises |
| Chunker.SplitAsWrittenDropsPages | pylon/mothership_core.py:26-35 | as written, pages the splitter produced never reach the caller; elsewhere both versions agree |
| Chunker.PagesJson | twilight_council/stalker.py:58 | `None` serialises as null, pages as their JSON list |
| Chunker.ChunkStepOutput | twilight_council/stalker.py:35-58 | one iteration appends at most one message, to the pages queue only and only on a forward |
| Chunker.ChunkStepFreshId | twilight_council/stalker.py:58 | the pages go out under an id never issued before; the source advances exactly on a forward |
| Chunker.ChunkStepSleeps | twilight_council/stalker.py:36-64 | the `continue` paths skip the sleep; the chunker records no error |
| Chunker.MissingContentRaises | twilight_council/stalker.py:45-47 | a message without the content field raises inside `b64decode` |
| Chunker.ChunkerReadsDocuments | twilight_council/stalker.py:45-58 | with an initialised `OllamaGateway` (see Findings), documents the extractor sent are read back whole and split; an empty list forwards `None` |
| Chunker.ChunkerForwardsOnlyNoneAsWritten | pylon/context.py:13-19 | as deployed, with the `OllamaGateway` never initialised, whatever the chunker pops it drops, raises on, or forwards as `None` |
| Chunker.ChunkerUninitialisedAsWritten | pylon/context.py:13-19 | as deployed, a non-empty document list from the extractor always raises, where an initialised gateway forwards the splitter's pages |
| Chunker.ChunkerSplitsCharacters | twilight_council/stalker.py:49-52 | the extractor's text arrives as a string and is split as one document per character |
| Chunker.ChunkerService.constructor | twilight_council/stalker.py:12-13 | the service holds the shared gateway |
| Chunker.ChunkerService.LookForDocumentMessagesOnce | twilight_council/stalker.py:30-64 | one iteration changes the queues, counters and id source exactly as `ChunkStep` says |
| LegacyChunker.HandleLegacyMessage | twilight-council/stalker.py:20-46 | exactly an undecodable or empty message is dropped; what is forwarded is the splitter's list of pages for the Base64-decoded `"content"` string |
| LegacyChunker.LegacyContentKey | twilight-council/stalker.py:30-31 | the payload is read from `"content"` only: under any other content field nothing is forwarded |
| LegacyChunker.LegacySplitsBytesAsWritten | twilight-council/stalker.py:30-42 | with the library's splitter over the decoded bytes, a non-empty payload raises and only an empty one is forwarded, as an empty list |
| LegacyChunker.LegacyStepFailsAsWritten | twilight-council/stalker.py:18-52 | an iteration that pops a message with a non-empty payload ends in the `except` path: the message is gone, nothing is pushed, no id is taken, no error is recorded, and it sleeps |
| LegacyChunker.LegacyStepOutput | twilight-council/stalker.py:18-52 | at most one message, to the pages queue, under a fresh id; the `continue` paths skip the sleep |
| LegacyChunker.LookForDocumentMessagesOnce | twilight-council/stalker.py:15-52 | one iteration changes the queues, counters and id source exactly as `LegacyStep` says |
| Embedder.Kept | nexus/probe.py:41 | the kept texts are no more than the pages and none is blank |
| Embedder.KeptConcat | nexus/probe.py:41 | the filter works page by page, keeping order |
| Embedder.KeptSingle | nexus/probe.py:41 | a page is kept exactly when its `strip()` is not empty |
| Embedder.GetVectors | pylon/mothership_core.py:37-41 | nothing for an empty list; otherwise the model's vectors for exactly those texts |
| Embedder.EmbedPages | nexus/probe.py:41-49 | pages are stored exactly when some text is kept and the model returns vectors, and then with exactly the kept texts |
| Embedder.GetVectorsUninitialised | nexus/probe.py:11 | the never-initialised gateway raises on any non-empty list |
| Embedder.ProbeStoresNothingAsWritten | nexus/probe.py:11-49 | as written, no page reaches the store; with initialised gateways, kept pages are stored |
| Embedder.HandlePagesMessage | nexus/probe.py:27-49 | a store carries only non-blank texts with the model's vectors for them |
| Embedder.EmbedStepSink | nexus/probe.py:22-54 | the embedder pushes to no queue, may only pop the pages queue, and changes the collection only on a store |
| Embedder.EmbedStepStores | nexus/probe.py:43-49 | point i holds the i-th fresh id, vector and kept text; older entries stay; nothing else is added |
| Embedder.StoredPoints | nexus/probe.py:43-49 | upserting the generated points into a collection of older ids adds one point per pair under fresh ids and keeps every older entry |
| Embedder.EmbedderReadsPages | nexus/probe.py:33-41 | pages the chunker sent are read back whole, so what is embedded depends on the pages alone |
| Embedder.LookForPagesMessagesOnce | nexus/probe.py:17-54 | one iteration changes the queues, counters, id source and collection exactly as `EmbedStep` says |
| Watcher.IsSupportedIgnoresCase | cybernetics_core/sentry.py:34-35 | support does not depend on the case of the file name |
| Watcher.ToSendIsCurrent | cybernetics_core/sentry.py:76-80 | new and modified files are disjoint and together are exactly the listed files |
| Watcher.LStripSlash | cybernetics_core/sentry.py:64 | `lstrip("/")` removes exactly the leading slashes |
| Watcher.PathJoinRelative | cybernetics_core/sentry.py:64 | joining a relative part appends it to the folder |
| Watcher.PathJoinInjective | cybernetics_core/sentry.py:68 | distinct names joined to one folder give distinct paths |
| Watcher.BaseNameOfJoin | cybernetics_core/sentry.py:44 | `basename` of a name joined to a folder is the name |
| Watcher.ProcessedPathInside | cybernetics_core/sentry.py:64-68 | a processed file lands inside the watch folder and the processed folder, under its own name, and never on another file's path |
| Watcher.WatcherToExtractor | cybernetics_core/sentry.py:47-62 | a watcher message reaches the extractor whole: valid, its content decoding to exactly the file's bytes, forwarded under its id |
| Watcher.FileMessages | cybernetics_core/sentry.py:52-62 | a tick sends one message per file read |
| Watcher.FileMessagesAt | cybernetics_core/sentry.py:52-59 | the j-th message is that of the j-th file read, under the j-th fresh id |
| Watcher.FileMessagesContent | cybernetics_core/sentry.py:44-59 | each message carries its file's name, its Base64 content that decodes to the file's bytes, and its own id |
| Watcher.FileMessagesSnoc | cybernetics_core/sentry.py:52-62 | one more file read appends one message under the next id |
| Watcher.FileSystem.constructor | cybernetics_core/sentry.py:38 | the folder starts with its entries and nothing processed |
| Watcher.FileSystem.Move | cybernetics_core/sentry.py:68 | `shutil.move` takes the file out of the folder and puts its content at the destination |
| Watcher.SendFile | cybernetics_core/sentry.py:42-68 | `send_files` fails exactly on a faulty file; an unreadable one changes nothing; otherwise the message goes out first, then the file moves unless the move raises |
| Watcher.Keep | cybernetics_core/sentry.py:80-86 | the kept names are no more than the names |
| Watcher.KeepContents | cybernetics_core/sentry.py:80-86 | a name is kept exactly when listed and not dropped, and kept names stay distinct |
| Watcher.Unreadable | cybernetics_core/sentry.py:47-48 | exactly the files whose read raises |
| Watcher.Enumerate | cybernetics_core/sentry.py:80 | the iteration over a set gives each member exactly once |
| Watcher.RaisesIff | cybernetics_core/sentry.py:85-91 | the gathered sends raise exactly when one of the files raises |
| Watcher.RaisesStep | cybernetics_core/sentry.py:85-91 | one more file raises the tick exactly when it or an earlier one raises |
| Watcher.WithoutContents | cybernetics_core/sentry.py:68 | after the moves the folder holds exactly the other files, unchanged |
| Watcher.PlacedContents | cybernetics_core/sentry.py:68 | each moved file's content is at its destination; every other processed path is older |
| Watcher.StepSent | cybernetics_core/sentry.py:52-62 | one more readable file adds its message under the next id to the files queue only |
| Watcher.SentAppend | cybernetics_core/sentry.py:52-62 | one more message, for a file read from the folder, extends the files queue in sending order under the next id |
| Watcher.StepMoved | cybernetics_core/sentry.py:62-68 | one more file leaves the folder for its destination unless something raises |
| Watcher.StepState | cybernetics_core/sentry.py:42-68 | one more file keeps the tick's sent and moved state in step |
| Watcher.SendSeqState | cybernetics_core/sentry.py:79-86 | a tick over distinct files sends exactly the readable ones and moves exactly the fault-free ones |
| Watcher.Pending | cybernetics_core/sentry.py:79-86 | each file of the tick is still in the folder when its turn comes |
| Watcher.SendEach | cybernetics_core/sentry.py:79-86 | the loop raises exactly when a file raises and reaches the state `SendSeq` describes |
| Watcher.SendAll | cybernetics_core/sentry.py:79-86 | the tick fails exactly when a file raises; readable files are sent in order under fresh ids; fault-free files move; nothing else changes |
| Watcher.WatcherService.constructor | cybernetics_core/sentry.py:13-17 | `seen_files` starts empty |
| Watcher.WatcherService.GetCurrentFiles | cybernetics_core/sentry.py:37-40 | raises exactly when the folder is missing; otherwise exactly the supported entries |
| Watcher.WatcherService.LookForFilesOnce | cybernetics_core/sentry.py:73-93 | a tick raises exactly on a missing folder or a faulty file; `seen` grows by the listed files only when nothing raised; every fault-free file is sent and moved inside the watch folder; message ids advance by the files read and no other queue, entry or older processed file changes; with the folder missing nothing changes; the tick always sleeps |
| LegacyWatcher.LegacyAgreesWhenRelative | cybernetics-core/sentry.py:36-40 | with a relative processed folder the older watcher moves files where the newer one does |
| LegacyWatcher.LegacyAbsoluteDropsWatchFolder | cybernetics-core/sentry.py:36-40 | with an absolute processed folder the watch folder drops out of the destination |
| LegacyWatcher.LegacyEscapesWatchFolder | cybernetics-core/sentry.py:36 | watch folder `/data` and processed folder `/processed` send `a.pdf` to `/processed/a.pdf`, outside the watch folder |
| LegacyWatcher.SeenFiles.constructor | cybernetics-core/sentry.py:14 | `seen_files` starts empty |
| LegacyWatcher.LookForFilesOnce | cybernetics-core/sentry.py:42-65 | `os.listdir` raises on a missing folder before anything is sent; otherwise as the newer watcher (files queue, message ids, untouched queues, entries and older processed files), with the unstripped destination; `seen_files` grows only when nothing raised; the iteration always ends with the sleep |
| Retrieval.ParseQA | robotics-bay/disruptor.py:24-28 | a body validates exactly when the question has 1 to 1000 characters and `max_context_chunks`, if given, is within 1..20; each bad field is reported |
| Retrieval.ParseQADefaults | robotics-bay/disruptor.py:24-28 | a body with only a question gets the configured collection, 5 chunks and strict context |
| Retrieval.ParseQARoundTrip | robotics-bay/disruptor.py:24-28 | a valid request written out in full validates to itself |
| Retrieval.ParseChat | robotics-bay/disruptor.py:36-38 | a chat body validates exactly when the query has 1 to 1000 characters; collections default to the configured one |
| Retrieval.BuildAugmentedPrompt | robotics-bay/disruptor.py:155-171 | the prompt starts with the rules and `Context:` and ends with the question and `Answer:` |
| Retrieval.PromptContext | robotics-bay/disruptor.py:157-168 | between the header and the question lies exactly the `"\n\n"` join of the chunks |
| Retrieval.StrictIgnored | robotics-bay/disruptor.py:155-171 | `strict` does not change the prompt |
| Retrieval.Matches | robotics-bay/disruptor.py:148 | the filter keeps at most one text per hit |
| Retrieval.MatchesConcat | robotics-bay/disruptor.py:146-148 | the filter works hit by hit, keeping order |
| Retrieval.MatchesAll | robotics-bay/disruptor.py:148 | when every hit carries the field, each hit's text is kept, in order |
| Retrieval.MatchesNone | robotics-bay/disruptor.py:148 | hits without the field contribute nothing |
| Retrieval.StoredDocumentsComeBack | robotics-bay/disruptor.py:148 | hits on the points the embedder stored give back its documents, in order |
| Retrieval.Embedded | robotics-bay/disruptor.py:202-222 | no more embeddings than texts |
| Retrieval.EmbeddedSelection | robotics-bay/disruptor.py:202-222 | the embeddings are an order-preserving selection: the k-th is the reply of the k-th successful text, and every successful text is among them |
| Retrieval.EmbeddedAll | robotics-bay/disruptor.py:202-250 | every text gets an embedding exactly when every reply holds the field |
| Retrieval.GenerateEmbeddings | robotics-bay/disruptor.py:192-250 | the loop returns the selection `Embedded` describes, and the logged failure count is texts minus embeddings |
| Retrieval.CollectedFails | robotics-bay/disruptor.py:146-153 | the collection pass fails exactly when one search raises |
| Retrieval.ContextAllOrNothing | robotics-bay/disruptor.py:143-153 | without the question's embedding, or with one raising search, the context is empty |
| Retrieval.ContextOfOneCollection | robotics-bay/disruptor.py:143-150 | for one collection the context is the matches of its hits |
| Retrieval.ContextConcat | robotics-bay/disruptor.py:146-150 | the matches of several collections are those of each, in collection order |
| Retrieval.GetContextChunks | robotics-bay/disruptor.py:139-153 | the loop returns the context `ContextChunks` describes |

## Left out

- `b64decode` is modelled as CPython's non-strict decoder, with characters outside the alphabet skipped. An input it refuses is `None`; its error messages are not modelled.
- With the link down, `send_message` swallows the error and the watcher still moves the file, so the file's message is lost. The model does this too.
- `generate_message(id=None)`, `send_it`, `decode_message` and `is_valid_message` live on the gateway built in `pylon/context.py`. Their bodies are not part of this model. They are given the simplest definitions their call sites agree with: a missing id is minted fresh, and `content_field`/`content_type` of `None` mean the configured fields. `is_valid_message` checks that the fields are present.
- The JSON serialisation inside `send_message`/`send_it` is abstract. A queue item is a serialised field map or text that is not one. `json.dumps`/`json.loads` of payloads are parameters.
- `uuid.uuid4` is modelled by a counter rendered in decimal. Only freshness matters to the pipeline.
- `repr()` escaping of strings inside containers, Unicode case folding beyond ASCII, and trailing slashes in folder names are not modelled.
- The watcher's `asyncio.gather` runs the sends concurrently; the model handles them one after the other, in the order the set yields them. Each file touches only its own entry.
- The watcher tick handles every file even when one raises, as `gather` lets the others run. The exact interleaving is not modelled.
- Moving files is modelled on a map of entries; `os.makedirs`, `shutil.move` and `os.rename` differences, permissions and name clashes with existing processed files are left out.
- PDF loading with temporary files, `magic` mime detection, logging, Prometheus histograms and all sleep durations are left out. A sleep is recorded only as whether it happens.
- `get_redis_connection` and `generate_message_id` (`pylon/colossus.py:14`, `pylon/colossus.py:25`) are declared without `self`, yet both are called on an instance (`generate_message_id` at `twilight_council/stalker.py:58`), which raises `TypeError`. `RedisGateway.create` is not shown. The gateway is modelled as a connected object whose calls work, with a `Link` parameter for a lost connection; `RedisGateway.GenerateMessageId` and `UuidSource.Mint` assume the call succeeds.
- `get_message` is a plain `def` that its callers `await`, and it does not await `blpop` on the `redis.asyncio` client. The model treats it as a synchronous call on a connected client.
- The older chunker hands the Base64-decoded bytes to the semantic splitter, which is a parameter over bytes. `SemanticChunker.split_documents` takes documents and reads `page_content` from each element, while iterating `bytes` yields integers, so the library's splitter raises on every non-empty payload and forwards `[]` for an empty one. This rests on the library's published signature, whose code is not part of this model. `LegacyChunker.BytesSplitter` is that splitter, and `LegacySplitsBytesAsWritten` and `LegacyStepFailsAsWritten` state what follows from it; the other legacy lemmas hold for any splitter.
- `get_vectors` of an initialised gateway is modelled by its `embed_documents` parameter.
- The embedder logs `len(points)` for `None` points, which raises. This is modelled as a raise.
- `QdrantGateway.search` (`pylon/warp_prism.py:46-53`) returns nothing and reads undefined settings. The API's search is a parameter returning hits.
- Hit payload values are modelled as strings.
- `health_check`, `get_response`, the FastAPI wiring, the rate limiter and the health endpoint of `robotics-bay/disruptor.py` are network code and are not modelled.
- `ask_question` calls `get_context_chunks` with three arguments while it takes two, so every `/ask` request ends in a 500. `get_context_chunks` is modelled as declared.
- `requests` is never imported in `robotics-bay/disruptor.py`, so every embedding request raises and `generate_embeddings` returns `[]`. The endpoint is a parameter, and a raising request is `None`.
- `max_context_chunks` is validated but never used to limit the context.
- The front end (`stasis_ward/`, `stasis-ward/`), `robotics_bay/disruptor.py`, settings modules and `pylon/immortal.py` are not part of this model.

## Findings

| source | as written | input that shows it | evidently intended | confidence | as-written member | corrected member |
|---|---|---|---|---|---|---|
| pylon/colossus.py:41-64 | `get_message` pops the head into a local and returns nothing | on the synchronous connected client this model assumes, any non-empty queue: the head is removed and `get_message` returns `None`. Literally, callers `await` this plain `def` (a `TypeError`) and the `redis.asyncio` `blpop` is never awaited, so nothing is popped | an `async def get_message` that awaits the connection and `blpop` and returns the popped message | not executed | QueueStore.MessageLostAsWritten | QueueStore.GetReturnsHead |
| pylon/colossus.py:45-64 | `redis` is assigned inside `get_message`, so `except (redis.exceptions.ConnectionError)` looks up `exceptions` on that local and raises again | `blpop` failing with a lost connection: no `redis` error is recorded, no retry sleep; the error escapes and the stage ends in its own `except` | catch the module's `redis.exceptions` errors, counting and retrying as the handlers say | not executed | QueueStore.FaultHandlersNeverRunAsWritten | QueueStore.GetFaults |
| pylon/context.py:13-19 | `ApplicationContext.create` builds the `OllamaGateway` but initialises only the Qdrant gateway, so the chunker's `split_into_chunks` raises at its first log line | any non-empty document list the extractor sent: the chunker raises and forwards nothing | call `ollama.initialize_client()` as for Qdrant | not executed | Chunker.ChunkerUninitialisedAsWritten | Chunker.ChunkerReadsDocuments |
| nexus/probe.py:11-15 | the Qdrant and Ollama gateways are created but never initialised, so `add_points` and `get_vectors` raise | one page message with a non-blank page | initialise the clients, or reach them through `get_client` as `AddPoints` does | not executed | Embedder.ProbeStoresNothingAsWritten | VectorIndex.StartupCorrected |
| pylon/mothership_core.py:26-35 | `split_into_chunks` computes the pages and has no `return` | with an initialised `OllamaGateway` (which the deployed chunker lacks, see the `pylon/context.py` row), any non-empty document list the splitter accepts | return the pages | not executed | Chunker.SplitAsWrittenDropsPages | Chunker.SplitIntoChunks |
| cybernetics-core/sentry.py:36 | `os.path.join(WATCH_FOLDER, PROCESSED_FOLDER)` with an absolute processed folder discards the watch folder | watch folder `/data`, processed folder `/processed`: `a.pdf` goes to `/processed/a.pdf` | keep processed files inside the watch folder, as the newer watcher does by stripping the leading `/` | not executed | LegacyWatcher.LegacyEscapesWatchFolder | Watcher.ProcessedPathInside |
