# Chat ingestion and lead classification, modelled in Dafny

The system collects an account's chats from a messaging API and labels each
chat as a sales lead. It has two parts, and this project models both.

**Collection** (`main_patched.py`) covers four steps:

- It lists the chats page by page, 50 at a time, at offsets up to 1000.
- It keeps the chats whose `created` time falls in a reporting window. The
  window runs from midnight of the start date to 23:59:59 of the end date.
- It fetches each chat's messages page by page, 100 at a time.
- It stores every chat that still has in-window messages in a `dialogs`
  map keyed by chat id. Each entry holds the chat's metadata and its
  in-window messages.

**Classification** (`classify_target_chats.py`) covers four steps:

- It skips chats that contain a system message, which is one with author
  id 0.
- It rebuilds a transcript for each remaining chat. Messages are sorted by
  `created`, and each message with text becomes one line:
  `[time] author: text`. The author is the manager label, the name from
  the chat's user roster, or the raw author id.
- It labels the chat as a target, a non-target or ambiguous. The rule uses
  exclusion phrases, 44 sales keywords, a transcript length over 80, a
  message count over 3 and at least two messages written by the client.
- It returns one record per chat: the id, the metadata, the stripped
  transcript and the label.

The project has these modules:

| module | file | what it holds |
|---|---|---|
| `Wrappers` | `wrappers.dfy` | `Option` and `Result` |
| `Seqs` | `seqs.dfy` | order-preserving `Filter` and `ConcatMap` with their algebra |
| `Text` | `text.dfy` | `in` on strings, `str.lower`, `str.strip`, `str(int)` |
| `Records` | `records.dfy` | the message, user, chat and stored-entry records |
| `TimeWindow` | `window.dfy` | the reporting window |
| `Ingest` | `ingest.dfy` | the two pagination loops, the message filter and the `dialogs` collector |
| `Transcript` | `transcript.dfy` | stable sort, roster, author labels, transcript loop |
| `Classify` | `classify.dfy` | keyword rule, label decision, classifier loop |

The HTTP layer is an input. An endpoint is a function from the requested
offset to the response: a status code plus the decoded array. Wherever the
source changes variables step by step, the model does too. The pagination
loops, the roster and transcript loops, the collector and the classifier
loop are methods with loop invariants. Each method is proved against a
specification function, and the properties are proved as lemmas about that
function.

Two facts of the code shape the model of the chat listing:

- The chat listing stops quietly only on status 400 or an empty page.
  Every other 4xx or 5xx status raises through `raise_for_status`, and the
  model returns `Failure(status)` there.
- The pacing delay of 0.1 s runs in the collecting loop, once per finished
  fetch. It is not modelled.

## Model

| member | source | states |
|---|---|---|
| TimeWindow.MakeWindow | main_patched.py:35-38 | A timestamp is in the window exactly when it lies between the start midnight and the midnight after the end date, end excluded. The start midnight is inside when start <= end. The second after 23:59:59 of the end date is outside. A start a day or more after the end gives an empty window. |
| Ingest.GetChats | main_patched.py:42-66 | The requested offsets form a `ChatsRun`: 0, 50, 100, … up to 1000, so at most 21 requests. It moves on only past a page that is neither an error nor empty. When it stops before the cap, the last page was a 400, another error or empty. The result is `ChatsOutcome`: the last error status if it raised, otherwise the in-window chats of all pages read, in order. |
| Ingest.AppendInWindow | main_patched.py:58-61 | The inner loop appends to the selection exactly the batch's chats that have a `created` time inside the window, in batch order. |
| Ingest.FetchedChatsFromPages | main_patched.py:54-61 | Every chat read came from one of the pages requested. |
| Ingest.ChatsOutcomeSelection | main_patched.py:58-61 | On success, every selected chat is in the window and came from a page read. Every in-window chat of a page read is selected. |
| Ingest.GetMessages | main_patched.py:68-88 | The requested offsets form a `MessagesRun`: 0, 100, 200, …. Every page before the last was a full 200 page. The last page has another status, is empty or is short. The result is the concatenation of the 200 batches read, in order. |
| Ingest.ReceivedFromPages | main_patched.py:77-83 | Every message returned comes from a page that answered 200. |
| Ingest.ReceivedFullPages | main_patched.py:83-86 | Each full page adds at least 100 messages. |
| Ingest.KeptMessages | main_patched.py:114 | A message is kept exactly when it is one of the chat's messages and has a truthy `created` inside the window. The result is never longer than the input. |
| Ingest.Store | main_patched.py:114-122 | A completion with in-window messages writes `{chat_meta, messages}` under its chat id, overwriting any earlier entry. One without them leaves the map unchanged. No other key changes. |
| Ingest.StoreStep | main_patched.py:109-122 | Storing one more completion preserves the collector invariant: which keys exist, that the last storing completion wins, provenance and well-formedness. |
| Ingest.StoreWellFormed | main_patched.py:114-120 | Every stored entry sits under its own chat id. It has at least one message, and every message has a truthy `created` inside the window. Storing keeps this true. |
| Ingest.CollectDialogs | main_patched.py:102-122 | For any completion order: a chat id is a key exactly when some completion for it kept a message. Its entry comes from the last such completion. Every entry's metadata is one of the completed chats. The map is well formed. |
| Ingest.FetchEach | main_patched.py:105-108 | One fetch per listed chat, in list order. Each chat's message listing runs to its stopping page, and its result is everything that listing received. |
| Ingest.InCompletionOrder | main_patched.py:109-112 | The `k`-th finished fetch pairs chat `finish[k]` with that chat's own fetched messages. |
| Ingest.FetchAllDialogs | main_patched.py:90-122 | The whole run, with its requests recorded. The chat requests form a `ChatsRun`. The run fails exactly when the chat listing raised, and with the same status, which is an error other than 400. On success each listed chat's messages are everything its full `MessagesRun` received, and the completions come in the order `order(n)`. A chat id is then a key exactly when some completion for it kept a message, and its entry comes from the last such completion. The map is well formed, and every stored chat's own `created` is in the window. |
| Transcript.InsertByCreated | classify_target_chats.py:54 | Insertion adds exactly the one element, as a multiset. |
| Transcript.InsertSorted | classify_target_chats.py:54 | Insertion into a list sorted by `created` (missing = 0) keeps it sorted. |
| Transcript.SortByCreated | classify_target_chats.py:54 | The result is sorted by `created` (missing = 0) and is a permutation of the input. |
| Transcript.InsertKeepsTies | classify_target_chats.py:54 | Among the elements of any one key, the inserted element stays first and the others keep their order. |
| Transcript.SortIsStable | classify_target_chats.py:54 | The sort is stable: for every key, the messages with that key appear in input order. |
| Transcript.RosterName | classify_target_chats.py:51 | The name is the user's `name`, or `User_<id>` when there is none. |
| Transcript.RosterHasId | classify_target_chats.py:48-51 | An id is in the roster exactly when some user entry carries it. |
| Transcript.RosterLastWins | classify_target_chats.py:48-51 | The name under an id comes from the last user entry with that id. |
| Transcript.BuildRoster | classify_target_chats.py:48-51 | The loop builds exactly the roster map `Roster(users)`. |
| Transcript.GetSellerId | classify_target_chats.py:26-27 | The result is the id found at `context.value.user_id`, or -1 when it is missing. |
| Transcript.TimestampText | classify_target_chats.py:59-60 | A missing or zero `created` gives the empty text. Any other `created` gives its formatted time. |
| Transcript.AuthorLabel | classify_target_chats.py:61 | The label is the manager label exactly when the author id is the account's own id. Every other author's label starts with the client marker. |
| Transcript.AuthorLabelFromRoster | classify_target_chats.py:61 | The account's own messages get the manager label. Another author gets the marker plus the name from the last roster entry with that id. An id absent from the roster appears as the decimal id; a missing author appears as `None`. |
| Transcript.Line | classify_target_chats.py:57-62 | A line is empty exactly when the message has no text. Otherwise it starts with `[` and ends with a newline. |
| Transcript.RenderEmpty | classify_target_chats.py:55-62 | The transcript is empty exactly when no message has text. |
| Transcript.RenderOneLine | classify_target_chats.py:55-62 | Each message contributes exactly its own line, between the lines of the messages before and after it. |
| Transcript.RenderSkipsTextless | classify_target_chats.py:57-58 | A message without text leaves no trace in the transcript. |
| Transcript.BuildTranscript | classify_target_chats.py:55-62 | The loop builds exactly `Render` of the sorted messages. |
| Text.Lower | classify_target_chats.py:30 | Lower-casing keeps the length and maps each character independently. |
| Text.Strip | classify_target_chats.py:80 | The result neither starts nor ends with whitespace. It is a slice of the input with only whitespace before and after it. |
| Text.StripIdempotent | classify_target_chats.py:80 | Stripping twice is the same as stripping once. |
| Text.IntToString | classify_target_chats.py:61 | The text of an integer has a leading `-` exactly for negatives. Its digits read back as the absolute value, with no leading zero except in `0` itself. |
| Text.NatToStringRoundTrip | classify_target_chats.py:61 | The decimal text of a natural number reads back as that number. |
| Seqs.FilterIn | main_patched.py:114 | A list comprehension keeps an element exactly when the element is in the input and passes the condition. |
| Seqs.FilterCountPermutation | classify_target_chats.py:73-74 | Reordering the messages does not change how many pass the condition, so counting the client's messages on the sorted list gives the same count as on the received list. |
| Classify.HasExclusion | classify_target_chats.py:31 | True exactly when one of the three exclusion phrases occurs in the lower-cased text. |
| Classify.KeywordHits | classify_target_chats.py:35 | The count is at most the number of keywords. It is zero exactly when no keyword occurs in the lower-cased text. |
| Classify.TwoKeywordsSuffice | classify_target_chats.py:35-36 | Any two distinct keywords found in the lower-cased text give the required two hits. |
| Classify.IsTargetChat | classify_target_chats.py:29-36 | An exclusion phrase, or a transcript of 80 characters or less, rules the chat out. Without an exclusion and with more than 80 characters, more than 3 messages or 2 keyword hits make it a target. A target with at most 3 messages has 2 keyword hits. |
| Classify.Decide | classify_target_chats.py:64-75 | Target exactly when the client wrote at least 2 messages and `IsTargetChat` holds. Non-target exactly when the client wrote at least 2 and an exclusion phrase occurs. Ambiguous whenever the client wrote fewer than 2. |
| Classify.ClientCount | classify_target_chats.py:73 | The count is at most the number of messages. It is zero exactly when every message was written by the account or has no text. |
| Classify.NoClientMessages | classify_target_chats.py:73-74 | The client list is empty exactly when every message was written by the account or has no text. |
| Classify.HasSystemMessage | classify_target_chats.py:41 | True exactly when some message has author id 0. |
| Classify.ClassifiedChats | classify_target_chats.py:40-42 | A chat is classified exactly when it is one of the input chats and none of its messages has author id 0. |
| Classify.DialogId | classify_target_chats.py:43 | The id is the entry's own key, or the chat's `id` when the key is empty. |
| Classify.Analyze | classify_target_chats.py:40-82 | The sample is the stripped transcript of the sorted messages. The label conditions hold with the client's messages counted on the messages as received. |
| Classify.SortKeepsNoText | classify_target_chats.py:54-58 | The sorted messages have no text exactly when the received ones have none. |
| Classify.TextlessChatIsAmbiguous | classify_target_chats.py:55-82 | A chat where nobody wrote text gets an empty sample and the ambiguous label. |
| Classify.ClassifyTargetChats | classify_target_chats.py:38-83 | One result per chat without a system message, in input order. Each result is `Analyze` of that chat. |

## Left out

- The token exchange, the profile lookup, the URLs, the headers and the HTTP transport are I/O. Each endpoint is a function from the offset to the response. The body is already decoded, and a missing array key reads as empty.
- JSON decoding is not modelled. Every key the code reads with `.get` is an `Option`, and a chat id is a string.
- The default dates in the collector are empty strings, and `fromisoformat("")` would raise. The model takes the dates as inputs instead.
- Date parsing and the local time zone are not modelled. The window takes the timestamps of the two midnights as inputs. The end is the end midnight plus 23:59:59, which assumes the end date has no daylight-saving change.
- Transcript timestamps use `fromtimestamp(...).strftime(...)` with the local time zone. That formatting is the parameter `fmt`.
- The thread pool runs at most 10 fetches at a time. The model runs the fetches one after another in submission order. The order in which they finish is a parameter, so the collector is proved for every completion order. A fetch that raises, and the exception that `future.result()` would then re-raise, are not modelled.
- `time.sleep(0.1)`, every `print`, the logging and the label statistics (`Counter`) are timing or output.
- `print_chats_reversed` is output.
- The classifier's `main` reads `avito_chats.json`, turns the map into a list of entries and writes the JSON and CSV files. This is I/O. The classifier loop takes the list of entries as input.
- Ingest.GetMessages: the page size is fixed at 100. That is the default and the only value the collector uses. A general `limit` would make the offset arithmetic nonlinear.
- Ingest.GetMessages requires that the server eventually sends a stopping page (`MessagesTerminate`). Without that, the loop in the code never ends.
- Text.Lower lower-cases only ASCII capitals and the Cyrillic capitals U+0400..U+042F. Python's `str.lower` covers all of Unicode and can lengthen a string (`İ`). The transcript length is measured on the model's result.
- JSON `null` values are outside the model: every key read with `.get` is either missing or holds a value of its type. In the code a `null` changes three reads. A user entry with `"name": null` gets the name `None`, so its author label reads `👤 None` (classify_target_chats.py:51, :61). A message with `"created": null` makes `sorted` compare `None` with numbers and raise `TypeError` (classify_target_chats.py:54). A `null` `user_id` makes the seller id `None` (classify_target_chats.py:27), so messages with no author id get the manager label and do not count as the client's (classify_target_chats.py:61, :73).
- A user entry whose `id` is JSON `null` would be stored under the key `None` in the code. The model treats a user's id as either absent or an integer.
- The chat id used as fallback for an empty entry key could itself be missing in the code. The model assumes it is a string.
- Python integers are unbounded, so there is no overflow to model.

## Notes

- The keyword written `cумма` begins with a Latin `c`, so it never matches the Cyrillic word. The model keeps the list exactly as written.
