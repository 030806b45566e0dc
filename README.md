# Voice assistant memory core, modelled in Dafny

The system is a voice assistant built on a real-time speech/LLM session. It
keeps long-term memories about its user in an external memory store (mem0).
This project models the part of it that is plain data handling:

- **Session seeding** (`entrypoint` in agent.py). At start-up the agent fetches
  all memories of the user. It projects each record to `{memory, updated_at}`
  and, if there are any, adds one `assistant` message to the initial chat
  context. That message names the user and carries the serialised memories.
- **Transcript consolidation** (`shutdown_hook` and `shutdown_wrapper` in
  agent.py). At shutdown the agent walks the chat history. It skips items
  without a `role` or a `content`, coerces content to text and strips it, and
  keeps only `user` and `assistant` turns, in order. If anything is left, it
  makes one `add` call to the store.
- **Tools** (tools.py): the weather status branch, the flattening of the search
  service's `RelatedTopics` into at most five lines, and the shaping of
  calendar events into `(summary, time)` pairs.
- **Memory tools** (memory.py): `add_memory`, `search_memory` and
  `get_all_memories`. Each turns every store fault into a string.

Files:

- `Base.dfy`: `Option`, `Result` (a value or a raised exception's message) and `Outcome`.
- `Text.dfy`: Python's `str.strip()`, decimal printing of a count, `"\n".join`
  and its inverse `split("\n")`, and substring containment, with the lemmas
  that pin them down.
- `Store.dfy`: the store's records and the `{memory, updated_at}` projection.
  Also the `MemoryStore` client class, whose ghost `log` records every call
  made through it. The store's answer to each call is a parameter of the call.
- `Agent.dfy`: consolidation (`FormatMessages`, `ShutdownHook`,
  `ShutdownWrapper`) and seeding (`SeedContext`, `SeedSession`).
- `Tools.dfy`: `Weather`, `WebSearch` with `CollectLines`, and `CalendarEvents`.
- `MemoryTools.dfy`: `AddMemory`, `SearchMemory` and `GetAllMemories`.

The loops of the source (`shutdown_hook`, `web_search`, `get_calendar_events`)
are methods with `while` loops. Each is proved equal to a recursive
specification function (`Formatted`, `TopicLines`, `EventRows`). The lemmas
state what those functions mean: order, filtering, stripping, the line limit,
and the fault cases.

Behaviour of the code that the model keeps, each with what a reader might
expect instead:

- Consolidation skips an item lacking *either* `role` or `content`
  (agent.py:62). One might expect only items lacking both to be skipped.
- Content is coerced before the role is checked (agent.py:66-70). One might
  expect `system` turns to be dropped untouched. Instead a list content holding
  a non-`str` element raises `TypeError` even on a `system` turn. The whole consolidation then ends in the `except` clause with no store
  call (`FormatFailed`).
- The memory tools answer a store fault with an error string
  (memory.py:61-63, 81-83). One might expect an empty list, as when nothing matches. A record lacking `memory` or
  `updated_at` gives the `KeyError` text, e.g. `Error searching memory: 'memory'`.
- In `entrypoint` the projection of the records (agent.py:126-129) is outside
  any `try`. A record lacking a key therefore crashes start-up
  (`SeedOutcome.StartupCrash`). One might expect it to degrade to an empty
  context, as a store fault does.
- The agent registers only `get_weather` and `web_search` as tools (agent.py:44).
  One might expect the memory tools to be registered too. They are modelled on
  their own.

## Model

| member | source | states |
|---|---|---|
| `Text.StripCharacterization` | agent.py:73 | `strip()` of any whitespace + `m` + whitespace is exactly `m` when `m` has no whitespace at either end, so `strip` is uniquely determined |
| `Text.StripSlice` | agent.py:73 | the stripped text is a contiguous slice of the input; only whitespace was removed on each side, and the result has no whitespace at either end |
| `Text.StripEmpty` | agent.py:73 | stripping gives `""` exactly when the text is all whitespace |
| `Text.StripKeepsTrimmed` | agent.py:73 | text with no whitespace at either end is left unchanged |
| `Text.StripIdempotent` | tools.py:23 | stripping twice is the same as stripping once |
| `Text.DecimalString` | memory.py:38 | the printed count is a non-empty string of decimal digits with no leading zero |
| `Text.DecimalRoundTrip` | memory.py:38 | reading back the printed digits of a count gives the count |
| `Text.SplitJoin` | tools.py:61 | splitting `"\n".join(lines)` on newlines gives back the lines, when none of them holds a newline |
| `Text.ContainsMiddle` | agent.py:135 | a string built around a piece contains that piece |
| `Store.View` | memory.py:57 | a record projects to `{memory, updated_at}` iff it has both keys; otherwise a `KeyError` names the first missing key |
| `Store.ProjectOk` | memory.py:56-59 | the projection succeeds iff every record has both keys; it then has one entry per record, in order, with exactly that record's `memory` and `updated_at` |
| `Store.ProjectFault` | memory.py:61-63 | a failed projection reports `'memory'` or `'updated_at'` as the `KeyError` text |
| `Store.MemoryStore.Add` | agent.py:78 | an `add` call appends exactly one `AddCall(messages, user)` to the call log |
| `Store.MemoryStore.Search` | memory.py:55 | a `search` call appends exactly one `SearchCall(query, user)` to the call log |
| `Store.MemoryStore.GetAll` | memory.py:75 | a `get_all` call appends exactly one `GetAllCall(user)` to the call log |
| `Agent.JoinFragmentsDefined` | agent.py:66-68 | joining list content fails exactly when some element is not text |
| `Agent.JoinFragmentsAppend` | agent.py:66-68 | joining is concatenation with no separator: the join of `a + b` is the join of `a` followed by the join of `b`, and one text fragment joins to itself |
| `Agent.FormattedAppend` | agent.py:61-74 | consolidating `a + b` is consolidating `a` then `b`: entries in input order, and a fault anywhere is a fault |
| `Agent.FormatMessages` | agent.py:55-74 | the loop computes exactly the consolidated transcript `Formatted(items)`, or the fault |
| `Agent.KeptAppend` | agent.py:61-74 | the items kept from `a + b` are those kept from `a` followed by those kept from `b` |
| `Agent.KeptIsSelection` | agent.py:61-74 | the kept items are an order-preserving subsequence of the history, at most as long; every kept item has a role, a content and role `user`/`assistant`; every such item, repeated turns included, is kept at the position given by the number of items kept before it |
| `Agent.FormattedFault` | agent.py:66-68 | consolidation faults iff some item with both attributes, of any role, has list content holding a non-text element |
| `Agent.FormattedEntries` | agent.py:70-74 | on success there is one entry per kept item, in order, with that item's role and its coerced content stripped |
| `Agent.FormattedRolesTrimmed` | agent.py:70-74 | every stored entry has role `user` or `assistant` and content with no whitespace at either end |
| `Agent.WhitespaceContentKept` | agent.py:73 | a user or assistant turn of only whitespace is stored with content `""`, not dropped |
| `Agent.ScenarioTranscript` | agent.py:61-74 | the history user "hi", system "noop", assistant "hello" consolidates to exactly the user and assistant entries, in that order |
| `Agent.HookCalls` | agent.py:77-81 | the hook makes at most one store call; it makes one, `add(formatted, user_id=user_name)`, iff the formatted list is non-empty |
| `Agent.ShutdownHook` | agent.py:52-84 | the store log grows by exactly the calls `HookCalls` describes; the outcome is saved, nothing to save, format fault or store fault, never a raised error |
| `Agent.ShutdownWrapper` | agent.py:160-162 | without a memory client the hook does not run and the store is not called; with one it behaves as `ShutdownHook` |
| `Agent.SeedContextShape` | agent.py:118-136 | the context is empty when the client failed or no records exist. If a record lacks a key, start-up crashes. Otherwise memory stays enabled and the context is exactly one `assistant` message that contains the user's name and the serialised projection (one entry per record, in order) |
| `Agent.SeedSession` | agent.py:114-121 | a failed client construction makes no store call and leaves memory disabled; otherwise one `get_all(user_id=user_name)` call, then seeding from its reply |
| `Tools.WeatherReplies` | tools.py:20-31 | status 200 gives the stripped body; any other status gives "Could not fetch weather for <city>."; a fault gives "An error occurred while fetching weather for <city>."; the two failure texts differ |
| `Tools.TopicLinesAppend` | tools.py:49-56 | the lines of `a + b` are the lines of `a` followed by the lines of `b` (topic order) |
| `Tools.SubtopicLinesAppend` | tools.py:54-56 | subtopic lines keep subtopic order; a subtopic adds its line iff it has both `Text` and `FirstURL` |
| `Tools.TopicLinesSingle` | tools.py:51-56 | one topic contributes its own line if it has both fields, else its qualifying subtopics' lines if it has `Topics`, else nothing |
| `Tools.LinkedTopicOneLine` | tools.py:51-53 | a topic with both `Text` and `FirstURL` gives exactly `"<Text> (<FirstURL>)"`, whatever its `Topics` hold |
| `Tools.AppendSubtopicLines` | tools.py:54-56 | the inner loop appends exactly the qualifying subtopic lines to the lines so far |
| `Tools.CollectLines` | tools.py:49-56 | the nested loops compute exactly `TopicLines(topics)` |
| `Tools.SearchAnswerTopLines` | tools.py:58-61 | when no collected line contains a newline, a non-empty answer has exactly `min(5, n)` lines, the first ones collected, in order |
| `Tools.WebSearch` | tools.py:44-64 | a transport fault, an HTTP error status or a non-JSON body gives the fixed error sentence. Otherwise, with no lines the answer is "No results found for '<query>'."; with lines it is the first five joined by newlines |
| `Tools.EventRowsSnoc` | tools.py:96-109 | the event loop extends the list by one pair per event, in event order, and a faulting event faults the loop |
| `Tools.EventRowsFaultSticks` | tools.py:113-115 | once an event faults, the whole loop faults whatever follows |
| `Tools.EventRowsShape` | tools.py:96-109 | the loop completes iff every event can be shaped; it then gives one pair per event: summary or "No Title", and "All Day" for a start without `T`, else the local time |
| `Tools.CalendarEvents` | tools.py:78-115 | a fetch fault, no events or a fault part-way give `[]`; otherwise the list of `EventRows` |
| `MemoryTools.AddMemoryTexts` | memory.py:31-41 | the three answers of `add_memory` are distinguishable, and the confirmation holds the message count in decimal, readable back |
| `MemoryTools.AddMemory` | memory.py:31-41 | an empty list gives "No messages to save" with no store call. Otherwise exactly one `add(messages, USER_NAME)` call, answered "Saved <n> messages to memory" or "Error saving memory: <reason>" |
| `MemoryTools.MemoriesReplyShape` | memory.py:54-63 | the memories are listed iff the store answered and every record has both keys; then one projection per record, in order. Otherwise an error message with the tool's prefix |
| `MemoryTools.SearchMemory` | memory.py:54-63 | exactly one `search(query, USER_NAME)` call; the answer is the projected results or "Error searching memory: <reason>" |
| `MemoryTools.GetAllMemories` | memory.py:74-83 | exactly one `get_all(USER_NAME)` call; the same projection, or "Error getting memories: <reason>" |

## Left out

- The LiveKit session, room and transport, the `Assistant` class, `session.start`, `ctx.connect`, the opening `generate_reply` and the registration of the shutdown callback: these are calls into the session SDK.
- The Gemini model construction: a call into a foreign SDK.
- Loading the environment and checking credentials. A missing key aborts start-up before any modelled code runs. `USER_NAME` (default "David") and the agent's fixed user "Vicky" are both the `userName` parameter.
- The HTTP requests, the mem0 network calls and the calendar API request. Their replies are parameters (`HttpReply`, `Result`, `Outcome`), and the store keeps only a log of the calls made.
- The exact text of `json.dumps`: seeding takes the serialiser as a function parameter, and the memory tools return the projected list (`ToolReply.Memories`).
- The calendar's time window (`datetime.utcnow`, `days`), the ISO parsing, the Asia/Kolkata conversion and `strftime`: `CalendarEvents` takes them as one function parameter `localTime`, which gives `None` when parsing raises.
- JSON values of unexpected types: topic fields, event fields and record values are taken to be strings, and `Topics` a list. The substring test that `"Text" in topic` performs on a topic that is a string is not modelled.
- prompt.py (string constants), logging, `print`, and async scheduling.
- `Agent.ShutdownHook`: the `TypeError` text of a failed join is not kept (the outcome is `FormatFailed`), because it only goes to the log.
- `MemoryTools.AddMemory`, `MemoryTools.SearchMemory`, `MemoryTools.GetAllMemories`: an exception's text (`str(e)`) is the fault's `reason` string; what the store's exceptions say is not modelled.
