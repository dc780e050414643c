# Chat-history memory, modelled in Dafny

The assistant keeps one shared conversation buffer for the whole process
(`app/services/memory.py`). Two operations use it:

- `save_chat_history(user_query, ai_response)` records one exchange: the query
  becomes a human message and the response an AI message, both after what is
  already stored.
- `get_chat_history()` renders the buffer as one string. A human message with
  content becomes `User: <content>`. An AI message with content becomes
  `AI: <content>`. Any other message, and any message without a content
  attribute, is dropped. The lines are joined with `\n`. An empty buffer, or one
  where nothing survives the filter, gives `No previous conversation.`

The model has three modules:

- `Wrappers` holds `Option`. `None` stands for a message that has no `content`
  attribute. Messages built by LangChain always carry that attribute, so the
  `hasattr` test at `app/services/memory.py:20` is always true for them and a
  content-less message (as in `Memory.FormattedExample`) cannot arise in the
  running program; the model keeps the branch because the formatter has it.
- `Text` holds `Join`, which is Python's `"\n".join`, and `Split`, Python's
  `split("\n")`. `Split` is the join's inverse on newline-free lines, and every
  string is the join of its split.
- `Memory` holds the `Message` datatype (type tag and optional content), the
  specification functions (`LineOf`, `Lines`, `Formatted`), an independent
  reference definition (`Selected`, the positions of the messages that yield a
  line), the lemmas relating them, and the class `ConversationMemory`. One
  instance of that class stands for the module-level `memory` object. Its
  `messages` field is the buffer, `SaveChatHistory` appends to it, and
  `GetChatHistory` builds the lines with the same loop as the source and then
  joins them.

Empty-string content still counts as content: the source tests
`hasattr(message, "content")`, not truthiness, so such a message yields the line
`User: ` or `AI: `. The type tags are compared exactly (`"human"`, `"ai"`).

Neither `app/routes/websocket.py` nor `server.py` calls `save_chat_history`:
`app/routes/websocket.py:5` imports only `get_chat_history`, and `server.py:16`
keeps a buffer of its own. As the application stands, the formatter therefore always sees an empty buffer and
returns `No previous conversation.`; the model covers what the two operations do
when they are used together.

## Model

| member | source | states |
|---|---|---|
| Memory.Exchange | app/services/memory.py:8 | definition: the two messages one save appends, the query as a `human` message and then the response as an `ai` message |
| Memory.Contributes | app/services/memory.py:20-24 | definition: the filter rule, content present and type exactly `human` or `ai` |
| Memory.Lines | app/services/memory.py:17-24 | definition: the list the loop collects, each message's line (if any) in storage order |
| Memory.Formatted | app/services/memory.py:14-26 | definition: the sentinel for an empty buffer or an empty line list, otherwise the lines joined with `\n`; its meaning is stated by the lemmas below |
| Memory.LineOf | app/services/memory.py:20-24 | a message yields a line iff it has content and its type is `human` or `ai`; a human message gives `User: ` + content, an AI message gives `AI: ` + content |
| Memory.Selected | app/services/memory.py:19-24 | reference definition: the ascending positions, all in range, of exactly those messages that yield a line |
| Memory.LinesAppend | app/services/memory.py:19-24 | the lines of a concatenated history are the lines of the first part followed by those of the second, so output order follows storage order |
| Memory.LinesMatchSelected | app/services/memory.py:17-24 | the number of lines equals the number of contributing messages, and line k is the line of the k-th contributing message |
| Memory.LinesEmptyIff | app/services/memory.py:20-24 | no line is collected iff no message is a human or AI message with content |
| Memory.LineShape | app/services/memory.py:21-24 | every collected line is `User: ` or `AI: ` followed by the content of a contributing message of that type |
| Memory.FormattedSentinelIff | app/services/memory.py:14-26 | the result is `No previous conversation.` iff no message contributes a line: this covers the empty history and a non-empty history where everything is filtered out, and no real history can produce the sentinel text |
| Memory.FormattedSplit | app/services/memory.py:17-26 | when no content holds a newline, splitting the result at newlines gives back exactly the collected lines: one separator between neighbours, none leading or trailing |
| Memory.LinesAfterSave | app/services/memory.py:6-8 | saving an exchange appends exactly the lines `User: q` and `AI: r`, in that order, after the earlier lines |
| Memory.FormattedAfterSave | app/services/memory.py:6-26 | after a save the rendered history is the old one plus `\n`, the query line, `\n` and the reply line (just the two lines when nothing showed before) |
| Memory.SavedHistoryShown | app/services/memory.py:6-26 | once an exchange has been saved, the rendered history is never the sentinel |
| Memory.FormattedExample | app/services/memory.py:10-26 | human, system, content-less AI and AI messages render as `User: hi\nAI: hello` |
| Memory.ConversationMemory.constructor | app/services/memory.py:4 | the shared buffer starts empty |
| Memory.ConversationMemory.SaveChatHistory | app/services/memory.py:6-8 | the buffer becomes the old buffer followed by the human query message and then the AI response message; earlier entries are unchanged |
| Memory.ConversationMemory.GetChatHistory | app/services/memory.py:10-26 | the loop returns `Formatted` of the stored messages; it has no modifies clause, so the buffer is unchanged by the call |
| Text.Join | app/services/memory.py:26 | definition: `"\n".join`, the lines in order with one newline between neighbours |
| Text.Split | app/services/memory.py:26 | `split("\n")`: at least one piece and no piece contains a newline; it inverts the join on newline-free lines |
| Text.JoinEnds | app/services/memory.py:26 | the joined string starts with the first line and ends with the last, so there is no leading or trailing separator |
| Text.JoinSnoc | app/services/memory.py:26 | joining one more line adds exactly one separator and that line |
| Text.SplitSingle | app/services/memory.py:26 | a string without a newline splits into just itself |
| Text.SplitCons | app/services/memory.py:26 | splitting a newline-free line, a newline and a rest gives that line followed by the split of the rest |
| Text.SplitJoin | app/services/memory.py:26 | newline-free lines are recovered exactly by splitting their join |
| Text.JoinSplit | app/services/memory.py:26 | every string is the join of its split |

## Left out

- LangChain's `ConversationBufferMemory` is not part of this model. `save_context` is taken to append a human message holding the input and an AI message holding the output. `load_memory_variables({}).get("chat_history", [])` is taken to return the stored messages in order.
- Message content is a plain string. LangChain also allows a list of content parts, which the f-string would render with Python's list formatting; that case is not modelled.
- Memory.ConversationMemory.SaveChatHistory and GetChatHistory work on one instance. Concurrent connections sharing the module-level object are not modelled, since the Python code runs them on one cooperative event loop.
- Memory.FormattedSplit requires that no message which yields a line has content with a newline, because such content cannot be told apart from separators after joining; messages that are filtered out may hold newlines. For the general case only Text.JoinSplit holds.
