# Chat-export importers, modelled in Dafny

This project models the import core of the NextMind `execution/` package.
That core reads a ChatGPT or a Claude conversation export and writes its
conversations and messages into the store. Four parts are modelled:

- **The tree linearizer** (`linearize_conversation`). A ChatGPT export
  stores each conversation as a map from node ids to nodes. The linearizer
  picks the first node in map order that has no parent as the root. It then
  follows the first child of every node. It emits one message, with role,
  newline-joined parts and creation time, for each visited node whose
  message has content parts.
- **The ChatGPT orchestrator** (`import_chatgpt_conversations`). It folds
  over the exported chats. A chat that yields no messages, or raises, counts
  as skipped. Any other chat creates one conversation row and then one
  message row per linearized message.
- **The Claude orchestrator** (`import_claude_conversations`). It has the
  same skip/create/count structure over a flat message list. Each sender is
  mapped to a role: `human` becomes `user`, `assistant` stays `assistant`,
  and every other sender becomes `system`.
- **The store**, reduced to what the importers can observe.
  `Conversation.create` and `Message.create` each append one row to an
  append-only log under a new identifier. The identifier comes from a
  counter, standing in for the random UUID.

Files:

| file | module | content |
|---|---|---|
| `values.dfy` | `Values` | `Option`, `Result`, the Python exceptions, and a JSON key as `Missing`/`Null`/`Present` with `d.get` and `d[k]` |
| `lines.dfy` | `Lines` | `'\n'.join` and the split that undoes it |
| `rows.dfy` | `Rows` | the row log, the two `create` operations, message insertion, row counts |
| `imports.dfy` | `Imports` | the three counters, one chat's step, the outcome of a run |
| `chatgpt_tree.dfy` | `ChatgptTree` | the linearizer and its reference semantics (the first-child path) |
| `chatgpt_import.dfy` | `ChatgptImport` | the ChatGPT orchestrator |
| `claude_import.dfy` | `ClaudeImport` | the Claude orchestrator and the role mapping |

Design decisions:

- **JSON keys.** Every key the code reads is a `Field`, because Python
  treats the three cases differently. `d.get(k, default)` gives the default
  only for an absent key; a key holding `null` reads as `None`. `d[k]`
  raises `KeyError` for an absent key. The model follows this, so a chat
  whose `title` (or `name`) is `null` is stored with no title, not with
  the placeholder.
- **Divergence.** The linearizer's loop has no cycle guard. The model's walk
  carries fuel equal to the number of nodes. Running out of fuel is
  reported as `Diverges`. `LinearizeDivergesIff` proves that this happens
  exactly when the original loop never ends. That needs three things: the
  root id is non-empty, every id the first-child walk reaches names a node,
  and no node on that walk raises. A walk that cycles through a node that
  raises does not hang. It raises on the first visit, and the chat is
  skipped (`CycleThroughRaisingNode`). A run in which some chat never ends
  is `Hangs`, because the original never returns.
- **Empty nodes.** A node that is an empty object is falsy, and the loop
  breaks at it. The model represents it as a node with no parent, no
  message and no children. The observable outcome is the same: nothing is
  emitted and the walk goes no further.
- **Partial rows.** The Claude loop commits one row at a time. An entry
  that is not an object raises part-way through a chat. The conversation
  row and the message rows before that entry stay in the store, and the
  chat counts as skipped. Its stored messages still count in
  `messages_imported`. The model keeps this behaviour (`Orphans`,
  `StoppedChatKeepsItsRows`).
- **Roles.** `Message.create`'s docstring (execution/database.py:189)
  lists `user`, `assistant` and `system` as roles. The ChatGPT adapter
  stores `message['author']['role']` verbatim (execution/import_chatgpt.py:63),
  so a stored role may be any string or `null`. Only the Claude adapter maps
  senders onto the three roles (execution/import_claude.py:80-88).
- **Timestamps.** The ChatGPT adapter keeps the raw `create_time` in each
  linearized message, defaulting to 0 (execution/import_chatgpt.py:65). The
  Claude adapter parses `created_at` and discards the result
  (execution/import_claude.py:91). Neither reaches the store, because
  `Message.create` stamps the wall clock (execution/database.py:197).
- **Partial records.** When a Claude entry raises, the loop leaves the
  conversation row and the earlier message rows in the store, as described
  above (execution/import_claude.py:71-106).

## Model

| member | source | states |
|---|---|---|
| `Rows.CreateConversation` | execution/database.py:131-141 | appends exactly one conversation row carrying the given project, provider, model and title; earlier rows are untouched, and the new id is used by no earlier row |
| `Rows.CreateMessage` | execution/database.py:196-209 | appends exactly one message row for the given conversation with the given role and content; the new id is used by no earlier row |
| `Rows.InsertMessages` | execution/import_chatgpt.py:142-149 | one message row per entry, in order, all for the same conversation; earlier rows unchanged; ids stay unique |
| `Rows.CreateThenInsert` | execution/import_chatgpt.py:134-149 | creating a conversation and then its messages leaves exactly that conversation row, followed by its message rows in order |
| `Rows.CountAddsConversation` | execution/import_chatgpt.py:134-151 | such a step adds one conversation row and as many message rows as messages |
| `Imports.Tally` | execution/import_chatgpt.py:129-156 | each chat adds one to exactly one of imported/skipped and leaves the other unchanged, and adds its message count to the message counter |
| `Lines.SplitJoin` | execution/import_chatgpt.py:64 | newline-joining parts that contain no newline loses nothing: splitting the joined text gives back the parts |
| `ChatgptTree.FindRoot` | execution/import_chatgpt.py:42-46 | the root is absent exactly when every node has a parent; otherwise it is the id of a parent-less node with no parent-less node before it |
| `ChatgptTree.RootIgnoresLaterNodes` | execution/import_chatgpt.py:43-46 | nodes after the root in map order never change the chosen root |
| `ChatgptTree.Lookup` | execution/import_chatgpt.py:54 | a lookup fails exactly when no entry has the id, and otherwise returns a node stored under that id |
| `ChatgptTree.PartTexts` | execution/import_chatgpt.py:64 | joining succeeds exactly when every part is a string, and then yields the parts' strings in order |
| `ChatgptTree.Extract` | execution/import_chatgpt.py:58-66 | a node emits nothing exactly when its message lacks content parts; it raises exactly when it has parts but the author role cannot be read or some part is not a string; an emitted message carries the author role, the parts joined by newlines, and `create_time` or 0 |
| `ChatgptTree.ContentSplitsIntoParts` | execution/import_chatgpt.py:64 | an emitted message's content splits back into the message's parts when no part holds a newline |
| `ChatgptTree.ExtractAllSucceedsIff` | execution/import_chatgpt.py:53-70 | the messages of a node sequence are produced exactly when no node raises |
| `ChatgptTree.ExtractAllYieldsBearing` | execution/import_chatgpt.py:58-66 | the messages produced are one per text-bearing node, in node order, each the one that node extracts to |
| `ChatgptTree.Walk` | execution/import_chatgpt.py:52-70 | a walk from an empty or unknown id yields no messages; a successful walk yields at most one message per unit of fuel |
| `ChatgptTree.Linearize` | execution/import_chatgpt.py:42-49 | no parent-less node, or an empty root id, gives the empty list; a successful linearization has at most one message per node |
| `ChatgptTree.PathDistinct` | execution/import_chatgpt.py:52-70 | a first-child walk that stops never visits a node twice |
| `ChatgptTree.PathFitsMap` | execution/import_chatgpt.py:52-70 | a first-child walk that stops visits at most as many nodes as the map holds |
| `ChatgptTree.LinearizeFollowsFirstChildPath` | execution/import_chatgpt.py:52-70 | when the first-child walk from the root stops after k nodes, k is at most the node count and the result is exactly the extraction of that path's nodes in path order |
| `ChatgptTree.LinearizeDivergesOnlyOnCycle` | execution/import_chatgpt.py:53-70 | the model reports divergence only when there is a root and the first-child walk from it never stops |
| `ChatgptTree.LinearizeFailsOnCycle` | execution/import_chatgpt.py:53-70 | when the first-child walk from the root never stops, no list is produced |
| `ChatgptTree.LinearizeDivergesIff` | execution/import_chatgpt.py:48-70 | the model reports divergence exactly when the original loop never ends: the root id is non-empty, every id the first-child walk reaches names a node, and no node on the walk raises |
| `ChatgptTree.CycleThroughRaisingNode` | execution/import_chatgpt.py:53-70 | a first-child walk that loops back on a node without an author raises `KeyError` instead of hanging |
| `ChatgptTree.OnlyFirstChildMatters` | execution/import_chatgpt.py:69-70 | children after the first are never visited: changing them anywhere leaves the linearization unchanged |
| `ChatgptTree.TwoNodeChat` | execution/import_chatgpt.py:28-72 | a root with the user's "hi" and first child with the assistant's "hello" linearizes to those two messages in order; the second child is ignored |
| `ChatgptImport.ImportedRowsCarryMessages` | execution/import_chatgpt.py:142-149 | an imported chat adds its conversation row followed by one message row per linearized message, in order, each belonging to that conversation and carrying that message's role and content |
| `ChatgptImport.ImportChat` | execution/import_chatgpt.py:121-156 | processing a chat never returns exactly when the original loops forever on it; otherwise a chat is imported exactly when it linearizes to a non-empty list; a skipped or raising chat leaves the store untouched and adds no messages; an imported chat adds one conversation row ("openai", "gpt-4", title or "Sem título", the caller's project) and then its messages in order; its counts depend on the chat alone |
| `ChatgptImport.DivergesIffHangs` | execution/import_chatgpt.py:120-127 | a chat diverges in the model exactly when the original never returns from it: its mapping has a non-empty root whose first-child walk never stops and never raises |
| `ChatgptImport.ImportAll` | execution/import_chatgpt.py:120-156 | every chat counts once as imported or skipped; the run hangs exactly when the original loops forever on some chat (a non-empty root whose first-child walk never stops and never raises); rows are only appended; the conversation and message rows added equal the two counters' growth |
| `ChatgptImport.ImportChatgptConversations` | execution/import_chatgpt.py:96-118 | an unreadable document raises with no statistics; a readable one returns exactly when the original loops forever on none of its chats, and then counters start at 0, imported plus skipped equals the number of chats, and the counters match the rows added |
| `ChatgptImport.ImportAllCounts` | execution/import_chatgpt.py:114-156 | the counters equal a store-free reference computed from the chats alone |
| `ChatgptImport.ReimportDuplicates` | execution/import_chatgpt.py:133-139 | importing the same document twice gives the same counters and adds its conversations a second time (no deduplication) |
| `ChatgptImport.ImportsTestChat` | execution/import_chatgpt.py:120-151 | the "Test" chat with user "hi" and assistant "hello" yields counters 1, 2, 0 and exactly those rows in order |
| `ClaudeImport.RoleOf` | execution/import_claude.py:80-88 | the role is one of user/assistant/system; user exactly for sender "human", assistant exactly for sender "assistant", system for every other sender, including an absent or null one |
| `ClaudeImport.EntryFields` | execution/import_claude.py:90-98 | a stored message carries the mapped role and the entry's text, "" when absent and none when null |
| `ClaudeImport.ObjectPrefix` | execution/import_claude.py:79-80 | the entries stored are a prefix of the list, all objects, ending just before the first non-object entry |
| `ClaudeImport.InsertEntries` | execution/import_claude.py:79-99 | the loop leaves exactly the message rows of that prefix, counts them, and completes exactly when every entry is an object |
| `ClaudeImport.ImportChat` | execution/import_claude.py:61-106 | a chat is imported exactly when its message list is non-empty and all objects, and then it writes one message per entry in source order, nothing filtered or reordered; a chat without messages leaves the store untouched; one that opens adds one conversation row ("anthropic", "claude-3-opus", name or "Sem título", the caller's project) and its stored messages, which stay even when it then counts as skipped |
| `ClaudeImport.StepCounts` | execution/import_claude.py:71-99 | one chat adds a conversation row exactly when it opens, and as many message rows as it counts |
| `ClaudeImport.ImportAll` | execution/import_claude.py:60-106 | the loop always returns; every chat counts once; rows are only appended; message rows added equal the message counter's growth; conversation rows added are the imported chats plus the orphans, which are among the skipped |
| `ClaudeImport.ImportClaudeConversations` | execution/import_claude.py:48-58 | an unreadable document raises with no statistics; a readable one always returns, imported plus skipped equals the number of chats, and the conversation rows added lie between the imported count and the number of chats |
| `ClaudeImport.ImportAllCounts` | execution/import_claude.py:54-106 | the counters equal a store-free reference computed from the chats alone |
| `ClaudeImport.ImportsTwoMessages` | execution/import_claude.py:60-101 | a chat with a human "hi" and an assistant "hello" yields counters 1, 2, 0 and a conversation row followed by user and assistant rows |
| `ClaudeImport.StoppedChatKeepsItsRows` | execution/import_claude.py:71-106 | a non-object second entry leaves the conversation row and the first message row in the store, while the chat counts as skipped with one message counted |

## Left out

- Timestamps. `parse_chatgpt_timestamp` and `parse_claude_timestamp` are
  float and `datetime` library calls with a wall-clock fallback. The first
  is never called by the importer. The second's result is discarded, and
  its bare `except` means it never raises.
- The wall-clock time that `Message.create` stamps, and the `meta_info`
  column, which the importers always leave empty.
- The logger (`execution/logger.py` and the `logger.log` calls), the
  `print` progress lines, the timing with `time.time()`, and the `__main__`
  blocks. None of them affects the counters or the rows.
- Reading and parsing the file. This is a parameter of the model: either
  the parsed chats or an error message.
- JSON values of types the code does not expect:
  - a top-level value that is not an array;
  - a `mapping` that is an object of non-objects;
  - `parts` or `children` that are not lists;
  - a `title`, `name`, `sender`, `text` or `role` that is not a string;
  - an `author` that is not an object.
  Only the shapes listed in the data types are modelled: non-object chats,
  non-object Claude entries and non-list `chat_messages`, plus `null` and
  absent keys everywhere.
- Duplicate keys in one JSON object. A parsed object has distinct keys, and
  lookups take the first entry with the key.
- Store failures: connection errors, SQL constraint violations, and the
  schema. `schema.sql` is not part of this model. UUID uniqueness is taken
  for granted and modelled by the counter.
- The rest of the store API (`get`, `list_by_project`, projects), the
  tests, and `ui/`.
