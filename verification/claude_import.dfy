/** The Claude importer (`import_claude_conversations`): a fold over the
    exported chats that skips chats with no messages, and otherwise creates
    one conversation row and then one message row per entry, mapping the
    sender to a role.  Rows are committed one at a time, so when an entry
    raises part-way through, the conversation row and the message rows before
    it stay in the store while the chat counts as skipped. */
module ClaudeImport {
  import opened Values
  import opened Rows
  import opened Imports

  const Provider: string := "anthropic"
  const Model: string := "claude-3-opus"

  /** One element of `chat_messages`: an object with `sender` and `text`, or
      some other JSON value, on which `msg.get` raises `AttributeError`. */
  datatype Entry = Entry(sender: Field<string>, text: Field<string>) | NonObjectEntry

  /** The value of `chat_messages`: a list of entries, or another JSON value.
      Of the others, a falsy one (`""`, `0`, `false`, `{}`) is skipped like an
      empty list; iterating a truthy one raises before any entry is stored
      (a number or boolean is not iterable, and a string or object yields
      strings, which have no `get`). */
  datatype MessageList = Entries(entries: seq<Entry>) | NotAList(truthy: bool)

  /** One element of the exported list: an object with `name` and
      `chat_messages`, or some other JSON value, on which `chat.get` raises. */
  datatype Chat = Chat(name: Field<string>, chatMessages: Field<MessageList>) | NonObjectChat

  /** The role stored for a sender: a human is the user, the assistant stays
      the assistant, and every other sender (absent, `null`, or any other
      name) becomes a system message. */
  function RoleOf(sender: Field<string>): (r: string)
    ensures r in {"user", "assistant", "system"}
    ensures r == "user" <==> sender == Present("human")
    ensures r == "assistant" <==> sender == Present("assistant")
    ensures r == "system" <==> sender != Present("human") && sender != Present("assistant")
  {
    match Get(sender, "unknown")
    case Some("human") => "user"
    case Some("assistant") => "assistant"
    case _ => "system"
  }

  /** The columns stored for one entry: its role and `msg.get('text', '')`. */
  function EntryFields(e: Entry): (r: MessageFields)
    requires e.Entry?
    ensures r.role.Some? && r.role.value == RoleOf(e.sender)
    ensures r.content == (if e.text.Missing? then Some("") else if e.text.Null? then None else Some(e.text.value))
  {
    MessageFields(Some(RoleOf(e.sender)), Get(e.text, ""))
  }

  /** The entries stored before the first non-object entry stops the loop. */
  function ObjectPrefix(es: seq<Entry>): (r: seq<Entry>)
    ensures r <= es
    ensures forall i :: 0 <= i < |r| ==> r[i].Entry?
    ensures |r| < |es| ==> es[|r|].NonObjectEntry?
    decreases |es|
  {
    if |es| == 0 || es[0].NonObjectEntry? then []
    else [es[0]] + ObjectPrefix(es[1..])
  }

  function AllFields(es: seq<Entry>): (r: seq<MessageFields>)
    requires forall i :: 0 <= i < |es| ==> es[i].Entry?
    ensures |r| == |es|
    ensures forall i :: 0 <= i < |es| ==> r[i] == EntryFields(es[i])
  {
    seq(|es|, i requires 0 <= i < |es| => EntryFields(es[i]))
  }

  /** The inner `for msg in messages_data` loop: creates one message row per
      entry and stops at the first entry that is not an object.  Returns the
      store, the number of rows created, and whether the loop completed.  The
      rows left behind are exactly those of the entries before the stop. */
  function InsertEntries(s: Store, cid: nat, es: seq<Entry>): (r: (Store, nat, bool))
    ensures r.0 == InsertMessages(s, cid, AllFields(ObjectPrefix(es)))
    ensures r.1 == |ObjectPrefix(es)|
    ensures r.2 <==> forall i :: 0 <= i < |es| ==> es[i].Entry?
    decreases |es|
  {
    if |es| == 0 then (s, 0, true)
    else
      match es[0]
      case NonObjectEntry => (s, 0, false)
      case Entry(_, _) =>
        var s1 := CreateMessage(s, cid, EntryFields(es[0])).0;
        var (s2, n, done) := InsertEntries(s1, cid, es[1..]);
        var fs := AllFields(ObjectPrefix(es));
        assert fs[0] == EntryFields(es[0]);
        assert fs[1..] == AllFields(ObjectPrefix(es[1..]));
        assert done <==> forall i :: 0 <= i < |es| ==> es[i].Entry? by {
          assert forall i :: 1 <= i < |es| ==> es[i] == es[1..][i - 1];
        }
        (s2, n + 1, done)
  }

  /** `chat.get('chat_messages', [])`, for a chat that is an object. */
  function MessagesData(chat: Chat): Option<MessageList>
    requires chat.Chat?
  {
    Get(chat.chatMessages, Entries([]))
  }

  /** The chat reaches `conversation_model.create`: it is an object and its
      messages value is truthy. */
  predicate Opens(chat: Chat)
  {
    && chat.Chat?
    && match MessagesData(chat)
       case None => false
       case Some(Entries(es)) => |es| > 0
       case Some(NotAList(truthy)) => truthy
  }

  /** The chat's loop runs to the end: it opens and every entry is an object. */
  predicate Completes(chat: Chat)
  {
    && Opens(chat)
    && MessagesData(chat).value.Entries?
    && forall i :: 0 <= i < |MessagesData(chat).value.entries| ==> MessagesData(chat).value.entries[i].Entry?
  }

  /** The message columns the chat writes: those of its entries up to the
      first non-object one. */
  function Written(chat: Chat): seq<MessageFields>
  {
    if Opens(chat) && MessagesData(chat).value.Entries? then AllFields(ObjectPrefix(MessagesData(chat).value.entries))
    else []
  }

  /** The stored title: `chat.get('name', 'Sem título')`. */
  function Title(chat: Chat): Option<string>
  {
    match chat
    case NonObjectChat => None
    case Chat(name, _) => Get(name, Untitled)
  }

  /** The body of the `for chat in data` loop.  A chat that does not open
      leaves the store untouched; one that opens adds its conversation row
      and the message rows of its entries up to the first non-object one,
      and those rows stay even when the chat then counts as skipped. */
  function ImportChat(chat: Chat, projectId: Option<string>, store: Store): (r: ChatStep)
    ensures r.imported <==> Completes(chat)
    ensures r.messages == |Written(chat)|
    ensures Completes(chat) ==> Written(chat) == AllFields(MessagesData(chat).value.entries)
    ensures !Opens(chat) ==> r.store == store
    ensures Opens(chat) ==>
      AddsConversation(store, r.store, Provider, Model, Title(chat), projectId, Written(chat))
    ensures Valid(store) ==> Valid(r.store)
  {
    match chat
    case NonObjectChat => ChatStep(store, 0, false)
    case Chat(_, _) =>
      if !Opens(chat) then ChatStep(store, 0, false)
      else
        var (s1, cid) := CreateConversation(store, Provider, Model, Title(chat), projectId);
        match MessagesData(chat).value
        case NotAList(_) =>
          CreateThenInsert(store, Provider, Model, Title(chat), projectId, []);
          ChatStep(s1, 0, false)
        case Entries(es) =>
          var (s2, n, done) := InsertEntries(s1, cid, es);
          CreateThenInsert(store, Provider, Model, Title(chat), projectId, AllFields(ObjectPrefix(es)));
          ChatStep(s2, n, done)
  }

  /** One chat adds a conversation row exactly when it opens, and as many
      message rows as it counts. */
  lemma StepCounts(chat: Chat, projectId: Option<string>, store: Store)
    ensures CountConversations(ImportChat(chat, projectId, store).store.log)
         == CountConversations(store.log) + (if Opens(chat) then 1 else 0)
    ensures CountMessages(ImportChat(chat, projectId, store).store.log)
         == CountMessages(store.log) + ImportChat(chat, projectId, store).messages
  {
    if Opens(chat) {
      var step := ImportChat(chat, projectId, store);
      CountAddsConversation(store, step.store, Provider, Model, Title(chat), projectId, Written(chat));
    }
  }

  /** Chats that opened a conversation but counted as skipped: their
      conversation rows stay in the store without being counted. */
  function Orphans(chats: seq<Chat>): (r: nat)
    ensures r <= |chats|
    decreases |chats|
  {
    if |chats| == 0 then 0
    else (if Opens(chats[0]) && !Completes(chats[0]) then 1 else 0) + Orphans(chats[1..])
  }

  /** The `for chat in data` loop.  It always returns; every chat counts
      once; the message rows added match the message counter exactly; and the
      conversation rows added are the imported chats plus the orphans, which
      are among the skipped ones. */
  function ImportAll(chats: seq<Chat>, projectId: Option<string>, stats: Stats, store: Store): (r: Run)
    ensures r.Returned?
    ensures r.stats.conversationsImported + r.stats.conversationsSkipped
         == stats.conversationsImported + stats.conversationsSkipped + |chats|
    ensures Extends(store, r.store)
    ensures CountMessages(r.store.log) + stats.messagesImported
         == CountMessages(store.log) + r.stats.messagesImported
    ensures CountConversations(r.store.log) + stats.conversationsImported
         == CountConversations(store.log) + r.stats.conversationsImported + Orphans(chats)
    ensures stats.conversationsImported <= r.stats.conversationsImported
    ensures stats.conversationsSkipped + Orphans(chats) <= r.stats.conversationsSkipped
    ensures Valid(store) ==> Valid(r.store)
    decreases |chats|
  {
    if |chats| == 0 then Returned(stats, store)
    else
      var step := ImportChat(chats[0], projectId, store);
      var r := ImportAll(chats[1..], projectId, Tally(stats, step.imported, step.messages), step.store);
      StepCounts(chats[0], projectId, store);
      ExtendsTransitive(store, step.store, r.store);
      r
  }

  /** `import_claude_conversations`.  A document that cannot be read or
      parsed raises; otherwise the counters start at zero, imported plus
      skipped equals the number of chats, and the conversation rows added
      lie between the imported count and the number of chats. */
  function ImportClaudeConversations(document: Result<seq<Chat>, string>, projectId: Option<string>, store: Store): (r: Run)
    ensures document.Failure? <==> r.ReadFailed?
    ensures document.Failure? ==> r == ReadFailed(document.error)
    ensures document.Success? ==> r.Returned?
    ensures r.Returned? ==>
      && r.stats.conversationsImported + r.stats.conversationsSkipped == |document.value|
      && Extends(store, r.store)
      && CountMessages(r.store.log) == CountMessages(store.log) + r.stats.messagesImported
      && CountConversations(store.log) + r.stats.conversationsImported <= CountConversations(r.store.log)
      && CountConversations(r.store.log) <= CountConversations(store.log) + |document.value|
  {
    match document
    case Failure(e) => ReadFailed(e)
    case Success(chats) => ImportAll(chats, projectId, ZeroStats(), store)
  }

  /** The counters a run reaches, from the chats alone. */
  function ExpectedStats(chats: seq<Chat>, stats: Stats): Stats
    decreases |chats|
  {
    if |chats| == 0 then stats
    else ExpectedStats(chats[1..], Tally(stats, Completes(chats[0]), |Written(chats[0])|))
  }

  /** The counters of a run are the store-free reference counters, whatever
      store the run writes to. */
  lemma {:induction false} ImportAllCounts(chats: seq<Chat>, projectId: Option<string>, stats: Stats, store: Store)
    ensures ImportAll(chats, projectId, stats, store).stats == ExpectedStats(chats, stats)
    decreases |chats|
  {
    if |chats| > 0 {
      var step := ImportChat(chats[0], projectId, store);
      ImportAllCounts(chats[1..], projectId, Tally(stats, step.imported, step.messages), step.store);
    }
  }

  /** A chat of one human and one assistant message imports as one
      conversation with a user row and an assistant row, in order. */
  lemma ImportsTwoMessages()
    ensures
      var chat := Chat(Present("Test"), Present(Entries([Entry(Present("human"), Present("hi")),
                                                         Entry(Present("assistant"), Present("hello"))])));
      var r := ImportAll([chat], None, ZeroStats(), EmptyStore());
      && r.stats == Stats(1, 2, 0)
      && r.store.log == [ConversationRow(0, None, Provider, Model, Some("Test")),
                         MessageRow(1, 0, Some("user"), Some("hi")),
                         MessageRow(2, 0, Some("assistant"), Some("hello"))]
  {
    var es := [Entry(Present("human"), Present("hi")), Entry(Present("assistant"), Present("hello"))];
    var chat := Chat(Present("Test"), Present(Entries(es)));
    assert ObjectPrefix(es) == es by {
      assert ObjectPrefix(es[1..]) == es[1..] by {
        assert es[1..][1..] == [];
      }
    }
    assert Completes(chat);
    assert Written(chat) == AllFields(es);
    var step := ImportChat(chat, None, EmptyStore());
    assert step.imported && step.messages == 2;
    assert ImportAll([chat], None, ZeroStats(), EmptyStore())
        == ImportAll([], None, Tally(ZeroStats(), true, 2), step.store);
  }

  /** An entry that is not an object stops the chat after the rows before
      it were committed: the conversation row and the first message row stay,
      the chat counts as skipped, and its one stored message is counted. */
  lemma StoppedChatKeepsItsRows()
    ensures
      var chat := Chat(Present("T"), Present(Entries([Entry(Present("human"), Present("hi")), NonObjectEntry,
                                                      Entry(Present("assistant"), Present("late"))])));
      var r := ImportAll([chat], None, ZeroStats(), EmptyStore());
      && r.stats == Stats(0, 1, 1)
      && r.store.log == [ConversationRow(0, None, Provider, Model, Some("T")),
                         MessageRow(1, 0, Some("user"), Some("hi"))]
  {
    var es := [Entry(Present("human"), Present("hi")), NonObjectEntry, Entry(Present("assistant"), Present("late"))];
    var chat := Chat(Present("T"), Present(Entries(es)));
    assert ObjectPrefix(es) == [es[0]] by {
      assert ObjectPrefix(es[1..]) == [];
    }
    assert !Completes(chat) by {
      assert !es[1].Entry?;
    }
    assert Written(chat) == AllFields([es[0]]);
    var step := ImportChat(chat, None, EmptyStore());
    assert step.imported == false && step.messages == 1;
    assert ImportAll([chat], None, ZeroStats(), EmptyStore())
        == ImportAll([], None, Tally(ZeroStats(), false, 1), step.store);
  }
}
