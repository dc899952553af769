/** The ChatGPT importer (`import_chatgpt_conversations`): a fold over the
    exported chats that linearizes each chat's node map, skips chats that
    yield no messages or raise, and otherwise creates one conversation row
    followed by one message row per linearized message. */
module ChatgptImport {
  import opened Values
  import opened Rows
  import opened Imports
  import opened ChatgptTree

  const Provider: string := "openai"
  const Model: string := "gpt-4"

  /** One element of the exported list: an object with `title` and
      `mapping`, or some other JSON value. */
  datatype Chat = Chat(title: Field<string>, mapping: Field<NodeMap>) | NonObjectChat

  /** `chat.get('mapping', {})` followed by `linearize_conversation`: a chat
      that is not an object, or a `null` mapping, raises `AttributeError`. */
  function ChatMessages(chat: Chat): Result<seq<Linear>, Fault>
  {
    match chat
    case NonObjectChat => Failure(Raised(AttributeError))
    case Chat(_, mapping) =>
      match mapping
      case Missing => Linearize([])
      case Null => Failure(Raised(AttributeError))
      case Present(m) => Linearize(m)
  }

  /** The stored title: `chat.get('title', 'Sem título')`. */
  function Title(chat: Chat): Option<string>
  {
    match chat
    case NonObjectChat => None
    case Chat(title, _) => Get(title, Untitled)
  }

  /** The columns stored for each linearized message. */
  function Fields(ms: seq<Linear>): (r: seq<MessageFields>)
    ensures |r| == |ms|
    ensures forall i :: 0 <= i < |ms| ==> r[i] == MessageFields(ms[i].role, Some(ms[i].content))
  {
    seq(|ms|, i requires 0 <= i < |ms| => MessageFields(ms[i].role, Some(ms[i].content)))
  }

  /** The original never returns from this chat: its mapping has a
      non-empty root whose first-child walk never stops and never raises. */
  ghost predicate ChatHangs(chat: Chat)
  {
    && chat.Chat?
    && chat.mapping.Present?
    && var m := chat.mapping.value;
       FindRoot(m).Some? && FindRoot(m).value != "" && LoopsForever(m, FindRoot(m).value)
  }

  /** The model reports divergence for a chat exactly when the original
      never returns from it. */
  lemma DivergesIffHangs(chat: Chat)
    ensures ChatMessages(chat) == Failure(Diverges) <==> ChatHangs(chat)
  {
    if chat.Chat? && chat.mapping.Present? {
      LinearizeDivergesIff(chat.mapping.value);
    }
  }

  /** Processing one chat either finishes or, on a cyclic first-child walk,
      never returns. */
  datatype ChatRun = Finished(step: ChatStep) | Diverged

  /** The body of the `for chat in data` loop. A skipped chat, whether it
      yielded no messages or raised, leaves the store untouched; an imported
      chat adds exactly one conversation row and then its message rows, in
      linearized order. */
  function ImportChat(chat: Chat, projectId: Option<string>, store: Store): (r: ChatRun)
    ensures r.Diverged? <==> ChatMessages(chat) == Failure(Diverges)
    ensures r.Diverged? <==> ChatHangs(chat)
    ensures r.Finished? ==>
      (r.step.imported <==> ChatMessages(chat).Success? && |ChatMessages(chat).value| > 0)
    ensures r.Finished? && !r.step.imported ==> r.step.store == store && r.step.messages == 0
    ensures r.Finished? && r.step.imported ==>
      && r.step.messages == |ChatMessages(chat).value|
      && AddsConversation(store, r.step.store, Provider, Model, Title(chat), projectId,
                          Fields(ChatMessages(chat).value))
    ensures r.Finished? && Valid(store) ==> Valid(r.step.store)
    ensures r.Finished? <==> Counted(chat).Some?
    ensures r.Finished? ==> Counted(chat).value == (r.step.imported, r.step.messages)
  {
    DivergesIffHangs(chat);
    match ChatMessages(chat)
    case Failure(Diverges) => Diverged
    case Failure(Raised(_)) => Finished(ChatStep(store, 0, false))
    case Success(ms) =>
      if |ms| == 0 then Finished(ChatStep(store, 0, false))
      else
        var (s1, cid) := CreateConversation(store, Provider, Model, Title(chat), projectId);
        CreateThenInsert(store, Provider, Model, Title(chat), projectId, Fields(ms));
        Finished(ChatStep(InsertMessages(s1, cid, Fields(ms)), |ms|, true))
  }

  /** The `for chat in data` loop from the given counters and store. Every
      chat counts once, as imported or as skipped; the conversation rows and
      message rows added match the counters exactly; the run hangs exactly
      when some chat's walk never ends. */
  function ImportAll(chats: seq<Chat>, projectId: Option<string>, stats: Stats, store: Store): (r: Run)
    ensures !r.ReadFailed?
    ensures r.Hangs? <==> exists i :: 0 <= i < |chats| && ChatHangs(chats[i])
    ensures r.Returned? ==>
      && r.stats.conversationsImported + r.stats.conversationsSkipped
         == stats.conversationsImported + stats.conversationsSkipped + |chats|
      && Extends(store, r.store)
      && CountConversations(r.store.log) + stats.conversationsImported
         == CountConversations(store.log) + r.stats.conversationsImported
      && CountMessages(r.store.log) + stats.messagesImported
         == CountMessages(store.log) + r.stats.messagesImported
      && (Valid(store) ==> Valid(r.store))
    decreases |chats|
  {
    if |chats| == 0 then Returned(stats, store)
    else
      match ImportChat(chats[0], projectId, store)
      case Diverged => Hangs
      case Finished(step) =>
        var r := ImportAll(chats[1..], projectId, Tally(stats, step.imported, step.messages), step.store);
        HangsInRest(chats);
        if step.imported then
          CountAddsConversation(store, step.store, Provider, Model, Title(chats[0]), projectId,
                                Fields(ChatMessages(chats[0]).value));
          if r.Returned? then ExtendsTransitive(store, step.store, r.store); r else r
        else r
  }

  lemma HangsInRest(chats: seq<Chat>)
    requires |chats| > 0
    ensures (exists i :: 1 <= i < |chats| && ChatHangs(chats[i]))
        <==> (exists i :: 0 <= i < |chats[1..]| && ChatHangs(chats[1..][i]))
  {
    forall i | 1 <= i < |chats| ensures chats[i] == chats[1..][i - 1] { }
  }

  /** `import_chatgpt_conversations`. A document that cannot be read or
      parsed raises and yields no statistics; otherwise the counters start at
      zero and imported plus skipped equals the number of chats.  A readable
      document returns unless the original would loop forever on one of its
      chats. */
  function ImportChatgptConversations(document: Result<seq<Chat>, string>, projectId: Option<string>, store: Store): (r: Run)
    ensures document.Failure? <==> r.ReadFailed?
    ensures document.Failure? ==> r == ReadFailed(document.error)
    ensures document.Success? ==>
      (r.Returned? <==> forall i :: 0 <= i < |document.value| ==> !ChatHangs(document.value[i]))
    ensures r.Returned? ==>
      && r.stats.conversationsImported + r.stats.conversationsSkipped == |document.value|
      && Extends(store, r.store)
      && CountConversations(r.store.log) == CountConversations(store.log) + r.stats.conversationsImported
      && CountMessages(r.store.log) == CountMessages(store.log) + r.stats.messagesImported
  {
    match document
    case Failure(e) => ReadFailed(e)
    case Success(chats) => ImportAll(chats, projectId, ZeroStats(), store)
  }

  /** What one chat adds to the counters, from the chat alone: whether it
      counts as imported and how many messages it contributes; `None` when
      its walk never ends. */
  function Counted(chat: Chat): Option<(bool, nat)>
  {
    match ChatMessages(chat)
    case Failure(Diverges) => None
    case Failure(Raised(_)) => Some((false, 0))
    case Success(ms) => Some((|ms| > 0, |ms|))
  }

  /** The message rows of an imported chat, one per linearized message and
      in linearized order, belong to its new conversation and carry that
      message's role and content. */
  lemma ImportedRowsCarryMessages(chat: Chat, projectId: Option<string>, store: Store)
    requires ImportChat(chat, projectId, store).Finished?
    requires ImportChat(chat, projectId, store).step.imported
    ensures
      var log := ImportChat(chat, projectId, store).step.store.log;
      var ms := ChatMessages(chat).value;
      && |log| == |store.log| + 1 + |ms|
      && log[|store.log|].ConversationRow?
      && forall i :: 0 <= i < |ms| ==>
           log[|store.log| + 1 + i] == MessageRow(log[|store.log| + 1 + i].id, log[|store.log|].id,
                                                  ms[i].role, Some(ms[i].content))
  {
    var log := ImportChat(chat, projectId, store).step.store.log;
    var ms := ChatMessages(chat).value;
    var rows := log[|store.log| + 1..];
    forall i | 0 <= i < |ms|
      ensures log[|store.log| + 1 + i] == MessageRow(log[|store.log| + 1 + i].id, log[|store.log|].id,
                                                     ms[i].role, Some(ms[i].content))
    {
      assert rows[i] == log[|store.log| + 1 + i];
      assert Fields(ms)[i] == MessageFields(ms[i].role, Some(ms[i].content));
    }
  }

  /** The counters a run reaches, computed from the chats alone: a
      reference that involves no store. `None` when some walk never ends. */
  function ExpectedStats(chats: seq<Chat>, stats: Stats): Option<Stats>
    decreases |chats|
  {
    if |chats| == 0 then Some(stats)
    else
      match Counted(chats[0])
      case None => None
      case Some((imported, messages)) => ExpectedStats(chats[1..], Tally(stats, imported, messages))
  }

  /** The counters of a run are the store-free reference counters, whatever
      store the run writes to. */
  lemma {:induction false} ImportAllCounts(chats: seq<Chat>, projectId: Option<string>, stats: Stats, store: Store)
    ensures ImportAll(chats, projectId, stats, store).Returned? <==> ExpectedStats(chats, stats).Some?
    ensures ImportAll(chats, projectId, stats, store).Returned? ==>
      ImportAll(chats, projectId, stats, store).stats == ExpectedStats(chats, stats).value
    decreases |chats|
  {
    if |chats| > 0 {
      var r := ImportChat(chats[0], projectId, store);
      if r.Finished? {
        ImportAllCounts(chats[1..], projectId, Tally(stats, r.step.imported, r.step.messages), r.step.store);
      }
    }
  }

  /** Importing the same document twice duplicates it: the second run
      reports the same counters and adds as many conversation rows again. */
  lemma ReimportDuplicates(chats: seq<Chat>, projectId: Option<string>, store: Store)
    requires ImportAll(chats, projectId, ZeroStats(), store).Returned?
    ensures
      var first := ImportAll(chats, projectId, ZeroStats(), store);
      var second := ImportAll(chats, projectId, ZeroStats(), first.store);
      && second.Returned?
      && second.stats == first.stats
      && CountConversations(second.store.log)
         == CountConversations(store.log) + 2 * first.stats.conversationsImported
  {
    var first := ImportAll(chats, projectId, ZeroStats(), store);
    ImportAllCounts(chats, projectId, ZeroStats(), store);
    ImportAllCounts(chats, projectId, ZeroStats(), first.store);
  }

  /** One chat titled "Test" whose first-child path holds the user's "hi"
      and the assistant's "hello" imports as one conversation with those two
      message rows, in order, and the counters read 1, 2 and 0. */
  lemma ImportsTestChat()
    ensures
      var hi := Payload(Present(Author(Present("user"))), Some(Content([TextPart("hi")])), Missing);
      var hello := Payload(Present(Author(Present("assistant"))), Some(Content([TextPart("hello")])), Missing);
      var m := [("a", Node(None, Some(hi), ["b", "c"])),
                ("b", Node(Some("a"), Some(hello), [])),
                ("c", Node(Some("a"), Some(hello), []))];
      var r := ImportChatgptConversations(Success([Chat(Present("Test"), Present(m))]), None, EmptyStore());
      && r.Returned?
      && r.stats == Stats(1, 2, 0)
      && r.store.log == [ConversationRow(0, None, Provider, Model, Some("Test")),
                         MessageRow(1, 0, Some("user"), Some("hi")),
                         MessageRow(2, 0, Some("assistant"), Some("hello"))]
  {
    var hi := Payload(Present(Author(Present("user"))), Some(Content([TextPart("hi")])), Missing);
    var hello := Payload(Present(Author(Present("assistant"))), Some(Content([TextPart("hello")])), Missing);
    var m := [("a", Node(None, Some(hi), ["b", "c"])),
              ("b", Node(Some("a"), Some(hello), [])),
              ("c", Node(Some("a"), Some(hello), []))];
    var chat := Chat(Present("Test"), Present(m));
    TwoNodeChat();
    var ms := [Linear(Some("user"), "hi", Some(0.0)), Linear(Some("assistant"), "hello", Some(0.0))];
    assert ChatMessages(chat) == Success(ms);
    assert Fields(ms) == [MessageFields(Some("user"), Some("hi")), MessageFields(Some("assistant"), Some("hello"))];
    var step := ImportChat(chat, None, EmptyStore()).step;
    assert step.imported && step.messages == 2;
    assert ImportAll([chat], None, ZeroStats(), EmptyStore())
        == ImportAll([], None, Tally(ZeroStats(), true, 2), step.store);
  }
}
