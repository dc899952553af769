/** The store the importers write to, reduced to what they can observe: an
    append-only log of conversation and message rows.  `Conversation.create`
    and `Message.create` each append one row under a new identifier and commit;
    nothing here updates or deletes a row.  Identifiers are naturals drawn from
    a counter, standing for the random UUIDs of the original. */
module Rows {
  import opened Values

  datatype Row =
    | ConversationRow(id: nat, projectId: Option<string>, provider: string, model: string, title: Option<string>)
    | MessageRow(id: nat, conversationId: nat, role: Option<string>, content: Option<string>)

  /** The columns of a message row that the importers choose. */
  datatype MessageFields = MessageFields(role: Option<string>, content: Option<string>)

  /** Every row ever created, oldest first, and the next unused identifier. */
  datatype Store = Store(log: seq<Row>, nextId: nat)

  function EmptyStore(): Store
  {
    Store([], 0)
  }

  /** Identifiers grow along the log and stay below `nextId`, so no two rows
      share one and `nextId` is unused. */
  predicate Valid(s: Store)
  {
    && (forall i, j :: 0 <= i < j < |s.log| ==> s.log[i].id < s.log[j].id)
    && (forall i :: 0 <= i < |s.log| ==> s.log[i].id < s.nextId)
  }

  /** No row of `s` carries identifier `id`. */
  predicate Fresh(s: Store, id: nat)
  {
    forall i :: 0 <= i < |s.log| ==> s.log[i].id != id
  }

  /** `after` holds every row of `before`, unchanged and in the same place. */
  predicate Extends(before: Store, after: Store)
  {
    |before.log| <= |after.log| && after.log[..|before.log|] == before.log
  }

  lemma ExtendsTransitive(a: Store, b: Store, c: Store)
    requires Extends(a, b) && Extends(b, c)
    ensures Extends(a, c)
  {
    assert c.log[..|a.log|] == c.log[..|b.log|][..|a.log|];
  }

  /** `Conversation.create`. */
  function CreateConversation(s: Store, provider: string, model: string, title: Option<string>, projectId: Option<string>): (r: (Store, nat))
    ensures r.0.log == s.log + [ConversationRow(r.1, projectId, provider, model, title)]
    ensures Valid(s) ==> Valid(r.0) && Fresh(s, r.1)
  {
    var id := s.nextId;
    (Store(s.log + [ConversationRow(id, projectId, provider, model, title)], id + 1), id)
  }

  /** `Message.create`; the wall-clock timestamp it stamps is not modelled. */
  function CreateMessage(s: Store, conversationId: nat, fields: MessageFields): (r: (Store, nat))
    ensures r.0.log == s.log + [MessageRow(r.1, conversationId, fields.role, fields.content)]
    ensures Valid(s) ==> Valid(r.0) && Fresh(s, r.1)
  {
    var id := s.nextId;
    (Store(s.log + [MessageRow(id, conversationId, fields.role, fields.content)], id + 1), id)
  }

  /** `rows` are message rows of conversation `cid` carrying `fs`, one per entry, in order. */
  predicate MessagesOf(rows: seq<Row>, cid: nat, fs: seq<MessageFields>)
  {
    && |rows| == |fs|
    && forall i :: 0 <= i < |rows| ==>
         && rows[i].MessageRow?
         && rows[i].conversationId == cid
         && rows[i].role == fs[i].role
         && rows[i].content == fs[i].content
  }

  /** `after` is `before` followed by one new conversation row with the given
      columns and then that conversation's message rows carrying `fs`. */
  predicate AddsConversation(before: Store, after: Store, provider: string, model: string,
                             title: Option<string>, projectId: Option<string>, fs: seq<MessageFields>)
  {
    && Extends(before, after)
    && |after.log| == |before.log| + 1 + |fs|
    && var c := after.log[|before.log|];
       && c == ConversationRow(c.id, projectId, provider, model, title)
       && MessagesOf(after.log[|before.log| + 1..], c.id, fs)
  }

  /** Creates one message row per entry of `fs`, in order. */
  function InsertMessages(s: Store, cid: nat, fs: seq<MessageFields>): (r: Store)
    ensures Extends(s, r)
    ensures MessagesOf(r.log[|s.log|..], cid, fs)
    ensures Valid(s) ==> Valid(r)
    ensures r.nextId >= s.nextId
    decreases |fs|
  {
    if |fs| == 0 then s
    else
      var s1 := CreateMessage(s, cid, fs[0]).0;
      var r := InsertMessages(s1, cid, fs[1..]);
      assert r.log[|s.log|..] == [s1.log[|s.log|]] + r.log[|s1.log|..];
      r
  }

  /** A conversation created and then given its messages is exactly one
      conversation row followed by those message rows. */
  lemma CreateThenInsert(s: Store, provider: string, model: string, title: Option<string>,
                         projectId: Option<string>, fs: seq<MessageFields>)
    ensures
      var (s1, cid) := CreateConversation(s, provider, model, title, projectId);
      AddsConversation(s, InsertMessages(s1, cid, fs), provider, model, title, projectId, fs)
  {
    var (s1, cid) := CreateConversation(s, provider, model, title, projectId);
    var s2 := InsertMessages(s1, cid, fs);
    ExtendsTransitive(s, s1, s2);
    assert s2.log[|s.log|] == s1.log[|s.log|];
    assert s2.log[|s.log| + 1..] == s2.log[|s1.log|..];
  }

  function CountConversations(log: seq<Row>): nat
  {
    if |log| == 0 then 0
    else (if log[0].ConversationRow? then 1 else 0) + CountConversations(log[1..])
  }

  function CountMessages(log: seq<Row>): nat
  {
    if |log| == 0 then 0
    else (if log[0].MessageRow? then 1 else 0) + CountMessages(log[1..])
  }

  lemma {:induction false} CountAppend(a: seq<Row>, b: seq<Row>)
    ensures CountConversations(a + b) == CountConversations(a) + CountConversations(b)
    ensures CountMessages(a + b) == CountMessages(a) + CountMessages(b)
    decreases |a|
  {
    if |a| > 0 {
      assert (a + b)[1..] == a[1..] + b;
      CountAppend(a[1..], b);
    } else {
      assert a + b == b;
    }
  }

  /** Message rows add messages and no conversations. */
  lemma {:induction false} CountMessagesOf(rows: seq<Row>, cid: nat, fs: seq<MessageFields>)
    requires MessagesOf(rows, cid, fs)
    ensures CountConversations(rows) == 0
    ensures CountMessages(rows) == |fs|
    decreases |rows|
  {
    if |rows| > 0 {
      assert MessagesOf(rows[1..], cid, fs[1..]);
      CountMessagesOf(rows[1..], cid, fs[1..]);
    }
  }

  /** What one new conversation with its messages adds to the two counts. */
  lemma CountAddsConversation(before: Store, after: Store, provider: string, model: string,
                              title: Option<string>, projectId: Option<string>, fs: seq<MessageFields>)
    requires AddsConversation(before, after, provider, model, title, projectId, fs)
    ensures CountConversations(after.log) == CountConversations(before.log) + 1
    ensures CountMessages(after.log) == CountMessages(before.log) + |fs|
  {
    var n := |before.log|;
    var c := after.log[n];
    assert after.log == before.log + [c] + after.log[n + 1..];
    CountAppend(before.log + [c], after.log[n + 1..]);
    CountAppend(before.log, [c]);
    CountMessagesOf(after.log[n + 1..], c.id, fs);
  }
}
