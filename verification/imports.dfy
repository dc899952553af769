/** What the two importers share: the statistics they return, the outcome of
    processing one chat, and the outcome of a whole import run. */
module Imports {
  import opened Values
  import opened Rows

  /** The title stored when a chat has no title key. */
  const Untitled: string := "Sem título"

  /** The three counters of one import run. */
  datatype Stats = Stats(conversationsImported: nat, messagesImported: nat, conversationsSkipped: nat)

  function ZeroStats(): Stats
  {
    Stats(0, 0, 0)
  }

  /** What processing one chat left behind: the store afterwards, the number
      of message rows it created (and counted), and whether the chat counted
      as imported (otherwise it counted as skipped). */
  datatype ChatStep = ChatStep(store: Store, messages: nat, imported: bool)

  /** Adds one chat to the counters: exactly one of imported/skipped grows
      by one, and the message counter grows by the rows the chat created. */
  function Tally(stats: Stats, imported: bool, messages: nat): (r: Stats)
    ensures r.conversationsImported + r.conversationsSkipped
         == stats.conversationsImported + stats.conversationsSkipped + 1
    ensures r.messagesImported == stats.messagesImported + messages
    ensures imported <==> r.conversationsImported == stats.conversationsImported + 1
    ensures imported ==> r.conversationsSkipped == stats.conversationsSkipped
    ensures !imported ==>
      r.conversationsImported == stats.conversationsImported
      && r.conversationsSkipped == stats.conversationsSkipped + 1
  {
    if imported then
      Stats(stats.conversationsImported + 1, stats.messagesImported + messages, stats.conversationsSkipped)
    else
      Stats(stats.conversationsImported, stats.messagesImported + messages, stats.conversationsSkipped + 1)
  }

  /** The outcome of an import run: it returns its statistics, raises (the
      document could not be read or parsed), or never returns. */
  datatype Run = Returned(stats: Stats, store: Store) | ReadFailed(reason: string) | Hangs
}
