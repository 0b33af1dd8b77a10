/**
 * Conversation messages and the durable message table. The table is an
 * append-only sequence of (role, content) records in id order; the in-memory
 * history is the context handed to the completion provider.
 */
module Store {

  datatype Role = System | User | Assistant

  datatype Msg = Msg(role: Role, content: string)

  const DEFAULT_SYSTEM_PROMPT: string := "You are a helpful assistant in a multi-client group chat."

  /** The message seeded into an empty store. */
  const DEFAULT_SYSTEM_MESSAGE: Msg := Msg(System, DEFAULT_SYSTEM_PROMPT)

  /** `history` is the most recent part of `log`. */
  ghost predicate IsSuffix(history: seq<Msg>, log: seq<Msg>) {
    |history| <= |log| && log[|log| - |history|..] == history
  }

  /** The relation the server keeps between its history and its durable log. */
  ghost predicate Coherent(history: seq<Msg>, log: seq<Msg>) {
    history != [] && IsSuffix(history, log)
  }

  /**
   * Startup: given the rows already stored (in id order), returns the initial
   * in-memory history and the table's contents afterwards. A non-empty store
   * is loaded row by row; an empty one is seeded with the default system
   * message, in memory and in the table.
   */
  method InitDb(stored: seq<Msg>) returns (history: seq<Msg>, log: seq<Msg>)
    ensures stored != [] ==> history == stored && log == stored
    ensures stored == [] ==> history == [DEFAULT_SYSTEM_MESSAGE] && log == [DEFAULT_SYSTEM_MESSAGE]
    ensures Coherent(history, log)
  {
    history := [];
    log := stored;
    if stored != [] {
      for i := 0 to |stored|
        invariant history == stored[..i]
      {
        history := history + [stored[i]];
      }
    } else {
      history := history + [DEFAULT_SYSTEM_MESSAGE];
      log := log + [DEFAULT_SYSTEM_MESSAGE];
    }
  }

  /** Appending the same record to both keeps the history a suffix of the log. */
  lemma {:induction false} AppendKeepsCoherent(history: seq<Msg>, log: seq<Msg>, m: Msg)
    requires IsSuffix(history, log)
    ensures Coherent(history + [m], log + [m])
  {
    var h, l := history + [m], log + [m];
    assert forall k | 0 <= k < |h| :: l[|l| - |h|..][k] == h[k];
  }

  /** A one-message history made of the last record of the log is coherent with it. */
  lemma {:induction false} LastRecordIsCoherent(log: seq<Msg>, m: Msg)
    ensures Coherent([m], log + [m])
  {
    assert (log + [m])[|log|..] == [m];
  }
}
