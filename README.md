# Relay server core: framing, dispatch, broadcast and the durable log

This project models the core of `server/tcp_llm_broadcast_server.py`, a
multi-client chat relay. Clients send NUL-terminated text frames over TCP.
The server keeps one shared conversation history. It mirrors that history
into an append-only SQLite table. It forwards each chat turn to a completion
provider and broadcasts the user's text and the reply to every connected
client.

The model has five modules:

- `Framing` (framing.dfy) covers the inbound byte framing. `Split` cuts a
  buffer at every NUL and is proved to be the unique decomposition into
  NUL-free frames plus an unterminated tail. The lemmas show how the
  per-connection carry buffer behaves across reads. `Outbound` is the
  line-feed terminator put on every outgoing message.
- `Text` (text.dfy) covers Python's `str.strip()`, applied to the provider's
  reply, and the decimal rendering of the length in the over-length warning.
- `Store` (store.dfy) defines messages, the load-or-seed startup of the
  message table (`InitDb`), and the invariant that the in-memory history is
  a non-empty suffix of the durable log.
- `Router` (router.dfy) gives the dispatch of one decoded frame as a pure
  state transition `Step` over a `World` snapshot: history, log, clients,
  and the writes made so far. It gives a connection's frames as `RunFrames`.
  It also holds the lemmas about both.
- `Server` (server.dfy) has a class `Relay`. Its fields are the module
  globals that the source mutates in place: the history list, the client
  set, the message table and the writes. Its methods are the imperative
  code: the `broadcast` loop, `save_message`, frame dispatch, the inner
  frame-cutting loop and the whole `handle_client` lifetime. Frame dispatch
  and the two read loops are proved against `Router.Step` /
  `Router.RunFrames`, and the broadcast against `Router.AfterBroadcast`.
  The constructor (the startup load) and `SaveMessage` state their effect
  on the fields directly.

The effects outside the server are parameters:

- `decode` is the bytes-to-text decoding with invalid sequences dropped.
- `provider` maps a history to `Some(reply)`, or to `None` when the call
  raises.
- `failing` is the set of writers whose write raises.
- `chunks` are the successive results of `reader.read`. An empty chunk is
  end of stream.

The output the server writes is recorded in `events`, in order. A
`Unicast` goes to one writer. A `Fanout` is one broadcast, together with
the set of writers it reached.

`Abort` is the outcome of a frame whose handling raised. In the model two
things raise: the provider call, and the warning write to a sender whose
connection is broken. On `Abort` the read loop is left and the writer is
removed from the client set. Other exceptions the source can meet inside
the same `try` are not modelled (see "Left out").

The chat turn's provider call in the source is synchronous. Between the
first change a frame makes to the history and the log and the last one
there is no suspension point, so modelling one frame at a time gives the
same effect on that state as the running program. The `await` points
inside the read loop are `reader.read`, the `drain` after the over-length
warning and the `drain`s inside `broadcast`; there other connections can run, which the
model does not capture (see "Left out").

## Model

| member | source | states |
|---|---|---|
| `Framing.Find` | server/tcp_llm_broadcast_server.py:109 | `buffer.find(b'\0')`: an index inside the buffer that holds the searched byte, or -1 (which index is `FindFirst`'s contract) |
| `Framing.FindFirst` | server/tcp_llm_broadcast_server.py:109-112 | `buffer.find(b'\0')`: -1 exactly when there is no NUL, otherwise a NUL position with no NUL before it |
| `Framing.FindAt` | server/tcp_llm_broadcast_server.py:109-112 | a NUL with no NUL before it is the position `find` returns, so the cut is at the first terminator |
| `Framing.Split` | server/tcp_llm_broadcast_server.py:107-114 | the frames the inner loop cuts off a buffer, by repeated cuts at the first NUL, and the bytes it leaves; its guarantees are `SplitJoins` and `SplitUnique` |
| `Framing.Received` | server/tcp_llm_broadcast_server.py:100-105 | the bytes the outer read loop appends to the buffer: the chunks in order up to the first empty read |
| `Framing.SplitJoins` | server/tcp_llm_broadcast_server.py:107-114 | the frames and the tail, re-terminated and concatenated, give back the buffer; no frame and no tail contains a NUL |
| `Framing.SplitUnique` | server/tcp_llm_broadcast_server.py:107-114 | any NUL-free frames and NUL-free tail that join to a buffer are exactly `Split` of it, so the splitting loop has a single correct answer |
| `Framing.SplitAfterFrames` | server/tcp_llm_broadcast_server.py:105-114 | complete frames at the front of the buffer come out first, in order and unchanged |
| `Framing.SplitAppend` | server/tcp_llm_broadcast_server.py:98-114 | splitting one read, keeping its tail as carry and splitting carry plus the next read gives the frames of splitting the concatenation |
| `Framing.TwoFramesThenPartial` | server/tcp_llm_broadcast_server.py:98-114 | two frames and a partial third in one read give exactly two frames with the partial bytes kept; the terminator arriving later completes the third |
| `Framing.CutFrame` | server/tcp_llm_broadcast_server.py:113-114 | cutting `buffer[:idx]` and keeping `buffer[idx+1:]` loses no byte and yields a NUL-free frame |
| `Framing.ReadChunk` | server/tcp_llm_broadcast_server.py:102-105 | appending a non-empty read to the buffer keeps every received byte accounted for |
| `Framing.AppendDrained` | server/tcp_llm_broadcast_server.py:105-114 | the frames cut from the buffer after a read extend the frames cut before it |
| `Framing.ReadStopped` | server/tcp_llm_broadcast_server.py:100-114 | when reading stops, the frames cut so far are a prefix of the frames of all bytes received, and are all of them with the buffer as tail at end of stream |
| `Framing.Outbound` | server/tcp_llm_broadcast_server.py:78 | an outgoing frame is the message followed by one line feed |
| `Text.StripLeading` | server/tcp_llm_broadcast_server.py:144 | the leading half of `.strip()`: a suffix of the reply, with only whitespace removed before it, that does not start with whitespace |
| `Text.StripTrailing` | server/tcp_llm_broadcast_server.py:144 | the trailing half of `.strip()`: a prefix, with only whitespace removed after it, that does not end with whitespace |
| `Text.Strip` | server/tcp_llm_broadcast_server.py:144 | `.strip()` on the reply: both halves in turn; its guarantees are `StripTrims` and `StripIdempotent` |
| `Text.StripTrims` | server/tcp_llm_broadcast_server.py:144 | the result is a slice of the reply with only whitespace (Python's `str.isspace` set) removed before and after it, and it neither starts nor ends with whitespace |
| `Text.StripIdempotent` | server/tcp_llm_broadcast_server.py:144 | stripping a stripped reply changes nothing |
| `Text.NatToString` | server/tcp_llm_broadcast_server.py:121 | the length in the warning is a non-empty run of decimal digits without a leading zero |
| `Text.NatToStringRoundTrip` | server/tcp_llm_broadcast_server.py:121 | reading those digits back gives the length |
| `Store.InitDb` | server/tcp_llm_broadcast_server.py:48-61 | a non-empty store gives history equal to the stored rows in id order; an empty store gives history and log each equal to the one default system message; the history is a suffix of the log |
| `Store.AppendKeepsCoherent` | server/tcp_llm_broadcast_server.py:136-149 | appending the same message to the history and the table in lockstep keeps the history a suffix of the log |
| `Store.LastRecordIsCoherent` | server/tcp_llm_broadcast_server.py:129-131 | after `/system` the history is exactly the last log record |
| `Router.TooLongWarning` | server/tcp_llm_broadcast_server.py:121 | the warning text, with the frame's length and the limit 2000 in decimal |
| `Router.SystemNotice` | server/tcp_llm_broadcast_server.py:132 | the notice broadcast after `/system`, ending in the new prompt |
| `Router.UserNotice` | server/tcp_llm_broadcast_server.py:152 | the broadcast of a user's turn: `[ip]`, a line feed, the text, a line feed |
| `Router.ReplyNotice` | server/tcp_llm_broadcast_server.py:153 | the broadcast of the reply: `[ChatGPT]`, a line feed, the reply, a line feed |
| `Router.AfterBroadcast` | server/tcp_llm_broadcast_server.py:74-83 | the state after one broadcast: failing writers discarded, one write recorded with the set of writers it reached |
| `Router.Answered` | server/tcp_llm_broadcast_server.py:136-149 | the state after a chat turn's records: user message then stripped reply appended to history and log |
| `Router.Step` | server/tcp_llm_broadcast_server.py:119-153 | dispatch of one decoded frame: length guard, then `/system `, then chat turn; the new state and whether the handling raised |
| `Router.RunFrames` | server/tcp_llm_broadcast_server.py:108-154 | a connection's frames dispatched in order, stopping at the first that raises |
| `Router.Classify` | server/tcp_llm_broadcast_server.py:120-133 | the length guard wins over the command; `/system ` (with its space) is a case-sensitive prefix, and the prompt is the text after it |
| `Router.SystemWithoutSpaceIsChat` | server/tcp_llm_broadcast_server.py:127 | `/system` not followed by a space is a chat turn |
| `Router.OversizedFrameWarnsSenderOnly` | server/tcp_llm_broadcast_server.py:120-124 | a frame over 2000 characters leaves history, log and clients unchanged and adds only the warning to its sender; a failing write aborts instead |
| `Router.OversizedFrameNeverReachesProvider` | server/tcp_llm_broadcast_server.py:120-124 | an over-length frame is never sent to the provider: the outcome is the same whatever the provider is; it never enters the history |
| `Router.SystemFrameReplacesHistory` | server/tcp_llm_broadcast_server.py:127-133 | `/system p` sets the history to `[system p]`, appends exactly that record to the log and makes one broadcast |
| `Router.ChatTurnRecordsExchange` | server/tcp_llm_broadcast_server.py:136-149 | when the provider answers, history and log both grow by the user message and then the stripped reply, and the loop goes on |
| `Router.ChatTurnBroadcastsInOrder` | server/tcp_llm_broadcast_server.py:151-153 | when the provider answers, the user's text is broadcast and then the stripped reply, each to the writers whose write succeeds, and those that fail are dropped |
| `Router.TwoBroadcasts` | server/tcp_llm_broadcast_server.py:152-153 | two broadcasts in a row record both frames in order and drop the failing writers once; the conversation is untouched |
| `Router.ChatTurnFails` | server/tcp_llm_broadcast_server.py:136-144 | when the provider raises, the user message stays in history and log, no assistant message is added, nothing is written and the loop is left |
| `Router.BroadcastPartitionsClients` | server/tcp_llm_broadcast_server.py:74-83 | a broadcast drops exactly the clients whose write fails, keeps every other client, adds no client, reaches the kept ones and leaves the conversation alone |
| `Router.StepKeepsCoherent` | server/tcp_llm_broadcast_server.py:119-153 | every kind of frame keeps the history a non-empty suffix of the log |
| `Router.StepGrows` | server/tcp_llm_broadcast_server.py:119-153 | every frame only appends to the log and to the writes, and never adds a client |
| `Router.RunFramesAppend` | server/tcp_llm_broadcast_server.py:108-154 | handling `a` then `b` is handling `a + b`, unless a frame of `a` raised |
| `Router.AbortedRunIgnoresRest` | server/tcp_llm_broadcast_server.py:154-160 | after a frame raises, no later frame of the connection is handled |
| `Router.RunKeepsCoherent` | server/tcp_llm_broadcast_server.py:100-153 | from startup onward, over any run of frames, the history stays a suffix of the log |
| `Router.RunGrows` | server/tcp_llm_broadcast_server.py:100-153 | over any run of frames the log is append-only and the client set never gains members |
| `Server.ALLOWED_IPS` | server/tcp_llm_broadcast_server.py:20-25 | the three addresses allowed to connect |
| `Server.Relay.constructor` | server/tcp_llm_broadcast_server.py:48-61 | server start loads the stored rows or seeds the default system message; no clients, nothing written |
| `Server.Relay.SaveMessage` | server/tcp_llm_broadcast_server.py:65-71 | appends exactly one record to the table and changes nothing else |
| `Server.Relay.Broadcast` | server/tcp_llm_broadcast_server.py:74-83 | the loop that collects failing writers and then discards them yields exactly `AfterBroadcast` |
| `Server.Relay.HandleFrame` | server/tcp_llm_broadcast_server.py:119-153 | the in-place updates of history, table, clients and writes for one frame are exactly `Step`, and the suffix invariant is kept |
| `Server.Relay.DrainBuffer` | server/tcp_llm_broadcast_server.py:108-153 | the inner loop loses no byte, cuts only NUL-free frames, equals `Split` of the buffer and leaves no NUL in it when no frame raised, and its effect is `RunFrames` of the frames it cut |
| `Server.Relay.HandleClient` | server/tcp_llm_broadcast_server.py:86-160 | a disallowed address changes nothing and handles no frame; an allowed connection handles the frames of all bytes received, in order, up to the first that raises, is then removed from the clients, and at end of stream keeps the unterminated tail as carry; the log only grows and clients never gain members |

## Left out

- The `/recall`, `/reset` and backup commands are not part of this model.
  The server source has no code for them; only the `/system` command and
  chat turns are dispatched.
- The asyncio plumbing is not modelled: `start_server`, `serve_forever`,
  `reader.read`, `writer.write/drain/close/wait_closed` and the `peername`
  lookup. Reads are a given sequence of chunks, and the 1024-byte read size
  is not modelled. A write either succeeds or raises, according to
  `failing`. A connection's address is an input.
- Interleaving between connections is not modelled. Each connection is
  handled as a whole by `HandleClient`, one frame at a time. The source
  gets its serialization from cooperative scheduling, and other
  connections run at the `await` points inside the read loop: `reader.read`, the `drain` after
  the over-length warning and the `drain`s inside `broadcast`. While a
  broadcast is suspended in `drain`, another connection can add or discard
  a writer, and the `for writer in clients` loop then raises
  `RuntimeError` (the set changed size during iteration). That error
  leaves `broadcast` and ends the sending connection after its history
  and log updates are already made: the sender is removed and its later
  frames are not handled. The model does not capture this.
- `Router.RunFrames`, `Router.Step`, `Server.Relay.DrainBuffer` and
  `Server.Relay.HandleClient` take one set `failing` of writers whose write
  raises for the whole connection, and both broadcasts of a chat turn use
  it. In the source, which writers fail changes over time as peers
  disconnect, so the model cannot show a writer that receives the user
  broadcast and then fails on the reply broadcast, or a sender that
  receives earlier broadcasts and later fails on its over-length warning.
  `HandleClient`'s exact final state is stated only for an environment
  whose failing writers do not change during the connection. The
  invariants (suffix relation, append-only log, no client added) do not
  depend on this.
- Exceptions other than the provider's and the failed warning write are
  not modelled: a failing `save_message` insert, a failing `print`, and a
  failing `reader.read`. In the source each of them also ends the
  connection through the same `finally`. A failing insert does more: each
  insert comes after the in-memory change it records (the history is
  replaced before the `/system` insert, and the user message and the reply
  are appended before theirs), so the exception leaves the history ahead of
  the table. After a failed `/system` insert the history is `[system p]`
  while the table's last row is something else; after a failed user or
  reply insert the history holds a message the table lacks. The invariant
  that the history is a suffix of the log (`Router.StepKeepsCoherent`,
  `Router.RunKeepsCoherent`, `Server.Relay.Valid`) is proved only for runs
  in which every insert succeeds.
- The completion provider is a parameter: a fixed function from the history
  to a reply or a failure. Repeated calls with equal histories therefore
  give equal answers in the model. The model name and request shape are
  not modelled.
- The SQLite internals are not modelled: the SQL text, `AUTOINCREMENT`
  ids, the `CURRENT_TIMESTAMP` column and commit. The table is the sequence
  of its `(role, content)` rows in id order. A failing insert is not
  modelled. Stored roles are assumed to be `system`, `user` or
  `assistant`, the only roles this server writes.
- `raw.decode(errors='ignore')` is the parameter `decode`. Outgoing text is
  kept as characters: its UTF-8 encoding is not modelled, and only the
  appended line feed is.
- `Server.Relay.Broadcast`: the order in which one broadcast reaches the
  individual writers of the set is not recorded, only the set it reached.
- `Server.Relay.HandleFrame`: a write to a broken connection is assumed to
  raise. In the source it is `drain` that raises, and only once asyncio
  has seen the connection lost.
- `print` logging, the `KeyboardInterrupt` shutdown, reading the API key
  from the environment, and the listening host and port.
- `NXChat/EmacsText.h`, `NXChat/Controller.h` and `NXChat/MDText.h` are not
  part of this model. They are Objective-C interface declarations for the
  client UI and contain no logic.

## Where the code and its intended design differ (the model follows the code)

- Intended: when the provider call fails, the sender is told of the
  failure and its connection stays open. Code: the exception leaves the
  read loop; nothing is sent, and the connection is closed and removed.
  The user message stays in the history and in the table.
- Intended: every change to the history and the log happens under an
  explicit lock. Code: there is no lock. The model handles frames one at a
  time, which matches the code's behaviour because the code does not
  suspend in the middle of changing the history and the log.
- Intended: a write to the durable store that fails leaves the turn not
  completed. Code: the history is changed first and the insert follows, so
  a failing insert leaves the history changed and the table not (see "Left
  out").
- Intended: the conversation survives a restart. Code: startup loads every
  row of the table, and `/system` only appends its record. After
  `/system p` and a restart the history is the whole table, including the
  conversation `/system` discarded, not `[system p]`. The model computes
  this too: `Store.InitDb` on a non-empty table gives a history equal to
  the whole table.
- Intended: the first message of every conversation has the system role.
  Code: startup loads whatever rows the table holds. Only seeding and
  `/system` put a system message first, so the model does not claim the
  role of the first message.
