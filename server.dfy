/**
 * The relay server's shared state and its connection handler. The module
 * globals of the server (the conversation history and the client set) and
 * its durable message table are the fields of one `Relay` object. Frame
 * handling is proved against `Router.Step` and `Router.RunFrames`, the
 * broadcast against `Router.AfterBroadcast`; the constructor and
 * `SaveMessage` state their effect on the fields directly.
 */
module Server {
  import opened Framing
  import opened Store
  import opened Text
  import opened Router

  /** Source addresses allowed to connect. */
  const ALLOWED_IPS: set<string> := {"127.0.0.1", "192.168.1.2", "192.168.1.7"}

  class Relay {
    /** Context sent to the completion provider. */
    var history: seq<Msg>
    /** The durable message table, in id order. */
    var log: seq<Msg>
    /** Writers of the connected clients. */
    var clients: set<ClientId>
    /** Every write the server has made, in order. */
    var events: seq<Event>

    function Snapshot(): World
      reads this
    {
      World(history, log, clients, events)
    }

    ghost predicate Valid()
      reads this
    {
      Coherent(history, log)
    }

    /** Server start: load the stored conversation, or seed an empty store. */
    constructor (stored: seq<Msg>)
      ensures Valid()
      ensures stored != [] ==> history == stored && log == stored
      ensures stored == [] ==> history == [DEFAULT_SYSTEM_MESSAGE] && log == [DEFAULT_SYSTEM_MESSAGE]
      ensures clients == {} && events == []
    {
      var h, l := InitDb(stored);
      history, log := h, l;
      clients, events := {}, [];
    }

    /** Appends one record to the durable table. */
    method SaveMessage(role: Role, content: string)
      modifies this
      ensures log == old(log) + [Msg(role, content)]
      ensures history == old(history) && clients == old(clients) && events == old(events)
    {
      log := log + [Msg(role, content)];
    }

    /**
     * Writes `message` to every client; those in `failing` raise on write,
     * are collected while iterating, and are then discarded from the set.
     */
    method Broadcast(message: string, failing: set<ClientId>)
      modifies this
      ensures Snapshot() == AfterBroadcast(old(Snapshot()), message, failing)
    {
      var connected := clients;
      var disconnected: seq<ClientId> := [];
      var delivered: set<ClientId> := {};
      var pending := connected;
      while pending != {}
        invariant pending <= connected
        invariant delivered == (connected - pending) - failing
        invariant forall c :: c in disconnected <==> c in (connected - pending) * failing
        decreases pending
      {
        var writer :| writer in pending;
        if writer in failing {
          disconnected := disconnected + [writer];
        } else {
          delivered := delivered + {writer};
        }
        pending := pending - {writer};
      }
      assert connected - pending == connected;
      for i := 0 to |disconnected|
        invariant forall c :: c in clients <==> c in connected && c !in disconnected[..i]
        invariant history == old(history) && log == old(log) && events == old(events)
      {
        assert disconnected[..i + 1] == disconnected[..i] + [disconnected[i]];
        clients := clients - {disconnected[i]};
      }
      assert disconnected[..|disconnected|] == disconnected;
      assert clients == connected - failing;
      events := events + [Fanout(Outbound(message), delivered)];
    }

    /** Handles one decoded frame from client `id` at address `ip`. */
    method HandleFrame(id: ClientId, ip: string, text: string, provider: Provider,
                       failing: set<ClientId>) returns (outcome: Outcome)
      requires Valid()
      modifies this
      ensures Valid()
      ensures (Snapshot(), outcome) == Step(old(Snapshot()), id, ip, text, provider, failing)
    {
      ghost var w := Snapshot();
      StepKeepsCoherent(w, id, ip, text, provider, failing);
      if |text| > MAX_PROMPT_LENGTH {
        // the warning goes to the sender alone; a failed write raises
        if id in failing {
          return Abort;
        }
        events := events + [Unicast(id, Outbound(TooLongWarning(|text|)))];
        return Continue;
      }
      if SYSTEM_PREFIX <= text {
        var prompt := text[|SYSTEM_PREFIX|..];
        history := [Msg(System, prompt)];
        SaveMessage(System, prompt);
        Broadcast(SystemNotice(prompt), failing);
        return Continue;
      }
      history := history + [Msg(User, text)];
      SaveMessage(User, text);
      var response := provider(history);
      if response.None? {
        // the provider call raised: no assistant message, the loop is left
        return Abort;
      }
      var reply := Strip(response.value);
      history := history + [Msg(Assistant, reply)];
      SaveMessage(Assistant, reply);
      Broadcast(UserNotice(ip, text), failing);
      Broadcast(ReplyNotice(reply), failing);
      outcome := Continue;
    }

    /**
     * The inner read loop: repeatedly cuts the first NUL-terminated frame off
     * `buffer` and dispatches it, until no terminator is left or a frame's
     * handling raises. `frames` are the frames cut off, `rest` the buffer
     * afterwards.
     */
    method DrainBuffer(id: ClientId, ip: string, buffer: seq<Byte>, decode: Decoder,
                       provider: Provider, failing: set<ClientId>)
      returns (frames: seq<seq<Byte>>, rest: seq<Byte>, outcome: Outcome)
      requires Valid()
      modifies this
      ensures Valid()
      ensures Terminated(frames) + rest == buffer && AllNulFree(frames)
      ensures outcome == Continue ==> frames == Split(buffer).0 && rest == Split(buffer).1 && NUL !in rest
      ensures (Snapshot(), outcome) == RunFrames(old(Snapshot()), id, ip, frames, decode, provider, failing)
    {
      ghost var start := Snapshot();
      frames, rest, outcome := [], buffer, Continue;
      while true
        invariant Valid()
        invariant Terminated(frames) + rest == buffer && AllNulFree(frames)
        invariant (Snapshot(), outcome) == RunFrames(start, id, ip, frames, decode, provider, failing)
        invariant outcome == Continue
        decreases |rest|
      {
        var idx := Find(rest, NUL);
        if idx == -1 {
          FindFirst(rest, NUL);
          break;
        }
        CutFrame(buffer, frames, rest);
        var raw := rest[..idx];
        rest := rest[idx + 1..];
        RunFramesSnoc(start, id, ip, frames, raw, decode, provider, failing);
        frames := frames + [raw];
        outcome := HandleFrame(id, ip, decode(raw), provider, failing);
        if outcome == Abort {
          return;
        }
      }
      SplitUnique(frames, rest);
    }

    /**
     * One connection's lifetime: the allow-list check, the outer read loop
     * that appends each chunk to the carry buffer and drains it, and the
     * teardown that removes the writer. `chunks` are the successive reads
     * (an empty one is end of stream); `dispatched` are the frames cut off,
     * `carry` the buffer at the end.
     */
    method HandleClient(id: ClientId, ip: string, chunks: seq<seq<Byte>>, decode: Decoder,
                        provider: Provider, failing: set<ClientId>)
      returns (dispatched: seq<seq<Byte>>, carry: seq<Byte>)
      requires Valid() && id !in clients
      modifies this
      ensures Valid()
      ensures old(log) <= log && old(events) <= events && clients <= old(clients) && id !in clients
      ensures ip !in ALLOWED_IPS ==> dispatched == [] && carry == [] && Snapshot() == old(Snapshot())
      ensures ip in ALLOWED_IPS ==>
        var frames := Split(Received(chunks)).0;
        var run := RunFrames(old(Snapshot()).(clients := old(clients) + {id}), id, ip, frames,
                             decode, provider, failing);
        && Snapshot() == run.0.(clients := run.0.clients - {id})
        && dispatched <= frames
        && (run.1 == Continue ==> dispatched == frames && carry == Split(Received(chunks)).1)
    {
      dispatched, carry := [], [];
      if ip !in ALLOWED_IPS {
        return;
      }
      clients := clients + {id};
      ghost var start := Snapshot();
      ghost var total := Received(chunks);
      var buffer: seq<Byte> := [];
      var outcome := Continue;
      var i := 0;
      while i < |chunks| && outcome == Continue
        invariant 0 <= i <= |chunks|
        invariant Valid()
        invariant Terminated(dispatched) + buffer + Received(chunks[i..]) == total
        invariant AllNulFree(dispatched)
        invariant outcome == Continue ==> NUL !in buffer
        invariant (Snapshot(), outcome) == RunFrames(start, id, ip, dispatched, decode, provider, failing)
        decreases |chunks| - i
      {
        var chunk := chunks[i];
        if chunk == [] {
          break;
        }
        ReadChunk(dispatched, buffer, chunks, i, total);
        buffer := buffer + chunk;
        i := i + 1;
        var frames, rest;
        frames, rest, outcome := DrainBuffer(id, ip, buffer, decode, provider, failing);
        AppendDrained(dispatched, frames, buffer, rest, Received(chunks[i..]), total);
        RunFramesAppend(start, id, ip, dispatched, frames, decode, provider, failing);
        dispatched, buffer := dispatched + frames, rest;
      }
      ReadStopped(dispatched, buffer, Received(chunks[i..]), total);
      RunGrows(start, id, ip, dispatched, decode, provider, failing);
      if outcome == Abort {
        AbortedRunIgnoresRest(start, id, ip, dispatched, Split(total).0, decode, provider, failing);
      }
      carry := buffer;
      clients := clients - {id};
    }
  }
}
