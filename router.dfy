/**
 * The relay's per-frame dispatch as a state transition over a snapshot of
 * the shared state: the in-memory history, the durable log, the set of
 * connected clients, and the sequence of writes the server has made.
 * The completion provider, byte decoding and failing writers are inputs.
 */
module Router {
  import opened Framing
  import opened Store
  import opened Text

  datatype Option<T> = None | Some(value: T)

  /** A connection's writer. */
  type ClientId = nat

  /** What the server has written: to one client, or to every client a broadcast reached. */
  datatype Event =
    | Unicast(to: ClientId, frame: string)
    | Fanout(frame: string, delivered: set<ClientId>)

  datatype World = World(history: seq<Msg>, log: seq<Msg>, clients: set<ClientId>, events: seq<Event>)

  /** `Abort`: an exception left the connection's read loop. */
  datatype Outcome = Continue | Abort

  /** The completion provider: the reply text for a history, or `None` when the call raises. */
  type Provider = seq<Msg> -> Option<string>

  /** Decoding of a frame's bytes into text (UTF-8, invalid sequences dropped). */
  type Decoder = seq<Byte> -> string

  const MAX_PROMPT_LENGTH: nat := 2000

  const SYSTEM_PREFIX: string := "/system "

  datatype Command = TooLong(length: nat) | SetSystem(prompt: string) | Chat(text: string)

  /** Classifies a decoded frame; the length guard is checked before the command prefix. */
  function Classify(text: string): (c: Command)
    ensures c.TooLong? <==> |text| > MAX_PROMPT_LENGTH
    ensures c.TooLong? ==> c.length == |text|
    ensures c.SetSystem? <==> |text| <= MAX_PROMPT_LENGTH && SYSTEM_PREFIX <= text
    ensures c.SetSystem? ==> text == SYSTEM_PREFIX + c.prompt
    ensures c.Chat? ==> c.text == text
  {
    if |text| > MAX_PROMPT_LENGTH then TooLong(|text|)
    else if SYSTEM_PREFIX <= text then SetSystem(text[|SYSTEM_PREFIX|..])
    else Chat(text)
  }

  function TooLongWarning(length: nat): string {
    "[SERVER] Prompt too long (" + NatToString(length) + " chars). Limit is "
      + NatToString(MAX_PROMPT_LENGTH) + "."
  }

  function SystemNotice(prompt: string): string {
    "[SERVER] System prompt updated to: " + prompt
  }

  function UserNotice(ip: string, text: string): string {
    "[" + ip + "]\n" + text + "\n"
  }

  function ReplyNotice(reply: string): string {
    "[ChatGPT]\n" + reply + "\n"
  }

  /** Effect of one broadcast: every client whose write fails is dropped, the rest receive the frame. */
  function AfterBroadcast(w: World, message: string, failing: set<ClientId>): World {
    w.(clients := w.clients - failing,
       events := w.events + [Fanout(Outbound(message), w.clients - failing)])
  }

  /**
   * A broadcast splits the clients: those whose write fails are dropped,
   * every other client stays and is among those the frame reached; the
   * conversation is untouched.
   */
  lemma {:induction false} BroadcastPartitionsClients(w: World, message: string, failing: set<ClientId>)
    ensures var w' := AfterBroadcast(w, message, failing);
      && w'.history == w.history && w'.log == w.log
      && w'.events[..|w.events|] == w.events && |w'.events| == |w.events| + 1
      && (forall c | c in w.clients :: c in w'.clients <==> c !in failing)
      && w'.clients <= w.clients
      && w'.events[|w.events|] == Fanout(Outbound(message), w'.clients)
  {
  }

  /** The world after a chat turn answered by `reply`, before its two broadcasts: the user message and the stripped reply appended to history and log. */
  function Answered(w: World, text: string, reply: string): World {
    var u, a := Msg(User, text), Msg(Assistant, Strip(reply));
    w.(history := w.history + [u] + [a], log := w.log + [u] + [a])
  }

  /** Handling of one decoded frame from client `id` at address `ip`. */
  function Step(w: World, id: ClientId, ip: string, text: string, provider: Provider,
                failing: set<ClientId>): (World, Outcome)
  {
    match Classify(text)
    case TooLong(n) =>
      if id in failing then (w, Abort)
      else (w.(events := w.events + [Unicast(id, Outbound(TooLongWarning(n)))]), Continue)
    case SetSystem(prompt) =>
      var m := Msg(System, prompt);
      (AfterBroadcast(w.(history := [m], log := w.log + [m]), SystemNotice(prompt), failing), Continue)
    case Chat(t) =>
      var u := Msg(User, t);
      var asked := w.(history := w.history + [u], log := w.log + [u]);
      match provider(asked.history)
      case None => (asked, Abort)
      case Some(reply) =>
        var told := AfterBroadcast(Answered(w, t, reply), UserNotice(ip, t), failing);
        (AfterBroadcast(told, ReplyNotice(Strip(reply)), failing), Continue)
  }

  /** Handling of a connection's frames in order, stopping at the first one that aborts. */
  function RunFrames(w: World, id: ClientId, ip: string, frames: seq<seq<Byte>>, decode: Decoder,
                     provider: Provider, failing: set<ClientId>): (World, Outcome)
    decreases |frames|
  {
    if frames == [] then (w, Continue)
    else
      var (w1, out) := Step(w, id, ip, decode(frames[0]), provider, failing);
      if out == Abort then (w1, Abort)
      else RunFrames(w1, id, ip, frames[1..], decode, provider, failing)
  }

  /** The server's history/log invariant, on a snapshot. */
  ghost predicate WorldCoherent(w: World) {
    Coherent(w.history, w.log)
  }

  /** `w'` is `w` grown: the log and the writes only appended to, no client added. */
  ghost predicate Grows(w: World, w': World) {
    && w.log <= w'.log
    && w.events <= w'.events
    && w'.clients <= w.clients
  }

  // ---------------------------------------------------------------------------
  // Properties of one step
  // ---------------------------------------------------------------------------

  /** The history stays a (non-empty) suffix of the log across every kind of frame. */
  lemma {:induction false} StepKeepsCoherent(w: World, id: ClientId, ip: string, text: string, provider: Provider,
                          failing: set<ClientId>)
    requires WorldCoherent(w)
    ensures WorldCoherent(Step(w, id, ip, text, provider, failing).0)
  {
    match Classify(text)
    case TooLong(_) =>
    case SetSystem(prompt) =>
      LastRecordIsCoherent(w.log, Msg(System, prompt));
    case Chat(t) =>
      var u := Msg(User, t);
      AppendKeepsCoherent(w.history, w.log, u);
      match provider(w.history + [u])
      case None =>
      case Some(reply) =>
        AppendKeepsCoherent(w.history + [u], w.log + [u], Msg(Assistant, Strip(reply)));
  }

  /** The log is append-only, writes are only added, and a frame never adds a client. */
  lemma {:induction false} StepGrows(w: World, id: ClientId, ip: string, text: string, provider: Provider,
                  failing: set<ClientId>)
    ensures Grows(w, Step(w, id, ip, text, provider, failing).0)
  {
  }

  /**
   * A frame over the length limit only warns its sender: history, log and
   * clients are unchanged and at most one write, to the sender, is added.
   */
  lemma {:induction false} OversizedFrameWarnsSenderOnly(w: World, id: ClientId, ip: string, text: string,
                                      provider: Provider, failing: set<ClientId>)
    requires |text| > MAX_PROMPT_LENGTH
    ensures var (w', out) := Step(w, id, ip, text, provider, failing);
      && w'.history == w.history && w'.log == w.log && w'.clients == w.clients
      && (out == Continue <==> id !in failing)
      && w'.events == w.events + (if out == Continue
                                  then [Unicast(id, Outbound(TooLongWarning(|text|)))] else [])
  {
  }

  /**
   * `/system <prompt>` replaces the history by the one system message,
   * appends exactly that record to the log and makes one broadcast.
   */
  lemma {:induction false} SystemFrameReplacesHistory(w: World, id: ClientId, ip: string, prompt: string,
                                   provider: Provider, failing: set<ClientId>)
    requires |SYSTEM_PREFIX + prompt| <= MAX_PROMPT_LENGTH
    ensures var (w', out) := Step(w, id, ip, SYSTEM_PREFIX + prompt, provider, failing);
      && out == Continue
      && w'.history == [Msg(System, prompt)]
      && w'.log == w.log + [Msg(System, prompt)]
      && w'.clients == w.clients - failing
      && w'.events == w.events + [Fanout(Outbound(SystemNotice(prompt)), w.clients - failing)]
  {
    assert SYSTEM_PREFIX <= SYSTEM_PREFIX + prompt;
    assert (SYSTEM_PREFIX + prompt)[|SYSTEM_PREFIX|..] == prompt;
  }

  /** The command prefix includes its space: `/system` followed by anything else is a chat turn. */
  lemma {:induction false} SystemWithoutSpaceIsChat(rest: string)
    requires rest == [] || rest[0] != ' '
    requires |"/system" + rest| <= MAX_PROMPT_LENGTH
    ensures Classify("/system" + rest) == Chat("/system" + rest)
  {
    var text := "/system" + rest;
    assert |text| < |SYSTEM_PREFIX| || text[7] != SYSTEM_PREFIX[7];
  }

  lemma {:induction false} ChatStep(w: World, id: ClientId, ip: string, text: string,
                                    provider: Provider, failing: set<ClientId>, reply: string)
    requires Classify(text).Chat?
    requires provider(w.history + [Msg(User, text)]) == Some(reply)
    ensures Step(w, id, ip, text, provider, failing)
      == (AfterBroadcast(AfterBroadcast(Answered(w, text, reply), UserNotice(ip, text), failing),
                         ReplyNotice(Strip(reply)), failing), Continue)
  {
    assert Classify(text) == Chat(text);
  }

  /** Two broadcasts in a row: both frames go out in order, to the clients whose write succeeds. */
  lemma {:induction false} TwoBroadcasts(w: World, first: string, second: string, failing: set<ClientId>)
    ensures var w2 := AfterBroadcast(AfterBroadcast(w, first, failing), second, failing);
      && w2.history == w.history && w2.log == w.log
      && w2.clients == w.clients - failing
      && w2.events == w.events + [Fanout(Outbound(first), w.clients - failing)]
                               + [Fanout(Outbound(second), w.clients - failing)]
  {
    assert (w.clients - failing) - failing == w.clients - failing;
  }

  /**
   * A chat turn whose provider call returns `reply` appends the user message
   * and then the stripped reply to both history and log.
   */
  lemma {:induction false} ChatTurnRecordsExchange(w: World, id: ClientId, ip: string, text: string,
                                                   provider: Provider, failing: set<ClientId>, reply: string)
    requires Classify(text).Chat?
    requires provider(w.history + [Msg(User, text)]) == Some(reply)
    ensures var r := Step(w, id, ip, text, provider, failing);
      && r.1 == Continue
      && r.0.history == w.history + [Msg(User, text)] + [Msg(Assistant, Strip(reply))]
      && r.0.log == w.log + [Msg(User, text)] + [Msg(Assistant, Strip(reply))]
  {
    ChatStep(w, id, ip, text, provider, failing, reply);
    TwoBroadcasts(Answered(w, text, reply), UserNotice(ip, text), ReplyNotice(Strip(reply)), failing);
  }

  /**
   * A chat turn whose provider call returns `reply` broadcasts the user's
   * text and then the stripped reply, each to the clients whose write succeeds.
   */
  lemma {:induction false} ChatTurnBroadcastsInOrder(w: World, id: ClientId, ip: string, text: string,
                                                     provider: Provider, failing: set<ClientId>, reply: string)
    requires Classify(text).Chat?
    requires provider(w.history + [Msg(User, text)]) == Some(reply)
    ensures var r := Step(w, id, ip, text, provider, failing);
      && r.0.clients == w.clients - failing
      && r.0.events == w.events + [Fanout(Outbound(UserNotice(ip, text)), w.clients - failing)]
                                + [Fanout(Outbound(ReplyNotice(Strip(reply))), w.clients - failing)]
  {
    ChatStep(w, id, ip, text, provider, failing, reply);
    TwoBroadcasts(Answered(w, text, reply), UserNotice(ip, text), ReplyNotice(Strip(reply)), failing);
  }

  /**
   * A chat turn whose provider call fails keeps the user message in history
   * and log, adds no assistant message, writes nothing and leaves the loop.
   */
  lemma {:induction false} ChatTurnFails(w: World, id: ClientId, ip: string, text: string, provider: Provider,
                      failing: set<ClientId>)
    requires Classify(text).Chat?
    requires provider(w.history + [Msg(User, text)]).None?
    ensures var (w', out) := Step(w, id, ip, text, provider, failing);
      && out == Abort
      && w'.history == w.history + [Msg(User, text)]
      && w'.log == w.log + [Msg(User, text)]
      && w'.clients == w.clients && w'.events == w.events
  {
  }

  /** A frame over the limit is never shown to the provider and never enters the history. */
  lemma {:induction false} OversizedFrameNeverReachesProvider(w: World, id: ClientId, ip: string, text: string,
                                           provider: Provider, failing: set<ClientId>)
    requires |text| > MAX_PROMPT_LENGTH
    ensures forall p: Provider :: Step(w, id, ip, text, p, failing) == Step(w, id, ip, text, provider, failing)
    ensures Msg(User, text) !in Step(w, id, ip, text, provider, failing).0.history
            || Msg(User, text) in w.history
  {
  }

  // ---------------------------------------------------------------------------
  // Properties of a run of frames
  // ---------------------------------------------------------------------------

  /** Running `a` then `b` is running `a + b`, unless `a` already aborted. */
  lemma {:induction false} RunFramesAppend(w: World, id: ClientId, ip: string, a: seq<seq<Byte>>,
                                           b: seq<seq<Byte>>, decode: Decoder, provider: Provider,
                                           failing: set<ClientId>)
    decreases |a|
    ensures var (wa, outa) := RunFrames(w, id, ip, a, decode, provider, failing);
      RunFrames(w, id, ip, a + b, decode, provider, failing)
        == if outa == Abort then (wa, Abort) else RunFrames(wa, id, ip, b, decode, provider, failing)
  {
    if a == [] {
      assert a + b == b;
    } else {
      assert (a + b)[0] == a[0] && (a + b)[1..] == a[1..] + b;
      var (w1, out) := Step(w, id, ip, decode(a[0]), provider, failing);
      if out == Continue {
        RunFramesAppend(w1, id, ip, a[1..], b, decode, provider, failing);
      }
    }
  }

  /** One more frame: it is handled by one step unless the run had already aborted. */
  lemma {:induction false} RunFramesSnoc(w: World, id: ClientId, ip: string, frames: seq<seq<Byte>>, f: seq<Byte>,
                      decode: Decoder, provider: Provider, failing: set<ClientId>)
    requires RunFrames(w, id, ip, frames, decode, provider, failing).1 == Continue
    ensures RunFrames(w, id, ip, frames + [f], decode, provider, failing)
            == Step(RunFrames(w, id, ip, frames, decode, provider, failing).0, id, ip, decode(f),
                    provider, failing)
  {
    RunFramesAppend(w, id, ip, frames, [f], decode, provider, failing);
    assert [f][1..] == [];
  }

  /** After a frame aborts, the frames behind it are never handled. */
  lemma {:induction false} AbortedRunIgnoresRest(w: World, id: ClientId, ip: string, frames: seq<seq<Byte>>,
                              all: seq<seq<Byte>>, decode: Decoder, provider: Provider,
                              failing: set<ClientId>)
    requires frames <= all
    requires RunFrames(w, id, ip, frames, decode, provider, failing).1 == Abort
    ensures RunFrames(w, id, ip, all, decode, provider, failing)
            == RunFrames(w, id, ip, frames, decode, provider, failing)
  {
    assert all == frames + all[|frames|..];
    RunFramesAppend(w, id, ip, frames, all[|frames|..], decode, provider, failing);
  }

  /** From startup onward, the history is a suffix of the log after any run of frames. */
  lemma {:induction false} RunKeepsCoherent(w: World, id: ClientId, ip: string, frames: seq<seq<Byte>>,
                                            decode: Decoder, provider: Provider, failing: set<ClientId>)
    requires WorldCoherent(w)
    ensures WorldCoherent(RunFrames(w, id, ip, frames, decode, provider, failing).0)
    decreases |frames|
  {
    if frames != [] {
      StepKeepsCoherent(w, id, ip, decode(frames[0]), provider, failing);
      var (w1, out) := Step(w, id, ip, decode(frames[0]), provider, failing);
      if out == Continue {
        RunKeepsCoherent(w1, id, ip, frames[1..], decode, provider, failing);
      }
    }
  }

  /** Over any run of frames the log is append-only and the client set never gains members. */
  lemma {:induction false} RunGrows(w: World, id: ClientId, ip: string, frames: seq<seq<Byte>>,
                                    decode: Decoder, provider: Provider, failing: set<ClientId>)
    ensures Grows(w, RunFrames(w, id, ip, frames, decode, provider, failing).0)
    decreases |frames|
  {
    if frames != [] {
      StepGrows(w, id, ip, decode(frames[0]), provider, failing);
      var (w1, out) := Step(w, id, ip, decode(frames[0]), provider, failing);
      if out == Continue {
        RunGrows(w1, id, ip, frames[1..], decode, provider, failing);
      }
    }
  }
}
