/**
 * Inbound framing of the relay: clients send text frames terminated by a NUL
 * byte; the server keeps the bytes after the last NUL as a carry-over buffer
 * until a later read completes them. Outbound frames are terminated by a
 * line feed instead.
 */
module Framing {

  newtype Byte = b: int | 0 <= b < 256

  /** Inbound frame terminator. */
  const NUL: Byte := 0

  /** Outbound frame terminator, as a character of the outgoing text. */
  const OUTBOUND_TERMINATOR: char := '\n'

  /** The bytes put on the wire for one outgoing message. */
  function Outbound(text: string): (frame: string)
    ensures |frame| == |text| + 1 && frame[|text|] == OUTBOUND_TERMINATOR
    ensures frame[..|text|] == text
  {
    text + [OUTBOUND_TERMINATOR]
  }

  /** Index of the first occurrence of `b` in `buf`, or -1 when there is none. */
  function Find(buf: seq<Byte>, b: Byte): (idx: int)
    ensures -1 <= idx < |buf|
    ensures 0 <= idx ==> buf[idx] == b
  {
    if buf == [] then -1
    else if buf[0] == b then 0
    else
      var i := Find(buf[1..], b);
      if i == -1 then -1 else i + 1
  }

  /** Find answers -1 exactly when `b` is absent, and otherwise its first position. */
  lemma {:induction false} FindFirst(buf: seq<Byte>, b: Byte)
    ensures Find(buf, b) == -1 <==> b !in buf
    ensures 0 <= Find(buf, b) ==> b !in buf[..Find(buf, b)]
  {
    if buf != [] && buf[0] != b {
      FindFirst(buf[1..], b);
      assert buf == [buf[0]] + buf[1..];
      var i := Find(buf[1..], b);
      if i != -1 {
        assert buf[..i + 1] == [buf[0]] + buf[1..][..i];
      }
    }
  }

  /** A position holding `b` with no `b` before it is what Find returns. */
  lemma {:induction false} FindAt(buf: seq<Byte>, b: Byte, i: nat)
    requires i < |buf| && buf[i] == b && b !in buf[..i]
    ensures Find(buf, b) == i
  {
    FindFirst(buf, b);
    assert buf[i] in buf;
    var j := Find(buf, b);
    assert forall k | 0 <= k < i :: buf[..i][k] == buf[k];
    assert forall k | 0 <= k < j :: buf[..j][k] == buf[k];
  }

  ghost predicate AllNulFree(frames: seq<seq<Byte>>) {
    forall k | 0 <= k < |frames| :: NUL !in frames[k]
  }

  /** The wire form of a run of complete frames: each one followed by NUL. */
  function Terminated(frames: seq<seq<Byte>>): seq<Byte> {
    if frames == [] then [] else frames[0] + [NUL] + Terminated(frames[1..])
  }

  /**
   * Cuts `buf` at every NUL: the complete frames in order and the
   * unterminated tail (see SplitJoins for what it guarantees).
   */
  function Split(buf: seq<Byte>): (seq<seq<Byte>>, seq<Byte>)
    decreases |buf|
  {
    var i := Find(buf, NUL);
    if i == -1 then ([], buf)
    else
      var tail := Split(buf[i + 1..]);
      ([buf[..i]] + tail.0, tail.1)
  }

  /**
   * The frames, each re-terminated, followed by the tail give back the
   * buffer; no frame and not the tail contains a NUL.
   */
  lemma {:induction false} SplitJoins(buf: seq<Byte>)
    ensures Terminated(Split(buf).0) + Split(buf).1 == buf
    ensures AllNulFree(Split(buf).0) && NUL !in Split(buf).1
    decreases |buf|
  {
    var i := Find(buf, NUL);
    FindFirst(buf, NUL);
    if i != -1 {
      var tail := Split(buf[i + 1..]);
      assert Split(buf) == ([buf[..i]] + tail.0, tail.1);
      SplitJoins(buf[i + 1..]);
      ConsFrame(buf[..i], tail.0, tail.1);
      CutAt(buf, i);
    }
  }

  /** Putting one more NUL-free frame in front of a split buffer. */
  lemma {:induction false} ConsFrame(f: seq<Byte>, frames: seq<seq<Byte>>, rest: seq<Byte>)
    requires NUL !in f && AllNulFree(frames)
    ensures Terminated([f] + frames) + rest == f + [NUL] + (Terminated(frames) + rest)
    ensures AllNulFree([f] + frames)
  {
    assert ([f] + frames)[0] == f && ([f] + frames)[1..] == frames;
    assert forall k | 1 <= k < |[f] + frames| :: ([f] + frames)[k] == frames[k - 1];
  }

  lemma {:induction false} ConcatNulFree(a: seq<seq<Byte>>, b: seq<seq<Byte>>)
    requires AllNulFree(a) && AllNulFree(b)
    ensures AllNulFree(a + b)
  {
    assert forall k | |a| <= k < |a + b| :: (a + b)[k] == b[k - |a|];
  }

  /** A buffer is the bytes before position `i`, the byte at `i`, and the bytes after it. */
  lemma CutAt(buf: seq<Byte>, i: nat)
    requires i < |buf|
    ensures buf == buf[..i] + [buf[i]] + buf[i + 1..]
  {
  }

  /** The parts of `x + [c] + y` around the separator. */
  lemma PartsOfJoin(x: seq<Byte>, c: Byte, y: seq<Byte>)
    ensures var j := x + [c] + y;
      && |x| < |j| && j[..|x|] == x && j[|x|] == c && j[|x| + 1..] == y
  {
    var j := x + [c] + y;
    assert j[..|x|] == x;
    assert j[|x| + 1..] == y;
  }

  lemma AppendAssoc(x: seq<Byte>, y: seq<Byte>, z: seq<Byte>)
    ensures x + y + z == x + (y + z)
  {
  }

  /** The first of some NUL-free frames, and the frames after it. */
  lemma FirstFrame(frames: seq<seq<Byte>>)
    requires frames != [] && AllNulFree(frames)
    ensures NUL !in frames[0] && AllNulFree(frames[1..]) && [frames[0]] + frames[1..] == frames
  {
    assert forall k | 0 <= k < |frames[1..]| :: frames[1..][k] == frames[k + 1];
  }

  /** The wire form of a single frame. */
  lemma OneFrame(f: seq<Byte>)
    ensures Terminated([f]) == f + [NUL]
  {
    assert [f][1..] == [];
  }

  /** Bytes delivered by a sequence of reads; an empty read is end of stream. */
  function Received(chunks: seq<seq<Byte>>): seq<Byte> {
    if chunks == [] || chunks[0] == [] then [] else chunks[0] + Received(chunks[1..])
  }

  lemma {:induction false} TerminatedAppend(a: seq<seq<Byte>>, b: seq<seq<Byte>>)
    ensures Terminated(a + b) == Terminated(a) + Terminated(b)
  {
    if a != [] {
      assert (a + b)[1..] == a[1..] + b;
      TerminatedAppend(a[1..], b);
    } else {
      assert a + b == b;
    }
  }

  /**
   * Cutting the first complete frame off the unprocessed part of a buffer
   * moves it, whole and NUL-free, to the frames already cut.
   */
  lemma {:induction false} CutFrame(buf: seq<Byte>, frames: seq<seq<Byte>>, rest: seq<Byte>)
    requires Terminated(frames) + rest == buf && AllNulFree(frames)
    requires Find(rest, NUL) != -1
    ensures var idx := Find(rest, NUL);
      && Terminated(frames + [rest[..idx]]) + rest[idx + 1..] == buf
      && AllNulFree(frames + [rest[..idx]])
  {
    var idx := Find(rest, NUL);
    var frame := rest[..idx];
    FindFirst(rest, NUL);
    CutAt(rest, idx);
    TerminatedAppend(frames, [frame]);
    OneFrame(frame);
    AppendAssoc(Terminated(frames), frame + [NUL], rest[idx + 1..]);
    ConcatNulFree(frames, [frame]);
  }

  /** Appending the next non-empty read to the buffer keeps all bytes accounted for. */
  lemma {:induction false} ReadChunk(done: seq<seq<Byte>>, buffer: seq<Byte>, chunks: seq<seq<Byte>>, i: nat,
                  total: seq<Byte>)
    requires i < |chunks| && chunks[i] != []
    requires Terminated(done) + buffer + Received(chunks[i..]) == total
    ensures Terminated(done) + (buffer + chunks[i]) + Received(chunks[i + 1..]) == total
  {
    assert chunks[i..][1..] == chunks[i + 1..];
  }

  /** Frames drained from the buffer join the frames already cut. */
  lemma {:induction false} AppendDrained(done: seq<seq<Byte>>, frames: seq<seq<Byte>>, buffer: seq<Byte>,
                      rest: seq<Byte>, tail: seq<Byte>, total: seq<Byte>)
    requires Terminated(done) + buffer + tail == total && AllNulFree(done)
    requires Terminated(frames) + rest == buffer && AllNulFree(frames)
    ensures Terminated(done + frames) + rest + tail == total && AllNulFree(done + frames)
  {
    TerminatedAppend(done, frames);
    ConcatNulFree(done, frames);
  }

  /**
   * When reading stops, the frames cut so far begin the frames of all bytes
   * received; when the stream ended with no terminator left in the buffer,
   * they are all of them and the buffer is the unterminated tail.
   */
  lemma {:induction false} ReadStopped(done: seq<seq<Byte>>, buffer: seq<Byte>, tail: seq<Byte>, total: seq<Byte>)
    requires Terminated(done) + buffer + tail == total && AllNulFree(done)
    ensures done <= Split(total).0
    ensures tail == [] && NUL !in buffer ==> Split(total) == (done, buffer)
  {
    AppendAssoc(Terminated(done), buffer, tail);
    SplitAfterFrames(done, buffer + tail);
    var more := Split(buffer + tail).0;
    assert done <= done + more;
    if tail == [] && NUL !in buffer {
      assert buffer + tail == buffer;
      assert Terminated([]) + buffer == buffer;
      SplitUnique([], buffer);
      assert done + [] == done;
    }
  }

  /** Split is determined by its contract: NUL-free parts that join to `buf` are Split(buf). */
  lemma {:induction false} SplitUnique(frames: seq<seq<Byte>>, rest: seq<Byte>)
    requires AllNulFree(frames) && NUL !in rest
    ensures Split(Terminated(frames) + rest) == (frames, rest)
  {
    if frames != [] {
      var f := frames[0];
      var buf := Terminated(frames) + rest;
      var tail := Terminated(frames[1..]) + rest;
      FirstFrame(frames);
      AppendAssoc(f + [NUL], Terminated(frames[1..]), rest);
      PartsOfJoin(f, NUL, tail);
      FindAt(buf, NUL, |f|);
      assert Split(buf) == ([f] + Split(tail).0, Split(tail).1);
      SplitUnique(frames[1..], rest);
    } else {
      assert Terminated(frames) + rest == rest;
      FindFirst(rest, NUL);
    }
  }

  /** Frames already complete at the front of the buffer come out first, unchanged. */
  lemma {:induction false} SplitAfterFrames(done: seq<seq<Byte>>, more: seq<Byte>)
    requires AllNulFree(done)
    ensures Split(Terminated(done) + more) == (done + Split(more).0, Split(more).1)
  {
    var fs, rest := Split(more).0, Split(more).1;
    SplitJoins(more);
    TerminatedAppend(done, fs);
    AppendAssoc(Terminated(done), Terminated(fs), rest);
    calc {
      Terminated(done) + more;
      Terminated(done) + (Terminated(fs) + rest);
      Terminated(done + fs) + rest;
    }
    ConcatNulFree(done, fs);
    SplitUnique(done + fs, rest);
  }

  /**
   * Feeding two reads one at a time (split the first, keep its tail as
   * carry, split carry + second) gives the frames of splitting the
   * concatenation.
   */
  lemma {:induction false} SplitAppend(a: seq<Byte>, b: seq<Byte>)
    ensures Split(a + b).0 == Split(a).0 + Split(Split(a).1 + b).0
    ensures Split(a + b).1 == Split(Split(a).1 + b).1
  {
    var fa, ra := Split(a).0, Split(a).1;
    SplitJoins(a);
    AppendAssoc(Terminated(fa), ra, b);
    SplitAfterFrames(fa, ra + b);
  }

  /**
   * Two complete frames in one read followed by a partial third: exactly
   * two frames come out and the partial bytes are the carry; once its
   * terminator arrives the third frame comes out whole.
   */
  lemma {:induction false} TwoFramesThenPartial(f1: seq<Byte>, f2: seq<Byte>, f3a: seq<Byte>, f3b: seq<Byte>)
    requires NUL !in f1 && NUL !in f2 && NUL !in f3a && NUL !in f3b
    ensures Split(f1 + [NUL] + f2 + [NUL] + f3a) == ([f1, f2], f3a)
    ensures Split(f3a + (f3b + [NUL])) == ([f3a + f3b], [])
  {
    assert Terminated([f2]) == f2 + [NUL] + Terminated([]);
    assert Terminated([f1, f2]) == f1 + [NUL] + Terminated([f2]);
    assert f1 + [NUL] + f2 + [NUL] + f3a == Terminated([f1, f2]) + f3a;
    SplitUnique([f1, f2], f3a);
    assert Terminated([f3a + f3b]) == f3a + f3b + [NUL] + Terminated([]);
    assert f3a + (f3b + [NUL]) == Terminated([f3a + f3b]) + [];
    SplitUnique([f3a + f3b], []);
  }
}
