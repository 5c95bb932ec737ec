/**
  The DERP client: receiving through a bounded buffer with deferred discards
  and a sticky error, and the senders sharing one buffered writer.
 */
module DerpClient {
  import opened ByteCodec
  import opened DerpWire
  import opened DerpIO
  import opened DerpMessages
  import opened Seqs

  class Client {
    const br: BufReader
    const bw: BufWriter
    const open: Opener
    var peeked: nat
    var readErr: Option<RecvError>
    var rate: Option<Limits>

    ghost predicate Valid()
      reads this, br, br.buf
    {
      && br.Valid()
      && (readErr.None? ==> peeked <= br.w - br.r)
    }

    /** The stream from the next frame boundary on. */
    ghost function Remaining(): seq<byte>
      requires Valid() && readErr.None?
      reads this, br, br.buf
    {
      br.Stream()[peeked..]
    }

    constructor (br: BufReader, bw: BufWriter, open: Opener)
      requires br.Valid() && bw.Framed()
      ensures Valid() && bw.Framed() && readErr.None? && Remaining() == br.Stream()
      ensures this.br == br && this.bw == bw && this.open == open
    {
      this.br, this.bw, this.open := br, bw, open;
      peeked, readErr, rate := 0, None, None;
    }

    /** Discards the frame that the last Recv only peeked at. */
    method DropPeeked()
      requires Valid() && readErr.None?
      modifies this`peeked, br, br.buf
      ensures br.Valid() && peeked == 0 && br.Stream() == old(Remaining())
    {
      if peeked != 0 {
        var ok := br.Discard(peeked);
        assert ok;
        peeked := 0;
      }
    }

    /** An n-byte body: left in the buffer and peeked at if it fits, else copied out. */
    method Body(n: uint32) returns (body: Option<seq<byte>>)
      requires br.Valid() && peeked == 0
      modifies this`peeked, br, br.buf
      ensures br.Valid()
      ensures var t := old(br.Stream());
              if |t| < n then body.None?
              else && body == Some(t[..n]) && peeked <= br.w - br.r && br.Stream()[peeked..] == t[n..]
                   && (peeked != 0 ==> br.buf[br.r..br.r + peeked] == t[..n])
    {
      if n <= br.buf.Length {
        var peek := br.Peek(n);
        peeked := n;
        return if peek.Ok? then Some(peek.value) else None;
      }
      var read := br.ReadFull(n);
      return if read.Ok? then Some(read.value) else None;
    }

    /** The front of the receive loop: drop what was peeked, read a header, get at the body. */
    method NextFrame() returns (res: Result<Frame, RecvError>)
      requires Valid() && readErr.None?
      modifies this`peeked, br, br.buf
      ensures br.Valid()
      ensures match CutFrame(old(Remaining()))
              case Err(e) => res == Err(e)
              case Ok((f, rest)) =>
                && res == Ok(f) && Valid() && Remaining() == rest
                && (peeked != 0 ==> br.buf[br.r..br.r + peeked] == f.body)
    {
      ghost var s := Remaining();
      DropPeeked();
      var hdr := ReadFrameHeader(br);
      if hdr.Err? {
        return Err(Ended);
      }
      var (typ, n) := hdr.value;
      if n > MAX_RECV_FRAME {
        return Err(Oversized(n));
      }
      WholeBody(s);
      var body := Body(n);
      if body.None? {
        return Err(Ended);
      }
      return Ok(Frame(typ, body.value));
    }

    /** One turn of the receive loop: None when the frame was dropped. */
    method Turn() returns (res: Option<Result<Message, RecvError>>)
      requires Valid() && readErr.None?
      modifies this, br, br.buf
      ensures Valid()
      ensures match TurnOf(old(Remaining()), open)
              case Again(rest) => res.None? && readErr.None? && Remaining() == rest && rate == old(rate)
              case Settled(o) => res.Some? && Concludes(o, old(rate), res.value)
    {
      var frame := NextFrame();
      if frame.Err? {
        readErr := Some(frame.error);
        return Some(Err(frame.error));
      }
      match Decode(frame.value, open)
      case Drop =>
        return None;
      case Deliver(m) =>
        if m.ServerInfo? {
          rate := LimiterFor(m.limits);
        }
        return Some(Ok(m));
      case Reject =>
        readErr := Some(BadServerInfo);
        return Some(Err(BadServerInfo));
    }

    /** How a Recv leaves the client; a delivered frame that fits the buffer is still there. */
    ghost predicate Concludes(o: Outcome, before: Option<Limits>, res: Result<Message, RecvError>)
      requires Valid()
      reads this, br, br.buf
    {
      match o
      case Failed(e) => res == Err(e) && readErr == Some(e) && rate == before
      case Delivered(f, m, rest) =>
        && res == Ok(m) && readErr.None? && Remaining() == rest
        && (peeked != 0 ==> br.buf[br.r..br.r + peeked] == f.body)
        && rate == if m.ServerInfo? then LimiterFor(m.limits) else before
    }

    /**
      Recv refines NextMessage for every buffer size and every chunking of the
      stream.  A delivered frame that fits the buffer is still there (its bytes
      are what the message aliases); an error sticks and consumes nothing more.
     */
    method Recv() returns (res: Result<Message, RecvError>)
      requires Valid()
      modifies this, br, br.buf
      ensures Valid()
      ensures old(readErr).Some? ==>
                && res == Err(old(readErr).value)
                && readErr == old(readErr) && peeked == old(peeked) && rate == old(rate)
                && br.Stream() == old(br.Stream())
      ensures old(readErr).None? ==> Concludes(NextMessage(old(Remaining()), open), old(rate), res)
    {
      if readErr.Some? {
        return Err(readErr.value);
      }
      while true
        invariant Valid() && readErr.None? && rate == old(rate)
        invariant NextMessage(Remaining(), open) == NextMessage(old(Remaining()), open)
        decreases |Remaining()|
      {
        var settled := Turn();
        if settled.Some? {
          return settled.value;
        }
      }
    }

    /** Recv called until it fails: the messages and the error of the reference receiver. */
    method RecvAll() returns (msgs: seq<Message>, error: RecvError)
      requires Valid() && readErr.None?
      modifies this, br, br.buf
      ensures Valid() && readErr == Some(error)
      ensures Session(msgs, error) == Receive(old(Remaining()), open)
    {
      msgs := [];
      while true
        invariant Valid() && readErr.None?
        invariant var later := Receive(Remaining(), open);
                  Session(msgs + later.msgs, later.error) == Receive(old(Remaining()), open)
        decreases |Remaining()|
      {
        ghost var s := Remaining();
        var res := Recv();
        ReceiveUnfolds(s, msgs, open);
        if res.Err? {
          return msgs, res.error;
        }
        msgs := msgs + [res.value];
      }
    }

    /** Flushes a frame whose pieces have been written, and records it. */
    method Finish(ghost f: Frame) returns (ok: bool)
      requires bw.Valid() && Fits(f)
      requires !bw.failed ==> bw.Stream() == Wire(bw.frames) + FrameBytes(f)
      requires bw.failed && bw.torn == [] ==> bw.sent <= Wire(bw.frames) + FrameBytes(f)
      requires bw.failed && bw.torn != [] ==> bw.sent <= Wire(bw.frames + bw.torn)
      modifies bw
      ensures Emitted(old(bw.frames), f, ok)
      ensures old(bw.failed) ==> bw.failed && bw.sent == old(bw.sent)
    {
      bw.Flush();
      WireAppend(bw.frames, [f]);
      assert Wire([f]) == FrameBytes(f);
      if bw.failed {
        if bw.torn == [] {
          bw.torn := [f];
        }
        return false;
      }
      bw.frames := bw.frames + [f];
      assert bw.frames + bw.torn == bw.frames;
      return true;
    }

    /** On success exactly f was added to the wire; on failure the wire ends inside the torn frame. */
    ghost predicate Emitted(before: seq<Frame>, f: Frame, ok: bool)
      reads this, bw
    {
      && bw.Framed()
      && ok == !bw.failed
      && bw.frames == if ok then before + [f] else before
    }

    /** The state a frame's first write starts from. */
    lemma StartFrame(f: Frame)
      requires bw.Framed() && Fits(f)
      ensures !bw.failed ==> bw.Stream() == Wire(bw.frames) && bw.torn == []
      ensures bw.failed && bw.torn == [] ==> bw.sent <= Wire(bw.frames) + FrameBytes(f)
    {
      if bw.torn == [] {
        assert bw.frames + bw.torn == bw.frames;
      }
    }

    /** send; allowed is the rate limiter's verdict, asked only when there is one. */
    method Send(dst: Key, pkt: seq<byte>, allowed: bool) returns (ok: bool)
      requires bw.Framed()
      modifies bw
      ensures if |pkt| > MAX_PACKET_SIZE then !ok && unchanged(bw)
              else if rate.Some? && !allowed then ok && unchanged(bw)
              else Emitted(old(bw.frames), Frame(FRAME_SEND_PACKET, dst + pkt), ok)
      ensures old(bw.failed) ==> bw.failed && bw.sent == old(bw.sent)
    {
      if |pkt| > MAX_PACKET_SIZE {
        return false;
      }
      if rate.Some? && !allowed {
        return true;
      }
      ghost var f := Frame(FRAME_SEND_PACKET, dst + pkt);
      StartFrame(f);
      FourPieces(Wire(bw.frames), Header(FRAME_SEND_PACKET, KEY_LEN + |pkt|), dst, pkt);
      WriteFrameHeader(bw, FRAME_SEND_PACKET, KEY_LEN + |pkt|);
      bw.Write(dst);
      bw.Write(pkt);
      ok := Finish(f);
    }

    method ForwardPacket(src: Key, dst: Key, pkt: seq<byte>) returns (ok: bool)
      requires bw.Framed()
      modifies bw
      ensures if |pkt| > MAX_PACKET_SIZE then !ok && unchanged(bw)
              else Emitted(old(bw.frames), Frame(FRAME_FORWARD_PACKET, src + dst + pkt), ok)
      ensures old(bw.failed) ==> bw.failed && bw.sent == old(bw.sent)
    {
      if |pkt| > MAX_PACKET_SIZE {
        return false;
      }
      ghost var f := Frame(FRAME_FORWARD_PACKET, src + dst + pkt);
      StartFrame(f);
      Pieces(Wire(bw.frames), Header(FRAME_FORWARD_PACKET, 2 * KEY_LEN + |pkt|), src, dst, pkt);
      WriteFrameHeader(bw, FRAME_FORWARD_PACKET, 2 * KEY_LEN + |pkt|);
      bw.Write(src);
      bw.Write(dst);
      bw.Write(pkt);
      ok := Finish(f);
    }

    method SendPingOrPong(typ: byte, data: Nonce8) returns (ok: bool)
      requires bw.Framed()
      modifies bw
      ensures Emitted(old(bw.frames), Frame(typ, data), ok)
      ensures old(bw.failed) ==> bw.failed && bw.sent == old(bw.sent)
    {
      StartFrame(Frame(typ, data));
      WriteFrameHeader(bw, typ, 8);
      bw.Write(data);
      ok := Finish(Frame(typ, data));
    }

    method NotePreferred(preferred: bool) returns (ok: bool)
      requires bw.Framed()
      modifies bw
      ensures Emitted(old(bw.frames), Frame(FRAME_NOTE_PREFERRED, [if preferred then 1 else 0]), ok)
      ensures old(bw.failed) ==> bw.failed && bw.sent == old(bw.sent)
    {
      var b: byte := if preferred then 1 else 0;
      StartFrame(Frame(FRAME_NOTE_PREFERRED, [b]));
      WriteFrameHeader(bw, FRAME_NOTE_PREFERRED, 1);
      bw.WriteByte(b);
      ok := Finish(Frame(FRAME_NOTE_PREFERRED, [b]));
    }

    method WatchConnectionChanges() returns (ok: bool)
      requires bw.Framed()
      modifies bw
      ensures Emitted(old(bw.frames), Frame(FRAME_WATCH_CONNS, []), ok)
      ensures old(bw.failed) ==> bw.failed && bw.sent == old(bw.sent)
    {
      StartFrame(Frame(FRAME_WATCH_CONNS, []));
      WriteFrameHeader(bw, FRAME_WATCH_CONNS, 0);
      ok := Finish(Frame(FRAME_WATCH_CONNS, []));
    }

    /** WriteFrame refuses bodies over 10 MiB. */
    method WriteFrame(typ: byte, b: seq<byte>) returns (ok: bool)
      requires bw.Framed()
      modifies bw
      ensures if |b| > 0xA0_0000 then !ok && unchanged(bw)
              else Emitted(old(bw.frames), Frame(typ, b), ok)
      ensures old(bw.failed) ==> bw.failed && bw.sent == old(bw.sent)
    {
      if |b| > 0xA0_0000 {
        return false;
      }
      StartFrame(Frame(typ, b));
      WriteFrameHeader(bw, typ, |b|);
      bw.Write(b);
      ok := Finish(Frame(typ, b));
    }

    method ClosePeer(target: Key) returns (ok: bool)
      requires bw.Framed()
      modifies bw
      ensures Emitted(old(bw.frames), Frame(FRAME_CLOSE_PEER, target), ok)
    {
      ok := WriteFrame(FRAME_CLOSE_PEER, target);
    }
  }

  lemma WholeBody(s: seq<byte>)
    ensures HasFrame(s) ==> s[FRAME_HEADER_LEN..][..BodyLen(s)] == FirstFrame(s).body
    ensures HasFrame(s) ==> s[FRAME_HEADER_LEN..][BodyLen(s)..] == AfterFrame(s)
  {
  }

  const FRAME_SERVER_KEY: byte := 0x01
  const MAGIC: seq<byte> := [0x44, 0x45, 0x52, 0x50, 0xf0, 0x9f, 0x94, 0x91]

  /** A server greeting: the magic and a key, possibly followed by more. */
  predicate IsGreeting(s: seq<byte>) {
    && HasFrame(s)
    && s[0] == FRAME_SERVER_KEY
    && |MAGIC| + KEY_LEN <= BodyLen(s) <= 0x400
    && FirstFrame(s).body[..|MAGIC|] == MAGIC
  }

  /** recvServerKey: takes a greeting of any accepted length and leaves the reader right behind it. */
  method RecvServerKey(br: BufReader) returns (key: Option<Key>)
    requires br.Valid()
    modifies br, br.buf
    ensures br.Valid()
    ensures key.Some? <==> IsGreeting(old(br.Stream()))
    ensures key.Some? ==>
              && key.value == FirstFrame(old(br.Stream())).body[|MAGIC|..|MAGIC| + KEY_LEN]
              && br.Stream() == AfterFrame(old(br.Stream()))
  {
    ghost var s := br.Stream();
    var frame := ReadFrame(br, 0x400, |MAGIC| + KEY_LEN);
    if frame.Err? {
      return None;
    }
    var FrameRead(typ, n, buf, _) := frame.value;
    if n < |MAGIC| + KEY_LEN || typ != FRAME_SERVER_KEY || buf[..|MAGIC|] != MAGIC {
      assert n >= |MAGIC| + KEY_LEN ==> buf[..|MAGIC|] == FirstFrame(s).body[..|MAGIC|];
      return None;
    }
    assert buf[..|MAGIC|] == FirstFrame(s).body[..|MAGIC|];
    assert buf[|MAGIC|..] == FirstFrame(s).body[|MAGIC|..|MAGIC| + KEY_LEN];
    return Some(buf[|MAGIC|..]);
  }

  /** setSendRateLimiter. */
  function LimiterFor(l: Limits): Option<Limits> {
    if l.bytesPerSecond == 0 then None else Some(l)
  }

  /**
    Whatever sends a client has performed, its peer splits the bytes on the wire
    into exactly the frames sent; after a failed send, into those that made it
    out whole, which are still the first of what was sent.
   */
  lemma PeerReadsWhatWasSent(bw: BufWriter)
    requires bw.Framed()
    ensures !bw.failed ==> Split(bw.sent) == Parsed(bw.frames, [])
    ensures bw.failed ==> Split(bw.sent).frames <= bw.frames + bw.torn
  {
    if !bw.failed {
      SplitUndoesWire(bw.frames, []);
      assert bw.sent + [] == bw.sent && bw.frames + [] == bw.frames;
    } else {
      PrefixSplits(bw.sent, bw.frames + bw.torn);
    }
  }

  lemma ReceiveUnfolds(s: seq<byte>, msgs: seq<Message>, open: Opener)
    ensures match NextMessage(s, open)
            case Failed(e) => Receive(s, open) == Session([], e) && msgs + Receive(s, open).msgs == msgs
            case Delivered(_, m, rest) =>
              && Receive(s, open).error == Receive(rest, open).error
              && msgs + Receive(s, open).msgs == msgs + [m] + Receive(rest, open).msgs
  {
  }

  /** Reading a successful client's wire back, frame by frame, gives exactly what it sent. */
  method ReadBack(bw: BufWriter, br: BufReader, maxSize: uint32) returns (fs: seq<Frame>)
    requires bw.Framed() && !bw.failed && br.Valid() && br.Stream() == bw.sent && AllWithin(bw.frames, maxSize)
    modifies br, br.buf
    ensures fs == bw.frames
  {
    PeerReadsWhatWasSent(bw);
    fs := ReadFrames(br, maxSize);
  }

  /** The complete frames of a cut-off stream are the first frames of the whole one. */
  lemma {:induction false} PrefixSplits(s: seq<byte>, fs: seq<Frame>)
    requires AllFit(fs) && s <= Wire(fs)
    ensures Split(s).frames <= fs
    decreases |s|
  {
    if HasFrame(s) {
      var tail := Wire(fs)[|s|..];
      assert Wire(fs) == s + tail;
      assert fs != [];
      CutUndoesWrite(fs[0], Wire(fs[1..]));
      assert s[1..FRAME_HEADER_LEN] == Wire(fs)[1..FRAME_HEADER_LEN];
      assert FirstFrame(s).body == FirstFrame(Wire(fs)).body;
      assert AfterFrame(s) + tail == AfterFrame(Wire(fs));
      PrefixSplits(AfterFrame(s), fs[1..]);
    }
  }
}
