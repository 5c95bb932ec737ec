/**
  What DERP frames mean to a client, and the reference receiver: split the
  stream into frames, decode each, drop the unknown and the short ones.
 */
module DerpMessages {
  import opened ByteCodec
  import opened NetAddr
  import opened DerpWire
  import opened Seqs

  const KEY_LEN := 32
  const NONCE_LEN := 24
  const MAX_INFO_LEN := 0x10_0000
  const MAX_RECV_FRAME := 0x10_0000
  const MAX_PACKET_SIZE := 0x1_0000

  const FRAME_SERVER_INFO: byte := 0x03
  const FRAME_SEND_PACKET: byte := 0x04
  const FRAME_RECV_PACKET: byte := 0x05
  const FRAME_KEEP_ALIVE: byte := 0x06
  const FRAME_NOTE_PREFERRED: byte := 0x07
  const FRAME_PEER_GONE: byte := 0x08
  const FRAME_PEER_PRESENT: byte := 0x09
  const FRAME_FORWARD_PACKET: byte := 0x0a
  const FRAME_WATCH_CONNS: byte := 0x10
  const FRAME_CLOSE_PEER: byte := 0x11
  const FRAME_PING: byte := 0x12
  const FRAME_PONG: byte := 0x13
  const FRAME_HEALTH: byte := 0x14
  const FRAME_RESTARTING: byte := 0x15

  const MILLISECOND := 1_000_000

  type Key = k: seq<byte> | |k| == 32 witness Zeros(32)
  type Nonce8 = d: seq<byte> | |d| == 8 witness Zeros(8)

  datatype Limits = Limits(bytesPerSecond: int, bytesBurst: int)

  /** Opening the sealed server info and parsing its JSON; None when either fails. */
  type Opener = seq<byte> -> Option<Limits>

  datatype Message =
    | ReceivedPacket(source: Key, data: seq<byte>)
    | PeerGone(peer: Key, reason: byte)
    | PeerPresent(key: Key, ipPort: AddrPort, flags: byte)
    | ServerInfo(limits: Limits)
    | Ping(ping: Nonce8)
    | Pong(pong: Nonce8)
    | KeepAlive
    | Health(problem: seq<byte>)
    | ServerRestarting(reconnectIn: nat, tryFor: nat)

  datatype Decoded = Deliver(msg: Message) | Drop | Reject

  function ParseServerInfo(b: seq<byte>, open: Opener): Option<Limits> {
    if |b| < NONCE_LEN || |b| > NONCE_LEN + MAX_INFO_LEN then None else open(b)
  }

  /** cutLeadingN. */
  function CutLeadingN(b: seq<byte>, n: nat): (r: (seq<byte>, seq<byte>, bool))
    ensures r.2 <==> |b| >= n
    ensures r.2 ==> |r.0| == n && r.0 + r.1 == b
    ensures !r.2 ==> r.1 == b
  {
    if |b| >= n then (b[..n], b[n..], true) else ([], b, false)
  }

  function DecodePeerPresent(b: seq<byte>): Decoded {
    var (chunk, remain, ok) := CutLeadingN(b, KEY_LEN);
    if !ok then Drop else
    var key: Key := chunk;
    var (chunk, remain, ok) := CutLeadingN(remain, EP_LENGTH);
    if !ok then Deliver(PeerPresent(key, AddrPort(NoAddr, 0), 0)) else
    var ipPort := GetEndpoint(chunk);
    var (chunk, _, ok) := CutLeadingN(remain, 1);
    if !ok then Deliver(PeerPresent(key, ipPort, 0))
    else Deliver(PeerPresent(key, ipPort, chunk[0]))
  }

  function Decode(f: Frame, open: Opener): Decoded {
    var b, n := f.body, |f.body|;
    if f.typ == FRAME_SERVER_INFO then
      (match ParseServerInfo(b, open)
       case None => Reject
       case Some(limits) => Deliver(ServerInfo(limits)))
    else if f.typ == FRAME_KEEP_ALIVE then Deliver(KeepAlive)
    else if f.typ == FRAME_PEER_GONE then
      if n < KEY_LEN then Drop
      else Deliver(PeerGone(b[..KEY_LEN], if n > KEY_LEN then b[KEY_LEN] else 0))
    else if f.typ == FRAME_PEER_PRESENT then DecodePeerPresent(b)
    else if f.typ == FRAME_RECV_PACKET then
      if n < KEY_LEN then Drop else Deliver(ReceivedPacket(b[..KEY_LEN], b[KEY_LEN..]))
    else if f.typ == FRAME_PING then
      if n < 8 then Drop else Deliver(Ping(b[..8]))
    else if f.typ == FRAME_PONG then
      if n < 8 then Drop else Deliver(Pong(b[..8]))
    else if f.typ == FRAME_HEALTH then Deliver(Health(b))
    else if f.typ == FRAME_RESTARTING then
      if n < 8 then Drop
      else Deliver(ServerRestarting(Get32(b[0..4]) * MILLISECOND, Get32(b[4..8]) * MILLISECOND))
    else Drop
  }

  datatype RecvError = Ended | Oversized(declared: uint32) | BadServerInfo

  datatype Outcome =
    | Delivered(frame: Frame, msg: Message, rest: seq<byte>)
    | Failed(error: RecvError)

  /** The next frame of a stream, or why there is none a client accepts. */
  function CutFrame(s: seq<byte>): (r: Result<(Frame, seq<byte>), RecvError>)
    ensures r.Ok? ==> |r.value.1| < |s|
  {
    if |s| < FRAME_HEADER_LEN then Err(Ended)
    else if BodyLen(s) > MAX_RECV_FRAME then Err(Oversized(BodyLen(s)))
    else if !HasFrame(s) then Err(Ended)
    else Ok((FirstFrame(s), AfterFrame(s)))
  }

  /** What one frame does to a Recv: it is dropped, or settles the outcome. */
  datatype Turn = Again(rest: seq<byte>) | Settled(outcome: Outcome)

  function TurnOf(s: seq<byte>, open: Opener): (t: Turn)
    ensures t.Again? ==> |t.rest| < |s|
    ensures t.Settled? && t.outcome.Delivered? ==> |t.outcome.rest| < |s|
  {
    match CutFrame(s)
    case Err(e) => Settled(Failed(e))
    case Ok((f, rest)) =>
      match Decode(f, open)
      case Drop => Again(rest)
      case Deliver(m) => Settled(Delivered(f, m, rest))
      case Reject => Settled(Failed(BadServerInfo))
  }

  /** One Recv on a stream of bytes, with no buffer in sight. */
  function NextMessage(s: seq<byte>, open: Opener): (o: Outcome)
    ensures o.Delivered? ==> |o.rest| < |s|
    decreases |s|
  {
    match TurnOf(s, open)
    case Again(rest) => NextMessage(rest, open)
    case Settled(o) => o
  }

  datatype Session = Session(msgs: seq<Message>, error: RecvError)

  /** Recv called until it reports its (sticky) error. */
  function Receive(s: seq<byte>, open: Opener): Session
    decreases |s|
  {
    match NextMessage(s, open)
    case Failed(e) => Session([], e)
    case Delivered(_, m, rest) =>
      var later := Receive(rest, open);
      Session([m] + later.msgs, later.error)
  }

  /** The simple parser: decode frame by frame, keep what is delivered, stop at a rejected frame. */
  function DecodeAll(fs: seq<Frame>, open: Opener, end: Session): Session {
    if fs == [] then end
    else match Decode(fs[0], open)
      case Drop => DecodeAll(fs[1..], open, end)
      case Deliver(m) =>
        var later := DecodeAll(fs[1..], open, end);
        Session([m] + later.msgs, later.error)
      case Reject => Session([], BadServerInfo)
  }

  predicate Receivable(fs: seq<Frame>) {
    forall i :: 0 <= i < |fs| ==> |fs[i].body| <= MAX_RECV_FRAME
  }

  lemma ReceiveStep(f: Frame, rest: seq<byte>, open: Opener)
    requires |f.body| <= MAX_RECV_FRAME
    ensures Receive(FrameBytes(f) + rest, open) == DecodeAll([f], open, Receive(rest, open))
  {
    var s := FrameBytes(f) + rest;
    CutUndoesWrite(f, rest);
    assert CutFrame(s) == Ok((f, rest));
    var end := Receive(rest, open);
    assert DecodeAll([f][1..], open, end) == end;
    match Decode(f, open)
    case Drop => assert NextMessage(s, open) == NextMessage(rest, open);
    case Deliver(m) => assert NextMessage(s, open) == Delivered(f, m, rest);
    case Reject =>
  }

  /**
    Successive Recv calls on any stream of complete frames return exactly what
    the simple parser yields, and then go on with whatever follows the frames.
   */
  lemma {:induction false} ReceiveIsSplitDecodeDrop(fs: seq<Frame>, tail: seq<byte>, open: Opener)
    requires Receivable(fs)
    ensures Receive(Wire(fs) + tail, open) == DecodeAll(fs, open, Receive(tail, open))
  {
    if fs == [] {
      assert Wire(fs) + tail == tail;
    } else {
      WireCons(fs, tail);
      ReceiveStep(fs[0], Wire(fs[1..]) + tail, open);
      ReceiveIsSplitDecodeDrop(fs[1..], tail, open);
      assert [fs[0]][1..] == [];
    }
  }

  /** The messages a server can put in one frame (server info travels sealed). */
  predicate Sendable(m: Message) {
    match m
    case ServerInfo(_) => false
    case ServerRestarting(a, b) =>
      a % MILLISECOND == 0 && a / MILLISECOND < 0x1_0000_0000 && b % MILLISECOND == 0 && b / MILLISECOND < 0x1_0000_0000
    case ReceivedPacket(_, data) => |data| <= MAX_PACKET_SIZE
    case Health(p) => |p| <= MAX_RECV_FRAME
    case _ => true
  }

  /** The frame the server sends for m; a packet from the zero key goes without a source. */
  function ServerFrame(m: Message): (f: Frame)
    requires Sendable(m)
    ensures |f.body| <= MAX_RECV_FRAME
  {
    match m
    case ReceivedPacket(src, data) => Frame(FRAME_RECV_PACKET, if src == Zeros(KEY_LEN) then data else src + data)
    case PeerGone(peer, reason) => Frame(FRAME_PEER_GONE, peer + [reason])
    case PeerPresent(key, ipPort, flags) => Frame(FRAME_PEER_PRESENT, key + PutEndpoint(ipPort) + [flags])
    case Ping(d) => Frame(FRAME_PING, d)
    case Pong(d) => Frame(FRAME_PONG, d)
    case KeepAlive => Frame(FRAME_KEEP_ALIVE, [])
    case Health(p) => Frame(FRAME_HEALTH, p)
    case ServerRestarting(a, b) => Frame(FRAME_RESTARTING, Put32(a / MILLISECOND) + Put32(b / MILLISECOND))
  }

  /** What survives the trip: packets with a real source, peers with a canonical address. */
  predicate Faithful(m: Message) {
    match m
    case ReceivedPacket(src, _) => src != Zeros(KEY_LEN)
    case PeerPresent(_, ipPort, _) => Canonical(ipPort.addr)
    case _ => true
  }

  lemma CutUndoesAppend(a: seq<byte>, b: seq<byte>)
    ensures CutLeadingN(a + b, |a|) == (a, b, true)
  {
    TakeDrop(a, b);
  }

  lemma DecodePeerPresentFields(key: Key, ep: seq<byte>, flags: byte)
    requires |ep| == EP_LENGTH
    ensures DecodePeerPresent(key + ep + [flags]) == Deliver(PeerPresent(key, GetEndpoint(ep), flags))
  {
    AppendAssoc(key, ep, [flags]);
    CutUndoesAppend(key, ep + [flags]);
    CutUndoesAppend(ep, [flags]);
  }

  lemma RestartingRoundTrip(a: nat, b: nat, open: Opener)
    requires Sendable(ServerRestarting(a, b))
    ensures Decode(ServerFrame(ServerRestarting(a, b)), open) == Deliver(ServerRestarting(a, b))
  {
    var p, q := Put32(a / MILLISECOND), Put32(b / MILLISECOND);
    TakeDrop(p, q);
    assert (p + q)[0..4] == p && (p + q)[4..8] == q;
    IntegersRoundTrip(0, a / MILLISECOND, 0, 0);
    IntegersRoundTrip(0, b / MILLISECOND, 0, 0);
  }

  /** The client decodes a server frame back to the message it stands for exactly when m is faithful. */
  lemma DecodeUndoesServer(m: Message, open: Opener)
    requires Sendable(m)
    ensures Decode(ServerFrame(m), open) == Deliver(m) <==> Faithful(m)
  {
    match m
    case ReceivedPacket(src, data) => TakeDrop(src, data);
    case PeerGone(peer, reason) => TakeDrop(peer, [reason]);
    case PeerPresent(key, ipPort, flags) =>
      DecodePeerPresentFields(key, PutEndpoint(ipPort), flags);
      EndpointRoundTrip(ipPort);
    case Ping(d) => Nothing(d);
    case Pong(d) => Nothing(d);
    case ServerRestarting(a, b) => RestartingRoundTrip(a, b, open);
    case _ =>
  }

  function ServerFrames(ms: seq<Message>): (fs: seq<Frame>)
    requires forall i :: 0 <= i < |ms| ==> Sendable(ms[i])
    ensures Receivable(fs)
  {
    if ms == [] then [] else [ServerFrame(ms[0])] + ServerFrames(ms[1..])
  }

  /** End to end: a client reading a server's stream receives exactly what was sent, in order. */
  lemma {:induction false} ClientReceivesWhatServerSent(ms: seq<Message>, open: Opener)
    requires forall i :: 0 <= i < |ms| ==> Sendable(ms[i]) && Faithful(ms[i])
    ensures Receive(Wire(ServerFrames(ms)), open) == Session(ms, Ended)
  {
    var fs, end := ServerFrames(ms), Receive([], open);
    ReceiveIsSplitDecodeDrop(fs, [], open);
    assert Wire(fs) + [] == Wire(fs);
    if ms != [] {
      ClientReceivesWhatServerSent(ms[1..], open);
      ReceiveIsSplitDecodeDrop(fs[1..], [], open);
      assert Wire(fs[1..]) + [] == Wire(fs[1..]);
      DecodeUndoesServer(ms[0], open);
      assert fs[1..] == ServerFrames(ms[1..]);
    }
  }
}
