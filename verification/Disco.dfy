/**
  The discovery messages and their wire form: what Parse accepts, what
  AppendMarshal emits, and exactly when each undoes the other.
 */
module Disco {
  import opened ByteCodec
  import opened NetAddr
  import opened Seqs

  const KEY_LEN := 32
  const TX_LEN := 12

  type Key = k: seq<byte> | |k| == 32 witness Zeros(32)
  type TxID = t: seq<byte> | |t| == 12 witness Zeros(12)

  const ZERO_KEY: Key := Zeros(32)

  datatype BindCommon = BindCommon(vni: uint32, generation: uint32, remoteKey: Key, challenge: Key)

  datatype RelayEndpoint = RelayEndpoint(
    serverDisco: Key, clientDisco0: Key, clientDisco1: Key,
    lamportID: uint64, vni: uint32, bindLifetime: int64, steadyStateLifetime: int64,
    addrPorts: seq<AddrPort>)

  datatype Message =
    | Ping(pingTx: TxID, nodeKey: Key, padding: nat)
    | Pong(pongTx: TxID, src: AddrPort)
    | CallMeMaybe(myNumber: seq<AddrPort>)
    | BindEndpoint(bind: BindCommon)
    | BindChallenge(challenge: BindCommon)
    | BindAnswer(answer: BindCommon)
    | CallMeMaybeVia(via: RelayEndpoint)
    | AllocateRequest(client0: Key, client1: Key, requestGen: uint32)
    | AllocateResponse(responseGen: uint32, endpoint: RelayEndpoint)

  const TYPE_PING: byte := 1
  const TYPE_PONG: byte := 2
  const TYPE_CALL_ME_MAYBE: byte := 3
  const TYPE_BIND: byte := 4
  const TYPE_CHALLENGE: byte := 5
  const TYPE_ANSWER: byte := 6
  const TYPE_VIA: byte := 7
  const TYPE_ALLOC_REQUEST: byte := 8
  const TYPE_ALLOC_RESPONSE: byte := 9

  const PONG_LEN := 30
  const BIND_LEN := 72
  const ALLOC_REQUEST_LEN := 68
  const RELAY_FIXED_LEN := 124

  // ----- marshalling

  function PutEndpoints(eps: seq<AddrPort>): (b: seq<byte>)
    ensures |b| == EP_LENGTH * |eps|
  {
    if eps == [] then [] else PutEndpoint(eps[0]) + PutEndpoints(eps[1..])
  }

  function PutBind(c: BindCommon): (b: seq<byte>)
    ensures |b| == BIND_LEN
  {
    Put32(c.vni) + (Put32(c.generation) + (c.remoteKey + c.challenge))
  }

  function PutRelay(e: RelayEndpoint): (b: seq<byte>)
    ensures |b| == RELAY_FIXED_LEN + EP_LENGTH * |e.addrPorts|
  {
    e.serverDisco + (e.clientDisco0 + (e.clientDisco1 + (Put64(e.lamportID) + (Put32(e.vni) +
    (Put64(ToUint64(e.bindLifetime)) + (Put64(ToUint64(e.steadyStateLifetime)) + PutEndpoints(e.addrPorts)))))))
  }

  function PingKey(k: Key): seq<byte> {
    if k == ZERO_KEY then [] else k
  }

  function TypeOf(m: Message): byte {
    match m
    case Ping(_, _, _) => TYPE_PING
    case Pong(_, _) => TYPE_PONG
    case CallMeMaybe(_) => TYPE_CALL_ME_MAYBE
    case BindEndpoint(_) => TYPE_BIND
    case BindChallenge(_) => TYPE_CHALLENGE
    case BindAnswer(_) => TYPE_ANSWER
    case CallMeMaybeVia(_) => TYPE_VIA
    case AllocateRequest(_, _, _) => TYPE_ALLOC_REQUEST
    case AllocateResponse(_, _) => TYPE_ALLOC_RESPONSE
  }

  function Payload(m: Message): seq<byte> {
    match m
    case Ping(tx, key, padding) => tx + (PingKey(key) + Zeros(padding))
    case Pong(tx, src) => tx + PutEndpoint(src)
    case CallMeMaybe(eps) => PutEndpoints(eps)
    case BindEndpoint(c) => PutBind(c)
    case BindChallenge(c) => PutBind(c)
    case BindAnswer(c) => PutBind(c)
    case CallMeMaybeVia(e) => PutRelay(e)
    case AllocateRequest(a, b, gen) => a + (b + Put32(gen))
    case AllocateResponse(gen, e) => Put32(gen) + PutRelay(e)
  }

  /** A message on the wire: type, version 0, payload. */
  function Marshal(m: Message): seq<byte> {
    [TypeOf(m), 0] + Payload(m)
  }

  // ----- parsing

  datatype ParseError = ShortMessage | UnknownType(t: byte)

  type Parsed = Result<Message, ParseError>

  function GetEndpoints(b: seq<byte>): (eps: seq<AddrPort>)
    requires |b| % EP_LENGTH == 0
    ensures |eps| * EP_LENGTH == |b|
  {
    if b == [] then [] else [GetEndpoint(b[..EP_LENGTH])] + GetEndpoints(b[EP_LENGTH..])
  }

  function GetBind(b: seq<byte>): BindCommon
    requires |b| >= BIND_LEN
  {
    var b1 := b[4..];
    var b2 := b1[4..];
    var b3 := b2[KEY_LEN..];
    BindCommon(Get32(b[..4]), Get32(b1[..4]), b2[..KEY_LEN], b3[..KEY_LEN])
  }

  predicate RelayLenOk(n: int) {
    n >= RELAY_FIXED_LEN + EP_LENGTH && (n - RELAY_FIXED_LEN) % EP_LENGTH == 0
  }

  function GetRelay(b: seq<byte>): RelayEndpoint
    requires RelayLenOk(|b|)
  {
    var b1 := b[KEY_LEN..];
    var b2 := b1[KEY_LEN..];
    var b3 := b2[KEY_LEN..];
    var b4 := b3[8..];
    var b5 := b4[4..];
    var b6 := b5[8..];
    var b7 := b6[8..];
    RelayEndpoint(b[..KEY_LEN], b1[..KEY_LEN], b2[..KEY_LEN], Get64(b3[..8]), Get32(b4[..4]),
                  ToInt64(Get64(b5[..8])), ToInt64(Get64(b6[..8])), GetEndpoints(b7))
  }

  const NO_RELAY := RelayEndpoint(ZERO_KEY, ZERO_KEY, ZERO_KEY, 0, 0, 0, 0, [])

  function ParsePing(p: seq<byte>): Parsed {
    if |p| < TX_LEN then Err(ShortMessage)
    else
      var rest := p[TX_LEN..];
      if |rest| >= KEY_LEN then Ok(Ping(p[..TX_LEN], rest[..KEY_LEN], |p| - TX_LEN - KEY_LEN))
      else Ok(Ping(p[..TX_LEN], ZERO_KEY, |p| - TX_LEN))
  }

  function ParsePong(p: seq<byte>): Parsed {
    if |p| < PONG_LEN then Err(ShortMessage)
    else Ok(Pong(p[..TX_LEN], GetEndpoint(p[TX_LEN..][..EP_LENGTH])))
  }

  function ParseCallMeMaybe(ver: byte, p: seq<byte>): Parsed {
    if |p| % EP_LENGTH != 0 || ver != 0 || |p| == 0 then Ok(CallMeMaybe([]))
    else Ok(CallMeMaybe(GetEndpoints(p)))
  }

  function ParseBind(t: byte, p: seq<byte>): Parsed {
    if |p| < BIND_LEN then Err(ShortMessage)
    else if t == TYPE_BIND then Ok(BindEndpoint(GetBind(p)))
    else if t == TYPE_CHALLENGE then Ok(BindChallenge(GetBind(p)))
    else Ok(BindAnswer(GetBind(p)))
  }

  function ParseVia(ver: byte, p: seq<byte>): Parsed {
    if ver != 0 then Ok(CallMeMaybeVia(NO_RELAY))
    else if !RelayLenOk(|p|) then Err(ShortMessage)
    else Ok(CallMeMaybeVia(GetRelay(p)))
  }

  function ParseAllocateRequest(ver: byte, p: seq<byte>): Parsed {
    if ver != 0 then Ok(AllocateRequest(ZERO_KEY, ZERO_KEY, 0))
    else if |p| < ALLOC_REQUEST_LEN then Err(ShortMessage)
    else
      var p1 := p[KEY_LEN..];
      var p2 := p1[KEY_LEN..];
      Ok(AllocateRequest(p[..KEY_LEN], p1[..KEY_LEN], Get32(p2[..4])))
  }

  function ParseAllocateResponse(ver: byte, p: seq<byte>): Parsed {
    if ver != 0 then Ok(AllocateResponse(0, NO_RELAY))
    else if |p| < 4 || !RelayLenOk(|p| - 4) then Err(ShortMessage)
    else Ok(AllocateResponse(Get32(p[..4]), GetRelay(p[4..])))
  }

  function ParsePayload(t: byte, ver: byte, p: seq<byte>): Parsed {
    if t == TYPE_PING then ParsePing(p)
    else if t == TYPE_PONG then ParsePong(p)
    else if t == TYPE_CALL_ME_MAYBE then ParseCallMeMaybe(ver, p)
    else if t == TYPE_BIND || t == TYPE_CHALLENGE || t == TYPE_ANSWER then ParseBind(t, p)
    else if t == TYPE_VIA then ParseVia(ver, p)
    else if t == TYPE_ALLOC_REQUEST then ParseAllocateRequest(ver, p)
    else if t == TYPE_ALLOC_RESPONSE then ParseAllocateResponse(ver, p)
    else Err(UnknownType(t))
  }

  function Parse(p: seq<byte>): Parsed {
    if |p| < 2 then Err(ShortMessage) else ParsePayload(p[0], p[1], p[2..])
  }

  // ----- round trips

  predicate AllCanonical(eps: seq<AddrPort>) {
    forall i :: 0 <= i < |eps| ==> Canonical(eps[i].addr)
  }

  /** The messages that survive the wire. */
  predicate Faithful(m: Message) {
    match m
    case Ping(_, key, padding) => key != ZERO_KEY || padding < KEY_LEN
    case Pong(_, src) => Canonical(src.addr)
    case CallMeMaybe(eps) => AllCanonical(eps)
    case CallMeMaybeVia(e) => e.addrPorts != [] && AllCanonical(e.addrPorts)
    case AllocateResponse(_, e) => e.addrPorts != [] && AllCanonical(e.addrPorts)
    case _ => true
  }

  lemma GetEndpointsStep(e: seq<byte>, rest: seq<byte>)
    requires |e| == EP_LENGTH && |rest| % EP_LENGTH == 0
    ensures GetEndpoints(e + rest) == [GetEndpoint(e)] + GetEndpoints(rest)
  {
    TakeDrop(e, rest);
  }

  lemma {:induction false} EndpointsRoundTrip(eps: seq<AddrPort>)
    ensures GetEndpoints(PutEndpoints(eps)) == eps <==> AllCanonical(eps)
  {
    if eps != [] {
      var e, rest := PutEndpoint(eps[0]), PutEndpoints(eps[1..]);
      GetEndpointsStep(e, rest);
      EndpointRoundTrip(eps[0]);
      EndpointsRoundTrip(eps[1..]);
      HeadTail(eps);
      ConsEqual(GetEndpoint(e), GetEndpoints(rest), eps[0], eps[1..]);
      assert AllCanonical(eps) <==> Canonical(eps[0].addr) && AllCanonical(eps[1..]);
    }
  }

  lemma BindRoundTrip(c: BindCommon)
    ensures GetBind(PutBind(c)) == c
  {
    TakeDrop(c.remoteKey, c.challenge);
    TakeDrop(Put32(c.generation), c.remoteKey + c.challenge);
    TakeDrop(Put32(c.vni), Put32(c.generation) + (c.remoteKey + c.challenge));
    Nothing(c.challenge);
    IntegersRoundTrip(0, c.vni, 0, 0);
    IntegersRoundTrip(0, c.generation, 0, 0);
  }

  /** The three keys in front, and what follows them. */
  lemma RelayKeys(k0: Key, k1: Key, k2: Key, rest: seq<byte>)
    ensures var b := k0 + (k1 + (k2 + rest));
            && b[..KEY_LEN] == k0
            && b[KEY_LEN..][..KEY_LEN] == k1
            && b[KEY_LEN..][KEY_LEN..][..KEY_LEN] == k2
            && b[KEY_LEN..][KEY_LEN..][KEY_LEN..] == rest
  {
    TakeDrop(k0, k1 + (k2 + rest));
    TakeDrop(k1, k2 + rest);
    TakeDrop(k2, rest);
  }

  /** The four numbers after the keys, and what follows them. */
  lemma RelayNumbers(a: seq<byte>, b: seq<byte>, c: seq<byte>, d: seq<byte>, rest: seq<byte>)
    requires |a| == 8 && |b| == 4 && |c| == 8 && |d| == 8
    ensures var n := a + (b + (c + (d + rest)));
            && n[..8] == a
            && n[8..][..4] == b
            && n[8..][4..][..8] == c
            && n[8..][4..][8..][..8] == d
            && n[8..][4..][8..][8..] == rest
  {
    TakeDrop(a, b + (c + (d + rest)));
    TakeDrop(b, c + (d + rest));
    TakeDrop(c, d + rest);
    TakeDrop(d, rest);
  }

  lemma RelayFields(k0: Key, k1: Key, k2: Key, a: seq<byte>, b: seq<byte>, c: seq<byte>, d: seq<byte>, eps: seq<byte>)
    requires |a| == 8 && |b| == 4 && |c| == 8 && |d| == 8 && |eps| >= EP_LENGTH && |eps| % EP_LENGTH == 0
    ensures GetRelay(k0 + (k1 + (k2 + (a + (b + (c + (d + eps))))))) ==
            RelayEndpoint(k0, k1, k2, Get64(a), Get32(b), ToInt64(Get64(c)), ToInt64(Get64(d)), GetEndpoints(eps))
  {
    RelayKeys(k0, k1, k2, a + (b + (c + (d + eps))));
    RelayNumbers(a, b, c, d, eps);
  }

  lemma WholeEndpoints(n: nat)
    ensures (EP_LENGTH * n) % EP_LENGTH == 0
    ensures RelayLenOk(RELAY_FIXED_LEN + EP_LENGTH * n) <==> n > 0
  {
  }

  lemma RelayRoundTrip(e: RelayEndpoint)
    ensures RelayLenOk(|PutRelay(e)|) <==> e.addrPorts != []
    ensures e.addrPorts != [] ==> (GetRelay(PutRelay(e)) == e <==> AllCanonical(e.addrPorts))
  {
    WholeEndpoints(|e.addrPorts|);
    if e.addrPorts != [] {
      RelayFields(e.serverDisco, e.clientDisco0, e.clientDisco1, Put64(e.lamportID), Put32(e.vni),
                  Put64(ToUint64(e.bindLifetime)), Put64(ToUint64(e.steadyStateLifetime)), PutEndpoints(e.addrPorts));
      IntegersRoundTrip(0, e.vni, e.lamportID, e.bindLifetime);
      IntegersRoundTrip(0, 0, 0, e.steadyStateLifetime);
      EndpointsRoundTrip(e.addrPorts);
    }
  }

  lemma ResponseFields(gen: uint32, r: seq<byte>)
    ensures ParseAllocateResponse(0, Put32(gen) + r) ==
            if RelayLenOk(|r|) then Ok(AllocateResponse(gen, GetRelay(r))) else Err(ShortMessage)
  {
    TakeDrop(Put32(gen), r);
    IntegersRoundTrip(0, gen, 0, 0);
  }

  /** What is to be shown of every message. */
  predicate Returns(m: Message) {
    ParsePayload(TypeOf(m), 0, Payload(m)) == Ok(m) <==> Faithful(m)
  }

  lemma PingRoundTrip(tx: TxID, key: Key, padding: nat)
    ensures Returns(Ping(tx, key, padding))
  {
    TakeDrop(tx, PingKey(key) + Zeros(padding));
    TakeDrop(PingKey(key), Zeros(padding));
  }

  lemma PongRoundTrip(tx: TxID, src: AddrPort)
    ensures Returns(Pong(tx, src))
  {
    TakeDrop(tx, PutEndpoint(src));
    Nothing(PutEndpoint(src));
    EndpointRoundTrip(src);
    assert ParsePong(Payload(Pong(tx, src))) == Ok(Pong(tx, GetEndpoint(PutEndpoint(src))));
  }

  lemma CallMeMaybeRoundTrip(eps: seq<AddrPort>)
    ensures Returns(CallMeMaybe(eps))
  {
    EndpointsRoundTrip(eps);
    WholeEndpoints(|eps|);
  }

  lemma BindMessagesRoundTrip(c: BindCommon)
    ensures Returns(BindEndpoint(c)) && Returns(BindChallenge(c)) && Returns(BindAnswer(c))
  {
    BindRoundTrip(c);
  }

  lemma ViaRoundTrip(e: RelayEndpoint)
    ensures Returns(CallMeMaybeVia(e))
  {
    RelayRoundTrip(e);
  }

  lemma RequestRoundTrip(a: Key, b: Key, gen: uint32)
    ensures Returns(AllocateRequest(a, b, gen))
  {
    TakeDrop(a, b + Put32(gen));
    TakeDrop(b, Put32(gen));
    Nothing(Put32(gen));
    IntegersRoundTrip(0, gen, 0, 0);
  }

  lemma ResponseRoundTrip(gen: uint32, e: RelayEndpoint)
    ensures Returns(AllocateResponse(gen, e))
  {
    ResponseFields(gen, PutRelay(e));
    RelayRoundTrip(e);
  }

  lemma PayloadRoundTrip(m: Message)
    ensures Returns(m)
  {
    match m
    case Ping(tx, key, padding) => PingRoundTrip(tx, key, padding);
    case Pong(tx, src) => PongRoundTrip(tx, src);
    case CallMeMaybe(eps) => CallMeMaybeRoundTrip(eps);
    case BindEndpoint(c) => BindMessagesRoundTrip(c);
    case BindChallenge(c) => BindMessagesRoundTrip(c);
    case BindAnswer(c) => BindMessagesRoundTrip(c);
    case CallMeMaybeVia(e) => ViaRoundTrip(e);
    case AllocateRequest(a, b, gen) => RequestRoundTrip(a, b, gen);
    case AllocateResponse(gen, e) => ResponseRoundTrip(gen, e);
  }

  /** Parsing a marshalled message gives the message back exactly when it is faithful. */
  lemma ParseUndoesMarshal(m: Message)
    ensures Parse(Marshal(m)) == Ok(m) <==> Faithful(m)
  {
    TakeDrop([TypeOf(m), 0], Payload(m));
    PayloadRoundTrip(m);
  }

  lemma {:induction false} DecodedEndpointsCanonical(b: seq<byte>)
    requires |b| % EP_LENGTH == 0
    ensures AllCanonical(GetEndpoints(b))
  {
    if b != [] {
      DecodedEndpointsCanonical(b[EP_LENGTH..]);
      DecodedAddrCanonical(b[..EP_LENGTH][..16]);
    }
  }

  /**
    The accepted bytes whose message does not survive: long pings with a zero
    key, relay messages of another version.
   */
  predicate Unstable(p: seq<byte>)
    requires |p| >= 2
  {
    || (p[0] == TYPE_PING && |p| >= 2 + TX_LEN + 2 * KEY_LEN && p[2 + TX_LEN..2 + TX_LEN + KEY_LEN] == ZERO_KEY)
    || ((p[0] == TYPE_VIA || p[0] == TYPE_ALLOC_RESPONSE) && p[1] != 0)
  }

  lemma ParsedPing(p: seq<byte>)
    requires Parse(p).Ok? && p[0] == TYPE_PING
    ensures Faithful(Parse(p).value) <==> !Unstable(p)
  {
    if |p| >= 2 + TX_LEN + KEY_LEN {
      assert p[2..][TX_LEN..][..KEY_LEN] == p[2 + TX_LEN..2 + TX_LEN + KEY_LEN];
    }
  }

  lemma ParsedRelay(p: seq<byte>)
    requires Parse(p).Ok? && (p[0] == TYPE_VIA || p[0] == TYPE_ALLOC_RESPONSE)
    ensures Faithful(Parse(p).value) <==> !Unstable(p)
  {
    if p[1] == 0 {
      DecodedRelayFaithful(if p[0] == TYPE_VIA then p[2..] else p[2..][4..]);
    }
  }

  lemma ParsedOther(p: seq<byte>)
    requires Parse(p).Ok? && p[0] != TYPE_PING && p[0] != TYPE_VIA && p[0] != TYPE_ALLOC_RESPONSE
    ensures Faithful(Parse(p).value) <==> !Unstable(p)
  {
    var m, t, body := Parse(p).value, p[0], p[2..];
    if t == TYPE_PONG {
      DecodedAddrCanonical(body[TX_LEN..][..EP_LENGTH][..16]);
    } else if t == TYPE_CALL_ME_MAYBE && m.myNumber != [] {
      DecodedEndpointsCanonical(body);
    }
  }

  /**
    Parsing, marshalling and parsing again gives the same message, except for
    two kinds of accepted bytes: pings of 78 bytes or more whose 32 key bytes are
    zero, and relay messages of an unknown version.
   */
  lemma ReparseStable(p: seq<byte>)
    requires Parse(p).Ok?
    ensures Parse(Marshal(Parse(p).value)) == Parse(p) <==> !Unstable(p)
  {
    ParseUndoesMarshal(Parse(p).value);
    if p[0] == TYPE_PING {
      ParsedPing(p);
    } else if p[0] == TYPE_VIA || p[0] == TYPE_ALLOC_RESPONSE {
      ParsedRelay(p);
    } else {
      ParsedOther(p);
    }
  }

  lemma DecodedRelayFaithful(b: seq<byte>)
    requires RelayLenOk(|b|)
    ensures GetRelay(b).addrPorts != [] && AllCanonical(GetRelay(b).addrPorts)
  {
    var eps := b[KEY_LEN..][KEY_LEN..][KEY_LEN..][8..][4..][8..][8..];
    assert |eps| == |b| - RELAY_FIXED_LEN;
    DecodedEndpointsCanonical(eps);
  }
}
