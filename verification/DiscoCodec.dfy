/**
  The discovery encoders and decoders as they run: one buffer grown once and
  filled in place, endpoint lists read in a loop.
 */
module DiscoCodec {
  import opened ByteCodec
  import opened NetAddr
  import opened Seqs
  import opened Disco

  /** appendMsgHeader: b, the type, the version and dataLen zero bytes; data says where those start. */
  method AppendMsgHeader(b: seq<byte>, t: byte, ver: byte, dataLen: nat) returns (all: array<byte>, data: nat)
    ensures fresh(all) && all.Length == |b| + 2 + dataLen && data == |b| + 2
    ensures all[..data] == b + [t, ver]
    ensures forall i :: data <= i < all.Length ==> all[i] == 0
  {
    var init := b + [t, ver] + Zeros(dataLen);
    all := new byte[|b| + 2 + dataLen](i requires 0 <= i < |init| => init[i]);
    data := |b| + 2;
    assert all[..] == init;
    TakeDrop(b + [t, ver], Zeros(dataLen));
    assert all[..data] == init[..data];
  }

  /** Writes s at an offset and moves past it. */
  method CopyAt(all: array<byte>, at: nat, s: seq<byte>) returns (next: nat)
    requires at + |s| <= all.Length
    modifies all
    ensures next == at + |s|
    ensures all[..next] == old(all[..at]) + s
    ensures forall i :: next <= i < all.Length ==> all[i] == old(all[i])
  {
    forall i | 0 <= i < |s| {
      all[at + i] := s[i];
    }
    next := at + |s|;
  }

  method EncodeEndpoints(all: array<byte>, at: nat, eps: seq<AddrPort>) returns (next: nat)
    requires at + EP_LENGTH * |eps| <= all.Length
    modifies all
    ensures next == at + EP_LENGTH * |eps|
    ensures all[..next] == old(all[..at]) + PutEndpoints(eps)
  {
    next := at;
    ghost var whole := all[..at] + PutEndpoints(eps);
    for i := 0 to |eps|
      invariant next == at + EP_LENGTH * i
      invariant all[..next] + PutEndpoints(eps[i..]) == whole
    {
      ghost var before, rest := all[..next], PutEndpoints(eps[i + 1..]);
      assert eps[i..][1..] == eps[i + 1..];
      AppendAssoc(before, PutEndpoint(eps[i]), rest);
      AppendAssoc(before, As16(eps[i].addr), Put16(eps[i].port));
      next := CopyAt(all, next, As16(eps[i].addr));
      next := CopyAt(all, next, Put16(eps[i].port));
    }
    assert eps[|eps|..] == [];
    Nothing(all[..next]);
  }

  method EncodeBind(all: array<byte>, at: nat, c: BindCommon) returns (next: nat)
    requires at + BIND_LEN <= all.Length
    modifies all
    ensures next == at + BIND_LEN
    ensures all[..next] == old(all[..at]) + PutBind(c)
  {
    ghost var d := all[..at];
    ghost var r := c.remoteKey + c.challenge;
    AppendAssoc(d, Put32(c.vni), Put32(c.generation) + r);
    AppendAssoc(d + Put32(c.vni), Put32(c.generation), r);
    AppendAssoc(d + Put32(c.vni) + Put32(c.generation), c.remoteKey, c.challenge);
    next := CopyAt(all, at, Put32(c.vni));
    next := CopyAt(all, next, Put32(c.generation));
    next := CopyAt(all, next, c.remoteKey);
    next := CopyAt(all, next, c.challenge);
  }

  method EncodeRelay(all: array<byte>, at: nat, e: RelayEndpoint) returns (next: nat)
    requires at + RELAY_FIXED_LEN + EP_LENGTH * |e.addrPorts| <= all.Length
    modifies all
    ensures next == at + RELAY_FIXED_LEN + EP_LENGTH * |e.addrPorts|
    ensures all[..next] == old(all[..at]) + PutRelay(e)
  {
    var lamport, vni := Put64(e.lamportID), Put32(e.vni);
    var bind, steady := Put64(ToUint64(e.bindLifetime)), Put64(ToUint64(e.steadyStateLifetime));
    EightPieces(all[..at], e.serverDisco, e.clientDisco0, e.clientDisco1, lamport, vni, bind, steady,
                PutEndpoints(e.addrPorts));
    next := CopyAt(all, at, e.serverDisco);
    next := CopyAt(all, next, e.clientDisco0);
    next := CopyAt(all, next, e.clientDisco1);
    next := CopyAt(all, next, lamport);
    next := CopyAt(all, next, vni);
    next := CopyAt(all, next, bind);
    next := CopyAt(all, next, steady);
    next := EncodeEndpoints(all, next, e.addrPorts);
  }

  lemma EightPieces<T>(d: seq<T>, a: seq<T>, b: seq<T>, c: seq<T>, e: seq<T>, f: seq<T>, g: seq<T>, h: seq<T>,
                       i: seq<T>)
    ensures d + a + b + c + e + f + g + h + i == d + (a + (b + (c + (e + (f + (g + (h + i)))))))
  {
    AppendAssoc(d + a + b + c + e + f + g, h, i);
    AppendAssoc(d + a + b + c + e + f, g, h + i);
    AppendAssoc(d + a + b + c + e, f, g + (h + i));
    AppendAssoc(d + a + b + c, e, f + (g + (h + i)));
    AppendAssoc(d + a + b, c, e + (f + (g + (h + i))));
    AppendAssoc(d + a, b, c + (e + (f + (g + (h + i)))));
    AppendAssoc(d, a, b + (c + (e + (f + (g + (h + i))))));
  }

  method AppendPing(b: seq<byte>, tx: TxID, key: Key, padding: nat) returns (ret: seq<byte>)
    ensures ret == b + Marshal(Ping(tx, key, padding))
  {
    var dataLen := TX_LEN;
    var hasKey := key != ZERO_KEY;
    if hasKey {
      dataLen := dataLen + KEY_LEN;
    }
    var all, n := AppendMsgHeader(b, TYPE_PING, 0, dataLen + padding);
    ghost var head := b + [TYPE_PING, 0];
    n := CopyAt(all, n, tx);
    if hasKey {
      n := CopyAt(all, n, key);
    }
    assert all[n..] == Zeros(padding);
    assert all[..] == all[..n] + all[n..];
    AppendAssoc(b, [TYPE_PING, 0], Payload(Ping(tx, key, padding)));
    AppendAssoc(head, tx, PingKey(key) + Zeros(padding));
    AppendAssoc(head + tx, PingKey(key), Zeros(padding));
    Nothing(head + tx);
    ret := all[..];
  }

  /** AppendMarshal: the message's wire form right behind whatever the buffer held. */
  method AppendMarshal(m: Message, b: seq<byte>) returns (ret: seq<byte>)
    ensures ret == b + Marshal(m)
  {
    AppendAssoc(b, [TypeOf(m), 0], Payload(m));
    match m
    case Ping(tx, key, padding) =>
      ret := AppendPing(b, tx, key, padding);
    case Pong(tx, src) =>
      var all, n := AppendMsgHeader(b, TYPE_PONG, 0, PONG_LEN);
      FourPieces(all[..n], tx, As16(src.addr), Put16(src.port));
      n := CopyAt(all, n, tx);
      n := CopyAt(all, n, As16(src.addr));
      n := CopyAt(all, n, Put16(src.port));
      ret := Filled(all, n);
    case CallMeMaybe(eps) =>
      var all, n := AppendMsgHeader(b, TYPE_CALL_ME_MAYBE, 0, EP_LENGTH * |eps|);
      n := EncodeEndpoints(all, n, eps);
      ret := Filled(all, n);
    case BindEndpoint(c) =>
      var all, n := AppendMsgHeader(b, TYPE_BIND, 0, BIND_LEN);
      n := EncodeBind(all, n, c);
      ret := Filled(all, n);
    case BindChallenge(c) =>
      var all, n := AppendMsgHeader(b, TYPE_CHALLENGE, 0, BIND_LEN);
      n := EncodeBind(all, n, c);
      ret := Filled(all, n);
    case BindAnswer(c) =>
      var all, n := AppendMsgHeader(b, TYPE_ANSWER, 0, BIND_LEN);
      n := EncodeBind(all, n, c);
      ret := Filled(all, n);
    case CallMeMaybeVia(e) =>
      var all, n := AppendMsgHeader(b, TYPE_VIA, 0, RELAY_FIXED_LEN + EP_LENGTH * |e.addrPorts|);
      n := EncodeRelay(all, n, e);
      ret := Filled(all, n);
    case AllocateRequest(c0, c1, gen) =>
      var all, n := AppendMsgHeader(b, TYPE_ALLOC_REQUEST, 0, ALLOC_REQUEST_LEN);
      FourPieces(all[..n], c0, c1, Put32(gen));
      AppendAssoc(c0, c1, Put32(gen));
      n := CopyAt(all, n, c0);
      n := CopyAt(all, n, c1);
      n := CopyAt(all, n, Put32(gen));
      ret := Filled(all, n);
    case AllocateResponse(gen, e) =>
      var all, n := AppendMsgHeader(b, TYPE_ALLOC_RESPONSE, 0, 4 + RELAY_FIXED_LEN + EP_LENGTH * |e.addrPorts|);
      AppendAssoc(all[..n], Put32(gen), PutRelay(e));
      n := CopyAt(all, n, Put32(gen));
      n := EncodeRelay(all, n, e);
      ret := Filled(all, n);
  }

  method Filled(all: array<byte>, n: nat) returns (ret: seq<byte>)
    requires n == all.Length
    ensures ret == all[..n]
  {
    ret := all[..];
  }

  /** The loop both list decoders share; the slice made for it never has to grow. */
  method ReadEndpoints(p: seq<byte>, capacity: int) returns (eps: seq<AddrPort>)
    requires |p| % EP_LENGTH == 0 && capacity >= |p| / EP_LENGTH
    ensures eps == GetEndpoints(p) && |eps| <= capacity
  {
    eps := [];
    var rest := p;
    while |rest| > 0
      invariant |rest| % EP_LENGTH == 0
      invariant eps + GetEndpoints(rest) == GetEndpoints(p)
      decreases |rest|
    {
      ghost var before := eps;
      AppendAssoc(eps, [GetEndpoint(rest[..EP_LENGTH])], GetEndpoints(rest[EP_LENGTH..]));
      assert rest[..16] == rest[..EP_LENGTH][..16] && rest[16..EP_LENGTH] == rest[..EP_LENGTH][16..];
      eps := eps + [AddrPort(Unmap(From16(rest[..16])), Get16(rest[16..EP_LENGTH]))];
      rest := rest[EP_LENGTH..];
    }
    Nothing(eps);
  }

  method ParseCallMeMaybeLoop(ver: byte, p: seq<byte>) returns (m: Message)
    ensures Ok(m) == ParseCallMeMaybe(ver, p)
  {
    if |p| % EP_LENGTH != 0 || ver != 0 || |p| == 0 {
      return CallMeMaybe([]);
    }
    var eps := ReadEndpoints(p, |p| / EP_LENGTH);
    return CallMeMaybe(eps);
  }

  /**
    UDPRelayEndpoint.decode.  The capacity it computes divides only the constant,
    not the difference; it is still never negative and always large enough.
   */
  method DecodeRelay(bytes: seq<byte>) returns (res: Option<RelayEndpoint>)
    ensures res == if RelayLenOk(|bytes|) then Some(GetRelay(bytes)) else None
  {
    var b := bytes;
    if |b| < RELAY_FIXED_LEN + EP_LENGTH || (|b| - RELAY_FIXED_LEN) % EP_LENGTH != 0 {
      return None;
    }
    var server := b[..KEY_LEN];
    b := b[KEY_LEN..];
    var client0 := b[..KEY_LEN];
    b := b[KEY_LEN..];
    var client1 := b[..KEY_LEN];
    b := b[KEY_LEN..];
    var lamport := Get64(b[..8]);
    b := b[8..];
    var vni := Get32(b[..4]);
    b := b[4..];
    var bind := ToInt64(Get64(b[..8]));
    b := b[8..];
    var steady := ToInt64(Get64(b[..8]));
    b := b[8..];
    var capacity := |b| - RELAY_FIXED_LEN / EP_LENGTH;
    var eps := ReadEndpoints(b, capacity);
    return Some(RelayEndpoint(server, client0, client1, lamport, vni, bind, steady, eps));
  }
}
