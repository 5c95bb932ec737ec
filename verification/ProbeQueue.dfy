/**
  Bookkeeping of the queuing-delay probe: a sender, a receiver and timeouts
  share one bounded list of transmission records.  Every packet must end up
  delivered, dropped or still pending, and in only one of these.
 */
module ProbeQueue {
  import opened ByteCodec

  type Time = int

  const TWO64: int := 0x1_0000_0000_0000_0000

  /** The sequence number of the n-th packet: a uint64 counter that wraps around. */
  function Wrapped(n: nat): uint64 {
    if n < TWO64 then n else Wrapped(n - TWO64)
  }

  datatype TxRecord = TxRecord(at: Time, seqNo: uint64)

  /** One round trip added to the histogram. */
  datatype Sample = Sample(seqNo: uint64, rtt: int)

  datatype State = State(
    recs: seq<TxRecord>,
    sent: nat,
    dropped: seq<uint64>,
    delivered: seq<Sample>,
    lastPass: Time,
    now: Time)

  datatype Config = Config(capacity: nat, timeout: int)

  /** The critical sections, in whatever order the goroutines reach them. */
  datatype Op =
    | ApplyTimeouts(at: Time)
    | Append(at: Time)
    | Receive(seqNo: uint64, at: Time)

  predicate Expired(cfg: Config, r: TxRecord, now: Time) {
    now - r.at >= cfg.timeout
  }

  function Kept(cfg: Config, recs: seq<TxRecord>, now: Time): seq<TxRecord> {
    if recs == [] then []
    else
      var init, last := recs[..|recs| - 1], recs[|recs| - 1];
      Kept(cfg, init, now) + if Expired(cfg, last, now) then [] else [last]
  }

  function Lost(cfg: Config, recs: seq<TxRecord>, now: Time): seq<uint64> {
    if recs == [] then []
    else
      var init, last := recs[..|recs| - 1], recs[|recs| - 1];
      Lost(cfg, init, now) + if Expired(cfg, last, now) then [last.seqNo] else []
  }

  lemma KeptSnoc(cfg: Config, recs: seq<TxRecord>, i: nat, now: Time)
    requires i < |recs|
    ensures Kept(cfg, recs[..i + 1], now) ==
            if Expired(cfg, recs[i], now) then Kept(cfg, recs[..i], now) else Kept(cfg, recs[..i], now) + [recs[i]]
    ensures Lost(cfg, recs[..i + 1], now) ==
            if Expired(cfg, recs[i], now) then Lost(cfg, recs[..i], now) + [recs[i].seqNo] else Lost(cfg, recs[..i], now)
  {
    assert recs[..i + 1][..i] == recs[..i];
  }

  /** The loop of applyTimeouts over the first n records: how many stay, how many are lost, and which. */
  method Compact(cfg: Config, recs: array<TxRecord>, n: nat, at: Time)
      returns (k: nat, lost: nat, ghost gone: seq<uint64>)
    requires n <= recs.Length
    modifies recs
    ensures k <= n && recs[..k] == Kept(cfg, old(recs[..n]), at)
    ensures gone == Lost(cfg, old(recs[..n]), at) && lost == |gone|
  {
    ghost var was := recs[..n];
    ghost var kept: seq<TxRecord> := [];
    k, lost, gone := 0, 0, [];
    for i := 0 to n
      invariant k == |kept| <= i && lost == |gone|
      invariant forall j :: 0 <= j < k ==> recs[j] == kept[j]
      invariant forall j :: i <= j < n ==> recs[j] == was[j]
      invariant kept == Kept(cfg, was[..i], at) && gone == Lost(cfg, was[..i], at)
    {
      KeptSnoc(cfg, was, i, at);
      var r := recs[i];
      if at - r.at >= cfg.timeout {
        lost, gone := lost + 1, gone + [r.seqNo];
      } else {
        recs[k] := r;
        k, kept := k + 1, kept + [r];
      }
    }
    assert was[..n] == was && recs[..k] == kept;
  }

  /** Where the receiver's scan stops with a match; it gives up at the first larger number. */
  function Find(recs: seq<TxRecord>, seqNo: uint64): (i: int)
    ensures -1 <= i < |recs|
    ensures i >= 0 ==> recs[i].seqNo == seqNo
  {
    if recs == [] || recs[0].seqNo > seqNo then -1
    else if recs[0].seqNo == seqNo then 0
    else
      var i := Find(recs[1..], seqNo);
      if i < 0 then -1 else i + 1
  }

  /** The records but the one at index i. */
  function Without(recs: seq<TxRecord>, i: nat): seq<TxRecord>
    requires i < |recs|
  {
    recs[..i] + recs[i + 1..]
  }

  /** The packet of the record at index i has arrived. */
  function Taken(s: State, i: nat, at: Time): State
    requires i < |s.recs|
  {
    s.(recs := Without(s.recs, i), delivered := s.delivered + [Sample(s.recs[i].seqNo, at - s.recs[i].at)])
  }

  function Apply(cfg: Config, s: State, op: Op): State {
    match op
    case ApplyTimeouts(at) =>
      s.(recs := Kept(cfg, s.recs, at), dropped := s.dropped + Lost(cfg, s.recs, at), lastPass := at, now := at)
    case Append(at) =>
      var full := |s.recs| == cfg.capacity && |s.recs| > 0;
      var room := if full then s.recs[1..] else s.recs;
      s.(recs := room + [TxRecord(at, Wrapped(s.sent))],
         dropped := if full then s.dropped + [s.recs[0].seqNo] else s.dropped,
         sent := s.sent + 1,
         now := at)
    case Receive(seqNo, at) =>
      var i := Find(s.recs, seqNo);
      if i < 0 then s else Taken(s, i, at)
  }

  /** The shared list in its backing array, the counters, and which packets they stand for. */
  class Prober {
    const cfg: Config
    const recs: array<TxRecord>
    var n: nat
    var nextSeq: uint64
    var packetsDropped: nat
    /** The samples given to the histogram. */
    var delivered: seq<Sample>

    ghost var sent: nat
    ghost var dropped: seq<uint64>
    ghost var lastPass: Time
    ghost var now: Time

    ghost predicate Valid()
      reads this
    {
      && recs.Length == cfg.capacity >= 1
      && n <= recs.Length
      && nextSeq == Wrapped(sent)
      && packetsDropped == |dropped|
    }

    ghost function View(): State
      reads this, recs
      requires n <= recs.Length
    {
      State(recs[..n], sent, dropped, delivered, lastPass, now)
    }

    constructor (cfg: Config)
      requires cfg.capacity >= 1
      ensures Valid() && fresh(recs) && this.cfg == cfg && View() == START && Sound(cfg, View())
    {
      this.cfg := cfg;
      recs := new TxRecord[cfg.capacity](_ => TxRecord(0, 0));
      n, nextSeq, packetsDropped, delivered := 0, 0, 0, [];
      sent, dropped, lastPass, now := 0, [], 0, 0;
      new;
      assert recs[..n] == [];
      StartSound(cfg);
    }

    /** Compacts the unexpired records to the front of the same array. */
    method Timeouts(at: Time)
      requires Valid()
      modifies this`n, this`packetsDropped, this`dropped, this`lastPass, this`now, recs
      ensures Valid() && View() == Apply(cfg, old(View()), ApplyTimeouts(at))
    {
      var k, lost, gone := Compact(cfg, recs, n, at);
      n, packetsDropped := k, packetsDropped + lost;
      dropped, lastPass, now := dropped + gone, at, at;
    }

    /** Deletes the record at index i by shifting the rest down. */
    method DeleteAt(i: nat)
      requires n <= recs.Length && i < n
      modifies this`n, recs
      ensures n == old(n) - 1 && recs[..n] == Without(old(recs[..n]), i)
    {
      ghost var was := recs[..n];
      forall j | i <= j < n - 1 {
        recs[j] := recs[j + 1];
      }
      n := n - 1;
      assert recs[..n] == Without(was, i);
    }

    /** The sender's half: make room if the list is full, append, never growing the array. */
    method AppendRecord(at: Time)
      requires Valid()
      modifies this, recs
      ensures Valid() && View() == Apply(cfg, old(View()), Append(at))
    {
      if n == recs.Length {
        packetsDropped, dropped := packetsDropped + 1, dropped + [recs[0].seqNo];
        DeleteAt(0);
      }
      ghost var kept := recs[..n];
      recs[n] := TxRecord(at, nextSeq);
      n := n + 1;
      assert recs[..n] == kept + [TxRecord(at, nextSeq)];
      nextSeq := if nextSeq + 1 == TWO64 then 0 else nextSeq + 1;
      WrappedNext(sent);
      sent, now := sent + 1, at;
    }

    /** The receiver's scan, which stops at the first larger number. */
    method FindRecord(seqNo: uint64) returns (found: int)
      requires n <= recs.Length
      ensures found == Find(recs[..n], seqNo)
    {
      var i := 0;
      while i < n
        invariant i <= n
        invariant var f := Find(recs[i..n], seqNo); Find(recs[..n], seqNo) == if f < 0 then -1 else i + f
      {
        assert recs[i..n][1..] == recs[i + 1..n];
        if recs[i].seqNo == seqNo {
          return i;
        }
        if recs[i].seqNo > seqNo {
          return -1;
        }
        i := i + 1;
      }
      return -1;
    }

    /** The receiver's half: a packet with a record goes into the histogram. */
    method ReceivePacket(seqNo: uint64, at: Time)
      requires Valid()
      modifies this`n, this`delivered, recs
      ensures Valid() && View() == Apply(cfg, old(View()), Receive(seqNo, at))
    {
      var i := FindRecord(seqNo);
      if i >= 0 {
        Take(i, at);
      }
    }

    /** Moves the record at index i to the histogram. */
    method Take(i: nat, at: Time)
      requires Valid() && i < n
      modifies this`n, this`delivered, recs
      ensures Valid() && View() == Taken(old(View()), i, at)
    {
      delivered := delivered + [Sample(recs[i].seqNo, at - recs[i].at)];
      DeleteAt(i);
    }

    /** One tick of the sender: a timeout pass, then a record for the packet about to go out. */
    method Tick(passAt: Time, at: Time)
      requires Valid() && Sound(cfg, View())
      modifies this, recs
      ensures Valid() && Sound(cfg, View())
      ensures View() == Apply(cfg, Apply(cfg, old(View()), ApplyTimeouts(passAt)), Append(at))
    {
      StepKeepsSound(cfg, View(), ApplyTimeouts(passAt));
      StepKeepsSound(cfg, Apply(cfg, View(), ApplyTimeouts(passAt)), Append(at));
      Timeouts(passAt);
      AppendRecord(at);
    }

    method Arrival(seqNo: uint64, at: Time)
      requires Valid() && Sound(cfg, View())
      modifies this, recs
      ensures Valid() && Sound(cfg, View()) && View() == Apply(cfg, old(View()), Receive(seqNo, at))
    {
      StepKeepsSound(cfg, View(), Receive(seqNo, at));
      ReceivePacket(seqNo, at);
    }
  }

  lemma {:induction false} WrappedNext(n: nat)
    ensures Wrapped(n + 1) == if Wrapped(n) + 1 == TWO64 then 0 else Wrapped(n) + 1
  {
    if n >= TWO64 {
      WrappedNext(n - TWO64);
    }
  }

  // ----- what every interleaving keeps

  function SeqNos(recs: seq<TxRecord>): (ns: seq<uint64>)
    ensures |ns| == |recs| && forall i :: 0 <= i < |recs| ==> ns[i] == recs[i].seqNo
  {
    seq(|recs|, i requires 0 <= i < |recs| => recs[i].seqNo)
  }

  function Arrived(samples: seq<Sample>): (ns: seq<uint64>)
    ensures |ns| == |samples| && forall i :: 0 <= i < |samples| ==> ns[i] == samples[i].seqNo
  {
    seq(|samples|, i requires 0 <= i < |samples| => samples[i].seqNo)
  }

  /** How often k occurs in ns. */
  function Occ(ns: seq<uint64>, k: uint64): nat {
    if ns == [] then 0 else Occ(ns[..|ns| - 1], k) + if ns[|ns| - 1] == k then 1 else 0
  }

  lemma {:induction false} OccAppend(a: seq<uint64>, b: seq<uint64>, k: uint64)
    ensures Occ(a + b, k) == Occ(a, k) + Occ(b, k)
  {
    if b == [] {
      assert a + b == a;
    } else {
      OccAppend(a, b[..|b| - 1], k);
      assert (a + b)[..|a + b| - 1] == a + b[..|b| - 1];
    }
  }

  lemma OccSnoc(ns: seq<uint64>, n: uint64, k: uint64)
    ensures Occ(ns + [n], k) == Occ(ns, k) + if n == k then 1 else 0
  {
    assert (ns + [n])[..|ns|] == ns;
  }

  /** How often k is accounted for: pending, dropped or delivered. */
  function Tally(s: State, k: uint64): nat {
    Occ(SeqNos(s.recs), k) + Occ(s.dropped, k) + Occ(Arrived(s.delivered), k)
  }

  /** How often the sender has used k. */
  function Issued(sent: nat, k: uint64): nat {
    if sent == 0 then 0 else Issued(sent - 1, k) + if Wrapped(sent - 1) == k then 1 else 0
  }

  lemma SeqNosSnoc(recs: seq<TxRecord>, r: TxRecord, k: uint64)
    ensures Occ(SeqNos(recs + [r]), k) == Occ(SeqNos(recs), k) + if r.seqNo == k then 1 else 0
  {
    assert SeqNos(recs + [r]) == SeqNos(recs) + [r.seqNo];
    OccSnoc(SeqNos(recs), r.seqNo, k);
  }

  lemma ArrivedSnoc(samples: seq<Sample>, x: Sample, k: uint64)
    ensures Occ(Arrived(samples + [x]), k) == Occ(Arrived(samples), k) + if x.seqNo == k then 1 else 0
  {
    assert Arrived(samples + [x]) == Arrived(samples) + [x.seqNo];
    OccSnoc(Arrived(samples), x.seqNo, k);
  }

  lemma SeqNosRemove(recs: seq<TxRecord>, i: nat, k: uint64)
    requires i < |recs|
    ensures Occ(SeqNos(Without(recs, i)), k) + (if recs[i].seqNo == k then 1 else 0) == Occ(SeqNos(recs), k)
  {
    var a, b := SeqNos(recs[..i]), SeqNos(recs[i + 1..]);
    assert SeqNos(Without(recs, i)) == a + b;
    OccAppend(a, b, k);
    assert SeqNos(recs) == a + [recs[i].seqNo] + b;
    OccAppend(a + [recs[i].seqNo], b, k);
    OccSnoc(a, recs[i].seqNo, k);
  }

  lemma {:induction false} KeptAndLost(cfg: Config, recs: seq<TxRecord>, now: Time, k: uint64)
    ensures Occ(SeqNos(Kept(cfg, recs, now)), k) + Occ(Lost(cfg, recs, now), k) == Occ(SeqNos(recs), k)
    ensures |Kept(cfg, recs, now)| + |Lost(cfg, recs, now)| == |recs|
  {
    if recs != [] {
      var init, last := recs[..|recs| - 1], recs[|recs| - 1];
      KeptAndLost(cfg, init, now, k);
      assert recs == init + [last];
      SeqNosSnoc(init, last, k);
      if Expired(cfg, last, now) {
        assert Kept(cfg, init, now) + [] == Kept(cfg, init, now);
        OccSnoc(Lost(cfg, init, now), last.seqNo, k);
      } else {
        assert Lost(cfg, init, now) + [] == Lost(cfg, init, now);
        SeqNosSnoc(Kept(cfg, init, now), last, k);
      }
    }
  }

  /** Every use of k is accounted for once. */
  ghost predicate Balanced(s: State, k: uint64) {
    Tally(s, k) == Issued(s.sent, k)
  }

  ghost predicate AddsUp(s: State) {
    s.sent == |s.dropped| + |s.delivered| + |s.recs|
  }

  lemma StepKeepsSum(cfg: Config, s: State, op: Op)
    requires AddsUp(s)
    ensures AddsUp(Apply(cfg, s, op))
  {
    if op.ApplyTimeouts? {
      KeptAndLost(cfg, s.recs, op.at, 0);
    }
  }

  lemma TimeoutsKeepBalance(cfg: Config, s: State, at: Time, k: uint64)
    requires Balanced(s, k)
    ensures Balanced(Apply(cfg, s, ApplyTimeouts(at)), k)
  {
    KeptAndLost(cfg, s.recs, at, k);
    OccAppend(s.dropped, Lost(cfg, s.recs, at), k);
  }

  lemma SeqNosTail(recs: seq<TxRecord>, k: uint64)
    requires recs != []
    ensures Occ(SeqNos(recs[1..]), k) + (if recs[0].seqNo == k then 1 else 0) == Occ(SeqNos(recs), k)
  {
    SeqNosRemove(recs, 0, k);
    assert Without(recs, 0) == recs[1..];
  }

  /** Evicting the first record moves its number from pending to dropped. */
  lemma EvictKeepsCount(recs: seq<TxRecord>, dropped: seq<uint64>, k: uint64)
    requires recs != []
    ensures Occ(SeqNos(recs[1..]), k) + Occ(dropped + [recs[0].seqNo], k) == Occ(SeqNos(recs), k) + Occ(dropped, k)
  {
    SeqNosTail(recs, k);
    OccSnoc(dropped, recs[0].seqNo, k);
  }

  lemma IssuedNext(sent: nat, k: uint64)
    ensures Issued(sent + 1, k) == Issued(sent, k) + if Wrapped(sent) == k then 1 else 0
  {
  }

  lemma AppendKeepsBalance(cfg: Config, s: State, at: Time, k: uint64)
    requires Balanced(s, k)
    ensures Balanced(Apply(cfg, s, Append(at)), k)
  {
    var r := TxRecord(at, Wrapped(s.sent));
    IssuedNext(s.sent, k);
    if |s.recs| == cfg.capacity && |s.recs| > 0 {
      EvictKeepsCount(s.recs, s.dropped, k);
      SeqNosSnoc(s.recs[1..], r, k);
    } else {
      SeqNosSnoc(s.recs, r, k);
    }
  }

  lemma ReceiveKeepsBalance(cfg: Config, s: State, seqNo: uint64, at: Time, k: uint64)
    requires Balanced(s, k)
    ensures Balanced(Apply(cfg, s, Receive(seqNo, at)), k)
  {
    var i := Find(s.recs, seqNo);
    if i >= 0 {
      SeqNosRemove(s.recs, i, k);
      ArrivedSnoc(s.delivered, Sample(seqNo, at - s.recs[i].at), k);
    }
  }

  lemma StepKeepsBalance(cfg: Config, s: State, op: Op, k: uint64)
    requires Balanced(s, k)
    ensures Balanced(Apply(cfg, s, op), k)
  {
    match op
    case ApplyTimeouts(at) => TimeoutsKeepBalance(cfg, s, at, k);
    case Append(at) => AppendKeepsBalance(cfg, s, at, k);
    case Receive(seqNo, at) => ReceiveKeepsBalance(cfg, s, seqNo, at, k);
  }

  function Run(cfg: Config, s: State, ops: seq<Op>): State
    decreases |ops|
  {
    if ops == [] then s else Run(cfg, Apply(cfg, s, ops[0]), ops[1..])
  }

  const START := State([], 0, [], [], 0, 0)

  lemma {:induction false} RunKeepsBalance(cfg: Config, s: State, ops: seq<Op>, k: uint64)
    requires Balanced(s, k)
    ensures Balanced(Run(cfg, s, ops), k)
    decreases |ops|
  {
    if ops != [] {
      StepKeepsBalance(cfg, s, ops[0], k);
      RunKeepsBalance(cfg, Apply(cfg, s, ops[0]), ops[1..], k);
    }
  }

  lemma StartBalanced(k: uint64)
    ensures Balanced(START, k)
  {
    assert SeqNos([]) == [] && Arrived([]) == [];
  }

  lemma {:induction false} RunKeepsSum(cfg: Config, s: State, ops: seq<Op>)
    requires AddsUp(s)
    ensures AddsUp(Run(cfg, s, ops))
    decreases |ops|
  {
    if ops != [] {
      StepKeepsSum(cfg, s, ops[0]);
      RunKeepsSum(cfg, Apply(cfg, s, ops[0]), ops[1..]);
    }
  }

  /** Records appended = dropped + counted in the histogram + pending, in every interleaving. */
  lemma Conservation(cfg: Config, ops: seq<Op>)
    ensures AddsUp(Run(cfg, START, ops))
  {
    RunKeepsSum(cfg, START, ops);
  }

  lemma {:induction false} IssuedOnce(sent: nat, k: uint64)
    requires sent <= TWO64
    ensures Issued(sent, k) == if k < sent then 1 else 0
  {
    if sent > 0 {
      IssuedOnce(sent - 1, k);
    }
  }

  /** Until the 64-bit counter wraps, each number sent is dropped, delivered or pending, once in all. */
  lemma EachPacketOnce(cfg: Config, ops: seq<Op>, k: uint64)
    requires Run(cfg, START, ops).sent <= TWO64
    ensures var s := Run(cfg, START, ops);
            Occ(SeqNos(s.recs), k) + Occ(s.dropped, k) + Occ(Arrived(s.delivered), k) == if k < s.sent then 1 else 0
  {
    StartBalanced(k);
    RunKeepsBalance(cfg, START, ops, k);
    IssuedOnce(Run(cfg, START, ops).sent, k);
  }

  // ----- order, capacity and the early exit

  ghost predicate Increasing(recs: seq<TxRecord>) {
    forall i, j :: 0 <= i < j < |recs| ==> recs[i].seqNo < recs[j].seqNo
  }

  /** Sorted by number, within capacity, and below the next number. */
  ghost predicate Ordered(cfg: Config, s: State) {
    && |s.recs| <= cfg.capacity
    && Increasing(s.recs)
    && (forall i :: 0 <= i < |s.recs| ==> s.recs[i].seqNo < s.sent)
  }

  lemma {:induction false} KeptOrdered(cfg: Config, recs: seq<TxRecord>, now: Time, bound: int)
    requires Increasing(recs) && forall i :: 0 <= i < |recs| ==> recs[i].seqNo < bound
    ensures var k := Kept(cfg, recs, now);
            Increasing(k) && |k| <= |recs| && forall i :: 0 <= i < |k| ==> k[i].seqNo < bound
  {
    if recs != [] {
      KeptOrdered(cfg, recs[..|recs| - 1], now, recs[|recs| - 1].seqNo);
    }
  }

  lemma AppendKeepsOrder(cfg: Config, s: State, at: Time)
    requires cfg.capacity >= 1 && Ordered(cfg, s) && s.sent < TWO64
    ensures Ordered(cfg, Apply(cfg, s, Append(at)))
  {
    var room := if |s.recs| == cfg.capacity && |s.recs| > 0 then s.recs[1..] else s.recs;
    assert Increasing(room) && |room| < cfg.capacity;
    assert forall i :: 0 <= i < |room| ==> room[i].seqNo < s.sent;
    assert Apply(cfg, s, Append(at)).recs == room + [TxRecord(at, s.sent)];
  }

  lemma StepKeepsOrder(cfg: Config, s: State, op: Op)
    requires cfg.capacity >= 1 && Ordered(cfg, s)
    requires op.Append? ==> s.sent < TWO64
    ensures Ordered(cfg, Apply(cfg, s, op))
  {
    match op
    case ApplyTimeouts(at) => KeptOrdered(cfg, s.recs, at, s.sent);
    case Append(at) => AppendKeepsOrder(cfg, s, at);
    case Receive(_, _) =>
  }

  /** The list stays sorted and within the capacity it was made with. */
  lemma {:induction false} RunKeepsOrder(cfg: Config, s: State, ops: seq<Op>)
    requires cfg.capacity >= 1 && Ordered(cfg, s) && Run(cfg, s, ops).sent <= TWO64
    ensures Ordered(cfg, Run(cfg, s, ops))
    decreases |ops|
  {
    if ops != [] {
      SentGrows(cfg, Apply(cfg, s, ops[0]), ops[1..]);
      StepKeepsOrder(cfg, s, ops[0]);
      RunKeepsOrder(cfg, Apply(cfg, s, ops[0]), ops[1..]);
    }
  }

  /** What every interleaving keeps, in one. */
  ghost predicate Sound(cfg: Config, s: State) {
    AddsUp(s) && (forall k :: Balanced(s, k)) && (s.sent <= TWO64 ==> Ordered(cfg, s))
  }

  lemma StartSound(cfg: Config)
    ensures Sound(cfg, START)
  {
    forall k
      ensures Balanced(START, k)
    {
      StartBalanced(k);
    }
  }

  lemma StepKeepsSound(cfg: Config, s: State, op: Op)
    requires cfg.capacity >= 1 && Sound(cfg, s)
    ensures Sound(cfg, Apply(cfg, s, op))
  {
    StepKeepsSum(cfg, s, op);
    forall k
      ensures Balanced(Apply(cfg, s, op), k)
    {
      StepKeepsBalance(cfg, s, op, k);
    }
    if Apply(cfg, s, op).sent <= TWO64 {
      StepKeepsOrder(cfg, s, op);
    }
  }

  lemma {:induction false} SentGrows(cfg: Config, s: State, ops: seq<Op>)
    ensures s.sent <= Run(cfg, s, ops).sent
    decreases |ops|
  {
    if ops != [] { SentGrows(cfg, Apply(cfg, s, ops[0]), ops[1..]); }
  }

  lemma {:induction false} FindComplete(recs: seq<TxRecord>, seqNo: uint64, i: nat)
    requires Increasing(recs) && i < |recs| && recs[i].seqNo == seqNo
    ensures Find(recs, seqNo) == i
  {
    if i > 0 {
      assert recs[0].seqNo < seqNo;
      FindComplete(recs[1..], seqNo, i - 1);
    }
  }

  /** Stopping at a larger number never misses a pending packet. */
  lemma EarlyExitMissesNothing(cfg: Config, ops: seq<Op>, seqNo: uint64)
    requires cfg.capacity >= 1 && Run(cfg, START, ops).sent <= TWO64
    ensures var s := Run(cfg, START, ops); Find(s.recs, seqNo) >= 0 <==> seqNo in SeqNos(s.recs)
  {
    RunKeepsOrder(cfg, START, ops);
    var s := Run(cfg, START, ops);
    if seqNo in SeqNos(s.recs) {
      var i :| 0 <= i < |s.recs| && SeqNos(s.recs)[i] == seqNo;
      FindComplete(s.recs, seqNo, i);
    }
  }

  // ----- how late a counted packet can be

  /**
    The sender and the timeouts read the clock inside their critical sections, so
    their readings never go back; the receiver reads it before it takes the lock.
   */
  predicate Timely(cfg: Config, s: State, ops: seq<Op>)
    decreases |ops|
  {
    ops == [] || ((ops[0].Receive? || ops[0].at >= s.now) && Timely(cfg, Apply(cfg, s, ops[0]), ops[1..]))
  }

  /** No pending record was due at the last timeout pass. */
  ghost predicate Young(cfg: Config, s: State) {
    s.lastPass <= s.now && forall r :: r in s.recs ==> s.lastPass - r.at < cfg.timeout
  }

  lemma {:induction false} KeptYoung(cfg: Config, recs: seq<TxRecord>, now: Time, r: TxRecord)
    requires r in Kept(cfg, recs, now)
    ensures !Expired(cfg, r, now)
  {
    if recs != [] && r in Kept(cfg, recs[..|recs| - 1], now) {
      KeptYoung(cfg, recs[..|recs| - 1], now, r);
    }
  }

  lemma StepKeepsYoung(cfg: Config, s: State, op: Op)
    requires cfg.timeout > 0 && Young(cfg, s) && (op.Receive? || op.at >= s.now)
    ensures Young(cfg, Apply(cfg, s, op))
  {
    var s' := Apply(cfg, s, op);
    forall r | r in s'.recs
      ensures s'.lastPass - r.at < cfg.timeout
    {
      match op
      case ApplyTimeouts(at) => KeptYoung(cfg, s.recs, at, r);
      case Append(at) => assert r in s.recs || r.at == at;
      case Receive(_, _) => assert r in s.recs;
    }
  }

  lemma {:induction false} RunKeepsYoung(cfg: Config, s: State, ops: seq<Op>)
    requires cfg.timeout > 0 && Young(cfg, s) && Timely(cfg, s, ops)
    ensures Young(cfg, Run(cfg, s, ops))
    decreases |ops|
  {
    if ops != [] {
      StepKeepsYoung(cfg, s, ops[0]);
      RunKeepsYoung(cfg, Apply(cfg, s, ops[0]), ops[1..]);
    }
  }

  /**
    A packet that arrives after its timeout is documented never to count, yet it
    does as long as no timeout pass has removed its record.  The excess is less
    than the time since the last pass.
   */
  lemma LatenessBounded(cfg: Config, ops: seq<Op>, seqNo: uint64, at: Time)
    requires cfg.timeout > 0 && Timely(cfg, START, ops)
    requires Find(Run(cfg, START, ops).recs, seqNo) >= 0
    ensures var s := Run(cfg, START, ops);
            var s' := Apply(cfg, s, Receive(seqNo, at));
            && |s'.delivered| == |s.delivered| + 1
            && s'.delivered[|s.delivered|].rtt < cfg.timeout + (at - s.lastPass)
  {
    RunKeepsYoung(cfg, START, ops);
    var s := Run(cfg, START, ops);
    assert s.recs[Find(s.recs, seqNo)] in s.recs;
  }

  /** One packet, received at any time before another timeout pass, counts however late it is. */
  lemma LatePacketCounts(cfg: Config, late: nat)
    requires cfg.capacity >= 1 && cfg.timeout > 0
    ensures var ops := [ApplyTimeouts(0), Append(0), Receive(0, cfg.timeout + late)];
            var s := Run(cfg, START, ops);
            && Timely(cfg, START, ops)
            && s.delivered == [Sample(0, cfg.timeout + late)] && s.dropped == [] && s.recs == []
  {
    var ops := [ApplyTimeouts(0), Append(0), Receive(0, cfg.timeout + late)];
    var s1 := Apply(cfg, START, ops[0]);
    assert s1 == START;
    var s2 := Apply(cfg, s1, ops[1]);
    assert s2.recs == [TxRecord(0, 0)];
    var s3 := Apply(cfg, s2, ops[2]);
    assert Find(s2.recs, 0) == 0;
    assert s3.recs == [] && s3.delivered == [Sample(0, cfg.timeout + late)];
    assert ops[1..] == [ops[1], ops[2]] && ops[1..][1..] == [ops[2]] && ops[1..][1..][1..] == [];
    assert Run(cfg, s2, [ops[2]]) == s3 && Timely(cfg, s2, [ops[2]]);
    assert Run(cfg, s1, ops[1..]) == s3 && Timely(cfg, s1, ops[1..]);
  }

  /** Receiving the packet at the given time adds no sample as old as the timeout. */
  ghost predicate NoLateSample(cfg: Config, s: State, seqNo: uint64, at: Time) {
    var s' := Apply(cfg, s, Receive(seqNo, at));
    s'.delivered == s.delivered ||
    (|s'.delivered| == |s.delivered| + 1 && s'.delivered[|s.delivered|].rtt < cfg.timeout)
  }

  lemma {:induction false} LostNothingIff(cfg: Config, recs: seq<TxRecord>, now: Time)
    ensures Lost(cfg, recs, now) == [] <==> forall r :: r in recs ==> !Expired(cfg, r, now)
  {
    if recs != [] {
      var init, last := recs[..|recs| - 1], recs[|recs| - 1];
      LostNothingIff(cfg, init, now);
      assert recs == init + [last];
    }
  }

  /** After any run, late packets cannot count exactly when a timeout pass at that moment would drop nothing. */
  lemma PunctualIffNothingExpired(cfg: Config, ops: seq<Op>, at: Time)
    requires cfg.capacity >= 1 && Run(cfg, START, ops).sent <= TWO64
    ensures var s := Run(cfg, START, ops);
            (forall seqNo :: NoLateSample(cfg, s, seqNo, at)) <==> Lost(cfg, s.recs, at) == []
  {
    var s := Run(cfg, START, ops);
    RunKeepsOrder(cfg, START, ops);
    LostNothingIff(cfg, s.recs, at);
    forall seqNo | Lost(cfg, s.recs, at) == []
      ensures NoLateSample(cfg, s, seqNo, at)
    {
      var i := Find(s.recs, seqNo);
      if i >= 0 {
        assert s.recs[i] in s.recs;
      }
    }
    if r :| r in s.recs && Expired(cfg, r, at) {
      var i :| 0 <= i < |s.recs| && s.recs[i] == r;
      FindComplete(s.recs, r.seqNo, i);
      assert !NoLateSample(cfg, s, r.seqNo, at);
    }
  }
}
