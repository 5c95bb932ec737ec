/**
  The in-memory log buffer: a bounded FIFO that drops lines when full and tells
  the reader, just before the next line it kept, how many it lost.
 */
module LogBuffer {
  import opened ByteCodec

  /** A byte slice; None is Go's nil. */
  type Line = Option<seq<byte>>

  datatype QEntry = QEntry(msg: Line, dropCount: nat)

  datatype Counters = Counters(
    writeCalls: nat, readCalls: nat, writeBytes: int, readBytes: int, droppedBytes: int, storedBytes: int)

  datatype State = State(next: Line, pending: seq<QEntry>, dropCount: nat, c: Counters)

  function Len(l: Line): nat {
    if l.Some? then |l.value| else 0
  }

  function Digits(n: nat): (s: string)
    ensures |s| >= 1
  {
    if n < 10 then [DigitChar(n)] else Digits(n / 10) + [DigitChar(n % 10)]
  }

  function DigitChar(d: nat): char
    requires d < 10
  {
    (d + 48) as char
  }

  /** The line injected for n dropped ones. */
  function NoticeText(n: nat): (b: seq<byte>)
    ensures |b| > 0
  {
    var s := "----------- " + Digits(n) + " logs dropped ----------";
    seq(|s|, i requires 0 <= i < |s| => (s[i] as int) % 0x100)
  }

  // ----- the two calls

  datatype WriteResult = WriteResult(s: State, accepted: bool)

  function Write(cap: nat, s: State, b: Line): WriteResult {
    var c := s.c.(writeCalls := s.c.writeCalls + 1);
    if |s.pending| < cap then
      WriteResult(s.(pending := s.pending + [QEntry(b, s.dropCount)], dropCount := 0,
                     c := c.(writeBytes := c.writeBytes + Len(b), storedBytes := c.storedBytes + Len(b))), true)
    else
      WriteResult(s.(dropCount := s.dropCount + 1, c := c.(droppedBytes := c.droppedBytes + Len(b))), false)
  }

  datatype ReadResult = ReadResult(s: State, line: Line, notice: nat)

  /** notice is the count a returned drop notice reports, zero for anything else. */
  function TryRead(s: State): ReadResult {
    var c := s.c.(readCalls := s.c.readCalls + 1);
    if s.next.Some? then
      ReadResult(s.(next := None, c := c.(readBytes := c.readBytes + Len(s.next),
                                          storedBytes := c.storedBytes - Len(s.next))),
                 s.next, 0)
    else if s.pending == [] then ReadResult(s.(c := c), None, 0)
    else
      var ent, rest := s.pending[0], s.pending[1..];
      if ent.dropCount > 0 then
        var n := |NoticeText(ent.dropCount)|;
        ReadResult(s.(next := ent.msg, pending := rest,
                      c := c.(writeBytes := c.writeBytes + n, readBytes := c.readBytes + n)),
                   Some(NoticeText(ent.dropCount)), ent.dropCount)
      else
        ReadResult(s.(pending := rest,
                      c := c.(readBytes := c.readBytes + Len(ent.msg), storedBytes := c.storedBytes - Len(ent.msg))),
                   ent.msg, 0)
  }

  class MemBuffer {
    const capacity: nat
    var next: Line
    var pending: seq<QEntry>
    var dropCount: nat
    var counters: Counters

    /** History: what was attempted, and what came out. */
    ghost var attempts: seq<Attempt>
    ghost var out: seq<Item>

    ghost function View(): World
      reads this
    {
      World(State(next, pending, dropCount, counters), attempts, out)
    }

    /** What was read and what is held is the ideal output of the writes, and the counters say so. */
    ghost predicate Valid()
      reads this
    {
      IsValid(capacity, View())
    }

    constructor (numEntries: nat)
      ensures Valid() && capacity == numEntries && View() == World(EMPTY, [], [])
    {
      attempts, out := [], [];
      capacity := numEntries;
      next, pending, dropCount := None, [], 0;
      counters := Counters(0, 0, 0, 0, 0, 0);
    }

    method WriteLine(b: Line) returns (n: nat, full: bool)
      requires Valid()
      modifies this
      ensures Valid() && View() == Apply(capacity, old(View()), DoWrite(b))
      ensures full == !Write(capacity, old(View()).s, b).accepted && n == if full then 0 else Len(b)
    {
      ghost var w := Apply(capacity, View(), DoWrite(b));
      StepKeepsValid(capacity, View(), DoWrite(b));
      n, full := Enqueue(b);
      attempts := w.attempts;
    }

    method TryReadLine() returns (line: Line)
      requires Valid()
      modifies this
      ensures Valid() && View() == Apply(capacity, old(View()), DoRead)
      ensures line == TryRead(old(View()).s).line
    {
      ghost var w := Apply(capacity, View(), DoRead);
      StepKeepsValid(capacity, View(), DoRead);
      line := Dequeue();
      out := w.out;
    }

    method Enqueue(b: Line) returns (n: nat, full: bool)
      modifies this`pending, this`dropCount, this`counters
      ensures var r := Write(capacity, old(View()).s, b);
              View().s == r.s && full == !r.accepted && n == if full then 0 else Len(b)
    {
      counters := counters.(writeCalls := counters.writeCalls + 1);
      var ent := QEntry(b, dropCount);
      if |pending| < capacity {
        pending := pending + [ent];
        counters := counters.(writeBytes := counters.writeBytes + Len(b), storedBytes := counters.storedBytes + Len(b));
        dropCount := 0;
        return Len(b), false;
      }
      dropCount := dropCount + 1;
      counters := counters.(droppedBytes := counters.droppedBytes + Len(b));
      return 0, true;
    }

    method Dequeue() returns (line: Line)
      modifies this`next, this`pending, this`counters
      ensures var r := TryRead(old(View()).s); View().s == r.s && line == r.line
    {
      counters := counters.(readCalls := counters.readCalls + 1);
      if next.Some? {
        line := next;
        next := None;
        counters := counters.(readBytes := counters.readBytes + Len(line),
                              storedBytes := counters.storedBytes - Len(line));
        return;
      }
      if pending == [] {
        return None;
      }
      var ent := pending[0];
      pending := pending[1..];
      if ent.dropCount > 0 {
        next := ent.msg;
        var b := NoticeText(ent.dropCount);
        counters := counters.(writeBytes := counters.writeBytes + |b|, readBytes := counters.readBytes + |b|);
        return Some(b);
      }
      counters := counters.(readBytes := counters.readBytes + Len(ent.msg),
                            storedBytes := counters.storedBytes - Len(ent.msg));
      return ent.msg;
    }
  }

  const EMPTY := State(None, [], 0, Counters(0, 0, 0, 0, 0, 0))

  // ----- runs, and the transcript they must produce

  datatype Op = DoWrite(b: Line) | DoRead

  /** What a reader gets that is not nil. */
  datatype Item = Message(b: seq<byte>) | Notice(count: nat)

  datatype Attempt = Kept(b: Line) | Lost(size: nat)

  /** A buffer, what was attempted on it, and what came out. */
  datatype World = World(s: State, attempts: seq<Attempt>, out: seq<Item>)

  function MessageOf(l: Line): seq<Item> {
    if l.Some? then [Message(l.value)] else []
  }

  function Apply(cap: nat, w: World, op: Op): World {
    match op
    case DoWrite(b) =>
      var r := Write(cap, w.s, b);
      World(r.s, w.attempts + [if r.accepted then Kept(b) else Lost(Len(b))], w.out)
    case DoRead =>
      var r := TryRead(w.s);
      World(r.s, w.attempts, w.out + if r.notice > 0 then [Notice(r.notice)] else MessageOf(r.line))
  }

  function Run(cap: nat, w: World, ops: seq<Op>): World
    decreases |ops|
  {
    if ops == [] then w else Run(cap, Apply(cap, w, ops[0]), ops[1..])
  }

  datatype Script = Script(items: seq<Item>, drops: nat)

  function NoticeOf(drops: nat): seq<Item> {
    if drops > 0 then [Notice(drops)] else []
  }

  /**
    The ideal output of a history of writes: every kept line in order, each
    preceded by a notice of the lines lost since the one before it.
   */
  function Ideal(attempts: seq<Attempt>): Script {
    if attempts == [] then Script([], 0)
    else
      var before := Ideal(attempts[..|attempts| - 1]);
      match attempts[|attempts| - 1]
      case Kept(b) => Script(before.items + NoticeOf(before.drops) + MessageOf(b), 0)
      case Lost(_) => Script(before.items, before.drops + 1)
  }

  /** What the buffer still owes its reader. */
  function Owed(q: seq<QEntry>): seq<Item> {
    if q == [] then []
    else Owed(q[..|q| - 1]) + NoticeOf(q[|q| - 1].dropCount) + MessageOf(q[|q| - 1].msg)
  }

  lemma OwedSnoc(q: seq<QEntry>, e: QEntry)
    ensures Owed(q + [e]) == Owed(q) + NoticeOf(e.dropCount) + MessageOf(e.msg)
  {
    assert (q + [e])[..|q|] == q;
  }

  lemma {:induction false} OwedFirst(q: seq<QEntry>)
    requires q != []
    ensures Owed(q) == NoticeOf(q[0].dropCount) + MessageOf(q[0].msg) + Owed(q[1..])
  {
    if |q| == 1 {
      var n, m := NoticeOf(q[0].dropCount), MessageOf(q[0].msg);
      assert q[..0] == [] && q[1..] == [];
      Units(n, m);
    } else {
      var init, last := q[..|q| - 1], q[|q| - 1];
      OwedFirst(init);
      assert q == init + [last] && q[1..] == init[1..] + [last];
      OwedSnoc(init, last);
      OwedSnoc(init[1..], last);
      Regroup(NoticeOf(q[0].dropCount) + MessageOf(q[0].msg), Owed(init[1..]), NoticeOf(last.dropCount),
              MessageOf(last.msg));
    }
  }

  lemma Units<T>(a: seq<T>, b: seq<T>)
    ensures [] + a + b == a + b + []
  {
  }

  function StoredBytes(q: seq<QEntry>): nat {
    if q == [] then 0 else StoredBytes(q[..|q| - 1]) + Len(q[|q| - 1].msg)
  }

  lemma {:induction false} StoredFirst(q: seq<QEntry>)
    requires q != []
    ensures StoredBytes(q) == Len(q[0].msg) + StoredBytes(q[1..])
  {
    var init := q[..|q| - 1];
    if init != [] {
      StoredFirst(init);
      assert q[1..][..|q| - 2] == init[1..];
    }
  }

  /** Output so far plus what is owed is exactly the ideal output. */
  ghost predicate OnScript(w: World) {
    && w.out + MessageOf(w.s.next) + Owed(w.s.pending) == Ideal(w.attempts).items
    && w.s.dropCount == Ideal(w.attempts).drops
  }

  lemma WriteKeepsScript(cap: nat, w: World, b: Line)
    requires OnScript(w)
    ensures OnScript(Apply(cap, w, DoWrite(b)))
  {
    var r := Write(cap, w.s, b);
    var w' := Apply(cap, w, DoWrite(b));
    assert w'.attempts[..|w.attempts|] == w.attempts;
    if r.accepted {
      assert r.s.pending[..|w.s.pending|] == w.s.pending;
      Regroup(w.out + MessageOf(w.s.next), Owed(w.s.pending), NoticeOf(w.s.dropCount), MessageOf(b));
    }
  }

  lemma Regroup<T>(a: seq<T>, b: seq<T>, c: seq<T>, d: seq<T>)
    ensures a + (b + c + d) == a + b + c + d
  {
  }

  lemma ReadKeepsScript(cap: nat, w: World)
    requires OnScript(w)
    ensures OnScript(Apply(cap, w, DoRead))
  {
    var w' := Apply(cap, w, DoRead);
    if w.s.next.Some? {
      assert w'.out + MessageOf(w'.s.next) == w.out + MessageOf(w.s.next);
    } else if w.s.pending != [] {
      OwedFirst(w.s.pending);
      var ent, rest := w.s.pending[0], Owed(w.s.pending[1..]);
      assert w.out + MessageOf(w.s.next) == w.out;
      Regroup(w.out, NoticeOf(ent.dropCount), MessageOf(ent.msg), rest);
      assert w.out + (NoticeOf(ent.dropCount) + MessageOf(ent.msg) + rest)
          == w.out + NoticeOf(ent.dropCount) + MessageOf(ent.msg) + rest;
      if ent.dropCount == 0 {
        assert w.out + NoticeOf(0) == w.out;
        assert w'.out + MessageOf(w'.s.next) == w'.out;
      }
    } else {
      assert w'.out == w.out;
    }
  }

  /**
    For every sequence of calls, what was read followed by what the buffer still
    holds is the ideal output of the writes: kept lines once each, in order, with
    every lost line counted by the notice in front of the next kept one.
   */
  lemma {:induction false} RunOnScript(cap: nat, w: World, ops: seq<Op>)
    requires OnScript(w)
    ensures OnScript(Run(cap, w, ops))
    decreases |ops|
  {
    if ops != [] {
      match ops[0] {
        case DoWrite(b) => WriteKeepsScript(cap, w, b);
        case DoRead => ReadKeepsScript(cap, w);
      }
      RunOnScript(cap, Apply(cap, w, ops[0]), ops[1..]);
    }
  }

  // ----- the counters

  function LostBytes(attempts: seq<Attempt>): nat {
    if attempts == [] then 0
    else
      var last := attempts[|attempts| - 1];
      LostBytes(attempts[..|attempts| - 1]) + if last.Lost? then last.size else 0
  }

  /** Bytes written = read + stored, stored is what is held, and dropped bytes are those of the lost lines. */
  ghost predicate Accounted(cap: nat, w: World) {
    && w.s.c.writeBytes == w.s.c.readBytes + w.s.c.storedBytes
    && w.s.c.storedBytes == Len(w.s.next) + StoredBytes(w.s.pending)
    && w.s.c.droppedBytes == LostBytes(w.attempts)
    && w.s.c.writeCalls == |w.attempts|
    && |w.s.pending| <= cap
  }

  lemma LostBytesSnoc(attempts: seq<Attempt>, a: Attempt)
    ensures LostBytes(attempts + [a]) == LostBytes(attempts) + if a.Lost? then a.size else 0
  {
    assert (attempts + [a])[..|attempts|] == attempts;
  }

  lemma StoredBytesSnoc(q: seq<QEntry>, e: QEntry)
    ensures StoredBytes(q + [e]) == StoredBytes(q) + Len(e.msg)
  {
    assert (q + [e])[..|q|] == q;
  }

  lemma StepKeepsAccount(cap: nat, w: World, op: Op)
    requires Accounted(cap, w)
    ensures Accounted(cap, Apply(cap, w, op))
  {
    match op
    case DoWrite(b) =>
      StoredBytesSnoc(w.s.pending, QEntry(b, w.s.dropCount));
      LostBytesSnoc(w.attempts, Kept(b));
      LostBytesSnoc(w.attempts, Lost(Len(b)));
    case DoRead =>
      if w.s.next.None? && w.s.pending != [] {
        StoredFirst(w.s.pending);
      }
  }

  ghost predicate IsValid(cap: nat, w: World) {
    OnScript(w) && Accounted(cap, w)
  }

  lemma StepKeepsValid(cap: nat, w: World, op: Op)
    requires IsValid(cap, w)
    ensures IsValid(cap, Apply(cap, w, op))
  {
    StepKeepsAccount(cap, w, op);
    match op
    case DoWrite(b) => WriteKeepsScript(cap, w, b);
    case DoRead => ReadKeepsScript(cap, w);
  }

  lemma {:induction false} RunKeepsAccount(cap: nat, w: World, ops: seq<Op>)
    requires Accounted(cap, w)
    ensures Accounted(cap, Run(cap, w, ops))
    decreases |ops|
  {
    if ops != [] {
      StepKeepsAccount(cap, w, ops[0]);
      RunKeepsAccount(cap, Apply(cap, w, ops[0]), ops[1..]);
    }
  }

  function LostLines(attempts: seq<Attempt>): nat {
    if attempts == [] then 0
    else LostLines(attempts[..|attempts| - 1]) + if attempts[|attempts| - 1].Lost? then 1 else 0
  }

  function Noticed(items: seq<Item>): nat {
    if items == [] then 0
    else Noticed(items[..|items| - 1]) + if items[|items| - 1].Notice? then items[|items| - 1].count else 0
  }

  lemma {:induction false} NoticedAppend(a: seq<Item>, b: seq<Item>)
    ensures Noticed(a + b) == Noticed(a) + Noticed(b)
  {
    if b == [] {
      assert a + b == a;
    } else {
      NoticedAppend(a, b[..|b| - 1]);
      assert (a + b)[..|a + b| - 1] == a + b[..|b| - 1];
    }
  }

  lemma {:induction false} IdealCountsLosses(attempts: seq<Attempt>)
    ensures Noticed(Ideal(attempts).items) + Ideal(attempts).drops == LostLines(attempts)
  {
    if attempts != [] {
      var before, last := Ideal(attempts[..|attempts| - 1]), attempts[|attempts| - 1];
      IdealCountsLosses(attempts[..|attempts| - 1]);
      if last.Kept? {
        NoticedAppend(before.items + NoticeOf(before.drops), MessageOf(last.b));
        NoticedAppend(before.items, NoticeOf(before.drops));
        assert Noticed([]) == 0;
        assert before.drops > 0 ==> [Notice(before.drops)][..0] == [];
        assert last.b.Some? ==> [Message(last.b.value)][..0] == [];
      }
    }
  }

  /** Rejected writes = counts in notices read + counts still queued + the current drop count. */
  lemma EveryLossCounted(cap: nat, ops: seq<Op>)
    ensures var w := Run(cap, World(EMPTY, [], []), ops);
            LostLines(w.attempts) == Noticed(w.out) + Noticed(Owed(w.s.pending)) + w.s.dropCount
  {
    var w0 := World(EMPTY, [], []);
    assert OnScript(w0);
    RunOnScript(cap, w0, ops);
    var w := Run(cap, w0, ops);
    IdealCountsLosses(w.attempts);
    NoticedAppend(w.out + MessageOf(w.s.next), Owed(w.s.pending));
    NoticedAppend(w.out, MessageOf(w.s.next));
    assert Noticed([]) == 0;
    assert w.s.next.Some? ==> [Message(w.s.next.value)][..0] == [];
  }
}
