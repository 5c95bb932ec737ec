/** The list of listening ports: sorting and deduplicating in place, scanning, and change detection. */
module PortList {
  import opened ByteCodec
  import opened SortedSeqs

  datatype Port = Port(proto: string, port: uint16, process: string, pid: int)

  /** By port, then protocol, then process name; the process ID does not count. */
  predicate LessThan(a: Port, b: Port) {
    if a.port != b.port then a.port < b.port
    else if a.proto != b.proto then TextLess(a.proto, b.proto)
    else TextLess(a.process, b.process)
  }

  predicate SameKey(a: Port, b: Port) {
    a.port == b.port && a.proto == b.proto
  }

  ghost predicate InOrder(s: seq<Port>) {
    forall i, j :: 0 <= i < j < |s| ==> !LessThan(s[j], s[i])
  }

  /** By port and protocol alone. */
  predicate KeyLess(a: Port, b: Port) {
    a.port < b.port || (a.port == b.port && TextLess(a.proto, b.proto))
  }

  lemma KeyLessTransitive(a: Port, b: Port, c: Port)
    requires KeyLess(a, b) && KeyLess(b, c)
    ensures KeyLess(a, c)
  {
    if a.port == b.port == c.port {
      TextTransitive(a.proto, b.proto, c.proto);
    }
  }

  lemma KeyLessNotSame(a: Port, b: Port)
    requires KeyLess(a, b)
    ensures !SameKey(a, b) && LessThan(a, b)
  {
    TextIrreflexive(a.proto);
  }

  /** Not being below means being above in key, or having the key and no smaller process name. */
  lemma NotBelow(a: Port, b: Port)
    requires !LessThan(b, a)
    ensures KeyLess(a, b) || (SameKey(a, b) && !TextLess(b.process, a.process))
  {
    TextConnected(a.proto, b.proto);
  }

  lemma LessAsymmetric(a: Port, b: Port)
    requires LessThan(a, b)
    ensures !LessThan(b, a)
  {
    if LessThan(b, a) {
      if a.port == b.port {
        if a.proto == b.proto {
          TextTransitive(a.process, b.process, a.process);
          TextIrreflexive(a.process);
        } else {
          TextTransitive(a.proto, b.proto, a.proto);
          TextIrreflexive(a.proto);
        }
      }
    }
  }

  /** Not being above is transitive. */
  lemma NotAboveTransitive(a: Port, b: Port, c: Port)
    requires !LessThan(b, a) && !LessThan(c, b)
    ensures !LessThan(c, a)
  {
    NotBelow(a, b);
    NotBelow(b, c);
    if KeyLess(a, b) && KeyLess(b, c) {
      KeyLessTransitive(a, b, c);
    }
    if KeyLess(a, c) {
      KeyLessNotSame(a, c);
      LessAsymmetric(a, c);
    } else if TextLess(c.process, a.process) {
      TextConnected(a.process, b.process);
      if TextLess(a.process, b.process) {
        TextTransitive(c.process, a.process, b.process);
      }
    }
  }

  method SortPorts(ps: seq<Port>) returns (s: seq<Port>)
    ensures InOrder(s) && multiset(s) == multiset(ps)
  {
    s := [];
    for k := 0 to |ps|
      invariant InOrder(s) && multiset(s) == multiset(ps[..k])
    {
      var i := |s|;
      while i > 0 && LessThan(ps[k], s[i - 1])
        invariant 0 <= i <= |s|
        invariant forall j :: i <= j < |s| ==> LessThan(ps[k], s[j])
      {
        i := i - 1;
      }
      InsertInOrder(s, ps[k], i);
      InsertMultiset(s, ps[k], i);
      s := InsertAt(s, i, ps[k]);
      assert ps[..k + 1] == ps[..k] + [ps[k]];
    }
    assert ps[..|ps|] == ps;
  }

  lemma InsertMultiset<T>(s: seq<T>, x: T, i: nat)
    requires i <= |s|
    ensures multiset(InsertAt(s, i, x)) == multiset(s) + multiset{x}
  {
    assert s == s[..i] + s[i..];
  }

  lemma InsertInOrder(s: seq<Port>, p: Port, i: nat)
    requires InOrder(s) && i <= |s| && (i > 0 ==> !LessThan(p, s[i - 1]))
    requires forall j :: i <= j < |s| ==> LessThan(p, s[j])
    ensures InOrder(InsertAt(s, i, p))
  {
    var r := InsertAt(s, i, p);
    forall a, b | 0 <= a < b < |r|
      ensures !LessThan(r[b], r[a])
    {
      if b == i {
        if a < i - 1 {
          NotAboveTransitive(s[a], s[i - 1], p);
        }
      } else if a == i {
        LessAsymmetric(p, s[b - 1]);
      }
    }
  }

  const NO_PORT := Port("", 0, "", 0)

  /** The compaction: an entry is kept when it differs, by protocol and port, from the last kept one. */
  function Dedup(s: seq<Port>): seq<Port> {
    if s == [] then []
    else
      var kept, p := Dedup(s[..|s| - 1]), s[|s| - 1];
      if SameKey(LastKept(kept), p) then kept else kept + [p]
  }

  function LastKept(kept: seq<Port>): Port {
    if kept == [] then NO_PORT else kept[|kept| - 1]
  }

  /** Compacts ps within the same array; returns how much of it is the result. */
  method Compact(ps: array<Port>) returns (n: nat)
    modifies ps
    ensures n <= ps.Length && ps[..n] == Dedup(old(ps[..]))
  {
    ghost var s := ps[..];
    n := 0;
    var last := NO_PORT;
    for i := 0 to ps.Length
      invariant n <= i
      invariant forall j :: i <= j < ps.Length ==> ps[j] == s[j]
      invariant ps[..n] == Dedup(s[..i]) && last == LastKept(ps[..n])
    {
      assert s[..i + 1][..i] == s[..i];
      var p := ps[i];
      if last.proto == p.proto && last.port == p.port {
        continue;
      }
      ghost var kept := ps[..n];
      ps[n] := p;
      n, last := n + 1, p;
      assert ps[..n] == kept + [p];
    }
    assert s[..ps.Length] == s;
  }

  /** Sorts ps, then compacts it. */
  method SortAndDedup(ps: array<Port>) returns (n: nat)
    modifies ps
    ensures n <= ps.Length
    ensures exists s :: InOrder(s) && multiset(s) == multiset(old(ps[..])) && ps[..n] == Dedup(s)
  {
    var s := SortPorts(ps[..]);
    assert |multiset(s)| == |multiset(ps[..])|;
    forall i | 0 <= i < ps.Length {
      ps[i] := s[i];
    }
    assert ps[..] == s;
    n := Compact(ps);
  }

  /** The reserved key: an entry without protocol on port 0 looks like the initial last entry and is lost. */
  predicate Reserved(p: Port) {
    p.proto == "" && p.port == 0
  }

  /** Strictly increasing by port and protocol. */
  ghost predicate KeysIncrease(s: seq<Port>) {
    forall i, j :: 0 <= i < j < |s| ==> KeyLess(s[i], s[j])
  }

  /** An entry of the result that stands for p: the same key, and no larger process name. */
  ghost predicate StandsFor(q: Port, p: Port) {
    SameKey(q, p) && !TextLess(p.process, q.process)
  }

  ghost predicate Represented(out: seq<Port>, p: Port) {
    exists q :: q in out && StandsFor(q, p)
  }

  ghost predicate DedupOk(s: seq<Port>, out: seq<Port>) {
    && KeysIncrease(out)
    && (forall q :: q in out ==> q in s && !Reserved(q))
    && (forall p :: p in s && !Reserved(p) ==> Represented(out, p))
    && (out != [] ==> s != [] && SameKey(LastKept(out), s[|s| - 1]))
    && (out == [] ==> forall p :: p in s ==> Reserved(p))
  }

  lemma {:induction false} DedupCorrect(s: seq<Port>)
    requires InOrder(s)
    ensures DedupOk(s, Dedup(s))
  {
    if s != [] {
      var init, p := s[..|s| - 1], s[|s| - 1];
      DedupCorrect(init);
      var kept := Dedup(init);
      assert s == init + [p];
      if !SameKey(LastKept(kept), p) {
        NewKeyLarger(s, init, kept, p);
      } else if kept != [] {
        OldKeyStands(s, init, kept, p);
      }
    }
  }

  lemma OldKeyStands(s: seq<Port>, init: seq<Port>, kept: seq<Port>, p: Port)
    requires InOrder(s) && s == init + [p] && DedupOk(init, kept) && kept != [] && SameKey(LastKept(kept), p)
    ensures DedupOk(s, kept)
  {
    var q := LastKept(kept);
    assert q in kept && q in init;
    var i :| 0 <= i < |init| && init[i] == q;
    assert s[i] == q && s[|init|] == p;
    NotBelow(q, p);
    assert KeyLess(q, p) ==> !SameKey(q, p) by {
      if KeyLess(q, p) { KeyLessNotSame(q, p); }
    }
    assert Represented(kept, p);
  }

  lemma NewKeyLarger(s: seq<Port>, init: seq<Port>, kept: seq<Port>, p: Port)
    requires InOrder(s) && s == init + [p] && DedupOk(init, kept) && !SameKey(LastKept(kept), p)
    ensures DedupOk(s, kept + [p])
  {
    var out := kept + [p];
    forall i | 0 <= i < |kept|
      ensures KeyLess(kept[i], p)
    {
      KeptBelow(s, init, kept, p, i);
    }
    forall x | x in s && !Reserved(x)
      ensures Represented(out, x)
    {
      if x in init {
        var q :| q in kept && StandsFor(q, x);
        assert q in out;
      } else {
        TextIrreflexive(p.process);
        assert p in out && StandsFor(p, x);
      }
    }
    assert !Reserved(p) by {
      if kept != [] {
        assert KeyLess(kept[0], p);
      }
    }
    assert LastKept(out) == p;
  }

  /** Every kept entry is below p: the last kept one has the key of the entry just before p. */
  lemma KeptBelow(s: seq<Port>, init: seq<Port>, kept: seq<Port>, p: Port, i: nat)
    requires InOrder(s) && s == init + [p] && DedupOk(init, kept) && !SameKey(LastKept(kept), p) && i < |kept|
    ensures KeyLess(kept[i], p)
  {
    var last, prev := LastKept(kept), init[|init| - 1];
    assert s[|init| - 1] == prev && s[|init|] == p;
    NotBelow(prev, p);
    assert KeyLess(last, p);
    if i < |kept| - 1 {
      KeyLessTransitive(kept[i], last, p);
    }
  }

  lemma SameMembers(s: seq<Port>, ps: seq<Port>)
    requires multiset(s) == multiset(ps)
    ensures forall x :: x in s <==> x in ps
  {
    forall x
      ensures x in s <==> x in ps
    {
      assert x in multiset(s) <==> x in multiset(ps);
    }
  }

  /**
    The result lists each (protocol, port) of the input once, in increasing
    order, with its least process name; the one key it misses is the reserved one.
   */
  lemma SortAndDedupCorrect(ps: seq<Port>, s: seq<Port>)
    requires InOrder(s) && multiset(s) == multiset(ps)
    ensures KeysIncrease(Dedup(s))
    ensures forall q :: q in Dedup(s) ==> q in ps
    ensures forall p :: p in ps ==> (Represented(Dedup(s), p) <==> !Reserved(p))
    ensures forall p, q :: p in ps && q in Dedup(s) && SameKey(q, p) ==> !TextLess(p.process, q.process)
  {
    DedupCorrect(s);
    SameMembers(s, ps);
    var out := Dedup(s);
    forall p, q | p in ps && q in out && SameKey(q, p)
      ensures !TextLess(p.process, q.process)
    {
      assert !Reserved(q);
      var r :| r in out && StandsFor(r, p);
      OneEntryPerKey(out, q, r);
    }
  }

  /** The one entry that is lost, alone in its list. */
  lemma ReservedIsLost(p: Port)
    requires Reserved(p)
    ensures InOrder([p]) && Dedup([p]) == []
  {
    assert [p][..0] == [];
  }

  lemma OneEntryPerKey(out: seq<Port>, q: Port, r: Port)
    requires KeysIncrease(out) && q in out && r in out && SameKey(q, r)
    ensures q == r
  {
    var i :| 0 <= i < |out| && out[i] == q;
    var j :| 0 <= j < |out| && out[j] == r;
    if KeyLess(q, r) {
      KeyLessNotSame(q, r);
    } else if KeyLess(r, q) {
      KeyLessNotSame(r, q);
    }
  }

  // ----- polling

  predicate SamePort(a: Port, b: Port) {
    a.port == b.port && a.proto == b.proto && a.process == b.process
  }

  predicate SameList(a: seq<Port>, b: seq<Port>) {
    |a| == |b| && forall i :: 0 <= i < |a| ==> SamePort(a[i], b[i])
  }

  /** The poller: the scratch list it reuses, and the copy it handed out last. */
  class Poller {
    var scratch: array<Port>
    var prev: array<Port>

    ghost predicate Valid()
      reads this
    {
      scratch != prev
    }

    constructor ()
      ensures Valid() && fresh(scratch) && fresh(prev) && prev[..] == []
    {
      scratch := new Port[0];
      prev := new Port[0];
    }

    method Equal(pl: array<Port>, other: array<Port>) returns (same: bool)
      ensures same <==> SameList(pl[..], other[..])
    {
      if pl.Length != other.Length {
        return false;
      }
      for i := 0 to pl.Length
        invariant forall j :: 0 <= j < i ==> SamePort(pl[j], other[j])
      {
        if !SamePort(pl[i], other[i]) {
          return false;
        }
      }
      return true;
    }

    /**
      One poll, given what the operating system lists (None when that fails).  A
      change is reported exactly when the list differs from the one reported
      last; the list handed out is a fresh copy, and no earlier one is touched.
     */
    method Poll(listed: Option<seq<Port>>) returns (ports: array?<Port>, changed: bool)
      requires Valid()
      modifies this, scratch
      ensures Valid()
      ensures changed <==> listed.Some? && !SameList(listed.value, old(prev[..]))
      ensures changed ==> ports == prev && fresh(prev) && prev[..] == listed.value
      ensures !changed ==> ports == null && prev == old(prev) && prev[..] == old(prev[..])
      ensures fresh(scratch) || scratch == old(scratch)
    {
      if listed.None? {
        scratch := new Port[0];
        return null, false;
      }
      var pl := listed.value;
      if |pl| == scratch.Length {
        forall i | 0 <= i < |pl| {
          scratch[i] := pl[i];
        }
      } else {
        scratch := new Port[|pl|](i requires 0 <= i < |pl| => pl[i]);
      }
      assert scratch[..] == pl;
      var same := Equal(scratch, prev);
      if same {
        return null, false;
      }
      var copy := new Port[|pl|](i requires 0 <= i < |pl| => pl[i]);
      prev := copy;
      return prev, true;
    }
  }
}
