/** The port ranges a service announces: the configured TCP ports, coalesced. */
module PortRanges {
  import opened ByteCodec
  import opened SortedSeqs

  const TCP := 6

  datatype ProtoPortRange = ProtoPortRange(proto: int, first: uint16, last: uint16)

  const ANY := ProtoPortRange(0, 0, 65535)

  predicate Below(a: uint16, b: uint16) {
    a < b
  }

  predicate In(r: ProtoPortRange, p: uint16) {
    r.first <= p <= r.last
  }

  predicate Covers(rs: seq<ProtoPortRange>, p: uint16) {
    exists i :: 0 <= i < |rs| && In(rs[i], p)
  }

  /** Non-empty TCP ranges in ascending order with a gap between any two. */
  ghost predicate Separated(rs: seq<ProtoPortRange>) {
    && (forall i :: 0 <= i < |rs| ==> rs[i].proto == TCP && rs[i].first <= rs[i].last)
    && (forall i, j :: 0 <= i < j < |rs| ==> rs[i].last + 1 < rs[j].first)
  }

  /** The elements of a set, in whatever order, then sorted. */
  method SortedPorts(ports: set<uint16>) returns (s: seq<uint16>)
    ensures Sorted(s, Below) && forall p :: p in s <==> p in ports
  {
    s := [];
    var todo := ports;
    while todo != {}
      invariant todo <= ports
      invariant Sorted(s, Below) && forall p :: p in s <==> p in ports && p !in todo
      decreases todo
    {
      var p :| p in todo;
      SortedAscends(s, Below);
      var i := LowerBound(s, p, Below);
      InsertKeepsSorted(s, p, Below, i);
      forall q
        ensures q in InsertAt(s, i, p) <==> q == p || q in s
      {
        InsertMembers(s, p, i, q);
      }
      s := InsertAt(s, i, p);
      todo := todo - {p};
    }
  }

  /** Last + 1 in 16 bits. */
  function Next(p: uint16): uint16 {
    if p == 65535 then 0 else p + 1
  }

  /** Extends the last range while ports follow on; the wrap of 65535 + 1 to 0 never joins anything. */
  method Coalesce(ports: seq<uint16>) returns (rs: seq<ProtoPortRange>)
    requires Sorted(ports, Below) && forall i :: 0 <= i < |ports| ==> ports[i] > 0
    ensures Separated(rs)
    ensures forall p :: Covers(rs, p) <==> p in ports
  {
    rs := [];
    for k := 0 to |ports|
      invariant Separated(rs)
      invariant if k == 0 then rs == [] else rs != [] && rs[|rs| - 1].last == ports[k - 1]
      invariant forall p :: Covers(rs, p) <==> p in ports[..k]
    {
      var p, n := ports[k], |rs|;
      ghost var before := rs;
      assert k > 0 ==> Below(ports[k - 1], p);
      if n > 0 && p == Next(rs[n - 1].last) {
        rs := rs[n - 1 := rs[n - 1].(last := p)];
        ExtendCovers(before, p);
      } else {
        rs := rs + [ProtoPortRange(TCP, p, p)];
        AppendCovers(before, p);
      }
      assert ports[..k + 1] == ports[..k] + [p];
    }
    assert ports[..|ports|] == ports;
  }

  lemma ExtendCovers(rs: seq<ProtoPortRange>, p: uint16)
    requires rs != [] && rs[|rs| - 1].first <= rs[|rs| - 1].last && p == rs[|rs| - 1].last + 1
    ensures forall q :: Covers(rs[|rs| - 1 := rs[|rs| - 1].(last := p)], q) <==> Covers(rs, q) || q == p
  {
    var n := |rs| - 1;
    var rs' := rs[n := rs[n].(last := p)];
    forall q
      ensures Covers(rs', q) <==> Covers(rs, q) || q == p
    {
      if Covers(rs, q) {
        var i :| 0 <= i < |rs| && In(rs[i], q);
        assert In(rs'[i], q);
      }
      assert In(rs'[n], p);
      if Covers(rs', q) {
        var i :| 0 <= i < |rs'| && In(rs'[i], q);
        assert In(rs[i], q) || q == p;
      }
    }
  }

  lemma AppendCovers(rs: seq<ProtoPortRange>, p: uint16)
    ensures forall q :: Covers(rs + [ProtoPortRange(TCP, p, p)], q) <==> Covers(rs, q) || q == p
  {
    var rs' := rs + [ProtoPortRange(TCP, p, p)];
    forall q
      ensures Covers(rs', q) <==> Covers(rs, q) || q == p
    {
      if Covers(rs, q) {
        var i :| 0 <= i < |rs| && In(rs[i], q);
        assert In(rs'[i], q);
      }
      assert In(rs'[|rs|], p);
      if Covers(rs', q) {
        var i :| 0 <= i < |rs'| && In(rs'[i], q);
        assert i < |rs| ==> In(rs[i], q);
      }
    }
  }

  /** ServicePortRange: everything in Tun mode, else exactly the nonzero configured ports. */
  method ServicePortRange(tun: bool, tcp: set<uint16>) returns (rs: seq<ProtoPortRange>)
    ensures tun ==> rs == [ANY]
    ensures !tun ==> Separated(rs) && forall p :: Covers(rs, p) <==> p in tcp && p > 0
  {
    if tun {
      return [ANY];
    }
    var servePorts: set<uint16> := {};
    var todo := tcp;
    while todo != {}
      invariant todo <= tcp && servePorts == set p | p in tcp && p !in todo && p > 0
      decreases todo
    {
      var port :| port in todo;
      if port > 0 {
        servePorts := servePorts + {port};
      }
      todo := todo - {port};
    }
    var sorted := SortedPorts(servePorts);
    forall i | 0 <= i < |sorted|
      ensures sorted[i] > 0
    {
      assert sorted[i] in sorted;
    }
    rs := Coalesce(sorted);
  }

  // ----- no list of ranges does with fewer

  /** A range of another exact list that contains the i-th first port. */
  ghost function Owner(rs: seq<ProtoPortRange>, others: seq<ProtoPortRange>, i: nat): (k: nat)
    requires Separated(rs) && i < |rs| && forall p :: Covers(rs, p) <==> Covers(others, p)
    ensures k < |others| && In(others[k], rs[i].first)
  {
    assert In(rs[i], rs[i].first);
    assert Covers(rs, rs[i].first);
    assert Covers(others, rs[i].first);
    var k :| 0 <= k < |others| && In(others[k], rs[i].first);
    k
  }

  /** The port in front of a range is in no range. */
  lemma GapUncovered(rs: seq<ProtoPortRange>, i: nat, j: nat)
    requires Separated(rs) && i < j < |rs|
    ensures rs[i].first < rs[j].first - 1 && !Covers(rs, rs[j].first - 1)
  {
    assert rs[i].last + 1 < rs[j].first;
    forall k | 0 <= k < |rs|
      ensures !In(rs[k], rs[j].first - 1)
    {
      if k < j {
        assert rs[k].last + 1 < rs[j].first;
      } else if k > j {
        assert rs[j].last + 1 < rs[k].first;
      }
    }
  }

  lemma BetweenIsIn(others: seq<ProtoPortRange>, k: nat, a: uint16, g: uint16, b: uint16)
    requires k < |others| && a <= g <= b
    ensures In(others[k], a) && In(others[k], b) ==> Covers(others, g)
  {
  }

  lemma OwnersDiffer(rs: seq<ProtoPortRange>, others: seq<ProtoPortRange>, i: nat, j: nat)
    requires Separated(rs) && i < j < |rs| && forall p :: Covers(rs, p) <==> Covers(others, p)
    ensures Owner(rs, others, i) != Owner(rs, others, j)
  {
    GapUncovered(rs, i, j);
    BetweenIsIn(others, Owner(rs, others, i), rs[i].first, rs[j].first - 1, rs[j].first);
  }

  ghost function Owners(rs: seq<ProtoPortRange>, others: seq<ProtoPortRange>, n: nat): set<nat>
    requires Separated(rs) && n <= |rs| && forall p :: Covers(rs, p) <==> Covers(others, p)
  {
    set i | 0 <= i < n :: Owner(rs, others, i)
  }

  lemma {:induction false} CountOwners(rs: seq<ProtoPortRange>, others: seq<ProtoPortRange>, n: nat)
    requires Separated(rs) && n <= |rs| && forall p :: Covers(rs, p) <==> Covers(others, p)
    ensures |Owners(rs, others, n)| == n
  {
    if n > 0 {
      CountOwners(rs, others, n - 1);
      var o, before := Owner(rs, others, n - 1), Owners(rs, others, n - 1);
      forall i | 0 <= i < n - 1
        ensures Owner(rs, others, i) != o
      {
        OwnersDiffer(rs, others, i, n - 1);
      }
      assert Owners(rs, others, n) == before + {o};
    }
  }

  lemma {:induction false} BelowCount(s: set<nat>, m: nat)
    requires forall x :: x in s ==> x < m
    ensures |s| <= m
  {
    if m > 0 {
      BelowCount(s - {m - 1}, m - 1);
    } else {
      assert s == {};
    }
  }

  /** Any list of ranges that contains exactly the same ports has at least as many. */
  lemma FewestRanges(rs: seq<ProtoPortRange>, others: seq<ProtoPortRange>)
    requires Separated(rs) && forall p :: Covers(rs, p) <==> Covers(others, p)
    ensures |rs| <= |others|
  {
    CountOwners(rs, others, |rs|);
    BelowCount(Owners(rs, others, |rs|), |others|);
  }
}
