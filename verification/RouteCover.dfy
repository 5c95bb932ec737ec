/**
  Which routes an update of the control routes withdraws: those control no longer
  lists, and single addresses that a new, larger route contains.
 */
module RouteCover {
  import opened ByteCodec
  import opened NetAddr

  function Members(ps: seq<Prefix>): set<Prefix> {
    set p | p in ps
  }

  /** Route r makes the single-address route of a redundant. */
  predicate Hits(r: Prefix, a: Addr) {
    Contains(r, a) && Single(a) != r
  }

  /** The single-address routes among the known addresses that r makes redundant. */
  ghost function Redundant(r: Prefix, known: set<Addr>): set<Prefix> {
    set a | a in known && Hits(r, a) :: Single(a)
  }

  /** A withdrawal updateRoutes may order: a dropped control route, or a redundant single address. */
  ghost predicate Justified(p: Prefix, dropped: set<Prefix>, routes: seq<Prefix>, known: set<Addr>) {
    p in dropped || exists r :: r in routes && p in Redundant(r, known)
  }

  /** The larger route is not itself withdrawn as somebody's single address. */
  lemma NotRemovedTwice(dropped: set<Prefix>, routes: seq<Prefix>, known: set<Addr>, larger: Prefix, a: Addr)
    requires larger in routes && WellFormed(larger) && larger !in dropped && Hits(larger, a)
    ensures !Justified(larger, dropped, routes, known)
  {
    if r :| r in routes && larger in Redundant(r, known) {
      var b :| b in known && Hits(r, b) && larger == Single(b);
      SingleContains(larger, a);
    }
  }

  // ----- which redundant routes are really withdrawn

  type Pick = seq<Option<Prefix>>

  /** One withdrawal for each route that has any to order: after the first the loop goes on to the next route. */
  ghost predicate Picks(routes: seq<Prefix>, known: set<Addr>, pick: Pick) {
    && |pick| == |routes|
    && forall i :: 0 <= i < |routes| ==>
         if pick[i].Some? then pick[i].value in Redundant(routes[i], known) else Redundant(routes[i], known) == {}
  }

  ghost predicate Picked(pick: Pick, p: Prefix) {
    exists i :: 0 <= i < |pick| && pick[i] == Some(p)
  }

  /** Every redundant single-address route is withdrawn, by the picks or as a dropped control route. */
  ghost predicate AllWithdrawn(dropped: set<Prefix>, routes: seq<Prefix>, known: set<Addr>, pick: Pick) {
    forall i, p :: 0 <= i < |routes| && p in Redundant(routes[i], known) ==> p in dropped || Picked(pick, p)
  }

  /** Some route leaves no choice but p. */
  ghost predicate Forced(routes: seq<Prefix>, known: set<Addr>, p: Prefix) {
    exists i :: 0 <= i < |routes| && Redundant(routes[i], known) == {p}
  }

  /** A choice from s, and not p if there is another one. */
  ghost function Avoid(s: set<Prefix>, p: Prefix): (q: Option<Prefix>)
    ensures q.None? <==> s == {}
    ensures q.Some? ==> q.value in s && (q.value == p ==> s == {p})
  {
    if s == {} then None
    else if s == {p} then Some(p)
    else
      assert s - {p} != {} by {
        assert s <= (s - {p}) + {p};
      }
      var q :| q in s - {p};
      Some(q)
  }

  /** Picks that avoid p wherever they can. */
  ghost function Avoiding(routes: seq<Prefix>, known: set<Addr>, p: Prefix): (pick: Pick)
    ensures Picks(routes, known, pick)
    ensures Picked(pick, p) ==> Forced(routes, known, p)
  {
    seq(|routes|, i requires 0 <= i < |routes| => Avoid(Redundant(routes[i], known), p))
  }

  /**
    updateRoutes is documented to withdraw any single-address route the new
    ranges cover, but it withdraws one per range.  Whichever it meets first, all
    are withdrawn exactly when each of them is the only candidate of some range.
   */
  lemma AllWithdrawnIffForced(dropped: set<Prefix>, routes: seq<Prefix>, known: set<Addr>)
    ensures (forall pick :: Picks(routes, known, pick) ==> AllWithdrawn(dropped, routes, known, pick)) <==>
            (forall i, p :: 0 <= i < |routes| && p in Redundant(routes[i], known) ==>
               p in dropped || Forced(routes, known, p))
  {
    if forall i, p :: 0 <= i < |routes| && p in Redundant(routes[i], known) ==>
         p in dropped || Forced(routes, known, p) {
      forall pick | Picks(routes, known, pick)
        ensures AllWithdrawn(dropped, routes, known, pick)
      {
        forall i, p | 0 <= i < |routes| && p in Redundant(routes[i], known) && p !in dropped
          ensures Picked(pick, p)
        {
          var only :| 0 <= only < |routes| && Redundant(routes[only], known) == {p};
          assert pick[only] == Some(p);
        }
      }
    } else {
      var i, p :| 0 <= i < |routes| && p in Redundant(routes[i], known) && p !in dropped && !Forced(routes, known, p);
      var pick := Avoiding(routes, known, p);
      assert Picks(routes, known, pick) && !Picked(pick, p);
    }
  }

  /** Two addresses in one range: one of them can stay advertised. */
  lemma OneIsLeft(r: Prefix, a: Addr, b: Addr)
    requires Hits(r, a) && Hits(r, b) && Single(a) != Single(b)
    ensures Picks([r], {a, b}, [Some(Single(a))]) && !AllWithdrawn({}, [r], {a, b}, [Some(Single(a))])
  {
    var pick: Pick := [Some(Single(a))];
    assert Single(a) in Redundant([r][0], {a, b}) && Single(b) in Redundant([r][0], {a, b});
    assert !Picked(pick, Single(b));
  }

  /** 10.0.0.1 and 10.0.0.2 under the new range 10.0.0.0/8: the second one's route is left. */
  lemma AddressLeftAdvertised(ten: uint32)
    requires ten == 0x0A00_0000
    ensures var r, a, b := Prefix(V4(ten), 8), V4(ten + 1), V4(ten + 2);
            Picks([r], {a, b}, [Some(Single(a))]) && !AllWithdrawn({}, [r], {a, b}, [Some(Single(a))])
  {
    var r, a, b := Prefix(V4(ten), 8), V4(ten + 1), V4(ten + 2);
    UnderTen(ten, 24);
    UnderTen(ten + 1, 24);
    UnderTen(ten + 2, 24);
    OneIsLeft(r, a, b);
  }

  /** 10.0.0.0/8 spans the addresses that begin with ten. */
  lemma UnderTen(x: nat, h: nat)
    requires 0x0A00_0000 <= x < 0x0B00_0000 && h == 24
    ensures Shr(x, h) == 10
  {
    var ten := x / 0x100_0000;
    SixteenUp(ten, h - 8);
    EightUp(ten, h - 8);
    InBlock(ten, h, x);
  }
}
