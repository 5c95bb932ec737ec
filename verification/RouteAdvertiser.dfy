/**
  The backend's list of advertised routes, and what a route update of the app
  connector does to it: routes are advertised, skipping those disallowed or
  already covered, and then others are withdrawn.
 */
module RouteAdvertiser {
  import opened ByteCodec
  import opened NetAddr
  import opened RouteCover

  /** allowedAutoRoute. */
  type Allowed = Prefix -> bool

  predicate IsDefault(p: Prefix) {
    p == Prefix(V4(0), 0) || p == Prefix(V6(0, ""), 0)
  }

  /** The test on one existing route: it contains the address, or both ends of the range. */
  predicate CoversEnds(r: Prefix, p: Prefix) {
    Contains(r, p.ip) && (IsSingleIP(p) || Contains(r, LastIP(p)))
  }

  predicate CoveredNoDefault(routes: seq<Prefix>, p: Prefix) {
    exists i :: 0 <= i < |routes| && !IsDefault(routes[i]) && CoversEnds(routes[i], p)
  }

  predicate Skipped(routes: seq<Prefix>, p: Prefix, allowed: Allowed) {
    !allowed(p) || p in routes || CoveredNoDefault(routes, p)
  }

  predicate AllMasked(ps: seq<Prefix>) {
    forall i :: 0 <= i < |ps| ==> ps[i] == Masked(ps[i])
  }

  /** The list with the new routes that are not skipped. */
  function Extended(routes: seq<Prefix>, new0: seq<Prefix>, allowed: Allowed): seq<Prefix> {
    if new0 == [] then routes
    else
      var e, p := Extended(routes, new0[..|new0| - 1], allowed), new0[|new0| - 1];
      if Skipped(e, p, allowed) then e else e + [p]
  }

  function Remaining(routes: seq<Prefix>, toRemove: seq<Prefix>): seq<Prefix> {
    if routes == [] then []
    else
      var kept, p := Remaining(routes[..|routes| - 1], toRemove), routes[|routes| - 1];
      if p in toRemove then kept else kept + [p]
  }

  datatype Attempt = Attempt(routes: seq<Prefix>, ok: bool)

  /** AdvertiseRoute; saved is whether editing the preferences succeeds, if it comes to that. */
  function TryAdvertise(routes: seq<Prefix>, new0: seq<Prefix>, allowed: Allowed, saved: bool): Attempt {
    if !AllMasked(new0) then Attempt(routes, false)
    else
      var e := Extended(routes, new0, allowed);
      if |e| == |routes| then Attempt(routes, true) else if saved then Attempt(e, true) else Attempt(routes, false)
  }

  function TryUnadvertise(routes: seq<Prefix>, toRemove: seq<Prefix>, saved: bool): Attempt {
    if saved then Attempt(Remaining(routes, toRemove), true) else Attempt(routes, false)
  }

  class Backend {
    const allowed: Allowed
    var routes: seq<Prefix>

    constructor (allowed: Allowed, routes: seq<Prefix>)
      ensures this.allowed == allowed && this.routes == routes
    {
      this.allowed, this.routes := allowed, routes;
    }

    method Covered(final: seq<Prefix>, p: Prefix) returns (covered: bool)
      ensures covered <==> CoveredNoDefault(final, p)
    {
      for i := 0 to |final|
        invariant forall j :: 0 <= j < i ==> IsDefault(final[j]) || !CoversEnds(final[j], p)
      {
        if !IsDefault(final[i]) && CoversEnds(final[i], p) {
          return true;
        }
      }
      return false;
    }

    method AdvertiseRoute(new0: seq<Prefix>, saved: bool) returns (ok: bool)
      modifies this
      ensures Attempt(routes, ok) == TryAdvertise(old(routes), new0, allowed, saved)
    {
      var final, added := routes, 0;
      for i := 0 to |new0|
        invariant routes == old(routes) && AllMasked(new0[..i])
        invariant final == Extended(routes, new0[..i], allowed) && |final| == |routes| + added
      {
        var p := new0[i];
        if p != Masked(p) {
          return false;
        }
        assert new0[..i + 1][..i] == new0[..i];
        var covered := Covered(final, p);
        if !allowed(p) || p in final || covered {
          continue;
        }
        final, added := final + [p], added + 1;
      }
      assert new0[..|new0|] == new0;
      if added == 0 {
        return true;
      }
      if saved {
        routes := final;
      }
      return saved;
    }

    method UnadvertiseRoute(toRemove: seq<Prefix>, saved: bool) returns (ok: bool)
      modifies this
      ensures Attempt(routes, ok) == TryUnadvertise(old(routes), toRemove, saved)
    {
      var final: seq<Prefix> := [];
      for i := 0 to |routes|
        invariant routes == old(routes) && final == Remaining(routes[..i], toRemove)
      {
        assert routes[..i + 1][..i] == routes[..i];
        if routes[i] !in toRemove {
          final := final + [routes[i]];
        }
      }
      assert routes[..|routes|] == routes;
      if saved {
        routes := final;
      }
      return saved;
    }
  }

  // ----- what ends up on the list

  lemma {:induction false} RemainingMeans(routes: seq<Prefix>, toRemove: seq<Prefix>, p: Prefix)
    ensures p in Remaining(routes, toRemove) <==> p in routes && p !in toRemove
  {
    if routes != [] {
      RemainingMeans(routes[..|routes| - 1], toRemove, p);
      assert routes == routes[..|routes| - 1] + [routes[|routes| - 1]];
    }
  }

  /** Some route of a list, other than a default one, takes in p. */
  ghost predicate Shadowed(routes: seq<Prefix>, p: Prefix) {
    exists c :: c in routes && !IsDefault(c) && CoversEnds(c, p)
  }

  lemma CoveredIsShadowed(routes: seq<Prefix>, p: Prefix)
    ensures CoveredNoDefault(routes, p) <==> Shadowed(routes, p)
  {
    if Shadowed(routes, p) {
      var c :| c in routes && !IsDefault(c) && CoversEnds(c, p);
      var i :| 0 <= i < |routes| && routes[i] == c;
      assert CoversEnds(routes[i], p);
    }
  }

  /** What is on the list afterwards was there, or is new, allowed and not covered before. */
  lemma {:induction false} ExtendedHas(routes: seq<Prefix>, new0: seq<Prefix>, allowed: Allowed, p: Prefix)
    ensures p in routes ==> p in Extended(routes, new0, allowed)
    ensures p in Extended(routes, new0, allowed) ==>
              p in routes || (p in new0 && allowed(p) && !Shadowed(routes, p))
  {
    if new0 != [] {
      var init, last := new0[..|new0| - 1], new0[|new0| - 1];
      ExtendedHas(routes, init, allowed, p);
      var e := Extended(routes, init, allowed);
      if !Skipped(e, last, allowed) && p == last {
        CoveredIsShadowed(e, p);
        forall c | c in routes
          ensures c in e
        {
          ExtendedHas(routes, init, allowed, c);
        }
      }
    }
  }

  /** An allowed new route is on the list afterwards, or shadowed by something there. */
  lemma {:induction false} ExtendedTakes(routes: seq<Prefix>, new0: seq<Prefix>, allowed: Allowed, r: Prefix)
    requires r in new0 && allowed(r)
    ensures r in Extended(routes, new0, allowed) || Shadowed(Extended(routes, new0, allowed), r)
  {
    var init, last := new0[..|new0| - 1], new0[|new0| - 1];
    var e := Extended(routes, init, allowed);
    if r == last {
      CoveredIsShadowed(e, r);
    } else {
      assert r in init;
      ExtendedTakes(routes, init, allowed, r);
      if Shadowed(e, r) {
        var c :| c in e && !IsDefault(c) && CoversEnds(c, r);
        assert c in Extended(routes, new0, allowed);
      }
    }
  }

  lemma CoversAll(c: Prefix, p: Prefix, x: Addr)
    requires WellFormed(p) && p == Masked(p) && CoversEnds(c, p) && Contains(p, x)
    ensures Contains(c, x)
  {
    if IsSingleIP(p) {
      SingleContains(p, x);
    } else {
      EndsContainAll(c, p, x);
    }
  }

  // ----- a whole route update

  /** The list after both halves of an update went through. */
  function AfterUpdate(routes: seq<Prefix>, new0: seq<Prefix>, toRemove: seq<Prefix>, allowed: Allowed): seq<Prefix> {
    TryUnadvertise(TryAdvertise(routes, new0, allowed, true).routes, toRemove, true).routes
  }

  ghost predicate Advertised(routes: seq<Prefix>, x: Addr) {
    exists p :: p in routes && Contains(p, x)
  }

  /** Every address of an allowed new route is advertised. */
  ghost predicate AllAdvertised(new0: seq<Prefix>, allowed: Allowed, routes: seq<Prefix>) {
    forall r, x :: r in new0 && allowed(r) && Contains(r, x) ==> Advertised(routes, x)
  }

  /** An existing route that stays has the address. */
  ghost predicate HeldBefore(routes: seq<Prefix>, toRemove: seq<Prefix>, x: Addr) {
    exists p :: p in routes && p !in toRemove && Contains(p, x)
  }

  /** p would be skipped for an existing route that is then withdrawn. */
  ghost predicate Undercut(routes: seq<Prefix>, toRemove: seq<Prefix>, p: Prefix) {
    exists c :: c in routes && c in toRemove && !IsDefault(c) && CoversEnds(c, p)
  }

  /** A new route that stays has the address, and no existing route to be withdrawn takes it in. */
  ghost predicate TakesOver(routes: seq<Prefix>, new0: seq<Prefix>, toRemove: seq<Prefix>, allowed: Allowed, x: Addr) {
    && AllMasked(new0)
    && exists q :: q in new0 && allowed(q) && q !in toRemove && Contains(q, x) && !Undercut(routes, toRemove, q)
  }

  /** updateRoutes' withdrawals: dropped control routes, and single addresses some new route makes redundant. */
  ghost predicate Ordered(new0: seq<Prefix>, dropped: set<Prefix>, known: set<Addr>, toRemove: seq<Prefix>) {
    && (forall p :: p in new0 ==> WellFormed(p) && p !in dropped)
    && (forall p :: p in toRemove ==> Justified(p, dropped, new0, known))
  }

  lemma AfterUpdateMeans(routes: seq<Prefix>, new0: seq<Prefix>, toRemove: seq<Prefix>, allowed: Allowed, p: Prefix)
    ensures p in AfterUpdate(routes, new0, toRemove, allowed) <==>
              p !in toRemove && p in if AllMasked(new0) then Extended(routes, new0, allowed) else routes
  {
    RemainingMeans(TryAdvertise(routes, new0, allowed, true).routes, toRemove, p);
    ExtendsByCount(routes, new0, allowed);
  }

  lemma {:induction false} ExtendsByCount(routes: seq<Prefix>, new0: seq<Prefix>, allowed: Allowed)
    ensures routes <= Extended(routes, new0, allowed)
  {
    if new0 != [] {
      ExtendsByCount(routes, new0[..|new0| - 1], allowed);
    }
  }

  /** A single address takes in no masked route but itself. */
  lemma SingleTakesIn(c: Prefix, q: Prefix)
    requires WellFormed(c) && IsSingleIP(c) && WellFormed(q) && q == Masked(q) && CoversEnds(c, q)
    ensures q == c
  {
    SingleContains(c, q.ip);
    SingleContains(c, LastIP(q));
    LastAbove(q);
  }

  /** A withdrawal that is not a dropped control route is of a single address. */
  lemma WithdrawnIsSingle(new0: seq<Prefix>, dropped: set<Prefix>, known: set<Addr>, toRemove: seq<Prefix>, c: Prefix)
    requires Ordered(new0, dropped, known, toRemove) && c in toRemove && c !in dropped
    ensures WellFormed(c) && IsSingleIP(c)
  {
    var r :| r in new0 && c in Redundant(r, known);
    var a :| a in known && Hits(r, a) && c == Single(a);
  }

  lemma SurvivesFrom(routes: seq<Prefix>, new0: seq<Prefix>, dropped: set<Prefix>, known: set<Addr>,
                     toRemove: seq<Prefix>, allowed: Allowed, x: Addr)
    requires Ordered(new0, dropped, known, toRemove)
    requires HeldBefore(routes, toRemove, x) || TakesOver(routes, new0, toRemove, allowed, x)
    ensures Advertised(AfterUpdate(routes, new0, toRemove, allowed), x)
  {
    if HeldBefore(routes, toRemove, x) {
      var p :| p in routes && p !in toRemove && Contains(p, x);
      ExtendedHas(routes, new0, allowed, p);
      AfterUpdateMeans(routes, new0, toRemove, allowed, p);
    } else {
      var q :| q in new0 && allowed(q) && q !in toRemove && Contains(q, x) && !Undercut(routes, toRemove, q);
      var p := Holder(routes, new0, dropped, known, toRemove, allowed, q, x);
      AfterUpdateMeans(routes, new0, toRemove, allowed, p);
    }
  }

  /** Who has the addresses of a new route that stays: itself, or what it was skipped for. */
  lemma Holder(routes: seq<Prefix>, new0: seq<Prefix>, dropped: set<Prefix>, known: set<Addr>,
               toRemove: seq<Prefix>, allowed: Allowed, q: Prefix, x: Addr) returns (p: Prefix)
    requires Ordered(new0, dropped, known, toRemove) && AllMasked(new0)
    requires q in new0 && allowed(q) && q !in toRemove && Contains(q, x) && !Undercut(routes, toRemove, q)
    ensures p in Extended(routes, new0, allowed) && p !in toRemove && Contains(p, x)
  {
    var e := Extended(routes, new0, allowed);
    ExtendedTakes(routes, new0, allowed, q);
    if q in e {
      p := q;
    } else {
      p :| p in e && !IsDefault(p) && CoversEnds(p, q);
      CoversAll(p, q, x);
      ExtendedHas(routes, new0, allowed, p);
      if p in toRemove && p in new0 {
        WithdrawnIsSingle(new0, dropped, known, toRemove, p);
        SingleTakesIn(p, q);
      }
    }
  }

  lemma SurvivesOnly(routes: seq<Prefix>, new0: seq<Prefix>, toRemove: seq<Prefix>, allowed: Allowed, x: Addr)
    requires Advertised(AfterUpdate(routes, new0, toRemove, allowed), x)
    ensures HeldBefore(routes, toRemove, x) || TakesOver(routes, new0, toRemove, allowed, x)
  {
    var p :| p in AfterUpdate(routes, new0, toRemove, allowed) && Contains(p, x);
    AfterUpdateMeans(routes, new0, toRemove, allowed, p);
    ExtendedHas(routes, new0, allowed, p);
    UndercutIsShadowed(routes, toRemove, p);
  }

  lemma UndercutIsShadowed(routes: seq<Prefix>, toRemove: seq<Prefix>, p: Prefix)
    ensures Undercut(routes, toRemove, p) ==> Shadowed(routes, p)
  {
  }

  /**
    After a route update every address of an allowed new route is advertised
    exactly when each of them is in an existing route that stays, or in a new one
    that stays and is not skipped for an existing route that is then withdrawn.
   */
  lemma CoverageKeptIff(routes: seq<Prefix>, new0: seq<Prefix>, dropped: set<Prefix>, known: set<Addr>,
                        toRemove: seq<Prefix>, allowed: Allowed)
    requires Ordered(new0, dropped, known, toRemove)
    ensures AllAdvertised(new0, allowed, AfterUpdate(routes, new0, toRemove, allowed)) <==>
            (forall r, x :: r in new0 && allowed(r) && Contains(r, x) ==>
               HeldBefore(routes, toRemove, x) || TakesOver(routes, new0, toRemove, allowed, x))
  {
    var after := AfterUpdate(routes, new0, toRemove, allowed);
    forall x
      ensures Advertised(after, x) <==>
              HeldBefore(routes, toRemove, x) || TakesOver(routes, new0, toRemove, allowed, x)
    {
      if Advertised(after, x) {
        SurvivesOnly(routes, new0, toRemove, allowed, x);
      }
      if HeldBefore(routes, toRemove, x) || TakesOver(routes, new0, toRemove, allowed, x) {
        SurvivesFrom(routes, new0, dropped, known, toRemove, allowed, x);
      }
    }
  }

  /** Some allowed new route that stays has the address. */
  ghost predicate HeldByNew(new0: seq<Prefix>, toRemove: seq<Prefix>, allowed: Allowed, x: Addr) {
    exists q :: q in new0 && allowed(q) && q !in toRemove && Contains(q, x)
  }

  /**
    Without stored routes nothing is dropped.  Then all stay covered exactly when
    every new single address that is withdrawn as redundant is in an existing or
    an allowed new route that stays.
   */
  lemma KeptUnstoredIff(routes: seq<Prefix>, new0: seq<Prefix>, known: set<Addr>, toRemove: seq<Prefix>,
                        allowed: Allowed)
    requires Ordered(new0, {}, known, toRemove) && AllMasked(new0)
    ensures AllAdvertised(new0, allowed, AfterUpdate(routes, new0, toRemove, allowed)) <==>
            (forall r, x :: r in new0 && allowed(r) && r in toRemove && Contains(r, x) ==>
               HeldBefore(routes, toRemove, x) || HeldByNew(new0, toRemove, allowed, x))
  {
    CoverageKeptIff(routes, new0, {}, known, toRemove, allowed);
    forall x
      ensures TakesOver(routes, new0, toRemove, allowed, x) <==> HeldByNew(new0, toRemove, allowed, x)
    {
      if HeldByNew(new0, toRemove, allowed, x) {
        var q :| q in new0 && allowed(q) && q !in toRemove && Contains(q, x);
        NotUndercut(routes, new0, known, toRemove, q);
      }
    }
    forall r, x | r in new0 && allowed(r) && r !in toRemove && Contains(r, x)
      ensures HeldByNew(new0, toRemove, allowed, x)
    {
    }
  }

  /** So without stored routes only a disallowed range can cost an address its route. */
  lemma KeptWithoutStoredRoutes(routes: seq<Prefix>, new0: seq<Prefix>, known: set<Addr>, toRemove: seq<Prefix>,
                                allowed: Allowed)
    requires Ordered(new0, {}, known, toRemove) && AllMasked(new0)
    requires forall r :: r in new0 ==> allowed(r)
    ensures AllAdvertised(new0, allowed, AfterUpdate(routes, new0, toRemove, allowed))
  {
    KeptUnstoredIff(routes, new0, known, toRemove, allowed);
    forall r, x | r in new0 && Contains(r, x)
      ensures HeldByNew(new0, toRemove, allowed, x)
    {
      var q := Larger(new0, known, toRemove, r, x);
    }
  }

  /** A new route that stays and has the address: r, or the one that made r redundant. */
  lemma Larger(new0: seq<Prefix>, known: set<Addr>, toRemove: seq<Prefix>, r: Prefix, x: Addr) returns (q: Prefix)
    requires Ordered(new0, {}, known, toRemove) && r in new0 && Contains(r, x)
    ensures q in new0 && q !in toRemove && Contains(q, x)
  {
    if r !in toRemove {
      return r;
    }
    q :| q in new0 && r in Redundant(q, known);
    var a :| a in known && Hits(q, a) && r == Single(a);
    SingleContains(r, x);
    NotRemovedTwice({}, new0, known, q, a);
  }

  lemma NotUndercut(routes: seq<Prefix>, new0: seq<Prefix>, known: set<Addr>, toRemove: seq<Prefix>, q: Prefix)
    requires Ordered(new0, {}, known, toRemove) && q in new0 && q !in toRemove && q == Masked(q)
    ensures !Undercut(routes, toRemove, q)
  {
    forall c | c in toRemove && CoversEnds(c, q)
      ensures c == q
    {
      WithdrawnIsSingle(new0, {}, known, toRemove, c);
      SingleTakesIn(c, q);
    }
  }

  // ----- two updates that uncover addresses

  /**
    With stored routes, narrowing any control route: the new one is skipped as
    covered, the old one is withdrawn, and nothing is left.
   */
  lemma NarrowingUncovers(wide: Prefix, narrow: Prefix, x: Addr, allowed: Allowed)
    requires WellFormed(narrow) && narrow == Masked(narrow) && narrow != wide && !IsDefault(wide)
    requires CoversEnds(wide, narrow) && Contains(narrow, x) && allowed(narrow)
    ensures Ordered([narrow], {wide}, {}, [wide]) && AfterUpdate([wide], [narrow], [wide], allowed) == []
    ensures !AllAdvertised([narrow], allowed, AfterUpdate([wide], [narrow], [wide], allowed))
  {
    assert CoversEnds([wide][0], narrow);
    assert [narrow][..0] == [] && [wide][..0] == [];
    assert Extended([wide], [narrow], allowed) == [wide];
    assert Remaining([wide], [wide]) == [];
    assert narrow in [narrow] && !Advertised([], x);
  }

  /** From 10.0.0.0/8 to 10.0.0.0/16: the address 10.0.1.1, say, is no longer advertised. */
  lemma TenNarrowed(ten: uint32, allowed: Allowed)
    requires ten == 0x0A00_0000 && allowed(Prefix(V4(ten), 16))
    ensures var wide, narrow := Prefix(V4(ten), 8), Prefix(V4(ten), 16);
            && Contains(narrow, V4(ten + 0x101))
            && AfterUpdate([wide], [narrow], [wide], allowed) == []
  {
    var wide, narrow := Prefix(V4(ten), 8), Prefix(V4(ten), 16);
    TenBlock(ten, HostBits(narrow));
    UnderTen(ten, HostBits(wide));
    UnderTen(ten + 0xFFFF, HostBits(wide));
    NarrowingUncovers(wide, narrow, V4(ten + 0x101), allowed);
  }

  lemma TenBlock(ten: uint32, h: nat)
    requires ten == 0x0A00_0000 && h == 16
    ensures Low(ten, h) == ten && High(ten, h) == ten + 0xFFFF && Shr(ten, h) == Shr(ten + 0x101, h)
  {
    var q := ten / 0x1_0000;
    SixteenUp(q, h);
    BlockOf(q, h);
    InBlock(q, h, ten + 0x101);
  }

  /**
    Without stored routes too, when control lists an address beside a range that
    is disallowed: the address is advertised and at once withdrawn as redundant.
   */
  lemma DisallowedRangeUncovers(wide: Prefix, a: Addr, allowed: Allowed)
    requires WellFormed(wide) && wide == Masked(wide) && Hits(wide, a) && Single(a) == Masked(Single(a))
    requires allowed(Single(a)) && !allowed(wide)
    ensures Ordered([Single(a), wide], {}, {a}, [Single(a)])
    ensures !AllAdvertised([Single(a), wide], allowed, AfterUpdate([], [Single(a), wide], [Single(a)], allowed))
  {
    var one := Single(a);
    var new0 := [one, wide];
    assert one in Redundant(wide, {a}) && wide in new0;
    SingleContains(one, a);
    assert one in new0 && Contains(one, a);
    forall p
      ensures p !in AfterUpdate([], new0, [one], allowed)
    {
      AfterUpdateMeans([], new0, [one], allowed, p);
      ExtendedHas([], new0, allowed, p);
    }
  }
}
