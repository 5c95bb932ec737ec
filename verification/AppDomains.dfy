/** What replacing the configured domains does to the table of known addresses. */
module AppDomains {
  import opened NetAddr
  import opened RouteCover
  import opened AppNames

  predicate IsWildcard(d: string) {
    "*." <= d
  }

  predicate IsName(d: string) {
    d != "" && !IsWildcard(d)
  }

  /** The configured names, lower-cased, in order. */
  function Listed(ds: seq<string>): (ns: seq<string>)
    ensures |ns| <= |ds|
  {
    if ds == [] then []
    else
      var d := ToLower(ds[|ds| - 1]);
      Listed(ds[..|ds| - 1]) + if IsName(d) then [d] else []
  }

  /** The configured wildcards, lower-cased and without their star. */
  function WildcardsOf(ds: seq<string>): seq<string> {
    if ds == [] then []
    else
      var d := ToLower(ds[|ds| - 1]);
      WildcardsOf(ds[..|ds| - 1]) + if IsWildcard(d) then [d[2..]] else []
  }

  lemma OneMore(ds: seq<string>, i: nat)
    requires i < |ds|
    ensures var d := ToLower(ds[i]);
            && Listed(ds[..i + 1]) == (if IsName(d) then Listed(ds[..i]) + [d] else Listed(ds[..i]))
            && WildcardsOf(ds[..i + 1]) ==
               if IsWildcard(d) then WildcardsOf(ds[..i]) + [d[2..]] else WildcardsOf(ds[..i])
  {
    assert ds[..i + 1][..i] == ds[..i];
  }

  function Occurs(ns: seq<string>, d: string): (k: nat)
    ensures k > 0 <==> d in ns
  {
    if ns == [] then 0
    else
      assert d in ns <==> d in ns[..|ns| - 1] || d == ns[|ns| - 1];
      Occurs(ns[..|ns| - 1], d) + if ns[|ns| - 1] == d then 1 else 0
  }

  function AddrsOf(t: Table, d: string): seq<Addr> {
    if d in t then t[d] else []
  }

  /** The table after listing names ns: a name listed again has lost its addresses. */
  ghost predicate Taken(old0: Table, ns: seq<string>, new0: Table, left: Table) {
    && (forall d :: d in new0 <==> d in ns)
    && (forall d :: d in new0 ==> new0[d] == if Occurs(ns, d) == 1 then AddrsOf(old0, d) else [])
    && (forall d :: d in left <==> d in old0 && d !in ns)
    && (forall d :: d in left ==> left[d] == old0[d])
  }

  /** The outcome of updateDomains. */
  ghost predicate Updated(old0: Table, ds: seq<string>, new0: Table) {
    var ns, wcs := Listed(ds), WildcardsOf(ds);
    && (forall d :: d in new0 <==> d in ns || (d in old0 && MatchesWildcard(d, wcs)))
    && (forall d :: d in new0 ==>
          new0[d] == if d !in ns then old0[d] else if Occurs(ns, d) == 1 then AddrsOf(old0, d) else [])
  }

  /** The names of left that a wildcard matches move over to the table. */
  ghost predicate Moved(mid: Table, left0: Table, wildcards: seq<string>, new0: Table, left: Table) {
    && (forall d :: d in new0 <==> d in mid || (d in left0 && MatchesWildcard(d, wildcards)))
    && (forall d :: d in new0 ==> new0[d] == if d in mid then mid[d] else left0[d])
    && (forall d :: d in left <==> d in left0 && !MatchesWildcard(d, wildcards))
    && (forall d :: d in left ==> left[d] == left0[d])
  }

  /** The two passes together. */
  lemma PassesCompose(old0: Table, ds: seq<string>, mid: Table, left0: Table, new0: Table, left: Table)
    requires Taken(old0, Listed(ds), mid, left0) && Moved(mid, left0, WildcardsOf(ds), new0, left)
    ensures Updated(old0, ds, new0)
    ensures forall d :: d in left <==> d in old0 && d !in new0
    ensures forall d :: d in left ==> left[d] == old0[d]
    ensures forall d :: d in new0 ==> new0[d] == [] || (d in old0 && new0[d] == old0[d])
  {
  }

  /** A domain and address of the old table. */
  predicate Pair(t: Table, d: string, a: Addr) {
    d in t && a in t[d]
  }

  /** The single-address routes of the domains no longer tracked. */
  ghost predicate Withdrawn(old0: Table, new0: Table, p: Prefix) {
    exists d, a :: Pair(old0, d, a) && d !in new0 && p == Single(a)
  }

  /** A configured list keeps the name: it is listed, or an old name under a wildcard. */
  predicate Stays(ds: seq<string>, d: string) {
    d in Listed(ds) || MatchesWildcard(d, WildcardsOf(ds))
  }

  /** A name that does not stay has the same single-address route. */
  ghost predicate SharedWithDropped(old0: Table, ds: seq<string>, a: Addr) {
    exists d, b :: Pair(old0, d, b) && !Stays(ds, d) && Single(b) == Single(a)
  }

  /** Names that stay keep their addresses exactly when none that has any is listed twice. */
  lemma AddressesKeptIff(old0: Table, ds: seq<string>, new0: Table)
    requires Updated(old0, ds, new0)
    ensures (forall d :: d in new0 ==> new0[d] == AddrsOf(old0, d)) <==>
            (forall d :: d in old0 && old0[d] != [] ==> Occurs(Listed(ds), d) <= 1)
  {
    forall d | d in new0
      ensures new0[d] == AddrsOf(old0, d) <==> (d in old0 && old0[d] != [] ==> Occurs(Listed(ds), d) <= 1)
    {
    }
    assert forall d :: Occurs(Listed(ds), d) > 1 ==> d in Listed(ds) && d in new0;
  }

  /** What becomes of one old pair: kept if its name stays and is not repeated; withdrawn by address. */
  lemma PairFate(old0: Table, ds: seq<string>, new0: Table, d: string, a: Addr)
    requires Updated(old0, ds, new0) && Pair(old0, d, a)
    ensures Pair(new0, d, a) <==> Stays(ds, d) && Occurs(Listed(ds), d) <= 1
    ensures Withdrawn(old0, new0, Single(a)) <==> SharedWithDropped(old0, ds, a)
    ensures !Stays(ds, d) ==> SharedWithDropped(old0, ds, a)
  {
    if Withdrawn(old0, new0, Single(a)) {
      var d', b :| Pair(old0, d', b) && d' !in new0 && Single(a) == Single(b);
      assert !Stays(ds, d');
    }
    if SharedWithDropped(old0, ds, a) {
      var d', b :| Pair(old0, d', b) && !Stays(ds, d') && Single(b) == Single(a);
      assert d' !in new0;
    }
  }

  /**
    Each old (domain, address) pair is either kept or on the list of withdrawals,
    never both, exactly when of the pairs whose name stays, those listed once (or
    not at all) are those whose route no dropped name shares.
   */
  lemma KeptXorWithdrawnIff(old0: Table, ds: seq<string>, new0: Table)
    requires Updated(old0, ds, new0)
    ensures (forall d, a :: Pair(old0, d, a) ==> (Pair(new0, d, a) <==> !Withdrawn(old0, new0, Single(a)))) <==>
            (forall d, a :: Pair(old0, d, a) && Stays(ds, d) ==>
               (Occurs(Listed(ds), d) <= 1 <==> !SharedWithDropped(old0, ds, a)))
  {
    forall d, a | Pair(old0, d, a)
      ensures (Pair(new0, d, a) <==> !Withdrawn(old0, new0, Single(a))) <==>
              (Stays(ds, d) ==> (Occurs(Listed(ds), d) <= 1 <==> !SharedWithDropped(old0, ds, a)))
    {
      PairFate(old0, ds, new0, d, a);
    }
  }

  /** A name listed twice loses its addresses, and their routes stay advertised. */
  lemma RepeatedNameLosesAddresses(x: string, a: Addr)
    requires ToLower(x) == x && IsName(x)
    ensures Updated(map[x := [a]], [x, x], map[x := []])
    ensures !Pair(map[x := []], x, a) && !Withdrawn(map[x := [a]], map[x := []], Single(a))
  {
    TwoNames(x);
    assert forall d :: Occurs([x, x], d) > 0 <==> d == x;
  }

  lemma TwoNames(x: string)
    requires ToLower(x) == x && IsName(x)
    ensures Listed([x, x]) == [x, x] && WildcardsOf([x, x]) == [] && Occurs([x, x], x) == 2
  {
    OneName(x);
    assert [x, x][..1] == [x];
  }

  lemma OneName(x: string)
    requires ToLower(x) == x && IsName(x)
    ensures Listed([x]) == [x] && WildcardsOf([x]) == [] && Occurs([x], x) == 1
  {
    assert [x][..0] == [];
    assert Occurs([], x) == 0;
  }

  /** Two domains at one address, one of them dropped: the other's route is withdrawn. */
  lemma SharedAddressLosesRoute(x: string, y: string, a: Addr)
    requires ToLower(x) == x && IsName(x) && x != y
    ensures Updated(map[x := [a], y := [a]], [x], map[x := [a]])
    ensures Pair(map[x := [a]], x, a) && Withdrawn(map[x := [a], y := [a]], map[x := [a]], Single(a))
  {
    OneName(x);
    var old0: Table, new0: Table := map[x := [a], y := [a]], map[x := [a]];
    assert Pair(old0, y, a) && y !in new0;
  }
}
