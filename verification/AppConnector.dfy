/**
  The app connector: tables rewritten in place by configuration updates and by
  observed DNS responses, and a queue of route advertisements run later.
 */
module AppConnector {
  import opened ByteCodec
  import opened SortedSeqs
  import opened NetAddr
  import opened RouteCover
  import RA = RouteAdvertiser
  import opened AppNames
  import opened AppDomains

  /** Work put on the queue. */
  datatype Task =
    | AdvertiseFor(domain: string, routes: seq<Prefix>)
    | Replace(advertise: seq<Prefix>, withdraw: seq<Prefix>)
    | Withdraw(routes: seq<Prefix>)

  predicate Covered(routes: seq<Prefix>, a: Addr) {
    exists i :: 0 <= i < |routes| && Contains(routes[i], a)
  }

  ghost predicate AllSorted(t: Table) {
    forall d :: d in t ==> Sorted(t[d], AddrLess)
  }

  /** One address more in one domain's list, which stays sorted. */
  ghost predicate Added(before: Table, after: Table, d: string, a: Addr) {
    && after.Keys == before.Keys + {d}
    && (forall x :: x in before && x != d ==> after[x] == before[x])
    && Sorted(after[d], AddrLess)
    && (forall y :: y in after[d] <==> y == a || y in AddrsOf(before, d))
  }

  /** The list with one address more, where it belongs in the order. */
  ghost predicate Inserted(list: seq<Addr>, a: Addr, i: nat, after: seq<Addr>) {
    i <= |list| && IsLowerBound(list, a, AddrLess, i) && after == InsertAt(list, i, a)
  }

  /** Inserting keeps the order strict exactly when the address is new. */
  lemma InsertOutcome(list: seq<Addr>, a: Addr, i: nat)
    requires Sorted(list, AddrLess) && IsLowerBound(list, a, AddrLess, i)
    ensures Sorted(InsertAt(list, i, a), AddrLess) <==> a !in list
    ensures forall y :: y in InsertAt(list, i, a) <==> y == a || y in list
  {
    AddrOrder();
    SearchIsMembership(list, a, AddrLess, i);
    if a in list {
      var r := InsertAt(list, i, a);
      assert r[i] == a && r[i + 1] == a && !AddrLess(a, a);
    } else {
      InsertKeepsSorted(list, a, AddrLess, i);
    }
    forall y
      ensures y in InsertAt(list, i, a) <==> y == a || y in list
    {
      InsertMembers(list, a, i, y);
    }
  }

  /** A record that named a tracked domain was routed as this. */
  datatype Outcome = Routed(domain: string) | Unrouted

  /** The address is on the queue to be advertised for the domain. */
  ghost predicate Scheduled(tasks: seq<Task>, d: string, a: Addr) {
    exists t :: t in tasks && t.AdvertiseFor? && t.domain == d && Single(a) in t.routes
  }

  /** An address as DNS delivers it: valid and without a zone. */
  predicate Plain(a: Addr) {
    Zone(a) == "" && !a.NoAddr?
  }

  predicate AllPlain(addrs: seq<Addr>) {
    forall i :: 0 <= i < |addrs| ==> Plain(addrs[i])
  }

  datatype Record = Record(name: string, addrs: seq<Addr>)

  /** All known addresses. */
  ghost function Known(t: Table): set<Addr> {
    set d, a | d in t && a in t[d] :: a
  }

  class Connector {
    const stored: bool
    var domains: Table
    var controlRoutes: seq<Prefix>
    var wildcards: seq<string>
    var queue: seq<Task>
    /** The backend that advertises. */
    const ra: RA.Backend

    /** Every list is strictly sorted, hence free of duplicates. */
    ghost predicate Valid()
      reads this
    {
      AllSorted(domains)
    }

    constructor (stored: bool, domains: Table, wildcards: seq<string>, control: seq<Prefix>, ra: RA.Backend)
      requires AllSorted(domains)
      ensures Valid() && this.stored == stored && this.domains == domains && this.wildcards == wildcards
      ensures controlRoutes == control && queue == [] && this.ra == ra
    {
      this.stored, this.domains, this.wildcards, this.controlRoutes := stored, domains, wildcards, control;
      this.queue, this.ra := [], ra;
    }

    /** Binary search finds an address exactly when the domain has it. */
    method HasDomainAddr(domain: string, addr: Addr) returns (ok: bool)
      requires Valid()
      ensures ok <==> Pair(domains, domain, addr)
    {
      var list := AddrsOf(domains, domain);
      AddrOrder();
      SortedAscends(list, AddrLess);
      var i := LowerBound(list, addr, AddrLess);
      SearchIsMembership(list, addr, AddrLess, i);
      return i < |list| && list[i] == addr;
    }

    /** Appends and sorts.  An address the domain has already would be there twice; callers look first. */
    method AddDomainAddr(domain: string, addr: Addr)
      requires Valid()
      modifies this`domains
      ensures domain in domains && domains == old(domains)[domain := domains[domain]]
      ensures exists i :: Inserted(AddrsOf(old(domains), domain), addr, i, domains[domain])
      ensures Valid() <==> !Pair(old(domains), domain, addr)
      ensures Valid() ==> Added(old(domains), domains, domain, addr)
    {
      var list := AddrsOf(domains, domain);
      AddrOrder();
      SortedAscends(list, AddrLess);
      var i := LowerBound(list, addr, AddrLess);
      InsertOutcome(list, addr, i);
      domains := domains[domain := InsertAt(list, i, addr)];
      assert Inserted(list, addr, i, domains[domain]);
    }

    /** Known already, or contained in a control route, in which case it is recorded. */
    method IsAddrKnown(domain: string, addr: Addr) returns (known: bool)
      requires Valid()
      modifies this`domains
      ensures Valid()
      ensures known <==> Pair(old(domains), domain, addr) || Covered(controlRoutes, addr)
      ensures if known && !Pair(old(domains), domain, addr) then Added(old(domains), domains, domain, addr)
              else domains == old(domains)
    {
      var has := HasDomainAddr(domain, addr);
      if has {
        return true;
      }
      for i := 0 to |controlRoutes|
        invariant domains == old(domains)
        invariant forall j :: 0 <= j < i ==> !Contains(controlRoutes[j], addr)
      {
        if Contains(controlRoutes[i], addr) {
          AddDomainAddr(domain, addr);
          return true;
        }
      }
      return false;
    }

    method MatchWildcards(domain: string) returns (hit: bool)
      ensures hit <==> MatchesWildcard(domain, wildcards)
    {
      for i := 0 to |wildcards|
        invariant forall j :: 0 <= j < i ==> !HasSuffix(domain, wildcards[j])
      {
        if HasSuffix(domain, wildcards[i]) {
          return true;
        }
      }
      return false;
    }

    method FindRoutedDomain(name: string, chain: Chain, ghost n: nat) returns (domain: string, routed: bool)
      requires Halts(domains, wildcards, chain, name, n)
      modifies this`domains
      ensures Walk(domains, domain, routed) == FindRouted(old(domains), wildcards, chain, name, n)
      ensures routed ==> domain in domains
    {
      domain := name;
      ghost var left := n;
      while true
        invariant Halts(domains, wildcards, chain, domain, left)
        invariant FindRouted(domains, wildcards, chain, domain, left) ==
                  FindRouted(old(domains), wildcards, chain, name, n)
        decreases left
      {
        if domain in domains {
          return domain, true;
        }
        routed := MatchWildcards(domain);
        ghost var before := domains;
        if routed {
          domains := domains[domain := []];
        }
        assert domains == Visit(before, wildcards, domain);
        if domain !in chain {
          return domain, routed;
        }
        domain, left := chain[domain], left - 1;
      }
    }

    /** The addresses of one record: covered ones are recorded, the rest are to be advertised. */
    method LearnAddrs(domain: string, addrs: seq<Addr>) returns (toAdvertise: seq<Prefix>)
      requires Valid() && AllPlain(addrs) && domain in domains
      modifies this`domains
      ensures Valid() && Learned(controlRoutes, old(domains), domains)
      ensures Grown(old(domains), domains, wildcards, Given(Routed(domain), addrs))
      ensures forall a :: a in addrs ==> Pair(domains, domain, a) || Single(a) in toAdvertise
      ensures Pending(controlRoutes, domains, AdvertiseFor(domain, toAdvertise), Given(Routed(domain), addrs))
    {
      toAdvertise := [];
      ghost var given := Given(Routed(domain), addrs);
      for i := 0 to |addrs|
        invariant Valid() && Learned(controlRoutes, old(domains), domains) && domain in domains
        invariant Grown(old(domains), domains, wildcards, given)
        invariant forall a :: a in addrs[..i] ==> Pair(domains, domain, a) || Single(a) in toAdvertise
        invariant Pending(controlRoutes, domains, AdvertiseFor(domain, toAdvertise), given)
      {
        ghost var before := domains;
        var known := IsAddrKnown(domain, addrs[i]);
        LearnedStep(controlRoutes, before, domains, domain, addrs[i]);
        GrownStep(old(domains), before, domains, wildcards, given, domain, addrs[i]);
        PendingLater(controlRoutes, before, domains, AdvertiseFor(domain, toAdvertise), given, given);
        assert forall a :: a in addrs[..i + 1] <==> a in addrs[..i] || a == addrs[i];
        if !known {
          PendingMore(controlRoutes, domains, domain, toAdvertise, given, addrs[i]);
          toAdvertise := toAdvertise + [Single(addrs[i])];
        }
      }
      assert addrs[..|addrs|] == addrs;
    }

    /** One record of a response: its routed domain learns the covered addresses, the others are scheduled. */
    method ObserveRecord(r: Record, chain: Chain, ghost rank: string -> nat)
        returns (outcome: Outcome, ghost new0: seq<Task>)
      requires Valid() && Ranked(chain, rank) && AllPlain(r.addrs)
      modifies this`domains, this`queue
      ensures Valid() && queue == old(queue) + new0 && |new0| <= 1
      ensures Observed(controlRoutes, wildcards, chain, rank, old(domains), domains, r, outcome, new0)
    {
      ghost var n := StepBound(domains, wildcards, chain, r.name, rank);
      var domain, routed := FindRoutedDomain(r.name, chain, n);
      WalkedSorted(old(domains), wildcards, chain, r.name, n);
      new0 := [];
      if !routed {
        outcome := Unrouted;
        UnroutedObserved(controlRoutes, wildcards, chain, rank, old(domains), r);
        return;
      }
      outcome := Routed(domain);
      var toAdvertise := LearnAddrs(domain, r.addrs);
      if |toAdvertise| > 0 {
        new0 := [AdvertiseFor(domain, toAdvertise)];
        queue := queue + [AdvertiseFor(domain, toAdvertise)];
      }
      RoutedObserved(controlRoutes, wildcards, chain, rank, old(domains), domains, r, domain, toAdvertise, new0);
    }

    /**
      The part of ObserveDNSResponse after parsing.  When it is done, every
      address of a routed record is in that domain's list or scheduled for
      advertisement, never both, and never scheduled if a control route contains
      it; nothing else is learned or scheduled.  The records come in whatever
      order the map yields them.
     */
    method ObserveDNSResponse(records: seq<Record>, chain: Chain, ghost rank: string -> nat)
        returns (outcomes: seq<Outcome>)
      requires Valid() && Ranked(chain, rank)
      requires forall k :: 0 <= k < |records| ==> AllPlain(records[k].addrs)
      modifies this`domains, this`queue
      ensures Valid() && Learned(controlRoutes, old(domains), domains)
      ensures |outcomes| == |records| && old(queue) <= queue
      ensures forall k :: 0 <= k < |records| ==>
                Answers(old(domains), wildcards, chain, rank, records[k].name, outcomes[k])
      ensures forall k :: 0 <= k < |records| ==>
                Handled(domains, chain, rank, records[k], outcomes[k], queue[|old(queue)|..])
      ensures forall d, a :: Plain(a) && Scheduled(queue[|old(queue)|..], d, a) ==>
                Unknown(controlRoutes, domains, d, a) && FromRecord(records, outcomes, d, a)
      ensures forall d, a :: Pair(domains, d, a) && !Pair(old(domains), d, a) ==> FromRecord(records, outcomes, d, a)
      ensures forall d :: d in domains && d !in old(domains) ==> MatchesWildcard(d, wildcards)
    {
      outcomes := [];
      ghost var tasks: seq<Task> := [];
      ghost var given: set<(string, Addr)> := {};
      for i := 0 to |records|
        invariant Valid() && |outcomes| == i && queue == old(queue) + tasks
        invariant Progress(controlRoutes, wildcards, chain, rank, old(domains), domains, records, outcomes, tasks,
                           given)
      {
        ghost var before := domains;
        var outcome, new0 := ObserveRecord(records[i], chain, rank);
        ProgressStep(controlRoutes, wildcards, chain, rank, old(domains), before, domains, records, outcomes, tasks,
                     given, outcome, new0);
        outcomes := outcomes + [outcome];
        tasks := tasks + new0;
        given := given + Given(outcome, records[i].addrs);
      }
      assert queue[|old(queue)|..] == tasks;
      ProgressDone(controlRoutes, wildcards, chain, rank, old(domains), domains, records, outcomes, tasks, given);
    }

    /** The first address found, in map order, whose single-address route r makes redundant. */
    method FirstRedundant(r: Prefix) returns (p: Option<Prefix>)
      ensures p.Some? ==> p.value in Redundant(r, Known(domains))
      ensures p.None? ==> Redundant(r, Known(domains)) == {}
    {
      var todo := domains.Keys;
      while todo != {}
        invariant todo <= domains.Keys
        invariant forall d, a :: d in domains && d !in todo && a in domains[d] ==> !Hits(r, a)
        decreases todo
      {
        var d :| d in todo;
        for i := 0 to |domains[d]|
          invariant forall j :: 0 <= j < i ==> !Hits(r, domains[d][j])
        {
          var a := domains[d][i];
          if Contains(r, a) && Single(a) != r {
            KnownMember(domains, d, a);
            return Some(Single(a));
          }
        }
        todo := todo - {d};
      }
      return None;
    }

    /**
      updateRoutes: nothing on an unchanged list; otherwise the new routes are
      queued for advertising, and for withdrawal after that the control routes no
      longer listed (with stored routes) and one redundant address per route.
     */
    method UpdateRoutes(routes: seq<Prefix>) returns (toRemove: seq<Prefix>, ghost pick: Pick)
      requires Valid()
      modifies this`controlRoutes, this`queue
      ensures Valid() && controlRoutes == routes
      ensures old(controlRoutes) == routes ==> queue == old(queue)
      ensures old(controlRoutes) != routes ==>
                && queue == old(queue) + [Replace(routes, toRemove)]
                && Picks(routes, Known(domains), pick)
                && forall p :: p in toRemove <==>
                     p in Dropped(stored, old(controlRoutes), routes) || Picked(pick, p)
    {
      toRemove, pick := [], [];
      if controlRoutes == routes {
        return;
      }
      ghost var dropped := Dropped(stored, controlRoutes, routes);
      if stored {
        toRemove := RoutesWithout(controlRoutes, routes);
      }
      for i := 0 to |routes|
        invariant |pick| == i && Picks(routes[..i], Known(domains), pick)
        invariant forall p :: p in toRemove <==> p in dropped || Picked(pick, p)
        invariant queue == old(queue) && controlRoutes == old(controlRoutes)
      {
        var p := FirstRedundant(routes[i]);
        PickedSnoc(pick, p);
        pick := pick + [p];
        if p.Some? {
          toRemove := toRemove + [p.value];
        }
      }
      assert routes[..|routes|] == routes;
      queue := queue + [Replace(routes, toRemove)];
      controlRoutes := routes;
    }

    /** First pass of updateDomains: move the listed names over, collect the wildcards. */
    method TakeListed(ds: seq<string>) returns (left: Table)
      modifies this`domains, this`wildcards
      ensures wildcards == WildcardsOf(ds)
      ensures Taken(old(domains), Listed(ds), domains, left)
    {
      left := domains;
      domains, wildcards := map[], [];
      for i := 0 to |ds|
        invariant wildcards == WildcardsOf(ds[..i])
        invariant Taken(old(domains), Listed(ds[..i]), domains, left)
      {
        var d := ToLower(ds[i]);
        OneMore(ds, i);
        if |d| == 0 {
          continue;
        }
        if "*." <= d {
          wildcards := wildcards + [d[2..]];
          continue;
        }
        ListedAgain(old(domains), Listed(ds[..i]), domains, left, d);
        domains := domains[d := AddrsOf(left, d)];
        left := left - {d};
      }
      assert ds[..|ds|] == ds;
    }

    /** Second pass: old names that a wildcard still matches stay, with their addresses. */
    method KeepMatching(left0: Table) returns (left: Table)
      requires left0.Keys !! domains.Keys
      modifies this`domains
      ensures Moved(old(domains), left0, wildcards, domains, left)
    {
      left := left0;
      var todo := left0.Keys;
      while todo != {}
        invariant todo <= left0.Keys
        invariant forall d :: d in domains <==>
                    d in old(domains) || (d in left0 && d !in todo && MatchesWildcard(d, wildcards))
        invariant forall d :: d in domains ==> domains[d] == if d in old(domains) then old(domains)[d] else left0[d]
        invariant forall d :: d in left <==> d in left0 && (d in todo || !MatchesWildcard(d, wildcards))
        invariant forall d :: d in left ==> left[d] == left0[d]
        decreases todo
      {
        var d :| d in todo;
        todo := todo - {d};
        var hit := MatchWildcards(d);
        if hit {
          domains := domains[d := left[d]];
          left := left - {d};
        }
      }
    }

    /** Third pass: the single-address routes of the names that are gone. */
    method CollectRoutes(left: Table) returns (toRemove: seq<Prefix>)
      ensures forall p :: p in toRemove <==> exists d, a :: Pair(left, d, a) && p == Single(a)
    {
      toRemove := [];
      var todo := left.Keys;
      while todo != {}
        invariant todo <= left.Keys
        invariant forall p :: p in toRemove <==> exists d, a :: Pair(left, d, a) && d !in todo && p == Single(a)
        decreases todo
      {
        var d :| d in todo;
        ghost var before := toRemove;
        for i := 0 to |left[d]|
          invariant forall p :: p in toRemove <==> p in before || exists j :: 0 <= j < i && p == Single(left[d][j])
        {
          toRemove := toRemove + [Single(left[d][i])];
        }
        forall p
          ensures p in toRemove <==> exists x, a :: Pair(left, x, a) && x !in todo - {d} && p == Single(a)
        {
          if j :| 0 <= j < |left[d]| && p == Single(left[d][j]) {
            assert Pair(left, d, left[d][j]);
          }
          if x, a :| Pair(left, x, a) && x !in todo - {d} && p == Single(a) {
            if x == d {
              var j :| 0 <= j < |left[d]| && left[d][j] == a;
              assert p == Single(left[d][j]);
            }
          }
        }
        todo := todo - {d};
      }
    }

    /**
      updateDomains: the listed names and the old names under a wildcard remain.
      With stored routes, the routes of all other old names are queued for
      withdrawal.
     */
    method UpdateDomains(ds: seq<string>)
      requires Valid()
      modifies this`domains, this`wildcards, this`queue
      ensures Valid() && wildcards == WildcardsOf(ds) && Updated(old(domains), ds, domains)
      ensures if stored && (exists p :: Withdrawn(old(domains), domains, p))
              then |queue| == |old(queue)| + 1 && old(queue) <= queue && queue[|old(queue)|].Withdraw?
                   && forall p :: p in queue[|old(queue)|].routes <==> Withdrawn(old(domains), domains, p)
              else queue == old(queue)
    {
      var left0 := TakeListed(ds);
      ghost var mid := domains;
      var left := KeepMatching(left0);
      PassesCompose(old(domains), ds, mid, left0, domains, left);
      if stored {
        var toRemove := CollectRoutes(left);
        forall p
          ensures p in toRemove <==> Withdrawn(old(domains), domains, p)
        {
          LeftIsWithdrawn(old(domains), domains, left, p);
        }
        if |toRemove| != 0 {
          assert Withdrawn(old(domains), domains, toRemove[0]);
          queue := queue + [Withdraw(toRemove)];
        }
      }
    }

    /** An advertisement that went through: its single addresses now belong to the domain. */
    method RecordAdvertised(domain: string, routes: seq<Prefix>)
      requires Valid()
      modifies this`domains
      ensures Valid()
      ensures forall d, a :: Pair(domains, d, a) <==>
                Pair(old(domains), d, a) || (d == domain && exists p :: p in routes && IsSingleIP(p) && p.ip == a)
      ensures forall d :: d in domains <==>
                d in old(domains) || (d == domain && exists p :: p in routes && IsSingleIP(p))
    {
      for i := 0 to |routes|
        invariant Valid()
        invariant forall d, a :: Pair(domains, d, a) <==>
                    Pair(old(domains), d, a) ||
                    (d == domain && exists p :: p in routes[..i] && IsSingleIP(p) && p.ip == a)
        invariant forall d :: d in domains <==>
                    d in old(domains) || (d == domain && exists p :: p in routes[..i] && IsSingleIP(p))
      {
        var route := routes[i];
        assert forall p :: p in routes[..i + 1] <==> p in routes[..i] || p == route;
        if !IsSingleIP(route) {
          continue;
        }
        ghost var before := domains;
        var has := HasDomainAddr(domain, route.ip);
        if !has {
          AddDomainAddr(domain, route.ip);
          forall d, a
            ensures Pair(domains, d, a) <==> Pair(before, d, a) || (d == domain && a == route.ip)
          {
          }
        }
      }
      assert routes[..|routes|] == routes;
    }

    /** Runs the oldest task on the queue; saving may fail in either half. */
    method RunTask(saved: bool, savedToo: bool)
      requires Valid() && queue != []
      modifies this, ra
      ensures Valid() && queue == old(queue)[1..] && controlRoutes == old(controlRoutes) && wildcards == old(wildcards)
      ensures match old(queue)[0]
              case AdvertiseFor(d, routes) =>
                var t := RA.TryAdvertise(old(ra.routes), routes, ra.allowed, saved);
                && ra.routes == t.routes
                && if !t.ok then domains == old(domains)
                   else forall x, a :: Pair(domains, x, a) <==>
                          Pair(old(domains), x, a) || (x == d && exists p :: p in routes && IsSingleIP(p) && p.ip == a)
              case Replace(adv, wd) =>
                var t := RA.TryAdvertise(old(ra.routes), adv, ra.allowed, saved);
                domains == old(domains) && ra.routes == RA.TryUnadvertise(t.routes, wd, savedToo).routes
              case Withdraw(routes) =>
                domains == old(domains) && ra.routes == RA.TryUnadvertise(old(ra.routes), routes, saved).routes
    {
      var task := queue[0];
      queue := queue[1..];
      match task
      case AdvertiseFor(d, routes) =>
        var ok := ra.AdvertiseRoute(routes, saved);
        if ok {
          RecordAdvertised(d, routes);
        }
      case Replace(adv, wd) =>
        var _ := ra.AdvertiseRoute(adv, saved);
        var _ := ra.UnadvertiseRoute(wd, savedToo);
      case Withdraw(routes) =>
        var _ := ra.UnadvertiseRoute(routes, saved);
    }
  }

  lemma ListedAgain(old0: Table, ns: seq<string>, new0: Table, left: Table, d: string)
    requires Taken(old0, ns, new0, left)
    ensures Taken(old0, ns + [d], new0[d := AddrsOf(left, d)], left - {d})
  {
    forall x
      ensures Occurs(ns + [d], x) == Occurs(ns, x) + if x == d then 1 else 0
    {
      assert (ns + [d])[..|ns|] == ns;
    }
  }

  lemma LeftIsWithdrawn(old0: Table, new0: Table, left: Table, p: Prefix)
    requires forall d :: d in left <==> d in old0 && d !in new0
    requires forall d :: d in left ==> left[d] == old0[d]
    ensures (exists d, a :: Pair(left, d, a) && p == Single(a)) <==> Withdrawn(old0, new0, p)
  {
    if d, a :| Pair(left, d, a) && p == Single(a) {
      assert Pair(old0, d, a) && d !in new0;
    }
    if Withdrawn(old0, new0, p) {
      var d, a :| Pair(old0, d, a) && d !in new0 && p == Single(a);
      assert Pair(left, d, a);
    }
  }

  /** The withdrawals updateRoutes queues are dropped control routes and redundant single addresses. */
  lemma QueuedInOrder(stored: bool, control: seq<Prefix>, routes: seq<Prefix>, domains: Table, pick: Pick,
                      toRemove: seq<Prefix>)
    requires Picks(routes, Known(domains), pick)
    requires forall p :: p in toRemove <==> p in Dropped(stored, control, routes) || Picked(pick, p)
    requires forall p :: p in routes ==> WellFormed(p)
    ensures RA.Ordered(routes, Dropped(stored, control, routes), Known(domains), toRemove)
  {
    forall p | p in toRemove
      ensures Justified(p, Dropped(stored, control, routes), routes, Known(domains))
    {
      if Picked(pick, p) {
        var i :| 0 <= i < |pick| && pick[i] == Some(p);
        assert routes[i] in routes && p in Redundant(routes[i], Known(domains));
      }
    }
  }

  /**
    A route update queued by updateRoutes, once run on whatever is advertised by
    then: every address of an allowed new route is advertised exactly when it is
    in a route that stays and is not skipped for one that is then withdrawn.
   */
  lemma RouteUpdateCoverageIff(stored: bool, control: seq<Prefix>, routes: seq<Prefix>, domains: Table, pick: Pick,
                               toRemove: seq<Prefix>, advertised: seq<Prefix>, allowed: RA.Allowed)
    requires Picks(routes, Known(domains), pick)
    requires forall p :: p in toRemove <==> p in Dropped(stored, control, routes) || Picked(pick, p)
    requires forall p :: p in routes ==> WellFormed(p)
    ensures RA.AllAdvertised(routes, allowed, RA.AfterUpdate(advertised, routes, toRemove, allowed)) <==>
            (forall r, x :: r in routes && allowed(r) && Contains(r, x) ==>
               RA.HeldBefore(advertised, toRemove, x) || RA.TakesOver(advertised, routes, toRemove, allowed, x))
    ensures !stored && RA.AllMasked(routes) && (forall r :: r in routes ==> allowed(r)) ==>
            RA.AllAdvertised(routes, allowed, RA.AfterUpdate(advertised, routes, toRemove, allowed))
  {
    QueuedInOrder(stored, control, routes, domains, pick, toRemove);
    RA.CoverageKeptIff(advertised, routes, Dropped(stored, control, routes), Known(domains), toRemove, allowed);
    if !stored && RA.AllMasked(routes) && (forall r :: r in routes ==> allowed(r)) {
      RA.KeptWithoutStoredRoutes(advertised, routes, Known(domains), toRemove, allowed);
    }
  }

  lemma KnownMember(t: Table, d: string, a: Addr)
    requires Pair(t, d, a)
    ensures a in Known(t)
  {
  }

  lemma PickedSnoc(pick: Pick, q: Option<Prefix>)
    ensures forall p :: Picked(pick + [q], p) <==> Picked(pick, p) || q == Some(p)
  {
    forall p
      ensures Picked(pick + [q], p) <==> Picked(pick, p) || q == Some(p)
    {
      var pick' := pick + [q];
      if Picked(pick, p) {
        var i :| 0 <= i < |pick| && pick[i] == Some(p);
        assert pick'[i] == Some(p);
      }
      assert pick'[|pick|] == q;
    }
  }

  /** The control routes a stored list no longer has. */
  ghost function Dropped(stored: bool, control: seq<Prefix>, routes: seq<Prefix>): set<Prefix> {
    if stored then Members(control) - Members(routes) else {}
  }

  /** routesWithout: the routes of a that are not in b. */
  method RoutesWithout(a: seq<Prefix>, b: seq<Prefix>) returns (r: seq<Prefix>)
    ensures forall p :: p in r <==> p in a && p !in b
  {
    var m: set<Prefix> := {};
    for i := 0 to |b|
      invariant m == Members(b[..i])
    {
      m := m + {b[i]};
    }
    assert b[..|b|] == b;
    r := [];
    for i := 0 to |a|
      invariant forall p :: p in r <==> p in a[..i] && p !in b
    {
      if a[i] !in m {
        r := r + [a[i]];
      }
    }
    assert a[..|a|] == a;
  }

  /** Tables only grow, and only by addresses a control route contains. */
  ghost predicate Learned(control: seq<Prefix>, before: Table, after: Table) {
    && (forall d :: d in before ==> d in after)
    && (forall d, a :: Pair(before, d, a) ==> Pair(after, d, a))
    && (forall d, a :: Pair(after, d, a) && !Pair(before, d, a) ==> Covered(control, a))
  }

  lemma LearnedByWalk(control: seq<Prefix>, before: Table, wildcards: seq<string>, after: Table)
    requires OnlyAdds(before, wildcards, after)
    ensures Learned(control, before, after) && Grown(before, after, wildcards, {})
  {
    forall d, a | Pair(after, d, a)
      ensures Pair(before, d, a)
    {
    }
  }

  lemma LearnedTwice(control: seq<Prefix>, a: Table, b: Table, c: Table)
    requires Learned(control, a, b) && Learned(control, b, c)
    ensures Learned(control, a, c)
  {
  }

  lemma LearnedStep(control: seq<Prefix>, before: Table, after: Table, domain: string, a: Addr)
    requires before == after || (Added(before, after, domain, a) && Covered(control, a))
    ensures Learned(control, before, after)
  {
    if before != after {
      forall d, b | Pair(before, d, b)
        ensures Pair(after, d, b)
      {
      }
      forall d, b | Pair(after, d, b) && !Pair(before, d, b)
        ensures d == domain && b == a
      {
      }
    }
  }

  /** An address that has to be advertised: the domain does not list it and no control route contains it. */
  ghost predicate Unknown(control: seq<Prefix>, domains: Table, d: string, a: Addr) {
    !Covered(control, a) && !Pair(domains, d, a)
  }

  /** A queued advertisement names only given addresses unknown for its domain. */
  ghost predicate Pending(control: seq<Prefix>, domains: Table, t: Task, given: set<(string, Addr)>) {
    t.AdvertiseFor? && forall p :: p in t.routes ==> Due(control, domains, t.domain, given, p)
  }

  ghost predicate Due(control: seq<Prefix>, domains: Table, d: string, given: set<(string, Addr)>, p: Prefix) {
    exists a :: Plain(a) && (d, a) in given && p == Single(a) && Unknown(control, domains, d, a)
  }

  /** Learning never makes a scheduled address known: it learns only what a control route contains. */
  lemma PendingLater(control: seq<Prefix>, before: Table, after: Table, t: Task,
                     given: set<(string, Addr)>, more: set<(string, Addr)>)
    requires Learned(control, before, after) && Pending(control, before, t, given) && given <= more
    ensures Pending(control, after, t, more)
  {
    forall p | p in t.routes
      ensures Due(control, after, t.domain, more, p)
    {
      assert Due(control, before, t.domain, given, p);
      var a :| Plain(a) && (t.domain, a) in given && p == Single(a) && Unknown(control, before, t.domain, a);
      assert Unknown(control, after, t.domain, a) && (t.domain, a) in more;
    }
  }

  lemma PendingMore(control: seq<Prefix>, domains: Table, d: string, routes: seq<Prefix>, given: set<(string, Addr)>,
                    a: Addr)
    requires Pending(control, domains, AdvertiseFor(d, routes), given)
    requires Plain(a) && (d, a) in given && Unknown(control, domains, d, a)
    ensures Pending(control, domains, AdvertiseFor(d, routes + [Single(a)]), given)
  {
    assert Due(control, domains, d, given, Single(a));
  }

  lemma PendingUnknown(control: seq<Prefix>, domains: Table, tasks: seq<Task>, given: set<(string, Addr)>, d: string,
                       a: Addr)
    requires (forall t :: t in tasks ==> Pending(control, domains, t, given)) && Plain(a) && Scheduled(tasks, d, a)
    ensures Unknown(control, domains, d, a) && (d, a) in given
  {
    var t :| t in tasks && t.AdvertiseFor? && t.domain == d && Single(a) in t.routes;
    assert Due(control, domains, d, given, Single(a));
    var b :| Plain(b) && (d, b) in given && Single(a) == Single(b) && Unknown(control, domains, d, b);
  }

  // ----- where new addresses and names come from

  /** The pairs a record gives its routed domain. */
  ghost function Given(o: Outcome, addrs: seq<Addr>): set<(string, Addr)> {
    if o.Routed? then set a | a in addrs :: (o.domain, a) else {}
  }

  /** New addresses are among the given pairs, and new names match a wildcard. */
  ghost predicate Grown(before: Table, after: Table, wildcards: seq<string>, given: set<(string, Addr)>) {
    && (forall d, a :: Pair(after, d, a) && !Pair(before, d, a) ==> (d, a) in given)
    && (forall d :: d in after && d !in before ==> MatchesWildcard(d, wildcards))
  }

  lemma GrownTwice(a: Table, b: Table, c: Table, wildcards: seq<string>, g: set<(string, Addr)>, h: set<(string, Addr)>)
    requires Grown(a, b, wildcards, g) && Grown(b, c, wildcards, h)
    ensures Grown(a, c, wildcards, g + h)
  {
  }

  lemma GrownStep(start: Table, before: Table, after: Table, wildcards: seq<string>, given: set<(string, Addr)>,
                  d: string, a: Addr)
    requires Grown(start, before, wildcards, given) && d in before && (d, a) in given
    requires before == after || Added(before, after, d, a)
    ensures Grown(start, after, wildcards, given)
  {
  }

  /** Some record routed as d lists the address. */
  ghost predicate FromRecord(records: seq<Record>, outcomes: seq<Outcome>, d: string, a: Addr) {
    exists k :: 0 <= k < |records| && k < |outcomes| && outcomes[k] == Routed(d) && a in records[k].addrs
  }

  lemma FromRecordMore(records: seq<Record>, outcomes: seq<Outcome>, o: Outcome, given: set<(string, Addr)>)
    requires |outcomes| < |records|
    requires forall g :: g in given ==> FromRecord(records, outcomes, g.0, g.1)
    ensures forall g :: g in given + Given(o, records[|outcomes|].addrs) ==>
              FromRecord(records, outcomes + [o], g.0, g.1)
  {
    var i, more := |outcomes|, outcomes + [o];
    forall g | g in given + Given(o, records[i].addrs)
      ensures FromRecord(records, more, g.0, g.1)
    {
      if g in given {
        var k :| 0 <= k < |records| && k < |outcomes| && outcomes[k] == Routed(g.0) && g.1 in records[k].addrs;
        assert more[k] == Routed(g.0);
      } else {
        assert more[i] == Routed(g.0);
      }
    }
  }

  /**
    How a record may be routed when earlier ones have added names: for certain if
    its chain has a tracked name or ends in a wildcard match, and only as a
    tracked or matched name.
   */
  ghost predicate Answers(domains: Table, wildcards: seq<string>, chain: Chain, rank: string -> nat, name: string,
                          o: Outcome)
    requires Ranked(chain, rank)
  {
    var ns := Names(chain, name, rank);
    && (AnyTracked(domains, ns) || MatchesWildcard(Last(ns), wildcards) ==> o.Routed?)
    && (o.Routed? ==> o.domain in domains || MatchesWildcard(o.domain, wildcards))
  }

  lemma AnswersLater(domains: Table, now: Table, wildcards: seq<string>, given: set<(string, Addr)>,
                     chain: Chain, rank: string -> nat, name: string)
    requires Ranked(chain, rank) && Grown(domains, now, wildcards, given) && forall d :: d in domains ==> d in now
    ensures Answers(domains, wildcards, chain, rank, name, OutcomeOf(now, wildcards, chain, name, rank))
  {
    var n := StepBound(now, wildcards, chain, name, rank);
    WalkFinds(now, wildcards, chain, name, rank, n);
    WalkOnlyAdds(now, wildcards, chain, name, n);
  }

  /** A routed record lies on its chain, its domain is tracked, and each address is listed or scheduled. */
  ghost predicate Handled(domains: Table, chain: Chain, rank: string -> nat, r: Record, o: Outcome, tasks: seq<Task>)
    requires Ranked(chain, rank)
  {
    o.Routed? ==>
      && o.domain in domains && o.domain in Names(chain, r.name, rank)
      && forall a :: a in r.addrs ==> Pair(domains, o.domain, a) || Scheduled(tasks, o.domain, a)
  }

  lemma HandledLater(control: seq<Prefix>, before: Table, after: Table, chain: Chain, rank: string -> nat, r: Record,
                     o: Outcome, earlier: seq<Task>, tasks: seq<Task>)
    requires Ranked(chain, rank) && Learned(control, before, after) && forall t :: t in earlier ==> t in tasks
    requires Handled(before, chain, rank, r, o, earlier)
    ensures Handled(after, chain, rank, r, o, tasks)
  {
    if o.Routed? {
      forall a | a in r.addrs
        ensures Pair(after, o.domain, a) || Scheduled(tasks, o.domain, a)
      {
        if Scheduled(earlier, o.domain, a) {
          var t :| t in earlier && t.AdvertiseFor? && t.domain == o.domain && Single(a) in t.routes;
          assert t in tasks;
        }
      }
    }
  }

  /** How many steps the walk may take. */
  ghost function StepBound(domains: Table, wildcards: seq<string>, chain: Chain, name: string,
                           rank: string -> nat): (n: nat)
    requires Ranked(chain, rank)
    ensures Halts(domains, wildcards, chain, name, n)
  {
    AcyclicHalts(domains, wildcards, chain, name, rank);
    rank(name) + 1
  }

  lemma RoutedOnChain(domains: Table, wildcards: seq<string>, chain: Chain, name: string, rank: string -> nat)
    requires Ranked(chain, rank)
    ensures var o := OutcomeOf(domains, wildcards, chain, name, rank);
            o.Routed? ==> o.domain in Names(chain, name, rank)
  {
    WalkFinds(domains, wildcards, chain, name, rank, StepBound(domains, wildcards, chain, name, rank));
  }

  /** How a record for name is routed. */
  ghost function OutcomeOf(domains: Table, wildcards: seq<string>, chain: Chain, name: string,
                           rank: string -> nat): Outcome
    requires Ranked(chain, rank)
  {
    var w := WalkOf(domains, wildcards, chain, name, rank);
    if w.routed then Routed(w.domain) else Unrouted
  }

  // ----- one record after the other

  lemma WalkedSorted(domains: Table, wildcards: seq<string>, chain: Chain, name: string, n: nat)
    requires AllSorted(domains) && Halts(domains, wildcards, chain, name, n)
    ensures AllSorted(FindRouted(domains, wildcards, chain, name, n).domains)
  {
    WalkOnlyAdds(domains, wildcards, chain, name, n);
  }

  /** The walk of a record from the given table. */
  ghost function WalkOf(domains: Table, wildcards: seq<string>, chain: Chain, name: string, rank: string -> nat): Walk
    requires Ranked(chain, rank)
  {
    FindRouted(domains, wildcards, chain, name, StepBound(domains, wildcards, chain, name, rank))
  }

  lemma UnroutedObserved(control: seq<Prefix>, wildcards: seq<string>, chain: Chain, rank: string -> nat,
                         before: Table, r: Record)
    requires Ranked(chain, rank) && !WalkOf(before, wildcards, chain, r.name, rank).routed
    ensures Observed(control, wildcards, chain, rank, before, WalkOf(before, wildcards, chain, r.name, rank).domains,
                     r, Unrouted, [])
  {
    WalkOnlyAdds(before, wildcards, chain, r.name, StepBound(before, wildcards, chain, r.name, rank));
    LearnedByWalk(control, before, wildcards, WalkOf(before, wildcards, chain, r.name, rank).domains);
  }

  lemma RoutedObserved(control: seq<Prefix>, wildcards: seq<string>, chain: Chain, rank: string -> nat,
                       before: Table, after: Table, r: Record, d: string, routes: seq<Prefix>, tasks: seq<Task>)
    requires Ranked(chain, rank)
    requires var w := WalkOf(before, wildcards, chain, r.name, rank);
             && w.routed && w.domain == d && d in w.domains
             && Learned(control, w.domains, after)
             && Grown(w.domains, after, wildcards, Given(Routed(d), r.addrs))
    requires forall a :: a in r.addrs ==> Pair(after, d, a) || Single(a) in routes
    requires Pending(control, after, AdvertiseFor(d, routes), Given(Routed(d), r.addrs))
    requires tasks == if routes == [] then [] else [AdvertiseFor(d, routes)]
    ensures Observed(control, wildcards, chain, rank, before, after, r, Routed(d), tasks)
  {
    var walked := WalkOf(before, wildcards, chain, r.name, rank).domains;
    WalkOnlyAdds(before, wildcards, chain, r.name, StepBound(before, wildcards, chain, r.name, rank));
    LearnedByWalk(control, before, wildcards, walked);
    LearnedTwice(control, before, walked, after);
    GrownTwice(before, walked, after, wildcards, {}, Given(Routed(d), r.addrs));
    RoutedOnChain(before, wildcards, chain, r.name, rank);
    AllScheduled(after, d, r.addrs, routes, tasks);
  }

  lemma AllScheduled(domains: Table, d: string, addrs: seq<Addr>, routes: seq<Prefix>, tasks: seq<Task>)
    requires forall a :: a in addrs ==> Pair(domains, d, a) || Single(a) in routes
    requires routes != [] ==> AdvertiseFor(d, routes) in tasks
    ensures forall a :: a in addrs ==> Pair(domains, d, a) || Scheduled(tasks, d, a)
  {
  }

  /** What observing one record does. */
  ghost predicate Observed(control: seq<Prefix>, wildcards: seq<string>, chain: Chain, rank: string -> nat,
                           before: Table, after: Table, r: Record, o: Outcome, tasks: seq<Task>)
    requires Ranked(chain, rank)
  {
    && o == OutcomeOf(before, wildcards, chain, r.name, rank)
    && Learned(control, before, after)
    && Grown(before, after, wildcards, Given(o, r.addrs))
    && (forall t :: t in tasks ==> Pending(control, after, t, Given(o, r.addrs)))
    && Handled(after, chain, rank, r, o, tasks)
  }

  /** What holds when some of the records have been observed. */
  ghost predicate Progress(control: seq<Prefix>, wildcards: seq<string>, chain: Chain, rank: string -> nat,
                           start: Table, now: Table, records: seq<Record>, outcomes: seq<Outcome>, tasks: seq<Task>,
                           given: set<(string, Addr)>)
    requires Ranked(chain, rank)
  {
    && |outcomes| <= |records|
    && Learned(control, start, now)
    && Grown(start, now, wildcards, given)
    && (forall g :: g in given ==> FromRecord(records, outcomes, g.0, g.1))
    && (forall t :: t in tasks ==> Pending(control, now, t, given))
    && (forall k :: 0 <= k < |outcomes| ==> Answers(start, wildcards, chain, rank, records[k].name, outcomes[k]))
    && (forall k :: 0 <= k < |outcomes| ==> Handled(now, chain, rank, records[k], outcomes[k], tasks))
  }

  lemma ProgressStep(control: seq<Prefix>, wildcards: seq<string>, chain: Chain, rank: string -> nat,
                     start: Table, now: Table, after: Table, records: seq<Record>, outcomes: seq<Outcome>,
                     tasks: seq<Task>,
                     given: set<(string, Addr)>, o: Outcome, new0: seq<Task>)
    requires Ranked(chain, rank) && |outcomes| < |records|
    requires Progress(control, wildcards, chain, rank, start, now, records, outcomes, tasks, given)
    requires Observed(control, wildcards, chain, rank, now, after, records[|outcomes|], o, new0)
    ensures Progress(control, wildcards, chain, rank, start, after, records, outcomes + [o], tasks + new0,
                     given + Given(o, records[|outcomes|].addrs))
  {
    var i := |outcomes|;
    var more := Given(o, records[i].addrs);
    LearnedTwice(control, start, now, after);
    GrownTwice(start, now, after, wildcards, given, more);
    FromRecordMore(records, outcomes, o, given);
    AnswersLater(start, now, wildcards, given, chain, rank, records[i].name);
    TasksStep(control, now, after, tasks, new0, given, more);
    HandledStep(control, chain, rank, now, after, records, outcomes, tasks, o, new0);
  }

  lemma TasksStep(control: seq<Prefix>, now: Table, after: Table, tasks: seq<Task>, new0: seq<Task>,
                  given: set<(string, Addr)>, more: set<(string, Addr)>)
    requires Learned(control, now, after)
    requires forall t :: t in tasks ==> Pending(control, now, t, given)
    requires forall t :: t in new0 ==> Pending(control, after, t, more)
    ensures forall t :: t in tasks + new0 ==> Pending(control, after, t, given + more)
  {
    LearnedNothing(control, after);
    forall t | t in tasks + new0
      ensures Pending(control, after, t, given + more)
    {
      if t in tasks {
        PendingLater(control, now, after, t, given, given + more);
      } else {
        PendingLater(control, after, after, t, more, given + more);
      }
    }
  }

  lemma HandledStep(control: seq<Prefix>, chain: Chain, rank: string -> nat, now: Table, after: Table,
                    records: seq<Record>, outcomes: seq<Outcome>, tasks: seq<Task>, o: Outcome, new0: seq<Task>)
    requires Ranked(chain, rank) && |outcomes| < |records| && Learned(control, now, after)
    requires forall k :: 0 <= k < |outcomes| ==> Handled(now, chain, rank, records[k], outcomes[k], tasks)
    requires Handled(after, chain, rank, records[|outcomes|], o, new0)
    ensures forall k :: 0 <= k <= |outcomes| ==>
              Handled(after, chain, rank, records[k], (outcomes + [o])[k], tasks + new0)
  {
    LearnedNothing(control, after);
    HandledLater(control, after, after, chain, rank, records[|outcomes|], o, new0, tasks + new0);
    forall k | 0 <= k < |outcomes|
      ensures Handled(after, chain, rank, records[k], (outcomes + [o])[k], tasks + new0)
    {
      HandledLater(control, now, after, chain, rank, records[k], outcomes[k], tasks, tasks + new0);
    }
  }

  lemma LearnedNothing(control: seq<Prefix>, t: Table)
    ensures Learned(control, t, t)
  {
  }

  lemma ProgressDone(control: seq<Prefix>, wildcards: seq<string>, chain: Chain, rank: string -> nat,
                     start: Table, now: Table, records: seq<Record>, outcomes: seq<Outcome>, tasks: seq<Task>,
                     given: set<(string, Addr)>)
    requires Ranked(chain, rank)
    requires Progress(control, wildcards, chain, rank, start, now, records, outcomes, tasks, given)
    ensures forall d, a :: Plain(a) && Scheduled(tasks, d, a) ==>
              Unknown(control, now, d, a) && FromRecord(records, outcomes, d, a)
    ensures forall d, a :: Pair(now, d, a) && !Pair(start, d, a) ==> FromRecord(records, outcomes, d, a)
  {
    forall d, a | Plain(a) && Scheduled(tasks, d, a)
      ensures Unknown(control, now, d, a) && FromRecord(records, outcomes, d, a)
    {
      PendingUnknown(control, now, tasks, given, d, a);
      var g := (d, a);
      assert FromRecord(records, outcomes, g.0, g.1);
    }
    forall d, a | Pair(now, d, a) && !Pair(start, d, a)
      ensures FromRecord(records, outcomes, d, a)
    {
      var g := (d, a);
      assert FromRecord(records, outcomes, g.0, g.1);
    }
  }
}
