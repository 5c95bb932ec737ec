/**
  Domain names of an app connector: suffix matching, and the walk along a CNAME
  chain from the name that resolved back to a name that is routed (section
  3.6.2 of RFC 1034).
 */
module AppNames {
  import opened NetAddr

  type Table = map<string, seq<Addr>>
  type Chain = map<string, string>

  function LowerChar(c: char): char {
    if 'A' <= c <= 'Z' then c - 'A' + 'a' else c
  }

  /** strings.ToLower on ASCII text. */
  function ToLower(s: string): (r: string)
    ensures |r| == |s|
  {
    seq(|s|, i requires 0 <= i < |s| => LowerChar(s[i]))
  }

  predicate EndsWith(s: string, t: string) {
    |t| <= |s| && s[|s| - |t|..] == t
  }

  function TrimSuffix(s: string, t: string): string {
    if EndsWith(s, t) then s[..|s| - |t|] else s
  }

  function TrimPrefix(s: string, t: string): string {
    if t <= s then s[|t|..] else s
  }

  /** dnsname.HasSuffix. */
  predicate HasSuffix(name: string, suffix: string) {
    var n := TrimSuffix(name, ".");
    var s := TrimPrefix(TrimSuffix(suffix, "."), ".");
    var nameBase := TrimSuffix(n, s);
    |nameBase| < |n| && EndsWith(nameBase, ".")
  }

  /** It means: some labels, a dot, and the suffix, dots at the ends aside; never for an empty suffix. */
  lemma HasSuffixMeans(name: string, suffix: string)
    ensures var n := TrimSuffix(name, ".");
            var s := TrimPrefix(TrimSuffix(suffix, "."), ".");
            HasSuffix(name, suffix) <==> s != "" && exists base :: n == base + "." + s
  {
    var n := TrimSuffix(name, ".");
    var s := TrimPrefix(TrimSuffix(suffix, "."), ".");
    if HasSuffix(name, suffix) {
      var nameBase := n[..|n| - |s|];
      assert n == nameBase[..|nameBase| - 1] + "." + s;
    }
    if base :| s != "" && n == base + "." + s {
      assert TrimSuffix(n, s) == base + ".";
    }
  }

  predicate MatchesWildcard(d: string, wildcards: seq<string>) {
    exists i :: 0 <= i < |wildcards| && HasSuffix(d, wildcards[i])
  }

  // ----- the walk

  datatype Walk = Walk(domains: Table, domain: string, routed: bool)

  /** The names tracked once the walk has looked at d: a wildcard match is recorded. */
  function Visit(domains: Table, wildcards: seq<string>, d: string): Table {
    if MatchesWildcard(d, wildcards) then domains[d := []] else domains
  }

  /** The walk from d ends within n steps. */
  predicate Halts(domains: Table, wildcards: seq<string>, chain: Chain, d: string, n: nat)
    decreases n
  {
    n > 0 &&
    (d in domains || d !in chain || Halts(Visit(domains, wildcards, d), wildcards, chain, chain[d], n - 1))
  }

  /** findRoutedDomainLocked.  A wildcard match only leaves the search of wildcards; the walk goes on. */
  function FindRouted(domains: Table, wildcards: seq<string>, chain: Chain, d: string, n: nat): Walk
    requires Halts(domains, wildcards, chain, d, n)
    decreases n
  {
    if d in domains then Walk(domains, d, true)
    else if d !in chain then Walk(Visit(domains, wildcards, d), d, MatchesWildcard(d, wildcards))
    else FindRouted(Visit(domains, wildcards, d), wildcards, chain, chain[d], n - 1)
  }

  /** The result does not depend on how the end of the walk was foreseen. */
  lemma {:induction false} FindRoutedSame(domains: Table, wildcards: seq<string>, chain: Chain, d: string, n: nat,
                                          m: nat)
    requires Halts(domains, wildcards, chain, d, n) && Halts(domains, wildcards, chain, d, m)
    ensures FindRouted(domains, wildcards, chain, d, n) == FindRouted(domains, wildcards, chain, d, m)
    decreases n
  {
    if d !in domains && d in chain {
      FindRoutedSame(Visit(domains, wildcards, d), wildcards, chain, chain[d], n - 1, m - 1);
    }
  }

  /** Acyclic chains, witnessed by a rank that falls along the chain. */
  ghost predicate Ranked(chain: Chain, rank: string -> nat) {
    forall d :: d in chain ==> rank(chain[d]) < rank(d)
  }

  lemma {:induction false} AcyclicHalts(domains: Table, wildcards: seq<string>, chain: Chain, d: string,
                                        rank: string -> nat)
    requires Ranked(chain, rank)
    ensures Halts(domains, wildcards, chain, d, rank(d) + 1)
    decreases rank(d)
  {
    if d !in domains && d in chain {
      AcyclicHalts(Visit(domains, wildcards, d), wildcards, chain, chain[d], rank);
      HaltsLater(Visit(domains, wildcards, d), wildcards, chain, chain[d], rank(chain[d]) + 1, rank(d));
    }
  }

  lemma {:induction false} HaltsLater(domains: Table, wildcards: seq<string>, chain: Chain, d: string, n: nat, m: nat)
    requires Halts(domains, wildcards, chain, d, n) && n <= m
    ensures Halts(domains, wildcards, chain, d, m)
    decreases n
  {
    if d !in domains && d in chain {
      HaltsLater(Visit(domains, wildcards, d), wildcards, chain, chain[d], n - 1, m - 1);
    }
  }

  /** A chain that leads round among names neither tracked nor matched is walked for ever. */
  lemma {:induction false} LoopNeverHalts(domains: Table, wildcards: seq<string>, chain: Chain, loop: set<string>,
                                          d: string, n: nat)
    requires forall x :: x in loop ==>
               x in chain && chain[x] in loop && x !in domains && !MatchesWildcard(x, wildcards)
    requires d in loop
    ensures !Halts(domains, wildcards, chain, d, n)
    decreases n
  {
    if n > 0 {
      LoopNeverHalts(domains, wildcards, chain, loop, chain[d], n - 1);
    }
  }

  /** The names on the chain from d to its end. */
  ghost function Names(chain: Chain, d: string, rank: string -> nat): (ns: seq<string>)
    requires Ranked(chain, rank)
    ensures ns != []
    decreases rank(d)
  {
    if d !in chain then [d] else [d] + Names(chain, chain[d], rank)
  }

  lemma {:induction false} NamesFallInRank(chain: Chain, d: string, rank: string -> nat, i: nat)
    requires Ranked(chain, rank) && i < |Names(chain, d, rank)|
    ensures rank(Names(chain, d, rank)[i]) <= rank(d)
    ensures i > 0 ==> rank(Names(chain, d, rank)[i]) < rank(d)
    decreases rank(d)
  {
    if d in chain && i > 0 {
      NamesFallInRank(chain, chain[d], rank, i - 1);
    }
  }

  function Last(ns: seq<string>): string
    requires ns != []
  {
    ns[|ns| - 1]
  }

  ghost predicate AnyTracked(domains: Table, ns: seq<string>) {
    exists i :: 0 <= i < |ns| && ns[i] in domains
  }

  /** What the walk does, on any acyclic chain. */
  ghost predicate WalkOk(domains: Table, wildcards: seq<string>, ns: seq<string>, w: Walk) {
    && ns != []
    // It ends on the chain; a name reported as routed is tracked from now on.
    && w.domain in ns
    && (w.routed ==> w.domain in w.domains)
    // It reports a routed name exactly when one was tracked, or the last one matches a wildcard.
    && (w.routed <==> AnyTracked(domains, ns) || MatchesWildcard(Last(ns), wildcards))
    && (!AnyTracked(domains, ns) ==> w.domain == Last(ns))
  }

  /** Names are only added, without addresses, and only where a wildcard matches. */
  ghost predicate OnlyAdds(domains: Table, wildcards: seq<string>, after: Table) {
    && (forall x :: x in domains ==> x in after && after[x] == domains[x])
    && (forall x :: x in after && x !in domains ==> after[x] == [] && MatchesWildcard(x, wildcards))
  }

  lemma {:induction false} WalkOnlyAdds(domains: Table, wildcards: seq<string>, chain: Chain, d: string, n: nat)
    requires Halts(domains, wildcards, chain, d, n)
    ensures OnlyAdds(domains, wildcards, FindRouted(domains, wildcards, chain, d, n).domains)
    decreases n
  {
    if d !in domains && d in chain {
      WalkOnlyAdds(Visit(domains, wildcards, d), wildcards, chain, chain[d], n - 1);
    }
  }

  lemma VisitLeavesRest(domains: Table, wildcards: seq<string>, chain: Chain, d: string, rank: string -> nat)
    requires Ranked(chain, rank) && d in chain && d !in domains
    ensures var rest := Names(chain, chain[d], rank);
            AnyTracked(Visit(domains, wildcards, d), rest) <==> AnyTracked(domains, rest)
  {
    var rest := Names(chain, chain[d], rank);
    forall i | 0 <= i < |rest|
      ensures rest[i] in Visit(domains, wildcards, d) <==> rest[i] in domains
    {
      NamesFallInRank(chain, chain[d], rank, i);
    }
  }

  /** The walk terminates on every acyclic chain, and this is exactly what it finds. */
  lemma {:induction false} WalkFinds(domains: Table, wildcards: seq<string>, chain: Chain, d: string,
                                     rank: string -> nat, n: nat)
    requires Ranked(chain, rank) && Halts(domains, wildcards, chain, d, n)
    ensures WalkOk(domains, wildcards, Names(chain, d, rank), FindRouted(domains, wildcards, chain, d, n))
    decreases n
  {
    var ns := Names(chain, d, rank);
    assert ns[0] == d;
    if d !in domains && d in chain {
      var rest := Names(chain, chain[d], rank);
      assert ns == [d] + rest && ns[1..] == rest;
      VisitLeavesRest(domains, wildcards, chain, d, rank);
      WalkFinds(Visit(domains, wildcards, d), wildcards, chain, chain[d], rank, n - 1);
      assert AnyTracked(domains, ns) <==> AnyTracked(domains, rest) by {
        assert forall i :: 0 <= i < |rest| ==> rest[i] == ns[i + 1];
        assert forall i :: 0 < i < |ns| ==> ns[i] == rest[i - 1];
      }
      assert Last(ns) == Last(rest);
    }
  }

  /**
    A name that is routed only by a wildcard is missed when the chain goes on
    past it to an unmatched, untracked end: routed names exist on the chain, and
    the walk still reports none.
   */
  lemma WildcardMissedIff(domains: Table, wildcards: seq<string>, chain: Chain, d: string, rank: string -> nat, n: nat)
    requires Ranked(chain, rank) && Halts(domains, wildcards, chain, d, n)
    ensures var ns := Names(chain, d, rank);
            (!FindRouted(domains, wildcards, chain, d, n).routed &&
             exists i :: 0 <= i < |ns| && (ns[i] in domains || MatchesWildcard(ns[i], wildcards))) <==>
            (&& !AnyTracked(domains, ns) && !MatchesWildcard(Last(ns), wildcards)
             && exists i :: 0 <= i < |ns| - 1 && MatchesWildcard(ns[i], wildcards))
  {
    WalkFinds(domains, wildcards, chain, d, rank, n);
  }

  /** The shortest such chain: a matched name that leads to an unmatched one. */
  lemma OneStepMissed(d: string, c: string, wildcards: seq<string>)
    requires MatchesWildcard(d, wildcards) && !MatchesWildcard(c, wildcards)
    ensures Halts(map[], wildcards, map[d := c], d, 2)
    ensures !FindRouted(map[], wildcards, map[d := c], d, 2).routed
  {
    assert Halts(Visit(map[], wildcards, d), wildcards, map[d := c], c, 1);
  }

  /** x.a is matched by the wildcard, but the chain goes on to c, which is not. */
  lemma WildcardCanBeMissed()
    ensures MatchesWildcard("x.a", ["a"])
    ensures Halts(map[], ["a"], map["x.a" := "c"], "x.a", 2)
    ensures !FindRouted(map[], ["a"], map["x.a" := "c"], "x.a", 2).routed
  {
    MatchesA();
    assert ["a"][0] == "a";
    OneStepMissed("x.a", "c", ["a"]);
  }

  predicate Undotted(s: string) {
    s != "" && s[0] != '.' && s[|s| - 1] != '.'
  }

  lemma SubdomainMatches(sub: string, s: string)
    requires Undotted(s)
    ensures HasSuffix(sub + "." + s, s)
  {
    var name := sub + "." + s;
    assert name[|name| - 1] == s[|s| - 1];
    assert TrimSuffix(name, ".") == name && TrimPrefix(TrimSuffix(s, "."), ".") == s;
    HasSuffixMeans(name, s);
  }

  lemma ShortNameDoesNot(c: string, s: string)
    requires Undotted(s) && |c| <= |s|
    ensures !HasSuffix(c, s)
  {
    assert TrimPrefix(TrimSuffix(s, "."), ".") == s;
    HasSuffixMeans(c, s);
  }

  lemma MatchesA()
    ensures HasSuffix("x.a", "a") && !HasSuffix("c", "a")
  {
    assert "x.a" == "x" + "." + "a";
    SubdomainMatches("x", "a");
    ShortNameDoesNot("c", "a");
  }
}
