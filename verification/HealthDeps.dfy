/**
  Root causes: an unhealthy warnable is suppressed while one it depends on is
  itself reported, so that users see only what started the trouble.
 */
module HealthDeps {
  import opened HealthTracker

  /** DependsOn of every warnable. */
  type Deps = Warnable -> seq<Warnable>

  /** Acyclicity, witnessed by a rank that falls along every dependency. */
  ghost predicate Ranked(deps: Deps, rank: Warnable -> nat) {
    forall w, d :: d in deps(w) ==> rank(d) < rank(w)
  }

  /** isEffectivelyHealthyLocked as a definition: healthy, or depending on one that is not effectively so. */
  ghost function Effective(deps: Deps, rank: Warnable -> nat, unhealthy: set<Warnable>, w: Warnable): bool
    requires Ranked(deps, rank)
    decreases rank(w)
  {
    w !in unhealthy || exists d :: d in deps(w) && !Effective(deps, rank, unhealthy, d)
  }

  method IsEffectivelyHealthy(deps: Deps, ghost rank: Warnable -> nat, unhealthy: set<Warnable>, w: Warnable)
      returns (healthy: bool)
    requires Ranked(deps, rank)
    ensures healthy == Effective(deps, rank, unhealthy, w)
    decreases rank(w)
  {
    if w !in unhealthy {
      return true;
    }
    var ds := deps(w);
    for i := 0 to |ds|
      invariant forall j :: 0 <= j < i ==> Effective(deps, rank, unhealthy, ds[j])
    {
      assert ds[i] in deps(w);
      var h := IsEffectivelyHealthy(deps, rank, unhealthy, ds[i]);
      if !h {
        return true;
      }
    }
    return false;
  }

  /**
    A kernel of the unhealthy warnables: none in it depends on another one in
    it, and every one left out depends on one in it.
   */
  ghost predicate IsKernel(deps: Deps, unhealthy: set<Warnable>, kernel: set<Warnable>) {
    && kernel <= unhealthy
    && (forall w, d :: w in kernel && d in deps(w) ==> d !in kernel)
    && (forall w :: w in unhealthy && w !in kernel ==> exists d :: d in deps(w) && d in kernel)
  }

  ghost function Reported(deps: Deps, rank: Warnable -> nat, unhealthy: set<Warnable>): set<Warnable>
    requires Ranked(deps, rank)
  {
    set w | w in unhealthy && !Effective(deps, rank, unhealthy, w)
  }

  lemma ReportedIsKernel(deps: Deps, rank: Warnable -> nat, unhealthy: set<Warnable>)
    requires Ranked(deps, rank)
    ensures IsKernel(deps, unhealthy, Reported(deps, rank, unhealthy))
  {
    var kernel := Reported(deps, rank, unhealthy);
    forall w | w in unhealthy && w !in kernel
      ensures exists d :: d in deps(w) && d in kernel
    {
      var d :| d in deps(w) && !Effective(deps, rank, unhealthy, d);
      assert d in kernel;
    }
  }

  lemma {:induction false} KernelAgrees(deps: Deps, rank: Warnable -> nat, unhealthy: set<Warnable>,
                                        kernel: set<Warnable>, w: Warnable)
    requires Ranked(deps, rank) && IsKernel(deps, unhealthy, kernel)
    ensures w in kernel <==> !Effective(deps, rank, unhealthy, w)
    decreases rank(w)
  {
    forall d | d in deps(w)
      ensures d in kernel <==> !Effective(deps, rank, unhealthy, d)
    {
      KernelAgrees(deps, rank, unhealthy, kernel, d);
    }
  }

  /** With acyclic dependencies the reported warnables are the one and only kernel. */
  lemma UniqueKernel(deps: Deps, rank: Warnable -> nat, unhealthy: set<Warnable>, kernel: set<Warnable>)
    requires Ranked(deps, rank)
    ensures IsKernel(deps, unhealthy, kernel) <==> kernel == Reported(deps, rank, unhealthy)
  {
    ReportedIsKernel(deps, rank, unhealthy);
    if IsKernel(deps, unhealthy, kernel) {
      forall w
        ensures w in kernel <==> w in Reported(deps, rank, unhealthy)
      {
        KernelAgrees(deps, rank, unhealthy, kernel, w);
      }
    }
  }

  lemma {:induction false} LowestRank(rank: Warnable -> nat, ws: set<Warnable>) returns (low: Warnable)
    requires ws != {}
    ensures low in ws && forall w :: w in ws ==> rank(low) <= rank(w)
    decreases |ws|
  {
    low :| low in ws;
    if ws != {low} {
      var rest := LowestRank(rank, ws - {low});
      assert ws == (ws - {low}) + {low};
      if rank(rest) < rank(low) {
        low := rest;
      }
    }
  }

  /** Something is reported whenever anything is unhealthy. */
  lemma TroubleIsReported(deps: Deps, rank: Warnable -> nat, unhealthy: set<Warnable>)
    requires Ranked(deps, rank)
    ensures Reported(deps, rank, unhealthy) != {} <==> unhealthy != {}
  {
    if unhealthy != {} {
      var low := LowestRank(rank, unhealthy);
      forall d | d in deps(low)
        ensures Effective(deps, rank, unhealthy, d)
      {
        assert rank(d) < rank(low);
      }
      assert low in Reported(deps, rank, unhealthy);
    }
  }

  ghost function Visible(val: map<Warnable, WarningState>, clock: Warnable -> Time): set<Warnable> {
    set w | w in val && IsVisible(w, val[w], clock(w))
  }

  /**
    CurrentState: the warnables shown to the user, besides the control plane's
    own messages.  The clock is read once per warnable.
   */
  method CurrentState(deps: Deps, ghost rank: Warnable -> nat, val: map<Warnable, WarningState>,
                      clock: Warnable -> Time) returns (shown: set<Warnable>)
    requires Ranked(deps, rank)
    ensures shown == Visible(val, clock) * Reported(deps, rank, val.Keys)
  {
    shown := {};
    var todo := val.Keys;
    while todo != {}
      invariant todo <= val.Keys
      invariant shown == Visible(val, clock) * Reported(deps, rank, val.Keys) - todo
      decreases todo
    {
      var w :| w in todo;
      todo := todo - {w};
      if !IsVisible(w, val[w], clock(w)) {
        continue;
      }
      var healthy := IsEffectivelyHealthy(deps, rank, val.Keys, w);
      if healthy {
        continue;
      }
      shown := shown + {w};
    }
  }

  /** Everything broke at some time up to now. */
  ghost predicate Past(val: map<Warnable, WarningState>, now: Time) {
    forall w :: w in val ==> val[w].brokenSince <= now
  }

  /** What the user sees at one instant. */
  ghost function Shown(deps: Deps, rank: Warnable -> nat, val: map<Warnable, WarningState>, now: Time): set<Warnable>
    requires Ranked(deps, rank)
  {
    Visible(val, _ => now) * Reported(deps, rank, val.Keys)
  }

  /** A visible warning suppressed by a cause that is not visible yet: nothing is shown at all. */
  lemma VisibleTroubleCanBeHidden(deps: Deps, rank: Warnable -> nat, effect: Warnable, cause: Warnable, now: Time)
      returns (val: map<Warnable, WarningState>)
    requires Ranked(deps, rank) && cause in deps(effect) && cause.timeToVisible > 0
    ensures Past(val, now) && effect in Visible(val, _ => now) && Shown(deps, rank, val, now) == {}
  {
    var since := if effect.timeToVisible > 0 then now - effect.timeToVisible else now;
    val := map[cause := WarningState(now, map[]), effect := WarningState(since, map[])];
    forall d | d in deps(cause)
      ensures Effective(deps, rank, val.Keys, d)
    {
      assert rank(d) < rank(cause) < rank(effect);
    }
    assert !Effective(deps, rank, val.Keys, cause);
    assert Effective(deps, rank, val.Keys, effect);
  }

  /**
    An empty State is documented to mean that all is well.  Visible trouble is
    sure to be shown exactly when no warnable others depend on has a delay.
   */
  lemma TroubleShownIffCausesUndelayed(deps: Deps, rank: Warnable -> nat, now: Time)
    requires Ranked(deps, rank)
    ensures (forall val :: Past(val, now) && Visible(val, _ => now) != {} ==> Shown(deps, rank, val, now) != {})
       <==> (forall w, d :: d in deps(w) ==> d.timeToVisible <= 0)
  {
    if w, d :| d in deps(w) && d.timeToVisible > 0 {
      var val := VisibleTroubleCanBeHidden(deps, rank, w, d, now);
    } else {
      forall val | Past(val, now) && Visible(val, _ => now) != {}
        ensures Shown(deps, rank, val, now) != {}
      {
        var w :| w in Visible(val, _ => now);
        if w in Reported(deps, rank, val.Keys) {
          assert w in Shown(deps, rank, val, now);
        } else {
          ReportedIsKernel(deps, rank, val.Keys);
          var d :| d in deps(w) && d in Reported(deps, rank, val.Keys);
          assert d in Shown(deps, rank, val, now);
        }
      }
    }
  }
}
