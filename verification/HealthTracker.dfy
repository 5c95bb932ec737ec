/**
  The health tracker: warnables become unhealthy and healthy again, and each
  change is published at once or, while it is not visible yet, by a timer.
  Timers that a later update supersedes are never stopped.
 */
module HealthTracker {
  import opened ByteCodec

  type Time = int
  type Args = map<string, string>

  datatype Warnable = Warnable(code: string, timeToVisible: int)

  datatype WarningState = WarningState(brokenSince: Time, args: Args)

  datatype Change = BecameUnhealthy(w: Warnable, ws: WarningState) | BecameHealthy(w: Warnable)

  /** A scheduled callback: the change it would publish and when it may run. */
  datatype Timer = Timer(w: Warnable, ws: WarningState, deadline: Time)

  datatype State = State(
    warnables: seq<Warnable>,
    val: map<Warnable, WarningState>,
    pending: map<Warnable, nat>,
    timers: map<nat, Timer>,
    nextTimer: nat,
    events: seq<Change>,
    now: Time)

  const INIT := State([], map[], map[], map[], 0, [], 0)

  /** The clock readings one SetUnhealthy takes, in order; the last starts the timer. */
  datatype Reads = Reads(first: Time, visible: Time, remaining: Time, started: Time)

  /** One critical section of the tracker. */
  datatype Op =
    | SetUnhealthy(w: Warnable, args: Args, clock: Reads)
    | SetHealthy(w: Warnable, at: Time, stopped: bool)
    | Fire(id: nat, at: Time)

  predicate IsVisible(w: Warnable, ws: WarningState, now: Time) {
    w.timeToVisible == 0 || now - ws.brokenSince >= w.timeToVisible
  }

  /**
    Which operations the environment can produce: the clock never goes back, a
    timer runs no earlier than its deadline, and stopping a timer comes too late
    only when its deadline has passed.
   */
  predicate Enabled(s: State, op: Op) {
    match op
    case SetUnhealthy(_, _, c) => s.now <= c.first <= c.visible <= c.remaining <= c.started
    case SetHealthy(w, at, stopped) =>
      s.now <= at &&
      (!stopped ==> w in s.pending && s.pending[w] in s.timers && s.timers[s.pending[w]].deadline <= at)
    case Fire(id, at) => s.now <= at && id in s.timers && s.timers[id].deadline <= at
  }

  function DoSetUnhealthy(s: State, w: Warnable, args: Args, c: Reads): State {
    var brokenSince := if w in s.val then s.val[w].brokenSince else c.first;
    var ws := WarningState(brokenSince, args);
    var s1 := s.(warnables := if w in s.val then s.warnables else s.warnables + [w],
                 val := s.val[w := ws],
                 now := c.started);
    if w in s.val && s.val[w] == ws then s1
    else if IsVisible(w, ws, c.visible) then s1.(events := s.events + [BecameUnhealthy(w, ws)])
    else
      var visibleIn := w.timeToVisible - (c.remaining - brokenSince);
      s1.(timers := s.timers[s.nextTimer := Timer(w, ws, c.started + visibleIn)],
          pending := s.pending[w := s.nextTimer],
          nextTimer := s.nextTimer + 1)
  }

  function DoSetHealthy(s: State, w: Warnable, at: Time, stopped: bool): State {
    if w !in s.val then s.(now := at)
    else s.(val := s.val - {w},
            timers := if w in s.pending && stopped then s.timers - {s.pending[w]} else s.timers,
            pending := s.pending - {w},
            events := s.events + [BecameHealthy(w)],
            now := at)
  }

  function DoFire(s: State, id: nat, at: Time): State
    requires id in s.timers
  {
    var Timer(w, ws, _) := s.timers[id];
    var s1 := s.(timers := s.timers - {id}, now := at);
    if w !in s.val then s1
    else s1.(events := s.events + [BecameUnhealthy(w, ws)], pending := s.pending - {w})
  }

  function Apply(s: State, op: Op): State
    requires Enabled(s, op)
  {
    match op
    case SetUnhealthy(w, args, c) => DoSetUnhealthy(s, w, args, c)
    case SetHealthy(w, at, stopped) => DoSetHealthy(s, w, at, stopped)
    case Fire(id, at) => DoFire(s, id, at)
  }

  /** The tracker itself: fields updated in place by its locked methods. */
  class Tracker {
    var warnables: seq<Warnable>
    var warnableVal: map<Warnable, WarningState>
    var pendingVisibleTimers: map<Warnable, nat>
    /** The environment: live timers, the event bus and the last clock reading. */
    var timers: map<nat, Timer>
    var nextTimer: nat
    var events: seq<Change>
    var now: Time

    ghost function View(): State
      reads this
    {
      State(warnables, warnableVal, pendingVisibleTimers, timers, nextTimer, events, now)
    }

    /** What every run keeps of subscribers, timers and tracker. */
    ghost predicate Valid()
      reads this
    {
      Inv(View())
    }

    constructor ()
      ensures Valid() && View() == INIT
    {
      warnables, warnableVal, pendingVisibleTimers := [], map[], map[];
      timers, nextTimer, events, now := map[], 0, [], 0;
    }

    method SetUnhealthyLocked(w: Warnable, args: Args, clock: Reads)
      requires Enabled(View(), Op.SetUnhealthy(w, args, clock))
      modifies this
      ensures View() == Apply(old(View()), Op.SetUnhealthy(w, args, clock))
    {
      var brokenSince := clock.first;
      if w in warnableVal {
        brokenSince := warnableVal[w].brokenSince;
      }
      if w !in warnableVal {
        warnables := warnables + [w];
      }
      var ws := WarningState(brokenSince, args);
      var prev := if w in warnableVal then Some(warnableVal[w]) else None;
      warnableVal := warnableVal[w := ws];
      now := clock.started;
      if prev != Some(ws) {
        if IsVisible(w, ws, clock.visible) {
          events := events + [BecameUnhealthy(w, ws)];
        } else {
          var visibleIn := w.timeToVisible - (clock.remaining - brokenSince);
          var tc := nextTimer;
          timers := timers[tc := Timer(w, ws, clock.started + visibleIn)];
          nextTimer := nextTimer + 1;
          pendingVisibleTimers := pendingVisibleTimers[w := tc];
        }
      }
    }

    method SetHealthyLocked(w: Warnable, at: Time, stopped: bool)
      requires Enabled(View(), Op.SetHealthy(w, at, stopped))
      modifies this
      ensures View() == Apply(old(View()), Op.SetHealthy(w, at, stopped))
    {
      now := at;
      if w !in warnableVal {
        return;
      }
      warnableVal := warnableVal - {w};
      if w in pendingVisibleTimers {
        if stopped {
          timers := timers - {pendingVisibleTimers[w]};
        }
        pendingVisibleTimers := pendingVisibleTimers - {w};
      } else {
        assert pendingVisibleTimers - {w} == pendingVisibleTimers;
      }
      events := events + [BecameHealthy(w)];
    }

    method SetUnhealthy(w: Warnable, args: Args, clock: Reads)
      requires Valid() && Enabled(View(), Op.SetUnhealthy(w, args, clock))
      modifies this
      ensures Valid() && View() == Apply(old(View()), Op.SetUnhealthy(w, args, clock))
    {
      StepKeepsInv(View(), Op.SetUnhealthy(w, args, clock));
      SetUnhealthyLocked(w, args, clock);
    }

    method SetHealthy(w: Warnable, at: Time, stopped: bool)
      requires Valid() && Enabled(View(), Op.SetHealthy(w, at, stopped))
      modifies this
      ensures Valid() && View() == Apply(old(View()), Op.SetHealthy(w, at, stopped))
    {
      StepKeepsInv(View(), Op.SetHealthy(w, at, stopped));
      SetHealthyLocked(w, at, stopped);
    }

    /** The callback a timer runs. */
    method TimerFired(id: nat, at: Time)
      requires Valid() && Enabled(View(), Fire(id, at))
      modifies this
      ensures Valid() && View() == Apply(old(View()), Fire(id, at))
    {
      StepKeepsInv(View(), Op.Fire(id, at));
      var Timer(w, ws, _) := timers[id];
      timers, now := timers - {id}, at;
      if w in warnableVal {
        events := events + [BecameUnhealthy(w, ws)];
        pendingVisibleTimers := pendingVisibleTimers - {w};
      }
    }
  }

  /** What one event does to a subscriber's beliefs. */
  function Hear(heard: map<Warnable, WarningState>, c: Change): map<Warnable, WarningState> {
    match c
    case BecameUnhealthy(w, ws) => heard[w := ws]
    case BecameHealthy(w) => heard - {w}
  }

  /** What a subscriber believes after hearing the events. */
  function Replay(events: seq<Change>): map<Warnable, WarningState> {
    if events == [] then map[] else Hear(Replay(events[..|events| - 1]), events[|events| - 1])
  }

  lemma ReplayAppend(events: seq<Change>, c: Change)
    ensures Replay(events + [c]) == Hear(Replay(events), c)
  {
    assert (events + [c])[..|events|] == events;
  }

  type Table = map<Warnable, WarningState>

  /**
    A subscriber never believes a healthy warnable to be unhealthy, and every
    unhealthy warnable it has not heard of has a timer pending.
   */
  ghost predicate Informed(val: Table, heard: Table, pending: map<Warnable, nat>) {
    && (forall w :: w in heard ==> w in val)
    && (forall w :: w in pending ==> w in val)
    && (forall w :: w in val && w !in heard ==> w in pending)
  }

  /** A pending timer is the warnable's own, and has not run. */
  ghost predicate PendingLive(pending: map<Warnable, nat>, timers: map<nat, Timer>) {
    forall w :: w in pending ==> pending[w] in timers && timers[pending[w]].w == w
  }

  /** No timer is due before its own episode is old enough to be seen. */
  ghost predicate TimersOk(timers: map<nat, Timer>, nextTimer: nat) {
    forall id :: id in timers ==>
      && id < nextTimer
      && timers[id].w.timeToVisible > 0
      && timers[id].deadline >= timers[id].ws.brokenSince + timers[id].w.timeToVisible
  }

  ghost predicate Began(val: Table, now: Time) {
    forall w :: w in val ==> val[w].brokenSince <= now
  }

  /** A warnable without delay is published exactly as it stands. */
  ghost predicate Undelayed(val: Table, heard: Table) {
    forall w :: w in val && w.timeToVisible <= 0 ==> w in heard && heard[w] == val[w]
  }

  ghost predicate Inv(s: State) {
    var heard := Replay(s.events);
    && Informed(s.val, heard, s.pending)
    && PendingLive(s.pending, s.timers)
    && TimersOk(s.timers, s.nextTimer)
    && Began(s.val, s.now)
    && Undelayed(s.val, heard)
  }

  lemma PublishKeeps(val: Table, heard: Table, pending: map<Warnable, nat>, w: Warnable, ws: WarningState)
    requires Informed(val, heard, pending) && Undelayed(val, heard)
    ensures Informed(val[w := ws], heard[w := ws], pending) && Undelayed(val[w := ws], heard[w := ws])
  {
  }

  lemma ScheduleKeeps(val: Table, heard: Table, pending: map<Warnable, nat>, timers: map<nat, Timer>, n: nat, t: Timer)
    requires Informed(val, heard, pending) && PendingLive(pending, timers)
    requires TimersOk(timers, n) && Undelayed(val, heard)
    requires t.w.timeToVisible > 0 && t.deadline >= t.ws.brokenSince + t.w.timeToVisible
    ensures Informed(val[t.w := t.ws], heard, pending[t.w := n]) && Undelayed(val[t.w := t.ws], heard)
    ensures PendingLive(pending[t.w := n], timers[n := t]) && TimersOk(timers[n := t], n + 1)
  {
  }

  lemma SetUnhealthyKeepsInv(s: State, w: Warnable, args: Args, c: Reads)
    requires Inv(s) && Enabled(s, SetUnhealthy(w, args, c))
    ensures Inv(DoSetUnhealthy(s, w, args, c))
  {
    var brokenSince := if w in s.val then s.val[w].brokenSince else c.first;
    var ws := WarningState(brokenSince, args);
    var heard := Replay(s.events);
    assert Began(s.val[w := ws], c.started);
    if w in s.val && s.val[w] == ws {
      assert s.val[w := ws] == s.val;
    } else if IsVisible(w, ws, c.visible) {
      ReplayAppend(s.events, BecameUnhealthy(w, ws));
      PublishKeeps(s.val, heard, s.pending, w, ws);
    } else {
      var t := Timer(w, ws, c.started + (w.timeToVisible - (c.remaining - brokenSince)));
      ScheduleKeeps(s.val, heard, s.pending, s.timers, s.nextTimer, t);
    }
  }

  lemma SetHealthyKeepsInv(s: State, w: Warnable, at: Time, stopped: bool)
    requires Inv(s) && Enabled(s, SetHealthy(w, at, stopped))
    ensures Inv(DoSetHealthy(s, w, at, stopped))
  {
    var s' := DoSetHealthy(s, w, at, stopped);
    ReplayAppend(s.events, BecameHealthy(w));
    if w in s.val {
      assert Informed(s'.val, Replay(s.events) - {w}, s'.pending);
      assert PendingLive(s'.pending, s'.timers);
      assert Undelayed(s'.val, Replay(s.events) - {w});
    }
  }

  lemma FireKeepsInv(s: State, id: nat, at: Time)
    requires Inv(s) && Enabled(s, Fire(id, at))
    ensures Inv(DoFire(s, id, at))
  {
    var s' := DoFire(s, id, at);
    var Timer(w, ws, _) := s.timers[id];
    ReplayAppend(s.events, BecameUnhealthy(w, ws));
    assert PendingLive(s'.pending, s'.timers);
    if w in s.val {
      assert Informed(s.val, Replay(s.events)[w := ws], s'.pending);
      assert Undelayed(s.val, Replay(s.events)[w := ws]);
    }
  }

  lemma StepKeepsInv(s: State, op: Op)
    requires Inv(s) && Enabled(s, op)
    ensures Inv(Apply(s, op))
  {
    match op
    case SetUnhealthy(w, args, c) => SetUnhealthyKeepsInv(s, w, args, c);
    case SetHealthy(w, at, stopped) => SetHealthyKeepsInv(s, w, at, stopped);
    case Fire(id, at) => FireKeepsInv(s, id, at);
  }

  /** A run the environment can produce from s. */
  predicate Possible(s: State, ops: seq<Op>)
    decreases |ops|
  {
    ops == [] || (Enabled(s, ops[0]) && Possible(Apply(s, ops[0]), ops[1..]))
  }

  function Run(s: State, ops: seq<Op>): State
    requires Possible(s, ops)
    decreases |ops|
  {
    if ops == [] then s else Run(Apply(s, ops[0]), ops[1..])
  }

  lemma RunFrom(s: State, op: Op, rest: seq<Op>)
    requires Enabled(s, op) && Possible(Apply(s, op), rest)
    ensures Possible(s, [op] + rest) && Run(s, [op] + rest) == Run(Apply(s, op), rest)
  {
    assert ([op] + rest)[1..] == rest;
  }

  /** Every run keeps the subscribers' view and the timers consistent with the tracker. */
  lemma {:induction false} RunKeepsInv(s: State, ops: seq<Op>)
    requires Inv(s) && Possible(s, ops)
    ensures Inv(Run(s, ops))
    decreases |ops|
  {
    if ops != [] {
      StepKeepsInv(s, ops[0]);
      RunKeepsInv(Apply(s, ops[0]), ops[1..]);
    }
  }

  /** Once no timer is left, subscribers know exactly which warnables are unhealthy. */
  lemma QuietMeansInformed(ops: seq<Op>)
    requires Possible(INIT, ops) && Run(INIT, ops).timers == map[]
    ensures var s := Run(INIT, ops); Replay(s.events).Keys == s.val.Keys
  {
    RunKeepsInv(INIT, ops);
  }

  /** Within one unhealthy episode the time it began does not move, whatever else happens. */
  lemma {:induction false} EpisodeKeepsBrokenSince(s: State, ops: seq<Op>, w: Warnable)
    requires Possible(s, ops) && w in s.val
    requires forall i :: 0 <= i < |ops| ==> !(ops[i].SetHealthy? && ops[i].w == w)
    ensures w in Run(s, ops).val && Run(s, ops).val[w].brokenSince == s.val[w].brokenSince
    decreases |ops|
  {
    if ops != [] {
      assert ops[0] in ops;
      EpisodeKeepsBrokenSince(Apply(s, ops[0]), ops[1..], w);
    }
  }

  /** Whether the published state of w is the tracker's, at a moment when nothing is in flight. */
  ghost predicate ExactWhenQuiet(w: Warnable, ops: seq<Op>)
    requires Possible(INIT, ops)
  {
    var s := Run(INIT, ops);
    s.timers == map[] && w in s.val ==> w in Replay(s.events) && Replay(s.events)[w] == s.val[w]
  }

  /** Two updates, the second one published at once, then the first one's timer. */
  function StaleRun(w: Warnable, a: Args, b: Args): seq<Op> {
    var t := w.timeToVisible;
    [SetUnhealthy(w, a, Reads(0, 0, 0, 0)), SetUnhealthy(w, b, Reads(t, t, t, t)), Fire(0, t)]
  }

  lemma StaleRunEndsStale(w: Warnable, a: Args, b: Args)
    requires w.timeToVisible > 0 && a != b
    ensures Possible(INIT, StaleRun(w, a, b)) && !ExactWhenQuiet(w, StaleRun(w, a, b))
  {
    var ops, t := StaleRun(w, a, b), w.timeToVisible;
    var wa, wb := WarningState(0, a), WarningState(0, b);
    var s1 := State([w], map[w := wa], map[w := 0], map[0 := Timer(w, wa, t)], 1, [], 0);
    assert Apply(INIT, ops[0]) == s1;
    var s2 := s1.(val := map[w := wb], events := [BecameUnhealthy(w, wb)], now := t);
    assert Apply(s1, ops[1]) == s2;
    var s3 := Apply(s2, ops[2]);
    assert s3.val == map[w := wb] && s3.timers == map[] && s3.events == s2.events + [BecameUnhealthy(w, wa)];
    ReplayAppend(s2.events, BecameUnhealthy(w, wa));
    RunFrom(s2, ops[2], []);
    RunFrom(s1, ops[1], [ops[2]]);
    RunFrom(INIT, ops[0], [ops[1], ops[2]]);
  }

  /**
    Superseded timers can leave subscribers with outdated arguments for good.
    That never happens to w exactly when it has no delay.
   */
  lemma ExactIffNoDelay(w: Warnable)
    ensures (forall ops :: Possible(INIT, ops) ==> ExactWhenQuiet(w, ops)) <==> w.timeToVisible <= 0
  {
    if w.timeToVisible <= 0 {
      forall ops | Possible(INIT, ops)
        ensures ExactWhenQuiet(w, ops)
      {
        RunKeepsInv(INIT, ops);
      }
    } else {
      var a: Args, b: Args := map[], map["" := ""];
      assert "" in b;
      StaleRunEndsStale(w, a, b);
    }
  }

  /** An operation that publishes w as unhealthy before the current episode is old enough. */
  ghost predicate PublishesEarly(s: State, op: Op, w: Warnable)
    requires Enabled(s, op)
  {
    var s' := Apply(s, op);
    && (exists ws :: s'.events == s.events + [BecameUnhealthy(w, ws)])
    && w in s'.val && w.timeToVisible != 0
    && s'.now - s'.val[w].brokenSince < w.timeToVisible
  }

  /**
    An operation publishes early exactly when it is a timer of w firing in an
    episode too young for it; never its own.
   */
  lemma EarlyIffOldTimer(s: State, op: Op, w: Warnable)
    requires Inv(s) && Enabled(s, op)
    ensures PublishesEarly(s, op, w) <==>
            op.Fire? && s.timers[op.id].w == w && w in s.val && op.at - s.val[w].brokenSince < w.timeToVisible
    ensures PublishesEarly(s, op, w) ==> s.timers[op.id].ws.brokenSince != s.val[w].brokenSince
  {
    var s' := Apply(s, op);
    if PublishesEarly(s, op, w) {
      var ws :| s'.events == s.events + [BecameUnhealthy(w, ws)];
      assert s'.events[|s.events|] == BecameUnhealthy(w, ws);
    }
  }

  /** All timers of w stem from the episode it is in. */
  ghost predicate OneEpisode(s: State, w: Warnable) {
    forall id :: id in s.timers && s.timers[id].w == w ==>
      w in s.val && s.timers[id].ws.brokenSince == s.val[w].brokenSince
  }

  lemma StepKeepsOneEpisode(s: State, op: Op, w: Warnable)
    requires Enabled(s, op) && OneEpisode(s, w) && !(op.SetHealthy? && op.w == w)
    ensures OneEpisode(Apply(s, op), w)
  {
  }

  /** The delay is honoured in every first episode: a warnable never set healthy is never early. */
  lemma {:induction false} NeverEarlyInFirstEpisode(s: State, ops: seq<Op>, op: Op, w: Warnable)
    requires Inv(s) && Possible(s, ops) && Enabled(Run(s, ops), op)
    requires OneEpisode(s, w)
    requires forall i :: 0 <= i < |ops| ==> !(ops[i].SetHealthy? && ops[i].w == w)
    ensures !PublishesEarly(Run(s, ops), op, w)
    decreases |ops|
  {
    if ops == [] {
      if PublishesEarly(s, op, w) {
        EarlyIffOldTimer(s, op, w);
      }
    } else {
      assert ops[0] in ops;
      StepKeepsInv(s, ops[0]);
      StepKeepsOneEpisode(s, ops[0], w);
      NeverEarlyInFirstEpisode(Apply(s, ops[0]), ops[1..], op, w);
    }
  }

  /** w is not updated while its timer is pending, and its timer is always stopped in time. */
  predicate Tidy(s: State, ops: seq<Op>, w: Warnable)
    requires Possible(s, ops)
    decreases |ops|
  {
    ops == [] ||
    (&& (ops[0].SetUnhealthy? && ops[0].w == w ==> w !in s.pending)
     && (ops[0].SetHealthy? && ops[0].w == w ==> ops[0].stopped)
     && Tidy(Apply(s, ops[0]), ops[1..], w))
  }

  /** The only timer w can have is the pending one, of the current episode. */
  ghost predicate OwnTimerOnly(s: State, w: Warnable) {
    forall id :: id in s.timers && s.timers[id].w == w ==>
      && w in s.pending && s.pending[w] == id
      && w in s.val && s.timers[id].ws.brokenSince == s.val[w].brokenSince
  }

  lemma {:induction false} StepKeepsOwnTimer(s: State, op: Op, w: Warnable)
    requires Inv(s) && Enabled(s, op) && OwnTimerOnly(s, w) && Tidy(s, [op], w)
    ensures OwnTimerOnly(Apply(s, op), w)
  {
    match op
    case SetUnhealthy(u, _, _) =>
    case SetHealthy(u, _, _) =>
    case Fire(id, _) =>
      assert s.timers[id].w in s.val ==> Apply(s, op).pending == s.pending - {s.timers[id].w};
  }

  /** Superseding and late stops are the only causes: without them no run publishes w early. */
  lemma {:induction false} TidyNeverEarly(s: State, ops: seq<Op>, op: Op, w: Warnable)
    requires Inv(s) && OwnTimerOnly(s, w)
    requires Possible(s, ops) && Tidy(s, ops, w) && Enabled(Run(s, ops), op)
    ensures !PublishesEarly(Run(s, ops), op, w)
    decreases |ops|
  {
    if ops == [] {
      if PublishesEarly(s, op, w) {
        EarlyIffOldTimer(s, op, w);
      }
    } else {
      StepKeepsInv(s, ops[0]);
      assert Tidy(s, [ops[0]], w);
      StepKeepsOwnTimer(s, ops[0], w);
      TidyNeverEarly(Apply(s, ops[0]), ops[1..], op, w);
    }
  }

  lemma {:induction false} RunOn(s: State, first: seq<Op>, rest: seq<Op>)
    requires Possible(s, first) && Possible(Run(s, first), rest)
    ensures Possible(s, first + rest) && Run(s, first + rest) == Run(Run(s, first), rest)
    decreases |first|
  {
    if first == [] {
      assert first + rest == rest;
    } else {
      RunOn(Apply(s, first[0]), first[1..], rest);
      RunFrom(s, first[0], first[1..] + rest);
      assert first + rest == [first[0]] + (first[1..] + rest);
    }
  }

  /** Two timers, of which the first fires. */
  function EarlyStart(w: Warnable, a: Args, b: Args): seq<Op> {
    [SetUnhealthy(w, a, Reads(0, 0, 0, 0)), SetUnhealthy(w, b, Reads(0, 0, 0, 0)), Fire(0, w.timeToVisible)]
  }

  function EarlyMiddle(w: Warnable, a: Args, b: Args): State {
    var t := w.timeToVisible;
    State([w], map[w := WarningState(0, b)], map[], map[1 := Timer(w, WarningState(0, b), t)], 2,
          [BecameUnhealthy(w, WarningState(0, a))], t)
  }

  /** The warnable recovers and breaks again at once. */
  function EarlyEnd(w: Warnable, a: Args): seq<Op> {
    var t := w.timeToVisible;
    [SetHealthy(w, t, true), SetUnhealthy(w, a, Reads(t, t, t, t))]
  }

  lemma EarlyStartRuns(w: Warnable, a: Args, b: Args)
    requires w.timeToVisible > 0 && a != b
    ensures Possible(INIT, EarlyStart(w, a, b)) && Run(INIT, EarlyStart(w, a, b)) == EarlyMiddle(w, a, b)
  {
    var ops, t := EarlyStart(w, a, b), w.timeToVisible;
    var wa, wb := WarningState(0, a), WarningState(0, b);
    var s1 := State([w], map[w := wa], map[w := 0], map[0 := Timer(w, wa, t)], 1, [], 0);
    assert Apply(INIT, ops[0]) == s1;
    var s2 := State([w], map[w := wb], map[w := 1], map[0 := Timer(w, wa, t), 1 := Timer(w, wb, t)], 2, [], 0);
    assert Apply(s1, ops[1]) == s2;
    assert Apply(s2, ops[2]) == EarlyMiddle(w, a, b);
    RunFrom(s2, ops[2], []);
    RunFrom(s1, ops[1], [ops[2]]);
    RunFrom(INIT, ops[0], [ops[1], ops[2]]);
  }

  lemma EarlyEndRuns(w: Warnable, a: Args, b: Args)
    requires w.timeToVisible > 0
    ensures var t := w.timeToVisible;
            && Possible(EarlyMiddle(w, a, b), EarlyEnd(w, a))
            && var s := Run(EarlyMiddle(w, a, b), EarlyEnd(w, a));
               && s.val == map[w := WarningState(t, a)] && s.now == t
               && 1 in s.timers && s.timers[1] == Timer(w, WarningState(0, b), t)
  {
    var ops, s3 := EarlyEnd(w, a), EarlyMiddle(w, a, b);
    var s4 := s3.(val := map[], events := s3.events + [BecameHealthy(w)]);
    assert Apply(s3, ops[0]) == s4;
    RunFrom(s4, ops[1], []);
    RunFrom(s3, ops[0], [ops[1]]);
  }

  /** For every warnable with a delay, the old episode's second timer publishes it before its time. */
  lemma DelayCanBeCutShort(w: Warnable, a: Args, b: Args)
    requires w.timeToVisible > 0 && a != b
    ensures EverEarly(w, EarlyStart(w, a, b) + EarlyEnd(w, a), Fire(1, w.timeToVisible))
  {
    EarlyStartRuns(w, a, b);
    EarlyEndRuns(w, a, b);
    RunOn(INIT, EarlyStart(w, a, b), EarlyEnd(w, a));
    var ops := EarlyStart(w, a, b) + EarlyEnd(w, a);
    InitHolds();
    RunKeepsInv(INIT, ops);
    EarlyIffOldTimer(Run(INIT, ops), Fire(1, w.timeToVisible), w);
  }

  lemma InitHolds()
    ensures Inv(INIT)
  {
  }

  /** From a fresh tracker, the run is possible and the operation after it publishes w early. */
  ghost predicate EverEarly(w: Warnable, ops: seq<Op>, op: Op) {
    Possible(INIT, ops) && Enabled(Run(INIT, ops), op) && PublishesEarly(Run(INIT, ops), op, w)
  }

  /** No run ever publishes w before its time exactly when it has no delay. */
  lemma NeverEarlyIffNoDelay(w: Warnable)
    ensures (forall ops, op :: !EverEarly(w, ops, op)) <==> w.timeToVisible <= 0
  {
    if w.timeToVisible <= 0 {
      forall ops, op
        ensures !EverEarly(w, ops, op)
      {
        if Possible(INIT, ops) && Enabled(Run(INIT, ops), op) {
          InitHolds();
          RunKeepsInv(INIT, ops);
          EarlyIffOldTimer(Run(INIT, ops), op, w);
        }
      }
    } else {
      var a: Args, b: Args := map[], map["" := ""];
      assert "" in b;
      DelayCanBeCutShort(w, a, b);
    }
  }
}
