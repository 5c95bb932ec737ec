/**
  A whole history of builders on one authority, each finalized and applied before
  the next: how far apart checkpoints get on the chain that grows.
 */
module TkaHistory {
  import opened ByteCodec
  import opened TkaState
  import opened TkaBuilder

  // ----- the chain and its store

  /** Updates from the genesis on, each naming the hash of the one before it. */
  ghost predicate IsChain(chain: seq<AUM>, hash: Hasher) {
    && chain != [] && chain[0].prev.None?
    && forall i :: 0 < i < |chain| ==> chain[i].prev == Some(hash(chain[i - 1]))
  }

  ghost predicate Holds(store: Chonk, chain: seq<AUM>, hash: Hasher) {
    forall i :: 0 <= i < |chain| ==> store(hash(chain[i])) == Found(chain[i])
  }

  function HeadOf(chain: seq<AUM>, hash: Hasher): Hash
    requires chain != []
  {
    hash(chain[|chain| - 1])
  }

  /** A checkpoint, or the genesis update. */
  predicate Stop(chain: seq<AUM>, i: nat)
    requires i < |chain|
  {
    i == 0 || chain[i].kind == Checkpoint
  }

  /** One of the n updates from a position on is a stop. */
  ghost predicate HasStop(chain: seq<AUM>, from: int, n: int) {
    exists i :: 0 <= i < |chain| && from <= i < from + n && Stop(chain, i)
  }

  /** Any w updates in a row include a checkpoint or the genesis update. */
  ghost predicate Spaced(chain: seq<AUM>, w: int) {
    forall i :: 0 <= i && i + w <= |chain| ==> HasStop(chain, i, w)
  }

  lemma {:induction false} BackOnChain(store: Chonk, chain: seq<AUM>, hash: Hasher, n: nat, j: nat)
    requires IsChain(chain, hash) && Holds(store, chain, hash) && n < |chain|
    ensures Back(store, hash(chain[n]), j) == Found(chain[if j <= n then n - j else 0])
    decreases j
  {
    if j > 0 && n > 0 {
      BackOnChain(store, chain, hash, n - 1, j - 1);
    }
  }

  /** The store has an anchor among its newest n updates exactly when the chain has one there. */
  lemma AnchoredMeans(store: Chonk, chain: seq<AUM>, hash: Hasher, n: int)
    requires IsChain(chain, hash) && Holds(store, chain, hash)
    ensures Anchored(store, HeadOf(chain, hash), n) <==> HasStop(chain, |chain| - n, n)
  {
    var last := |chain| - 1;
    if j :| 0 <= j < n && Anchor(Back(store, HeadOf(chain, hash), j)) {
      BackOnChain(store, chain, hash, last, j);
      var i := if j <= last then last - j else 0;
      assert i > 0 ==> chain[i].prev == Some(hash(chain[i - 1]));
      assert Stop(chain, i);
    }
    if i :| 0 <= i < |chain| && |chain| - n <= i && Stop(chain, i) {
      BackOnChain(store, chain, hash, last, last - i);
      assert Anchor(Back(store, HeadOf(chain, hash), last - i));
    }
  }

  lemma {:induction false} ScanReadsChain(store: Chonk, chain: seq<AUM>, hash: Hasher, n: nat, m: nat)
    requires IsChain(chain, hash) && Holds(store, chain, hash) && n < |chain|
    ensures Scan(store, hash(chain[n]), m).Some?
    decreases m
  {
    if m > 0 && n > 0 {
      ScanReadsChain(store, chain, hash, n - 1, m - 1);
    }
  }

  // ----- what builder calls append

  ghost predicate NoCheckpoints(out: seq<AUM>) {
    forall i :: 0 <= i < |out| ==> out[i].kind != Checkpoint
  }

  lemma CallMakesNoCheckpoint(b: Builder, call: Call, hash: Hasher)
    requires NoCheckpoints(b.out)
    ensures NoCheckpoints(After(b, DoCall(b, call, hash)).out)
  {
  }

  lemma {:induction false} CallsMakeNoCheckpoint(b: Builder, calls: seq<Call>, hash: Hasher)
    requires NoCheckpoints(b.out)
    ensures NoCheckpoints(Build(b, calls, hash).out)
    decreases |calls|
  {
    if calls != [] {
      CallMakesNoCheckpoint(b, calls[0], hash);
      CallsMakeNoCheckpoint(After(b, DoCall(b, calls[0], hash)), calls[1..], hash);
    }
  }

  // ----- one round

  /** One administrator's builder: its calls, its signer and the store at the time. */
  datatype Round = Round(calls: seq<Call>, sign: Signing, store: Chonk)

  /** The chain so far and the authority's state at its head. */
  datatype World = World(chain: seq<AUM>, state: State)

  ghost predicate Good(w: World, hash: Hasher) {
    IsChain(w.chain, hash) && w.state.last == Some(HeadOf(w.chain, hash))
  }

  function Built(w: World, r: Round, hash: Hasher): Builder
    requires w.state.last.Some?
  {
    Build(NewUpdater(w.state), r.calls, hash)
  }

  function Outcome(w: World, r: Round, hash: Hasher): Final
    requires w.state.last.Some?
  {
    Finalize(Built(w, r, hash), w.state, r.store, r.sign, hash)
  }

  /** A finalized output is applied; a failed one changes nothing. */
  function Step(w: World, r: Round, hash: Hasher): World
    requires w.state.last.Some?
  {
    var f := Outcome(w, r, hash);
    if f.result.Ok? then World(w.chain + f.result.value, f.builder.state) else w
  }

  /** A round's output: what the calls appended and, if none was near enough, a checkpoint. */
  ghost predicate Appends(chain: seq<AUM>, out: seq<AUM>, near: bool, result: seq<AUM>) {
    && NoCheckpoints(out)
    && if near then result == out
       else |result| == |out| + 1 && result[..|out|] == out && result[|out|].kind == Checkpoint
  }

  lemma RoundAppends(w: World, r: Round, hash: Hasher)
    requires Good(w, hash) && Holds(r.store, w.chain, hash) && Outcome(w, r, hash).result.Ok?
    ensures var out := Built(w, r, hash).out;
            Appends(w.chain, out, HasStop(w.chain, |w.chain| - (CHECKPOINT_EVERY - |out|), CHECKPOINT_EVERY - |out|),
                    Outcome(w, r, hash).result.value)
    ensures var n := CHECKPOINT_EVERY - |Built(w, r, hash).out|;
            HasStop(w.chain, |w.chain| - n, n) ==> Outcome(w, r, hash).builder == Built(w, r, hash)
  {
    var b := Built(w, r, hash);
    CallsMakeNoCheckpoint(NewUpdater(w.state), r.calls, hash);
    AnchoredMeans(r.store, w.chain, hash, CHECKPOINT_EVERY - |b.out|);
    ScanMeaning(r.store, w.state.last.value, ToScan(|b.out|));
    if Scan(r.store, w.state.last.value, ToScan(|b.out|)) == Some(true) {
      GenerateAdds(b, w.state, r.sign, hash);
    }
  }

  /** Some update among the newest 50 is a checkpoint or the genesis. */
  ghost predicate Recent(chain: seq<AUM>) {
    HasStop(chain, |chain| - CHECKPOINT_EVERY, CHECKPOINT_EVERY)
  }

  lemma GenesisStops(chain: seq<AUM>, n: int)
    ensures chain != [] && n >= |chain| ==> HasStop(chain, |chain| - n, n)
  {
    if chain != [] && n >= |chain| {
      assert Stop(chain, 0);
    }
  }

  lemma StopStays(chain: seq<AUM>, more: seq<AUM>, from: int, n: int, from': int, n': int)
    requires HasStop(chain, from, n) && from' <= from && from + n <= from' + n'
    ensures HasStop(chain + more, from', n')
  {
    var i :| 0 <= i < |chain| && from <= i < from + n && Stop(chain, i);
    assert Stop(chain + more, i);
  }

  /** A window that reaches back over a part of the chain with a stop, or over an added checkpoint, has one. */
  lemma WindowHasStop(chain: seq<AUM>, out: seq<AUM>, near: bool, result: seq<AUM>, reach: int, i: int, w: int)
    requires Appends(chain, out, near, result) && HasStop(chain, |chain| - reach, reach)
    requires 0 <= i && 0 < w && |chain| < i + w <= |chain + result|
    requires (!near && i + w == |chain + result|) || i <= |chain| - reach
    ensures HasStop(chain + result, i, w)
  {
    if i <= |chain| - reach {
      StopStays(chain, result, |chain| - reach, reach, i, w);
    } else {
      assert (chain + result)[|chain| + |out|] == result[|out|];
      assert Stop(chain + result, |chain| + |out|);
    }
  }

  /** A window of old and new updates with no stop in either. */
  lemma WindowHasNone(chain: seq<AUM>, out: seq<AUM>, result: seq<AUM>, from: int)
    requires chain != [] && NoCheckpoints(out) && |out| <= |result| && result[..|out|] == out
    requires from >= 0 && !HasStop(chain, from, |chain| - from)
    ensures !HasStop(chain + result, from, |chain| + |out| - from)
  {
    var all := chain + result;
    forall i | 0 <= i < |all| && from <= i < |chain| + |out|
      ensures !Stop(all, i)
    {
      if i < |chain| {
        assert Stop(all, i) == Stop(chain, i);
      } else {
        assert all[i] == out[i - |chain|];
      }
    }
  }

  /**
    The interval the source names, at least one checkpoint in every 50 updates,
    survives a round exactly when the updates since the last stop and those of
    the round together stay below 50.
   */
  lemma SpacingKeptIff(w: World, r: Round, hash: Hasher)
    requires Good(w, hash) && Holds(r.store, w.chain, hash) && Outcome(w, r, hash).result.Ok?
    requires Spaced(w.chain, CHECKPOINT_EVERY)
    ensures Spaced(Step(w, r, hash).chain, CHECKPOINT_EVERY) <==>
            Anchored(r.store, w.state.last.value, CHECKPOINT_EVERY - |Built(w, r, hash).out|)
  {
    var out, result := Built(w, r, hash).out, Outcome(w, r, hash).result.value;
    var reach := CHECKPOINT_EVERY - |out|;
    RoundAppends(w, r, hash);
    AnchoredMeans(r.store, w.chain, hash, reach);
    if HasStop(w.chain, |w.chain| - reach, reach) {
      KeepsSpaced(w.chain, out, result);
    } else {
      LosesSpaced(w.chain, out, result);
    }
  }

  lemma KeepsSpaced(chain: seq<AUM>, out: seq<AUM>, result: seq<AUM>)
    requires Spaced(chain, CHECKPOINT_EVERY) && Appends(chain, out, true, result)
    requires HasStop(chain, |chain| - (CHECKPOINT_EVERY - |out|), CHECKPOINT_EVERY - |out|)
    ensures Spaced(chain + result, CHECKPOINT_EVERY)
  {
    forall i | 0 <= i && i + CHECKPOINT_EVERY <= |chain + result|
      ensures HasStop(chain + result, i, CHECKPOINT_EVERY)
    {
      if i + CHECKPOINT_EVERY <= |chain| {
        StopStays(chain, result, i, CHECKPOINT_EVERY, i, CHECKPOINT_EVERY);
      } else {
        WindowHasStop(chain, out, true, result, CHECKPOINT_EVERY - |out|, i, CHECKPOINT_EVERY);
      }
    }
  }

  lemma LosesSpaced(chain: seq<AUM>, out: seq<AUM>, result: seq<AUM>)
    requires chain != [] && Spaced(chain, CHECKPOINT_EVERY) && Appends(chain, out, false, result)
    requires !HasStop(chain, |chain| - (CHECKPOINT_EVERY - |out|), CHECKPOINT_EVERY - |out|)
    ensures !Spaced(chain + result, CHECKPOINT_EVERY)
  {
    var from := |chain| - (CHECKPOINT_EVERY - |out|);
    GenesisStops(chain, CHECKPOINT_EVERY - |out|);
    WindowHasNone(chain, out, result, from);
    assert from + CHECKPOINT_EVERY <= |chain + result|;
  }

  // ----- every history

  /** The stores hold the chain, and no builder appends more than k updates. */
  ghost predicate Possible(w: World, rounds: seq<Round>, k: nat, hash: Hasher)
    decreases |rounds|
  {
    rounds == [] ||
    (&& w.state.last.Some?
     && Holds(rounds[0].store, w.chain, hash)
     && |Built(w, rounds[0], hash).out| <= k
     && Possible(Step(w, rounds[0], hash), rounds[1..], k, hash))
  }

  function Run(w: World, rounds: seq<Round>, hash: Hasher): World
    decreases |rounds|
  {
    if rounds == [] || w.state.last.None? then w else Run(Step(w, rounds[0], hash), rounds[1..], hash)
  }

  lemma ChainAppend(chain: seq<AUM>, out: seq<AUM>, tip: Hash, hash: Hasher)
    requires IsChain(chain, hash) && Linked(HeadOf(chain, hash), out, tip, hash)
    ensures IsChain(chain + out, hash) && HeadOf(chain + out, hash) == tip
  {
    var all := chain + out;
    forall i | 0 < i < |all|
      ensures all[i].prev == Some(hash(all[i - 1]))
    {
      if i >= |chain| {
        var j := i - |chain|;
        assert out[j].prev == Some(Tip(HeadOf(chain, hash), out[..j], hash));
      }
    }
  }

  lemma StepKeepsGood(w: World, r: Round, hash: Hasher)
    requires Good(w, hash)
    ensures Good(Step(w, r, hash), hash)
  {
    var f := Outcome(w, r, hash);
    BuildKeepsInv(NewUpdater(w.state), w.state, r.calls, hash);
    FinalizeDelivers(Built(w, r, hash), w.state, w.state, r.store, r.sign, hash);
    if f.result.Ok? {
      ChainAppend(w.chain, f.result.value, f.builder.parent, hash);
    }
  }

  lemma StepKeepsSpacing(w: World, r: Round, k: nat, hash: Hasher)
    requires Good(w, hash) && Holds(r.store, w.chain, hash) && |Built(w, r, hash).out| <= k
    requires Spaced(w.chain, CHECKPOINT_EVERY + k) && Recent(w.chain)
    ensures Spaced(Step(w, r, hash).chain, CHECKPOINT_EVERY + k) && Recent(Step(w, r, hash).chain)
  {
    if Outcome(w, r, hash).result.Ok? {
      var out, result := Built(w, r, hash).out, Outcome(w, r, hash).result.value;
      var near := HasStop(w.chain, |w.chain| - (CHECKPOINT_EVERY - |out|), CHECKPOINT_EVERY - |out|);
      RoundAppends(w, r, hash);
      StaysSpaced(w.chain, out, near, result, k);
      StaysRecent(w.chain, out, near, result);
    }
  }

  lemma StaysSpaced(chain: seq<AUM>, out: seq<AUM>, near: bool, result: seq<AUM>, k: nat)
    requires Appends(chain, out, near, result) && |out| <= k
    requires Spaced(chain, CHECKPOINT_EVERY + k) && Recent(chain)
    ensures Spaced(chain + result, CHECKPOINT_EVERY + k)
  {
    var w := CHECKPOINT_EVERY + k;
    forall i | 0 <= i && i + w <= |chain + result|
      ensures HasStop(chain + result, i, w)
    {
      if i + w <= |chain| {
        StopStays(chain, result, i, w, i, w);
      } else {
        WindowHasStop(chain, out, near, result, CHECKPOINT_EVERY, i, w);
      }
    }
  }

  lemma StaysRecent(chain: seq<AUM>, out: seq<AUM>, near: bool, result: seq<AUM>)
    requires Appends(chain, out, near, result)
    requires near ==> HasStop(chain, |chain| - (CHECKPOINT_EVERY - |out|), CHECKPOINT_EVERY - |out|)
    ensures Recent(chain + result)
  {
    if near {
      StopStays(chain, result, |chain| - (CHECKPOINT_EVERY - |out|), CHECKPOINT_EVERY - |out|,
                |chain + result| - CHECKPOINT_EVERY, CHECKPOINT_EVERY);
    } else {
      assert (chain + result)[|chain| + |out|] == result[|out|];
      assert Stop(chain + result, |chain| + |out|);
    }
  }

  lemma {:induction false} RunKeepsSpacing(w: World, rounds: seq<Round>, k: nat, hash: Hasher)
    requires Good(w, hash) && Possible(w, rounds, k, hash)
    requires Spaced(w.chain, CHECKPOINT_EVERY + k) && Recent(w.chain)
    ensures Spaced(Run(w, rounds, hash).chain, CHECKPOINT_EVERY + k) && Recent(Run(w, rounds, hash).chain)
    decreases |rounds|
  {
    if rounds != [] {
      StepKeepsGood(w, rounds[0], hash);
      StepKeepsSpacing(w, rounds[0], k, hash);
      RunKeepsSpacing(Step(w, rounds[0], hash), rounds[1..], k, hash);
    }
  }

  /** With builders of at most k updates, never more than 49 + k updates in a row lack a checkpoint. */
  lemma GapsBounded(genesis: AUM, state: State, rounds: seq<Round>, k: nat, hash: Hasher)
    requires Good(World([genesis], state), hash) && Possible(World([genesis], state), rounds, k, hash)
    ensures Spaced(Run(World([genesis], state), rounds, hash).chain, CHECKPOINT_EVERY + k)
  {
    assert Stop([genesis], 0);
    RunKeepsSpacing(World([genesis], state), rounds, k, hash);
  }

  // ----- the bound is reached

  ghost predicate Injective(hash: Hasher) {
    forall a, b :: hash(a) == hash(b) ==> a == b
  }

  /** A store with just the chain in it. */
  ghost function StoreOf(chain: seq<AUM>, hash: Hasher): Chonk {
    h => if exists i :: 0 <= i < |chain| && hash(chain[i]) == h
         then var i :| 0 <= i < |chain| && hash(chain[i]) == h; Found(chain[i])
         else NotExist
  }

  lemma StoreHolds(chain: seq<AUM>, hash: Hasher)
    requires Injective(hash)
    ensures Holds(StoreOf(chain, hash), chain, hash)
  {
  }

  /** The same call n times. */
  function Times(call: Call, n: nat): (calls: seq<Call>)
    ensures |calls| == n
  {
    if n == 0 then [] else [call] + Times(call, n - 1)
  }

  /** What every repetition of a call carries on holds after all of them. */
  lemma {:induction false} TimesKeep(b: Builder, call: Call, n: nat, p: (Builder, nat) -> bool, i: nat, hash: Hasher)
    requires p(b, i) && forall c, j: nat :: p(c, j) ==> p(After(c, DoCall(c, call, hash)), j + 1)
    ensures p(Build(b, Times(call, n), hash), i + n)
    decreases n
  {
    if n > 0 {
      TimesKeep(After(b, DoCall(b, call, hash)), call, n - 1, p, i + 1, hash);
      assert Times(call, n)[1..] == Times(call, n - 1);
    }
  }

  /** A builder whose votes for id go through. */
  ghost predicate Votable(b: Builder, base: State, id: KeyID, hash: Hasher) {
    Inv(b, base, hash) && CanVote(base, id) && Find(b.state.keys, id).Ok?
  }

  ghost predicate CanVote(s: State, id: KeyID) {
    Sound(s) && id != [] && Find(s.keys, id).Ok?
  }

  lemma VoteApplies(s: State, id: KeyID, parent: Hash, hash: Hasher)
    requires CanVote(s, id) && s.last == Some(parent)
    ensures var u := BLANK.(kind := UpdateKey, keyID := Some(id), votes := Some(1), prev := Some(parent));
            Valid(u) && Apply(s, u, hash).Ok? && Find(Apply(s, u, hash).value.keys, id).Ok?
  {
    var u := BLANK.(kind := UpdateKey, keyID := Some(id), votes := Some(1), prev := Some(parent));
    assert KeyOk(s.keys[Find(s.keys, id).value].(votes := 1));
    FindKept(s.keys, Apply(s, u, hash).value.keys, id);
  }

  lemma VoteGoesThrough(b: Builder, base: State, id: KeyID, hash: Hasher)
    requires Votable(b, base, id, hash)
    ensures var b' := After(b, DoCall(b, CallSetKeyVote(id, 1, NoSigner), hash));
            Votable(b', base, id, hash) && |b'.out| == |b.out| + 1
  {
    VoteApplies(b.state, id, b.parent, hash);
    CallKeepsInv(b, base, CallSetKeyVote(id, 1, NoSigner), hash);
  }

  lemma {:induction false} FindKept(keys: seq<Key>, keys': seq<Key>, id: KeyID)
    requires |keys| == |keys'| && forall i :: 0 <= i < |keys| ==> ID(keys[i]) == ID(keys'[i])
    ensures Find(keys, id) == Find(keys', id)
  {
    if keys != [] {
      FindKept(keys[1..], keys'[1..], id);
    }
  }

  lemma VotesGoThrough(b: Builder, base: State, id: KeyID, n: nat, hash: Hasher)
    requires Votable(b, base, id, hash) && b.out == []
    ensures var b' := Build(b, Times(CallSetKeyVote(id, 1, NoSigner), n), hash);
            Votable(b', base, id, hash) && |b'.out| == n
  {
    var p := (c: Builder, j: nat) => Votable(c, base, id, hash) && |c.out| == j;
    forall c, j: nat | p(c, j)
      ensures p(After(c, DoCall(c, CallSetKeyVote(id, 1, NoSigner), hash)), j + 1)
    {
      VoteGoesThrough(c, base, id, hash);
    }
    TimesKeep(b, CallSetKeyVote(id, 1, NoSigner), n, p, 0, hash);
  }

  ghost function VoteRound(w: World, id: KeyID, n: nat, hash: Hasher): Round {
    Round(Times(CallSetKeyVote(id, 1, NoSigner), n), NoSigner, StoreOf(w.chain, hash))
  }

  /** A round of votes succeeds, with or without a checkpoint at its end. */
  lemma VoteRoundSucceeds(w: World, id: KeyID, n: nat, hash: Hasher)
    requires Good(w, hash) && CanVote(w.state, id) && Injective(hash)
    ensures var r := VoteRound(w, id, n, hash);
            && Holds(r.store, w.chain, hash)
            && |Built(w, r, hash).out| == n && CanVote(Built(w, r, hash).state, id)
            && Outcome(w, r, hash).result.Ok?
  {
    var r := VoteRound(w, id, n, hash);
    var b := Built(w, r, hash);
    StoreHolds(w.chain, hash);
    VotesGoThrough(NewUpdater(w.state), w.state, id, n, hash);
    FinalizeSucceeds(w, b, id, r.store, hash);
  }

  /** With the chain in the store and a key left, nothing can fail. */
  lemma FinalizeSucceeds(w: World, b: Builder, id: KeyID, store: Chonk, hash: Hasher)
    requires Good(w, hash) && Holds(store, w.chain, hash) && Votable(b, w.state, id, hash)
    ensures Finalize(b, w.state, store, NoSigner, hash).result.Ok?
  {
    ScanReadsChain(store, w.chain, hash, |w.chain| - 1, ToScan(|b.out|));
    GenerateSucceedsIff(b, w.state, NoSigner, hash);
    GenerateKeepsInv(b, w.state, w.state, NoSigner, hash);
    HeadUnmoved(b, w.state, hash);
    HeadUnmoved(GenerateCheckpoint(b, w.state, NoSigner, hash).value, w.state, hash);
  }

  lemma HeadUnmoved(b: Builder, base: State, hash: Hasher)
    requires Inv(b, base, hash)
    ensures CheckHead(b, base).result == Ok(b.out)
  {
    if b.out != [] {
      assert b.out[0].prev == Some(Tip(base.last.value, b.out[..0], hash));
    }
  }

  /** The genesis and nothing but plain updates since. */
  ghost predicate Plain(chain: seq<AUM>) {
    chain != [] && NoCheckpoints(chain[1..])
  }

  lemma PlainHasOneStop(chain: seq<AUM>, from: int)
    requires Plain(chain) && from > 0
    ensures !HasStop(chain, from, |chain| - from)
  {
    forall i | 0 <= i < |chain| && from <= i
      ensures !Stop(chain, i)
    {
      assert chain[i] == chain[1..][i - 1];
    }
  }

  /** One more vote on a plain chain of fewer than 50 updates. */
  lemma OneVote(w: World, id: KeyID, hash: Hasher)
    requires Good(w, hash) && CanVote(w.state, id) && Injective(hash) && Plain(w.chain) && |w.chain| < CHECKPOINT_EVERY
    ensures var w' := Step(w, VoteRound(w, id, 1, hash), hash);
            Good(w', hash) && CanVote(w'.state, id) && Plain(w'.chain) && |w'.chain| == |w.chain| + 1
  {
    var r := VoteRound(w, id, 1, hash);
    VoteRoundSucceeds(w, id, 1, hash);
    RoundAppends(w, r, hash);
    StepKeepsGood(w, r, hash);
    GenesisStops(w.chain, CHECKPOINT_EVERY - 1);
    PlainAppend(w.chain, Built(w, r, hash).out);
  }

  lemma PlainAppend(chain: seq<AUM>, out: seq<AUM>)
    requires Plain(chain) && NoCheckpoints(out)
    ensures Plain(chain + out)
  {
    assert (chain + out)[1..] == chain[1..] + out;
  }

  /** The rounds: one vote each up to 50 updates, then k votes at once. */
  lemma {:induction false} BoundReachedFrom(w: World, id: KeyID, k: nat, hash: Hasher) returns (rounds: seq<Round>)
    requires Good(w, hash) && CanVote(w.state, id) && Injective(hash) && k >= 1
    requires Plain(w.chain) && |w.chain| <= CHECKPOINT_EVERY
    ensures Possible(w, rounds, k, hash) && !Spaced(Run(w, rounds, hash).chain, CHECKPOINT_EVERY - 1 + k)
    decreases CHECKPOINT_EVERY - |w.chain|
  {
    if |w.chain| < CHECKPOINT_EVERY {
      var r := VoteRound(w, id, 1, hash);
      VoteRoundSucceeds(w, id, 1, hash);
      OneVote(w, id, hash);
      var rest := BoundReachedFrom(Step(w, r, hash), id, k, hash);
      rounds := [r] + rest;
      assert rounds[1..] == rest;
    } else {
      var r := VoteRound(w, id, k, hash);
      VoteRoundSucceeds(w, id, k, hash);
      rounds := [r];
      LastRoundBreaks(w, r, k, hash);
      assert Run(w, rounds, hash) == Step(w, r, hash);
    }
  }

  lemma LastRoundBreaks(w: World, r: Round, k: nat, hash: Hasher)
    requires Good(w, hash) && Holds(r.store, w.chain, hash) && Outcome(w, r, hash).result.Ok?
    requires Plain(w.chain) && |w.chain| == CHECKPOINT_EVERY && |Built(w, r, hash).out| == k >= 1
    ensures !Spaced(Step(w, r, hash).chain, CHECKPOINT_EVERY - 1 + k)
  {
    var out, result := Built(w, r, hash).out, Outcome(w, r, hash).result.value;
    RoundAppends(w, r, hash);
    PlainHasOneStop(w.chain, 1);
    WindowHasNone(w.chain, out, result, 1);
    assert 1 + (CHECKPOINT_EVERY - 1 + k) == |w.chain| + |out|;
  }

  /** For every k some history of builders of at most k updates has 49 + k updates in a row without a checkpoint. */
  lemma BoundReached(genesis: AUM, state: State, id: KeyID, k: nat, hash: Hasher) returns (rounds: seq<Round>)
    requires Good(World([genesis], state), hash) && CanVote(state, id) && Injective(hash) && k >= 1
    ensures Possible(World([genesis], state), rounds, k, hash)
    ensures !Spaced(Run(World([genesis], state), rounds, hash).chain, CHECKPOINT_EVERY - 1 + k)
  {
    rounds := BoundReachedFrom(World([genesis], state), id, k, hash);
  }
}
