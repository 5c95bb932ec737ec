/**
  The update builder: calls append hash-linked, signed, validated updates to a
  working copy of an authority's state, and Finalize adds a checkpoint when the
  chain has gone too long without one.
 */
module TkaBuilder {
  import opened ByteCodec
  import opened TkaState

  const CHECKPOINT_EVERY := 50

  /** What the signer answers, if there is one. */
  datatype Signing = NoSigner | Refused | Signed(sigs: seq<Signature>)

  datatype Builder = Builder(state: State, parent: Hash, out: seq<AUM>)

  datatype Call =
    | CallAddKey(key: Key, sign: Signing)
    | CallRemoveKey(keyID: KeyID, sign: Signing)
    | CallSetKeyVote(keyID: KeyID, votes: nat, sign: Signing)
    | CallSetKeyMeta(keyID: KeyID, meta: Meta, sign: Signing)

  const BLANK := AUM(NoOp, None, None, None, None, None, None, [])

  /** The update with its parent and its signatures filled in. */
  function Completed(b: Builder, update: AUM, sign: Signing): AUM {
    var linked := update.(prev := Some(b.parent));
    if sign.Signed? then linked.(signatures := linked.signatures + sign.sigs) else linked
  }

  /** mkUpdate: link, sign, validate, apply; any failure leaves the builder as it was. */
  function MkUpdate(b: Builder, update: AUM, sign: Signing, hash: Hasher): Result<Builder, Error> {
    if sign.Refused? then Err(SigningFailed)
    else
      var u := Completed(b, update, sign);
      if !Valid(u) then Err(InvalidUpdate)
      else match Apply(b.state, u, hash)
        case Err(e) => Err(e)
        case Ok(s) => Ok(Builder(s, hash(u), b.out + [u]))
  }

  function DoCall(b: Builder, call: Call, hash: Hasher): Result<Builder, Error> {
    match call
    case CallAddKey(key, sign) =>
      if ID(key).None? then Err(UnknownKeyKind)
      else if Find(b.state.keys, ID(key).value).Ok? then Err(KeyExists)
      else if |b.state.keys| >= MAX_KEYS then Err(TooManyKeys)
      else MkUpdate(b, BLANK.(kind := AddKey, key := Some(key)), sign, hash)
    case CallRemoveKey(id, sign) =>
      if Find(b.state.keys, id).Err? then Err(Find(b.state.keys, id).error)
      else MkUpdate(b, BLANK.(kind := RemoveKey, keyID := Some(id)), sign, hash)
    case CallSetKeyVote(id, votes, sign) =>
      if Find(b.state.keys, id).Err? then Err(Find(b.state.keys, id).error)
      else MkUpdate(b, BLANK.(kind := UpdateKey, keyID := Some(id), votes := Some(votes)), sign, hash)
    case CallSetKeyMeta(id, meta, sign) =>
      if Find(b.state.keys, id).Err? then Err(Find(b.state.keys, id).error)
      else MkUpdate(b, BLANK.(kind := UpdateKey, keyID := Some(id), meta := Some(meta)), sign, hash)
  }

  /** The builder after a call that may have failed. */
  function After(b: Builder, r: Result<Builder, Error>): Builder {
    if r.Ok? then r.value else b
  }

  /** NewUpdater on an authority in the given state. */
  function NewUpdater(base: State): Builder
    requires base.last.Some?
  {
    Builder(base, base.last.value, [])
  }

  function Build(b: Builder, calls: seq<Call>, hash: Hasher): Builder
    decreases |calls|
  {
    if calls == [] then b else Build(After(b, DoCall(b, calls[0], hash)), calls[1..], hash)
  }

  // ----- what every sequence of calls keeps

  /** The hash an update appended to out has to name: the last one's, or the head it all starts from. */
  ghost function Tip(head: Hash, out: seq<AUM>, hash: Hasher): Hash {
    if out == [] then head else hash(out[|out| - 1])
  }

  /** Each update names the hash of the one before it; the first names head. */
  ghost predicate Linked(head: Hash, out: seq<AUM>, tip: Hash, hash: Hasher) {
    && (forall i :: 0 <= i < |out| ==> out[i].prev == Some(Tip(head, out[..i], hash)))
    && tip == Tip(head, out, hash)
  }

  ghost predicate Inv(b: Builder, base: State, hash: Hasher) {
    && base.last.Some?
    && Linked(base.last.value, b.out, b.parent, hash)
    && Replay(base, b.out, hash) == Ok(b.state)
    && b.state.last == Some(b.parent)
    && AllValid(b.out)
    && Trusted(base, b.state)
  }

  ghost predicate AllValid(out: seq<AUM>) {
    forall i :: 0 <= i < |out| ==> Valid(out[i])
  }

  lemma ApplyMovesHead(s: State, u: AUM, hash: Hasher)
    requires Apply(s, u, hash).Ok?
    ensures Apply(s, u, hash).value.last == Some(hash(u))
  {
  }

  lemma LinkedSnoc(head: Hash, out: seq<AUM>, tip: Hash, u: AUM, hash: Hasher)
    requires Linked(head, out, tip, hash) && u.prev == Some(tip)
    ensures Linked(head, out + [u], hash(u), hash)
  {
    var out' := out + [u];
    forall i | 0 <= i < |out'|
      ensures out'[i].prev == Some(Tip(head, out'[..i], hash))
    {
      assert out'[..i] == out[..i];
      assert out[..|out|] == out;
    }
  }

  lemma MkUpdateAppends(b: Builder, update: AUM, sign: Signing, hash: Hasher)
    requires MkUpdate(b, update, sign, hash).Ok?
    ensures var u, b' := Completed(b, update, sign), MkUpdate(b, update, sign, hash).value;
            && Valid(u) && Apply(b.state, u, hash) == Ok(b'.state)
            && b' == Builder(b'.state, hash(u), b.out + [u])
  {
  }

  /** Soundness and the state IDs, as far as the trusted state had them. */
  ghost predicate Trusted(base: State, s: State) {
    Sound(base) ==> Sound(s) && s.stateID1 == base.stateID1 && s.stateID2 == base.stateID2
  }

  lemma ApplyStaysTrusted(base: State, s: State, u: AUM, s': State, hash: Hasher)
    requires Trusted(base, s) && Valid(u) && (u.kind == AddKey ==> |s.keys| < MAX_KEYS) && Apply(s, u, hash) == Ok(s')
    ensures Trusted(base, s')
  {
    if Sound(base) {
      ApplyStaysSound(s, u, hash);
    }
  }

  lemma ValidSnoc(out: seq<AUM>, u: AUM)
    requires AllValid(out) && Valid(u)
    ensures AllValid(out + [u])
  {
  }

  /** An update linked to the tip, whose replay is known, extends the builder. */
  lemma AppendKeepsInv(b: Builder, base: State, u: AUM, s': State, hash: Hasher)
    requires Inv(b, base, hash) && u.prev == Some(b.parent) && AllValid(b.out + [u])
    requires Replay(base, b.out + [u], hash) == Ok(s') && s'.last == Some(hash(u)) && Trusted(base, s')
    ensures Inv(Builder(s', hash(u), b.out + [u]), base, hash)
  {
    LinkedSnoc(base.last.value, b.out, b.parent, u, hash);
  }

  lemma MkUpdateKeepsInv(b: Builder, base: State, update: AUM, sign: Signing, hash: Hasher)
    requires Inv(b, base, hash) && (update.kind == AddKey ==> |b.state.keys| < MAX_KEYS)
    ensures Inv(After(b, MkUpdate(b, update, sign, hash)), base, hash)
  {
    var r := MkUpdate(b, update, sign, hash);
    if r.Ok? {
      var u, s' := Completed(b, update, sign), r.value.state;
      MkUpdateAppends(b, update, sign, hash);
      ReplaySnoc(base, b.out, u, hash);
      ApplyMovesHead(b.state, u, hash);
      ApplyStaysTrusted(base, b.state, u, s', hash);
      ValidSnoc(b.out, u);
      AppendKeepsInv(b, base, u, s', hash);
    }
  }

  lemma CallKeepsInv(b: Builder, base: State, call: Call, hash: Hasher)
    requires Inv(b, base, hash)
    ensures Inv(After(b, DoCall(b, call, hash)), base, hash)
  {
    match call
    case CallAddKey(key, sign) =>
      if |b.state.keys| < MAX_KEYS {
        MkUpdateKeepsInv(b, base, BLANK.(kind := AddKey, key := Some(key)), sign, hash);
      }
    case CallRemoveKey(id, sign) =>
      MkUpdateKeepsInv(b, base, BLANK.(kind := RemoveKey, keyID := Some(id)), sign, hash);
    case CallSetKeyVote(id, votes, sign) =>
      MkUpdateKeepsInv(b, base, BLANK.(kind := UpdateKey, keyID := Some(id), votes := Some(votes)), sign, hash);
    case CallSetKeyMeta(id, meta, sign) =>
      MkUpdateKeepsInv(b, base, BLANK.(kind := UpdateKey, keyID := Some(id), meta := Some(meta)), sign, hash);
  }

  /** Whatever is called, and whatever fails, the output replays from the authority to the builder's state. */
  lemma {:induction false} BuildKeepsInv(b: Builder, base: State, calls: seq<Call>, hash: Hasher)
    requires Inv(b, base, hash)
    ensures Inv(Build(b, calls, hash), base, hash)
    decreases |calls|
  {
    if calls != [] {
      CallKeepsInv(b, base, calls[0], hash);
      BuildKeepsInv(After(b, DoCall(b, calls[0], hash)), base, calls[1..], hash);
    }
  }

  // ----- the stored chain and Finalize

  datatype Lookup = Found(aum: AUM) | NotExist | Broken

  type Chonk = Hash -> Lookup

  /** Where walking back the stored chain may stop looking for a checkpoint. */
  predicate Anchor(l: Lookup) {
    l.NotExist? || (l.Found? && (l.aum.kind == Checkpoint || l.aum.prev.None?))
  }

  /** What is found n steps behind a stored update, staying put where the walk ends. */
  function Back(store: Chonk, from: Hash, n: nat): Lookup
    decreases n
  {
    var l := store(from);
    if n == 0 || !l.Found? || l.aum.prev.None? then l else Back(store, l.aum.prev.value, n - 1)
  }

  /** Some update among the newest n stored ones is an anchor. */
  ghost predicate Anchored(store: Chonk, head: Hash, n: int) {
    exists j :: 0 <= j < n && Anchor(Back(store, head, j))
  }

  /** The loop of Finalize: None when a store read fails, else whether a checkpoint is due. */
  function Scan(store: Chonk, cursor: Hash, n: nat): Option<bool>
    decreases n
  {
    if n == 0 then Some(true)
    else match store(cursor)
      case NotExist => Some(false)
      case Broken => None
      case Found(aum) =>
        if aum.kind == Checkpoint || aum.prev.None? then Some(false)
        else Scan(store, aum.prev.value, n - 1)
  }

  lemma {:induction false} ScanMeaning(store: Chonk, head: Hash, n: nat)
    ensures Scan(store, head, n) == Some(false) ==> Anchored(store, head, n)
    ensures Scan(store, head, n) == Some(true) ==> !Anchored(store, head, n)
    decreases n
  {
    if n > 0 {
      var l := store(head);
      if Anchor(l) {
        assert Anchor(Back(store, head, 0));
      } else if l.Found? {
        var parent := l.aum.prev.value;
        ScanMeaning(store, parent, n - 1);
        forall j | 0 < j < n
          ensures Back(store, head, j) == Back(store, parent, j - 1)
        {
        }
        assert forall j :: 0 <= j < n - 1 ==> Back(store, parent, j) == Back(store, head, j + 1);
      }
    }
  }

  function ToScan(n: nat): nat {
    if n < CHECKPOINT_EVERY then CHECKPOINT_EVERY - n else 0
  }

  /** generateCheckpoint, replaying the output from the authority's present state. */
  function GenerateCheckpoint(b: Builder, authority: State, sign: Signing, hash: Hasher): Result<Builder, Error> {
    match Replay(authority, b.out, hash)
    case Err(e) => Err(e)
    case Ok(s) => MkUpdate(b, BLANK.(kind := Checkpoint, state := Some(s.(last := None))), sign, hash)
  }

  datatype Final = Final(builder: Builder, result: Result<seq<AUM>, Error>)

  function CheckHead(b: Builder, authority: State): Final {
    if b.out != [] && b.out[0].prev != authority.last then Final(b, Err(HeadMoved)) else Final(b, Ok(b.out))
  }

  /** Finalize against an authority that may have moved since the builder was made. */
  function Finalize(b: Builder, authority: State, store: Chonk, sign: Signing, hash: Hasher): Final
    requires authority.last.Some?
  {
    match Scan(store, authority.last.value, ToScan(|b.out|))
    case None => Final(b, Err(StoreFailed))
    case Some(false) => CheckHead(b, authority)
    case Some(true) =>
      match GenerateCheckpoint(b, authority, sign, hash)
      case Err(e) => Final(b, Err(e))
      case Ok(b1) => CheckHead(b1, authority)
  }

  /** One checkpoint more, carrying the state reached so far with its parent cleared. */
  ghost predicate AddsCheckpoint(out: seq<AUM>, out': seq<AUM>, reached: Result<State, Error>) {
    && |out'| == |out| + 1 && out'[..|out|] == out
    && reached.Ok? && out'[|out|].kind == Checkpoint && out'[|out|].state == Some(reached.value.(last := None))
  }

  lemma GenerateKeepsInv(b: Builder, base: State, authority: State, sign: Signing, hash: Hasher)
    requires Inv(b, base, hash) && GenerateCheckpoint(b, authority, sign, hash).Ok?
    ensures Inv(GenerateCheckpoint(b, authority, sign, hash).value, base, hash)
  {
    var s := Replay(authority, b.out, hash).value;
    MkUpdateKeepsInv(b, base, BLANK.(kind := Checkpoint, state := Some(s.(last := None))), sign, hash);
  }

  lemma GenerateAdds(b: Builder, authority: State, sign: Signing, hash: Hasher)
    requires GenerateCheckpoint(b, authority, sign, hash).Ok?
    ensures AddsCheckpoint(b.out, GenerateCheckpoint(b, authority, sign, hash).value.out,
                           Replay(authority, b.out, hash))
  {
    var s := Replay(authority, b.out, hash).value;
    var update := BLANK.(kind := Checkpoint, state := Some(s.(last := None)));
    MkUpdateAppends(b, update, sign, hash);
    assert (b.out + [Completed(b, update, sign)])[..|b.out|] == b.out;
  }

  /** What a successful Finalize hands out, relative to the authority as it is then. */
  ghost predicate Delivers(b: Builder, f: Final, authority: State, hash: Hasher)
    requires authority.last.Some?
  {
    f.result.Ok? && f.result.value != [] ==>
      && f.result.value == f.builder.out
      && Linked(authority.last.value, f.builder.out, f.builder.parent, hash)
      && Replay(authority, f.builder.out, hash) == Ok(f.builder.state)
      && AllValid(f.builder.out)
      && (f.builder == b || AddsCheckpoint(b.out, f.builder.out, Replay(authority, b.out, hash)))
  }

  lemma CheckHeadDelivers(b: Builder, base: State, authority: State, hash: Hasher)
    requires Inv(b, base, hash) && authority.last.Some?
    requires authority.last == base.last ==> authority == base
    ensures CheckHead(b, authority).result.Ok? && b.out != [] ==> authority == base
  {
    if b.out != [] {
      assert b.out[0].prev == Some(Tip(base.last.value, b.out[..0], hash));
    }
  }

  lemma FinalizeDelivers(b: Builder, base: State, authority: State, store: Chonk, sign: Signing, hash: Hasher)
    requires Inv(b, base, hash) && authority.last.Some?
    requires authority.last == base.last ==> authority == base
    ensures Delivers(b, Finalize(b, authority, store, sign, hash), authority, hash)
    ensures Inv(Finalize(b, authority, store, sign, hash).builder, base, hash)
  {
    var due := Scan(store, authority.last.value, ToScan(|b.out|));
    if due == Some(false) {
      CheckHeadDelivers(b, base, authority, hash);
    } else if due == Some(true) {
      var r := GenerateCheckpoint(b, authority, sign, hash);
      if r.Ok? {
        GenerateKeepsInv(b, base, authority, sign, hash);
        GenerateAdds(b, authority, sign, hash);
        CheckHeadDelivers(r.value, base, authority, hash);
      }
    }
  }

  /**
    Finalize, after any calls: a result is hash-linked from the authority's
    present head, replays from its present state without failing and ends in the
    builder's state.  A checkpoint Finalize added is last and carries the state
    replayed so far.  The head hash determines the authority's state.
   */
  lemma FinalizeSound(base: State, calls: seq<Call>, authority: State, store: Chonk, sign: Signing, hash: Hasher)
    requires base.last.Some? && authority.last.Some?
    requires authority.last == base.last ==> authority == base
    ensures var b := Build(NewUpdater(base), calls, hash);
            Delivers(b, Finalize(b, authority, store, sign, hash), authority, hash)
  {
    BuildKeepsInv(NewUpdater(base), base, calls, hash);
    FinalizeDelivers(Build(NewUpdater(base), calls, hash), base, authority, store, sign, hash);
  }

  /** The newest updates of the output contain a checkpoint. */
  ghost predicate RecentCheckpoint(out: seq<AUM>) {
    exists i :: 0 <= i < |out| && i >= |out| - CHECKPOINT_EVERY && out[i].kind == Checkpoint
  }

  /**
    Among the newest 50 updates of output and stored chain there is a checkpoint,
    the genesis update or the end of the store; and one is generated only when
    the stored part had none of these.
   */
  lemma CheckpointSpacing(b: Builder, authority: State, store: Chonk, sign: Signing, hash: Hasher)
    requires authority.last.Some?
    ensures var f := Finalize(b, authority, store, sign, hash);
            f.result.Ok? ==>
              && (RecentCheckpoint(f.result.value)
                  || Anchored(store, authority.last.value, CHECKPOINT_EVERY - |f.result.value|))
              && (f.builder.out == b.out <==> Anchored(store, authority.last.value, CHECKPOINT_EVERY - |b.out|))
  {
    var f := Finalize(b, authority, store, sign, hash);
    ScanMeaning(store, authority.last.value, ToScan(|b.out|));
    if f.result.Ok? && f.builder.out != b.out {
      var out := f.builder.out;
      assert out[|b.out|].kind == Checkpoint;
      assert RecentCheckpoint(out);
    }
  }

  // ----- when the checkpoint itself can be made

  /** The signer, if any, answers with well-formed signatures. */
  predicate SignsWell(sign: Signing) {
    && !sign.Refused?
    && (sign.Signed? ==>
          forall i :: 0 <= i < |sign.sigs| ==> |sign.sigs[i].keyID| == 32 && |sign.sigs[i].sig| == 64)
  }

  lemma GenerateSucceedsIff(b: Builder, base: State, sign: Signing, hash: Hasher)
    requires Inv(b, base, hash) && Sound(base) && SignsWell(sign)
    ensures GenerateCheckpoint(b, base, sign, hash).Ok? <==> b.state.keys != []
  {
    var plain := BLANK.(kind := Checkpoint, state := Some(b.state.(last := None)), prev := Some(b.parent));
    var u := if sign.Signed? then plain.(signatures := [] + sign.sigs) else plain;
    assert CheckpointOk(u.state.value) <==> b.state.keys != [];
    assert TkaState.Valid(u) <==> b.state.keys != [];
    assert Apply(b.state, u, hash).Ok?;
  }

  /**
    For a sound authority and a working signer a due checkpoint succeeds exactly
    when the calls have left at least one key; removing the last key is accepted
    by the builder and makes Finalize fail here.
   */
  lemma CheckpointSucceedsIffKeysRemain(base: State, calls: seq<Call>, sign: Signing, hash: Hasher)
    requires base.last.Some? && Sound(base) && SignsWell(sign)
    ensures var b := Build(NewUpdater(base), calls, hash);
            GenerateCheckpoint(b, base, sign, hash).Ok? <==> b.state.keys != []
  {
    BuildKeepsInv(NewUpdater(base), base, calls, hash);
    GenerateSucceedsIff(Build(NewUpdater(base), calls, hash), base, sign, hash);
  }

  // ----- the builder as it runs

  class Authority {
    var state: State

    constructor (state: State)
      requires state.last.Some?
      ensures this.state == state
    {
      this.state := state;
    }

    function Head(): Hash
      requires state.last.Some?
      reads this
    {
      state.last.value
    }
  }

  class UpdateBuilder {
    const a: Authority
    const hash: Hasher
    /** The authority's state when the builder was made. */
    ghost const base: State
    var state: State
    var parent: Hash
    var out: seq<AUM>

    /** The output is linked from the authority's head, valid, and replays to the builder's state. */
    ghost predicate Valid()
      reads this
    {
      Inv(View(), base, hash)
    }

    ghost function View(): Builder
      reads this
    {
      Builder(state, parent, out)
    }

    constructor (a: Authority, hash: Hasher)
      requires a.state.last.Some?
      ensures Valid() && this.a == a && this.hash == hash && base == a.state && View() == NewUpdater(a.state)
    {
      this.a, this.hash, base := a, hash, a.state;
      state, parent, out := a.state, a.state.last.value, [];
    }

    method MakeUpdate(update: AUM, sign: Signing) returns (err: Option<Error>)
      modifies this
      ensures var r := MkUpdate(old(View()), update, sign, hash);
              View() == After(old(View()), r) && err == if r.Err? then Some(r.error) else None
    {
      var u := update.(prev := Some(parent));
      match sign {
        case NoSigner =>
        case Refused => return Some(SigningFailed);
        case Signed(sigs) => u := u.(signatures := u.signatures + sigs);
      }
      if !TkaState.Valid(u) {
        return Some(InvalidUpdate);
      }
      var next := Apply(state, u, hash);
      if next.Err? {
        return Some(next.error);
      }
      state, parent, out := next.value, hash(u), out + [u];
      return None;
    }

    method AddKey(key: Key, sign: Signing) returns (err: Option<Error>)
      requires Valid()
      modifies this
      ensures Valid()
      ensures var r := DoCall(old(View()), CallAddKey(key, sign), hash);
              View() == After(old(View()), r) && err == if r.Err? then Some(r.error) else None
    {
      CallKeepsInv(View(), base, CallAddKey(key, sign), hash);
      var id := ID(key);
      if id.None? {
        return Some(UnknownKeyKind);
      }
      if Find(state.keys, id.value).Ok? {
        return Some(KeyExists);
      }
      if |state.keys| >= MAX_KEYS {
        return Some(TooManyKeys);
      }
      err := MakeUpdate(BLANK.(kind := TkaState.AddKey, key := Some(key)), sign);
    }

    method RemoveKey(id: KeyID, sign: Signing) returns (err: Option<Error>)
      requires Valid()
      modifies this
      ensures Valid()
      ensures var r := DoCall(old(View()), CallRemoveKey(id, sign), hash);
              View() == After(old(View()), r) && err == if r.Err? then Some(r.error) else None
    {
      CallKeepsInv(View(), base, CallRemoveKey(id, sign), hash);
      var found := Find(state.keys, id);
      if found.Err? {
        return Some(found.error);
      }
      err := MakeUpdate(BLANK.(kind := TkaState.RemoveKey, keyID := Some(id)), sign);
    }

    method SetKeyVote(id: KeyID, votes: nat, sign: Signing) returns (err: Option<Error>)
      requires Valid()
      modifies this
      ensures Valid()
      ensures var r := DoCall(old(View()), CallSetKeyVote(id, votes, sign), hash);
              View() == After(old(View()), r) && err == if r.Err? then Some(r.error) else None
    {
      CallKeepsInv(View(), base, CallSetKeyVote(id, votes, sign), hash);
      var found := Find(state.keys, id);
      if found.Err? {
        return Some(found.error);
      }
      err := MakeUpdate(BLANK.(kind := UpdateKey, keyID := Some(id), votes := Some(votes)), sign);
    }

    method SetKeyMeta(id: KeyID, meta: Meta, sign: Signing) returns (err: Option<Error>)
      requires Valid()
      modifies this
      ensures Valid()
      ensures var r := DoCall(old(View()), CallSetKeyMeta(id, meta, sign), hash);
              View() == After(old(View()), r) && err == if r.Err? then Some(r.error) else None
    {
      CallKeepsInv(View(), base, CallSetKeyMeta(id, meta, sign), hash);
      var found := Find(state.keys, id);
      if found.Err? {
        return Some(found.error);
      }
      err := MakeUpdate(BLANK.(kind := UpdateKey, keyID := Some(id), meta := Some(meta)), sign);
    }

    method Checkpointing(sign: Signing) returns (err: Option<Error>)
      modifies this
      ensures var r := GenerateCheckpoint(old(View()), a.state, sign, hash);
              View() == After(old(View()), r) && err == if r.Err? then Some(r.error) else None
    {
      var s := a.state;
      for i := 0 to |out|
        invariant View() == old(View()) && out == old(out)
        invariant Replay(a.state, out[..i], hash) == Ok(s)
      {
        var next := Apply(s, out[i], hash);
        ReplaySnoc(a.state, out[..i], out[i], hash);
        assert out[..i] + [out[i]] == out[..i + 1];
        if next.Err? {
          ReplayStaysFailed(a.state, out, i + 1, hash);
          return Some(next.error);
        }
        s := next.value;
      }
      assert out[..|out|] == out;
      err := MakeUpdate(BLANK.(kind := Checkpoint, state := Some(s.(last := None))), sign);
    }

    /** Walks back the stored chain with a cursor: is a checkpoint due?  None when a read fails. */
    method CheckpointDue(store: Chonk) returns (due: Option<bool>)
      requires a.state.last.Some?
      ensures due == Scan(store, a.state.last.value, ToScan(|out|))
    {
      var cursor := a.Head();
      var i := |out|;
      while i < CHECKPOINT_EVERY
        invariant i >= |out|
        invariant Scan(store, a.state.last.value, ToScan(|out|)) == Scan(store, cursor, ToScan(i))
      {
        match store(cursor) {
          case NotExist => return Some(false);
          case Broken => return None;
          case Found(aum) =>
            if aum.kind == Checkpoint || aum.prev.None? {
              return Some(false);
            }
            cursor := aum.prev.value;
        }
        i := i + 1;
      }
      return Some(true);
    }

    /** Finalize: checkpoint if one is due, then make sure the authority has not moved. */
    method Finish(store: Chonk, sign: Signing) returns (res: Result<seq<AUM>, Error>)
      requires Valid() && a.state.last.Some? && (a.state.last == base.last ==> a.state == base)
      modifies this
      ensures Valid() && Final(View(), res) == Finalize(old(View()), a.state, store, sign, hash)
      ensures Delivers(old(View()), Final(View(), res), a.state, hash)
    {
      FinalizeDelivers(View(), base, a.state, store, sign, hash);
      var due := CheckpointDue(store);
      if due.None? {
        return Err(StoreFailed);
      }
      if due.value {
        var err := Checkpointing(sign);
        if err.Some? {
          return Err(err.value);
        }
      }
      if |out| > 0 && out[0].prev != Some(a.Head()) {
        return Err(HeadMoved);
      }
      return Ok(out);
    }
  }

  lemma {:induction false} ReplayStaysFailed(s: State, us: seq<AUM>, k: nat, hash: Hasher)
    requires k <= |us| && Replay(s, us[..k], hash).Err?
    ensures Replay(s, us, hash) == Replay(s, us[..k], hash)
    decreases |us| - k
  {
    if k == |us| {
      assert us[..k] == us;
    } else {
      ReplaySnoc(s, us[..k], us[k], hash);
      assert us[..k] + [us[k]] == us[..k + 1];
      ReplayStaysFailed(s, us, k + 1, hash);
    }
  }
}
