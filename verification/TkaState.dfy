/**
  Tailnet key authority state and the update messages (AUMs) that change it.
  Hashing is a parameter; nothing here depends on which hash it is.
 */
module TkaState {
  import opened ByteCodec
  import opened Seqs

  type Hash = seq<byte>
  type KeyID = seq<byte>
  type Meta = seq<(string, string)>

  const KEY_25519 := 1
  const MAX_VOTES := 4096
  const MAX_META_BYTES := 512
  const MAX_KEYS := 512
  const MAX_DISABLEMENT := 32
  const DISABLEMENT_LENGTH := 32

  datatype Key = Key(kind: nat, votes: nat, pub: seq<byte>, meta: Meta)

  datatype Kind = AddKey | RemoveKey | NoOp | UpdateKey | Checkpoint | Unknown(code: nat)

  datatype Signature = Signature(keyID: KeyID, sig: seq<byte>)

  datatype State = State(
    last: Option<Hash>, disablement: seq<seq<byte>>, keys: seq<Key>, stateID1: uint64, stateID2: uint64)

  datatype AUM = AUM(
    kind: Kind, prev: Option<Hash>, key: Option<Key>, keyID: Option<KeyID>, state: Option<State>,
    votes: Option<nat>, meta: Option<Meta>, signatures: seq<Signature>)

  type Hasher = AUM -> Hash

  datatype Error =
    | NoSuchKey | UnknownKeyKind | InvalidKey | ParentMismatch | MissingState | WrongStateID | MissingKey
    | KeyExists | TooManyKeys | SigningFailed | InvalidUpdate | StoreFailed | HeadMoved

  function ID(k: Key): Option<KeyID> {
    if k.kind == KEY_25519 then Some(k.pub) else None
  }

  function MetaBytes(m: Meta): nat {
    if m == [] then 0 else |m[0].0| + |m[0].1| + MetaBytes(m[1..])
  }

  /** Key.StaticValidate. */
  predicate KeyOk(k: Key) {
    1 <= k.votes <= MAX_VOTES && MetaBytes(k.meta) <= MAX_META_BYTES && k.kind == KEY_25519
  }

  /** Where GetKey finds the key: the first match, unless a key of unknown kind comes earlier. */
  function Find(keys: seq<Key>, id: KeyID): (r: Result<nat, Error>)
    ensures r.Ok? ==> r.value < |keys| && ID(keys[r.value]) == Some(id)
  {
    if keys == [] then Err(NoSuchKey)
    else match ID(keys[0])
      case None => Err(UnknownKeyKind)
      case Some(kid) =>
        if kid == id then Ok(0)
        else match Find(keys[1..], id)
          case Ok(i) => Ok(i + 1)
          case Err(e) => Err(e)
  }

  /** Puts k in place of every key with the given ID. */
  function Replace(keys: seq<Key>, id: KeyID, k: Key): (r: seq<Key>)
    ensures |r| == |keys|
    ensures forall i :: 0 <= i < |r| ==> r[i] == if ID(keys[i]) == Some(id) then k else keys[i]
  {
    seq(|keys|, i requires 0 <= i < |keys| => if ID(keys[i]) == Some(id) then k else keys[i])
  }

  predicate AllKindsKnown(keys: seq<Key>) {
    forall i :: 0 <= i < |keys| ==> ID(keys[i]).Some?
  }

  function ApplyUpdateKey(s: State, u: AUM, next: State): Result<State, Error> {
    var id := if u.keyID.Some? then u.keyID.value else [];
    match Find(s.keys, id)
    case Err(e) => Err(e)
    case Ok(i) =>
      var k := s.keys[i];
      var k1 := if u.votes.Some? then k.(votes := u.votes.value) else k;
      var k2 := if u.meta.Some? then k1.(meta := u.meta.value) else k1;
      if !KeyOk(k2) then Err(InvalidKey)
      else if !AllKindsKnown(s.keys) then Err(UnknownKeyKind)
      else Ok(next.(keys := Replace(s.keys, id, k2)))
  }

  /** applyVerifiedAUM: the state after an update, or why it does not apply. */
  function Apply(s: State, u: AUM, hash: Hasher): Result<State, Error> {
    if s.last.Some? && u.prev != s.last then Err(ParentMismatch)
    else
      var next := s.(last := Some(hash(u)));
      match u.kind
      case NoOp => Ok(next)
      case Checkpoint =>
        if u.state.None? then Err(MissingState)
        else if u.state.value.stateID1 != s.stateID1 || u.state.value.stateID2 != s.stateID2 then Err(WrongStateID)
        else Ok(u.state.value.(last := Some(hash(u))))
      case AddKey =>
        if u.key.None? then Err(MissingKey)
        else if ID(u.key.value).None? then Err(UnknownKeyKind)
        else if Find(s.keys, ID(u.key.value).value).Ok? then Err(KeyExists)
        else Ok(next.(keys := s.keys + [u.key.value]))
      case UpdateKey => ApplyUpdateKey(s, u, next)
      case RemoveKey =>
        (match Find(s.keys, if u.keyID.Some? then u.keyID.value else [])
         case Err(e) => Err(e)
         case Ok(i) => Ok(next.(keys := s.keys[..i] + s.keys[i + 1..])))
      case Unknown(_) => Ok(next)
  }

  predicate Distinct<T(==)>(s: seq<T>) {
    forall i, j :: 0 <= i < j < |s| ==> s[i] != s[j]
  }

  predicate DistinctIDs(keys: seq<Key>) {
    forall i, j :: 0 <= i < j < |keys| ==> ID(keys[i]) != ID(keys[j])
  }

  /** What a checkpoint demands of its state besides a cleared parent and at least one key. */
  predicate Sound(s: State) {
    && 1 <= |s.disablement| <= MAX_DISABLEMENT
    && (forall i :: 0 <= i < |s.disablement| ==> |s.disablement[i]| == DISABLEMENT_LENGTH)
    && Distinct(s.disablement)
    && |s.keys| <= MAX_KEYS
    && (forall i :: 0 <= i < |s.keys| ==> KeyOk(s.keys[i]))
    && DistinctIDs(s.keys)
  }

  /** staticValidateCheckpoint. */
  predicate CheckpointOk(s: State) {
    s.last.None? && s.keys != [] && Sound(s)
  }

  /** AUM.StaticValidate. */
  predicate Valid(u: AUM) {
    && (u.key.Some? ==> KeyOk(u.key.value))
    && (forall i :: 0 <= i < |u.signatures| ==> |u.signatures[i].keyID| == 32 && |u.signatures[i].sig| == 64)
    && (u.state.Some? ==> CheckpointOk(u.state.value))
    && match u.kind
       case AddKey => u.key.Some? && u.keyID.None? && u.state.None? && u.votes.None? && u.meta.None?
       case RemoveKey =>
         u.keyID.Some? && u.keyID.value != [] && u.key.None? && u.state.None? && u.votes.None? && u.meta.None?
       case UpdateKey =>
         u.keyID.Some? && u.keyID.value != [] && (u.votes.Some? || u.meta.Some?) && u.key.None? && u.state.None?
       case Checkpoint => u.state.Some? && u.keyID.None? && u.key.None? && u.votes.None? && u.meta.None?
       case _ => true
  }

  /** Applying a chain of updates, oldest first. */
  function Replay(s: State, us: seq<AUM>, hash: Hasher): Result<State, Error>
    decreases |us|
  {
    if us == [] then Ok(s)
    else match Replay(s, us[..|us| - 1], hash)
      case Err(e) => Err(e)
      case Ok(s1) => Apply(s1, us[|us| - 1], hash)
  }

  lemma ReplaySnoc(s: State, us: seq<AUM>, u: AUM, hash: Hasher)
    ensures Replay(s, us + [u], hash) ==
            if Replay(s, us, hash).Ok? then Apply(Replay(s, us, hash).value, u, hash) else Replay(s, us, hash)
  {
    assert (us + [u])[..|us|] == us;
  }

  lemma {:induction false} FindMisses(keys: seq<Key>, id: KeyID, i: nat)
    requires Find(keys, id) == Err(NoSuchKey) && i < |keys|
    ensures ID(keys[i]) != Some(id)
  {
    if i > 0 {
      FindMisses(keys[1..], id, i - 1);
    }
  }

  lemma {:induction false} FindFails(keys: seq<Key>, id: KeyID)
    requires forall i :: 0 <= i < |keys| ==> KeyOk(keys[i])
    ensures Find(keys, id).Err? ==> Find(keys, id).error == NoSuchKey
  {
    if keys != [] {
      FindFails(keys[1..], id);
    }
  }

  lemma AddKeyStaysSound(s: State, u: AUM, hash: Hasher)
    requires Sound(s) && Valid(u) && u.kind == AddKey && |s.keys| < MAX_KEYS && Apply(s, u, hash).Ok?
    ensures Sound(Apply(s, u, hash).value)
  {
    var id := ID(u.key.value).value;
    FindFails(s.keys, id);
    forall i | 0 <= i < |s.keys|
      ensures ID(s.keys[i]) != Some(id)
    {
      FindMisses(s.keys, id, i);
    }
  }

  lemma UpdateKeyStaysSound(s: State, u: AUM, hash: Hasher)
    requires Sound(s) && Valid(u) && u.kind == UpdateKey && Apply(s, u, hash).Ok?
    ensures Sound(Apply(s, u, hash).value)
  {
    var s', id := Apply(s, u, hash).value, u.keyID.value;
    forall i | 0 <= i < |s'.keys|
      ensures ID(s'.keys[i]) == ID(s.keys[i]) && KeyOk(s'.keys[i])
    {
    }
  }

  /**
    Soundness of the trusted state is kept by every valid update that applies,
    as long as key additions respect the limit, which applyVerifiedAUM leaves to
    its callers.
   */
  lemma ApplyStaysSound(s: State, u: AUM, hash: Hasher)
    requires Sound(s) && Valid(u) && (u.kind == AddKey ==> |s.keys| < MAX_KEYS) && Apply(s, u, hash).Ok?
    ensures Sound(Apply(s, u, hash).value)
    ensures Apply(s, u, hash).value.last == Some(hash(u))
    ensures Apply(s, u, hash).value.stateID1 == s.stateID1 && Apply(s, u, hash).value.stateID2 == s.stateID2
  {
    match u.kind
    case AddKey => AddKeyStaysSound(s, u, hash);
    case UpdateKey => UpdateKeyStaysSound(s, u, hash);
    case _ =>
  }
}
