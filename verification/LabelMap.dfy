/**
  The multi-label metrics map: a map for lookups and, beside it, a slice sorted
  by label string for output; and the fill-once lookup that callers race on.
 */
module LabelMap {
  import opened ByteCodec
  import opened SortedSeqs

  datatype Entry<K, V> = Entry(key: K, labels: string, val: V)

  datatype State<K, V> = State(m: map<K, V>, sorted: seq<Entry<K, V>>)

  datatype Op<K, V> = Set(key: K, val: V) | Fill(key: K, val: V) | Delete(key: K) | Init

  function Labels<K, V>(es: seq<Entry<K, V>>): (ls: seq<string>)
    ensures |ls| == |es| && forall i :: 0 <= i < |es| ==> ls[i] == es[i].labels
  {
    seq(|es|, i requires 0 <= i < |es| => es[i].labels)
  }

  /** The first position whose label is not below ls, as sort.Search reports it. */
  function Pos<K, V>(es: seq<Entry<K, V>>, ls: string): (i: nat)
    ensures i <= |es|
    ensures forall j :: 0 <= j < i ==> TextLess(es[j].labels, ls)
    ensures i < |es| ==> !TextLess(es[i].labels, ls)
  {
    if es == [] || !TextLess(es[0].labels, ls) then 0 else 1 + Pos(es[1..], ls)
  }

  /** addKeyLocked: append, overwrite in place, or shift and insert. */
  function AddKey<K(==), V>(es: seq<Entry<K, V>>, key: K, val: V, ls: string): seq<Entry<K, V>> {
    var i := Pos(es, ls);
    if i >= |es| then es + [Entry(key, ls, val)]
    else if es[i].key == key then es[i := es[i].(val := val)]
    else es[..i] + [Entry(key, ls, val)] + es[i..]
  }

  function Apply<K(==), V>(s: State<K, V>, op: Op<K, V>, lab: K -> string): State<K, V> {
    match op
    case Set(k, v) => State(s.m[k := v], AddKey(s.sorted, k, v, lab(k)))
    case Fill(k, v) => if k in s.m then s else State(s.m[k := v], AddKey(s.sorted, k, v, lab(k)))
    case Delete(k) =>
      var i := Pos(s.sorted, lab(k));
      if i < |s.sorted| && s.sorted[i].key == k then State(s.m - {k}, s.sorted[..i] + s.sorted[i + 1..]) else s
    case Init => State(map[], [])
  }

  ghost predicate Injective<K(!new)>(lab: K -> string) {
    forall a, b :: lab(a) == lab(b) ==> a == b
  }

  ghost predicate HasKey<K, V>(es: seq<Entry<K, V>>, k: K) {
    exists e :: e in es && e.key == k
  }

  ghost predicate EntryOk<K, V>(e: Entry<K, V>, m: map<K, V>, lab: K -> string) {
    e.labels == lab(e.key) && e.key in m && m[e.key] == e.val
  }

  /** The slice is strictly ordered by label and holds exactly the map's pairs. */
  ghost predicate IsIndex<K, V>(s: State<K, V>, lab: K -> string) {
    && Sorted(Labels(s.sorted), TextLess)
    && (forall e :: e in s.sorted ==> EntryOk(e, s.m, lab))
    && (forall k :: k in s.m ==> HasKey(s.sorted, k))
  }

  /** Whatever the labels are, the slice is in order of them. */
  ghost predicate InOrder<K, V>(es: seq<Entry<K, V>>) {
    Ascending(Labels(es), TextLess)
  }

  lemma IndexInOrder<K, V>(s: State<K, V>, lab: K -> string)
    requires IsIndex(s, lab)
    ensures InOrder(s.sorted)
  {
    TextOrder();
    SortedAscends(Labels(s.sorted), TextLess);
  }

  lemma PosIsLowerBound<K, V>(es: seq<Entry<K, V>>, ls: string)
    requires InOrder(es)
    ensures IsLowerBound(Labels(es), ls, TextLess, Pos(es, ls))
  {
    var i, labels := Pos(es, ls), Labels(es);
    forall j | i <= j < |es|
      ensures !TextLess(labels[j], ls)
    {
      if i < j && TextLess(labels[j], ls) {
        TextConnected(labels[i], ls);
        TextConnected(labels[i], labels[j]);
        if TextLess(ls, labels[i]) {
          TextTransitive(labels[j], ls, labels[i]);
        }
      }
    }
  }

  lemma LabelsInsert<K, V>(es: seq<Entry<K, V>>, i: nat, e: Entry<K, V>)
    requires i <= |es|
    ensures Labels(InsertAt(es, i, e)) == InsertAt(Labels(es), i, e.labels)
  {
  }

  lemma AddKeyInOrder<K, V>(es: seq<Entry<K, V>>, key: K, val: V, ls: string)
    requires InOrder(es)
    ensures InOrder(AddKey(es, key, val, ls))
  {
    var i := Pos(es, ls);
    if i < |es| && es[i].key == key {
      assert Labels(AddKey(es, key, val, ls)) == Labels(es);
    } else {
      InsertInOrder(es, i, Entry(key, ls, val));
      assert AddKey(es, key, val, ls) == InsertAt(es, i, Entry(key, ls, val));
    }
  }

  lemma InsertInOrder<K, V>(es: seq<Entry<K, V>>, i: nat, e: Entry<K, V>)
    requires InOrder(es) && i == Pos(es, e.labels)
    ensures InOrder(InsertAt(es, i, e))
  {
    TextOrder();
    PosIsLowerBound(es, e.labels);
    InsertKeepsAscending(Labels(es), e.labels, TextLess, i);
    LabelsInsert(es, i, e);
  }

  lemma RemoveInOrder<K, V>(es: seq<Entry<K, V>>, i: nat)
    requires InOrder(es) && i < |es|
    ensures InOrder(es[..i] + es[i + 1..])
  {
    var r := es[..i] + es[i + 1..];
    forall a, b | 0 <= a < b < |r|
      ensures !TextLess(Labels(r)[b], Labels(r)[a])
    {
      var a', b' := if a < i then a else a + 1, if b < i then b else b + 1;
      assert r[a] == es[a'] && r[b] == es[b'];
      assert !TextLess(Labels(es)[b'], Labels(es)[a']);
    }
  }

  lemma LowerBoundUnique(labels: seq<string>, ls: string, i: nat, j: nat)
    requires IsLowerBound(labels, ls, TextLess, i) && IsLowerBound(labels, ls, TextLess, j)
    ensures i == j
  {
    var atI := if i < |labels| then labels[i] else "";
    var atJ := if j < |labels| then labels[j] else "";
  }

  /** A key of the map sits where the search lands; for any other key its label is free. */
  lemma FoundAtPos<K(!new), V>(s: State<K, V>, key: K, lab: K -> string)
    requires Injective(lab) && IsIndex(s, lab)
    ensures var i := Pos(s.sorted, lab(key)); key in s.m <==> i < |s.sorted| && s.sorted[i].key == key
    ensures key !in s.m ==> lab(key) !in Labels(s.sorted)
  {
    TextOrder();
    var i, ls, labels := Pos(s.sorted, lab(key)), lab(key), Labels(s.sorted);
    IndexInOrder(s, lab);
    PosIsLowerBound(s.sorted, ls);
    SearchIsMembership(labels, ls, TextLess, i);
    if key in s.m {
      var e :| e in s.sorted && e.key == key;
      var j :| 0 <= j < |s.sorted| && s.sorted[j] == e;
      assert EntryOk(e, s.m, lab) && labels[j] == ls;
    }
    if ls in labels {
      var j :| 0 <= j < |labels| && labels[j] == ls;
      assert EntryOk(s.sorted[j], s.m, lab);
    }
    if i < |s.sorted| {
      assert EntryOk(s.sorted[i], s.m, lab);
    }
  }

  lemma KeysDiffer<K, V>(s: State<K, V>, lab: K -> string, i: nat, j: nat)
    requires IsIndex(s, lab) && i < |s.sorted| && j < |s.sorted| && i != j
    ensures s.sorted[i].key != s.sorted[j].key
  {
    TextOrder();
    var labels := Labels(s.sorted);
    assert TextLess(labels[i], labels[j]) || TextLess(labels[j], labels[i]);
    assert EntryOk(s.sorted[i], s.m, lab) && EntryOk(s.sorted[j], s.m, lab);
  }

  lemma OverwriteIndexes<K(!new), V>(s: State<K, V>, val: V, lab: K -> string, i: nat)
    requires IsIndex(s, lab) && i < |s.sorted|
    ensures IsIndex(State(s.m[s.sorted[i].key := val], s.sorted[i := s.sorted[i].(val := val)]), lab)
  {
    var es, key := s.sorted, s.sorted[i].key;
    var es', m' := es[i := es[i].(val := val)], s.m[key := val];
    assert Labels(es') == Labels(es);
    assert EntryOk(es[i], s.m, lab);
    forall e | e in es'
      ensures EntryOk(e, m', lab)
    {
      var j :| 0 <= j < |es'| && es'[j] == e;
      if j != i {
        assert EntryOk(es[j], s.m, lab);
        KeysDiffer(s, lab, i, j);
      }
    }
    forall k | k in m'
      ensures HasKey(es', k)
    {
      var e :| e in es && e.key == k;
      var j :| 0 <= j < |es| && es[j] == e;
      assert es'[j] in es' && es'[j].key == k;
    }
  }

  lemma InsertIndexes<K(!new), V>(s: State<K, V>, key: K, val: V, lab: K -> string, i: nat)
    requires IsIndex(s, lab) && key !in s.m && lab(key) !in Labels(s.sorted)
    requires IsLowerBound(Labels(s.sorted), lab(key), TextLess, i)
    ensures IsIndex(State(s.m[key := val], InsertAt(s.sorted, i, Entry(key, lab(key), val))), lab)
  {
    TextOrder();
    var ls, es, e0 := lab(key), s.sorted, Entry(key, lab(key), val);
    var es', m' := InsertAt(es, i, e0), s.m[key := val];
    assert Labels(es') == InsertAt(Labels(es), i, ls);
    InsertKeepsSorted(Labels(es), ls, TextLess, i);
    forall e | e in es'
      ensures EntryOk(e, m', lab)
    {
      InsertMembers(es, e0, i, e);
      assert e != e0 ==> EntryOk(e, s.m, lab);
    }
    forall k | k in m'
      ensures HasKey(es', k)
    {
      InsertMembers(es, e0, i, e0);
      if k != key {
        var e :| e in es && e.key == k;
        InsertMembers(es, e0, i, e);
      }
    }
  }

  lemma AddKeyIndexes<K(!new), V>(s: State<K, V>, key: K, val: V, lab: K -> string)
    requires Injective(lab) && IsIndex(s, lab)
    ensures IsIndex(State(s.m[key := val], AddKey(s.sorted, key, val, lab(key))), lab)
  {
    var i := Pos(s.sorted, lab(key));
    IndexInOrder(s, lab);
    PosIsLowerBound(s.sorted, lab(key));
    FoundAtPos(s, key, lab);
    if key in s.m {
      OverwriteIndexes(s, val, lab, i);
    } else {
      InsertIndexes(s, key, val, lab, i);
      assert i == |s.sorted| ==>
          InsertAt(s.sorted, i, Entry(key, lab(key), val)) == s.sorted + [Entry(key, lab(key), val)];
    }
  }

  lemma LabelsRemove<K, V>(es: seq<Entry<K, V>>, i: nat)
    requires i < |es|
    ensures Labels(es[..i] + es[i + 1..]) == Labels(es)[..i] + Labels(es)[i + 1..]
  {
  }

  lemma RemainsAt<T>(s: seq<T>, i: nat, x: T) returns (j: nat)
    requires i < |s| && x in s[..i] + s[i + 1..]
    ensures j < |s| && j != i && s[j] == x
  {
    var r := s[..i] + s[i + 1..];
    var k :| 0 <= k < |r| && r[k] == x;
    j := if k < i then k else k + 1;
  }

  lemma RemoveIndexes<K(!new), V>(s: State<K, V>, lab: K -> string, i: nat)
    requires IsIndex(s, lab) && i < |s.sorted|
    ensures IsIndex(State(s.m - {s.sorted[i].key}, s.sorted[..i] + s.sorted[i + 1..]), lab)
  {
    var es, key := s.sorted, s.sorted[i].key;
    var es', m' := es[..i] + es[i + 1..], s.m - {key};
    LabelsRemove(es, i);
    RemoveKeepsSorted(Labels(es), TextLess, i);
    forall e | e in es'
      ensures EntryOk(e, m', lab)
    {
      var j := RemainsAt(es, i, e);
      assert EntryOk(es[j], s.m, lab);
      KeysDiffer(s, lab, i, j);
    }
    forall k | k in m'
      ensures HasKey(es', k)
    {
      var e :| e in es && e.key == k;
      var j :| 0 <= j < |es| && es[j] == e;
      assert e in es[..i] || e in es[i + 1..] by {
        assert j < i ==> es[..i][j] == e;
        assert j > i ==> es[i + 1..][j - i - 1] == e;
      }
    }
  }

  lemma DeleteIndexes<K(!new), V>(s: State<K, V>, key: K, lab: K -> string)
    requires Injective(lab) && IsIndex(s, lab)
    ensures IsIndex(Apply(s, Op.Delete(key), lab), lab)
    ensures Apply(s, Op.Delete(key), lab).m == s.m - {key}
  {
    FoundAtPos(s, key, lab);
    if key in s.m {
      RemoveIndexes(s, lab, Pos(s.sorted, lab(key)));
    } else {
      assert s.m - {key} == s.m;
    }
  }

  function Run<K(==), V>(s: State<K, V>, ops: seq<Op<K, V>>, lab: K -> string): State<K, V>
    decreases |ops|
  {
    if ops == [] then s else Run(Apply(s, ops[0], lab), ops[1..], lab)
  }

  /** Any run of sets, fills, deletes and resets keeps the index exact. */
  lemma {:induction false} RunKeepsIndex<K(!new), V>(s: State<K, V>, ops: seq<Op<K, V>>, lab: K -> string)
    requires Injective(lab) && IsIndex(s, lab)
    ensures IsIndex(Run(s, ops, lab), lab)
    decreases |ops|
  {
    if ops != [] {
      match ops[0] {
        case Set(k, v) => AddKeyIndexes(s, k, v, lab);
        case Fill(k, v) => AddKeyIndexes(s, k, v, lab);
        case Delete(k) => DeleteIndexes(s, k, lab);
        case Init =>
      }
      RunKeepsIndex(Apply(s, ops[0], lab), ops[1..], lab);
    }
  }

  /** Two keys with one label: setting the first again after the second leaves it in the slice twice. */
  lemma SharedLabelBreaks<K(!new), V>(a: K, b: K, v: V, lab: K -> string)
    requires a != b && lab(a) == lab(b)
    ensures !IsIndex(Run(State(map[], []), [Op.Set(a, v), Op.Set(b, v), Op.Set(a, v)], lab), lab)
  {
    TextOrder();
    var ls := lab(a);
    var ops := [Op.Set(a, v), Op.Set(b, v), Op.Set(a, v)];
    var s0: State<K, V> := State(map[], []);
    var s1 := Apply(s0, ops[0], lab);
    assert s1.sorted == [Entry(a, ls, v)];
    var s2 := Apply(s1, ops[1], lab);
    assert Pos(s1.sorted, ls) == 0;
    assert s2.sorted == [Entry(b, ls, v), Entry(a, ls, v)];
    var s3 := Apply(s2, ops[2], lab);
    assert Pos(s2.sorted, ls) == 0;
    assert s3.sorted == [Entry(a, ls, v), Entry(b, ls, v), Entry(a, ls, v)];
    assert ops[1..] == [ops[1], ops[2]] && ops[1..][1..] == [ops[2]] && ops[1..][1..][1..] == [];
    assert Run(s2, [ops[2]], lab) == s3;
    assert Run(s1, ops[1..], lab) == s3;
    assert Labels(s3.sorted)[0] == Labels(s3.sorted)[1];
  }

  /** The index is exact after every run exactly when distinct keys have distinct labels. */
  lemma IndexedIffInjective<K(!new), V(!new)>(v: V, lab: K -> string)
    ensures (forall ops: seq<Op<K, V>> :: IsIndex(Run(State(map[], []), ops, lab), lab)) <==> Injective(lab)
  {
    if Injective(lab) {
      forall ops: seq<Op<K, V>>
        ensures IsIndex(Run(State(map[], []), ops, lab), lab)
      {
        RunKeepsIndex(State(map[], []), ops, lab);
      }
    } else {
      var a, b :| lab(a) == lab(b) && a != b;
      SharedLabelBreaks(a, b, v, lab);
    }
  }

  /** The slice is a canonical form of the map: nothing of the run that led to it remains. */
  lemma IndexCanonical<K(!new), V>(s: State<K, V>, t: State<K, V>, lab: K -> string)
    requires Injective(lab) && IsIndex(s, lab) && IsIndex(t, lab) && s.m == t.m
    ensures s.sorted == t.sorted
  {
    TextOrder();
    var a, b := Labels(s.sorted), Labels(t.sorted);
    forall x
      ensures x in a <==> x in b
    {
      LabelShared(s, t, lab, x);
      LabelShared(t, s, lab, x);
    }
    SortedUnique(a, b, TextLess);
    forall i | 0 <= i < |s.sorted|
      ensures s.sorted[i] == t.sorted[i]
    {
      assert a[i] == b[i];
      assert EntryOk(s.sorted[i], s.m, lab) && EntryOk(t.sorted[i], t.m, lab);
    }
  }

  lemma LabelShared<K(!new), V>(s: State<K, V>, t: State<K, V>, lab: K -> string, x: string)
    requires IsIndex(s, lab) && IsIndex(t, lab) && s.m == t.m
    ensures x in Labels(s.sorted) ==> x in Labels(t.sorted)
  {
    if x in Labels(s.sorted) {
      var i :| 0 <= i < |s.sorted| && Labels(s.sorted)[i] == x;
      assert EntryOk(s.sorted[i], s.m, lab);
      assert HasKey(t.sorted, s.sorted[i].key);
      var e :| e in t.sorted && e.key == s.sorted[i].key;
      var j :| 0 <= j < |t.sorted| && t.sorted[j] == e;
      assert EntryOk(e, t.m, lab) && Labels(t.sorted)[j] == x;
    }
  }

  class MultiLabelMap<K(==, !new), V> {
    const labelString: K -> string
    var m: map<K, V>
    var sorted: seq<Entry<K, V>>

    ghost function View(): State<K, V>
      reads this
    {
      State(m, sorted)
    }

    ghost predicate Valid()
      reads this
    {
      InOrder(sorted)
    }

    /** The slice is an exact index of the map, and stays one because labels tell keys apart. */
    ghost predicate Exact()
      reads this
    {
      Injective(labelString) && IsIndex(View(), labelString)
    }

    constructor (labelString: K -> string)
      ensures Valid() && this.labelString == labelString && View() == State(map[], [])
      ensures Injective(labelString) ==> Exact()
    {
      this.labelString := labelString;
      m, sorted := map[], [];
    }

    method Search(ls: string) returns (i: nat)
      requires Valid()
      ensures i == Pos(sorted, ls)
    {
      TextOrder();
      i := LowerBound(Labels(sorted), ls, TextLess);
      PosIsLowerBound(sorted, ls);
      LowerBoundUnique(Labels(sorted), ls, i, Pos(sorted, ls));
    }

    method AddKeyLocked(key: K, val: V)
      requires Valid()
      modifies this`sorted
      ensures Valid() && sorted == AddKey(old(sorted), key, val, labelString(key))
    {
      var ls := labelString(key);
      var ent := Entry(key, ls, val);
      AddKeyInOrder(sorted, key, val, ls);
      var i := Search(ls);
      if i >= |sorted| {
        sorted := sorted + [ent];
      } else if sorted[i].key == key {
        sorted := sorted[i := sorted[i].(val := val)];
      } else {
        sorted := sorted[..i] + [ent] + sorted[i..];
      }
    }

    /** The lookup never consults the slice; it agrees with an exact one. */
    method Get(key: K) returns (val: Option<V>)
      ensures val == if key in m then Some(m[key]) else None
      ensures Exact() ==> (val.Some? <==> HasKey(sorted, key))
      ensures Exact() && val.Some? ==> Entry(key, labelString(key), val.value) in sorted
    {
      GetAgrees(View(), labelString, key);
      return if key in m then Some(m[key]) else None;
    }

    method GetOrFill(key: K, filled: V) returns (val: V)
      requires Valid()
      modifies this
      ensures Valid() && View() == Apply(old(View()), Fill(key, filled), labelString)
      ensures old(Exact()) ==> Exact()
      ensures val == if key in old(m) then old(m)[key] else filled
    {
      var present := Get(key);
      if present.Some? {
        return present.value;
      }
      if Injective(labelString) && IsIndex(View(), labelString) {
        AddKeyIndexes(View(), key, filled, labelString);
      }
      AddKeyLocked(key, filled);
      m := m[key := filled];
      return filled;
    }

    method SetKey(key: K, val: V)
      requires Valid()
      modifies this
      ensures Valid() && View() == Apply(old(View()), Op.Set(key, val), labelString)
      ensures old(Exact()) ==> Exact()
    {
      if Injective(labelString) && IsIndex(View(), labelString) {
        AddKeyIndexes(View(), key, val, labelString);
      }
      AddKeyLocked(key, val);
      m := m[key := val];
    }

    method DeleteKey(key: K)
      requires Valid()
      modifies this
      ensures Valid() && View() == Apply(old(View()), Op.Delete(key), labelString)
      ensures old(Exact()) ==> Exact() && m == old(m) - {key}
    {
      if Injective(labelString) && IsIndex(View(), labelString) {
        DeleteIndexes(View(), key, labelString);
      }
      var i := Search(labelString(key));
      if i < |sorted| && sorted[i].key == key {
        RemoveInOrder(sorted, i);
        sorted := sorted[..i] + sorted[i + 1..];
        m := m - {key};
      }
    }

    method Reset()
      modifies this
      ensures Valid() && View() == State(map[], []) && (Injective(labelString) ==> Exact())
    {
      m, sorted := map[], [];
    }
  }

  lemma GetAgrees<K(!new), V>(s: State<K, V>, lab: K -> string, key: K)
    ensures IsIndex(s, lab) ==> (key in s.m <==> HasKey(s.sorted, key))
    ensures IsIndex(s, lab) && key in s.m ==> Entry(key, lab(key), s.m[key]) in s.sorted
  {
    if IsIndex(s, lab) && key in s.m {
      assert HasKey(s.sorted, key);
      var e :| e in s.sorted && e.key == key;
      assert EntryOk(e, s.m, lab);
    }
  }

  // ----- callers racing to fill

  /** What happened to the map, in order of the critical sections. */
  datatype Event<K, V> = Filled(key: K, val: V) | Stored(key: K, val: V) | Removed(key: K)

  datatype Race<K, V> = Race(m: map<K, V>, waiting: map<nat, K>, log: seq<Event<K, V>>)

  /** Atomic steps: a lookup without the lock, and the sections that hold it. */
  datatype Step<K, V> =
    | LookUp(caller: nat, key: K)
    | LockAndFill(caller: nat, made: V)
    | Store(skey: K, val: V)
    | Remove(rkey: K)

  predicate CanStep<K, V>(r: Race<K, V>, s: Step<K, V>) {
    s.LockAndFill? ==> s.caller in r.waiting
  }

  function Advance<K(==), V>(r: Race<K, V>, s: Step<K, V>): Race<K, V>
    requires CanStep(r, s)
  {
    match s
    case LookUp(c, k) => if k in r.m then r else r.(waiting := r.waiting[c := k])
    case LockAndFill(c, v) =>
      var k := r.waiting[c];
      var r1 := r.(waiting := r.waiting - {c});
      if k in r.m then r1 else r1.(m := r.m[k := v], log := r.log + [Filled(k, v)])
    case Store(k, v) => r.(m := r.m[k := v], log := r.log + [Stored(k, v)])
    case Remove(k) => r.(m := r.m - {k}, log := r.log + [Removed(k)])
  }

  predicate CanRun<K(==), V>(r: Race<K, V>, steps: seq<Step<K, V>>)
    decreases |steps|
  {
    steps == [] || (CanStep(r, steps[0]) && CanRun(Advance(r, steps[0]), steps[1..]))
  }

  function RaceOn<K(==), V>(r: Race<K, V>, steps: seq<Step<K, V>>): Race<K, V>
    requires CanRun(r, steps)
    decreases |steps|
  {
    if steps == [] then r else RaceOn(Advance(r, steps[0]), steps[1..])
  }

  /** k is present after the events: it was put in and not taken out since. */
  ghost predicate Present<K, V>(log: seq<Event<K, V>>, k: K) {
    exists i :: 0 <= i < |log| && !log[i].Removed? && log[i].key == k
                && forall j :: i < j < |log| ==> log[j] != Removed(k)
  }

  /** A fill happens only when the key is absent. */
  ghost predicate FillsWhenAbsent<K(!new), V>(r: Race<K, V>) {
    && (forall k :: k in r.m <==> Present(r.log, k))
    && (forall j :: 0 <= j < |r.log| && r.log[j].Filled? ==> !Present(r.log[..j], r.log[j].key))
  }

  lemma PresentAfter<K(!new), V>(log: seq<Event<K, V>>, e: Event<K, V>, k: K)
    ensures Present(log + [e], k) <==> if e.key == k then !e.Removed? else Present(log, k)
  {
    var log' := log + [e];
    if Present(log, k) && e != Removed(k) {
      var i :| 0 <= i < |log| && !log[i].Removed? && log[i].key == k &&
               forall j :: i < j < |log| ==> log[j] != Removed(k);
      assert log'[i] == log[i];
    }
    assert log'[|log|] == e;
    if Present(log', k) {
      var i :| 0 <= i < |log'| && !log'[i].Removed? && log'[i].key == k &&
               forall j :: i < j < |log'| ==> log'[j] != Removed(k);
      if i < |log| {
        assert log[i] == log'[i];
        assert forall j :: i < j < |log| ==> log[j] == log'[j];
      }
    }
  }

  lemma AdvanceKeeps<K(!new), V>(r: Race<K, V>, s: Step<K, V>)
    requires CanStep(r, s) && FillsWhenAbsent(r)
    ensures FillsWhenAbsent(Advance(r, s))
  {
    var r' := Advance(r, s);
    if r'.log != r.log {
      var e := r'.log[|r.log|];
      assert r'.log == r.log + [e];
      forall k
        ensures Present(r'.log, k) <==> if e.key == k then !e.Removed? else Present(r.log, k)
      {
        PresentAfter(r.log, e, k);
      }
      forall j | 0 <= j < |r'.log| && r'.log[j].Filled?
        ensures !Present(r'.log[..j], r'.log[j].key)
      {
        assert r'.log[..j] == r.log[..j];
        assert r.log[..|r.log|] == r.log;
      }
    }
  }

  lemma {:induction false} RaceKeeps<K(!new), V>(r: Race<K, V>, steps: seq<Step<K, V>>)
    requires CanRun(r, steps) && FillsWhenAbsent(r)
    ensures FillsWhenAbsent(RaceOn(r, steps))
    decreases |steps|
  {
    if steps != [] {
      AdvanceKeeps(r, steps[0]);
      RaceKeeps(Advance(r, steps[0]), steps[1..]);
    }
  }

  lemma PresentUnlessRemoved<K(!new), V>(log: seq<Event<K, V>>, i: nat, j: nat)
    requires i < j <= |log| && log[i].Filled?
    ensures Present(log[..j], log[i].key) || exists x :: i < x < j && log[x] == Removed(log[i].key)
  {
    var before := log[..j];
    assert before[i] == log[i];
    if forall x :: i < x < j ==> before[x] != Removed(log[i].key) {
      assert Present(before, log[i].key);
    }
  }

  /** However callers interleave, between two fills of a key it was removed. */
  lemma FilledOncePerLife<K(!new), V>(steps: seq<Step<K, V>>, i: nat, j: nat)
    requires CanRun(Race(map[], map[], []), steps)
    requires i < j < |RaceOn(Race(map[], map[], []), steps).log|
    requires var log := RaceOn(Race(map[], map[], []), steps).log;
             log[i].Filled? && log[j].Filled? && log[i].key == log[j].key
    ensures var log := RaceOn(Race(map[], map[], []), steps).log;
            exists x :: i < x < j && log[x] == Removed(log[i].key)
  {
    var r0: Race<K, V> := Race(map[], map[], []);
    RaceKeeps(r0, steps);
    var log := RaceOn(r0, steps).log;
    var k := log[i].key;
    PresentUnlessRemoved(log, i, j);
  }
}
