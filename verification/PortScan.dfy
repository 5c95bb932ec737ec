/** The Linux scan: the table of known sockets is marked, swept, completed with process names, and listed. */
module PortScan {
  import opened ByteCodec
  import opened PortList

  datatype Meta = Meta(port: Port, keep: bool, needsProcName: bool)

  /** The known sockets, by inode. */
  type Known = map<string, Meta>

  /** A listening socket accepted from a row of a /proc/net file. */
  datatype Row = Row(inode: string, proto: string, port: uint16)

  /** The accepted rows of one file, up to its end or to the error that stopped it. */
  datatype FileRows = FileRows(rows: seq<Row>, ok: bool)

  datatype Owner = Owner(process: string, pid: int)

  /** What one scan meets: the files, the owners found under /proc, and whether that walk succeeded. */
  datatype Sweep = Sweep(files: seq<FileRows>, owners: map<string, Owner>, walked: bool)

  /** All rows read, up to the first file that fails. */
  function Accepted(files: seq<FileRows>): seq<Row> {
    if files == [] then []
    else if !files[0].ok then files[0].rows
    else files[0].rows + Accepted(files[1..])
  }

  predicate AllRead(files: seq<FileRows>) {
    forall i :: 0 <= i < |files| ==> files[i].ok
  }

  ghost predicate HasInode(rows: seq<Row>, inode: string) {
    exists r :: r in rows && r.inode == inode
  }

  function MarkOne(known: Known, r: Row): Known {
    known[r.inode := if r.inode in known then known[r.inode].(keep := true)
                     else Meta(Port(r.proto, r.port, "", 0), true, true)]
  }

  function Marked(known: Known, rows: seq<Row>): Known
    decreases |rows|
  {
    if rows == [] then known else Marked(MarkOne(known, rows[0]), rows[1..])
  }

  function Unmarked(known: Known): Known {
    map i | i in known :: known[i].(keep := false)
  }

  function Kept(known: Known): Known {
    map i | i in known && known[i].keep :: known[i]
  }

  /** One socket after the walk over processes: named if its owner was found, and not looked for again either way. */
  function Named(i: string, m: Meta, owners: map<string, Owner>): Meta {
    if !m.needsProcName then m
    else if i !in owners then m.(needsProcName := false)
    else m.(port := m.port.(process := owners[i].process, pid := owners[i].pid), needsProcName := false)
  }

  function AllNamed(known: Known, owners: map<string, Owner>): Known {
    map i | i in known :: Named(i, known[i], owners)
  }

  /** The table after a scan. */
  function After(known: Known, s: Sweep): Known {
    var marked := Marked(Unmarked(known), Accepted(s.files));
    if AllRead(s.files) then AllNamed(Kept(marked), s.owners) else marked
  }

  function Run(known: Known, scans: seq<Sweep>): Known
    decreases |scans|
  {
    if scans == [] then known else Run(After(known, scans[0]), scans[1..])
  }

  // ----- one scan

  /** What is known of a socket stays as first seen; a new one takes its first row. */
  lemma {:induction false} MarkedMeans(known: Known, rows: seq<Row>, i: string)
    ensures i in Marked(known, rows) <==> i in known || HasInode(rows, i)
    ensures i in Marked(known, rows) ==>
              Marked(known, rows)[i].keep == ((i in known && known[i].keep) || HasInode(rows, i))
    ensures i in known ==>
              var m := Marked(known, rows)[i]; m.port == known[i].port && m.needsProcName == known[i].needsProcName
    ensures i in Marked(known, rows) && i !in known ==> NewFrom(rows, i, Marked(known, rows)[i])
    decreases |rows|
  {
    if rows != [] {
      var r := rows[0];
      var next := MarkOne(known, r);
      MarkedMeans(next, rows[1..], i);
      assert rows == [r] + rows[1..];
      assert HasInode(rows, i) <==> r.inode == i || HasInode(rows[1..], i);
    }
  }

  /** A new entry carries the protocol and port of a row with its inode, and has yet to be named. */
  ghost predicate NewFrom(rows: seq<Row>, i: string, m: Meta) {
    m.needsProcName && exists r :: r in rows && r.inode == i && m.port == Port(r.proto, r.port, "", 0)
  }

  /** A scan that read every file knows exactly the sockets it accepted; one that did not forgets nothing. */
  lemma AfterMeans(known: Known, s: Sweep, i: string)
    ensures i in After(known, s) <==>
              HasInode(Accepted(s.files), i) || (i in known && !AllRead(s.files))
    ensures i in known && i in After(known, s) ==> SameKey(After(known, s)[i].port, known[i].port)
    ensures i in known && !known[i].needsProcName && i in After(known, s) ==>
              After(known, s)[i].port == known[i].port && !After(known, s)[i].needsProcName
    ensures i in After(known, s) && AllRead(s.files) ==> !After(known, s)[i].needsProcName
  {
    MarkedMeans(Unmarked(known), Accepted(s.files), i);
  }

  // ----- every run

  ghost predicate Unread(scans: seq<Sweep>, from: nat) {
    forall j :: from <= j < |scans| ==> !AllRead(scans[j].files)
  }

  /** Scan k accepted the inode, and no later scan read every file. */
  ghost predicate SeenLast(scans: seq<Sweep>, k: nat, i: string) {
    k < |scans| && HasInode(Accepted(scans[k].files), i) && Unread(scans, k + 1)
  }

  /**
    After any run of scans a socket is known exactly when it was accepted since
    the last scan that read every file, or is left from the start and no scan did.
   */
  lemma {:induction false} RunKnows(known: Known, scans: seq<Sweep>, i: string)
    ensures i in Run(known, scans) <==>
              (exists k :: SeenLast(scans, k, i)) || (i in known && Unread(scans, 0))
    decreases |scans|
  {
    if scans != [] {
      var s, rest := scans[0], scans[1..];
      AfterMeans(known, s, i);
      RunKnows(After(known, s), rest, i);
      UnreadLater(scans, 0);
      assert Unread(scans, 0) <==> !AllRead(s.files) && Unread(scans, 1);
      if k: nat :| SeenLast(rest, k, i) {
        UnreadLater(scans, k + 1);
        assert SeenLast(scans, k + 1, i);
      }
      if k: nat :| SeenLast(scans, k, i) {
        if k == 0 {
          assert Unread(rest, 0);
        } else {
          UnreadLater(scans, k);
          assert SeenLast(rest, k - 1, i);
        }
      }
      if Unread(rest, 0) && HasInode(Accepted(s.files), i) {
        assert SeenLast(scans, 0, i);
      }
    }
  }

  lemma UnreadLater(scans: seq<Sweep>, from: nat)
    requires scans != []
    ensures Unread(scans, from + 1) <==> Unread(scans[1..], from)
  {
    var rest := scans[1..];
    assert forall j :: from + 1 <= j < |scans| ==> scans[j] == rest[j - 1];
    assert forall j :: from <= j < |rest| ==> rest[j] == scans[j + 1];
  }

  /** The socket is in the table after every scan of the run. */
  ghost predicate Tracked(known: Known, scans: seq<Sweep>, i: string)
    decreases |scans|
  {
    i in known && (scans != [] ==> Tracked(After(known, scans[0]), scans[1..], i))
  }

  /** While a socket stays known its protocol and port never change, nor does its process once looked for. */
  lemma {:induction false} TrackedKeepsPort(known: Known, scans: seq<Sweep>, i: string)
    requires Tracked(known, scans, i)
    ensures i in Run(known, scans) && SameKey(Run(known, scans)[i].port, known[i].port)
    ensures !known[i].needsProcName ==> Run(known, scans)[i].port == known[i].port
    decreases |scans|
  {
    if scans != [] {
      AfterMeans(known, scans[0], i);
      TrackedKeepsPort(After(known, scans[0]), scans[1..], i);
    }
  }

  // ----- the object

  lemma {:induction false} MarkedAppend(known: Known, a: seq<Row>, b: seq<Row>)
    ensures Marked(known, a + b) == Marked(Marked(known, a), b)
    decreases |a|
  {
    if a == [] {
      assert a + b == b;
    } else {
      MarkedAppend(MarkOne(known, a[0]), a[1..], b);
      assert (a + b)[1..] == a[1..] + b;
    }
  }

  /** What a scan may list: the ports it was handed and those of the known sockets. */
  ghost predicate Listable(base: seq<Port>, known: Known, p: Port) {
    p in base || exists i :: i in known && known[i].port == p
  }

  /** One entry for each protocol and port that may be listed, in increasing order; only the reserved key is missing. */
  ghost predicate Lists(base: seq<Port>, known: Known, ports: seq<Port>) {
    && KeysIncrease(ports)
    && (forall q :: q in ports ==> Listable(base, known, q))
    && (forall p :: Listable(base, known, p) ==> (Represented(ports, p) <==> !Reserved(p)))
  }

  class LinuxImpl {
    var known: Known

    constructor ()
      ensures known == map[]
    {
      known := map[];
    }

    method ParseProcNetFile(rows: seq<Row>)
      modifies this
      ensures known == Marked(old(known), rows)
    {
      for k := 0 to |rows|
        invariant Marked(old(known), rows) == Marked(known, rows[k..])
      {
        var r := rows[k];
        assert rows[k..][1..] == rows[k + 1..];
        if r.inode in known {
          known := known[r.inode := known[r.inode].(keep := true)];
        } else {
          known := known[r.inode := Meta(Port(r.proto, r.port, "", 0), true, true)];
        }
      }
    }

    /** Reads the files in turn, stopping at the first that fails. */
    method ReadFiles(files: seq<FileRows>) returns (ok: bool)
      modifies this
      ensures ok <==> AllRead(files)
      ensures known == Marked(old(known), Accepted(files))
    {
      for f := 0 to |files|
        invariant AllRead(files[..f])
        invariant Marked(old(known), Accepted(files)) == Marked(known, Accepted(files[f..]))
      {
        assert files[f..][1..] == files[f + 1..];
        MarkedAppend(known, files[f].rows, Accepted(files[f + 1..]));
        ParseProcNetFile(files[f].rows);
        if !files[f].ok {
          return false;
        }
      }
      assert files[..|files|] == files;
      return true;
    }

    /** The ports of the table after base, in some order. */
    method Collect(base: seq<Port>) returns (ps: seq<Port>)
      ensures forall p :: p in ps <==> Listable(base, known, p)
    {
      ps := base;
      var left := known.Keys;
      while left != {}
        invariant left <= known.Keys
        invariant forall p :: p in ps <==> p in base || exists i :: i in known && i !in left && known[i].port == p
        decreases |left|
      {
        var i :| i in left;
        ps := ps + [known[i].port];
        left := left - {i};
      }
    }

    /** The ports to list, sorted and deduplicated. */
    method List(base: seq<Port>) returns (ports: seq<Port>)
      ensures Lists(base, known, ports)
    {
      var ps := Collect(base);
      var a := new Port[|ps|](j requires 0 <= j < |ps| => ps[j]);
      assert a[..] == ps;
      var n := SortAndDedup(a);
      ghost var sorted :| InOrder(sorted) && multiset(sorted) == multiset(ps) && a[..n] == Dedup(sorted);
      SortAndDedupCorrect(ps, sorted);
      return a[..n];
    }

    /**
      One scan: the table becomes what After says.  The list is refused when a
      file fails, or when there are sockets to name and the walk fails; otherwise
      it holds one entry for each protocol and port known, in increasing order.
     */
    method AppendListeningPorts(base: seq<Port>, s: Sweep) returns (res: Option<seq<Port>>)
      modifies this
      ensures known == After(old(known), s)
      ensures res.None? <==> !AllRead(s.files) ||
                             (!s.walked && exists i :: i in known && (i !in old(known) || old(known)[i].needsProcName))
      ensures res.Some? ==> Lists(base, known, res.value)
    {
      known := map i | i in known :: known[i].(keep := false);
      var ok := ReadFiles(s.files);
      if !ok {
        return None;
      }
      known := map i | i in known && known[i].keep :: known[i];
      var need := set i | i in known && known[i].needsProcName;
      NeedMeans(old(known), s, need);
      known := map i | i in known :: Named(i, known[i], s.owners);
      if need != {} && !s.walked {
        var i :| i in need;
        return None;
      }
      var ports := List(base);
      return Some(ports);
    }
  }

  /** The sockets looked up by a scan are the new ones and those left unnamed by failed scans. */
  lemma NeedMeans(known: Known, s: Sweep, need: set<string>)
    requires AllRead(s.files)
    requires var kept := Kept(Marked(Unmarked(known), Accepted(s.files)));
             need == set i | i in kept && kept[i].needsProcName
    ensures forall i :: i in need <==> i in After(known, s) && (i !in known || known[i].needsProcName)
  {
    forall i
      ensures i in need <==> i in After(known, s) && (i !in known || known[i].needsProcName)
    {
      MarkedMeans(Unmarked(known), Accepted(s.files), i);
    }
  }
}
