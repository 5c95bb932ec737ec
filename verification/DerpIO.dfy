/**
  The buffered reader and writer DERP runs on (Go's bufio) and the frame
  routines of derp.go.  The reader's contracts speak of Stream(), the bytes
  still to be read, and the writer's of the bytes handed to the connection; how
  bytes sit in the buffers, and how the connection chunks them, is hidden.
 */
module DerpIO {
  import opened ByteCodec
  import opened DerpWire
  import opened Seqs

  datatype ReadError = StreamEnded | BufferFull | TooLarge(declared: uint32)

  class BufReader {
    const buf: array<byte>
    var r: nat
    var w: nat
    /** What the connection delivers before it ends; fill takes arbitrary chunks of it. */
    var src: seq<byte>

    ghost predicate Valid()
      reads this
    {
      r <= w <= buf.Length && buf.Length >= 16
    }

    /** Every byte not consumed yet. */
    ghost function Stream(): seq<byte>
      requires Valid()
      reads this, buf
    {
      buf[r..w] + src
    }

    constructor (size: nat, src: seq<byte>)
      requires size >= 16
      ensures Valid() && fresh(buf) && buf.Length == size && Stream() == src
    {
      buf := new byte[size](_ => 0);
      r, w := 0, 0;
      this.src := src;
      new;
      assert buf[r..w] == [];
    }

    /** Slides the unread bytes to the front. */
    method Slide()
      requires Valid()
      modifies this`r, this`w, buf
      ensures Valid() && r == 0 && w == old(w - r) && buf[r..w] == old(buf[r..w])
    {
      var unread := buf[r..w];
      forall i | 0 <= i < |unread| {
        buf[i] := unread[i];
      }
      r, w := 0, |unread|;
    }

    /** Takes one chunk of k bytes from the connection. */
    method Load(k: nat)
      requires Valid() && w + k <= buf.Length && k <= |src|
      modifies this`w, this`src, buf
      ensures Valid() && w == old(w) + k && src == old(src)[k..] && buf[r..w] == old(buf[r..w]) + old(src)[..k]
    {
      forall i | 0 <= i < k {
        buf[w + i] := src[i];
      }
      w, src := w + k, src[k..];
    }

    /** Slides the unread bytes to the front and reads one more chunk. */
    method Fill()
      requires Valid() && w - r < buf.Length && src != []
      modifies this, buf
      ensures Valid() && Stream() == old(Stream())
      ensures |src| < |old(src)| && w - r > old(w - r)
    {
      Slide();
      var k :| 1 <= k <= buf.Length - w && k <= |src|;
      assert src[..k] + src[k..] == src;
      AppendAssoc(buf[r..w], src[..k], src[k..]);
      Load(k);
    }

    method Peek(n: nat) returns (res: Result<seq<byte>, ReadError>)
      requires Valid()
      modifies this, buf
      ensures Valid() && Stream() == old(Stream())
      ensures res == if n > buf.Length && |Stream()| >= buf.Length then Err(BufferFull)
                     else if n > |Stream()| then Err(StreamEnded)
                     else Ok(Stream()[..n])
      ensures res.Ok? ==> n <= w - r && buf[r..r + n] == res.value
    {
      while w - r < n && w - r < buf.Length && src != []
        invariant Valid() && Stream() == old(Stream())
        decreases |src|
      {
        Fill();
      }
      if w - r < n {
        return Err(if w - r < buf.Length then StreamEnded else BufferFull);
      }
      assert buf[r..r + n] == Stream()[..n];
      return Ok(buf[r..r + n]);
    }

    /** Drops bytes that are in the buffer. */
    method Skip(n: nat)
      requires Valid() && n <= w - r
      modifies this`r
      ensures Valid() && Stream() == old(Stream())[n..]
    {
      DropInFirst(buf[r..w], src, n);
      r := r + n;
      assert buf[r..w] == old(buf[r..w])[n..];
    }

    method Discard(n: nat) returns (ok: bool)
      requires Valid()
      modifies this, buf
      ensures Valid()
      ensures ok == (n <= |old(Stream())|)
      ensures Stream() == if ok then old(Stream())[n..] else []
    {
      var remain := n;
      while remain > 0
        invariant Valid() && 0 <= remain <= n
        invariant n - remain <= |old(Stream())| && Stream() == old(Stream())[n - remain..]
        decreases remain
      {
        if r == w {
          if src == [] {
            return false;
          }
          Fill();
        }
        var skip := Min(remain, w - r);
        Skip(skip);
        DropDrop(old(Stream()), n - remain, skip);
        remain := remain - skip;
      }
      return true;
    }

    /** io.ReadFull into n bytes: buffered bytes first, then straight from the connection. */
    method ReadFull(n: nat) returns (res: Result<seq<byte>, ReadError>)
      requires Valid()
      modifies this
      ensures Valid()
      ensures res == if n <= |old(Stream())| then Ok(old(Stream())[..n]) else Err(StreamEnded)
      ensures Stream() == if res.Ok? then old(Stream())[n..] else []
    {
      CutInTwo(buf[r..w], src, n);
      if n <= w - r {
        res := Ok(buf[r..r + n]);
        assert buf[r..w][..n] == buf[r..r + n] && buf[r..w][n..] == buf[r + n..w];
        r := r + n;
        return;
      }
      var direct := Min(n - (w - r), |src|);
      var data := buf[r..w] + src[..direct];
      r, src := w, src[direct..];
      assert buf[r..w] == [];
      return if |data| < n then Err(StreamEnded) else Ok(data);
    }
  }

  /** Peeks at the five header bytes and discards them. */
  method ReadFrameHeader(br: BufReader) returns (res: Result<(byte, uint32), ReadError>)
    requires br.Valid()
    modifies br, br.buf
    ensures br.Valid()
    ensures var s := old(br.Stream());
            if |s| < FRAME_HEADER_LEN then res == Err(StreamEnded) && br.Stream() == s
            else res == Ok((s[0], BodyLen(s))) && br.Stream() == s[FRAME_HEADER_LEN..]
  {
    var peek := br.Peek(FRAME_HEADER_LEN);
    if peek.Err? {
      return Err(peek.error);
    }
    var hdr := peek.value;
    assert hdr[1..FRAME_HEADER_LEN] == br.Stream()[1..FRAME_HEADER_LEN];
    res := Ok((hdr[0], Get32(hdr[1..FRAME_HEADER_LEN])));
    var _ := br.Discard(FRAME_HEADER_LEN);
  }

  /** What readFrame hands back: type, declared length, the bytes stored, and whether some did not fit. */
  datatype FrameRead = FrameRead(typ: byte, frameLen: uint32, stored: seq<byte>, short: bool)

  /** Reads what fits of an n-byte body and discards the rest of it. */
  method ReadBody(br: BufReader, n: uint32, cap: nat) returns (res: Result<seq<byte>, ReadError>)
    requires br.Valid()
    modifies br, br.buf
    ensures br.Valid()
    ensures var t := old(br.Stream());
            if |t| < n then res == Err(StreamEnded) && br.Stream() == []
            else res == Ok(t[..Min(n, cap)]) && br.Stream() == t[n..]
  {
    ghost var t := br.Stream();
    var k := Min(n, cap);
    var data := br.ReadFull(k);
    if data.Err? {
      return data;
    }
    if n > k {
      DropDrop(t, k, n - k);
      var ok := br.Discard(n - k);
      if !ok {
        return Err(StreamEnded);
      }
    }
    return data;
  }

  /** The front of the stream behind a header is the frame's body, and after that comes the next frame. */
  lemma BodySlices(s: seq<byte>, k: nat)
    ensures HasFrame(s) && k <= BodyLen(s) ==> s[FRAME_HEADER_LEN..][..k] == FirstFrame(s).body[..k]
    ensures HasFrame(s) ==> s[FRAME_HEADER_LEN..][BodyLen(s)..] == AfterFrame(s)
  {
  }

  /**
    Reads a frame into a buffer of cap bytes.  A buffer that is too small still
    leaves the reader on the next frame boundary.
   */
  method ReadFrame(br: BufReader, maxSize: uint32, cap: nat) returns (res: Result<FrameRead, ReadError>)
    requires br.Valid()
    modifies br, br.buf
    ensures br.Valid()
    ensures var s := old(br.Stream());
            if |s| < FRAME_HEADER_LEN then
              res == Err(StreamEnded)
            else if BodyLen(s) > maxSize then
              res == Err(TooLarge(BodyLen(s))) && br.Stream() == s[FRAME_HEADER_LEN..]
            else if !HasFrame(s) then
              res == Err(StreamEnded) && br.Stream() == []
            else
              var f := FirstFrame(s);
              && br.Stream() == AfterFrame(s)
              && res == Ok(FrameRead(f.typ, |f.body|, f.body[..Min(|f.body|, cap)], |f.body| > cap))
  {
    ghost var s := br.Stream();
    var hdr := ReadFrameHeader(br);
    if hdr.Err? {
      return Err(hdr.error);
    }
    var (typ, n) := hdr.value;
    if n > maxSize {
      return Err(TooLarge(n));
    }
    BodySlices(s, Min(n, cap));
    var data := ReadBody(br, n, cap);
    if data.Err? {
      return Err(data.error);
    }
    return Ok(FrameRead(typ, n, data.value, n > cap));
  }

  /** Every frame fits a buffer of the given size. */
  predicate AllWithin(fs: seq<Frame>, size: nat) {
    forall i :: 0 <= i < |fs| ==> |fs[i].body| <= size
  }

  /** Reading until the first error, into buffers that are large enough, yields exactly the frames of the stream. */
  method ReadFrames(br: BufReader, maxSize: uint32) returns (fs: seq<Frame>)
    requires br.Valid() && AllWithin(Split(br.Stream()).frames, maxSize)
    modifies br, br.buf
    ensures br.Valid() && fs == Split(old(br.Stream())).frames
  {
    fs := [];
    while true
      invariant br.Valid() && fs + Split(br.Stream()).frames == Split(old(br.Stream())).frames
      decreases |br.Stream()|
    {
      ghost var s := br.Stream();
      TailWithin(old(br.Stream()), fs, s, maxSize);
      var res := ReadFrame(br, maxSize, maxSize);
      if res.Err? {
        return;
      }
      WholeFrame(s, fs, maxSize);
      fs := fs + [Frame(res.value.typ, res.value.stored)];
    }
  }

  lemma TailWithin(all: seq<byte>, fs: seq<Frame>, s: seq<byte>, size: nat)
    requires AllWithin(Split(all).frames, size) && fs + Split(s).frames == Split(all).frames
    ensures AllWithin(Split(s).frames, size)
    ensures HasFrame(s) ==> |FirstFrame(s).body| <= size
  {
    var rest := Split(s).frames;
    assert forall i :: 0 <= i < |rest| ==> rest[i] == (fs + rest)[|fs| + i];
    if HasFrame(s) {
      assert rest[0] == FirstFrame(s);
    }
  }

  lemma WholeFrame(s: seq<byte>, fs: seq<Frame>, size: nat)
    requires HasFrame(s) && |FirstFrame(s).body| <= size
    ensures FirstFrame(s).body[..Min(|FirstFrame(s).body|, size)] == FirstFrame(s).body
    ensures fs + Split(s).frames == fs + [FirstFrame(s)] + Split(AfterFrame(s)).frames
  {
  }

  class BufWriter {
    const size: nat
    var buf: seq<byte>
    /** Bytes the connection has accepted so far. */
    var sent: seq<byte>
    /** How many more bytes the connection accepts before it fails. */
    var room: nat
    /** bufio's sticky error. */
    var failed: bool

    /** History: the frames written in full, and the one a failure cut short. */
    ghost var frames: seq<Frame>
    ghost var torn: seq<Frame>

    ghost predicate Valid()
      reads this
    {
      && size >= 1 && |buf| <= size
      && AllFit(frames) && AllFit(torn) && |torn| <= 1
      && (!failed ==> torn == [])
    }

    /** Between calls: everything on the wire belongs to whole frames, up to the failure. */
    ghost predicate Framed()
      reads this
    {
      && Valid()
      && (!failed ==> buf == [] && sent == Wire(frames))
      && sent <= Wire(frames + torn)
    }

    constructor (size: nat, room: nat)
      requires size >= 1
      ensures Framed() && frames == [] && !failed && sent == []
    {
      this.size, this.room := size, room;
      buf, sent, failed := [], [], false;
      frames, torn := [], [];
    }

    function Available(): int
      reads this
    {
      size - |buf|
    }

    /** Bytes handed over or buffered. */
    ghost function Stream(): seq<byte>
      reads this
    {
      sent + buf
    }

    method ConnWrite(p: seq<byte>) returns (n: nat)
      requires Valid() && !failed
      modifies this`sent, this`room
      ensures n == Min(|p|, old(room)) && sent == old(sent) + p[..n]
    {
      n := Min(|p|, room);
      sent, room := sent + p[..n], room - n;
    }

    method Flush()
      requires Valid()
      modifies this`sent, this`room, this`buf, this`failed
      ensures Valid()
      ensures old(failed) ==> failed && sent == old(sent) && buf == old(buf)
      ensures !failed ==> buf == [] && sent == old(Stream())
      ensures failed ==> sent <= old(Stream())
    {
      if failed || buf == [] {
        return;
      }
      var n := ConnWrite(buf);
      assert sent <= old(Stream());
      if n < |buf| {
        buf, failed := buf[n..], true;
        return;
      }
      buf := [];
    }

    method WriteByte(c: byte)
      requires Valid()
      modifies this`sent, this`room, this`buf, this`failed
      ensures Valid()
      ensures old(failed) ==> failed && sent == old(sent)
      ensures !failed ==> Stream() == old(Stream()) + [c]
      ensures failed ==> sent <= old(Stream()) + [c]
    {
      if failed {
        return;
      }
      if Available() <= 0 {
        Flush();
        if failed {
          return;
        }
      }
      buf := buf + [c];
    }

    method Write(p: seq<byte>)
      requires Valid()
      modifies this`sent, this`room, this`buf, this`failed
      ensures Valid()
      ensures old(failed) ==> failed && sent == old(sent)
      ensures !failed ==> Stream() == old(Stream()) + p
      ensures failed ==> sent <= old(Stream()) + p
    {
      var rest := p;
      while |rest| > Available() && !failed
        invariant Valid() && |rest| <= |p|
        invariant old(failed) ==> failed && sent == old(sent)
        invariant !failed ==> Stream() + rest == old(Stream()) + p
        invariant failed ==> sent <= old(Stream()) + p
        decreases |rest|, |buf|, !failed
      {
        ghost var whole := Stream() + rest;
        if buf == [] {
          var n := ConnWrite(rest);
          assert rest == rest[..n] + rest[n..];
          assert sent + rest[n..] == whole;
          failed := n < |rest|;
          rest := rest[n..];
        } else {
          var n := Available();
          assert rest == rest[..n] + rest[n..];
          buf, rest := buf + rest[..n], rest[n..];
          assert Stream() + rest == whole;
          Flush();
        }
      }
      if !failed {
        buf := buf + rest;
      }
    }
  }

  method WriteUint32(bw: BufWriter, v: uint32)
    requires bw.Valid()
    modifies bw`sent, bw`room, bw`buf, bw`failed
    ensures bw.Valid()
    ensures old(bw.failed) ==> bw.failed && bw.sent == old(bw.sent)
    ensures !bw.failed ==> bw.Stream() == old(bw.Stream()) + Put32(v)
    ensures bw.failed ==> bw.sent <= old(bw.Stream()) + Put32(v)
  {
    var b := Put32(v);
    for i := 0 to 4
      invariant bw.Valid()
      invariant old(bw.failed) ==> bw.failed && bw.sent == old(bw.sent)
      invariant !bw.failed ==> bw.Stream() == old(bw.Stream()) + b[..i]
      invariant bw.failed ==> bw.sent <= old(bw.Stream()) + b
    {
      assert b[..i + 1] == b[..i] + [b[i]];
      bw.WriteByte(b[i]);
      if bw.failed {
        assert b == b[..i + 1] + b[i + 1..];
        return;
      }
    }
    assert b[..4] == b;
  }

  /** Both paths, the append into free buffer space and the byte-by-byte one, emit the same header. */
  method WriteFrameHeader(bw: BufWriter, typ: byte, n: uint32)
    requires bw.Valid()
    modifies bw`sent, bw`room, bw`buf, bw`failed
    ensures bw.Valid()
    ensures old(bw.failed) ==> bw.failed && bw.sent == old(bw.sent)
    ensures !bw.failed ==> bw.Stream() == old(bw.Stream()) + Header(typ, n)
    ensures bw.failed ==> bw.sent <= old(bw.Stream()) + Header(typ, n)
  {
    if bw.Available() >= FRAME_HEADER_LEN {
      bw.Write([typ] + Put32(n));
      return;
    }
    bw.WriteByte(typ);
    if bw.failed {
      return;
    }
    WriteUint32(bw, n);
  }
}
