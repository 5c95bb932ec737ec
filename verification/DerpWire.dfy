/**
  DERP frames as byte strings: a type byte, a big-endian uint32 length and that
  many bytes of body.  This is the reference the buffered readers and writers
  are proved against; it knows nothing of buffers.
 */
module DerpWire {
  import opened ByteCodec
  import opened Seqs

  const FRAME_HEADER_LEN := 5

  datatype Frame = Frame(typ: byte, body: seq<byte>)

  /** A frame whose length fits the header's uint32 field. */
  predicate Fits(f: Frame) {
    |f.body| < 0x1_0000_0000
  }

  predicate AllFit(fs: seq<Frame>) {
    forall i :: 0 <= i < |fs| ==> Fits(fs[i])
  }

  function Header(typ: byte, n: uint32): (h: seq<byte>)
    ensures |h| == FRAME_HEADER_LEN
  {
    [typ] + Put32(n)
  }

  function FrameBytes(f: Frame): (b: seq<byte>)
    requires Fits(f)
    ensures |b| == FRAME_HEADER_LEN + |f.body|
  {
    Header(f.typ, |f.body|) + f.body
  }

  /** The byte stream made of the given frames, one after the other. */
  function Wire(fs: seq<Frame>): seq<byte>
    requires AllFit(fs)
  {
    if fs == [] then [] else FrameBytes(fs[0]) + Wire(fs[1..])
  }

  lemma WireCons(fs: seq<Frame>, tail: seq<byte>)
    requires AllFit(fs) && fs != []
    ensures Wire(fs) + tail == FrameBytes(fs[0]) + (Wire(fs[1..]) + tail)
  {
  }

  lemma {:induction false} WireAppend(fs: seq<Frame>, gs: seq<Frame>)
    requires AllFit(fs) && AllFit(gs)
    ensures Wire(fs + gs) == Wire(fs) + Wire(gs)
  {
    if fs == [] {
      assert fs + gs == gs;
    } else {
      WireAppend(fs[1..], gs);
      assert (fs + gs)[1..] == fs[1..] + gs;
    }
  }

  /** The length field of a header. */
  function BodyLen(s: seq<byte>): uint32
    requires |s| >= FRAME_HEADER_LEN
  {
    Get32(s[1..FRAME_HEADER_LEN])
  }

  predicate HasFrame(s: seq<byte>) {
    |s| >= FRAME_HEADER_LEN && |s| >= FRAME_HEADER_LEN + BodyLen(s)
  }

  function FirstFrame(s: seq<byte>): (f: Frame)
    requires HasFrame(s)
    ensures Fits(f)
  {
    Frame(s[0], s[FRAME_HEADER_LEN..FRAME_HEADER_LEN + BodyLen(s)])
  }

  function AfterFrame(s: seq<byte>): (rest: seq<byte>)
    requires HasFrame(s)
    ensures |rest| < |s|
  {
    s[FRAME_HEADER_LEN + BodyLen(s)..]
  }

  lemma HeaderRoundTrip(typ: byte, n: uint32, rest: seq<byte>)
    ensures var s := Header(typ, n) + rest;
            s[0] == typ && BodyLen(s) == n && s[FRAME_HEADER_LEN..] == rest
  {
    var s := Header(typ, n) + rest;
    assert s[1..FRAME_HEADER_LEN] == Put32(n);
    IntegersRoundTrip(0, n, 0, 0);
  }

  /** Reading the first frame undoes writing it, whatever follows. */
  lemma CutUndoesWrite(f: Frame, rest: seq<byte>)
    requires Fits(f)
    ensures var s := FrameBytes(f) + rest;
            HasFrame(s) && FirstFrame(s) == f && AfterFrame(s) == rest
  {
    var s := FrameBytes(f) + rest;
    assert s == Header(f.typ, |f.body|) + (f.body + rest);
    HeaderRoundTrip(f.typ, |f.body|, f.body + rest);
    assert s[FRAME_HEADER_LEN..FRAME_HEADER_LEN + |f.body|] == f.body;
  }

  /** A complete frame at the front of s is exactly the bytes its writer emits. */
  lemma WriteUndoesCut(s: seq<byte>)
    requires HasFrame(s)
    ensures FrameBytes(FirstFrame(s)) + AfterFrame(s) == s
  {
    PutGet(s[1..FRAME_HEADER_LEN]);
    Pow256Values();
    assert Put32(BodyLen(s)) == s[1..FRAME_HEADER_LEN];
  }

  datatype Parsed = Parsed(frames: seq<Frame>, leftover: seq<byte>)

  /** All complete frames of s, and the incomplete rest. */
  function Split(s: seq<byte>): (p: Parsed)
    ensures AllFit(p.frames)
    decreases |s|
  {
    if HasFrame(s) then
      var rest := Split(AfterFrame(s));
      Parsed([FirstFrame(s)] + rest.frames, rest.leftover)
    else
      Parsed([], s)
  }

  lemma SplitStep(f: Frame, rest: seq<byte>)
    requires Fits(f)
    ensures Split(FrameBytes(f) + rest) == Parsed([f] + Split(rest).frames, Split(rest).leftover)
  {
    CutUndoesWrite(f, rest);
  }

  /** Any frames written one after the other are recovered exactly. */
  lemma {:induction false} SplitUndoesWire(fs: seq<Frame>, tail: seq<byte>)
    requires AllFit(fs)
    ensures Split(Wire(fs) + tail) == Parsed(fs + Split(tail).frames, Split(tail).leftover)
  {
    if fs == [] {
      assert Wire(fs) + tail == tail;
      assert fs + Split(tail).frames == Split(tail).frames;
    } else {
      SplitUndoesWire(fs[1..], tail);
      WireCons(fs, tail);
      SplitStep(fs[0], Wire(fs[1..]) + tail);
      ConsAppend(fs, Split(tail).frames);
    }
  }

  /** Splitting loses nothing: the frames and the rest spell the stream. */
  lemma {:induction false} WireUndoesSplit(s: seq<byte>)
    ensures Wire(Split(s).frames) + Split(s).leftover == s
    ensures !HasFrame(Split(s).leftover)
    decreases |s|
  {
    if HasFrame(s) {
      WireUndoesSplit(AfterFrame(s));
      WriteUndoesCut(s);
      var q := Split(AfterFrame(s));
      TakeDrop([FirstFrame(s)], q.frames);
      WireCons([FirstFrame(s)] + q.frames, q.leftover);
    }
  }
}
