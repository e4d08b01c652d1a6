/**
 The exec-agent wire protocol: length-prefixed frames, the writer that emits a
 frame in up to three writes, and the reader.
 */
module Frames {
  import opened Common

  const MAX_FRAME_SIZE: nat := 0x10_0000

  const DATA: byte := 1
  const RESIZE: byte := 2
  const PING: byte := 3
  const PONG: byte := 4
  const CLOSE: byte := 5
  const KEY_INIT: byte := 7
  const KEY_ACK: byte := 8

  datatype Frame = Frame(typ: byte, payload: seq<byte>) {
    /** The writer takes it. */
    predicate Small() {
      |payload| < MAX_FRAME_SIZE
    }
  }

  // ---------------------------------------------------------------- big-endian lengths

  function BigEndian32(n: nat): (bs: seq<byte>)
    requires n < 0x1_0000_0000
    ensures |bs| == 4
  {
    var hi := n / 0x100;
    var top := hi / 0x100;
    [(top / 0x100) as byte, (top % 0x100) as byte, (hi % 0x100) as byte, (n % 0x100) as byte]
  }

  function Uint32(bs: seq<byte>): (n: nat)
    requires |bs| == 4
    ensures n < 0x1_0000_0000
  {
    ((bs[0] as nat * 0x100 + bs[1] as nat) * 0x100 + bs[2] as nat) * 0x100 + bs[3] as nat
  }

  lemma LengthRoundTrip(n: nat)
    requires n < 0x1_0000_0000
    ensures Uint32(BigEndian32(n)) == n
  {
  }

  lemma BytesRoundTrip(bs: seq<byte>)
    requires |bs| == 4
    ensures BigEndian32(Uint32(bs)) == bs
  {
    var top := bs[0] as nat * 0x100 + bs[1] as nat;
    var hi := top * 0x100 + bs[2] as nat;
    assert Uint32(bs) == hi * 0x100 + bs[3] as nat;
    assert Uint32(bs) / 0x100 == hi && hi / 0x100 == top && top / 0x100 == bs[0] as nat;
  }

  // ---------------------------------------------------------------- encoding and parsing

  function Encode(f: Frame): seq<byte>
    requires f.Small()
  {
    BigEndian32(1 + |f.payload|) + [f.typ] + f.payload
  }

  predicate AllSmall(fs: seq<Frame>) {
    forall i :: 0 <= i < |fs| ==> fs[i].Small()
  }

  function EncodeAll(fs: seq<Frame>): seq<byte>
    requires AllSmall(fs)
  {
    if fs == [] then [] else Encode(fs[0]) + EncodeAll(fs[1..])
  }

  /** One frame off the front of the stream, with what is left. */
  function Parse(bs: seq<byte>): Option<(Frame, seq<byte>)> {
    if |bs| < 4 then None
    else
      var total := Uint32(bs[..4]);
      if total < 1 || total > MAX_FRAME_SIZE || |bs| < 4 + total then None
      else Some((Frame(bs[4], bs[5..4 + total]), bs[4 + total..]))
  }

  /** Frames as long as they can be read. */
  function ReadAll(bs: seq<byte>): seq<Frame>
    decreases |bs|
  {
    match Parse(bs)
    case None => []
    case Some((f, rest)) => [f] + ReadAll(rest)
  }

  /** The reader accepts exactly the writer's output. */
  lemma ParseIffEncoded(bs: seq<byte>, f: Frame, rest: seq<byte>)
    ensures Parse(bs) == Some((f, rest)) <==> f.Small() && bs == Encode(f) + rest
  {
    if f.Small() && bs == Encode(f) + rest {
      LengthRoundTrip(1 + |f.payload|);
      assert bs[..4] == BigEndian32(1 + |f.payload|);
      assert bs[5..5 + |f.payload|] == f.payload;
      assert bs[5 + |f.payload|..] == rest;
    }
    if Parse(bs) == Some((f, rest)) {
      BytesRoundTrip(bs[..4]);
      assert bs == bs[..4] + [bs[4]] + bs[5..5 + |f.payload|] + bs[5 + |f.payload|..];
    }
  }

  /** Whatever is read back is what was written, and reading goes on behind it. */
  lemma {:induction false} ReadsBackThenContinues(fs: seq<Frame>, tail: seq<byte>)
    requires AllSmall(fs)
    ensures ReadAll(EncodeAll(fs) + tail) == fs + ReadAll(tail)
  {
    hide Encode, Parse;
    if fs == [] {
      assert EncodeAll(fs) + tail == tail;
    } else {
      var rest := EncodeAll(fs[1..]) + tail;
      assert EncodeAll(fs) + tail == Encode(fs[0]) + rest;
      ParseIffEncoded(Encode(fs[0]) + rest, fs[0], rest);
      ReadsBackThenContinues(fs[1..], tail);
      assert fs == [fs[0]] + fs[1..];
    }
  }

  /** Repeated reading returns exactly the frames written. */
  lemma ReadsBack(fs: seq<Frame>)
    requires AllSmall(fs)
    ensures ReadAll(EncodeAll(fs)) == fs
  {
    ReadsBackThenContinues(fs, []);
    assert EncodeAll(fs) + [] == EncodeAll(fs);
    assert ReadAll([]) == [];
  }

  /** No two lists of frames have the same bytes. */
  lemma EncodingIsInjective(a: seq<Frame>, b: seq<Frame>)
    requires AllSmall(a) && AllSmall(b) && EncodeAll(a) == EncodeAll(b)
    ensures a == b
  {
    ReadsBack(a);
    ReadsBack(b);
  }

  // ---------------------------------------------------------------- reader

  class Reader {
    var data: seq<byte>

    constructor (bytes: seq<byte>)
      ensures data == bytes
    {
      data := bytes;
    }

    /** All or nothing; a short stream is used up. */
    method ReadFull(n: nat) returns (buf: Option<seq<byte>>)
      modifies this
      ensures if |old(data)| >= n then buf == Some(old(data)[..n]) && data == old(data)[n..]
              else buf == None && data == []
    {
      if |data| >= n {
        buf := Some(data[..n]);
        data := data[n..];
      } else {
        buf := None;
        data := [];
      }
    }

    method ReadFrame() returns (f: Option<Frame>)
      modifies this
      ensures match Parse(old(data))
              case Some((g, rest)) => f == Some(g) && data == rest
              case None => f == None
    {
      var header := ReadFull(4);
      if header.None? {
        return None;
      }
      var total := Uint32(header.value);
      if total < 1 || total > MAX_FRAME_SIZE {
        return None;
      }
      var buf := ReadFull(total);
      if buf.None? {
        return None;
      }
      f := Some(Frame(buf.value[0], buf.value[1..]));
      assert old(data)[4..][total..] == old(data)[4 + total..];
      assert old(data)[4..][..total][1..] == old(data)[5..4 + total];
    }
  }

  // ---------------------------------------------------------------- writer

  /** A sink whose upcoming writes succeed or fail as `script` says, and succeed after that. */
  class Writer {
    var chunks: seq<seq<byte>>
    var script: seq<bool>

    constructor (outcomes: seq<bool>)
      ensures chunks == [] && script == outcomes
    {
      chunks := [];
      script := outcomes;
    }

    method Write(bytes: seq<byte>) returns (ok: bool)
      modifies this
      ensures ok == (old(script) == [] || old(script)[0])
      ensures chunks == if ok then old(chunks) + [bytes] else old(chunks)
      ensures script == if old(script) == [] then [] else old(script)[1..]
    {
      ok := script == [] || script[0];
      if ok {
        chunks := chunks + [bytes];
      }
      if script != [] {
        script := script[1..];
      }
    }

    /** Length, type and payload are three writes; an empty payload is not written. */
    method WriteFrame(f: Frame) returns (ok: bool)
      modifies this
      ensures !f.Small() ==> !ok && chunks == old(chunks) && script == old(script)
      ensures f.Small() ==>
                var k := Accepted(old(script), |Pieces(f)|);
                chunks == old(chunks) + Pieces(f)[..k] && ok == (k == |Pieces(f)|)
    {
      if |f.payload| >= MAX_FRAME_SIZE {
        return false;
      }
      var pieces := Pieces(f);
      ghost var n := |pieces|;
      ghost var s0 := script;
      ok := Write(BigEndian32(1 + |f.payload|));
      if !ok {
        assert pieces[..0] == [];
        return;
      }
      ghost var s1 := script;
      assert Accepted(s0, n) == 1 + Accepted(s1, n - 1);
      ok := Write([f.typ]);
      if !ok {
        assert pieces[..1] == [pieces[0]];
        return;
      }
      assert Accepted(s1, n - 1) == 1 + Accepted(script, n - 2);
      assert chunks == old(chunks) + [pieces[0], pieces[1]];
      assert pieces[..2] == [pieces[0], pieces[1]];
      if |f.payload| > 0 {
        assert pieces[..3] == [pieces[0], pieces[1], pieces[2]];
        ghost var s2 := script;
        ok := Write(f.payload);
        assert Accepted(s2, 1) == if ok then 1 + Accepted(script, 0) else 0;
      }
    }
  }

  /** How many of the next `n` writes go through before one fails. */
  function Accepted(script: seq<bool>, n: nat): (k: nat)
    ensures k <= n
  {
    if n == 0 then 0
    else if script == [] then n
    else if script[0] then 1 + Accepted(script[1..], n - 1)
    else 0
  }

  /** The writes that succeed before the first failure: all of the first `k` succeed and, unless that is all, the next one fails. */
  lemma {:induction false} AcceptedIff(script: seq<bool>, n: nat, k: nat)
    ensures Accepted(script, n) == k <==>
              && k <= n
              && (forall i :: 0 <= i < k && i < |script| ==> script[i])
              && (k < n ==> k < |script| && !script[k])
  {
    if n > 0 && script != [] {
      assert forall i :: 0 < i < |script| ==> script[i] == script[1..][i - 1];
      if k > 0 {
        AcceptedIff(script[1..], n - 1, k - 1);
      }
    }
  }

  function Pieces(f: Frame): seq<seq<byte>>
    requires f.Small()
  {
    [BigEndian32(1 + |f.payload|), [f.typ]] + if f.payload == [] then [] else [f.payload]
  }

  function Concat(chunks: seq<seq<byte>>): seq<byte> {
    if chunks == [] then [] else chunks[0] + Concat(chunks[1..])
  }

  /** The writes of one frame, put together, are its encoding. */
  lemma PiecesMakeTheFrame(f: Frame)
    requires f.Small()
    ensures Concat(Pieces(f)) == Encode(f)
  {
    var p := Pieces(f);
    assert p[1..][0] == [f.typ];
    if f.payload == [] {
      assert p[1..][1..] == [];
      assert Concat(p[1..]) == [f.typ] + [];
    } else {
      assert p[1..][1..] == [f.payload];
      assert Concat([f.payload]) == f.payload + Concat([f.payload][1..]);
      assert Concat(p[1..]) == [f.typ] + f.payload;
    }
  }

  // ---------------------------------------------------------------- two writers on one stream

  /** `zs` interleaves `xs` and `ys`, each in its own order. */
  predicate IsShuffle<T(==)>(zs: seq<T>, xs: seq<T>, ys: seq<T>)
    decreases |zs|
  {
    if zs == [] then xs == [] && ys == []
    else
      || (xs != [] && zs[0] == xs[0] && IsShuffle(zs[1..], xs[1..], ys))
      || (ys != [] && zs[0] == ys[0] && IsShuffle(zs[1..], xs, ys[1..]))
  }

  function Encodings(fs: seq<Frame>): (es: seq<seq<byte>>)
    requires AllSmall(fs)
    ensures |es| == |fs|
    ensures forall i :: 0 <= i < |fs| ==> es[i] == Encode(fs[i])
  {
    if fs == [] then [] else [Encode(fs[0])] + Encodings(fs[1..])
  }

  /** Two writers that write each frame at once: the reader sees a shuffle of their frames, never a mixture. */
  lemma {:induction false} AtomicWritersReadAsShuffle(chunks: seq<seq<byte>>, xs: seq<Frame>, ys: seq<Frame>)
    requires AllSmall(xs) && AllSmall(ys)
    requires IsShuffle(chunks, Encodings(xs), Encodings(ys))
    ensures IsShuffle(ReadAll(Concat(chunks)), xs, ys)
    decreases |chunks|
  {
    if chunks != [] {
      var rest := Concat(chunks[1..]);
      if xs != [] && chunks[0] == Encode(xs[0]) && IsShuffle(chunks[1..], Encodings(xs)[1..], Encodings(ys)) {
        assert Encodings(xs)[1..] == Encodings(xs[1..]);
        AtomicWritersReadAsShuffle(chunks[1..], xs[1..], ys);
        ParseIffEncoded(Concat(chunks), xs[0], rest);
        assert ReadAll(Concat(chunks))[1..] == ReadAll(rest);
      } else {
        assert Encodings(ys)[1..] == Encodings(ys[1..]);
        AtomicWritersReadAsShuffle(chunks[1..], xs, ys[1..]);
        ParseIffEncoded(Concat(chunks), ys[0], rest);
        assert ReadAll(Concat(chunks))[1..] == ReadAll(rest);
      }
    }
  }

  // ---------------------------------------------------------------- two writers that interleave the pieces of their frames

  lemma ParseShortens(bs: seq<byte>)
    ensures Parse(bs).Some? ==> |Parse(bs).value.1| < |bs|
  {
  }

  /** What was read is what the stream starts with, and nothing more can be read behind it. */
  lemma {:induction false} ReadIsPrefix(bs: seq<byte>) returns (tail: seq<byte>)
    ensures AllSmall(ReadAll(bs)) && bs == EncodeAll(ReadAll(bs)) + tail && Parse(tail).None?
    decreases |bs|
  {
    hide Encode, Parse;
    if Parse(bs).None? {
      tail := bs;
    } else {
      var (f, rest) := Parse(bs).value;
      ParseIffEncoded(bs, f, rest);
      ParseShortens(bs);
      tail := ReadIsPrefix(rest);
      assert ReadAll(bs)[1..] == ReadAll(rest);
      assert Encode(f) + (EncodeAll(ReadAll(rest)) + tail) == (Encode(f) + EncodeAll(ReadAll(rest))) + tail;
    }
  }

  lemma {:induction false} ShuffleSize(zs: seq<Frame>, xs: seq<Frame>, ys: seq<Frame>)
    requires IsShuffle(zs, xs, ys) && AllSmall(xs) && AllSmall(ys)
    ensures AllSmall(zs) && |EncodeAll(zs)| == |EncodeAll(xs)| + |EncodeAll(ys)|
    decreases |zs|
  {
    if zs != [] {
      if xs != [] && zs[0] == xs[0] && IsShuffle(zs[1..], xs[1..], ys) {
        ShuffleSize(zs[1..], xs[1..], ys);
      } else {
        ShuffleSize(zs[1..], xs, ys[1..]);
      }
      assert zs == [zs[0]] + zs[1..];
    }
  }

  ghost predicate EncodesShuffle(bs: seq<byte>, xs: seq<Frame>, ys: seq<Frame>) {
    exists zs :: AllSmall(zs) && IsShuffle(zs, xs, ys) && bs == EncodeAll(zs)
  }

  /** A stream as long as both lists is read as a shuffle of them exactly if it is the encoding of one. */
  lemma ReadsAsShuffleIff(bs: seq<byte>, xs: seq<Frame>, ys: seq<Frame>)
    requires AllSmall(xs) && AllSmall(ys) && |bs| == |EncodeAll(xs)| + |EncodeAll(ys)|
    ensures IsShuffle(ReadAll(bs), xs, ys) <==> EncodesShuffle(bs, xs, ys)
  {
    var tail := ReadIsPrefix(bs);
    if IsShuffle(ReadAll(bs), xs, ys) {
      ShuffleSize(ReadAll(bs), xs, ys);
      assert bs == EncodeAll(ReadAll(bs));
    }
    if zs :| AllSmall(zs) && IsShuffle(zs, xs, ys) && bs == EncodeAll(zs) {
      ReadsBack(zs);
    }
  }

  function AllPieces(fs: seq<Frame>): seq<seq<byte>>
    requires AllSmall(fs)
  {
    if fs == [] then [] else Pieces(fs[0]) + AllPieces(fs[1..])
  }

  lemma {:induction false} ConcatJoins(a: seq<seq<byte>>, b: seq<seq<byte>>)
    ensures Concat(a + b) == Concat(a) + Concat(b)
  {
    if a == [] {
      assert a + b == b;
    } else {
      assert (a + b)[1..] == a[1..] + b;
      ConcatJoins(a[1..], b);
    }
  }

  lemma {:induction false} PiecesMakeTheFrames(fs: seq<Frame>)
    requires AllSmall(fs)
    ensures Concat(AllPieces(fs)) == EncodeAll(fs)
  {
    if fs != [] {
      PiecesMakeTheFrame(fs[0]);
      PiecesMakeTheFrames(fs[1..]);
      ConcatJoins(Pieces(fs[0]), AllPieces(fs[1..]));
    }
  }

  lemma {:induction false} ShuffledBytes(chunks: seq<seq<byte>>, a: seq<seq<byte>>, b: seq<seq<byte>>)
    requires IsShuffle(chunks, a, b)
    ensures |Concat(chunks)| == |Concat(a)| + |Concat(b)|
    decreases |chunks|
  {
    if chunks != [] {
      if a != [] && chunks[0] == a[0] && IsShuffle(chunks[1..], a[1..], b) {
        ShuffledBytes(chunks[1..], a[1..], b);
      } else {
        ShuffledBytes(chunks[1..], a, b[1..]);
      }
    }
  }

  /**
   Two writers that interleave the pieces of their frames in any way: the reader
   sees a shuffle of the two lists if and only if the bytes happen to be the
   encoding of one.
   */
  lemma InterleavedPiecesReadIff(chunks: seq<seq<byte>>, xs: seq<Frame>, ys: seq<Frame>)
    requires AllSmall(xs) && AllSmall(ys) && IsShuffle(chunks, AllPieces(xs), AllPieces(ys))
    ensures IsShuffle(ReadAll(Concat(chunks)), xs, ys) <==> EncodesShuffle(Concat(chunks), xs, ys)
  {
    PiecesMakeTheFrames(xs);
    PiecesMakeTheFrames(ys);
    ShuffledBytes(chunks, AllPieces(xs), AllPieces(ys));
    ReadsAsShuffleIff(Concat(chunks), xs, ys);
  }

  lemma {:induction false} ShuffleHas(zs: seq<Frame>, xs: seq<Frame>, ys: seq<Frame>, k: nat)
    requires IsShuffle(zs, xs, ys) && k < |zs|
    ensures zs[k] in xs || zs[k] in ys
    decreases |zs|
  {
    if k > 0 {
      if xs != [] && zs[0] == xs[0] && IsShuffle(zs[1..], xs[1..], ys) {
        ShuffleHas(zs[1..], xs[1..], ys, k - 1);
      } else {
        ShuffleHas(zs[1..], xs, ys[1..], k - 1);
      }
    }
  }

  lemma {:induction false} ShuffleLength<T>(zs: seq<T>, xs: seq<T>, ys: seq<T>)
    requires IsShuffle(zs, xs, ys)
    ensures |zs| == |xs| + |ys|
    decreases |zs|
  {
    if zs != [] {
      if xs != [] && zs[0] == xs[0] && IsShuffle(zs[1..], xs[1..], ys) {
        ShuffleLength(zs[1..], xs[1..], ys);
      } else {
        ShuffleLength(zs[1..], xs, ys[1..]);
      }
    }
  }

  lemma LengthStartsWithZero(n: nat)
    requires n < 0x100_0000
    ensures BigEndian32(n)[0] == 0
  {
  }

  /**
   A tear between length and type is always fatal: once, behind any whole frames,
   one writer's length is followed by the other's, the reader never sees a
   shuffle of two lists that have more frames and no type zero, whatever comes afterwards.
   */
  lemma TornFramesAreMisread(before: seq<Frame>, x: Frame, y: Frame, rest: seq<byte>, xs: seq<Frame>, ys: seq<Frame>)
    requires AllSmall(before) && x.Small() && y.Small() && |before| < |xs| + |ys|
    requires (forall f :: f in xs ==> f.typ != 0) && (forall f :: f in ys ==> f.typ != 0)
    ensures !IsShuffle(ReadAll(EncodeAll(before) + (Pieces(x)[0] + Pieces(y)[0] + rest)), xs, ys)
  {
    hide ReadAll, IsShuffle, EncodeAll, BigEndian32;
    var torn := Pieces(x)[0] + Pieces(y)[0] + rest;
    ReadsBackThenContinues(before, torn);
    LengthStartsWithZero(1 + |y.payload|);
    assert torn[4] == 0;
    TornReadsZero(torn);
    var read := before + ReadAll(torn);
    if IsShuffle(read, xs, ys) {
      ShuffleLength(read, xs, ys);
      ShuffleHas(read, xs, ys, |before|);
    }
  }

  lemma TornReadsZero(torn: seq<byte>)
    requires |torn| > 4 && torn[4] == 0
    ensures ReadAll(torn) != [] ==> ReadAll(torn)[0].typ == 0
  {
  }

  /** The length and the type of a frame. */
  function Header(f: Frame): seq<byte>
    requires f.Small()
  {
    BigEndian32(1 + |f.payload|) + [f.typ]
  }

  lemma ShufflesOfTwo(zs: seq<Frame>, x: Frame, y: Frame)
    ensures IsShuffle(zs, [x], [y]) <==> zs == [x, y] || zs == [y, x]
  {
    assert [x][1..] == [] && [y][1..] == [];
    if IsShuffle(zs, [x], [y]) {
      ShuffleLength(zs, [x], [y]);
      assert zs[1..] == [zs[1]] && [zs[1]][1..] == [];
    }
    assert [x, y][1..] == [y] && [y, x][1..] == [x];
    assert IsShuffle<Frame>([], [], []);
    assert IsShuffle([y], [], [y]) && IsShuffle([x], [x], []);
  }

  lemma EncodeTwo(x: Frame, y: Frame)
    requires x.Small() && y.Small()
    ensures EncodeAll([x, y]) == Encode(x) + Encode(y)
  {
    assert [x, y][1..] == [y] && [y][1..] == [];
    assert EncodeAll([y]) == Encode(y) + EncodeAll([]);
  }

  lemma SamePrefix(p: seq<byte>, a: seq<byte>, b: seq<byte>)
    ensures p + a == p + b <==> a == b
  {
    if p + a == p + b {
      assert a == (p + a)[|p|..] && b == (p + b)[|p|..];
    }
  }

  lemma SameSuffix(a: seq<byte>, b: seq<byte>, q: seq<byte>)
    ensures a + q == b + q <==> a == b
  {
    if a + q == b + q {
      assert a == (a + q)[..|a|] && b == (b + q)[..|b|];
    }
  }

  /**
   A tear after the type is fatal except by coincidence: a frame written between
   the header and the payload of another is read back, with it, exactly if that
   payload or that header commutes with the frame's bytes.
   */
  lemma TearAfterTypeReadIff(x: Frame, y: Frame)
    requires x.Small() && y.Small()
    ensures IsShuffle(ReadAll(Header(x) + Encode(y) + x.payload), [x], [y]) <==>
              x.payload + Encode(y) == Encode(y) + x.payload || Header(x) + Encode(y) == Encode(y) + Header(x)
  {
    hide ReadAll, IsShuffle, Encode, Header, EncodesShuffle;
    var bs := Header(x) + Encode(y) + x.payload;
    EncodeParts(x);
    EncodeOne(x);
    EncodeOne(y);
    ReadsAsShuffleIff(bs, [x], [y]);
    OneOfTwo(bs, x, y);
    TornOrders(x, y);
  }

  /** Those are the bytes of the writes: length and type of one frame, all pieces of the other, the payload. */
  lemma TearBytes(x: Frame, y: Frame)
    requires x.Small() && y.Small()
    ensures Concat(Pieces(x)[..2] + Pieces(y) + [x.payload]) == Header(x) + Encode(y) + x.payload
  {
    var start := Pieces(x)[..2];
    assert start == [BigEndian32(1 + |x.payload|), [x.typ]];
    hide BigEndian32;
    ConcatJoins(start + Pieces(y), [x.payload]);
    ConcatJoins(start, Pieces(y));
    PiecesMakeTheFrame(y);
    hide Encode, Pieces;
    assert start[1..] == [[x.typ]] && start[1..][1..] == [];
    assert Concat(start[1..]) == [x.typ] + [];
    assert [x.payload][1..] == [];
    assert Concat([x.payload]) == x.payload + [];
  }

  lemma EncodeParts(x: Frame)
    requires x.Small()
    ensures Encode(x) == Header(x) + x.payload
  {
  }

  lemma EncodeOne(x: Frame)
    requires x.Small()
    ensures EncodeAll([x]) == Encode(x)
  {
    assert [x][1..] == [];
  }

  lemma TornOrders(x: Frame, y: Frame)
    requires x.Small() && y.Small()
    ensures var bs := Header(x) + Encode(y) + x.payload;
            && (bs == EncodeAll([x, y]) <==> x.payload + Encode(y) == Encode(y) + x.payload)
            && (bs == EncodeAll([y, x]) <==> Header(x) + Encode(y) == Encode(y) + Header(x))
  {
    hide Encode, EncodeAll, Header;
    var bs := Header(x) + Encode(y) + x.payload;
    EncodeParts(x);
    EncodeTwo(x, y);
    EncodeTwo(y, x);
    assert Encode(x) + Encode(y) == Header(x) + (x.payload + Encode(y)) && bs == Header(x) + (Encode(y) + x.payload);
    SamePrefix(Header(x), x.payload + Encode(y), Encode(y) + x.payload);
    assert Encode(y) + Encode(x) == Encode(y) + Header(x) + x.payload;
    SameSuffix(Header(x) + Encode(y), Encode(y) + Header(x), x.payload);
  }

  lemma OneOfTwo(bs: seq<byte>, x: Frame, y: Frame)
    requires x.Small() && y.Small()
    ensures EncodesShuffle(bs, [x], [y]) <==> bs == EncodeAll([x, y]) || bs == EncodeAll([y, x])
  {
    forall zs
      ensures IsShuffle(zs, [x], [y]) <==> zs == [x, y] || zs == [y, x]
    {
      ShufflesOfTwo(zs, x, y);
    }
    assert AllSmall([x, y]) && AllSmall([y, x]);
  }

  /** Such coincidences exist: a payload that is itself a frame can be torn around that frame. */
  lemma TornCanReadBack(typ: byte, y: Frame)
    requires y.Small() && |Encode(y)| < MAX_FRAME_SIZE
    ensures var x := Frame(typ, Encode(y));
            x.Small() && IsShuffle(ReadAll(Header(x) + Encode(y) + x.payload), [x], [y])
  {
    TearAfterTypeReadIff(Frame(typ, Encode(y)), y);
  }
}
