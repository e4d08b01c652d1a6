/**
 The API server's byte pipe between a WebSocket client and the exec-agent: the
 pump from the agent's stdout to the client, and the bridge from the client to
 the agent's stdin.
 */
module Relay {
  import opened Common
  import opened Frames

  // ---------------------------------------------------------------- agent to client

  /** The frames before the first CLOSE, bad length or truncation. */
  function Relayable(bs: seq<byte>): seq<Frame>
    decreases |bs|
  {
    match Parse(bs)
    case None => []
    case Some((f, rest)) => if f.typ == CLOSE then [] else [f] + Relayable(rest)
  }

  /** A frame as a WebSocket message: the type byte, then the payload. */
  function Message(f: Frame): seq<byte> {
    [f.typ] + f.payload
  }

  function Messages(fs: seq<Frame>): (ms: seq<seq<byte>>)
    ensures |ms| == |fs|
    ensures forall i :: 0 <= i < |fs| ==> ms[i] == Message(fs[i])
  {
    if fs == [] then [] else [Message(fs[0])] + Messages(fs[1..])
  }

  /** CLOSE and the text `session_ended`. */
  const CLOSE_MESSAGE: seq<byte> := [CLOSE, 115, 101, 115, 115, 105, 111, 110, 95, 101, 110, 100, 101, 100]

  function DataBytes(fs: seq<Frame>): nat {
    if fs == [] then 0 else (if fs[0].typ == DATA then |fs[0].payload| else 0) + DataBytes(fs[1..])
  }

  /** What the client is sent if no write fails. */
  function Outgoing(bs: seq<byte>): seq<seq<byte>> {
    Messages(Relayable(bs)) + [CLOSE_MESSAGE]
  }

  predicate HasClose(fs: seq<Frame>) {
    exists i :: 0 <= i < |fs| && fs[i].typ == CLOSE
  }

  /** The stream ends here: the next frame is unreadable or a CLOSE. */
  predicate Ends(tail: seq<byte>) {
    Parse(tail) == None || Parse(tail).value.0.typ == CLOSE
  }

  /** Every stream splits, in one way only, into the frames that are relayed and an end. */
  lemma {:induction false} RelayableIffSplit(bs: seq<byte>, fs: seq<Frame>)
    ensures Relayable(bs) == fs <==>
              AllSmall(fs) && !HasClose(fs) && exists tail :: bs == EncodeAll(fs) + tail && Ends(tail)
    decreases |bs|
  {
    if Relayable(bs) == fs {
      var tail := RelayableSplits(bs);
      assert bs == EncodeAll(fs) + tail;
    }
    if AllSmall(fs) && !HasClose(fs) && exists tail :: bs == EncodeAll(fs) + tail && Ends(tail) {
      var tail :| bs == EncodeAll(fs) + tail && Ends(tail);
      SplitIsRelayable(fs, tail);
    }
  }

  lemma {:induction false} RelayableSplits(bs: seq<byte>) returns (tail: seq<byte>)
    ensures AllSmall(Relayable(bs)) && !HasClose(Relayable(bs))
    ensures bs == EncodeAll(Relayable(bs)) + tail && Ends(tail)
    decreases |bs|
  {
    hide Parse, Encode;
    if Ends(bs) {
      tail := bs;
    } else {
      var (f, rest) := Parse(bs).value;
      ParseIffEncoded(bs, f, rest);
      ParseShortens(bs);
      tail := RelayableSplits(rest);
      var fs := Relayable(bs);
      assert fs[1..] == Relayable(rest);
      assert EncodeAll(fs) == Encode(f) + EncodeAll(fs[1..]);
    }
  }

  lemma {:induction false} SplitIsRelayable(fs: seq<Frame>, tail: seq<byte>)
    requires AllSmall(fs) && !HasClose(fs) && Ends(tail)
    ensures Relayable(EncodeAll(fs) + tail) == fs
  {
    hide Parse, Encode;
    if fs == [] {
      assert EncodeAll(fs) + tail == tail;
    } else {
      var rest := EncodeAll(fs[1..]) + tail;
      assert EncodeAll(fs) + tail == Encode(fs[0]) + rest;
      ParseIffEncoded(Encode(fs[0]) + rest, fs[0], rest);
      assert !HasClose(fs[1..]) by {
        assert forall i :: 0 <= i < |fs[1..]| ==> fs[1..][i] == fs[i + 1];
      }
      SplitIsRelayable(fs[1..], tail);
      assert fs == [fs[0]] + fs[1..];
    }
  }

  lemma {:induction false} DataBytesSnoc(fs: seq<Frame>, f: Frame)
    ensures DataBytes(fs + [f]) == DataBytes(fs) + if f.typ == DATA then |f.payload| else 0
  {
    if fs == [] {
      assert [f][1..] == [];
    } else {
      assert (fs + [f])[0] == fs[0] && (fs + [f])[1..] == fs[1..] + [f];
      DataBytesSnoc(fs[1..], f);
    }
  }

  /**
   The pump. For every byte stream and every pattern of failing writes it ends,
   having sent a prefix of `Outgoing`: all of it if no write fails, and nothing
   after the first write that does. `accounted` is the ciphertext it relayed.
   */
  method PumpAgentStdout(r: Reader, w: Writer) returns (accounted: nat)
    modifies r, w
    ensures var out := Outgoing(old(r.data));
            var k := Accepted(old(w.script), |out|);
            var fs := Relayable(old(r.data));
            && w.chunks == old(w.chunks) + out[..k]
            && accounted == DataBytes(fs[..if k <= |fs| then k else |fs|])
  {
    hide Parse, Relayable, DataBytes, Accepted;
    DataBytesOfNone();
    accounted := 0;
    ghost var fs := Relayable(r.data);
    ghost var out := Outgoing(r.data);
    ghost var n := 0;
    assert fs[..0] == [] && out[..0] == [];
    while true
      invariant n <= |fs| && Relayable(r.data) == fs[n..]
      invariant w.chunks == old(w.chunks) + out[..n]
      invariant Accepted(old(w.script), |out|) == n + Accepted(w.script, |out| - n)
      invariant accounted == DataBytes(fs[..n])
      decreases |r.data|
    {
      ghost var before := r.data;
      RelayStep(before);
      AcceptedStep(w.script, |out| - n);
      var frame := r.ReadFrame();
      if frame.None? || frame.value.typ == CLOSE {
        assert |fs[n..]| == 0;
        break;
      }
      var f := frame.value;
      assert fs[n..][0] == f && fs[n..][1..] == fs[n + 1..];
      assert out[n] == Message(f);
      assert out[..n + 1] == out[..n] + [out[n]] && fs[..n + 1] == fs[..n] + [f];
      DataBytesSnoc(fs[..n], f);
      var ok := w.Write([f.typ] + f.payload);
      if !ok {
        return;
      }
      if f.typ == DATA {
        accounted := accounted + |f.payload|;
      }
      n := n + 1;
    }
    assert out[..n + 1] == out[..n] + [out[n]];
    assert fs[..n] == fs;
    AcceptedStep(w.script, 1);
    var ok := w.Write(CLOSE_MESSAGE);
  }

  lemma DataBytesOfNone()
    ensures DataBytes([]) == 0
  {
  }

  lemma RelayStep(bs: seq<byte>)
    ensures match Parse(bs)
            case None => Relayable(bs) == []
            case Some((f, rest)) => |rest| < |bs| && Relayable(bs) == if f.typ == CLOSE then [] else [f] + Relayable(rest)
  {
  }

  lemma AcceptedStep(script: seq<bool>, n: nat)
    requires n > 0
    ensures Accepted(script, n) ==
              if script == [] || script[0] then 1 + Accepted(if script == [] then [] else script[1..], n - 1) else 0
  {
  }

  // ---------------------------------------------------------------- client to agent

  /** The client message types that are passed on to the agent. */
  predicate Forwards(typ: byte) {
    typ == DATA || typ == RESIZE || typ == PING || typ == PONG || typ == CLOSE || typ == KEY_INIT || typ == KEY_ACK
  }

  /** The client's non-empty messages of forwarded types, up to and including the first CLOSE. */
  function Forwarded(ms: seq<seq<byte>>): seq<Frame> {
    if ms == [] then []
    else if ms[0] == [] || !Forwards(ms[0][0]) then Forwarded(ms[1..])
    else
      var f := Frame(ms[0][0], ms[0][1..]);
      if f.typ == CLOSE then [f] else [f] + Forwarded(ms[1..])
  }

  /** The bridge's own bound: one byte more than the agent's reader takes. */
  predicate Writable(f: Frame) {
    |f.payload| <= MAX_FRAME_SIZE
  }

  function Wire(f: Frame): seq<byte>
    requires Writable(f)
  {
    BigEndian32(1 + |f.payload|) + [f.typ] + f.payload
  }

  /** The writes to the agent's stdin; a frame over the bound is refused. */
  function StdinWrites(fs: seq<Frame>): seq<seq<byte>> {
    if fs == [] then []
    else (if Writable(fs[0]) then [Wire(fs[0])] else []) + StdinWrites(fs[1..])
  }

  /** The writes that go through; the bridge carries on after one that fails. */
  function Survivors(chunks: seq<seq<byte>>, script: seq<bool>): seq<seq<byte>> {
    if chunks == [] then []
    else if script == [] then chunks
    else (if script[0] then [chunks[0]] else []) + Survivors(chunks[1..], script[1..])
  }

  /** Builds the frame in a buffer and hands it to the agent in one write. */
  method WriteAgentStdinFrame(w: Writer, typ: byte, payload: seq<byte>) returns (ok: bool)
    modifies w
    ensures !Writable(Frame(typ, payload)) ==> !ok && w.chunks == old(w.chunks) && w.script == old(w.script)
    ensures Writable(Frame(typ, payload)) ==>
              && ok == (old(w.script) == [] || old(w.script)[0])
              && w.chunks == (if ok then old(w.chunks) + [Wire(Frame(typ, payload))] else old(w.chunks))
              && w.script == (if old(w.script) == [] then [] else old(w.script)[1..])
  {
    if |payload| > MAX_FRAME_SIZE {
      return false;
    }
    var frame := new byte[4 + 1 + |payload|];
    var length := BigEndian32(1 + |payload|);
    forall i | 0 <= i < 4 {
      frame[i] := length[i];
    }
    frame[4] := typ;
    forall i | 0 <= i < |payload| {
      frame[5 + i] := payload[i];
    }
    assert frame[..] == Wire(Frame(typ, payload));
    ok := w.Write(frame[..]);
  }

  /** The agent-mode loop. `received` counts the DATA payload bytes taken from the client. */
  method BridgeToAgent(ms: seq<seq<byte>>, w: Writer) returns (received: nat)
    modifies w
    ensures w.chunks == old(w.chunks) + Survivors(StdinWrites(Forwarded(ms)), old(w.script))
    ensures received == DataBytes(Forwarded(ms))
    ensures old(w.script) == [] && WithinLimit(ms) ==> Delivers(w.chunks[|old(w.chunks)|..], ms)
  {
    hide Survivors, StdinWrites, Wire, Writable, Delivers, WithinLimit;
    UnfailingWritesDeliver(ms);
    assert (w.chunks + Survivors(StdinWrites(Forwarded(ms)), w.script))[|w.chunks|..] ==
           Survivors(StdinWrites(Forwarded(ms)), w.script);
    NoStdin(w.script);
    received := 0;
    ghost var all := Forwarded(ms);
    for i := 0 to |ms|
      invariant old(w.chunks) + Survivors(StdinWrites(all), old(w.script)) ==
                w.chunks + Survivors(StdinWrites(Forwarded(ms[i..])), w.script)
      invariant DataBytes(all) == received + DataBytes(Forwarded(ms[i..]))
    {
      var message := ms[i];
      assert ms[i..][1..] == ms[i + 1..];
      if |message| == 0 {
        continue;
      }
      var typ, data := message[0], message[1..];
      if !Forwards(typ) {
        continue;
      }
      ghost var f, rest := Frame(typ, data), Forwarded(ms[i + 1..]);
      ghost var now := Forwarded(ms[i..]);
      assert now == if typ == CLOSE then [f] else [f] + rest;
      assert now[0] == f && now[1..] == if typ == CLOSE then [] else rest;
      StdinStep(now, w.script);
      NoStdin(if w.script == [] then [] else w.script[1..]);
      NoStdin(w.script);
      var ok := WriteAgentStdinFrame(w, typ, data);
      if typ == DATA {
        received := received + |data|;
      }
      if typ == CLOSE {
        return;
      }
    }
    assert ms[|ms|..] == [];
    NoStdin(w.script);
  }

  lemma NoStdin(script: seq<bool>)
    ensures Survivors(StdinWrites([]), script) == []
  {
  }

  /** One more message: its write, then the writes behind it. */
  lemma StdinStep(fs: seq<Frame>, script: seq<bool>)
    requires fs != []
    ensures var rest := StdinWrites(fs[1..]);
            Survivors(StdinWrites(fs), script) ==
              if !Writable(fs[0]) then Survivors(rest, script)
              else (if script == [] || script[0] then [Wire(fs[0])] else [])
                   + Survivors(rest, if script == [] then [] else script[1..])
  {
    var chunks := StdinWrites(fs);
    if Writable(fs[0]) {
      assert chunks[0] == Wire(fs[0]) && chunks[1..] == StdinWrites(fs[1..]);
      if script == [] {
        assert Survivors(chunks[1..], []) == chunks[1..];
        assert chunks == [chunks[0]] + chunks[1..];
      }
    } else {
      assert chunks == StdinWrites(fs[1..]);
    }
  }

  /** What the agent reads off its stdin when every write goes through. */
  function AgentReads(ms: seq<seq<byte>>): seq<Frame> {
    ReadAll(Concat(StdinWrites(Forwarded(ms))))
  }

  /** Reads never invent a frame, and lose none exactly if every frame fits the reader. */
  lemma {:induction false} ReadsStdinIffSmall(fs: seq<Frame>)
    ensures |ReadAll(Concat(StdinWrites(fs)))| <= |fs|
    ensures ReadAll(Concat(StdinWrites(fs))) == fs <==> AllSmall(fs)
  {
    if fs != [] {
      ReadsStdinIffSmall(fs[1..]);
      var chunks := StdinWrites(fs);
      var rest := Concat(StdinWrites(fs[1..]));
      if fs[0].Small() {
        assert chunks[0] == Wire(fs[0]) && chunks[1..] == StdinWrites(fs[1..]);
        assert Concat(chunks) == Encode(fs[0]) + rest;
        ParseIffEncoded(Concat(chunks), fs[0], rest);
        assert ReadAll(Concat(chunks)) == [fs[0]] + ReadAll(rest);
        assert fs == [fs[0]] + fs[1..];
        assert AllSmall(fs) <==> AllSmall(fs[1..]) by {
          assert forall i :: 0 < i < |fs| ==> fs[i] == fs[1..][i - 1];
        }
      } else if Writable(fs[0]) {
        assert chunks[0] == Wire(fs[0]) && chunks[1..] == StdinWrites(fs[1..]);
        LengthRoundTrip(1 + |fs[0].payload|);
        assert Concat(chunks)[..4] == BigEndian32(1 + |fs[0].payload|);
        assert Parse(Concat(chunks)) == None;
      } else {
        assert chunks == StdinWrites(fs[1..]);
      }
    }
  }

  /** A message of a type the bridge knows: DATA, RESIZE, PING, PONG, CLOSE, KEY_INIT or KEY_ACK. */
  predicate Passes(m: seq<byte>) {
    m != [] && m[0] in {1, 2, 3, 4, 5, 7, 8}
  }

  predicate Closes(m: seq<byte>) {
    m != [] && m[0] == 5
  }

  /** The first `n` messages are those up to and including the first CLOSE, or all if there is none. */
  predicate UpToClose(ms: seq<seq<byte>>, n: nat) {
    && n <= |ms|
    && (forall i :: 0 <= i < n - 1 ==> !Closes(ms[i]))
    && (n < |ms| ==> n > 0 && Closes(ms[n - 1]))
  }

  lemma FilterOne(m: seq<byte>)
    ensures Filter([m], Passes) == if Passes(m) then [m] else []
  {
    assert [m][..0] == [];
  }

  lemma CloseIsLast(ms: seq<seq<byte>>)
    requires ms != [] && Closes(ms[0])
    ensures Messages(Forwarded(ms)) == [ms[0]]
  {
    var f := Frame(ms[0][0], ms[0][1..]);
    assert Forwarded(ms) == [f] && Message(f) == ms[0];
  }

  /** What is forwarded is each message of a known type up to the first CLOSE, unchanged and in order, and no other. */
  lemma {:induction false} ForwardedIsFilter(ms: seq<seq<byte>>) returns (n: nat)
    ensures UpToClose(ms, n) && Messages(Forwarded(ms)) == Filter(ms[..n], Passes)
  {
    if ms == [] {
      n := 0;
    } else {
      FilterOne(ms[0]);
      hide Filter, Messages;
      if Closes(ms[0]) {
        n := 1;
        CloseIsLast(ms);
        assert ms[..1] == [ms[0]];
      } else {
        MessagesStep(ms);
        hide Forwarded;
        var m := ForwardedIsFilter(ms[1..]);
        n := m + 1;
        assert ms[..n] == [ms[0]] + ms[1..][..m];
        FilterJoins([ms[0]], ms[1..][..m], Passes);
        assert forall i :: 0 < i < |ms| ==> ms[1..][i - 1] == ms[i];
      }
    }
  }

  lemma MessagesStep(ms: seq<seq<byte>>)
    requires ms != [] && !Closes(ms[0])
    ensures Messages(Forwarded(ms)) == (if Passes(ms[0]) then [ms[0]] else []) + Messages(Forwarded(ms[1..]))
  {
    if Passes(ms[0]) {
      var fs := Forwarded(ms);
      assert fs[1..] == Forwarded(ms[1..]);
      assert Message(fs[0]) == ms[0];
    }
  }

  lemma MessagesAreInjective(a: seq<Frame>, b: seq<Frame>)
    requires Messages(a) == Messages(b)
    ensures a == b
  {
    forall i | 0 <= i < |a|
      ensures a[i] == b[i]
    {
      assert Message(a[i]) == Message(b[i]);
      assert a[i].payload == Message(a[i])[1..] && b[i].payload == Message(b[i])[1..];
      assert a[i].typ == Message(a[i])[0] && b[i].typ == Message(b[i])[0];
    }
  }

  predicate Fits(ms: seq<seq<byte>>, n: nat) {
    forall i :: 0 <= i < n <= |ms| && Passes(ms[i]) ==> |ms[i]| <= 0x10_0000
  }

  lemma SmallIffShort(fs: seq<Frame>)
    ensures AllSmall(fs) <==> forall m :: m in Messages(fs) ==> |m| <= 0x10_0000
  {
    var ms := Messages(fs);
    forall i | 0 <= i < |fs|
      ensures fs[i].Small() <==> |ms[i]| <= 0x10_0000
    {
      assert ms[i] == [fs[i].typ] + fs[i].payload;
    }
    hide Messages;
    if forall m :: m in ms ==> |m| <= 0x10_0000 {
      assert forall i :: 0 <= i < |ms| ==> ms[i] in ms;
    }
  }

  lemma FitsIffSmall(ms: seq<seq<byte>>, n: nat)
    requires n <= |ms| && Messages(Forwarded(ms)) == Filter(ms[..n], Passes)
    ensures Fits(ms, n) <==> AllSmall(Forwarded(ms))
  {
    hide Forwarded, Filter, Messages, AllSmall, Passes;
    SmallIffShort(Forwarded(ms));
    FilterHas(ms[..n], Passes);
    forall i | 0 <= i < n
      ensures ms[i] in ms[..n]
    {
      assert ms[..n][i] == ms[i];
    }
  }

  /**
   The agent sees exactly what the client sent, unchanged and in order, if and only
   if no forwarded message is over 1 MiB with its type: with a payload of exactly
   1 MiB the bridge writes a frame the agent refuses, and above that it writes nothing.
   */
  lemma AgentSeesClientIff(ms: seq<seq<byte>>) returns (n: nat)
    ensures AgentReads(ms) == Forwarded(ms) <==> AllSmall(Forwarded(ms))
    ensures UpToClose(ms, n)
    ensures Messages(AgentReads(ms)) == Filter(ms[..n], Passes) <==> Fits(ms, n)
  {
    ReadsStdinIffSmall(Forwarded(ms));
    n := ForwardedIsFilter(ms);
    FitsIffSmall(ms, n);
    hide AgentReads, Forwarded, Fits, Filter, Messages;
    if Messages(AgentReads(ms)) == Messages(Forwarded(ms)) {
      MessagesAreInjective(AgentReads(ms), Forwarded(ms));
    }
  }

  /** The WebSocket read limit. */
  const READ_LIMIT: nat := 64 * 1024

  predicate WithinLimit(ms: seq<seq<byte>>) {
    forall i :: 0 <= i < |ms| ==> |ms[i]| <= READ_LIMIT
  }

  lemma {:induction false} LimitKeepsFramesSmall(ms: seq<seq<byte>>)
    requires WithinLimit(ms)
    ensures AllSmall(Forwarded(ms))
  {
    if ms != [] {
      LimitKeepsFramesSmall(ms[1..]);
    }
  }

  /** Within the WebSocket read limit the pipe is transparent. */
  lemma AgentSeesClient(ms: seq<seq<byte>>) returns (n: nat, at: seq<int>)
    requires WithinLimit(ms)
    ensures AgentReads(ms) == Forwarded(ms)
    ensures UpToClose(ms, n) && Picks(ms[..n], Messages(AgentReads(ms)), Passes, at)
  {
    LimitKeepsFramesSmall(ms);
    ReadsStdinIffSmall(Forwarded(ms));
    n := ForwardedIsFilter(ms);
    hide Forwarded, AgentReads;
    at := FilterPicks(ms[..n], Passes);
  }

  /** Read back, the writes are the client's messages of known types up to the first CLOSE. */
  ghost predicate Delivers(chunks: seq<seq<byte>>, ms: seq<seq<byte>>) {
    exists n: nat :: UpToClose(ms, n) && Messages(ReadAll(Concat(chunks))) == Filter(ms[..n], Passes)
  }

  lemma UnfailingWritesDeliver(ms: seq<seq<byte>>)
    ensures WithinLimit(ms) ==> Delivers(Survivors(StdinWrites(Forwarded(ms)), []), ms)
  {
    if WithinLimit(ms) {
      LimitKeepsFramesSmall(ms);
      ReadsStdinIffSmall(Forwarded(ms));
      var n := ForwardedIsFilter(ms);
      assert Survivors(StdinWrites(Forwarded(ms)), []) == StdinWrites(Forwarded(ms));
    }
  }

  /** From each message the client can tell the type and the payload of the frame relayed; the last one, and only the last, is a CLOSE. */
  lemma ClientSeesAgent(bs: seq<byte>)
    ensures var out, fs := Outgoing(bs), Relayable(bs);
            && |out| == |fs| + 1
            && (forall k :: 0 <= k < |fs| ==> out[k] != [] && out[k][0] == fs[k].typ && out[k][1..] == fs[k].payload)
            && (forall k :: 0 <= k < |fs| ==> out[k][0] != 5)
            && Closes(out[|fs|])
  {
    var tail := RelayableSplits(bs);
    hide Relayable, EncodeAll, Ends;
  }

  /** Each write goes through or not on its own, whatever became of those before it. */
  lemma {:induction false} SurvivorsSnoc(chunks: seq<seq<byte>>, chunk: seq<byte>, script: seq<bool>)
    ensures Survivors([], script) == []
    ensures Survivors(chunks + [chunk], script) ==
              Survivors(chunks, script) + if |chunks| >= |script| || script[|chunks|] then [chunk] else []
  {
    if chunks == [] {
      assert [chunk][1..] == [];
    } else if script != [] {
      assert (chunks + [chunk])[1..] == chunks[1..] + [chunk];
      SurvivorsSnoc(chunks[1..], chunk, script[1..]);
    }
  }
}
