/**
 * USB-style packet bursts, shared by the GC2 simulator and the packet-loss
 * stress tester: an encoded message is cut into chunks of at most
 * `packet_size` bytes, `encoded[offset : offset + packet_size]` for
 * offset 0, size, 2*size, ..., and each chunk is written to one client.
 *
 * What the programs do that a client or the clock can observe is a trace
 * of `Event`s: a packet written to a client, or a sleep of some
 * milliseconds (`Sleep(ms)` stands for `asyncio.sleep(ms / 1000)`).
 */
module Packets {
  import opened Text

  /** A usable packet size; the loops do not end for a size of 0 or less. */
  type PacketSize = n: nat | n >= 1 witness 64

  /** `GC2_BUFFER_SIZE`, the USB packet size of the launch monitor, and both tools' default. */
  const Gc2BufferSize: PacketSize := 64

  datatype Event = Packet(client: nat, bytes: seq<byte>) | Sleep(ms: real)

  function Min(a: int, b: int): int {
    if a <= b then a else b
  }

  /** The chunks the sending loop cuts `b` into. */
  function Chunks(b: seq<byte>, size: PacketSize): seq<seq<byte>>
    decreases |b|
  {
    if |b| == 0 then []
    else if |b| <= size then [b]
    else [b[..size]] + Chunks(b[size..], size)
  }

  function Flatten(cs: seq<seq<byte>>): seq<byte> {
    if cs == [] then [] else cs[0] + Flatten(cs[1..])
  }

  /** The chunks, joined in order, are the message. */
  lemma {:induction false} ChunksReassemble(b: seq<byte>, size: PacketSize)
    ensures Flatten(Chunks(b, size)) == b
    decreases |b|
  {
    if |b| > size {
      var cs := Chunks(b, size);
      ChunksReassemble(b[size..], size);
      assert cs[0] == b[..size] && cs[1..] == Chunks(b[size..], size);
      assert b == b[..size] + b[size..];
    }
  }

  /** Every chunk but the last has exactly `size` bytes; the last has 1 to `size`. */
  lemma {:induction false} ChunksSizes(b: seq<byte>, size: PacketSize)
    ensures var cs := Chunks(b, size);
      (forall i :: 0 <= i < |cs| - 1 ==> |cs[i]| == size)
      && (cs != [] ==> 1 <= |cs[|cs| - 1]| <= size)
    decreases |b|
  {
    if |b| > size {
      var cs := Chunks(b, size);
      var tail := Chunks(b[size..], size);
      ChunksSizes(b[size..], size);
      assert cs == [b[..size]] + tail;
      assert tail != [];
      forall i | 0 <= i < |cs| - 1 ensures |cs[i]| == size {
        if i > 0 {
          assert cs[i] == tail[i - 1];
        }
      }
      assert cs[|cs| - 1] == tail[|tail| - 1];
    }
  }

  /**
   * There are ceil(len / size) chunks: the fewest whose `size` bytes each
   * cover the message, and none for an empty message.
   */
  lemma {:induction false} ChunksCount(b: seq<byte>, size: PacketSize)
    ensures var n := |Chunks(b, size)|; |b| <= n * size && (n > 0 ==> (n - 1) * size < |b|)
    ensures |Chunks(b, size)| == 0 <==> |b| == 0
    decreases |b|
  {
    if |b| > size {
      var t := |Chunks(b[size..], size)|;
      ChunksCount(b[size..], size);
      assert (t + 1) * size == t * size + size;
      assert t * size == (t - 1) * size + size;
    }
  }

  /** The events of sending chunks to one client: one packet per chunk, `gap` between consecutive packets. */
  function Burst(client: nat, cs: seq<seq<byte>>, gap: seq<Event>): seq<Event> {
    if |cs| == 0 then []
    else if |cs| == 1 then [Packet(client, cs[0])]
    else [Packet(client, cs[0])] + gap + Burst(client, cs[1..], gap)
  }

  /** The bytes a trace writes to one client, in order. */
  function BytesTo(client: nat, trace: seq<Event>): seq<byte> {
    if trace == [] then []
    else (if trace[0].Packet? && trace[0].client == client then trace[0].bytes else []) + BytesTo(client, trace[1..])
  }

  function PacketCount(trace: seq<Event>): nat {
    if trace == [] then 0 else (if trace[0].Packet? then 1 else 0) + PacketCount(trace[1..])
  }

  function SleepCount(trace: seq<Event>): nat {
    if trace == [] then 0 else (if trace[0].Sleep? then 1 else 0) + SleepCount(trace[1..])
  }

  /** The bytes a trace writes, over all clients. */
  function ByteCount(trace: seq<Event>): nat {
    if trace == [] then 0 else (if trace[0].Packet? then |trace[0].bytes| else 0) + ByteCount(trace[1..])
  }

  lemma {:induction false} TraceAppend(a: seq<Event>, b: seq<Event>)
    ensures forall c :: BytesTo(c, a + b) == BytesTo(c, a) + BytesTo(c, b)
    ensures PacketCount(a + b) == PacketCount(a) + PacketCount(b)
    ensures SleepCount(a + b) == SleepCount(a) + SleepCount(b)
    ensures ByteCount(a + b) == ByteCount(a) + ByteCount(b)
  {
    if a == [] {
      assert a + b == b;
    } else {
      assert (a + b)[0] == a[0] && (a + b)[1..] == a[1..] + b;
      TraceAppend(a[1..], b);
      forall c ensures BytesTo(c, a + b) == BytesTo(c, a) + BytesTo(c, b) {
        var h := if a[0].Packet? && a[0].client == c then a[0].bytes else [];
        assert BytesTo(c, a + b) == h + (BytesTo(c, a[1..]) + BytesTo(c, b));
      }
    }
  }

  /** A gap that only sleeps. */
  predicate OnlySleeps(gap: seq<Event>) {
    forall i :: 0 <= i < |gap| ==> gap[i].Sleep?
  }

  lemma {:induction false} SleepsCarryNothing(gap: seq<Event>)
    requires OnlySleeps(gap)
    ensures forall c :: BytesTo(c, gap) == []
    ensures PacketCount(gap) == 0 && ByteCount(gap) == 0 && SleepCount(gap) == |gap|
  {
    if gap != [] {
      SleepsCarryNothing(gap[1..]);
    }
  }

  /**
   * A burst delivers exactly the chunks, in order, to its client and nothing
   * to anyone else; it writes one packet per chunk and sleeps between
   * packets only.
   */
  lemma {:induction false} BurstDelivers(client: nat, cs: seq<seq<byte>>, gap: seq<Event>)
    requires OnlySleeps(gap)
    ensures forall c :: BytesTo(c, Burst(client, cs, gap)) == if c == client then Flatten(cs) else []
    ensures PacketCount(Burst(client, cs, gap)) == |cs|
    ensures ByteCount(Burst(client, cs, gap)) == |Flatten(cs)|
    ensures SleepCount(Burst(client, cs, gap)) == if cs == [] then 0 else (|cs| - 1) * |gap|
  {
    SleepsCarryNothing(gap);
    if |cs| == 1 {
      assert Flatten(cs) == cs[0] + Flatten(cs[1..]);
      assert Burst(client, cs, gap) == [Packet(client, cs[0])];
      assert forall c :: BytesTo(c, [Packet(client, cs[0])]) == (if c == client then cs[0] else []) + BytesTo(c, []);
    } else if |cs| > 1 {
      var head: seq<Event> := [Packet(client, cs[0])];
      var rest := Burst(client, cs[1..], gap);
      BurstDelivers(client, cs[1..], gap);
      TraceAppend(head, gap);
      TraceAppend(head + gap, rest);
      assert forall c :: BytesTo(c, head) == (if c == client then cs[0] else []) + BytesTo(c, []);
      assert Burst(client, cs, gap) == head + gap + rest;
      assert (|cs| - 2) * |gap| + |gap| == (|cs| - 1) * |gap|;
    }
  }

  /** A non-empty message has one chunk more than what is left after its first chunk. */
  lemma ChunksHead(r: seq<byte>, size: PacketSize)
    requires |r| > 0
    ensures |Chunks(r, size)| == 1 + |Chunks(if |r| > size then r[size..] else [], size)|
  {
  }

  /** The burst of a message is its chunks, followed by the chunks of what is left. */
  lemma BurstHead(client: nat, r: seq<byte>, size: PacketSize, gap: seq<Event>)
    requires |r| > 0
    ensures var rest := if |r| > size then r[size..] else [];
      Burst(client, Chunks(r, size), gap) ==
        [Packet(client, r[..Min(size, |r|)])] + (if rest == [] then [] else gap + Burst(client, Chunks(rest, size), gap))
  {
    if |r| > size {
      var tail := Chunks(r[size..], size);
      assert tail != [] by {
        ChunksCount(r[size..], size);
      }
      assert Chunks(r, size)[1..] == tail;
    } else {
      assert r[..|r|] == r;
    }
  }

  /** What is left to send once `offset` bytes have gone out. */
  function Rest(encoded: seq<byte>, offset: nat): seq<byte> {
    if offset < |encoded| then encoded[offset..] else []
  }

  /**
   * One pass of a sending loop: the chunk at `offset` goes out, then the gap
   * if bytes remain, and the burst of the rest follows; the rest has one
   * chunk fewer.
   */
  lemma BurstStep(before: seq<Event>, client: nat, encoded: seq<byte>, offset: nat, size: PacketSize, gap: seq<Event>)
    requires offset < |encoded|
    ensures var next := offset + size;
      before + Burst(client, Chunks(Rest(encoded, offset), size), gap)
        == (before + [Packet(client, encoded[offset..Min(next, |encoded|)])] + (if next < |encoded| then gap else []))
           + Burst(client, Chunks(Rest(encoded, next), size), gap)
    ensures |Chunks(Rest(encoded, offset), size)| == 1 + |Chunks(Rest(encoded, offset + size), size)|
  {
    var r := encoded[offset..];
    var next := offset + size;
    var chunk := encoded[offset..Min(next, |encoded|)];
    BurstHead(client, r, size, gap);
    ChunksHead(r, size);
    assert chunk == r[..Min(size, |r|)];
    var later := Burst(client, Chunks(Rest(encoded, next), size), gap);
    if next < |encoded| {
      assert r[size..] == encoded[next..];
      SeqConcatAssoc([Packet(client, chunk)], gap, later);
      SeqConcatAssoc(before, [Packet(client, chunk)] + gap, later);
      SeqConcatAssoc(before, [Packet(client, chunk)], gap);
    } else {
      assert later == [];
      assert before + [Packet(client, chunk)] + [] == before + [Packet(client, chunk)];
    }
  }
}
