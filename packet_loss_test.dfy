/**
 * The packet-loss stress tester (`tools/packet_loss_test.py`): it fires a
 * run of numbered shots at every connected client, each as an early
 * reading (no spin) and a final reading (with spin), cut into USB-sized
 * packets sent with an aggressive inter-packet delay, and it keeps
 * statistics of what it sent.
 *
 * Each shot's spin is derived from its id (back 2500 + id, side -200 + id)
 * so that a receiver can tell which shot a reading belongs to; the other
 * readings are random and appear here as the text they are formatted to.
 * The message format is the one of the GC2 simulator, with `HMT=0`.
 */
module PacketLossTest {
  import opened Text
  import opened Packets
  import G = Gc2Simulator

  // The message.

  /** The `0H` lines, in order: the head, the spins when asked for, the ball position and `HMT=0`. */
  function ShotFields(shotId: int, speed: string, launch: string, direction: string, backSpin: string,
                      sideSpin: string, totalSpin: string, msec: int, includeSpin: bool): seq<G.Field>
  {
    [ G.Field(G.ShotId, IntToDecimal(shotId)),
      G.Field(G.TimeSec, "0"),
      G.Field(G.MsecSinceContact, IntToDecimal(msec)),
      G.Field(G.SpeedMph, speed),
      G.Field(G.AzimuthDeg, direction),
      G.Field(G.ElevationDeg, launch),
      G.Field(G.SpinRpm, totalSpin) ]
    + (if includeSpin then [G.Field(G.BackRpm, backSpin), G.Field(G.SideRpm, sideSpin)] else [])
    + [ G.Field(G.IsLeft, "0"),
        G.Field(G.WorldStartX, "-53.53"),
        G.Field(G.WorldStartY, "91.40"),
        G.Field(G.WorldStartZ, "-477.94"),
        G.Field(G.Hmt, "0") ]
  }

  /** `_build_shot_message`: the lines joined by newlines, then "\n\t". */
  function BuildShotMessage(shotId: int, speed: string, launch: string, direction: string, backSpin: string,
                            sideSpin: string, totalSpin: string, msec: int, includeSpin: bool): string
  {
    G.Render(G.Message("0H", ShotFields(shotId, speed, launch, direction, backSpin, sideSpin, totalSpin, msec, includeSpin)))
  }

  /** The same readings as a GC2 simulator shot without club data. */
  function AsSimulatorShot(shotId: int, speed: string, launch: string, direction: string, backSpin: string,
                           sideSpin: string, totalSpin: string): G.ShotData
  {
    G.ShotData(shotId, G.Ball(speed, launch, direction, totalSpin, backSpin, sideSpin), None, None, None, None)
  }

  /** The tester writes exactly the message the GC2 simulator writes for a shot without club data. */
  lemma SameAsSimulator(shotId: int, speed: string, launch: string, direction: string, backSpin: string,
                        sideSpin: string, totalSpin: string, msec: int, includeSpin: bool)
    ensures var shot := AsSimulatorShot(shotId, speed, launch, direction, backSpin, sideSpin, totalSpin);
      ShotFields(shotId, speed, launch, direction, backSpin, sideSpin, totalSpin, msec, includeSpin)
        == G.ShotFields(shot, msec, includeSpin)
      && BuildShotMessage(shotId, speed, launch, direction, backSpin, sideSpin, totalSpin, msec, includeSpin)
        == G.BuildShotMessage(shot, msec, includeSpin)
  {
    var shot := AsSimulatorShot(shotId, speed, launch, direction, backSpin, sideSpin, totalSpin);
    var h := G.HeadFields(shot, msec);
    var s := G.SpinFields(shot, includeSpin);
    assert G.ClubFields(shot) == [G.Field(G.Hmt, "0")];
    SeqConcatAssoc(h + s, G.PositionFields, [G.Field(G.Hmt, "0")]);
  }

  /**
   * What the message carries: the shot id and time since contact, back and
   * side spin exactly when spin is included, `HMT=0` and no club speed.
   */
  lemma ShotMessageContents(shotId: int, speed: string, launch: string, direction: string, backSpin: string,
                            sideSpin: string, totalSpin: string, msec: int, includeSpin: bool)
    ensures var fs := ShotFields(shotId, speed, launch, direction, backSpin, sideSpin, totalSpin, msec, includeSpin);
      G.Lookup(fs, G.ShotId) == Some(IntToDecimal(shotId))
      && G.Lookup(fs, G.MsecSinceContact) == Some(IntToDecimal(msec))
      && G.Lookup(fs, G.SpinRpm) == Some(totalSpin)
      && G.Lookup(fs, G.BackRpm) == (if includeSpin then Some(backSpin) else None)
      && G.Lookup(fs, G.SideRpm) == (if includeSpin then Some(sideSpin) else None)
      && G.Lookup(fs, G.Hmt) == Some("0")
      && G.Lookup(fs, G.ClubSpeedMph) == None
  {
    var shot := AsSimulatorShot(shotId, speed, launch, direction, backSpin, sideSpin, totalSpin);
    var fs := ShotFields(shotId, speed, launch, direction, backSpin, sideSpin, totalSpin, msec, includeSpin);
    SameAsSimulator(shotId, speed, launch, direction, backSpin, sideSpin, totalSpin, msec, includeSpin);
    G.ShotMessageIdentity(shot, msec, includeSpin);
    G.ShotMessageSpin(shot, msec, includeSpin);
    G.ShotMessageClub(shot, msec, includeSpin);
    assert fs[6] == G.Field(G.SpinRpm, totalSpin);
    G.LookupAt(fs, G.SpinRpm, 6);
  }

  /** The text reads back, line by line, as the header `0H` and the fields, and ends with the "\n\t" terminator. */
  lemma ShotMessageReadsBack(shotId: int, speed: string, launch: string, direction: string, backSpin: string,
                             sideSpin: string, totalSpin: string, msec: int, includeSpin: bool)
    requires G.Formatted(AsSimulatorShot(shotId, speed, launch, direction, backSpin, sideSpin, totalSpin))
    ensures var text := BuildShotMessage(shotId, speed, launch, direction, backSpin, sideSpin, totalSpin, msec, includeSpin);
      G.ParseMessage(text) == Some(G.Reading("0H", G.Pairs(ShotFields(shotId, speed, launch, direction, backSpin,
                                                                       sideSpin, totalSpin, msec, includeSpin))))
      && |text| >= 2 && text[|text| - 2..] == "\n\t"
  {
    var shot := AsSimulatorShot(shotId, speed, launch, direction, backSpin, sideSpin, totalSpin);
    SameAsSimulator(shotId, speed, launch, direction, backSpin, sideSpin, totalSpin, msec, includeSpin);
    G.ShotMessageReadsBack(shot, msec, includeSpin);
  }

  // The tracked spin values of a run.

  function Abs(x: int): nat {
    if x < 0 then -x else x
  }

  /** `back_spin = 2500.0 + shot_id`. */
  function BackSpin(shotId: int): int {
    2500 + shotId
  }

  /** `side_spin = -200.0 + shot_id`. */
  function SideSpin(shotId: int): int {
    -200 + shotId
  }

  /** `total_spin = back_spin + abs(side_spin)`. */
  function TotalSpin(shotId: int): int {
    BackSpin(shotId) + Abs(SideSpin(shotId))
  }

  /** The random readings of one shot, as formatted with two decimals: speed, launch angle, direction. */
  datatype Draw = Draw(speed: string, launch: string, direction: string)

  /** A shot's reading of the run; the integral spins are written by `:.0f` as plain decimals. */
  function Reading(shotId: int, d: Draw, msec: int, includeSpin: bool): string {
    BuildShotMessage(shotId, d.speed, d.launch, d.direction, IntToDecimal(BackSpin(shotId)),
                     IntToDecimal(SideSpin(shotId)), IntToDecimal(TotalSpin(shotId)), msec, includeSpin)
  }

  function EarlyReading(shotId: int, d: Draw): string {
    Reading(shotId, d, 200, false)
  }

  function FinalReading(shotId: int, d: Draw): string {
    Reading(shotId, d, 1000, true)
  }

  /** The fields of the final reading carry the shot's tracked spins; the early reading carries none. */
  lemma TrackedSpins(shotId: int, d: Draw)
    ensures var fs := ShotFields(shotId, d.speed, d.launch, d.direction, IntToDecimal(BackSpin(shotId)),
                                 IntToDecimal(SideSpin(shotId)), IntToDecimal(TotalSpin(shotId)), 1000, true);
      G.Lookup(fs, G.BackRpm) == Some(IntToDecimal(2500 + shotId))
      && G.Lookup(fs, G.SideRpm) == Some(IntToDecimal(shotId - 200))
      && G.Lookup(fs, G.SpinRpm) == Some(IntToDecimal(2500 + shotId + Abs(shotId - 200)))
    ensures var fs := ShotFields(shotId, d.speed, d.launch, d.direction, IntToDecimal(BackSpin(shotId)),
                                 IntToDecimal(SideSpin(shotId)), IntToDecimal(TotalSpin(shotId)), 200, false);
      G.Lookup(fs, G.BackRpm) == None && G.Lookup(fs, G.SideRpm) == None
  {
    ShotMessageContents(shotId, d.speed, d.launch, d.direction, IntToDecimal(BackSpin(shotId)),
                        IntToDecimal(SideSpin(shotId)), IntToDecimal(TotalSpin(shotId)), 1000, true);
    ShotMessageContents(shotId, d.speed, d.launch, d.direction, IntToDecimal(BackSpin(shotId)),
                        IntToDecimal(SideSpin(shotId)), IntToDecimal(TotalSpin(shotId)), 200, false);
  }

  /**
   * The spin texts identify the shot: two shots whose final readings carry
   * the same `BACK_RPM` (or the same `SIDE_RPM`) text are the same shot.
   */
  lemma SpinTextIdentifiesShot(i: int, j: int)
    ensures IntToDecimal(BackSpin(i)) == IntToDecimal(BackSpin(j)) ==> i == j
    ensures IntToDecimal(SideSpin(i)) == IntToDecimal(SideSpin(j)) ==> i == j
  {
    DecimalRoundTrip(BackSpin(i));
    DecimalRoundTrip(BackSpin(j));
    DecimalRoundTrip(SideSpin(i));
    DecimalRoundTrip(SideSpin(j));
  }

  // The statistics and the tester.

  /** `StressTestStats` without its wall-clock start time. */
  datatype Stats = Stats(shotsSent: nat, earlyReadingsSent: nat, finalReadingsSent: nat,
                         packetsSent: nat, bytesSent: nat)

  const FreshStats := Stats(0, 0, 0, 0, 0)

  /** `range(1, num_shots + 1)` has this many shots. */
  function ShotsIn(numShots: int): nat {
    if numShots > 0 then numShots else 0
  }

  class StressTester {
    const packetSize: PacketSize
    const packetDelayMs: real
    const interShotDelayMs: real
    var stats: Stats
    /** The connected clients (their writers), in connection order. */
    var clients: seq<nat>
    /** Everything written and slept so far. */
    var trace: seq<Event>

    constructor(packetSize: PacketSize, packetDelayMs: real, interShotDelayMs: real)
      ensures this.packetSize == packetSize && this.packetDelayMs == packetDelayMs
      ensures this.interShotDelayMs == interShotDelayMs
      ensures stats == FreshStats && clients == [] && trace == []
    {
      this.packetSize := packetSize;
      this.packetDelayMs := packetDelayMs;
      this.interShotDelayMs := interShotDelayMs;
      stats := FreshStats;
      clients := [];
      trace := [];
    }

    /** What is slept between two packets: the packet delay, and nothing when it is not positive. */
    function Gap(): seq<Event> {
      if packetDelayMs > 0.0 then [Sleep(packetDelayMs)] else []
    }

    /** The packets of one message to one client. */
    function PacketTrace(client: nat, data: string): seq<Event> {
      Burst(client, Chunks(Utf8Encode(data), packetSize), Gap())
    }

    /**
     * One message's packets carry exactly its encoding to its client, one
     * packet per chunk, and sleep between packets only when the delay is
     * positive.
     */
    lemma PacketTraceDelivers(client: nat, data: string)
      ensures var t := PacketTrace(client, data);
        (forall c :: BytesTo(c, t) == if c == client then Utf8Encode(data) else [])
        && PacketCount(t) == |Chunks(Utf8Encode(data), packetSize)|
        && ByteCount(t) == |Utf8Encode(data)|
        && SleepCount(t) == if packetDelayMs > 0.0 && PacketCount(t) > 0 then PacketCount(t) - 1 else 0
    {
      var cs := Chunks(Utf8Encode(data), packetSize);
      assert OnlySleeps(Gap());
      BurstDelivers(client, cs, Gap());
      ChunksReassemble(Utf8Encode(data), packetSize);
    }

    /** A client connects: its writer joins the list; nothing is sent to it until a run. */
    method Connect(client: nat)
      modifies this`clients
      ensures clients == old(clients) + [client]
    {
      clients := clients + [client];
    }

    /** A client disconnects: its writer leaves the list if it is still there. */
    method Disconnect(client: nat)
      modifies this`clients
      ensures clients == if client in old(clients) then RemoveFirst(old(clients), client) else old(clients)
    {
      if client in clients {
        clients := RemoveFirst(clients, client);
      }
    }

    /** `_send_packets`: writes the chunks, sleeps between them, and adds what it sent to the statistics. */
    method SendPackets(client: nat, data: string) returns (count: nat)
      modifies this`trace, this`stats
      ensures count == |Chunks(Utf8Encode(data), packetSize)|
      ensures trace == old(trace) + PacketTrace(client, data)
      ensures stats == old(stats).(packetsSent := old(stats).packetsSent + count,
                                   bytesSent := old(stats).bytesSent + |Utf8Encode(data)|)
    {
      var encoded := Utf8Encode(data);
      var gap := Gap();
      var offset := 0;
      count := 0;
      while offset < |encoded|
        invariant 0 <= offset
        invariant old(trace) + Burst(client, Chunks(encoded, packetSize), gap)
          == trace + Burst(client, Chunks(Rest(encoded, offset), packetSize), gap)
        invariant count + |Chunks(Rest(encoded, offset), packetSize)| == |Chunks(encoded, packetSize)|
        invariant stats == old(stats)
        decreases |encoded| - offset
      {
        var chunk := encoded[offset..Min(offset + packetSize, |encoded|)];
        ghost var before := trace;
        BurstStep(before, client, encoded, offset, packetSize, gap);
        offset := offset + packetSize;
        count := count + 1;
        trace := trace + [Packet(client, chunk)];
        if offset < |encoded| && packetDelayMs > 0.0 {
          trace := trace + [Sleep(packetDelayMs)];
        }
        assert trace == before + [Packet(client, chunk)] + (if offset < |encoded| then gap else []);
      }
      stats := stats.(packetsSent := stats.packetsSent + count, bytesSent := stats.bytesSent + |encoded|);
    }

    /** One shot to one client: the early reading, 50 ms, the final reading. */
    function ClientRound(client: nat, early: string, final: string): seq<Event> {
      PacketTrace(client, early) + [Sleep(50.0)] + PacketTrace(client, final)
    }

    /** One shot to each client in turn. */
    function ShotRound(cs: seq<nat>, early: string, final: string): seq<Event> {
      if cs == [] then [] else ShotRound(cs[..|cs| - 1], early, final) + ClientRound(cs[|cs| - 1], early, final)
    }

    /** Shots 1 to n, each followed by the inter-shot delay. */
    function RunTrace(cs: seq<nat>, n: nat, draw: int -> Draw): seq<Event> {
      if n == 0 then []
      else RunTrace(cs, n - 1, draw) + ShotRound(cs, EarlyReading(n, draw(n)), FinalReading(n, draw(n)))
           + [Sleep(interShotDelayMs)]
    }

    /**
     * `run_test`: with no client it returns before touching the statistics;
     * otherwise it resets them and sends shots 1 to `num_shots`. `draw`
     * stands for the random readings of each shot.
     */
    method RunTest(numShots: int, draw: int -> Draw)
      modifies this`stats, this`trace
      ensures old(clients) == [] ==> stats == old(stats) && trace == old(trace)
      ensures old(clients) != [] ==>
        var n := ShotsIn(numShots);
        var run := RunTrace(clients, n, draw);
        trace == old(trace) + run
        && stats.shotsSent == n
        && stats.earlyReadingsSent == n * |clients| && stats.finalReadingsSent == n * |clients|
        && stats.packetsSent == PacketCount(run) && stats.bytesSent == ByteCount(run)
    {
      if clients == [] {
        return;
      }
      stats := FreshStats;
      var shotId := 1;
      while shotId <= numShots
        invariant 1 <= shotId <= ShotsIn(numShots) + 1
        invariant trace == old(trace) + RunTrace(clients, shotId - 1, draw)
        invariant stats.shotsSent == shotId - 1
        invariant stats.earlyReadingsSent == (shotId - 1) * |clients|
        invariant stats.finalReadingsSent == (shotId - 1) * |clients|
        invariant stats.packetsSent == PacketCount(RunTrace(clients, shotId - 1, draw))
        invariant stats.bytesSent == ByteCount(RunTrace(clients, shotId - 1, draw))
      {
        ghost var done := RunTrace(clients, shotId - 1, draw);
        RunShot(shotId, draw);
        RunStep(clients, shotId, draw);
        SeqConcatAssoc(old(trace), done, ShotRound(clients, EarlyReading(shotId, draw(shotId)), FinalReading(shotId, draw(shotId))) + [Sleep(interShotDelayMs)]);
        assert (shotId - 1) * |clients| + |clients| == shotId * |clients|;
        shotId := shotId + 1;
      }
      assert shotId - 1 == ShotsIn(numShots);
    }

    /** Shot n extends the run by its round and the inter-shot delay, and adds the round's packets and bytes. */
    lemma RunStep(cs: seq<nat>, n: nat, draw: int -> Draw)
      requires n >= 1
      ensures var round := ShotRound(cs, EarlyReading(n, draw(n)), FinalReading(n, draw(n)));
        RunTrace(cs, n, draw) == RunTrace(cs, n - 1, draw) + (round + [Sleep(interShotDelayMs)])
        && PacketCount(RunTrace(cs, n, draw)) == PacketCount(RunTrace(cs, n - 1, draw)) + PacketCount(round)
        && ByteCount(RunTrace(cs, n, draw)) == ByteCount(RunTrace(cs, n - 1, draw)) + ByteCount(round)
    {
      var prev := RunTrace(cs, n - 1, draw);
      var round := ShotRound(cs, EarlyReading(n, draw(n)), FinalReading(n, draw(n)));
      var pause: seq<Event> := [Sleep(interShotDelayMs)];
      TraceAppend(prev, round);
      TraceAppend(prev + round, pause);
      SeqConcatAssoc(prev, round, pause);
      assert PacketCount(pause) == 0 && ByteCount(pause) == 0;
    }

    /** One pass of `run_test`'s outer loop: shot `shotId` to every client, then the inter-shot delay. */
    method RunShot(shotId: int, draw: int -> Draw)
      modifies this`stats, this`trace
      ensures var round := ShotRound(clients, EarlyReading(shotId, draw(shotId)), FinalReading(shotId, draw(shotId)));
        trace == old(trace) + (round + [Sleep(interShotDelayMs)])
        && stats.shotsSent == old(stats).shotsSent + 1
        && stats.earlyReadingsSent == old(stats).earlyReadingsSent + |clients|
        && stats.finalReadingsSent == old(stats).finalReadingsSent + |clients|
        && stats.packetsSent == old(stats).packetsSent + PacketCount(round)
        && stats.bytesSent == old(stats).bytesSent + ByteCount(round)
    {
      var d := draw(shotId);
      SendShot(shotId, d);
      stats := stats.(shotsSent := stats.shotsSent + 1);
      trace := trace + [Sleep(interShotDelayMs)];
      SeqConcatAssoc(old(trace), ShotRound(clients, EarlyReading(shotId, d), FinalReading(shotId, d)), [Sleep(interShotDelayMs)]);
    }

    /** The inner loop of `run_test`: one shot's two readings to each client in turn. */
    method SendShot(shotId: int, d: Draw)
      modifies this`stats, this`trace
      ensures trace == old(trace) + ShotRound(clients, EarlyReading(shotId, d), FinalReading(shotId, d))
      ensures stats.shotsSent == old(stats).shotsSent
      ensures stats.earlyReadingsSent == old(stats).earlyReadingsSent + |clients|
      ensures stats.finalReadingsSent == old(stats).finalReadingsSent + |clients|
      ensures stats.packetsSent == old(stats).packetsSent + PacketCount(ShotRound(clients, EarlyReading(shotId, d), FinalReading(shotId, d)))
      ensures stats.bytesSent == old(stats).bytesSent + ByteCount(ShotRound(clients, EarlyReading(shotId, d), FinalReading(shotId, d)))
    {
      var earlyMsg := EarlyReading(shotId, d);
      var finalMsg := FinalReading(shotId, d);
      SendReadings(earlyMsg, finalMsg);
    }

    /** To each client in turn: the early reading, 50 ms, the final reading, counting both. */
    method SendReadings(early: string, final: string)
      modifies this`stats, this`trace
      ensures trace == old(trace) + ShotRound(clients, early, final)
      ensures stats.shotsSent == old(stats).shotsSent
      ensures stats.earlyReadingsSent == old(stats).earlyReadingsSent + |clients|
      ensures stats.finalReadingsSent == old(stats).finalReadingsSent + |clients|
      ensures stats.packetsSent == old(stats).packetsSent + PacketCount(ShotRound(clients, early, final))
      ensures stats.bytesSent == old(stats).bytesSent + ByteCount(ShotRound(clients, early, final))
    {
      var i := 0;
      while i < |clients|
        invariant 0 <= i <= |clients|
        invariant trace == old(trace) + ShotRound(clients[..i], early, final)
        invariant stats.shotsSent == old(stats).shotsSent
        invariant stats.earlyReadingsSent == old(stats).earlyReadingsSent + i
        invariant stats.finalReadingsSent == old(stats).finalReadingsSent + i
        invariant stats.packetsSent == old(stats).packetsSent + PacketCount(ShotRound(clients[..i], early, final))
        invariant stats.bytesSent == old(stats).bytesSent + ByteCount(ShotRound(clients[..i], early, final))
      {
        RoundStep(clients, i, early, final);
        SendPair(clients[i], early, final);
        SeqConcatAssoc(old(trace), ShotRound(clients[..i], early, final), ClientRound(clients[i], early, final));
        i := i + 1;
      }
      assert clients[..|clients|] == clients;
    }

    /** One client's turn in a shot: the early reading, 50 ms, the final reading, each counted once sent. */
    method SendPair(writer: nat, early: string, final: string)
      modifies this`stats, this`trace
      ensures trace == old(trace) + ClientRound(writer, early, final)
      ensures stats.shotsSent == old(stats).shotsSent
      ensures stats.earlyReadingsSent == old(stats).earlyReadingsSent + 1
      ensures stats.finalReadingsSent == old(stats).finalReadingsSent + 1
      ensures stats.packetsSent == old(stats).packetsSent
        + |Chunks(Utf8Encode(early), packetSize)| + |Chunks(Utf8Encode(final), packetSize)|
      ensures stats.bytesSent == old(stats).bytesSent + |Utf8Encode(early)| + |Utf8Encode(final)|
    {
      var n1 := SendPackets(writer, early);
      stats := stats.(earlyReadingsSent := stats.earlyReadingsSent + 1);
      trace := trace + [Sleep(50.0)];
      var n2 := SendPackets(writer, final);
      stats := stats.(finalReadingsSent := stats.finalReadingsSent + 1);
    }

    /** Client i extends the round by its reading pair, and adds the packets and bytes of both readings. */
    lemma RoundStep(cs: seq<nat>, i: nat, early: string, final: string)
      requires i < |cs|
      ensures var pair := ClientRound(cs[i], early, final);
        ShotRound(cs[..i + 1], early, final) == ShotRound(cs[..i], early, final) + pair
        && PacketCount(ShotRound(cs[..i + 1], early, final)) == PacketCount(ShotRound(cs[..i], early, final))
           + |Chunks(Utf8Encode(early), packetSize)| + |Chunks(Utf8Encode(final), packetSize)|
        && ByteCount(ShotRound(cs[..i + 1], early, final)) == ByteCount(ShotRound(cs[..i], early, final))
           + |Utf8Encode(early)| + |Utf8Encode(final)|
    {
      assert cs[..i + 1][..i] == cs[..i];
      ClientRoundCounts(cs[i], early, final);
      TraceAppend(ShotRound(cs[..i], early, final), ClientRound(cs[i], early, final));
    }

    /** One reading pair writes the packets and bytes of both messages, and no others. */
    lemma ClientRoundCounts(client: nat, early: string, final: string)
      ensures PacketCount(ClientRound(client, early, final))
        == |Chunks(Utf8Encode(early), packetSize)| + |Chunks(Utf8Encode(final), packetSize)|
      ensures ByteCount(ClientRound(client, early, final)) == |Utf8Encode(early)| + |Utf8Encode(final)|
    {
      var a := PacketTrace(client, early);
      var b := PacketTrace(client, final);
      var s: seq<Event> := [Sleep(50.0)];
      PacketTraceDelivers(client, early);
      PacketTraceDelivers(client, final);
      TraceAppend(a, s);
      TraceAppend(a + s, b);
    }

    /** One reading pair carries the early reading and then the final reading to its client, and nothing to anyone else. */
    lemma ClientRoundDelivers(client: nat, early: string, final: string)
      ensures forall c :: (BytesTo(c, ClientRound(client, early, final))
                           == if c == client then Utf8Encode(early) + Utf8Encode(final) else [])
    {
      var a := PacketTrace(client, early);
      var b := PacketTrace(client, final);
      var s: seq<Event> := [Sleep(50.0)];
      PacketTraceDelivers(client, early);
      PacketTraceDelivers(client, final);
      TraceAppend(a, s);
      TraceAppend(a + s, b);
      assert forall c :: BytesTo(c, s) == [] + BytesTo(c, []);
    }

    /** What one shot round delivers to client `c`: the early-then-final readings, once per time `c` is listed. */
    lemma {:induction false} ShotRoundDelivers(cs: seq<nat>, early: string, final: string, c: nat)
      ensures BytesTo(c, ShotRound(cs, early, final))
        == G.Repeat(Utf8Encode(early) + Utf8Encode(final), G.Occurrences(cs, c))
      decreases |cs|
    {
      if cs != [] {
        var init := cs[..|cs| - 1];
        var last := cs[|cs| - 1];
        var e := Utf8Encode(early) + Utf8Encode(final);
        ShotRoundDelivers(init, early, final, c);
        ClientRoundDelivers(last, early, final);
        TraceAppend(ShotRound(init, early, final), ClientRound(last, early, final));
        if c != last {
          assert G.Repeat(e, G.Occurrences(init, c)) + [] == G.Repeat(e, G.Occurrences(init, c));
        }
      }
    }

    /**
     * What a whole run delivers to client `c`: shot 1, then shot 2, ... up
     * to shot n, each as its early reading followed by its final reading.
     */
    lemma {:induction false} RunDelivers(cs: seq<nat>, n: nat, draw: int -> Draw, c: nat)
      ensures BytesTo(c, RunTrace(cs, n, draw)) == RunBytes(n, draw, G.Occurrences(cs, c))
    {
      if n > 0 {
        var prev := RunTrace(cs, n - 1, draw);
        var early, final := EarlyReading(n, draw(n)), FinalReading(n, draw(n));
        var round := ShotRound(cs, early, final);
        var pause: seq<Event> := [Sleep(interShotDelayMs)];
        RunDelivers(cs, n - 1, draw, c);
        ShotRoundDelivers(cs, early, final, c);
        TraceAppend(prev, round);
        TraceAppend(prev + round, pause);
        assert BytesTo(c, pause) == [];
      }
    }
  }

  /** A shot's two readings, as they are encoded. */
  function ShotBytes(shotId: int, d: Draw): seq<byte> {
    Utf8Encode(EarlyReading(shotId, d)) + Utf8Encode(FinalReading(shotId, d))
  }

  /** Shots 1 to n in increasing order, each shot's readings `k` times over. */
  function RunBytes(n: nat, draw: int -> Draw, k: nat): seq<byte> {
    if n == 0 then [] else RunBytes(n - 1, draw, k) + G.Repeat(ShotBytes(n, draw(n)), k)
  }
}
