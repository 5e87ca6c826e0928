/**
 * The mock GSPro Open Connect server (`tools/mock_gspro_server.py`): one
 * client connection's read loop and the message dispatcher.
 *
 * Each read is appended to the connection's text buffer; complete objects
 * are then extracted one after another (`FrameExtractor.ExtractSpec`), the
 * buffer is sliced past each and left-stripped, and each message is sorted
 * into heartbeat, status or shot. Only shots are answered (after the
 * configured delay) with a code-201 response. `Process`, `Drain` and
 * `Serve` say what one message, one buffer and one connection do; the class
 * `MockServer` holds the counters and carries out the same steps in place.
 */
module MockGSProServer {
  import opened Text
  import opened Json
  import opened FrameExtractor

  /** What the server does that a client or a clock can observe. */
  datatype ServerEvent =
    | Slept(ms: real)
    | Wrote(conn: nat, response: JObject)   // sent as `json.dumps(response).encode("utf-8")`
    | Closed(conn: nat)

  /** `shot_count`, `heartbeat_count`, `status_count`. */
  datatype Counters = Counters(shots: nat, heartbeats: nat, statuses: nat)

  function Total(c: Counters): nat {
    c.shots + c.heartbeats + c.statuses
  }

  datatype Kind = Heartbeat | Status | Shot

  /** `message.get("ShotDataOptions", {})`, or None when it is present but not an object (the `.get` calls fail). */
  function Options(message: JObject): (r: Option<JObject>)
    ensures Get(message, "ShotDataOptions").None? ==> r == Some([])
  {
    match Get(message, "ShotDataOptions")
    case None => Some([])
    case Some(JObj(o)) => Some(o)
    case Some(_) => None
  }

  /** `options.get(key, False)` taken as a condition. */
  predicate Flag(options: JObject, key: string) {
    var v := Get(options, key);
    v.Some? && Truthy(v.value)
  }

  /** The branch `_process_message` takes; None when reading the options raises. */
  function Classify(message: JObject): Option<Kind> {
    match Options(message)
    case None => None
    case Some(o) =>
      if Flag(o, "IsHeartBeat") then Some(Heartbeat)
      else if !Flag(o, "ContainsBallData") then Some(Status)
      else Some(Shot)
  }

  /**
   * The least integer that does not convert to a float: 2^1024 - 2^970, the
   * midpoint between the largest finite double and 2^1024, which rounds up.
   */
  const FloatOverflow: int :=
    0xfffffffffffffc00_0000000000000000_0000000000000000_0000000000000000_0000000000000000_0000000000000000_0000000000000000_0000000000000000_0000000000000000_0000000000000000_0000000000000000_0000000000000000_0000000000000000_0000000000000000_0000000000000000_0000000000000000

  /**
   * A value that `f"{v:.1f}"` and `f"{v:.0f}"` accept: absent (the default 0),
   * a boolean (an `int` in Python), or an integer that converts to a float
   * without `OverflowError`.
   */
  predicate Formattable(v: Option<Json>) {
    v.None? || v.value.JBool? || (v.value.JNum? && -FloatOverflow < v.value.n < FloatOverflow)
  }

  predicate FieldsFormattable(obj: JObject, keys: seq<string>) {
    forall i :: 0 <= i < |keys| ==> Formattable(Get(obj, keys[i]))
  }

  /** The shot branch logs BallData and, if truthy, ClubData without raising. */
  predicate ShotLoggable(message: JObject) {
    var ball := Get(message, "BallData");
    var club := Get(message, "ClubData");
    (match ball
     case None => true
     case Some(JObj(b)) => FieldsFormattable(b, ["Speed", "BackSpin", "SideSpin", "TotalSpin", "VLA", "HLA"])
     case Some(_) => false)
    &&
    (match club
     case None => true
     case Some(JObj(cd)) => FieldsFormattable(cd, ["Speed", "Path", "FaceToTarget"])
     case Some(v) => !Truthy(v))
  }

  /** The answer to a shot. */
  const ShotResponse: JObject := [
    Member("Code", JNum(201)),
    Member("Message", JStr("Shot received")),
    Member("Player", JObj([
      Member("Handed", JStr("RH")),
      Member("Club", JStr("DR")),
      Member("DistanceToTarget", JNum(250))]))]

  /** What `_process_message` ends with: no response, a response, or an exception. */
  datatype Reply = NoReply | Respond(response: JObject) | Raised

  datatype Dispatched = Dispatched(counters: Counters, reply: Reply)

  /** One message: the counter it bumps and its reply. */
  function Process(c: Counters, message: JObject): Dispatched {
    match Classify(message)
    case None => Dispatched(c, Raised)
    case Some(Heartbeat) => Dispatched(c.(heartbeats := c.heartbeats + 1), NoReply)
    case Some(Status) => Dispatched(c.(statuses := c.statuses + 1), NoReply)
    case Some(Shot) =>
      var c' := c.(shots := c.shots + 1);
      if ShotLoggable(message) then Dispatched(c', Respond(ShotResponse)) else Dispatched(c', Raised)
  }

  /** The events of answering one message: the delay, then the write. */
  function ReplyEvents(conn: nat, delay: real, reply: Reply): seq<ServerEvent> {
    if reply.Respond? then [Slept(delay), Wrote(conn, reply.response)] else []
  }

  /**
   * The state of one connection: counters, buffer, the events so far, the
   * messages handed to the dispatcher (an observation of the model), and
   * whether the connection is still open.
   */
  datatype Session = Session(counters: Counters, buffer: string, out: seq<ServerEvent>,
                             processed: seq<JObject>, open: bool)

  /** `s` preceded by events and messages that came before it. */
  function Glue(out: seq<ServerEvent>, processed: seq<JObject>, s: Session): Session {
    s.(out := out + s.out, processed := processed + s.processed)
  }

  /** The buffer after a decode error: from the next `{` at index 1 or later, else empty. */
  function Recover(buffer: string): string {
    var next := Find(buffer, '{', 1);
    if next > 0 then buffer[next..] else ""
  }

  /**
   * The inner `while buffer:` loop (source lines 79-106). `open` is false when
   * the dispatcher raised, or when the decoder raised anything other than
   * `JSONDecodeError` (it passes the handler at line 98 and ends the connection).
   * Nothing visible happens but in answer to a dispatched message, which adds
   * at most the delay and one write.
   */
  function Drain(c: Counters, buffer: string, decode: string -> Decoding, conn: nat, delay: real): (r: Session)
    ensures r.processed == [] ==> r.counters == c && r.out == []
    ensures |r.out| <= 2 * |r.processed|
    decreases |buffer|
  {
    if buffer == [] then Session(c, buffer, [], [], true)
    else
      match ExtractSpec(buffer, decode)
      case DecoderRaised => Session(c, buffer, [], [], false)
      case DecodeError => Session(c, Recover(buffer), [], [], true)
      case Returned(None, _) => Session(c, buffer, [], [], true)
      case Returned(Some(m), e) =>
        var rest := LStrip(buffer[e..]);
        var d := Process(c, m);
        if d.reply.Raised? then Session(d.counters, rest, [], [m], false)
        else Glue(ReplyEvents(conn, delay, d.reply), [m], Drain(d.counters, rest, decode, conn, delay))
  }

  /** One `reader.read(4096)`: decoded text (empty at end of stream), bytes that are not UTF-8, or a failed read. */
  datatype Read = Data(text: string) | Undecodable | ReadFailed

  /** The outer `while True:` loop over a script of reads; the connection is closed on end of stream or any exception. */
  function Serve(c: Counters, buffer: string, script: seq<Read>, decode: string -> Decoding,
                 conn: nat, delay: real): Session
    decreases |script|
  {
    if script == [] then Session(c, buffer, [], [], true)
    else if !script[0].Data? || script[0].text == [] then Session(c, buffer, [Closed(conn)], [], false)
    else
      var d := Drain(c, buffer + script[0].text, decode, conn, delay);
      if !d.open then d.(out := d.out + [Closed(conn)])
      else Glue(d.out, d.processed, Serve(d.counters, d.buffer, script[1..], decode, conn, delay))
  }

  // Properties of the dispatcher.

  /** Priority heartbeat, then status, then shot, with absent flags false. */
  lemma ClassifyPriority(message: JObject)
    requires Options(message).Some?
    ensures var o := Options(message).value;
      (Classify(message) == Some(Heartbeat) <==> Flag(o, "IsHeartBeat"))
      && (Classify(message) == Some(Status) <==> !Flag(o, "IsHeartBeat") && !Flag(o, "ContainsBallData"))
      && (Classify(message) == Some(Shot) <==> !Flag(o, "IsHeartBeat") && Flag(o, "ContainsBallData"))
  {
  }

  /** A message without options is a status update. */
  lemma MissingOptionsIsStatus(message: JObject)
    requires Get(message, "ShotDataOptions").None?
    ensures Classify(message) == Some(Status)
  {
  }

  /** Exactly one counter moves per message that classifies, the one of its kind; none otherwise. */
  lemma OneCounterPerMessage(c: Counters, message: JObject)
    ensures var r := Process(c, message).counters;
      match Classify(message)
      case None => r == c
      case Some(Heartbeat) => r == c.(heartbeats := c.heartbeats + 1)
      case Some(Status) => r == c.(statuses := c.statuses + 1)
      case Some(Shot) => r == c.(shots := c.shots + 1)
    ensures Classify(message).Some? <==> Total(Process(c, message).counters) == Total(c) + 1
  {
  }

  /** Only a shot is answered, always with the code-201 response, and only when its logging does not raise. */
  lemma OnlyShotsRespond(c: Counters, message: JObject)
    ensures Process(c, message).reply.Respond? <==> Classify(message) == Some(Shot) && ShotLoggable(message)
    ensures Process(c, message).reply.Respond? ==> Process(c, message).reply.response == ShotResponse
    ensures Process(c, message).reply.Raised? <==>
      Classify(message).None? || (Classify(message) == Some(Shot) && !ShotLoggable(message))
  {
  }

  /**
   * A shot is answered iff its ball speed converts to a float: from
   * 2^1024 - 2^970 upward in magnitude, `{speed:.1f}` raises `OverflowError`
   * and the shot, though counted, gets no response.
   */
  lemma LargeSpeedRaises(c: Counters, n: int)
    ensures var message := [
        Member("ShotDataOptions", JObj([Member("ContainsBallData", JBool(true))])),
        Member("BallData", JObj([Member("Speed", JNum(n))]))];
      var d := Process(c, message);
      d.counters == c.(shots := c.shots + 1) &&
      (d.reply.Raised? <==> n <= -FloatOverflow || FloatOverflow <= n) &&
      (d.reply.Respond? <==> -FloatOverflow < n < FloatOverflow)
  {
    var ball: JObject := [Member("Speed", JNum(n))];
    var message := [
      Member("ShotDataOptions", JObj([Member("ContainsBallData", JBool(true))])),
      Member("BallData", JObj(ball))];
    assert Get(message, "ShotDataOptions") == Some(JObj([Member("ContainsBallData", JBool(true))]));
    assert Classify(message) == Some(Shot);
    assert Get(message, "BallData") == Some(JObj(ball));
    assert "ClubData"[0] != "ShotDataOptions"[0] && "ClubData"[0] != "BallData"[0];
    GetSpec(message, "ClubData");
    assert Get(ball, "Speed") == Some(JNum(n));
    var keys := ["Speed", "BackSpin", "SideSpin", "TotalSpin", "VLA", "HLA"];
    forall i | 1 <= i < |keys|
      ensures Get(ball, keys[i]) == None
    {
      assert keys[i] != "Speed" by { assert keys[i][0] != 'S' || keys[i][1] != 'p'; }
    }
    assert Get(ball, keys[0]) == Some(JNum(n));
    if Formattable(Some(JNum(n))) {
      assert FieldsFormattable(ball, keys);
    }
  }

  /** The response carries Code 201, the message text and a Player record. */
  lemma ShotResponseFields()
    ensures Get(ShotResponse, "Code") == Some(JNum(201))
    ensures Get(ShotResponse, "Message") == Some(JStr("Shot received"))
    ensures Get(ShotResponse, "Player") == Some(JObj([
      Member("Handed", JStr("RH")), Member("Club", JStr("DR")), Member("DistanceToTarget", JNum(250))]))
  {
  }

  // Properties of the buffer loop.

  /** A buffer with no `{` yields nothing and is kept for the next read. */
  lemma NoBraceKeepsBuffer(c: Counters, buffer: string, decode: string -> Decoding, conn: nat, delay: real)
    requires '{' !in buffer
    ensures Drain(c, buffer, decode, conn, delay) == Session(c, buffer, [], [], true)
  {
  }

  /** A partly received object is kept whole, waiting for more data. */
  lemma IncompleteKeepsBuffer(c: Counters, obj: JObject, k: nat, decode: string -> Decoding,
                              conn: nat, delay: real)
    requires 0 < k < |EmitObject(obj)|
    ensures Drain(c, EmitObject(obj)[..k], decode, conn, delay) == Session(c, EmitObject(obj)[..k], [], [], true)
  {
    ExtractPrefixIncomplete(obj, k, decode);
  }

  /** The buffer after a decode error is a shorter suffix starting at the next `{` past index 0, or empty. */
  lemma DecodeErrorSkipsToNextBrace(c: Counters, buffer: string, decode: string -> Decoding,
                                    conn: nat, delay: real)
    requires buffer != [] && ExtractSpec(buffer, decode) == DecodeError
    ensures var r := Drain(c, buffer, decode, conn, delay);
      var b := r.buffer;
      r.counters == c && r.out == [] && r.processed == [] && r.open
      && |b| < |buffer| && b == buffer[|buffer| - |b|..]
      && (b == [] || b[0] == '{')
      && (forall i :: 1 <= i < |buffer| - |b| ==> buffer[i] != '{')
      && (b == [] <==> forall i :: 1 <= i < |buffer| ==> buffer[i] != '{')
  {
  }

  /** One dispatched message at the head of the buffer. */
  lemma DrainDispatches(c: Counters, buffer: string, decode: string -> Decoding, conn: nat, delay: real,
                        m: JObject, e: nat)
    requires buffer != [] && ExtractSpec(buffer, decode) == Returned(Some(m), e)
    ensures var d := Process(c, m);
      var rest := LStrip(buffer[e..]);
      Drain(c, buffer, decode, conn, delay) ==
        if d.reply.Raised? then Session(d.counters, rest, [], [m], false)
        else Glue(ReplyEvents(conn, delay, d.reply), [m], Drain(d.counters, rest, decode, conn, delay))
  {
  }

  /**
   * A decode error or an incomplete object ends the drain with the buffer
   * recovered or kept; any other decoder exception also closes the connection.
   */
  lemma DrainStops(c: Counters, buffer: string, decode: string -> Decoding, conn: nat, delay: real)
    requires buffer != []
    requires !ExtractSpec(buffer, decode).Returned? || ExtractSpec(buffer, decode).message.None?
    ensures var x := ExtractSpec(buffer, decode);
      Drain(c, buffer, decode, conn, delay) ==
        Session(c, if x.DecodeError? then Recover(buffer) else buffer, [], [], !x.DecoderRaised?)
  {
  }

  /**
   * A decoder exception other than `JSONDecodeError` (line 155) escapes the
   * handler at line 98 and reaches line 108: the read dispatches nothing, the
   * counters stay, and the connection is closed with the buffer as it was.
   */
  lemma DecoderExceptionCloses(c: Counters, buffer: string, text: string, rest: seq<Read>,
                               decode: string -> Decoding, conn: nat, delay: real)
    requires text != [] && ExtractSpec(buffer + text, decode) == DecoderRaised
    ensures Serve(c, buffer, [Data(text)] + rest, decode, conn, delay) ==
      Session(c, buffer + text, [Closed(conn)], [], false)
  {
    assert ([Data(text)] + rest)[0] == Data(text);
    DrainStops(c, buffer + text, decode, conn, delay);
  }

  /** `b` is what is left of `a` after dropping a prefix. */
  predicate IsSuffix(b: string, a: string) {
    |b| <= |a| && b == a[|a| - |b|..]
  }

  lemma SuffixOfSuffix(a: string, b: string, d: string)
    requires IsSuffix(b, a) && IsSuffix(d, b)
    ensures IsSuffix(d, a)
  {
    assert b[|b| - |d|..] == a[|a| - |d|..];
  }

  /** Slicing at `e` and left-stripping keep a suffix of the buffer. */
  lemma SliceStripSuffix(buffer: string, e: nat)
    requires e <= |buffer|
    ensures IsSuffix(LStrip(buffer[e..]), buffer)
  {
    LStripSpec(buffer[e..]);
    SuffixOfSuffix(buffer, buffer[e..], LStrip(buffer[e..]));
  }

  /** Recovery after a decode error keeps a suffix of the buffer. */
  lemma RecoverSuffix(buffer: string)
    ensures IsSuffix(Recover(buffer), buffer)
  {
    if Find(buffer, '{', 1) <= 0 {
      assert buffer[|buffer|..] == [];
    }
  }

  /** The inner loop only consumes the buffer from the front: what is left is a suffix of it. */
  lemma {:induction false} DrainConsumesFront(c: Counters, buffer: string, decode: string -> Decoding,
                                              conn: nat, delay: real)
    ensures IsSuffix(Drain(c, buffer, decode, conn, delay).buffer, buffer)
    decreases |buffer|
  {
    if buffer == [] {
      return;
    }
    var x := ExtractSpec(buffer, decode);
    if !x.Returned? || x.message.None? {
      DrainStops(c, buffer, decode, conn, delay);
      RecoverSuffix(buffer);
      return;
    }
    var m, e := x.message.value, x.endIdx;
    var rest := LStrip(buffer[e..]);
    var d := Process(c, m);
    DrainDispatches(c, buffer, decode, conn, delay, m, e);
    SliceStripSuffix(buffer, e);
    if !d.reply.Raised? {
      var inner := Drain(d.counters, rest, decode, conn, delay);
      assert Drain(c, buffer, decode, conn, delay).buffer == inner.buffer;
      DrainConsumesFront(d.counters, rest, decode, conn, delay);
      SuffixOfSuffix(buffer, rest, inner.buffer);
    }
  }

  lemma GlueGlue(a: seq<ServerEvent>, p: seq<JObject>, b: seq<ServerEvent>, q: seq<JObject>, s: Session)
    ensures Glue(a, p, Glue(b, q, s)) == Glue(a + b, p + q, s)
  {
    assert a + (b + s.out) == (a + b) + s.out;
    assert p + (q + s.processed) == (p + q) + s.processed;
  }

  /** A serialized object at the head of the buffer is dispatched and sliced off. */
  lemma DrainFramed(c: Counters, obj: JObject, rest: string, decode: string -> Decoding,
                    conn: nat, delay: real)
    requires decode(EmitObject(obj)) == Decoded(obj)
    ensures var d := Process(c, obj);
      Drain(c, EmitObject(obj) + rest, decode, conn, delay) ==
        if d.reply.Raised? then Session(d.counters, LStrip(rest), [], [obj], false)
        else Glue(ReplyEvents(conn, delay, d.reply), [obj], Drain(d.counters, LStrip(rest), decode, conn, delay))
  {
    var e := EmitObject(obj);
    ExtractFramed(obj, rest, decode);
    assert (e + rest)[|e|..] == rest;
    DrainDispatches(c, e + rest, decode, conn, delay, obj, |e|);
  }

  lemma LStripObject(obj: JObject)
    ensures LStrip(EmitObject(obj)) == EmitObject(obj)
  {
    assert !IsSpace(EmitObject(obj)[0]);
  }

  /** A buffer holding exactly one serialized object is dispatched and emptied. */
  lemma DrainLastObject(c: Counters, obj: JObject, decode: string -> Decoding, conn: nat, delay: real)
    requires decode(EmitObject(obj)) == Decoded(obj) && !Process(c, obj).reply.Raised?
    ensures var d := Process(c, obj);
      Drain(c, EmitObject(obj), decode, conn, delay) == Session(d.counters, "", ReplyEvents(conn, delay, d.reply), [obj], true)
  {
    var e := EmitObject(obj);
    var d := Process(c, obj);
    var ev := ReplyEvents(conn, delay, d.reply);
    assert Drain(d.counters, "", decode, conn, delay) == Session(d.counters, "", [], [], true);
    assert Drain(c, e + "", decode, conn, delay) == Glue(ev, [obj], Session(d.counters, "", [], [], true)) by {
      DrainFramed(c, obj, "", decode, conn, delay);
      assert LStrip("") == "";
    }
    assert e + "" == e;
    assert ev + [] == ev && [obj] + [] == [obj];
  }

  /** Two serialized objects back to back are dispatched in order and leave the buffer empty. */
  lemma TwoObjectsInOrder(c: Counters, a: JObject, b: JObject, decode: string -> Decoding,
                          conn: nat, delay: real)
    requires decode(EmitObject(a)) == Decoded(a) && decode(EmitObject(b)) == Decoded(b)
    requires !Process(c, a).reply.Raised? && !Process(Process(c, a).counters, b).reply.Raised?
    ensures var r := Drain(c, EmitObject(a) + EmitObject(b), decode, conn, delay);
      r.processed == [a, b] && r.buffer == "" && r.open
      && r.counters == Process(Process(c, a).counters, b).counters
  {
    var d1 := Process(c, a);
    var d2 := Process(d1.counters, b);
    DrainLastObject(d1.counters, b, decode, conn, delay);
    LStripObject(b);
    DrainFramed(c, a, EmitObject(b), decode, conn, delay);
    assert [a] + [b] == [a, b];
  }

  function Writes(out: seq<ServerEvent>): nat {
    if out == [] then 0 else (if out[0].Wrote? then 1 else 0) + Writes(out[1..])
  }

  lemma {:induction false} WritesAppend(a: seq<ServerEvent>, b: seq<ServerEvent>)
    ensures Writes(a + b) == Writes(a) + Writes(b)
  {
    if a == [] {
      assert a + b == b;
    } else {
      assert (a + b)[0] == a[0];
      assert (a + b)[1..] == a[1..] + b;
      WritesAppend(a[1..], b);
    }
  }

  /**
   * The accounting a drain keeps: the counters move by one per dispatched
   * message (when nothing raised), every write is the shot response to this
   * connection and every sleep the configured delay, and there are no more
   * writes than shots.
   */
  ghost predicate Accounted(c: Counters, r: Session, conn: nat, delay: real) {
    (r.open ==> Total(r.counters) == Total(c) + |r.processed|)
    && Total(r.counters) <= Total(c) + |r.processed|
    && r.counters.shots >= c.shots + Writes(r.out)
    && (forall i :: 0 <= i < |r.out| ==> r.out[i] == Slept(delay) || r.out[i] == Wrote(conn, ShotResponse))
  }

  lemma StepAccounted(c: Counters, m: JObject, s: Session, conn: nat, delay: real)
    requires !Process(c, m).reply.Raised?
    requires Accounted(Process(c, m).counters, s, conn, delay)
    ensures Accounted(c, Glue(ReplyEvents(conn, delay, Process(c, m).reply), [m], s), conn, delay)
  {
    var d := Process(c, m);
    var ev := ReplyEvents(conn, delay, d.reply);
    OneCounterPerMessage(c, m);
    OnlyShotsRespond(c, m);
    WritesAppend(ev, s.out);
    assert Writes(ev) == (if d.reply.Respond? then 1 else 0);
    var out := ev + s.out;
    forall i | 0 <= i < |out| ensures out[i] == Slept(delay) || out[i] == Wrote(conn, ShotResponse) {
      if i >= |ev| {
        assert out[i] == s.out[i - |ev|];
      }
    }
  }

  /** Every drain keeps the accounting. */
  lemma {:induction false} DrainAccounting(c: Counters, buffer: string, decode: string -> Decoding,
                                           conn: nat, delay: real)
    ensures Accounted(c, Drain(c, buffer, decode, conn, delay), conn, delay)
    decreases |buffer|
  {
    if buffer != [] {
      var x := ExtractSpec(buffer, decode);
      if x.Returned? && x.message.Some? {
        var m, e := x.message.value, x.endIdx;
        var rest := LStrip(buffer[e..]);
        var d := Process(c, m);
        DrainDispatches(c, buffer, decode, conn, delay, m, e);
        if d.reply.Raised? {
          OneCounterPerMessage(c, m);
        } else {
          DrainAccounting(d.counters, rest, decode, conn, delay);
          StepAccounted(c, m, Drain(d.counters, rest, decode, conn, delay), conn, delay);
        }
      }
    }
  }

  /**
   * As written, noise before an object makes the end index point into the
   * buffer too early: when the noise is as long as the object, the slice
   * left behind is the object itself, and it is dispatched a second time.
   */
  lemma NoiseMakesObjectReparse(c: Counters, noise: string, obj: JObject, decode: string -> Decoding,
                                conn: nat, delay: real)
    requires IsNoise(noise) && |noise| == |EmitObject(obj)|
    requires decode(EmitObject(obj)) == Decoded(obj)
    requires !Process(c, obj).reply.Raised? && !Process(Process(c, obj).counters, obj).reply.Raised?
    ensures Drain(c, noise + EmitObject(obj), decode, conn, delay).processed == [obj, obj]
  {
    var e := EmitObject(obj);
    var d1 := Process(c, obj);
    DrainLastObject(d1.counters, obj, decode, conn, delay);
    LStripObject(obj);
    assert ExtractSpec(noise + e, decode) == Returned(Some(obj), |e|) by {
      ExtractAfterNoise(noise, obj, "", decode);
      assert noise + e + "" == noise + e;
    }
    assert (noise + e)[|e|..] == e;
    DrainDispatches(c, noise + e, decode, conn, delay, obj, |e|);
    assert [obj] + [obj] == [obj, obj];
  }

  /** The concrete case: `ab{}` buffered, `{}` decoding to an empty object, which is dispatched twice. */
  lemma NoisyBufferReparses(c: Counters, decode: string -> Decoding, conn: nat, delay: real)
    requires decode("{}") == Decoded([])
    ensures Drain(c, "ab{}", decode, conn, delay).processed == [[], []]
  {
    var e: JObject := [];
    assert EmitObject(e) == "{}";
    MissingOptionsIsStatus(e);
    assert LStrip("ab") == "ab";
    assert "ab" + "{}" == "ab{}";
    NoiseMakesObjectReparse(c, "ab", e, decode, conn, delay);
  }

  /**
   * The connection handler of the mock server. Counters and the event log
   * are fields; the buffer is the handler's own state.
   */
  class MockServer {
    var shotCount: nat
    var heartbeatCount: nat
    var statusCount: nat
    const responseDelayMs: real
    var events: seq<ServerEvent>

    constructor(responseDelayMs: real)
      ensures Counts() == Counters(0, 0, 0) && events == []
      ensures this.responseDelayMs == responseDelayMs
    {
      shotCount, heartbeatCount, statusCount := 0, 0, 0;
      this.responseDelayMs := responseDelayMs;
      events := [];
    }

    function Counts(): Counters
      reads this
    {
      Counters(shotCount, heartbeatCount, statusCount)
    }

    /** `_process_message`: bump one counter; for a shot, sleep the delay and return the response. */
    method ProcessMessage(message: JObject) returns (reply: Reply)
      modifies this
      ensures Dispatched(Counts(), reply) == Process(old(Counts()), message)
      ensures events == old(events) + (if reply.Respond? then [Slept(responseDelayMs)] else [])
    {
      var options := Options(message);
      if options.None? {
        return Raised;
      }
      if Flag(options.value, "IsHeartBeat") {
        heartbeatCount := heartbeatCount + 1;
        return NoReply;
      }
      if !Flag(options.value, "ContainsBallData") {
        statusCount := statusCount + 1;
        return NoReply;
      }
      shotCount := shotCount + 1;
      if !ShotLoggable(message) {
        return Raised;
      }
      events := events + [Slept(responseDelayMs)];
      return Respond(ShotResponse);
    }

    /**
     * One pass of the inner loop's body: extract, dispatch, answer. `more`
     * is false when the loop ends here, `open` false when decoding or
     * dispatching raised past the loop's handler.
     */
    method DrainOnce(conn: nat, buffer: string, decode: string -> Decoding)
      returns (rest: string, more: bool, open: bool, ghost out: seq<ServerEvent>, ghost processed: seq<JObject>)
      requires buffer != []
      modifies this
      ensures events == old(events) + out
      ensures more ==> open && |rest| < |buffer|
      ensures more ==> Drain(old(Counts()), buffer, decode, conn, responseDelayMs)
                       == Glue(out, processed, Drain(Counts(), rest, decode, conn, responseDelayMs))
      ensures !more ==> Drain(old(Counts()), buffer, decode, conn, responseDelayMs)
                        == Session(Counts(), rest, out, processed, open)
    {
      ghost var c := Counts();
      var x := ExtractJson(buffer, decode);
      if !x.Returned? || x.message.None? {
        DrainStops(c, buffer, decode, conn, responseDelayMs);
        rest := if x.DecodeError? then Recover(buffer) else buffer;
        return rest, false, !x.DecoderRaised?, [], [];
      }
      var m := x.message.value;
      rest := LStrip(buffer[x.endIdx..]);
      DrainDispatches(c, buffer, decode, conn, responseDelayMs, m, x.endIdx);
      var reply := ProcessMessage(m);
      if reply.Raised? {
        return rest, false, false, [], [m];
      }
      if reply.Respond? {
        events := events + [Wrote(conn, reply.response)];
      }
      return rest, true, true, ReplyEvents(conn, responseDelayMs, reply), [m];
    }

    /** The inner `while buffer:` loop; `open` is false when decoding or dispatching raised past its handler. */
    method DrainBuffer(conn: nat, buffer0: string, decode: string -> Decoding)
      returns (buffer: string, open: bool, ghost processed: seq<JObject>)
      modifies this
      ensures var s := Drain(old(Counts()), buffer0, decode, conn, responseDelayMs);
        Counts() == s.counters && events == old(events) + s.out
        && buffer == s.buffer && open == s.open && processed == s.processed
    {
      buffer := buffer0;
      processed := [];
      ghost var full := Drain(Counts(), buffer0, decode, conn, responseDelayMs);
      ghost var acc: seq<ServerEvent> := [];
      while buffer != []
        invariant events == old(events) + acc
        invariant full == Glue(acc, processed, Drain(Counts(), buffer, decode, conn, responseDelayMs))
        decreases |buffer|
      {
        ghost var before := events;
        var rest, more, stillOpen, out, got := DrainOnce(conn, buffer, decode);
        SeqConcatAssoc(old(events), acc, out);
        if !more {
          assert full == Session(Counts(), rest, acc + out, processed + got, stillOpen);
          return rest, stillOpen, processed + got;
        }
        GlueGlue(acc, processed, out, got, Drain(Counts(), rest, decode, conn, responseDelayMs));
        acc, processed := acc + out, processed + got;
        buffer := rest;
      }
      assert acc + [] == acc && processed + [] == processed;
      open := true;
    }

    /** `_handle_client` over a script of reads, ending with the close or with reads still pending. */
    method HandleClient(conn: nat, script: seq<Read>, decode: string -> Decoding)
      returns (buffer: string, open: bool)
      modifies this
      ensures var s := Serve(old(Counts()), "", script, decode, conn, responseDelayMs);
        Counts() == s.counters && events == old(events) + s.out && buffer == s.buffer && open == s.open
    {
      buffer := "";
      ghost var processed: seq<JObject> := [];
      ghost var full := Serve(Counts(), "", script, decode, conn, responseDelayMs);
      ghost var acc: seq<ServerEvent> := [];
      var k := 0;
      while k < |script|
        invariant 0 <= k <= |script|
        invariant events == old(events) + acc
        invariant full == Glue(acc, processed, Serve(Counts(), buffer, script[k..], decode, conn, responseDelayMs))
      {
        ghost var c := Counts();
        assert script[k..][0] == script[k] && script[k..][1..] == script[k + 1..];
        var read := script[k];
        if !read.Data? || read.text == [] {
          events := events + [Closed(conn)];
          SeqConcatAssoc(old(events), acc, [Closed(conn)]);
          assert processed + [] == processed;
          return buffer, false;
        }
        ghost var before := events;
        var rest, stillOpen, more := DrainBuffer(conn, buffer + read.text, decode);
        ghost var out := events[|before|..];
        assert events == before + out;
        SeqConcatAssoc(old(events), acc, out);
        if !stillOpen {
          events := events + [Closed(conn)];
          SeqConcatAssoc(old(events), acc + out, [Closed(conn)]);
          SeqConcatAssoc(acc, out, [Closed(conn)]);
          return rest, false;
        }
        GlueGlue(acc, processed, out, more, Serve(Counts(), rest, script[k + 1..], decode, conn, responseDelayMs));
        acc := acc + out;
        processed := processed + more;
        buffer := rest;
        k := k + 1;
      }
      assert acc + [] == acc && processed + [] == processed;
      open := true;
    }
  }
}
