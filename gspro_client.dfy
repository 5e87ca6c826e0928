/**
 * The GSPro Open Connect client: a connection flag, a socket slot, the shot
 * counter, the current player and two callback lists, changed by `connect`,
 * `disconnect` and the three senders.
 *
 * Nothing here touches a network. Each send is given an `Exchange` that
 * scripts what the socket does: what the draining `recv` calls return,
 * whether `sendall` succeeds, and what the reply `recv` returns. Turning the
 * reply bytes into a response (UTF-8 decoding, `raw_decode`, `from_dict`) is
 * the parameter `parse`. Calls to the callbacks, and the messages sent, are
 * recorded in a log of events.
 */
module GSProConnect {
  import opened Text
  import opened Json

  /** `GSProShotOptions`: the flags of a message that carries no shot. */
  datatype ShotOptions = ShotOptions(
    containsBallData: bool,
    containsClubData: bool,
    launchMonitorIsReady: bool,
    launchMonitorBallDetected: Option<bool>,
    isHeartBeat: bool)

  /** A shot as the launch monitor reported it; it is carried as is. */
  datatype GC2Shot = GC2Shot(data: JObject)

  /** `GC2BallStatus`: the ready light and the ball sensor. */
  datatype BallStatus = BallStatus(isReady: bool, ballDetected: bool)

  /** `GSProShotMessage`: a shot built by `from_gc2_shot`, or a message made of options only. */
  datatype Message =
    | ShotMessage(shot: GC2Shot, shotNumber: nat)
    | OptionsMessage(shotNumber: nat, options: ShotOptions)

  /** The options of a heartbeat. */
  const HeartbeatOptions := ShotOptions(false, false, true, None, true)

  /** The options of a status update. */
  function StatusOptions(status: BallStatus): (o: ShotOptions)
    ensures !o.containsBallData && !o.containsClubData && !o.isHeartBeat
    ensures o.launchMonitorIsReady == status.isReady
    ensures o.launchMonitorBallDetected == Some(status.ballDetected)
  {
    ShotOptions(false, false, status.isReady, Some(status.ballDetected), false)
  }

  /** `GSProResponse`. */
  datatype Response = Response(code: int, message: string, player: Option<JObject>)

  /** `response.Player` is truthy: present and a non-empty dict. */
  predicate HasPlayer(r: Response) {
    r.player.Some? && r.player.value != []
  }

  /**
   * One `recv` on the non-blocking socket while stale data is cleared: some
   * bytes (none when the peer has closed), or an `OSError`. Past the end of
   * the script nothing is buffered and `recv` raises `BlockingIOError`.
   */
  datatype DrainRead = Chunk(data: seq<byte>) | DrainFailed

  /** `sendall` on the blocking socket: it has no timeout, so it succeeds or raises `OSError`. */
  datatype SendResult = SendOk | SendFailed

  /** The one `recv` for the reply, with a 5 s timeout. */
  datatype ReplyRead = Received(data: seq<byte>) | TimedOut | ReplyFailed

  /** What the socket does during one `_send_message`. */
  datatype Exchange = Exchange(drain: seq<DrainRead>, send: SendResult, reply: ReplyRead)

  /**
   * Reply bytes as the client reads them: an exception that no clause of
   * `_send_message` catches (`UnicodeDecodeError` for bytes that are not
   * UTF-8, or the failure of `GSProResponse.from_dict` on a decoded value
   * that is not a response object, such as `[1]`), no JSON value at the very
   * start (`JSONDecodeError`, which is caught), or a response.
   */
  datatype Parsed = Unhandled | Malformed | Decoded(response: Response)

  /** How a send ends: a return value, or an exception raised to the caller. */
  datatype Outcome = Returned(response: Option<Response>) | Raised

  /** A registered callable; `raises` says whether calling it raises. */
  datatype Callback = Callback(id: nat, raises: bool)

  datatype Event =
    | Sent(m: Message)
    | ResponseCall(cb: Callback, r: Response)
    | DisconnectCall(cb: Callback)
    | CallbackError(cb: Callback)

  /** Calling one response callback; an exception it raises is caught and logged. */
  function ResponseCall1(cb: Callback, r: Response): seq<Event> {
    [ResponseCall(cb, r)] + (if cb.raises then [CallbackError(cb)] else [])
  }

  /** `_notify_response`: every callback, in list order. */
  function ResponseCalls(cbs: seq<Callback>, r: Response): seq<Event> {
    if cbs == [] then [] else ResponseCalls(cbs[..|cbs| - 1], r) + ResponseCall1(cbs[|cbs| - 1], r)
  }

  function DisconnectCall1(cb: Callback): seq<Event> {
    [DisconnectCall(cb)] + (if cb.raises then [CallbackError(cb)] else [])
  }

  /** `_notify_disconnect`: every callback, in list order. */
  function DisconnectCalls(cbs: seq<Callback>): seq<Event> {
    if cbs == [] then [] else DisconnectCalls(cbs[..|cbs| - 1]) + DisconnectCall1(cbs[|cbs| - 1])
  }

  /** The callbacks called in a log, in order. */
  function Called(es: seq<Event>): seq<Callback> {
    if es == [] then []
    else
      var e := es[|es| - 1];
      Called(es[..|es| - 1]) + (if e.ResponseCall? || e.DisconnectCall? then [e.cb] else [])
  }

  /** The callbacks whose exception a log records, in order. */
  function Failed(es: seq<Event>): seq<Callback> {
    if es == [] then []
    else
      var e := es[|es| - 1];
      Failed(es[..|es| - 1]) + (if e.CallbackError? then [e.cb] else [])
  }

  /** The messages a log records as sent, in order. */
  function SentIn(es: seq<Event>): seq<Message> {
    if es == [] then []
    else
      var e := es[|es| - 1];
      SentIn(es[..|es| - 1]) + (if e.Sent? then [e.m] else [])
  }

  /** The callbacks that raise, in order. */
  function Raising(cbs: seq<Callback>): seq<Callback> {
    if cbs == [] then []
    else Raising(cbs[..|cbs| - 1]) + (if cbs[|cbs| - 1].raises then [cbs[|cbs| - 1]] else [])
  }

  lemma {:induction false} CalledAppend(a: seq<Event>, b: seq<Event>)
    ensures Called(a + b) == Called(a) + Called(b)
    ensures Failed(a + b) == Failed(a) + Failed(b)
    ensures SentIn(a + b) == SentIn(a) + SentIn(b)
    decreases |b|
  {
    if b == [] {
      assert a + b == a;
    } else {
      var b' := b[..|b| - 1];
      assert (a + b)[..|a + b| - 1] == a + b';
      CalledAppend(a, b');
    }
  }

  /** One call logs its callback as called, and as failed when it raises. */
  lemma CallLogged(head: Event, cb: Callback)
    requires head.ResponseCall? || head.DisconnectCall?
    requires head.cb == cb
    ensures var es := [head] + (if cb.raises then [CallbackError(cb)] else []);
      Called(es) == [cb] && Failed(es) == (if cb.raises then [cb] else []) && SentIn(es) == []
  {
    var tail := if cb.raises then [CallbackError(cb)] else [];
    CalledAppend([head], tail);
    assert [head][..0] == [];
    if cb.raises {
      assert tail[..0] == [];
    }
  }

  /** Each response callback is called once, in registration order, whichever of them raise. */
  lemma {:induction false} ResponseCallsInOrder(cbs: seq<Callback>, r: Response)
    ensures Called(ResponseCalls(cbs, r)) == cbs
    ensures Failed(ResponseCalls(cbs, r)) == Raising(cbs)
    ensures SentIn(ResponseCalls(cbs, r)) == []
  {
    if cbs != [] {
      var p := cbs[..|cbs| - 1];
      var cb := cbs[|cbs| - 1];
      ResponseCallsInOrder(p, r);
      CalledAppend(ResponseCalls(p, r), ResponseCall1(cb, r));
      CallLogged(ResponseCall(cb, r), cb);
      assert cbs == p + [cb];
    }
  }

  /** Each disconnect callback is called once, in registration order, whichever of them raise. */
  lemma {:induction false} DisconnectCallsInOrder(cbs: seq<Callback>)
    ensures Called(DisconnectCalls(cbs)) == cbs
    ensures Failed(DisconnectCalls(cbs)) == Raising(cbs)
    ensures SentIn(DisconnectCalls(cbs)) == []
  {
    if cbs != [] {
      var p := cbs[..|cbs| - 1];
      var cb := cbs[|cbs| - 1];
      DisconnectCallsInOrder(p);
      CalledAppend(DisconnectCalls(p), DisconnectCall1(cb));
      CallLogged(DisconnectCall(cb), cb);
      assert cbs == p + [cb];
    }
  }

  /** `list.remove` after `append` of a callback not yet registered gives back the list. */
  lemma {:induction false} RemoveUndoesAdd(cbs: seq<Callback>, cb: Callback)
    requires cb !in cbs
    ensures cb in cbs + [cb]
    ensures RemoveFirst(cbs + [cb], cb) == cbs
  {
    var s := cbs + [cb];
    RemoveFirstSpec(s, cb);
    var i :| 0 <= i < |s| && s[i] == cb && cb !in s[..i] && RemoveFirst(s, cb) == s[..i] + s[i + 1..];
    assert i == |cbs|;
    assert s[..i] == cbs;
  }

  // ---------------------------------------------------------------------
  // The client as a value

  datatype State = State(
    connected: bool,
    hasSocket: bool,
    shotNumber: nat,
    player: Option<JObject>,
    responseCallbacks: seq<Callback>,
    disconnectCallbacks: seq<Callback>,
    log: seq<Event>)

  /** The client is connected only while it holds a socket. */
  predicate Valid(s: State) {
    s.connected ==> s.hasSocket
  }

  /** A state after an operation, with how the operation ended. */
  datatype After = After(state: State, outcome: Outcome)

  /** The `except OSError` clause: the flag drops and, if it was up, the disconnect callbacks run. */
  function Lose(s: State): State {
    s.(connected := false,
       log := s.log + if s.connected then DisconnectCalls(s.disconnectCallbacks) else [])
  }

  /** The draining loop stops on an `OSError` other than `BlockingIOError`. */
  function DrainFails(script: seq<DrainRead>): bool {
    if script == [] then false
    else match script[0]
      case DrainFailed => true
      case Chunk(data) => data != [] && DrainFails(script[1..])
  }

  /** Read `i` of the script raises, after reads that each returned some bytes. */
  predicate FailsAt(script: seq<DrainRead>, i: int) {
    0 <= i < |script| && script[i].DrainFailed?
    && forall j :: 0 <= j < i ==> script[j].Chunk? && script[j].data != []
  }

  /** The drain fails exactly when a failure comes before any empty read and before the buffer runs dry. */
  lemma {:induction false} DrainFailsSpec(script: seq<DrainRead>)
    ensures DrainFails(script) <==> exists i :: FailsAt(script, i)
  {
    if script != [] && script[0].Chunk? && script[0].data != [] {
      var t := script[1..];
      DrainFailsSpec(t);
      if DrainFails(script) {
        var i :| FailsAt(t, i);
        assert FailsAt(script, i + 1) by {
          forall j | 0 <= j < i + 1
            ensures script[j].Chunk? && script[j].data != []
          {
            if j > 0 {
              assert script[j] == t[j - 1];
            }
          }
        }
      }
      if exists i :: FailsAt(script, i) {
        var i :| FailsAt(script, i);
        assert FailsAt(t, i - 1) by {
          forall j | 0 <= j < i - 1
            ensures t[j].Chunk? && t[j].data != []
          {
            assert t[j] == script[j + 1];
          }
        }
      }
    } else if script != [] && script[0].DrainFailed? {
      assert FailsAt(script, 0);
    }
  }

  /** The socket failed somewhere before the reply was read, or while reading it. */
  predicate TransportFails(awaitReply: bool, ex: Exchange) {
    DrainFails(ex.drain) || ex.send == SendFailed || (awaitReply && ex.reply == ReplyFailed)
  }

  /** `_send_message`: drain, send, and, if a response is expected, read and handle one reply. */
  function SendMessageSpec(s: State, m: Message, awaitReply: bool, ex: Exchange, parse: seq<byte> -> Parsed): After {
    if !s.hasSocket then After(s, Returned(None))
    else if DrainFails(ex.drain) || ex.send == SendFailed then After(Lose(s), Returned(None))
    else
      var sent := s.(log := s.log + [Sent(m)]);
      if !awaitReply then After(sent, Returned(None))
      else match ex.reply
        case TimedOut => After(sent, Returned(None))
        case ReplyFailed => After(Lose(sent), Returned(None))
        case Received(data) =>
          if data == [] then After(sent, Returned(None))
          else match parse(data)
            case Unhandled => After(sent, Raised)
            case Malformed => After(sent, Returned(None))
            case Decoded(r) =>
              var player := if r.code == 201 && HasPlayer(r) then r.player else s.player;
              After(sent.(player := player, log := sent.log + ResponseCalls(s.responseCallbacks, r)), Returned(Some(r)))
  }

  /** `send_shot`: only while connected, the counter goes up and the shot is sent under the new number. */
  function SendShotSpec(s: State, shot: GC2Shot, ex: Exchange, parse: seq<byte> -> Parsed): After {
    if !s.connected || !s.hasSocket then After(s, Returned(None))
    else
      var numbered := s.(shotNumber := s.shotNumber + 1);
      SendMessageSpec(numbered, ShotMessage(shot, numbered.shotNumber), true, ex, parse)
  }

  /** `send_heartbeat`: the heartbeat options under the current number, with no reply awaited. */
  function SendHeartbeatSpec(s: State, ex: Exchange, parse: seq<byte> -> Parsed): After {
    if !s.connected || !s.hasSocket then After(s, Returned(None))
    else SendMessageSpec(s, OptionsMessage(s.shotNumber, HeartbeatOptions), false, ex, parse)
  }

  /** `send_status`: the status options under the current number, with no reply awaited. */
  function SendStatusSpec(s: State, status: BallStatus, ex: Exchange, parse: seq<byte> -> Parsed): After {
    if !s.connected || !s.hasSocket then After(s, Returned(None))
    else SendMessageSpec(s, OptionsMessage(s.shotNumber, StatusOptions(status)), false, ex, parse)
  }

  /**
   * `connect`: when the socket opens, the client is connected, sends a
   * heartbeat whatever it leads to, and reports success; otherwise it drops
   * the socket and the flag and reports failure.
   */
  function ConnectSpec(s: State, opens: bool, ex: Exchange, parse: seq<byte> -> Parsed): (State, bool) {
    if !opens then (s.(hasSocket := false, connected := false), false)
    else (SendHeartbeatSpec(s.(hasSocket := true, connected := true), ex, parse).state, true)
  }

  /** `disconnect`: closes the socket (a failing close is ignored) and clears the flag; no callback runs. */
  function DisconnectSpec(s: State): State {
    s.(hasSocket := false, connected := false)
  }

  // ---------------------------------------------------------------------
  // Properties of the operations

  /** A send never changes the counter, the socket slot or the callback lists, and only extends the log. */
  lemma SendMessageFrame(s: State, m: Message, awaitReply: bool, ex: Exchange, parse: seq<byte> -> Parsed)
    ensures var a := SendMessageSpec(s, m, awaitReply, ex, parse).state;
      a.shotNumber == s.shotNumber && a.hasSocket == s.hasSocket
      && a.responseCallbacks == s.responseCallbacks && a.disconnectCallbacks == s.disconnectCallbacks
      && s.log <= a.log
      && (Valid(s) ==> Valid(a))
  {
  }

  /** Without a connection `send_shot` changes nothing and returns None. */
  lemma SendShotWhileDisconnected(s: State, shot: GC2Shot, ex: Exchange, parse: seq<byte> -> Parsed)
    requires !s.connected || !s.hasSocket
    ensures SendShotSpec(s, shot, ex, parse) == After(s, Returned(None))
  {
  }

  /** What a send appends to the log after the message itself: callback calls only. */
  function Aftermath(s: State, awaitReply: bool, ex: Exchange, parse: seq<byte> -> Parsed): seq<Event> {
    if !awaitReply then []
    else match ex.reply
      case TimedOut => []
      case ReplyFailed => if s.connected then DisconnectCalls(s.disconnectCallbacks) else []
      case Received(data) =>
        if data != [] && parse(data).Decoded? then ResponseCalls(s.responseCallbacks, parse(data).response) else []
  }

  /**
   * A send puts the message on the wire exactly once when the drain and
   * `sendall` succeed, as the first new entry of the log, and not at all
   * otherwise.
   */
  lemma SentOnce(s: State, m: Message, awaitReply: bool, ex: Exchange, parse: seq<byte> -> Parsed)
    requires s.hasSocket
    ensures var a := SendMessageSpec(s, m, awaitReply, ex, parse).state;
      var delivered := !DrainFails(ex.drain) && ex.send == SendOk;
      SentIn(a.log) == SentIn(s.log) + (if delivered then [m] else [])
      && (delivered ==> |a.log| > |s.log| && a.log[|s.log|] == Sent(m))
  {
    var a := SendMessageSpec(s, m, awaitReply, ex, parse).state;
    if DrainFails(ex.drain) || ex.send == SendFailed {
      DisconnectCallsInOrder(s.disconnectCallbacks);
      CalledAppend(s.log, DisconnectCalls(s.disconnectCallbacks));
      assert s.log + [] == s.log;
    } else {
      var sent := s.log + [Sent(m)];
      var more := Aftermath(s, awaitReply, ex, parse);
      assert a.log == sent + more;
      CalledAppend(s.log, [Sent(m)]);
      assert SentIn([Sent(m)]) == [m] by {
        assert [Sent(m)][..0] == [];
      }
      assert SentIn(more) == [] by {
        DisconnectCallsInOrder(s.disconnectCallbacks);
        if awaitReply && ex.reply.Received? && ex.reply.data != [] && parse(ex.reply.data).Decoded? {
          ResponseCallsInOrder(s.responseCallbacks, parse(ex.reply.data).response);
        }
      }
      CalledAppend(sent, more);
    }
  }

  /**
   * With a connection `send_shot` raises the counter by exactly one whatever
   * the socket does, and the message it sends carries the new number.
   */
  lemma SendShotNumbers(s: State, shot: GC2Shot, ex: Exchange, parse: seq<byte> -> Parsed)
    requires s.connected && s.hasSocket
    ensures var a := SendShotSpec(s, shot, ex, parse).state;
      a.shotNumber == s.shotNumber + 1
      && SentIn(a.log) == SentIn(s.log) + (if !DrainFails(ex.drain) && ex.send == SendOk
                                           then [ShotMessage(shot, s.shotNumber + 1)] else [])
  {
    SentOnce(s.(shotNumber := s.shotNumber + 1), ShotMessage(shot, s.shotNumber + 1), true, ex, parse);
  }

  /** A heartbeat is sent under the current number with the heartbeat flags; no reply is read and None is returned. */
  lemma HeartbeatSent(s: State, ex: Exchange, parse: seq<byte> -> Parsed)
    requires s.connected && s.hasSocket && !DrainFails(ex.drain) && ex.send == SendOk
    ensures var a := SendHeartbeatSpec(s, ex, parse);
      a == After(s.(log := s.log + [Sent(OptionsMessage(s.shotNumber, HeartbeatOptions))]), Returned(None))
    ensures !HeartbeatOptions.containsBallData && !HeartbeatOptions.containsClubData
    ensures HeartbeatOptions.launchMonitorIsReady && HeartbeatOptions.isHeartBeat
  {
  }

  /** Neither a heartbeat nor a status update raises, reads a reply, or touches the counter or the player. */
  lemma UnansweredSends(s: State, status: BallStatus, ex: Exchange, parse: seq<byte> -> Parsed,
                        reply: ReplyRead, parse': seq<byte> -> Parsed)
    ensures var h := SendHeartbeatSpec(s, ex, parse);
      h.outcome == Returned(None) && h.state.shotNumber == s.shotNumber && h.state.player == s.player
      && h == SendHeartbeatSpec(s, ex.(reply := reply), parse')
    ensures var u := SendStatusSpec(s, status, ex, parse);
      u.outcome == Returned(None) && u.state.shotNumber == s.shotNumber && u.state.player == s.player
      && u == SendStatusSpec(s, status, ex.(reply := reply), parse')
  {
  }

  /** A status update is sent under the current number and carries the ready light and the ball sensor. */
  lemma StatusSent(s: State, status: BallStatus, ex: Exchange, parse: seq<byte> -> Parsed)
    requires s.connected && s.hasSocket && !DrainFails(ex.drain) && ex.send == SendOk
    ensures var u := SendStatusSpec(s, status, ex, parse);
      u.state == s.(log := s.log + [Sent(OptionsMessage(s.shotNumber, StatusOptions(status)))])
  {
  }

  /**
   * A reply that times out, comes back empty or holds no JSON object leaves
   * the connection and the player as they were, runs no callback, and
   * returns None.
   */
  lemma QuietReplyKeepsConnection(s: State, m: Message, ex: Exchange, parse: seq<byte> -> Parsed)
    requires s.hasSocket && !DrainFails(ex.drain) && ex.send == SendOk
    requires ex.reply == TimedOut || ex.reply == Received([])
             || (ex.reply.Received? && parse(ex.reply.data) == Malformed)
    ensures SendMessageSpec(s, m, true, ex, parse) == After(s.(log := s.log + [Sent(m)]), Returned(None))
  {
  }

  /** A reply whose reading raises an exception no clause catches (bytes that are not UTF-8, say) raises out of the send, after the message went out, with the state otherwise kept. */
  lemma UnhandledReplyRaises(s: State, m: Message, ex: Exchange, parse: seq<byte> -> Parsed)
    requires s.hasSocket && !DrainFails(ex.drain) && ex.send == SendOk
    requires ex.reply.Received? && ex.reply.data != [] && parse(ex.reply.data) == Unhandled
    ensures SendMessageSpec(s, m, true, ex, parse) == After(s.(log := s.log + [Sent(m)]), Raised)
  {
  }

  /** Sending `m` logs it and calls no callback. */
  lemma SentCallsNothing(log: seq<Event>, m: Message)
    ensures Called(log + [Sent(m)]) == Called(log)
  {
    CalledAppend(log, [Sent(m)]);
    assert [Sent(m)][..0] == [];
  }

  /**
   * A socket error clears the flag and returns None; the disconnect
   * callbacks run, each once and in order, exactly when the client was
   * connected.
   */
  lemma SocketErrorDisconnects(s: State, m: Message, awaitReply: bool, ex: Exchange, parse: seq<byte> -> Parsed)
    requires s.hasSocket && TransportFails(awaitReply, ex)
    ensures var a := SendMessageSpec(s, m, awaitReply, ex, parse);
      !a.state.connected && a.outcome == Returned(None)
      && a.state.player == s.player
      && Called(a.state.log) == Called(s.log) + (if s.connected then s.disconnectCallbacks else [])
  {
    var base := if DrainFails(ex.drain) || ex.send == SendFailed then s.log else s.log + [Sent(m)];
    SentCallsNothing(s.log, m);
    var lost := Lose(s.(log := base));
    assert SendMessageSpec(s, m, awaitReply, ex, parse).state == lost;
    DisconnectCallsInOrder(s.disconnectCallbacks);
    CalledAppend(base, DisconnectCalls(s.disconnectCallbacks));
    assert base + [] == base;
  }

  /** After a socket error, a second one in a row runs no disconnect callback: they run once per lost connection. */
  lemma SecondErrorSilent(s: State, m: Message, awaitReply: bool, ex: Exchange, parse: seq<byte> -> Parsed)
    requires s.hasSocket && !s.connected && TransportFails(awaitReply, ex)
    ensures Called(SendMessageSpec(s, m, awaitReply, ex, parse).state.log) == Called(s.log)
  {
    SocketErrorDisconnects(s, m, awaitReply, ex, parse);
  }

  /** The current player changes only to the Player of a 201 response that has one; that response is returned. */
  lemma PlayerOnlyFrom201(s: State, m: Message, ex: Exchange, parse: seq<byte> -> Parsed)
    ensures var a := SendMessageSpec(s, m, true, ex, parse);
      a.state.player != s.player ==>
        a.outcome.Returned? && a.outcome.response.Some?
        && a.outcome.response.value.code == 201 && HasPlayer(a.outcome.response.value)
        && a.state.player == a.outcome.response.value.player
  {
  }

  /**
   * A returned response keeps the connection, sets the player exactly when
   * its code is 201 and it has one, and is seen by every response callback,
   * once each and in order.
   */
  lemma ResponseHandled(s: State, m: Message, ex: Exchange, parse: seq<byte> -> Parsed, r: Response)
    requires SendMessageSpec(s, m, true, ex, parse).outcome == Returned(Some(r))
    ensures var a := SendMessageSpec(s, m, true, ex, parse).state;
      a.connected == s.connected
      && a.player == (if r.code == 201 && HasPlayer(r) then r.player else s.player)
      && Called(a.log) == Called(s.log) + s.responseCallbacks
  {
    assert ex.reply.Received? && parse(ex.reply.data) == Decoded(r);
    var sent := s.log + [Sent(m)];
    SentCallsNothing(s.log, m);
    ResponseCallsInOrder(s.responseCallbacks, r);
    CalledAppend(sent, ResponseCalls(s.responseCallbacks, r));
  }

  /** A failed `connect` leaves no socket, clears the flag and reports failure. */
  lemma ConnectRefused(s: State, ex: Exchange, parse: seq<byte> -> Parsed)
    ensures var (a, ok) := ConnectSpec(s, false, ex, parse);
      !ok && !a.hasSocket && !a.connected && a.log == s.log && a.shotNumber == s.shotNumber
  {
  }

  /**
   * A `connect` whose socket opens reports success even when its heartbeat
   * hits a socket error; then the client ends disconnected and has run its
   * disconnect callbacks once. Otherwise it ends connected, having sent
   * the heartbeat.
   */
  lemma ConnectOpened(s: State, ex: Exchange, parse: seq<byte> -> Parsed)
    ensures var (a, ok) := ConnectSpec(s, true, ex, parse);
      ok && a.hasSocket && Valid(a) && a.shotNumber == s.shotNumber && a.player == s.player
      && (a.connected <==> !TransportFails(false, ex))
      && (TransportFails(false, ex) ==> Called(a.log) == Called(s.log) + s.disconnectCallbacks)
      && (!TransportFails(false, ex) ==> a.log == s.log + [Sent(OptionsMessage(s.shotNumber, HeartbeatOptions))])
  {
    var up := s.(hasSocket := true, connected := true);
    if TransportFails(false, ex) {
      SocketErrorDisconnects(up, OptionsMessage(s.shotNumber, HeartbeatOptions), false, ex, parse);
    }
  }

  /** `disconnect` drops the socket and the flag and runs no callback; every operation keeps `Valid`. */
  lemma DisconnectSilent(s: State, shot: GC2Shot, status: BallStatus, opens: bool, ex: Exchange, parse: seq<byte> -> Parsed)
    ensures var a := DisconnectSpec(s);
      !a.connected && !a.hasSocket && a.log == s.log && a.shotNumber == s.shotNumber && a.player == s.player
    ensures Valid(DisconnectSpec(s)) && Valid(ConnectSpec(s, opens, ex, parse).0)
    ensures Valid(s) ==>
      Valid(SendShotSpec(s, shot, ex, parse).state) && Valid(SendHeartbeatSpec(s, ex, parse).state)
      && Valid(SendStatusSpec(s, status, ex, parse).state)
  {
  }

  // ---------------------------------------------------------------------
  // The client object

  class GSProClient {
    var connected: bool
    var hasSocket: bool
    var shotNumber: nat
    var currentPlayer: Option<JObject>
    var responseCallbacks: seq<Callback>
    var disconnectCallbacks: seq<Callback>
    /** What the client has sent and which callbacks it has called. */
    var log: seq<Event>
    /** How reply bytes become a response. */
    const parse: seq<byte> -> Parsed

    function Snapshot(): State
      reads this
    {
      State(connected, hasSocket, shotNumber, currentPlayer, responseCallbacks, disconnectCallbacks, log)
    }

    /** A new client: no socket, not connected, shot number 0, no player, no callbacks. */
    constructor(parse: seq<byte> -> Parsed)
      ensures Snapshot() == State(false, false, 0, None, [], [], []) && this.parse == parse
    {
      connected := false;
      hasSocket := false;
      shotNumber := 0;
      currentPlayer := None;
      responseCallbacks := [];
      disconnectCallbacks := [];
      log := [];
      this.parse := parse;
    }

    method AddResponseCallback(cb: Callback)
      modifies this`responseCallbacks
      ensures responseCallbacks == old(responseCallbacks) + [cb]
    {
      responseCallbacks := responseCallbacks + [cb];
    }

    /** Removes the first registration of `cb`, if there is one. */
    method RemoveResponseCallback(cb: Callback)
      modifies this`responseCallbacks
      ensures responseCallbacks == if cb in old(responseCallbacks) then RemoveFirst(old(responseCallbacks), cb)
                                   else old(responseCallbacks)
    {
      if cb in responseCallbacks {
        responseCallbacks := RemoveFirst(responseCallbacks, cb);
      }
    }

    method AddDisconnectCallback(cb: Callback)
      modifies this`disconnectCallbacks
      ensures disconnectCallbacks == old(disconnectCallbacks) + [cb]
    {
      disconnectCallbacks := disconnectCallbacks + [cb];
    }

    /** Removes the first registration of `cb`, if there is one. */
    method RemoveDisconnectCallback(cb: Callback)
      modifies this`disconnectCallbacks
      ensures disconnectCallbacks == if cb in old(disconnectCallbacks) then RemoveFirst(old(disconnectCallbacks), cb)
                                     else old(disconnectCallbacks)
    {
      if cb in disconnectCallbacks {
        disconnectCallbacks := RemoveFirst(disconnectCallbacks, cb);
      }
    }

    /** `_notify_response`: calls each callback in turn; one that raises does not stop the rest. */
    method NotifyResponse(r: Response)
      modifies this`log
      ensures log == old(log) + ResponseCalls(responseCallbacks, r)
    {
      var i := 0;
      while i < |responseCallbacks|
        invariant 0 <= i <= |responseCallbacks|
        invariant log == old(log) + ResponseCalls(responseCallbacks[..i], r)
      {
        var cb := responseCallbacks[i];
        log := log + [ResponseCall(cb, r)];
        if cb.raises {
          log := log + [CallbackError(cb)];
        }
        assert responseCallbacks[..i + 1][..i] == responseCallbacks[..i];
        SeqConcatAssoc(old(log), ResponseCalls(responseCallbacks[..i], r), ResponseCall1(cb, r));
        i := i + 1;
      }
      assert responseCallbacks[..i] == responseCallbacks;
    }

    /** `_notify_disconnect`: calls each callback in turn; one that raises does not stop the rest. */
    method NotifyDisconnect()
      modifies this`log
      ensures log == old(log) + DisconnectCalls(disconnectCallbacks)
    {
      var i := 0;
      while i < |disconnectCallbacks|
        invariant 0 <= i <= |disconnectCallbacks|
        invariant log == old(log) + DisconnectCalls(disconnectCallbacks[..i])
      {
        var cb := disconnectCallbacks[i];
        log := log + [DisconnectCall(cb)];
        if cb.raises {
          log := log + [CallbackError(cb)];
        }
        assert disconnectCallbacks[..i + 1][..i] == disconnectCallbacks[..i];
        SeqConcatAssoc(old(log), DisconnectCalls(disconnectCallbacks[..i]), DisconnectCall1(cb));
        i := i + 1;
      }
      assert disconnectCallbacks[..i] == disconnectCallbacks;
    }

    /** The `except OSError` clause of `_send_message`. */
    method ConnectionLost()
      modifies this`connected, this`log
      ensures Snapshot() == Lose(old(Snapshot()))
    {
      var wasConnected := connected;
      connected := false;
      if wasConnected {
        NotifyDisconnect();
      } else {
        assert log + [] == log;
      }
    }

    /** Reads stale data until `recv` returns nothing or would block; reports whether it raised instead. */
    method Drain(script: seq<DrainRead>) returns (failed: bool)
      ensures failed == DrainFails(script)
    {
      var i := 0;
      while i < |script| && script[i].Chunk? && script[i].data != []
        invariant 0 <= i <= |script|
        invariant DrainFails(script) == DrainFails(script[i..])
      {
        assert script[i..][1..] == script[i + 1..];
        i := i + 1;
      }
      failed := i < |script| && script[i].DrainFailed?;
    }

    /** `_send_message`. */
    method SendMessage(m: Message, awaitReply: bool, ex: Exchange) returns (out: Outcome)
      modifies this`connected, this`currentPlayer, this`log
      ensures Snapshot() == SendMessageSpec(old(Snapshot()), m, awaitReply, ex, parse).state
      ensures out == SendMessageSpec(old(Snapshot()), m, awaitReply, ex, parse).outcome
    {
      if !hasSocket {
        return Returned(None);
      }
      var drainFailed := Drain(ex.drain);
      if drainFailed || ex.send == SendFailed {
        ConnectionLost();
        return Returned(None);
      }
      log := log + [Sent(m)];
      if !awaitReply {
        return Returned(None);
      }
      match ex.reply {
        case TimedOut =>
          return Returned(None);
        case ReplyFailed =>
          ConnectionLost();
          return Returned(None);
        case Received(data) =>
          if data == [] {
            return Returned(None);
          }
          match parse(data) {
            case Unhandled =>
              return Raised;
            case Malformed =>
              return Returned(None);
            case Decoded(r) =>
              if r.code == 201 && HasPlayer(r) {
                currentPlayer := r.player;
              }
              NotifyResponse(r);
              return Returned(Some(r));
          }
      }
    }

    /** `send_shot`. */
    method SendShot(shot: GC2Shot, ex: Exchange) returns (out: Outcome)
      modifies this`shotNumber, this`connected, this`currentPlayer, this`log
      ensures var a := SendShotSpec(old(Snapshot()), shot, ex, parse);
        Snapshot() == a.state && out == a.outcome
    {
      if !connected || !hasSocket {
        return Returned(None);
      }
      shotNumber := shotNumber + 1;
      out := SendMessage(ShotMessage(shot, shotNumber), true, ex);
    }

    /** `send_heartbeat`. */
    method SendHeartbeat(ex: Exchange) returns (out: Outcome)
      modifies this`connected, this`currentPlayer, this`log
      ensures var a := SendHeartbeatSpec(old(Snapshot()), ex, parse);
        Snapshot() == a.state && out == a.outcome
    {
      if !connected || !hasSocket {
        return Returned(None);
      }
      out := SendMessage(OptionsMessage(shotNumber, HeartbeatOptions), false, ex);
    }

    /** `send_status`. */
    method SendStatus(status: BallStatus, ex: Exchange) returns (out: Outcome)
      modifies this`connected, this`currentPlayer, this`log
      ensures var a := SendStatusSpec(old(Snapshot()), status, ex, parse);
        Snapshot() == a.state && out == a.outcome
    {
      if !connected || !hasSocket {
        return Returned(None);
      }
      out := SendMessage(OptionsMessage(shotNumber, StatusOptions(status)), false, ex);
    }

    /** `connect`: `opens` says whether opening and configuring the socket succeeds. */
    method Connect(opens: bool, ex: Exchange) returns (ok: bool)
      modifies this`hasSocket, this`connected, this`currentPlayer, this`log
      ensures (Snapshot(), ok) == ConnectSpec(old(Snapshot()), opens, ex, parse)
    {
      if !opens {
        hasSocket := false;
        connected := false;
        return false;
      }
      hasSocket := true;
      connected := true;
      var _ := SendHeartbeat(ex);
      return true;
    }

    /** `disconnect`. */
    method Disconnect()
      modifies this`hasSocket, this`connected
      ensures Snapshot() == DisconnectSpec(old(Snapshot()))
    {
      hasSocket := false;
      connected := false;
    }
  }
}
