/** The push loops behind the two WebSocket channels (`handle_ws_status`,
    `handle_ws_playlist`): connect, send a first snapshot, then resend on
    every qualifying change notification until the stream closes, ends, or
    a send fails. The event stream is a finite sequence; the outcome of
    each send is given by an oracle indexed by the number of the send. */
module PushLoop {

  /** The daemon's change categories. */
  datatype Subsystem =
    | Database | Message | Mixer | Options | Output | Partition | Player | Queue
    | Sticker | StoredPlaylist | Subscription | Update | Neighbor | Mount | Other(name: string)

  datatype ConnectionEvent = SubsystemChange(subsystem: Subsystem) | ConnectionClosed(reason: string)

  datatype Channel = StatusChannel | PlaylistChannel

  /** What happens to the `k`-th snapshot: whether the daemon query succeeds,
      whether the template renders, whether the socket accepts the frame. */
  datatype Attempt = Attempt(queryOk: bool, renderOk: bool, socketOk: bool)

  datatype SendResult = Sent | QueryFailed | RenderFailed | SocketFailed

  /** `send_mpd_status` / `send_playlist`: query, render, write; the first
      failure is the result. */
  function SendSnapshot(a: Attempt): (r: SendResult)
    ensures r == Sent <==> a.queryOk && a.renderOk && a.socketOk
    ensures r == SocketFailed <==> a.queryOk && a.renderOk && !a.socketOk
  {
    if !a.queryOk then QueryFailed
    else if !a.renderOk then RenderFailed
    else if !a.socketOk then SocketFailed
    else Sent
  }

  /** Why a loop ended. */
  datatype Exit = ConnectFailed | InitialSendFailed | SendFailed | Closed | StreamEnded

  /** What a send was for: the first snapshot or the event at an index. */
  datatype Trigger = Initial | OnEvent(index: nat)

  /** The frames a loop delivered, the number of events it consumed, and
      why it ended. */
  datatype Run = Run(sent: seq<Trigger>, consumed: nat, exit: Exit)

  /** The change notifications a channel reacts to. Both channels react to
      the player and the queue, and to nothing else. */
  predicate Qualifies(channel: Channel, s: Subsystem) {
    match channel
    case StatusChannel => s == Player || s == Queue
    case PlaylistChannel => s == Player || s == Queue
  }

  /** The loop from the event at `pos` on, with `sent` delivered so far. */
  function LoopFrom(channel: Channel, events: seq<ConnectionEvent>, pos: nat, sent: seq<Trigger>,
                    attempts: nat -> Attempt): (r: Run)
    requires pos <= |events|
    ensures pos < r.consumed <= |events| || (r.consumed == pos == |events|)
    decreases |events| - pos
  {
    if pos == |events| then Run(sent, pos, StreamEnded)
    else match events[pos]
      case ConnectionClosed(_) => Run(sent, pos + 1, Closed)
      case SubsystemChange(s) =>
        if !Qualifies(channel, s) then LoopFrom(channel, events, pos + 1, sent, attempts)
        else if SendSnapshot(attempts(|sent|)) != Sent then Run(sent, pos + 1, SendFailed)
        else LoopFrom(channel, events, pos + 1, sent + [OnEvent(pos)], attempts)
  }

  /** A whole connection: connect, first snapshot, then the loop. */
  function Session(channel: Channel, connected: bool, events: seq<ConnectionEvent>,
                   attempts: nat -> Attempt): Run
  {
    if !connected then Run([], 0, ConnectFailed)
    else if SendSnapshot(attempts(0)) != Sent then Run([], 0, InitialSendFailed)
    else LoopFrom(channel, events, 0, [Initial], attempts)
  }

  /** The push loop of either channel; `connected` is the outcome of
      `Mpd::connect`. */
  method Serve(channel: Channel, connected: bool, events: seq<ConnectionEvent>, attempts: nat -> Attempt)
    returns (run: Run)
    ensures run == Session(channel, connected, events, attempts)
  {
    if !connected {
      return Run([], 0, ConnectFailed);
    }
    if SendSnapshot(attempts(0)) != Sent {
      return Run([], 0, InitialSendFailed);
    }
    var sent := [Initial];
    var pos := 0;
    while true
      invariant pos <= |events|
      invariant LoopFrom(channel, events, pos, sent, attempts) == Session(channel, connected, events, attempts)
      decreases |events| - pos
    {
      if pos == |events| {
        return Run(sent, pos, StreamEnded);
      }
      var event := events[pos];
      pos := pos + 1;
      match event {
        case SubsystemChange(s) =>
          if Qualifies(channel, s) {
            if SendSnapshot(attempts(|sent|)) != Sent {
              return Run(sent, pos, SendFailed);
            }
            sent := sent + [OnEvent(pos - 1)];
          }
        case ConnectionClosed(_) =>
          return Run(sent, pos, Closed);
      }
    }
  }

  /** `handle_ws_status`. */
  method HandleWsStatus(connected: bool, events: seq<ConnectionEvent>, attempts: nat -> Attempt)
    returns (run: Run)
    ensures run == Session(StatusChannel, connected, events, attempts)
  {
    run := Serve(StatusChannel, connected, events, attempts);
  }

  /** `handle_ws_playlist`. */
  method HandleWsPlaylist(connected: bool, events: seq<ConnectionEvent>, attempts: nat -> Attempt)
    returns (run: Run)
    ensures run == Session(PlaylistChannel, connected, events, attempts)
  {
    run := Serve(PlaylistChannel, connected, events, attempts);
  }

  // ---------------------------------------------------------------------------
  // Properties of a run

  predicate IsClose(e: ConnectionEvent) {
    e.ConnectionClosed?
  }

  predicate Triggers(channel: Channel, e: ConnectionEvent) {
    e.SubsystemChange? && Qualifies(channel, e.subsystem)
  }

  /** The qualifying events with index in `[lo, hi)`, as triggers, in order. */
  function Qualifying(channel: Channel, events: seq<ConnectionEvent>, lo: nat, hi: nat): (r: seq<Trigger>)
    requires lo <= hi <= |events|
    ensures |r| <= hi - lo
    decreases hi - lo
  {
    if lo == hi then []
    else (if Triggers(channel, events[lo]) then [OnEvent(lo)] else []) + Qualifying(channel, events, lo + 1, hi)
  }

  /** The number of events a loop that starts at `pos` has read when every
      send succeeds: up to and including the first close, or all of them. */
  function UntilClose(events: seq<ConnectionEvent>, pos: nat): (n: nat)
    requires pos <= |events|
    ensures pos <= n <= |events|
    decreases |events| - pos
  {
    if pos == |events| then pos
    else if IsClose(events[pos]) then pos + 1
    else UntilClose(events, pos + 1)
  }

  /** Why the loop from `pos` ends, and that it reads no event past the
      first close. */
  lemma {:induction false} LoopFromExit(channel: Channel, events: seq<ConnectionEvent>, pos: nat,
                                        sent: seq<Trigger>, attempts: nat -> Attempt)
    requires pos <= |events|
    requires forall i :: 0 <= i < pos ==> !IsClose(events[i])
    ensures var r := LoopFrom(channel, events, pos, sent, attempts);
            && (forall i :: 0 <= i < r.consumed - 1 ==> !IsClose(events[i]))
            && (r.exit == StreamEnded || r.exit == Closed || r.exit == SendFailed)
            && (r.exit == StreamEnded ==> r.consumed == |events| && (forall i :: 0 <= i < |events| ==> !IsClose(events[i])))
            && (r.exit == Closed ==> IsClose(events[r.consumed - 1]))
            && (r.exit == SendFailed ==>
                  Triggers(channel, events[r.consumed - 1]) && SendSnapshot(attempts(|r.sent|)) != Sent)
    decreases |events| - pos
  {
    if pos < |events| {
      match events[pos]
      case ConnectionClosed(_) =>
      case SubsystemChange(s) =>
        if !Qualifies(channel, s) {
          LoopFromExit(channel, events, pos + 1, sent, attempts);
        } else if SendSnapshot(attempts(|sent|)) == Sent {
          LoopFromExit(channel, events, pos + 1, sent + [OnEvent(pos)], attempts);
        }
    }
  }

  /** The loop from `pos` delivers, after `sent`, one frame per qualifying
      event it reads, except the one whose send fails. */
  ghost predicate SentMatches(channel: Channel, events: seq<ConnectionEvent>, pos: nat,
                              sent: seq<Trigger>, attempts: nat -> Attempt)
    requires pos <= |events|
  {
    var r := LoopFrom(channel, events, pos, sent, attempts);
    var end := if r.exit == SendFailed then r.consumed - 1 else r.consumed;
    pos <= end <= |events| && r.sent == sent + Qualifying(channel, events, pos, end)
  }

  /** A change the channel ignores is skipped without a frame. */
  lemma SkipStep(channel: Channel, events: seq<ConnectionEvent>, pos: nat, sent: seq<Trigger>,
                 attempts: nat -> Attempt)
    requires pos < |events| && events[pos].SubsystemChange? && !Qualifies(channel, events[pos].subsystem)
    requires SentMatches(channel, events, pos + 1, sent, attempts)
    ensures SentMatches(channel, events, pos, sent, attempts)
  {
    var r := LoopFrom(channel, events, pos + 1, sent, attempts);
    var end := if r.exit == SendFailed then r.consumed - 1 else r.consumed;
    assert Qualifying(channel, events, pos, end) == Qualifying(channel, events, pos + 1, end);
  }

  /** A qualifying change whose send succeeds adds its frame. */
  lemma SendStep(channel: Channel, events: seq<ConnectionEvent>, pos: nat, sent: seq<Trigger>,
                 attempts: nat -> Attempt)
    requires pos < |events| && events[pos].SubsystemChange? && Qualifies(channel, events[pos].subsystem)
    requires SendSnapshot(attempts(|sent|)) == Sent
    requires SentMatches(channel, events, pos + 1, sent + [OnEvent(pos)], attempts)
    ensures SentMatches(channel, events, pos, sent, attempts)
  {
    var r := LoopFrom(channel, events, pos + 1, sent + [OnEvent(pos)], attempts);
    var end := if r.exit == SendFailed then r.consumed - 1 else r.consumed;
    var rest := Qualifying(channel, events, pos + 1, end);
    assert Qualifying(channel, events, pos, end) == [OnEvent(pos)] + rest;
    assert sent + [OnEvent(pos)] + rest == sent + ([OnEvent(pos)] + rest);
  }

  lemma {:induction false} LoopFromSent(channel: Channel, events: seq<ConnectionEvent>, pos: nat,
                                        sent: seq<Trigger>, attempts: nat -> Attempt)
    requires pos <= |events|
    ensures SentMatches(channel, events, pos, sent, attempts)
    decreases |events| - pos
  {
    if pos < |events| {
      var e := events[pos];
      if e.ConnectionClosed? {
        assert Qualifying(channel, events, pos, pos + 1) == [];
      } else if !Qualifies(channel, e.subsystem) {
        LoopFromSent(channel, events, pos + 1, sent, attempts);
        SkipStep(channel, events, pos, sent, attempts);
      } else if SendSnapshot(attempts(|sent|)) == Sent {
        LoopFromSent(channel, events, pos + 1, sent + [OnEvent(pos)], attempts);
        SendStep(channel, events, pos, sent, attempts);
      }
    }
  }

  /** Every run ends, having read no event past the first close. A failed
      connection sends nothing and reads nothing; a failed first snapshot
      reads nothing. Otherwise the first frame is the initial snapshot, and
      the frames after it are exactly one per qualifying event read, in
      order; a failed send ends the run at the event that caused it. */
  lemma SessionShape(channel: Channel, connected: bool, events: seq<ConnectionEvent>, attempts: nat -> Attempt)
    ensures var r := Session(channel, connected, events, attempts);
            && r.consumed <= |events|
            && (forall i :: 0 <= i < r.consumed - 1 ==> !IsClose(events[i]))
            && (!connected ==> r == Run([], 0, ConnectFailed))
            && (connected && SendSnapshot(attempts(0)) != Sent ==> r == Run([], 0, InitialSendFailed))
            && (connected && SendSnapshot(attempts(0)) == Sent ==>
                  && (r.exit == StreamEnded ==>
                        r.consumed == |events| && forall i :: 0 <= i < |events| ==> !IsClose(events[i]))
                  && (r.exit == Closed ==> IsClose(events[r.consumed - 1]))
                  && (r.exit == SendFailed ==> Triggers(channel, events[r.consumed - 1]))
                  && (r.exit == SendFailed ==> SendSnapshot(attempts(|r.sent|)) != Sent)
                  && (forall k :: 0 <= k < |r.sent| ==> SendSnapshot(attempts(k)) == Sent)
                  && (r.exit == StreamEnded || r.exit == Closed || r.exit == SendFailed)
                  && r.sent == [Initial] + Qualifying(channel, events, 0,
                                                      if r.exit == SendFailed then r.consumed - 1 else r.consumed))
  {
    if connected && SendSnapshot(attempts(0)) == Sent {
      LoopFromExit(channel, events, 0, [Initial], attempts);
      LoopFromSent(channel, events, 0, [Initial], attempts);
      LoopFromAttempts(channel, events, 0, [Initial], attempts);
    }
  }

  /** Every frame the loop delivers is one whose send succeeded: a failed
      send is never followed by another. */
  lemma {:induction false} LoopFromAttempts(channel: Channel, events: seq<ConnectionEvent>, pos: nat,
                                            sent: seq<Trigger>, attempts: nat -> Attempt)
    requires pos <= |events|
    requires forall k :: 0 <= k < |sent| ==> SendSnapshot(attempts(k)) == Sent
    ensures var r := LoopFrom(channel, events, pos, sent, attempts);
            forall k :: 0 <= k < |r.sent| ==> SendSnapshot(attempts(k)) == Sent
    decreases |events| - pos
  {
    if pos < |events| && events[pos].SubsystemChange? {
      if !Qualifies(channel, events[pos].subsystem) {
        LoopFromAttempts(channel, events, pos + 1, sent, attempts);
      } else if SendSnapshot(attempts(|sent|)) == Sent {
        LoopFromAttempts(channel, events, pos + 1, sent + [OnEvent(pos)], attempts);
      }
    }
  }

  lemma {:induction false} LoopFromAllSent(channel: Channel, events: seq<ConnectionEvent>, pos: nat,
                                           sent: seq<Trigger>, attempts: nat -> Attempt)
    requires pos <= |events|
    requires forall k :: SendSnapshot(attempts(k)) == Sent
    ensures var r := LoopFrom(channel, events, pos, sent, attempts);
            r.exit != SendFailed && r.consumed == UntilClose(events, pos)
    decreases |events| - pos
  {
    if pos < |events| {
      LoopFromAllSent(channel, events, pos + 1, sent, attempts);
      LoopFromAllSent(channel, events, pos + 1, sent + [OnEvent(pos)], attempts);
    }
  }

  /** When every send succeeds the loop ends only by a close or the end of
      the stream, reads up to the first close, and sends once plus once per
      qualifying event before that close. */
  lemma AllSendsSucceed(channel: Channel, events: seq<ConnectionEvent>, attempts: nat -> Attempt)
    requires forall k :: SendSnapshot(attempts(k)) == Sent
    ensures var r := Session(channel, true, events, attempts);
            && (r.exit == Closed || r.exit == StreamEnded)
            && r.consumed == UntilClose(events, 0)
            && r.sent == [Initial] + Qualifying(channel, events, 0, UntilClose(events, 0))
  {
    LoopFromAllSent(channel, events, 0, [Initial], attempts);
    SessionShape(channel, true, events, attempts);
  }

  /** The two channels react to the same changes, so their runs agree; in
      particular the playlist channel ignores option changes. */
  lemma ChannelsAgree(connected: bool, events: seq<ConnectionEvent>, attempts: nat -> Attempt)
    ensures Session(StatusChannel, connected, events, attempts) == Session(PlaylistChannel, connected, events, attempts)
    ensures !Qualifies(PlaylistChannel, Options) && !Qualifies(StatusChannel, Options)
  {
    if connected && SendSnapshot(attempts(0)) == Sent {
      LoopFromChannelsAgree(events, 0, [Initial], attempts);
    }
  }

  lemma {:induction false} LoopFromChannelsAgree(events: seq<ConnectionEvent>, pos: nat, sent: seq<Trigger>,
                                                 attempts: nat -> Attempt)
    requires pos <= |events|
    ensures LoopFrom(StatusChannel, events, pos, sent, attempts) == LoopFrom(PlaylistChannel, events, pos, sent, attempts)
    decreases |events| - pos
  {
    if pos < |events| {
      LoopFromChannelsAgree(events, pos + 1, sent, attempts);
      LoopFromChannelsAgree(events, pos + 1, sent + [OnEvent(pos)], attempts);
    }
  }
}
