/** The reconnecting socket. The underlying stream socket, its timers and the
    clock are outside the model: calls to the socket's own `connect` and `end`
    are recorded in `calls`, each clock reading is a `now` parameter, and the
    scheduled retry is a flag (`timerArmed`) with event methods for its firing. */
module Durable {
  import opened Js
  import opened Backoff

  /** Connection options handed to the stream socket (host, port, ...). */
  type Endpoint = map<string, string>

  /** Options read once by the constructor; a missing entry is None. */
  datatype SocketOptions = SocketOptions(
    endpoint: Endpoint,
    minTs: Option<int>,
    maxTs: Option<int>,
    jitter: Option<Fraction>)

  /** What the model asks of the underlying stream socket. */
  datatype SocketCall = ConnectCall(args: Endpoint) | EndCall

  class DurableSocket {
    const minTs: int
    const maxTs: int
    const jitter: Fraction
    /** The options object passed to each connection attempt (`_o`). */
    var config: Endpoint
    /** Delay of the next scheduled retry (`_reconnTs`). */
    var reconnTs: int
    /** Auto-reconnect flag (`_setReconnect`). */
    var setReconnect: bool
    /** The retry-timer handle `_reconnTimeout` refers to a live timer. */
    var timerArmed: bool
    /** The delay the armed timer was scheduled with. */
    var timerDelay: int
    /** Live retry timers whose handle was overwritten with null without being cleared. */
    var orphanTimers: nat
    var disconnecting: bool
    /** Number of `reconnect` events emitted so far (`_reconnTimes`). */
    var reconnTimes: nat
    /** Clock reading at the last close handled with auto-reconnect on. */
    var closedOn: int
    /** Calls made on the underlying stream socket, oldest first. */
    var calls: seq<SocketCall>
    /** The latest clock reading the socket has seen. */
    ghost var clock: int

    predicate WellConfigured()
      reads this
    {
      0 <= minTs <= maxTs && AtLeastOne(jitter)
    }

    ghost predicate Valid()
      reads this
    {
      && closedOn <= clock
      && reconnTs <= Max(minTs, maxTs)
      && (WellConfigured() ==> minTs <= reconnTs <= maxTs)
      && (WellConfigured() && timerArmed ==> minTs <= timerDelay <= maxTs)
    }

    /** Number of retry timers that are still going to fire. */
    function LiveTimers(): nat
      reads this
    {
      orphanTimers + (if timerArmed then 1 else 0)
    }

    constructor (options: SocketOptions, now: int)
      ensures Valid()
      ensures minTs == OrInt(options.minTs, MinReconnTs)
      ensures maxTs == OrInt(options.maxTs, MaxReconnTs)
      ensures jitter == OrFraction(options.jitter, DefaultJitter)
      ensures config == options.endpoint
      ensures reconnTs == minTs && !setReconnect && !timerArmed && orphanTimers == 0
      ensures !disconnecting && reconnTimes == 0 && closedOn == now && calls == []
      ensures clock == now
    {
      minTs := OrInt(options.minTs, MinReconnTs);
      maxTs := OrInt(options.maxTs, MaxReconnTs);
      jitter := OrFraction(options.jitter, DefaultJitter);
      config := options.endpoint;
      reconnTs := OrInt(options.minTs, MinReconnTs);
      setReconnect := false;
      timerArmed := false;
      timerDelay := 0;
      orphanTimers := 0;
      disconnecting := false;
      reconnTimes := 0;
      closedOn := now;
      calls := [];
      clock := now;
    }

    /** Handler of the socket's 'connect' event. With auto-reconnect on it
        emits 'reconnect' with the old counter and increments it, then runs the
        backoff-reset test `closedOn - now > minTs`. */
    method OnConnect(now: int) returns (reconnectEvent: Option<nat>)
      requires Valid() && clock <= now
      modifies this`reconnTs, this`reconnTimes, this`clock
      ensures Valid() && clock == now
      ensures reconnectEvent == if old(setReconnect) then Some(old(reconnTimes)) else None
      ensures reconnTimes == old(reconnTimes) + (if old(setReconnect) then 1 else 0)
      ensures reconnTs == if old(setReconnect) && ResetDue(closedOn, now, minTs) then minTs else old(reconnTs)
      // The test subtracts the wrong way round: the reset never happens.
      ensures 0 <= minTs ==> reconnTs == old(reconnTs)
    {
      clock := now;
      if !setReconnect {
        return None;
      }
      reconnectEvent := Some(reconnTimes);
      reconnTimes := reconnTimes + 1;
      var ts := closedOn - now;
      if ts > minTs {
        reconnTs := minTs;
      }
    }

    /** Handler of the socket's 'close' event: with auto-reconnect on, record
        the close time and schedule a retry. */
    method OnClose(now: int)
      requires Valid() && clock <= now
      modifies this`disconnecting, this`closedOn, this`timerArmed, this`timerDelay, this`reconnTs, this`clock
      ensures Valid() && clock == now
      ensures !old(setReconnect) ==>
                disconnecting == old(disconnecting) && closedOn == old(closedOn) && timerArmed == old(timerArmed)
                && timerDelay == old(timerDelay) && reconnTs == old(reconnTs)
      ensures old(setReconnect) ==> !disconnecting && closedOn == now
      ensures old(setReconnect) && !old(timerArmed) ==>
                timerArmed && timerDelay == old(reconnTs) && reconnTs == NextBackoff(old(reconnTs), jitter, maxTs)
      ensures old(setReconnect) && old(timerArmed) ==>
                timerArmed && timerDelay == old(timerDelay) && reconnTs == old(reconnTs)
    {
      clock := now;
      if !setReconnect {
        return;
      }
      disconnecting := false;
      closedOn := now;
      ScheduleReconnect();
    }

    /** One-shot connection attempt: turns auto-reconnect off. */
    method Connect(args: Endpoint)
      requires Valid()
      modifies this`setReconnect, this`calls
      ensures Valid()
      ensures !setReconnect && calls == old(calls) + [ConnectCall(args)]
    {
      setReconnect := false;
      calls := calls + [ConnectCall(args)];
    }

    /** Keep the connection up: merge the options, turn auto-reconnect on,
        reset the backoff and attempt a connection. */
    method Reconnect(options: Endpoint)
      requires Valid()
      modifies this`config, this`setReconnect, this`reconnTs, this`timerArmed, this`orphanTimers, this`calls
      ensures Valid()
      ensures config == old(config) + options && setReconnect && reconnTs == minTs
      ensures !timerArmed && orphanTimers == old(orphanTimers) + (if old(timerArmed) then 1 else 0)
      ensures calls == old(calls) + [ConnectCall(config)]
    {
      config := config + options;
      setReconnect := true;
      reconnTs := minTs;
      DoReconnect();
    }

    /** `reconnect` as evidently intended: a retry timer that is still armed
        is cleared before its handle is dropped, so no timer is orphaned. */
    method ReconnectClearingTimer(options: Endpoint)
      requires Valid()
      modifies this`config, this`setReconnect, this`reconnTs, this`timerArmed, this`calls
      ensures Valid()
      ensures config == old(config) + options && setReconnect && reconnTs == minTs
      ensures !timerArmed && orphanTimers == old(orphanTimers)
      ensures LiveTimers() <= old(LiveTimers())
      ensures calls == old(calls) + [ConnectCall(config)]
    {
      config := config + options;
      setReconnect := true;
      reconnTs := minTs;
      timerArmed := false;
      calls := calls + [ConnectCall(config)];
    }

    /** Turn auto-reconnect off, cancel the armed retry and end the connection. */
    method Disconnect()
      requires Valid()
      modifies this`setReconnect, this`disconnecting, this`timerArmed, this`calls
      ensures Valid()
      ensures !setReconnect && disconnecting && !timerArmed
      ensures LiveTimers() == old(orphanTimers)
      ensures calls == old(calls) + [EndCall]
    {
      setReconnect := false;
      disconnecting := true;
      timerArmed := false;
      calls := calls + [EndCall];
    }

    /** `_reconnect`: schedule a retry after the current delay and grow the
        delay, unless a retry is armed already or a disconnect is under way. */
    method ScheduleReconnect()
      requires Valid()
      modifies this`timerArmed, this`timerDelay, this`reconnTs
      ensures Valid()
      ensures old(timerArmed) || old(disconnecting) ==>
        timerArmed == old(timerArmed) && timerDelay == old(timerDelay) && reconnTs == old(reconnTs)
      ensures !old(timerArmed) && !old(disconnecting) ==>
        timerArmed && timerDelay == old(reconnTs) && reconnTs == NextBackoff(old(reconnTs), jitter, maxTs)
    {
      if timerArmed || disconnecting {
        return;
      }
      timerArmed := true;
      timerDelay := reconnTs;
      reconnTs := NextBackoff(reconnTs, jitter, maxTs);
    }

    /** `_doReconnect`: drop the timer handle (without clearing the timer)
        and attempt a connection with the current options. */
    method DoReconnect()
      requires Valid()
      modifies this`timerArmed, this`orphanTimers, this`calls
      ensures Valid()
      ensures !timerArmed && orphanTimers == old(orphanTimers) + (if old(timerArmed) then 1 else 0)
      ensures calls == old(calls) + [ConnectCall(config)]
    {
      if timerArmed {
        orphanTimers := orphanTimers + 1;
      }
      timerArmed := false;
      calls := calls + [ConnectCall(config)];
    }

    /** The armed retry timer fires. */
    method FireArmedTimer()
      requires Valid()
      modifies this`timerArmed, this`orphanTimers, this`calls
      ensures Valid()
      ensures !timerArmed && orphanTimers == old(orphanTimers)
      ensures calls == old(calls) + (if old(timerArmed) then [ConnectCall(config)] else [])
    {
      if timerArmed {
        timerArmed := false;
        DoReconnect();
      }
    }

    /** A retry timer whose handle was dropped fires: it still reconnects,
        and it drops the handle of whatever timer is armed by then. */
    method FireOrphanTimer()
      requires Valid()
      modifies this`timerArmed, this`orphanTimers, this`calls
      ensures Valid()
      ensures old(orphanTimers) == 0 ==> timerArmed == old(timerArmed) && orphanTimers == 0 && calls == old(calls)
      ensures old(orphanTimers) > 0 ==>
                && !timerArmed
                && orphanTimers == old(orphanTimers) - 1 + (if old(timerArmed) then 1 else 0)
                && calls == old(calls) + [ConnectCall(config)]
    {
      if orphanTimers > 0 {
        orphanTimers := orphanTimers - 1;
        DoReconnect();
      }
    }
  }

  /** What can happen to a socket: calls of its public methods, events of the
      stream socket, and retry timers firing. */
  datatype SocketEvent =
    | UserConnect(args: Endpoint)
    | UserReconnect(options: Endpoint)
    | UserDisconnect
    | SocketConnected(at: int)
    | SocketClosed(at: int)
    | ArmedTimerFires
    | OrphanTimerFires

  predicate IsUserCall(e: SocketEvent) {
    e.UserConnect? || e.UserReconnect? || e.UserDisconnect?
  }

  /** The most recent call of a public method among the events, if any. */
  function LastUserCall(events: seq<SocketEvent>): (r: Option<SocketEvent>)
    ensures r.Some? ==> IsUserCall(r.value) && r.value in events
  {
    if events == [] then None
    else if IsUserCall(events[|events| - 1]) then Some(events[|events| - 1])
    else LastUserCall(events[..|events| - 1])
  }

  /** Runs events on a socket whose `reconnect` clears the armed timer. No
      timer is ever orphaned, at most one is live, and once `disconnect` is
      the latest public call nothing connects again: the latest call made on
      the stream socket is that disconnect's `end()`, and no timer is left to
      fire. `now` is the latest clock reading so far; a reading that would go
      backwards is read as the latest one. */
  method RunWithClearingReconnect(s: DurableSocket, now: int, events: seq<SocketEvent>)
    requires s.Valid() && s.orphanTimers == 0 && s.clock <= now
    modifies s
    ensures s.Valid() && s.orphanTimers == 0 && s.LiveTimers() <= 1
    ensures LastUserCall(events) == Some(UserDisconnect) ==>
              && !s.setReconnect && s.LiveTimers() == 0
              && |s.calls| > 0 && s.calls[|s.calls| - 1] == EndCall
  {
    var latest := now;
    var i := 0;
    while i < |events|
      invariant 0 <= i <= |events|
      invariant s.Valid() && s.orphanTimers == 0 && s.clock <= latest
      invariant LastUserCall(events[..i]) == Some(UserDisconnect) ==>
                  && !s.setReconnect && !s.timerArmed
                  && |s.calls| > 0 && s.calls[|s.calls| - 1] == EndCall
    {
      assert events[..i + 1][..i] == events[..i];
      match events[i] {
        case UserConnect(args) => s.Connect(args);
        case UserReconnect(options) => s.ReconnectClearingTimer(options);
        case UserDisconnect => s.Disconnect();
        case SocketConnected(at) =>
          latest := Max(at, latest);
          var _ := s.OnConnect(latest);
        case SocketClosed(at) =>
          latest := Max(at, latest);
          s.OnClose(latest);
        case ArmedTimerFires => s.FireArmedTimer();
        case OrphanTimerFires => s.FireOrphanTimer();
      }
      i := i + 1;
    }
    assert events[..|events|] == events;
  }

  /** The backoff-reset test of the 'connect' handler, as written. */
  predicate ResetDue(closedOn: int, now: int, minTs: int) {
    closedOn - now > minTs
  }

  function Max(a: int, b: int): int {
    if a < b then b else a
  }
}
