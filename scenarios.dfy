/** Runs of the two state machines on concrete inputs, each stating the
    observable result it must produce. */
module Scenarios {
  import opened Js
  import opened Backoff
  import opened Durable
  import opened Frames
  import opened Ids
  import opened Correlation
  import opened RpcClient
  import opened Tls

  /** One connection that the server closes at once: the 'connect' event,
      then the 'close' event, then the retry timer firing. */
  method ShortLivedConnection(s: DurableSocket, now: int) returns (count: Option<nat>, delay: int)
    requires s.Valid() && s.clock <= now && s.setReconnect && !s.timerArmed && s.minTs >= 0
    modifies s
    ensures s.Valid() && s.setReconnect && !s.timerArmed && s.orphanTimers == old(s.orphanTimers)
    ensures s.clock == now
    ensures count == Some(old(s.reconnTimes)) && s.reconnTimes == old(s.reconnTimes) + 1
    ensures delay == old(s.reconnTs) && s.reconnTs == NextBackoff(old(s.reconnTs), s.jitter, s.maxTs)
    ensures s.calls == old(s.calls) + [ConnectCall(s.config)] && s.config == old(s.config)
  {
    count := s.OnConnect(now);
    s.OnClose(now);
    delay := s.timerDelay;
    s.FireArmedTimer();
  }

  /** minTs 300, maxTs 10000, default jitter; the server closes five
      connections in a row. The retries wait 300, 360, 432, 518 and 621 ms
      (each floor(previous * 1.2)), and since the reset test never fires the
      growth is not undone by the reconnections in between. The 'reconnect'
      event is emitted with 0 on the very first connection. */
  method BackoffScenario() returns (delays: seq<int>, counts: seq<Option<nat>>)
    ensures delays == [300, 360, 432, 518, 621]
    ensures counts == [Some(0), Some(1), Some(2), Some(3), Some(4)]
  {
    var s := new DurableSocket(SocketOptions(map["port" := "40701"], Some(300), Some(10000), None), 0);
    s.Reconnect(map["host" := "127.0.0.1"]);
    delays, counts := [], [];
    var now := 0;
    while |delays| < 5
      invariant s.Valid() && s.setReconnect && !s.timerArmed && s.clock <= now
      invariant s.minTs == 300 && s.maxTs == 10000 && s.jitter == DefaultJitter
      invariant |counts| == |delays| <= 5 && s.reconnTimes == |delays|
      invariant forall k :: 0 <= k < |delays| ==> delays[k] == Delay(300, DefaultJitter, 10000, k)
      invariant forall k :: 0 <= k < |counts| ==> counts[k] == Some(k)
      invariant s.reconnTs == Delay(300, DefaultJitter, 10000, |delays|)
      decreases 5 - |delays|
    {
      var c, d := ShortLivedConnection(s, now);
      delays, counts := delays + [d], counts + [c];
      now := now + d;
    }
    assert Delay(300, DefaultJitter, 10000, 1) == 360;
    assert Delay(300, DefaultJitter, 10000, 2) == 432;
    assert Delay(300, DefaultJitter, 10000, 3) == 518;
    assert Delay(300, DefaultJitter, 10000, 4) == 621;
  }

  /** A one-shot connection turns auto-reconnect off: the close that ends it
      schedules nothing and leaves the backoff and the close time alone. */
  method OneShotScenario() returns (armed: bool, reconnTs: int, closedOn: int)
    ensures !armed && reconnTs == 200 && closedOn == 5
  {
    var s := new DurableSocket(SocketOptions(map[], None, None, None), 5);
    s.Reconnect(map["port" := "40701"]);
    s.Connect(map["port" := "40702"]);
    var _ := s.OnConnect(10);
    s.OnClose(20);
    armed, reconnTs, closedOn := s.timerArmed, s.reconnTs, s.closedOn;
  }

  /** As written: `reconnect()` while a retry is armed drops the timer's
      handle without clearing it; `disconnect()` then cannot cancel it, and
      when it fires the socket connects again although auto-reconnect is off. */
  method OrphanTimerScenario() returns (callsAfterDisconnect: seq<SocketCall>, reconnecting: bool)
    ensures callsAfterDisconnect == [ConnectCall(map["port" := "40701"])]
    ensures !reconnecting
  {
    var s := new DurableSocket(SocketOptions(map["port" := "40701"], None, None, None), 0);
    s.Reconnect(map[]);
    var _ := s.OnConnect(1);
    s.OnClose(2);
    s.Reconnect(map[]);
    assert s.config == map["port" := "40701"];
    s.Disconnect();
    var n := |s.calls|;
    s.FireArmedTimer();
    s.FireOrphanTimer();
    callsAfterDisconnect := s.calls[n..];
    reconnecting := s.setReconnect;
  }

  /** With the armed timer cleared on `reconnect()`, nothing reconnects after
      `disconnect()`. */
  method ClearedTimerScenario() returns (callsAfterDisconnect: seq<SocketCall>, liveTimers: nat)
    ensures callsAfterDisconnect == [] && liveTimers == 0
  {
    var s := new DurableSocket(SocketOptions(map["port" := "40701"], None, None, None), 0);
    s.ReconnectClearingTimer(map[]);
    var _ := s.OnConnect(1);
    s.OnClose(2);
    s.ReconnectClearingTimer(map[]);
    s.Disconnect();
    var n := |s.calls|;
    s.FireArmedTimer();
    s.FireOrphanTimer();
    callsAfterDisconnect := s.calls[n..];
    liveTimers := s.LiveTimers();
  }

  /** A call with timeout 100 against a server that never answers resolves
      with the timeout error for its id, its id leaves the table, and a
      response arriving late changes nothing. */
  method TimeoutScenario(now: nat, draw: UnitDraw) returns (outcome: Option<Message>, pending: bool, late: Option<Message>)
    ensures outcome == Some(TimeoutError(GetId(now, draw)))
    ensures !pending
    ensures late == outcome
  {
    var c := new JsonRpcClient(ClientOptions(None, None, None, None));
    var rid, made := c.Invoke("AdminServiceRFC.Multiply", JObj(map["x" := JNum(2), "y" := JNum(3)]), Some(100), now, draw);
    var call := made.value;
    TimeoutResolvesPending(c.Table(), call);
    c.FireTimeout(call);
    outcome, pending := c.calls[call].outcome, rid in c.invokeMap;
    DispatchUnknownId(c.Table(), Success(rid, JNum(6)));
    c.OnResponse(Single(Success(rid, JNum(6))));
    late := c.calls[call].outcome;
  }

  /** Two calls in different milliseconds; a batch answers the second one and
      an unknown id. Only the second call resolves, with its own response;
      its timer, firing later, changes nothing. The first is still pending. */
  method ResponseScenario(draw1: UnitDraw, draw2: UnitDraw)
    returns (first: Option<Message>, second: Option<Message>, firstPending: bool)
    ensures first == None && firstPending
    ensures second == Some(Success(GetId(1001, draw2), JNum(6)))
  {
    var c := new JsonRpcClient(ClientOptions(Some(500), None, None, None));
    var rid1, made1 := c.Invoke("AdminServiceRFC.Multiply", JNull, None, 1000, draw1);
    var rid2, made2 := c.Invoke("AdminServiceRFC.Multiply", JNull, None, 1001, draw2);
    var call1, call2 := made1.value, made2.value;
    IdsOfDistinctMillisDiffer(1000, draw1, 1001, draw2);
    assert Unique(c.calls, call1) && Unique(c.calls, call2);
    var unknown := rid1 + rid2 + 1;
    var answer, stray := Success(rid2, JNum(6)), Failure(Some(unknown), RpcError("no such call", -32000));
    var t0 := c.Table();
    c.OnResponse(Batch([answer, stray]));
    var t1 := Dispatch(t0, answer);
    calc {
      c.Table();
      DispatchAll(t0, [answer, stray]);
      { assert [answer, stray][..1] == [answer]; }
      Dispatch(DispatchAll(t0, [answer]), stray);
      { assert [answer][..0] == []; }
      Dispatch(t1, stray);
    }
    ResponseResolvesPending(t0, answer, call2);
    DispatchIsolation(t0, answer);
    DispatchIsolation(t1, stray);
    ExpireEffect(c.Table(), call2);
    c.FireTimeout(call2);
    assert Unique(c.calls, call1);
    first, second, firstPending := c.calls[call1].outcome, c.calls[call2].outcome, rid1 in c.invokeMap;
  }

  /** With a certificate configured, a call made before the encrypted session
      exists rejects: nothing is written and its id never enters the table.
      Once the session is created every request goes to it; the handshake
      settles once, with whichever event comes first. */
  method TlsScenario(now: nat, draw: UnitDraw)
    returns (early: Option<nat>, earlyPending: bool, channel: Channel, settlement: Option<Settlement>, secure: bool)
    ensures early == None && !earlyPending
    ensures channel == TlsSocket
    ensures settlement == Some(Rejected("handshake failed"))
    ensures secure
  {
    var options := ClientOptions(None, Some(Text("-----BEGIN CERTIFICATE-----")), None, None);
    var c := new JsonRpcClient(options);
    var rid;
    rid, early := c.Invoke("AdminServiceRFC.UpdateTunnelsConfig", JObj(map[]), None, now, draw);
    earlyPending := rid in c.invokeMap;
    var h := new TlsHandshake(options);
    c.AttachTlsSocket();
    h.OnError("handshake failed");
    h.OnSecureConnect();
    var _, _ := c.Invoke("AdminServiceRFC.UpdateTunnelsConfig", JObj(map[]), None, now + 1, draw);
    channel := c.written[0].channel;
    settlement, secure := h.settlement, h.secureConnected;
  }
}
