/** The RPC client: option handling, `invoke`, `wireWrite` and `_onResponse`.
    The connection it drives, the once-listeners under each id and the timers
    are represented by the `calls` of the pending table (see Correlation);
    what goes to the wire is recorded in `written`. */
module RpcClient {
  import opened Js
  import opened Frames
  import opened Ids
  import opened Correlation

  /** Default timeout of an invocation, in milliseconds. */
  const DefaultTimeout: int := 2000

  datatype ClientOptions = ClientOptions(
    timeout: Option<int>,
    cert: Option<Material>,
    key: Option<Material>,
    ca: Option<Material>)

  /** `options.timeout || Timeout`: never 0, so every call gets a real timeout. */
  function ClientTimeout(o: Option<int>): (r: int)
    ensures r != 0
    ensures TruthyInt(o) ==> r == o.value
    ensures !TruthyInt(o) ==> r == DefaultTimeout
  {
    OrInt(o, DefaultTimeout)
  }

  /** `(options && options.timeout) || this._o.timeout`: the call's own timeout
      when it has one, otherwise the client's. */
  function CallTimeout(perCall: Option<int>, clientTimeout: int): (r: int)
    ensures TruthyInt(perCall) ==> r == perCall.value
    ensures !TruthyInt(perCall) ==> r == clientTimeout
    ensures clientTimeout != 0 ==> r != 0
  {
    OrInt(perCall, clientTimeout)
  }

  /** `options.cert || options.key || options.ca`, the value stored as
      `tlsEnabled`: truthy exactly when one of the three is. */
  function TlsSetting(o: ClientOptions): (r: Option<Material>)
    ensures TruthyMaterial(r) <==> TruthyMaterial(o.cert) || TruthyMaterial(o.key) || TruthyMaterial(o.ca)
    ensures TruthyMaterial(r) ==> r == o.cert || r == o.key || r == o.ca
  {
    OrMaterial(OrMaterial(o.cert, o.key), o.ca)
  }

  datatype Channel = RawSocket | TlsSocket

  /** One write: the frame serialised as JSON and followed by a newline. */
  datatype Written = Written(channel: Channel, frame: Message)

  class JsonRpcClient {
    const timeout: int
    const tlsEnabled: bool
    var invokeMap: set<Id>
    var calls: seq<Call>
    var written: seq<Written>
    /** `this.tlsSocket` has been assigned by a handshake. */
    var tlsSocketSet: bool

    function Table(): Pending
      reads this
    {
      Pending(invokeMap, calls)
    }

    ghost predicate Valid()
      reads this
    {
      Sound(Table()) && timeout != 0
    }

    constructor (options: ClientOptions)
      ensures Valid()
      ensures timeout == ClientTimeout(options.timeout)
      ensures tlsEnabled == TruthyMaterial(TlsSetting(options))
      ensures invokeMap == {} && calls == [] && written == [] && !tlsSocketSet
    {
      timeout := ClientTimeout(options.timeout);
      tlsEnabled := TruthyMaterial(TlsSetting(options));
      invokeMap := {};
      calls := [];
      written := [];
      tlsSocketSet := false;
    }

    /** `_tlsConnect` creates the encrypted session on top of the socket. */
    method AttachTlsSocket()
      modifies this`tlsSocketSet
      ensures tlsSocketSet
    {
      tlsSocketSet := true;
    }

    /** `wireWrite`: to the encrypted session exactly when TLS is enabled.
        With TLS enabled and no session created yet, the write throws and
        nothing is written. */
    method WireWrite(frame: Message) returns (thrown: bool)
      modifies this`written
      ensures thrown <==> tlsEnabled && !tlsSocketSet
      ensures thrown ==> written == old(written)
      ensures !thrown ==> written == old(written) + [Written(if tlsEnabled then TlsSocket else RawSocket, frame)]
    {
      if tlsEnabled {
        if !tlsSocketSet {
          return true;
        }
        written := written + [Written(TlsSocket, frame)];
      } else {
        written := written + [Written(RawSocket, frame)];
      }
      thrown := false;
    }

    /** `invoke`: write one request line under the id GetId(now, draw), enter the id in the
        table and start the call's timer and listener. `call` indexes the new
        call, standing for the promise returned; it is None when the write
        threw, and the promise rejected before the id entered the table. */
    method Invoke(name: string, input: Json, perCall: Option<int>, now: nat, draw: UnitDraw)
      returns (rid: Id, call: Option<nat>)
      requires Valid()
      modifies this`invokeMap, this`calls, this`written
      ensures Valid() && Stable(old(Table()), Table())
      ensures rid == GetId(now, draw) && rid / Spread == now
      ensures call.None? <==> tlsEnabled && !tlsSocketSet
      ensures call.None? ==> Table() == old(Table()) && written == old(written)
      ensures call.Some? ==>
                && Table() == Register(old(Table()), rid, CallTimeout(perCall, timeout))
                && call.value == old(|calls|) && rid in invokeMap
                && calls[call.value].outcome.None? && calls[call.value].timeout != 0
                && written == old(written) + [Written(if tlsEnabled then TlsSocket else RawSocket, Request(rid, name, input))]
    {
      var t := CallTimeout(perCall, timeout);
      rid := GetId(now, draw);
      var thrown := WireWrite(Request(rid, name, input));
      if thrown {
        return rid, None;
      }
      RegisterKeepsSound(Table(), rid, t);
      invokeMap := invokeMap + {rid};
      calls := calls + [Call(rid, t, true, true, None)];
      call := Some(|calls| - 1);
    }

    /** The timer of a call fires: resolve with the timeout error only if the
        id can still be deleted from the table. */
    method FireTimeout(call: nat)
      requires Valid() && call < |calls|
      modifies this`invokeMap, this`calls
      ensures Valid() && Stable(old(Table()), Table())
      ensures Table() == Expire(old(Table()), call)
    {
      ExpireKeepsSound(Table(), call);
      var c := calls[call];
      if !c.timerLive {
        return;
      }
      c := c.(timerLive := false);
      if c.id in invokeMap {
        invokeMap := invokeMap - {c.id};
        c := c.(outcome := Resolve(c.outcome, TimeoutError(c.id)));
      }
      calls := calls[call := c];
    }

    /** Emit a response payload under its id: the listeners registered under it run. */
    method EmitResponse(id: Id, m: Message)
      requires Valid()
      modifies this`invokeMap, this`calls
      ensures Valid() && Stable(old(Table()), Table())
      ensures Table() == Emit(old(Table()), id, m)
    {
      EmitKeepsSound(Table(), id, m);
      var t := Emit(Table(), id, m);
      invokeMap, calls := t.invokeMap, t.calls;
    }

    /** One frame of a line: success and error frames are emitted under
        their id, the rest only logged. */
    method OnFrame(m: Message)
      requires Valid()
      modifies this`invokeMap, this`calls
      ensures Valid() && Stable(old(Table()), Table())
      ensures Table() == Dispatch(old(Table()), m)
    {
      match m {
        case Success(id, _) => EmitResponse(id, m);
        case Failure(Some(id), _) => EmitResponse(id, m);
        case _ =>
      }
    }

    /** `_onResponse` for one parsed line: a single frame is handled as a list
        of one; success and error frames are emitted under their id, the rest
        only logged. */
    method OnResponse(parsed: Parsed)
      requires Valid()
      modifies this`invokeMap, this`calls
      ensures Valid() && Stable(old(Table()), Table())
      ensures Table() == DispatchAll(old(Table()), Normalize(parsed))
    {
      var frames := Normalize(parsed);
      var i := 0;
      while i < |frames|
        invariant 0 <= i <= |frames|
        invariant Valid() && Stable(old(Table()), Table())
        invariant Table() == DispatchAll(old(Table()), frames[..i])
      {
        assert frames[..i + 1][..i] == frames[..i];
        ghost var before := Table();
        OnFrame(frames[i]);
        StableTransitive(old(Table()), before, Table());
        i := i + 1;
      }
      assert frames[..|frames|] == frames;
    }
  }
}
