/** The pending-invocation table of the RPC client and the three things
    that change it: a call being made, a call's timer firing and a response
    frame being dispatched. Each call stands for the promise `invoke` returns;
    its `outcome` is what that promise resolved with.

    Responses reach a call through a once-listener registered under the
    call's id; the listener and the timer both resolve only if deleting the
    id from the table succeeds, and that deletion is what makes them
    mutually exclusive. */
module Correlation {
  import opened Js
  import opened Frames

  datatype Call = Call(
    id: Id,
    timeout: int,
    /** The call's timeout timer is set and has neither fired nor been cleared. */
    timerLive: bool,
    /** The call's once-listener for its id is still registered. */
    listening: bool,
    outcome: Option<Message>)

  /** The table `invokeMap` (only its keys matter) and every call made so far. */
  datatype Pending = Pending(invokeMap: set<Id>, calls: seq<Call>)

  /** A promise keeps the first value it is resolved with. */
  function Resolve(o: Option<Message>, m: Message): Option<Message> {
    if o.None? then Some(m) else o
  }

  predicate Listens(c: Call, id: Id) {
    c.listening && c.id == id
  }

  /** Call k holds the earliest registered listener for id. */
  predicate FirstListener(calls: seq<Call>, id: Id, k: int) {
    0 <= k < |calls| && Listens(calls[k], id) && forall j :: 0 <= j < k ==> !Listens(calls[j], id)
  }

  predicate HasListener(calls: seq<Call>, id: Id) {
    exists k :: 0 <= k < |calls| && Listens(calls[k], id)
  }

  /** No other call was given the id of call k. */
  predicate Unique(calls: seq<Call>, k: int) {
    0 <= k < |calls| && forall j :: 0 <= j < |calls| && j != k ==> calls[j].id != calls[k].id
  }

  /** The listener ran and its delete succeeded: clear the timer, resolve. */
  function Claim(c: Call, m: Message): Call {
    c.(listening := false, timerLive := false, outcome := Resolve(c.outcome, m))
  }

  /** A listener for id is removed after it runs, whether or not it resolved. */
  function Unlisten(c: Call, id: Id): Call {
    c.(listening := c.listening && c.id != id)
  }

  /** Emitting id with payload m runs the listeners for id in registration
      order; `present` says whether id is still in the table. Only the first
      listener can find it there. */
  function Deliver(calls: seq<Call>, present: bool, id: Id, m: Message): (r: seq<Call>)
    ensures |r| == |calls|
    ensures forall k :: 0 <= k < |calls| ==>
              r[k] == if present && FirstListener(calls, id, k) then Claim(calls[k], m) else Unlisten(calls[k], id)
    decreases |calls|
  {
    if calls == [] then []
    else
      var head := if present && Listens(calls[0], id) then Claim(calls[0], m) else Unlisten(calls[0], id);
      var tail := Deliver(calls[1..], present && !Listens(calls[0], id), id, m);
      FirstListenerShift(calls, id);
      [head] + tail
  }

  lemma FirstListenerShift(calls: seq<Call>, id: Id)
    requires calls != []
    ensures forall k :: 1 <= k < |calls| ==>
              (FirstListener(calls, id, k) <==> !Listens(calls[0], id) && FirstListener(calls[1..], id, k - 1))
  {
    forall k | 1 <= k < |calls|
      ensures FirstListener(calls, id, k) <==> !Listens(calls[0], id) && FirstListener(calls[1..], id, k - 1)
    {
      if !Listens(calls[0], id) && FirstListener(calls[1..], id, k - 1) {
        forall j | 0 <= j < k ensures !Listens(calls[j], id) {
          if j > 0 {
            assert calls[j] == calls[1..][j - 1];
          }
        }
      }
    }
  }

  /** The client emits the id of a response frame. Every once-listener for
      the id is gone afterwards, and the table only loses ids. */
  function Emit(t: Pending, id: Id, m: Message): (r: Pending)
    ensures |r.calls| == |t.calls| && r.invokeMap <= t.invokeMap
    ensures forall k :: 0 <= k < |r.calls| ==> !Listens(r.calls[k], id)
  {
    var present := id in t.invokeMap;
    Pending(
      if present && HasListener(t.calls, id) then t.invokeMap - {id} else t.invokeMap,
      Deliver(t.calls, present, id, m))
  }

  /** One frame of `_onResponse`: success and error frames are emitted
      under their id; every other frame is only logged. */
  function Dispatch(t: Pending, m: Message): (r: Pending)
    ensures |r.calls| == |t.calls| && r.invokeMap <= t.invokeMap
    ensures ResponseId(m).Some? ==> forall k :: 0 <= k < |r.calls| ==> !Listens(r.calls[k], ResponseId(m).value)
  {
    match ResponseId(m)
    case Some(id) => Emit(t, id, m)
    case None => t
  }

  /** The frames of one line, dispatched in order: no call is added or
      renamed, and the table only loses ids. */
  function DispatchAll(t: Pending, ms: seq<Message>): (r: Pending)
    ensures |r.calls| == |t.calls| && r.invokeMap <= t.invokeMap
    ensures forall k :: 0 <= k < |t.calls| ==> r.calls[k].id == t.calls[k].id
    decreases |ms|
  {
    if ms == [] then t else Dispatch(DispatchAll(t, ms[..|ms| - 1]), ms[|ms| - 1])
  }

  /** `invoke`: the id enters the table; a timer and a listener are set up.
      Earlier calls are kept, and a call under an id no earlier call has is
      the only one under it. */
  function Register(t: Pending, id: Id, timeout: int): (r: Pending)
    ensures id in r.invokeMap && t.invokeMap <= r.invokeMap
    ensures |r.calls| == |t.calls| + 1 && r.calls[..|t.calls|] == t.calls
    ensures (forall k :: 0 <= k < |t.calls| ==> t.calls[k].id != id) ==> Unique(r.calls, |t.calls|)
  {
    Pending(t.invokeMap + {id}, t.calls + [Call(id, timeout, true, true, None)])
  }

  /** The timer of call k fires: it resolves with the timeout error only if
      it can delete the id from the table. */
  function Expire(t: Pending, k: nat): (r: Pending)
    requires k < |t.calls|
    ensures |r.calls| == |t.calls| && r.invokeMap <= t.invokeMap
    ensures !r.calls[k].timerLive && r.calls[k].id == t.calls[k].id
  {
    var c := t.calls[k];
    if !c.timerLive then t
    else if c.id in t.invokeMap then
      Pending(t.invokeMap - {c.id}, t.calls[k := c.(timerLive := false, outcome := Resolve(c.outcome, TimeoutError(c.id)))])
    else
      Pending(t.invokeMap, t.calls[k := c.(timerLive := false)])
  }

  // ---------------------------------------------------------------------
  // Invariant and the properties of the three steps

  /** A resolved call has no timer left; a call that is not resolved and whose
      id no other call shares is still in the table, with its timer and
      listener in place, so exactly one of them will resolve it. */
  ghost predicate Sound(t: Pending) {
    && (forall k :: 0 <= k < |t.calls| && t.calls[k].outcome.Some? ==> !t.calls[k].timerLive)
    && (forall k :: Unique(t.calls, k) && t.calls[k].outcome.None? ==>
          t.calls[k].id in t.invokeMap && t.calls[k].timerLive && t.calls[k].listening)
  }

  /** t2 extends t1: no call is forgotten or renamed, and a resolved call
      keeps the value it resolved with. */
  ghost predicate Stable(t1: Pending, t2: Pending) {
    && |t1.calls| <= |t2.calls|
    && forall k :: 0 <= k < |t1.calls| ==>
         && t2.calls[k].id == t1.calls[k].id
         && (t1.calls[k].outcome.Some? ==> t2.calls[k].outcome == t1.calls[k].outcome)
  }

  lemma StableTransitive(t1: Pending, t2: Pending, t3: Pending)
    requires Stable(t1, t2) && Stable(t2, t3)
    ensures Stable(t1, t3)
  {
  }

  /** Registering a call keeps the invariant, and the new call is pending. */
  lemma RegisterKeepsSound(t: Pending, id: Id, timeout: int)
    requires Sound(t)
    ensures Sound(Register(t, id, timeout)) && Stable(t, Register(t, id, timeout))
    ensures id in Register(t, id, timeout).invokeMap
    ensures forall k :: 0 <= k < |t.calls| && t.calls[k].id != id ==>
              (t.calls[k].id in Register(t, id, timeout).invokeMap <==> t.calls[k].id in t.invokeMap)
  {
    var t' := Register(t, id, timeout);
    forall k | Unique(t'.calls, k) && t'.calls[k].outcome.None?
      ensures t'.calls[k].id in t'.invokeMap && t'.calls[k].timerLive && t'.calls[k].listening
    {
      if k < |t.calls| {
        assert forall j :: 0 <= j < |t.calls| ==> t'.calls[j] == t.calls[j];
        assert Unique(t.calls, k);
      }
    }
  }

  /** A timer that fires changes only its own call and the table entry of that
      call's id; and it resolves the call with the timeout error exactly when
      the call is pending and its id is in the table. */
  lemma ExpireEffect(t: Pending, k: nat)
    requires k < |t.calls|
    ensures |Expire(t, k).calls| == |t.calls|
    ensures forall j :: 0 <= j < |t.calls| && j != k ==> Expire(t, k).calls[j] == t.calls[j]
    ensures Expire(t, k).invokeMap == t.invokeMap - {t.calls[k].id} || Expire(t, k).invokeMap == t.invokeMap
    ensures Expire(t, k).calls[k].outcome ==
              if t.calls[k].timerLive && t.calls[k].id in t.invokeMap
              then Resolve(t.calls[k].outcome, TimeoutError(t.calls[k].id)) else t.calls[k].outcome
    ensures Expire(t, k).calls[k].outcome != t.calls[k].outcome ==> t.calls[k].id !in Expire(t, k).invokeMap
  {
  }

  lemma ExpireKeepsSound(t: Pending, k: nat)
    requires Sound(t) && k < |t.calls|
    ensures Sound(Expire(t, k)) && Stable(t, Expire(t, k))
  {
    var t' := Expire(t, k);
    ExpireEffect(t, k);
    assert forall j :: 0 <= j < |t.calls| ==> t'.calls[j].id == t.calls[j].id;
    forall j | Unique(t'.calls, j) && t'.calls[j].outcome.None?
      ensures t'.calls[j].id in t'.invokeMap && t'.calls[j].timerLive && t'.calls[j].listening
    {
      assert Unique(t.calls, j);
      if j != k {
        assert t.calls[j].id != t.calls[k].id;
      }
    }
  }

  /** The timeout path: a pending call with an id of its own is resolved by its
      timer with the timeout error for that id, and the id leaves the table. */
  lemma TimeoutResolvesPending(t: Pending, k: nat)
    requires Sound(t) && Unique(t.calls, k) && t.calls[k].outcome.None?
    ensures Expire(t, k).calls[k].outcome == Some(TimeoutError(t.calls[k].id))
    ensures t.calls[k].id !in Expire(t, k).invokeMap
  {
  }

  /** The first listener for id exists whenever some listener for id does. */
  lemma FirstListenerExists(calls: seq<Call>, id: Id) returns (k: nat)
    requires HasListener(calls, id)
    ensures FirstListener(calls, id, k)
  {
    var w :| 0 <= w < |calls| && Listens(calls[w], id);
    k := 0;
    while !Listens(calls[k], id)
      invariant k <= w
      invariant forall j :: 0 <= j < k ==> !Listens(calls[j], id)
      decreases w - k
    {
      k := k + 1;
    }
  }

  /** The id leaves the table on an emit only through its first listener,
      which resolves its call with the payload: the delete and the
      resolution go together. */
  lemma EmitDeleteHasClaimant(t: Pending, id: Id, m: Message) returns (k: nat)
    requires id in t.invokeMap && id !in Emit(t, id, m).invokeMap
    ensures FirstListener(t.calls, id, k)
    ensures Emit(t, id, m).calls[k] == Claim(t.calls[k], m)
    ensures forall j :: 0 <= j < |t.calls| && j != k ==> Emit(t, id, m).calls[j].outcome == t.calls[j].outcome
  {
    k := FirstListenerExists(t.calls, id);
    forall j | 0 <= j < |t.calls| && j != k
      ensures Emit(t, id, m).calls[j].outcome == t.calls[j].outcome
    {
      assert !FirstListener(t.calls, id, j);
    }
  }

  /** A timer fires once: a second firing of the same timer changes nothing. */
  lemma ExpireOnce(t: Pending, k: nat)
    requires k < |t.calls|
    ensures Expire(Expire(t, k), k) == Expire(t, k)
  {
  }

  /** A single frame is handled exactly as a batch holding only that frame. */
  lemma SingleFrameIsBatchOfOne(t: Pending, m: Message)
    ensures DispatchAll(t, Normalize(Single(m))) == Dispatch(t, m)
    ensures DispatchAll(t, Normalize(Batch([m]))) == Dispatch(t, m)
  {
    assert [m][..0] == [];
  }

  /** Emitting id touches only the calls registered under id; it resolves at
      most one call, the earliest listener, and only if id was in the table,
      which it then leaves. */
  lemma EmitEffect(t: Pending, id: Id, m: Message)
    ensures |Emit(t, id, m).calls| == |t.calls|
    ensures forall k :: 0 <= k < |t.calls| && t.calls[k].id != id ==> Emit(t, id, m).calls[k] == t.calls[k]
    ensures Emit(t, id, m).invokeMap == t.invokeMap - {id} || Emit(t, id, m).invokeMap == t.invokeMap
    ensures forall k :: 0 <= k < |t.calls| && Emit(t, id, m).calls[k].outcome != t.calls[k].outcome ==>
              && t.calls[k].outcome.None?
              && FirstListener(t.calls, id, k)
              && Emit(t, id, m).calls[k].outcome == Some(m)
              && id !in Emit(t, id, m).invokeMap
    ensures id !in t.invokeMap ==>
              Emit(t, id, m).invokeMap == t.invokeMap
              && forall k :: 0 <= k < |t.calls| ==> Emit(t, id, m).calls[k].outcome == t.calls[k].outcome
  {
    var t' := Emit(t, id, m);
    forall k | 0 <= k < |t.calls| && t'.calls[k].outcome != t.calls[k].outcome
      ensures id !in t'.invokeMap
    {
      assert Listens(t.calls[k], id);
    }
  }

  lemma EmitKeepsSound(t: Pending, id: Id, m: Message)
    requires Sound(t)
    ensures Sound(Emit(t, id, m)) && Stable(t, Emit(t, id, m))
  {
    var t' := Emit(t, id, m);
    forall k | Unique(t'.calls, k) && t'.calls[k].outcome.None?
      ensures t'.calls[k].id in t'.invokeMap && t'.calls[k].timerLive && t'.calls[k].listening
    {
      assert Unique(t.calls, k);
      if t.calls[k].id == id {
        assert FirstListener(t.calls, id, k);
        assert false;
      }
    }
  }

  /** The response path: a response frame for a pending call with an id of its
      own resolves that call with the frame, and the id leaves the table. */
  lemma ResponseResolvesPending(t: Pending, m: Message, k: nat)
    requires Sound(t) && Unique(t.calls, k) && t.calls[k].outcome.None?
    requires ResponseId(m) == Some(t.calls[k].id)
    ensures Dispatch(t, m).calls[k].outcome == Some(m)
    ensures t.calls[k].id !in Dispatch(t, m).invokeMap
  {
    assert FirstListener(t.calls, t.calls[k].id, k);
  }

  /** A response never resolves a call registered under another id, and frames
      that are not responses, or carry a null id, change nothing. */
  lemma DispatchIsolation(t: Pending, m: Message)
    ensures forall k :: 0 <= k < |t.calls| && ResponseId(m) != Some(t.calls[k].id) ==>
              Dispatch(t, m).calls[k] == t.calls[k]
    ensures ResponseId(m).None? ==> Dispatch(t, m) == t
  {
    if ResponseId(m).Some? {
      EmitEffect(t, ResponseId(m).value, m);
    }
  }

  /** A response whose id is not in the table (unknown, or its call already
      timed out) resolves nothing and leaves the table as it is. */
  lemma DispatchUnknownId(t: Pending, m: Message)
    requires ResponseId(m).Some? ==> ResponseId(m).value !in t.invokeMap
    ensures Dispatch(t, m).invokeMap == t.invokeMap
    ensures |Dispatch(t, m).calls| == |t.calls|
    ensures forall k :: 0 <= k < |t.calls| ==> Dispatch(t, m).calls[k].outcome == t.calls[k].outcome
  {
    if ResponseId(m).Some? {
      EmitEffect(t, ResponseId(m).value, m);
    }
  }

  /** Dispatching the frames of a line keeps the invariant, and no call is
      resolved twice. */
  lemma {:induction false} DispatchAllKeepsSound(t: Pending, ms: seq<Message>)
    requires Sound(t)
    ensures Sound(DispatchAll(t, ms)) && Stable(t, DispatchAll(t, ms))
    decreases |ms|
  {
    if ms != [] {
      var mid := DispatchAll(t, ms[..|ms| - 1]);
      DispatchAllKeepsSound(t, ms[..|ms| - 1]);
      var m := ms[|ms| - 1];
      if ResponseId(m).Some? {
        EmitKeepsSound(mid, ResponseId(m).value, m);
      }
      StableTransitive(t, mid, DispatchAll(t, ms));
    }
  }
}
