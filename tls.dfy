/** The in-band upgrade to an encrypted session: pruning the raw socket's
    error listeners (`_fixTlsConnect`), the options of the handshake, and the
    settle-once flag of the handshake promise (`_tlsConnect`). The handshake
    itself is outside the model; its outcome arrives as events. */
module Tls {
  import opened Js
  import opened RpcClient

  /** `emitter.off(event, l)`: removes the most recently added occurrence of
      l and keeps the order of the rest. */
  function RemoveLast<L(==)>(s: seq<L>, l: L): (r: seq<L>)
    ensures l in s ==> exists i :: 0 <= i < |s| && s[i] == l && l !in s[i + 1..] && r == s[..i] + s[i + 1..]
    ensures l in s ==> multiset(r) == multiset(s) - multiset{l}
    ensures l !in s ==> r == s
  {
    if s == [] then []
    else
      var init, last := s[..|s| - 1], s[|s| - 1];
      assert s == init + [last];
      if last == l then
        assert s[|s|..] == [];
        init
      else
        RemoveLastStep(init, last, l, RemoveLast(init, l));
        RemoveLast(init, l) + [last]
  }

  /** Appending an element other than l keeps the shape of a removal of the last l. */
  lemma RemoveLastStep<L>(init: seq<L>, last: L, l: L, r: seq<L>)
    requires last != l
    requires l in init ==> exists i :: 0 <= i < |init| && init[i] == l && l !in init[i + 1..] && r == init[..i] + init[i + 1..]
    ensures var s := init + [last];
      l in s ==> exists i :: 0 <= i < |s| && s[i] == l && l !in s[i + 1..] && r + [last] == s[..i] + s[i + 1..]
  {
    var s := init + [last];
    if l in s {
      assert l in init;
      var i :| 0 <= i < |init| && init[i] == l && l !in init[i + 1..] && r == init[..i] + init[i + 1..];
      assert s[i + 1..] == init[i + 1..] + [last];
      assert s[..i] == init[..i];
    }
  }

  /** `_fixTlsConnect`: given the raw socket's 'error' listeners, remove each
      one after the first (as copied before the loop) and return what is left:
      exactly the first listener. */
  method FixTlsConnect<L(==)>(errorListeners: seq<L>) returns (remaining: seq<L>)
    ensures |errorListeners| == 0 ==> remaining == []
    ensures |errorListeners| >= 1 ==> remaining == [errorListeners[0]]
  {
    var listeners := errorListeners;
    var len := |listeners|;
    remaining := errorListeners;
    var i := 1;
    if len > 0 {
      assert listeners == [listeners[0]] + listeners[1..];
    }
    while i < len
      invariant len == 0 || 1 <= i <= len
      invariant len > 0 ==> multiset(remaining) == multiset{listeners[0]} + multiset(listeners[i..])
      invariant len == 0 ==> remaining == []
    {
      assert listeners[i..] == [listeners[i]] + listeners[i + 1..];
      assert listeners[i] in multiset(remaining);
      remaining := RemoveLast(remaining, listeners[i]);
      i := i + 1;
    }
    if len > 0 {
      assert listeners[len..] == [];
      assert |remaining| == |multiset(remaining)| == 1;
      assert listeners[0] in multiset(remaining);
      assert remaining == [remaining[0]];
    }
  }

  /** The handshake options: each of cert, key and ca is passed on only when truthy. */
  function HandshakeOptions(o: ClientOptions): (r: map<string, Material>)
    ensures "cert" in r <==> TruthyMaterial(o.cert)
    ensures "key" in r <==> TruthyMaterial(o.key)
    ensures "ca" in r <==> TruthyMaterial(o.ca)
    ensures forall k :: k in r ==> k in {"cert", "key", "ca"}
    ensures "cert" in r ==> r["cert"] == o.cert.value
    ensures "key" in r ==> r["key"] == o.key.value
    ensures "ca" in r ==> r["ca"] == o.ca.value
  {
    var withCert := if TruthyMaterial(o.cert) then map["cert" := o.cert.value] else map[];
    var withKey := if TruthyMaterial(o.key) then withCert["key" := o.key.value] else withCert;
    if TruthyMaterial(o.ca) then withKey["ca" := o.ca.value] else withKey
  }

  datatype TlsEvent = SecureConnect | TlsError(err: string)

  datatype Settlement = Resolved | Rejected(err: string)

  /** The handshake promise settles with the first event, whatever follows. */
  function FirstSettlement(events: seq<TlsEvent>): Option<Settlement> {
    if events == [] then None
    else match events[0]
      case SecureConnect => Some(Resolved)
      case TlsError(e) => Some(Rejected(e))
  }

  /** One handshake started by `_tlsConnect`. */
  class TlsHandshake {
    const options: map<string, Material>
    /** The `resolved` flag of the promise executor. */
    var resolved: bool
    var settlement: Option<Settlement>
    /** The once-listener for 'secureConnect' is still registered. */
    var secureListener: bool
    var secureConnected: bool
    /** Line readers attached to the encrypted session. */
    var readers: nat
    /** Every event the encrypted socket has emitted, oldest first. */
    ghost var events: seq<TlsEvent>

    ghost predicate Valid()
      reads this
    {
      && resolved == settlement.Some?
      && settlement == FirstSettlement(events)
      && secureListener == (SecureConnect !in events)
      && secureConnected == (SecureConnect in events)
      && readers == (if SecureConnect in events then 1 else 0)
    }

    constructor (o: ClientOptions)
      ensures Valid() && events == []
      ensures options == HandshakeOptions(o)
      ensures !resolved && settlement == None && secureListener && !secureConnected && readers == 0
    {
      options := HandshakeOptions(o);
      resolved := false;
      settlement := None;
      secureListener := true;
      secureConnected := false;
      readers := 0;
      events := [];
    }

    /** 'secureConnect': the first one marks the session secure, attaches a
        line reader and resolves the promise unless it has settled. */
    method OnSecureConnect()
      requires Valid()
      modifies this
      ensures Valid() && events == old(events) + [SecureConnect]
      ensures old(resolved) ==> settlement == old(settlement)
      ensures !old(resolved) ==> settlement == Some(Resolved)
      ensures secureConnected && readers == 1
    {
      events := events + [SecureConnect];
      if !secureListener {
        return;
      }
      secureListener := false;
      secureConnected := true;
      readers := readers + 1;
      if !resolved {
        resolved := true;
        settlement := Some(Resolved);
      }
    }

    /** 'error': rejects the promise unless it has settled. */
    method OnError(err: string)
      requires Valid()
      modifies this
      ensures Valid() && events == old(events) + [TlsError(err)]
      ensures secureConnected == old(secureConnected) && readers == old(readers)
      ensures old(resolved) ==> settlement == old(settlement)
      ensures !old(resolved) ==> settlement == Some(Rejected(err))
    {
      events := events + [TlsError(err)];
      if !resolved {
        resolved := true;
        settlement := Some(Rejected(err));
      }
    }
  }
}
