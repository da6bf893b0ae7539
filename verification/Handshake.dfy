/**
 Who is let in: Ipc/HandshakeHandler.cs, Ipc/RegistryNonceStore.cs, Ipc/RpcDispatcher.cs and the new context per
 connection of Ipc/PipeServer.cs, over every run of connections and requests.
 */
module Handshake {
  import opened Prelude
  import opened PluginState
  import Base64Url

  const EXPECTED_PKG_FAMILY := "KeePassKeyWin.Provider_4fv17arhjxxvg"

  /** The params of keepasskeywin.hello; the key is base64 text. */
  datatype HelloParams = NotAnObject | HelloParams(pkg: Option<string>, nonce: Option<string>, key: Option<bytes>)

  datatype HelloFault = AlreadyComplete | MissingParams | UnknownPackage | BadNonce | KeyMissing | KeyMalformed

  datatype Outcome = Greeted | Refused(f: HelloFault) | HandshakeRequired | Forwarded | MethodNotFound | InternalError

  /** What the random generator yields, and whether the registry takes it. */
  datatype Draw = Draw(nonce: string, written: bool)

  /** The nonce the plugin would accept, and the one a sidecar reads in the registry. */
  datatype Nonces = Nonces(current: Option<string>, published: Option<string>)

  /** The nonce is replaced in memory first and then written. */
  function Rotated(n: Nonces, d: Draw): Nonces
  {
    Nonces(Some(d.nonce), if d.written then Some(d.nonce) else n.published)
  }

  datatype Rpc = Hello(p: HelloParams) | Other(name: string)

  function LowerChar(c: char): char
  {
    if 'A' <= c <= 'Z' then c - 'A' + 'a' else c
  }

  function Lower(s: string): string
  {
    seq(|s|, i requires 0 <= i < |s| => LowerChar(s[i]))
  }

  predicate SameIgnoringCase(a: string, b: string)
  {
    Lower(a) == Lower(b)
  }

  predicate Blank(s: Option<string>)
  {
    s.None? || s.value == ""
  }

  /** What a hello does to the connection, the nonces and the key. */
  datatype After = After(complete: bool, nonces: Nonces, key: Option<bytes>, out: Outcome)

  predicate Consumes(complete: bool, nonce: Option<string>, p: HelloParams)
  {
    && !complete && p.HelloParams? && !Blank(p.pkg) && !Blank(p.nonce) && p.pkg.value == EXPECTED_PKG_FAMILY
    && nonce.Some? && SameIgnoringCase(p.nonce.value, nonce.value)
  }

  /** The op-sign key a hello carries, if it carries a readable one. */
  function KeyIn(p: HelloParams): Option<bytes>
  {
    if p.HelloParams? && p.key.Some? && p.key.value != [] then Base64Url.FromBase64(p.key.value) else None
  }

  /** `d` is drawn if a nonce is consumed; if it cannot be written the exception leaves the connection as it was. */
  function HelloEffect(complete: bool, n: Nonces, key: Option<bytes>, p: HelloParams, d: Draw): After
  {
    if complete then After(complete, n, key, Refused(AlreadyComplete))
    else if p.NotAnObject? || Blank(p.pkg) || Blank(p.nonce) then After(complete, n, key, Refused(MissingParams))
    else if p.pkg.value != EXPECTED_PKG_FAMILY then After(complete, n, key, Refused(UnknownPackage))
    else if !Consumes(complete, n.current, p) then After(complete, n, key, Refused(BadNonce))
    else if !d.written then After(complete, Rotated(n, d), key, InternalError)
    else if p.key.None? || p.key.value == [] then After(true, Rotated(n, d), key, Refused(KeyMissing))
    else if KeyIn(p).None? then After(true, Rotated(n, d), key, Refused(KeyMalformed))
    else After(true, Rotated(n, d), KeyIn(p), Greeted)
  }

  function DispatchEffect(complete: bool, n: Nonces, key: Option<bytes>, wired: bool, r: Rpc, d: Draw): After
  {
    match r
    case Hello(p) => HelloEffect(complete, n, key, p, d)
    case Other(_) => After(complete, n, key, if !complete then HandshakeRequired else if wired then Forwarded else MethodNotFound)
  }

  // -- the code --------------------------------------------------------------------------------------

  class ConnectionContext {
    var handshakeComplete: bool
    var clientPkgFamily: Option<string>

    constructor ()
      ensures !handshakeComplete
    {
      handshakeComplete, clientPkgFamily := false, None;
    }
  }

  class RegistryNonceStore {
    var nonce: Option<string>
    var registry: Option<string>

    /** The registry may hold what an earlier plugin process left. */
    constructor (left: Option<string>)
      ensures Both() == Nonces(None, left)
    {
      nonce, registry := None, left;
    }

    ghost function Both(): Nonces
      reads this
    {
      Nonces(nonce, registry)
    }

    /** False stands for an exception of the registry. */
    method Initialize(d: Draw) returns (ok: bool)
      modifies this
      ensures Both() == Rotated(old(Both()), d) && ok == d.written
    {
      nonce := Some(d.nonce);
      if d.written {
        registry := nonce;
      }
      return d.written;
    }

    /** A match is consumed and replaced at once, so that the next activation finds a nonce of its own; None when that throws. */
    method ConsumeNonce(presented: string, d: Draw) returns (ok: Option<bool>)
      modifies this
      ensures var hit := old(nonce).Some? && SameIgnoringCase(presented, old(nonce).value);
        && ok == (if !hit then Some(false) else if d.written then Some(true) else None)
        && Both() == if hit then Rotated(old(Both()), d) else old(Both())
    {
      if nonce.None? {
        return Some(false);
      }
      var hit := SameIgnoringCase(presented, nonce.value);
      if hit {
        var written := Initialize(d);
        return if written then Some(true) else None;
      }
      return Some(false);
    }

    /** An exception of the registry is swallowed. */
    method Clear(deleted: bool)
      modifies this
      ensures Both() == Cleared(old(Both()), deleted)
    {
      nonce := None;
      if deleted {
        registry := None;
      }
    }
  }

  function Cleared(n: Nonces, deleted: bool): Nonces
  {
    Nonces(None, if deleted then None else n.published)
  }

  class RpcDispatcher {
    const nonceStore: RegistryNonceStore
    const cache: OpSignPubKeyCache
    const wired: bool

    constructor (nonceStore: RegistryNonceStore, cache: OpSignPubKeyCache, wired: bool)
      ensures this.nonceStore == nonceStore && this.cache == cache && this.wired == wired
    {
      this.nonceStore, this.cache, this.wired := nonceStore, cache, wired;
    }

    /** HandshakeHandler.Handle: the connection is complete before the key is looked at. */
    method HandleHello(p: HelloParams, context: ConnectionContext, d: Draw) returns (out: Outcome)
      modifies nonceStore, cache, context
      ensures var a := HelloEffect(old(context.handshakeComplete), old(nonceStore.Both()), old(cache.current), p, d);
        && out == a.out && context.handshakeComplete == a.complete && nonceStore.Both() == a.nonces && cache.current == a.key
    {
      hide Base64Url.FromBase64, SameIgnoringCase;
      if context.handshakeComplete {
        return Refused(AlreadyComplete);
      }
      if p.NotAnObject? {
        return Refused(MissingParams);
      }
      if p.pkg.None? || p.pkg.value == "" || p.nonce.None? || p.nonce.value == "" {
        return Refused(MissingParams);
      }
      if p.pkg.value != EXPECTED_PKG_FAMILY {
        return Refused(UnknownPackage);
      }
      var consumed := nonceStore.ConsumeNonce(p.nonce.value, d);
      if consumed.None? {
        return InternalError;
      }
      if !consumed.value {
        return Refused(BadNonce);
      }
      context.handshakeComplete := true;
      context.clientPkgFamily := p.pkg;
      if p.key.None? || p.key.value == [] {
        return Refused(KeyMissing);
      }
      var keyBytes := Base64Url.FromBase64(p.key.value);
      if keyBytes.None? {
        return Refused(KeyMalformed);
      }
      cache.Set(keyBytes.value);
      return Greeted;
    }

    method Dispatch(r: Rpc, context: ConnectionContext, d: Draw) returns (out: Outcome)
      modifies nonceStore, cache, context
      ensures var a := DispatchEffect(old(context.handshakeComplete), old(nonceStore.Both()), old(cache.current), wired, r, d);
        && out == a.out && context.handshakeComplete == a.complete && nonceStore.Both() == a.nonces && cache.current == a.key
    {
      hide HelloEffect;
      if r.Hello? {
        out := HandleHello(r.p, context, d);
        return;
      }
      if !context.handshakeComplete {
        return HandshakeRequired;
      }
      if wired {
        return Forwarded;
      }
      return MethodNotFound;
    }
  }

  // -- runs ------------------------------------------------------------------------------------------------

  /** PipeServer serves one connection at a time, each with a new context; `conn` numbers them. */
  datatype State = State(conn: nat, complete: bool, nonces: Nonces, key: Option<bytes>)

  datatype Event =
    | Accept                       // the listener loop gets its next client
    | Request(r: Rpc)
    | InitializeStore | ClearStore

  /** One event; `drawn` is what the random generator yields if asked, and whether the registry can be written. */
  datatype Tick = Tick(pre: State, e: Event, drawn: Draw, post: State, out: Outcome)

  predicate Taken(wired: bool, t: Tick)
  {
    match t.e
    case Accept => t.post == State(t.pre.conn + 1, false, t.pre.nonces, t.pre.key) && t.out == MethodNotFound
    case InitializeStore => t.post == t.pre.(nonces := Rotated(t.pre.nonces, t.drawn)) && t.out == MethodNotFound
    case ClearStore => t.post == t.pre.(nonces := Cleared(t.pre.nonces, t.drawn.written)) && t.out == MethodNotFound
    case Request(r) =>
      var a := DispatchEffect(t.pre.complete, t.pre.nonces, t.pre.key, wired, r, t.drawn);
      t.post == State(t.pre.conn, a.complete, a.nonces, a.key) && t.out == a.out
  }

  /** The plugin starts with no connection, no nonce and no key; the registry may hold an old nonce. */
  predicate Starts(st: State)
  {
    st.conn == 0 && !st.complete && st.nonces.current == None && st.key == None
  }

  ghost predicate IsRun(wired: bool, ts: seq<Tick>)
  {
    && (ts != [] ==> Starts(ts[0].pre))
    && (forall i :: 0 <= i < |ts| ==> Taken(wired, ts[i]))
    && (forall i :: 0 < i < |ts| ==> ts[i].pre == ts[i - 1].post)
  }

  /** Every draw is unlike all earlier ones and what the registry held at the start, letter case aside. */
  ghost predicate FreshNonces(ts: seq<Tick>)
  {
    && (forall i, j :: 0 <= i < j < |ts| ==> !SameIgnoringCase(ts[i].drawn.nonce, ts[j].drawn.nonce))
    && (forall i :: 0 <= i < |ts| && ts[0].pre.nonces.published.Some? ==>
          !SameIgnoringCase(ts[0].pre.nonces.published.value, ts[i].drawn.nonce))
  }

  /** This event is a hello that consumes the current nonce. */
  predicate ConsumesAt(t: Tick)
  {
    t.e.Request? && t.e.r.Hello? && Consumes(t.pre.complete, t.pre.nonces.current, t.e.r.p)
  }

  /** And its successor could be written. */
  predicate AuthenticatesAt(t: Tick)
  {
    ConsumesAt(t) && t.drawn.written
  }

  predicate Rotates(t: Tick)
  {
    t.e.InitializeStore? || ConsumesAt(t)
  }

  lemma TickFacts(wired: bool, t: Tick)
    requires Taken(wired, t)
    ensures t.post.complete ==> t.post.conn == t.pre.conn && (t.pre.complete || AuthenticatesAt(t))
    ensures ConsumesAt(t) ==> !t.pre.complete && (t.post.complete <==> t.drawn.written) && t.post.conn == t.pre.conn
    ensures Rotates(t) ==> t.post.nonces == Rotated(t.pre.nonces, t.drawn)
    ensures !Rotates(t) ==> t.post.nonces == t.pre.nonces || (t.e.ClearStore? && t.post.nonces == Cleared(t.pre.nonces, t.drawn.written))
    ensures t.pre.conn <= t.post.conn && (t.e.Accept? ==> t.pre.conn < t.post.conn && !t.post.complete)
    ensures t.pre.complete && t.post.conn == t.pre.conn ==> t.post.complete
    ensures t.out == Forwarded ==> t.pre.complete && t.post.conn == t.pre.conn
    ensures t.post.key != t.pre.key ==> AuthenticatesAt(t) && t.post.key.Some? && t.post.key == KeyIn(t.e.r.p)
  {
    hide SameIgnoringCase, KeyIn;
  }

  /** Equal up to the case of the letters A to Z. */
  predicate Alike(a: string, b: string)
  {
    |a| == |b| && forall i :: 0 <= i < |a| ==> AlikeChars(a[i], b[i])
  }

  predicate AlikeChars(c: char, e: char)
  {
    || c == e
    || ('A' <= c <= 'Z' && e as int == c as int + 32)
    || ('A' <= e <= 'Z' && c as int == e as int + 32)
  }

  lemma AlikeIff(a: string, b: string)
    ensures SameIgnoringCase(a, b) <==> Alike(a, b)
  {
    hide LowerChar, AlikeChars;
    forall i | 0 <= i < |a| && i < |b|
      ensures Lower(a)[i] == Lower(b)[i] <==> AlikeChars(a[i], b[i])
    {
      AlikeCharsIff(a[i], b[i]);
    }
    if Alike(a, b) { assert Lower(a) == Lower(b); } else { assert |Lower(a)| == |a| && |Lower(b)| == |b|; }
  }

  lemma AlikeCharsIff(c: char, e: char)
    ensures LowerChar(c) == LowerChar(e) <==> AlikeChars(c, e)
  {}

  /** What a hello must carry to consume the nonce, and when. */
  lemma ConsumesIff(t: Tick)
    ensures ConsumesAt(t) <==>
      exists nonce: string, key: Option<bytes> ::
        && t.e == Request(Hello(HelloParams(Some("KeePassKeyWin.Provider_4fv17arhjxxvg"), Some(nonce), key)))
        && nonce != "" && !t.pre.complete && t.pre.nonces.current.Some? && Alike(nonce, t.pre.nonces.current.value)
  {
    hide SameIgnoringCase, Alike;
    if t.e.Request? && t.e.r.Hello? && t.e.r.p.HelloParams? && t.e.r.p.nonce.Some? && t.pre.nonces.current.Some? {
      AlikeIff(t.e.r.p.nonce.value, t.pre.nonces.current.value);
      assert t.e.r.p == HelloParams(t.e.r.p.pkg, Some(t.e.r.p.nonce.value), t.e.r.p.key);
    }
  }

  predicate Lacks(member: Option<string>)
  {
    member == None || |member.value| == 0
  }

  /** What a hello is answered, check by check. */
  lemma HelloAnswers(wired: bool, t: Tick)
    requires Taken(wired, t) && t.e.Request? && t.e.r.Hello?
    ensures t.out == Refused(AlreadyComplete) <==> t.pre.complete
    ensures t.out == Greeted || t.out == InternalError || t.out == Refused(KeyMissing) || t.out == Refused(KeyMalformed) <==> ConsumesAt(t)
    ensures t.out == InternalError <==> ConsumesAt(t) && !t.drawn.written
    ensures t.out == Refused(KeyMissing) <==> AuthenticatesAt(t) && (t.e.r.p.key == None || t.e.r.p.key == Some([]))
    ensures t.out == Refused(MissingParams) <==>
      !t.pre.complete && (t.e.r.p.NotAnObject? || Lacks(t.e.r.p.pkg) || Lacks(t.e.r.p.nonce))
    ensures t.out == Refused(UnknownPackage) <==>
      && !t.pre.complete && t.e.r.p.HelloParams? && !Lacks(t.e.r.p.nonce)
      && !Lacks(t.e.r.p.pkg) && t.e.r.p.pkg.value != "KeePassKeyWin.Provider_4fv17arhjxxvg"
    ensures !ConsumesAt(t) ==> t.post == t.pre
  {
    hide SameIgnoringCase, Base64Url.FromBase64;
  }

  /** Any other method, whatever its name, is forwarded exactly on a complete connection once a vault handler is wired. */
  lemma OtherIsForwardedIff(wired: bool, t: Tick, name: string)
    requires Taken(wired, t) && t.e == Request(Other(name))
    ensures t.out == Forwarded <==> t.pre.complete && wired
    ensures t.out == HandshakeRequired <==> !t.pre.complete
    ensures t.out == MethodNotFound <==> t.pre.complete && !wired
    ensures t.post == t.pre
  {
    hide HelloEffect;
  }

  /** The key cached is the one whose base64 the hello carried. */
  lemma KeyArrives(wired: bool, t: Tick, key: bytes)
    requires Taken(wired, t) && AuthenticatesAt(t) && key != [] && t.e.r.p.key == Some(Base64Url.ToBase64(key))
    ensures t.out == Greeted && t.post.key == Some(key)
  {
    hide SameIgnoringCase, Base64Url.FromBase64, Base64Url.ToBase64;
    Base64Url.StandardRoundTrip(key);
    Base64Url.Base64Length(key);
  }

  /** A connection is authenticated exactly when some hello on it consumed a nonce and could write the next one. */
  lemma {:induction false} AuthenticatedIffConsumed(wired: bool, ts: seq<Tick>, j: nat)
    requires IsRun(wired, ts) && j < |ts|
    ensures ts[j].post.complete <==> exists i :: 0 <= i <= j && AuthenticatesAt(ts[i]) && ts[i].pre.conn == ts[j].post.conn
    ensures forall i :: 0 <= i <= j ==> ts[i].pre.conn <= ts[j].post.conn
    decreases j
  {
    hide Taken, ConsumesAt;
    TickFacts(wired, ts[j]);
    if j > 0 {
      AuthenticatedIffConsumed(wired, ts, j - 1);
      assert ts[j].pre == ts[j - 1].post;
      if exists i :: 0 <= i <= j && AuthenticatesAt(ts[i]) && ts[i].pre.conn == ts[j].post.conn {
        var i :| 0 <= i <= j && AuthenticatesAt(ts[i]) && ts[i].pre.conn == ts[j].post.conn;
        if i < j { assert ts[j].pre.complete; }
      }
    }
  }

  /** No connection consumes a second nonce, unless the successor of the first could not be written. */
  lemma OneNoncePerConnection(wired: bool, ts: seq<Tick>, i: nat, j: nat)
    requires IsRun(wired, ts) && i < j < |ts| && ConsumesAt(ts[i]) && ConsumesAt(ts[j])
    ensures ts[i].pre.conn == ts[j].pre.conn ==> !ts[i].drawn.written
  {
    hide Taken;
    AuthenticatedIffConsumed(wired, ts, j - 1);
    TickFacts(wired, ts[j]);
    assert ts[j].pre == ts[j - 1].post;
    assert ts[i].drawn.written ==> AuthenticatesAt(ts[i]);
  }

  /** The current nonce was drawn by an earlier event and not consumed since; it is published if it could be written then. */
  lemma {:induction false} NonceIsRecent(wired: bool, ts: seq<Tick>, j: nat) returns (d: nat)
    requires IsRun(wired, ts) && j < |ts| && ts[j].pre.nonces.current.Some?
    ensures d < j && Rotates(ts[d]) && ts[j].pre.nonces == Rotated(ts[d].pre.nonces, ts[d].drawn)
    ensures forall k :: d < k < j ==> !Rotates(ts[k])
    decreases j
  {
    hide Taken, Rotates, Rotated;
    assert j > 0;
    var t := ts[j - 1];
    assert ts[j].pre == t.post;
    TickFacts(wired, t);
    if Rotates(t) {
      d := j - 1;
    } else {
      d := NonceIsRecent(wired, ts, j - 1);
    }
  }

  predicate Writes(t: Tick) { Rotates(t) && t.drawn.written }
  predicate Erases(t: Tick) { t.e.ClearStore? && t.drawn.written }

  lemma TickNonces(wired: bool, t: Tick)
    requires Taken(wired, t)
    ensures t.post.nonces.current == if Rotates(t) then Some(t.drawn.nonce) else if t.e.ClearStore? then None else t.pre.nonces.current
    ensures t.post.nonces.published == if Writes(t) then Some(t.drawn.nonce) else if Erases(t) then None else t.pre.nonces.published
  {
    hide SameIgnoringCase, KeyIn;
  }

  /** The registry holds what was last written to it, and the plugin accepts what it last drew, until either is cleared. */
  lemma {:induction false} NoncesAreTheLast(wired: bool, ts: seq<Tick>, i: nat, j: nat)
    requires IsRun(wired, ts) && i <= j < |ts|
    ensures (forall k :: i < k <= j ==> !Writes(ts[k]) && !Erases(ts[k])) ==>
      ts[j].post.nonces.published ==
        if Writes(ts[i]) then Some(ts[i].drawn.nonce) else if Erases(ts[i]) then None else ts[i].pre.nonces.published
    ensures (forall k :: i < k <= j ==> !Rotates(ts[k]) && !ts[k].e.ClearStore?) ==>
      ts[j].post.nonces.current ==
        if Rotates(ts[i]) then Some(ts[i].drawn.nonce) else if ts[i].e.ClearStore? then None else ts[i].pre.nonces.current
    decreases j
  {
    hide Taken, Rotates, Writes, Erases;
    TickNonces(wired, ts[j]);
    if i < j {
      NoncesAreTheLast(wired, ts, i, j - 1);
      assert ts[j].pre == ts[j - 1].post;
    }
  }

  /** With fresh draws no nonce is consumed by two connections, and a replayed one is never accepted. */
  lemma NonceConsumedOnce(wired: bool, ts: seq<Tick>, i: nat, j: nat)
    requires IsRun(wired, ts) && FreshNonces(ts) && i < j < |ts| && ConsumesAt(ts[i]) && ConsumesAt(ts[j])
    ensures !SameIgnoringCase(ts[i].pre.nonces.current.value, ts[j].pre.nonces.current.value)
    ensures !SameIgnoringCase(ts[i].e.r.p.nonce.value, ts[j].e.r.p.nonce.value)
  {
    hide IsRun;
    var a := NonceIsRecent(wired, ts, i);
    var b := NonceIsRecent(wired, ts, j);
    assert Rotates(ts[i]);
    assert a < i <= b;
  }

  /** What the registry holds was there at the start or was drawn by an earlier event. */
  lemma {:induction false} PublishedIsOld(wired: bool, ts: seq<Tick>, j: nat)
    requires IsRun(wired, ts) && j < |ts| && ts[j].pre.nonces.published.Some?
    ensures ts[j].pre.nonces.published == ts[0].pre.nonces.published
            || exists e :: 0 <= e < j && ts[j].pre.nonces.published == Some(ts[e].drawn.nonce)
    decreases j
  {
    hide Taken, Rotates;
    if j > 0 {
      var t := ts[j - 1];
      assert ts[j].pre == t.post;
      TickFacts(wired, t);
      if t.post.nonces.published == t.pre.nonces.published { PublishedIsOld(wired, ts, j - 1); }
    }
  }

  /** A hello on a connection not yet complete that presents the nonce a sidecar finds in the registry, with the right package. */
  predicate Honest(t: Tick)
  {
    && t.e.Request? && t.e.r.Hello? && !t.pre.complete && t.e.r.p.HelloParams?
    && t.e.r.p.pkg == Some(EXPECTED_PKG_FAMILY) && !Blank(t.e.r.p.nonce) && t.e.r.p.nonce == t.pre.nonces.published
  }

  /**
   An honest hello consumes the current nonce exactly when that could be written when it was drawn: after a write that
   failed, no sidecar gets in until the store is initialised again.
   */
  lemma HonestIffWritten(wired: bool, ts: seq<Tick>, j: nat) returns (d: nat)
    requires IsRun(wired, ts) && FreshNonces(ts) && j < |ts| && ts[j].pre.nonces.current.Some? && Honest(ts[j])
    ensures d < j && Rotates(ts[d]) && forall k :: d < k < j ==> !Rotates(ts[k])
    ensures ConsumesAt(ts[j]) <==> ts[d].drawn.written
  {
    hide Taken, Rotates, Lower;
    d := NonceIsRecent(wired, ts, j);
    if !ts[d].drawn.written {
      assert ts[j].pre.nonces.published == ts[d].pre.nonces.published;
      PublishedIsOld(wired, ts, d);
    }
  }

  /** A vault method is forwarded only on a connection whose hello consumed a nonce. */
  lemma ForwardedIsAuthenticated(wired: bool, ts: seq<Tick>, j: nat)
    requires IsRun(wired, ts) && j < |ts| && ts[j].out == Forwarded
    ensures exists i :: 0 <= i < j && AuthenticatesAt(ts[i]) && ts[i].pre.conn == ts[j].pre.conn
  {
    hide Taken, AuthenticatesAt;
    TickFacts(wired, ts[j]);
    assert j > 0;
    assert ts[j].pre == ts[j - 1].post;
    AuthenticatedIffConsumed(wired, ts, j - 1);
  }

  /** Any cached op-sign key came in a hello that consumed a nonce. */
  lemma {:induction false} KeyFromConsumingHello(wired: bool, ts: seq<Tick>, j: nat)
    requires IsRun(wired, ts) && j < |ts| && ts[j].pre.key.Some?
    ensures exists i :: 0 <= i < j && AuthenticatesAt(ts[i]) && KeyIn(ts[i].e.r.p) == ts[j].pre.key
    decreases j
  {
    hide Taken, KeyIn;
    assert j > 0;
    assert ts[j].pre == ts[j - 1].post;
    TickFacts(wired, ts[j - 1]);
    if ts[j - 1].post.key == ts[j - 1].pre.key {
      KeyFromConsumingHello(wired, ts, j - 1);
    }
  }

  /**
   A consuming hello authenticates exactly when the next nonce could be written, and then leaves its own key cached exactly
   when it carries a readable one; without it the connection is authenticated all the same, and the key cached before stays.
   */
  lemma CompleteBeforeKey(wired: bool, t: Tick)
    requires Taken(wired, t) && ConsumesAt(t)
    ensures t.post.complete <==> t.drawn.written
    ensures t.out == Greeted <==> t.drawn.written && KeyIn(t.e.r.p).Some?
    ensures t.post.key == if t.drawn.written && KeyIn(t.e.r.p).Some? then KeyIn(t.e.r.p) else t.pre.key
  {
    hide SameIgnoringCase, Base64Url.FromBase64;
  }

  function HelloWith(nonce: string, key: Option<bytes>): Rpc
  {
    Hello(HelloParams(Some(EXPECTED_PKG_FAMILY), Some(nonce), key))
  }

  lemma KeylessConsumes(nonce: string, d: Draw)
    requires nonce != ""
    ensures var n := Nonces(Some(nonce), Some(nonce));
      HelloEffect(false, n, None, HelloWith(nonce, None).p, d) ==
      if d.written then After(true, Rotated(n, d), None, Refused(KeyMissing)) else After(false, Rotated(n, d), None, InternalError)
  {
    hide Lower;
  }

  /** A run in which a hello without a key is refused, and the next request on its connection is forwarded all the same. */
  lemma AuthenticatedWithoutKeyCase() returns (ts: seq<Tick>)
    ensures IsRun(true, ts) && |ts| == 4
    ensures ts[2].e.Request? && ts[2].e.r.Hello? && KeyIn(ts[2].e.r.p) == None && ts[2].out == Refused(KeyMissing)
    ensures ts[3].e == Request(Other("keepasskeywin.listCredentials")) && ts[3].out == Forwarded && ts[3].post.key == None
  {
    hide HelloEffect;
    var s0 := State(0, false, Nonces(None, None), None);
    var s1 := State(0, false, Nonces(Some("a"), Some("a")), None);
    var s2 := s1.(conn := 1);
    var s3 := State(1, true, Nonces(Some("c"), Some("c")), None);
    KeylessConsumes("a", Draw("c", true));
    ts := [Tick(s0, InitializeStore, Draw("a", true), s1, MethodNotFound), Tick(s1, Accept, Draw("b", true), s2, MethodNotFound),
           Tick(s2, Request(HelloWith("a", None)), Draw("c", true), s3, Refused(KeyMissing)),
           Tick(s3, Request(Other("keepasskeywin.listCredentials")), Draw("d", true), s3, Forwarded)];
  }

  /** A run in which the next nonce cannot be written: the hello fails, and so does an honest one after it. */
  lemma UnwrittenCase() returns (ts: seq<Tick>)
    ensures IsRun(true, ts) && |ts| == 4 && ConsumesAt(ts[2]) && ts[2].out == InternalError && !ts[2].post.complete
    ensures Honest(ts[3]) && ts[3].pre.nonces.current.Some? && ts[3].out == Refused(BadNonce)
  {
    hide HelloEffect;
    var s0 := State(0, false, Nonces(None, None), None);
    var s1 := State(0, false, Nonces(Some("a"), Some("a")), None);
    var s2 := s1.(conn := 1);
    var s3 := State(1, false, Nonces(Some("c"), Some("a")), None);
    KeylessConsumes("a", Draw("c", false));
    WrongNonce();
    ts := [Tick(s0, InitializeStore, Draw("a", true), s1, MethodNotFound), Tick(s1, Accept, Draw("b", true), s2, MethodNotFound),
           Tick(s2, Request(HelloWith("a", None)), Draw("c", false), s3, InternalError),
           Tick(s3, Request(HelloWith("a", None)), Draw("d", true), s3, Refused(BadNonce))];
  }

  lemma WrongNonce()
    ensures var n := Nonces(Some("c"), Some("a"));
      HelloEffect(false, n, None, HelloWith("a", None).p, Draw("d", true)) == After(false, n, None, Refused(BadNonce))
  {
    assert Lower("a")[0] == 'a' && Lower("c")[0] == 'c';
  }
}
