/**
 The user-verification tiers of the sidecar (com/webauthn_ext.rs, com/uv_fallback.rs, and the buffer handling of
 dispatch_operation in com/server.rs), over any sequence of dispatches and HRESULTs.
 */
module UserVerification {
  import opened Prelude

  const E_NOTIMPL := 0x8000_4001

  datatype UvTier = V2Stable | V2Experimental | V1

  /** A buffer Windows allocated; its bytes are the UV signature. */
  type Buffer = nat

  /**
   What an entrypoint does: its HRESULT, and what it writes through the two out-pointers (None: leaves them alone;
   a written null pointer is Some(None)).
   */
  datatype Answer = Answer(hr: nat, cb: Option<nat>, pb: Option<Option<Buffer>>)

  datatype Act = CalledV2(a: Answer) | CalledV1(a: Answer) | Freed(b: Buffer)

  predicate ShouldFallbackToV1(hr: nat)
  {
    hr == E_NOTIMPL
  }

  function Written<T>(was: T, w: Option<T>): T
  {
    match w case None => was case Some(x) => x
  }

  /** Result of one dispatch's verification: HRESULT, tier, the latch, the two out-values, and the traffic with Windows. */
  datatype Verified = Verified(hr: nat, tier: UvTier, latched: bool, cb: nat, pb: Option<Buffer>, log: seq<Act>)

  function FreeAll(pb: Option<Buffer>): seq<Act>
  {
    match pb case None => [] case Some(b) => [Freed(b)]
  }

  function Verify(v2Tier: Option<UvTier>, latched: bool, v2: Answer, v1: Answer): Verified
  {
    if v2Tier.None? || latched then
      Verified(v1.hr, V1, latched, Written(0, v1.cb), Written(None, v1.pb), [CalledV1(v1)])
    else
      var cb, pb := Written(0, v2.cb), Written(None, v2.pb);
      if !ShouldFallbackToV1(v2.hr) then Verified(v2.hr, v2Tier.value, false, cb, pb, [CalledV2(v2)])
      else Verified(v1.hr, V1, true, Written(if pb.Some? then 0 else cb, v1.cb), Written(None, v1.pb),
                    [CalledV2(v2)] + FreeAll(pb) + [CalledV1(v1)])
  }

  /** The buffer whose bytes go to the plugin: what the out-pointers hold at the end, if the length is not zero. */
  function Captured(v2Tier: Option<UvTier>, latched: bool, v2: Answer, v1: Answer): Option<Buffer>
  {
    var r := Verify(v2Tier, latched, v2, v1);
    if r.cb > 0 then r.pb else None
  }

  // -- the code ------------------------------------------------------------------------------------

  class OutParams {
    var cbResponse: nat
    var pbResponse: Option<Buffer>

    constructor ()
      ensures cbResponse == 0 && pbResponse == None
    {
      cbResponse, pbResponse := 0, None;
    }
  }

  class WebauthnBindings {
    const hasV2: bool
    const performUvTier: UvTier
    var v2Unimplemented: bool
    ghost var log: seq<Act>

    /** Resolution order: a debug override, the stable name, the experimental one, then v1 alone. */
    constructor (forceV1: bool, stable: bool, experimental: bool)
      ensures Valid() && !v2Unimplemented && log == []
      ensures V2Tier() == if forceV1 || (!stable && !experimental) then None
                          else if stable then Some(V2Stable) else Some(V2Experimental)
    {
      hasV2 := !forceV1 && (stable || experimental);
      performUvTier := if forceV1 then V1 else if stable then V2Stable else if experimental then V2Experimental else V1;
      v2Unimplemented, log := false, [];
    }

    predicate Valid()
    {
      hasV2 <==> performUvTier != V1
    }

    function V2Tier(): Option<UvTier>
    {
      if hasV2 then Some(performUvTier) else None
    }

    method ObserveV2Result(hr: nat)
      modifies this`v2Unimplemented
      ensures v2Unimplemented == (old(v2Unimplemented) || hr == E_NOTIMPL)
    {
      if ShouldFallbackToV1(hr) {
        v2Unimplemented := true;
      }
    }

    method Write(out: OutParams, a: Answer)
      modifies out
      ensures out.cbResponse == Written(old(out.cbResponse), a.cb) && out.pbResponse == Written(old(out.pbResponse), a.pb)
    {
      if a.cb.Some? { out.cbResponse := a.cb.value; }
      if a.pb.Some? { out.pbResponse := a.pb.value; }
    }

    method InvokeV1(out: OutParams, v1: Answer) returns (hr: nat)
      modifies this`log, out
      ensures hr == v1.hr && log == old(log) + [CalledV1(v1)]
      ensures out.cbResponse == Written(old(out.cbResponse), v1.cb) && out.pbResponse == Written(old(out.pbResponse), v1.pb)
    {
      log := log + [CalledV1(v1)];
      Write(out, v1);
      return v1.hr;
    }

    method FreeUserVerificationResponse(pb: Option<Buffer>)
      modifies this`log
      ensures log == old(log) + FreeAll(pb)
    {
      if pb.None? {
        return;
      }
      log := log + [Freed(pb.value)];
    }

    method PerformUserVerification2(out: OutParams, v2: Answer, v1: Answer) returns (hr: nat, tier: UvTier)
      requires Valid() && out.cbResponse == 0 && out.pbResponse == None
      modifies this, out
      ensures var r := Verify(V2Tier(), old(v2Unimplemented), v2, v1);
        && hr == r.hr && tier == r.tier && v2Unimplemented == r.latched && log == old(log) + r.log
        && out.cbResponse == r.cb && out.pbResponse == r.pb
    {
      if !hasV2 {
        hr := InvokeV1(out, v1);
        return hr, V1;
      }
      if v2Unimplemented {
        hr := InvokeV1(out, v1);
        return hr, V1;
      }
      log := log + [CalledV2(v2)];
      Write(out, v2);
      ObserveV2Result(v2.hr);
      if ShouldFallbackToV1(v2.hr) {
        var v2Ptr := out.pbResponse;
        if v2Ptr.Some? {
          FreeUserVerificationResponse(v2Ptr);
          out.pbResponse := None;
          out.cbResponse := 0;
        }
        hr := InvokeV1(out, v1);
        return hr, V1;
      }
      return v2.hr, performUvTier;
    }

    /** The verification part of dispatch_operation; `signature` is the buffer whose bytes go to the plugin. */
    method VerifyUser(v2: Answer, v1: Answer) returns (hr: nat, tier: UvTier, signature: Option<Buffer>)
      requires Valid()
      modifies this
      ensures var r := Verify(V2Tier(), old(v2Unimplemented), v2, v1);
        && hr == r.hr && tier == r.tier && v2Unimplemented == r.latched
        && log == old(log) + (r.log + FreeAll(r.pb))
        && signature == Captured(V2Tier(), old(v2Unimplemented), v2, v1)
    {
      var out := new OutParams();
      hr, tier := PerformUserVerification2(out, v2, v1);
      signature := if out.pbResponse.Some? && out.cbResponse > 0 then out.pbResponse else None;
      FreeUserVerificationResponse(out.pbResponse);
    }
  }

  // -- one dispatch ------------------------------------------------------------------------------------

  function HandedBy(x: Act): Option<Buffer>
  {
    match x case Freed(_) => None case CalledV1(a) => Written(None, a.pb) case CalledV2(a) => Written(None, a.pb)
  }

  /** Buffers in the order Windows handed them out, and in the order they were freed. */
  function Handed(log: seq<Act>): seq<Buffer>
  {
    if log == [] then []
    else Handed(log[..|log| - 1]) + match HandedBy(log[|log| - 1]) case None => [] case Some(b) => [b]
  }

  function FreedOf(log: seq<Act>): seq<Buffer>
  {
    if log == [] then []
    else FreedOf(log[..|log| - 1]) + if log[|log| - 1].Freed? then [log[|log| - 1].b] else []
  }

  lemma {:induction false} HandedConcat(a: seq<Act>, b: seq<Act>)
    ensures Handed(a + b) == Handed(a) + Handed(b)
  {
    hide HandedBy;
    if b == [] {
      assert a + b == a;
    } else {
      HandedConcat(a, b[..|b| - 1]);
      assert (a + b)[..|a + b| - 1] == a + b[..|b| - 1];
    }
  }

  lemma {:induction false} FreedConcat(a: seq<Act>, b: seq<Act>)
    ensures FreedOf(a + b) == FreedOf(a) + FreedOf(b)
  {
    if b == [] {
      assert a + b == a;
    } else {
      FreedConcat(a, b[..|b| - 1]);
      assert (a + b)[..|a + b| - 1] == a + b[..|b| - 1];
    }
  }

  lemma Concat(a: seq<Act>, b: seq<Act>)
    ensures Handed(a + b) == Handed(a) + Handed(b) && FreedOf(a + b) == FreedOf(a) + FreedOf(b)
  {
    hide Handed, FreedOf;
    HandedConcat(a, b);
    FreedConcat(a, b);
  }

  lemma Single(x: Act)
    ensures FreedOf([x]) == if x.Freed? then [x.b] else []
    ensures Handed([x]) == match HandedBy(x) case None => [] case Some(b) => [b]
  {
    assert [x][..0] == [];
  }

  function DispatchLog(v2Tier: Option<UvTier>, latched: bool, v2: Answer, v1: Answer): seq<Act>
  {
    var r := Verify(v2Tier, latched, v2, v1);
    r.log + FreeAll(r.pb)
  }

  /** The tier reported is V1 exactly when the HRESULT returned is the one v1 gave, v1 being the last entrypoint called. */
  lemma TierIsCaller(v2Tier: Option<UvTier>, latched: bool, v2: Answer, v1: Answer)
    requires v2Tier != Some(V1)
    ensures var r := Verify(v2Tier, latched, v2, v1);
      && |r.log| > 0
      && (r.tier == V1 <==> r.log[|r.log| - 1] == CalledV1(v1))
      && (r.tier != V1 <==> r.log == [CalledV2(v2)])
      && (r.tier != V1 <==> v2Tier.Some? && !latched && v2.hr != 0x8000_4001)
      && (r.log[0] == CalledV2(v2) <==> v2Tier.Some? && !latched)
      && (r.latched <==> latched || (v2Tier.Some? && v2.hr == 0x8000_4001))
      && r.hr == (if r.tier == V1 then v1.hr else v2.hr)
      && (r.tier != V1 ==> r.hr != E_NOTIMPL && v2Tier == Some(r.tier))
  {}

  /**
   Which signature is forwarded. A v2 answer that stands needs a buffer and a length of its own. After a fallback it is v1's
   buffer; v1 may leave the length alone, and what v2 wrote there then counts, unless v2 also wrote a buffer.
   */
  lemma ForwardedIff(v2Tier: Option<UvTier>, latched: bool, v2: Answer, v1: Answer, b: Buffer)
    requires v2Tier != Some(V1)
    ensures Captured(v2Tier, latched, v2, v1) == Some(b) <==>
      if v2Tier.Some? && !latched && v2.hr != 0x8000_4001
      then v2.pb == Some(Some(b)) && v2.cb.Some? && v2.cb.value > 0
      else v1.pb == Some(Some(b)) && match v1.cb
                                     case Some(n) => n > 0
                                     case None => v2Tier.Some? && !latched && v2.cb.Some? && v2.cb.value > 0
                                                  && (v2.pb == None || v2.pb == Some(None))
  {}

  /** Within a dispatch each buffer handed out is freed once, in order, after it was handed out. */
  lemma DispatchFrees(v2Tier: Option<UvTier>, latched: bool, v2: Answer, v1: Answer)
    ensures var log := DispatchLog(v2Tier, latched, v2, v1); Handed(log) == FreedOf(log)
  {
    hide Handed, FreedOf;
    var r := Verify(v2Tier, latched, v2, v1);
    var pb2 := Written(None, v2.pb);
    Single(CalledV2(v2));
    Single(CalledV1(v1));
    FreeAllLists(r.pb);
    FreeAllLists(pb2);
    Concat(r.log, FreeAll(r.pb));
    Concat([CalledV2(v2)], FreeAll(pb2));
    Concat([CalledV2(v2)] + FreeAll(pb2), [CalledV1(v1)]);
  }

  lemma FreeAllLists(pb: Option<Buffer>)
    ensures Handed(FreeAll(pb)) == [] && FreedOf(FreeAll(pb)) == match pb case None => [] case Some(b) => [b]
  {
    if pb.Some? { Single(Freed(pb.value)); }
  }

  // -- runs -----------------------------------------------------------------------------------------------

  datatype Dispatch = Dispatch(v2: Answer, v1: Answer)

  function RunLog(v2Tier: Option<UvTier>, latched: bool, ds: seq<Dispatch>): seq<Act>
    decreases |ds|
  {
    if ds == [] then []
    else DispatchLog(v2Tier, latched, ds[0].v2, ds[0].v1)
         + RunLog(v2Tier, Verify(v2Tier, latched, ds[0].v2, ds[0].v1).latched, ds[1..])
  }

  predicate IsV2(x: Act) { x.CalledV2? }

  /** Once latched, v2 is never called again. */
  lemma {:induction false} LatchedNeverCallsV2(v2Tier: Option<UvTier>, ds: seq<Dispatch>)
    ensures forall k :: 0 <= k < |RunLog(v2Tier, true, ds)| ==> !IsV2(RunLog(v2Tier, true, ds)[k])
    decreases |ds|
  {
    if ds != [] { LatchedNeverCallsV2(v2Tier, ds[1..]); }
  }

  /** Over any sequence of dispatches v2 is never called again after its first E_NOTIMPL. */
  lemma {:induction false} NoV2AfterNotImpl(v2Tier: Option<UvTier>, latched: bool, ds: seq<Dispatch>, i: nat, j: nat)
    requires var log := RunLog(v2Tier, latched, ds); i < j < |log| && log[i].CalledV2? && log[i].a.hr == 0x8000_4001
    ensures !IsV2(RunLog(v2Tier, latched, ds)[j])
    decreases |ds|
  {
    hide Verify, DispatchLog;
    var d := ds[0];
    var first, latched' := DispatchLog(v2Tier, latched, d.v2, d.v1), Verify(v2Tier, latched, d.v2, d.v1).latched;
    OneV2(v2Tier, latched, d.v2, d.v1);
    if i >= |first| {
      NoV2AfterNotImpl(v2Tier, latched', ds[1..], i - |first|, j - |first|);
    } else {
      LatchedNeverCallsV2(v2Tier, ds[1..]);
    }
  }

  lemma OneV2(v2Tier: Option<UvTier>, latched: bool, v2: Answer, v1: Answer)
    ensures var log, r := DispatchLog(v2Tier, latched, v2, v1), Verify(v2Tier, latched, v2, v1);
      && (forall k :: 0 < k < |log| ==> !IsV2(log[k]))
      && (log != [] && log[0].CalledV2? ==> log[0].a == v2 && (r.latched <==> v2.hr == E_NOTIMPL))
      && (latched ==> r.latched)
  {}

  /** Over any sequence of dispatches, every buffer either entrypoint handed out is freed exactly once, and nothing else is. */
  lemma {:induction false} RunFrees(v2Tier: Option<UvTier>, latched: bool, ds: seq<Dispatch>)
    ensures Handed(RunLog(v2Tier, latched, ds)) == FreedOf(RunLog(v2Tier, latched, ds))
    decreases |ds|
  {
    hide Handed, FreedOf, DispatchLog, Verify;
    if ds == [] {
      NoActs();
    } else {
      var d := ds[0];
      var first, latched' := DispatchLog(v2Tier, latched, d.v2, d.v1), Verify(v2Tier, latched, d.v2, d.v1).latched;
      RunFrees(v2Tier, latched', ds[1..]);
      DispatchFrees(v2Tier, latched, d.v2, d.v1);
      Concat(first, RunLog(v2Tier, latched', ds[1..]));
    }
  }

  lemma NoActs()
    ensures Handed([]) == [] && FreedOf([]) == []
  {}

  /** The very next act after a buffer is handed out frees it, and nothing else frees anything. */
  ghost predicate FreedAtOnce(log: seq<Act>)
  {
    && (forall k :: 0 <= k < |log| && HandedBy(log[k]).Some? ==> k + 1 < |log| && log[k + 1] == Freed(HandedBy(log[k]).value))
    && (forall k :: 0 <= k < |log| && log[k].Freed? ==> 0 < k && HandedBy(log[k - 1]) == Some(log[k].b))
  }

  lemma FreedAtOnceConcat(a: seq<Act>, b: seq<Act>)
    requires FreedAtOnce(a) && FreedAtOnce(b)
    ensures FreedAtOnce(a + b)
  {}

  lemma DispatchFreesAtOnce(v2Tier: Option<UvTier>, latched: bool, v2: Answer, v1: Answer)
    ensures FreedAtOnce(DispatchLog(v2Tier, latched, v2, v1))
  {
    hide FreedAtOnce;
    var r, pb2, pb1 := Verify(v2Tier, latched, v2, v1), Written(None, v2.pb), Written(None, v1.pb);
    Unit(CalledV2(v2), pb2);
    Unit(CalledV1(v1), pb1);
    FreedAtOnceConcat([CalledV2(v2)] + FreeAll(pb2), [CalledV1(v1)] + FreeAll(pb1));
    assert ([CalledV2(v2)] + FreeAll(pb2)) + ([CalledV1(v1)] + FreeAll(pb1)) == [CalledV2(v2)] + FreeAll(pb2) + [CalledV1(v1)] + FreeAll(pb1);
  }

  lemma Unit(call: Act, pb: Option<Buffer>)
    requires !call.Freed? && HandedBy(call) == pb
    ensures FreedAtOnce([call] + FreeAll(pb))
  {}

  lemma {:induction false} RunFreesAtOnce(v2Tier: Option<UvTier>, latched: bool, ds: seq<Dispatch>)
    ensures FreedAtOnce(RunLog(v2Tier, latched, ds))
    decreases |ds|
  {
    hide DispatchLog, Verify;
    if ds != [] {
      var d := ds[0];
      var first, latched' := DispatchLog(v2Tier, latched, d.v2, d.v1), Verify(v2Tier, latched, d.v2, d.v1).latched;
      RunFreesAtOnce(v2Tier, latched', ds[1..]);
      DispatchFreesAtOnce(v2Tier, latched, d.v2, d.v1);
      FreedAtOnceConcat(first, RunLog(v2Tier, latched', ds[1..]));
    }
  }
}
