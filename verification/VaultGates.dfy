/**
 Who may change the vault: what a raw call must have shown before it touches an entry, what a refused or failed call
 leaves behind, and how the prompt's latch rules the rest of a run.
 */
module VaultGates {
  import opened Prelude
  import opened EcdsaDer
  import opened Responses
  import opened VaultStore
  import opened VaultHandling
  import opened VaultRuns
  import Base64Url
  import GA = GetAssertionRequest
  import MC = MakeCredentialRequest
  import MCM = MakeCredentialMeaning

  predicate IsRaw(e: Event)
  {
    e.Request? && (e.call.MakeRaw? || e.call.AssertRaw?)
  }

  /** The member carries a signature that `check` accepts. */
  predicate Signed(sig: Base64Text, check: bytes -> bool)
  {
    sig.Decoded? && check(sig.value)
  }

  /** A 64-byte signature that the primitive accepts, given as it is or in any spelling of its two numbers. */
  ghost predicate Carries(ecdsa: Ecdsa, key: bytes, cbor: bytes, sig: bytes)
  {
    exists p :: |p| == 64 && (sig == p || Spells(sig, p)) && ecdsa(key, cbor, p)
  }

  /** What the user says to this call: the answer given once and for all, or the one given now. */
  function UserSays(st: State, ask: Option<bool>): Option<bool>
  {
    if st.decided then Some(st.decision) else ask
  }

  /**
   The CBOR bytes, if no bypass, verified under the cached key; and over the same bytes either a v2 tier's UV signature did
   too or, for v1 and no tier, the user says yes.
   */
  ghost predicate Authorised(env: Env, st: State, p: Params, ask: Option<bool>, cbor: bytes)
  {
    var key := if st.cachedKey.Some? then st.cachedKey.value else [];
    && (env.bypass || (key != [] && cbor != [] && Signed(p.requestSignature, s => s != [] && env.ecdsa(key, cbor, s))))
    && match p.uvBindingTier
       case V2Stable => key != [] && cbor != [] && p.uvSignature.Decoded? && Carries(env.ecdsa, key, cbor, p.uvSignature.value)
       case V2Experimental => key != [] && cbor != [] && p.uvSignature.Decoded? && Carries(env.ecdsa, key, cbor, p.uvSignature.value)
       case V1 => env.hasPrompt && UserSays(st, ask) == Some(true)
       case NoTier => env.hasPrompt && UserSays(st, ask) == Some(true)
       case OtherTier(_) => false
  }

  lemma CarriesIff(ecdsa: Ecdsa, key: bytes, cbor: bytes, sig: bytes)
    ensures EitherFormat(ecdsa, key, cbor, sig) <==> key != [] && cbor != [] && Carries(ecdsa, key, cbor, sig)
    ensures !EitherFormat(ecdsa, key, cbor, [])
  {
    hide EitherFormat, Spells;
    EitherFormatAccepts(ecdsa, key, cbor, sig);
    NothingCarried(ecdsa, key, cbor);
  }

  lemma NothingCarried(ecdsa: Ecdsa, key: bytes, cbor: bytes)
    ensures !EitherFormat(ecdsa, key, cbor, [])
  {}

  /** The gates let bytes through exactly when they are authorised, bypass or not. */
  lemma GateIffAuthorised(env: Env, st: State, p: Params, ask: Option<bool>, cbor: bytes)
    ensures Gate(env, st, p, ask).1 == Ok(cbor) <==> p.cbor == Decoded(cbor) && Authorised(env, st, p, ask, cbor)
  {
    hide EitherFormat, Carries;
    var key := if st.cachedKey.Some? then st.cachedKey.value else [];
    CarriesIff(env.ecdsa, key, cbor, if p.uvSignature.Decoded? then p.uvSignature.value else []);
  }

  /** The prompt is shown, and answered: nothing was decided before, it is wired, the tier asks for it, and the bytes are signed. */
  predicate PromptAnswered(env: Env, st: State, p: Params, ask: Option<bool>)
  {
    && !st.decided && env.hasPrompt && ask.Some? && (p.uvBindingTier == V1 || p.uvBindingTier == NoTier) && p.cbor.Decoded?
    && (env.bypass || (st.cachedKey.Some? && st.cachedKey.value != [] && p.cbor.value != []
                       && Signed(p.requestSignature, s => s != [] && env.ecdsa(st.cachedKey.value, p.cbor.value, s))))
  }

  /** The gates change nothing but the latch, and that exactly when the prompt is answered, to the answer. */
  lemma GateLatches(env: Env, st: State, p: Params, ask: Option<bool>)
    ensures Gate(env, st, p, ask).0 == if PromptAnswered(env, st, p, ask) then st.(decided := true, decision := ask.value) else st
  {
    hide EitherFormat, UvSignatureFault;
  }

  /** The request's bytes pass, if no bypass, with a signature of the cached key over them; the first check that fails refuses. */
  lemma SignatureChecks(env: Env, cachedKey: Option<bytes>, p: Params)
    ensures VerifiedCbor(env, cachedKey, p) ==
      if !p.cbor.Decoded? then Err(BadParams)
      else if env.bypass then Ok(p.cbor.value)
      else if cachedKey == None then Err(NoCachedKey)
      else if p.requestSignature.Decoded? && p.requestSignature.value != [] && cachedKey.value != [] && p.cbor.value != []
              && env.ecdsa(cachedKey.value, p.cbor.value, p.requestSignature.value) then Ok(p.cbor.value)
      else Err(BadSignature)
  {}

  /** Which check of the second gate refuses. */
  lemma UvRefusal(env: Env, st: State, p: Params, cbor: bytes, ask: Option<bool>)
    requires UvGate(env, st, p, cbor, ask).1.Some?
    ensures UvGate(env, st, p, cbor, ask).1.value ==
      match p.uvBindingTier
      case V2Stable => if st.cachedKey == None then NoCachedKey else BadUv
      case V2Experimental => if st.cachedKey == None then NoCachedKey else BadUv
      case V1 => PromptRefusal(env, st, ask)
      case NoTier => PromptRefusal(env, st, ask)
      case OtherTier(_) => UnknownTier
  {
    hide EitherFormat;
  }

  function PromptRefusal(env: Env, st: State, ask: Option<bool>): Fault
  {
    if !env.hasPrompt then PromptMissing else if UserSays(st, ask) == None then PromptFailed else Declined
  }

  /** Why v1 and untiered calls are refused once their bytes are in order. */
  lemma PromptRefusals(env: Env, st: State, p: Params, cbor: bytes, ask: Option<bool>)
    requires p.uvBindingTier == V1 || p.uvBindingTier == NoTier
    ensures var f := UvGate(env, st, p, cbor, ask).1;
      && (f == Some(PromptMissing) <==> !env.hasPrompt)
      && (f == Some(PromptFailed) <==> env.hasPrompt && UserSays(st, ask) == None)
      && (f == Some(Declined) <==> env.hasPrompt && UserSays(st, ask) == Some(false))
      && (f == None <==> env.hasPrompt && UserSays(st, ask) == Some(true))
  {}

  lemma MakeOfTick(env: Env, t: Tick)
    requires Taken(env, t) && t.e.Request? && t.e.call.MakeRaw?
    ensures ValidDraw(t.e.call.d) && ValidParams(t.e.call.p)
    ensures !t.e.vaultOpen ==> t.post == t.pre && t.out == Failed(VaultLocked)
    ensures t.e.vaultOpen ==>
      var r := Register(env, t.pre, t.e.call.p, t.e.call.d);
      t.post == r.0 && t.out == match r.1 case Ok(made) => Registered(made) case Err(f) => Failed(f)
  {
    hide Register, Create, Answer, ValidDraw, Without;
  }

  lemma AssertOfTick(env: Env, t: Tick)
    requires Taken(env, t) && t.e.Request? && t.e.call.AssertRaw?
    ensures AllStorable(t.pre.entries) && ValidParams(t.e.call.p)
    ensures !t.e.vaultOpen ==> t.post == t.pre && t.out == Failed(VaultLocked)
    ensures t.e.vaultOpen ==>
      var r := Answer(env, t.pre, t.e.call.p, t.e.call.d);
      t.post == r.0 && t.out == match r.1 case Ok(response) => Asserted(response) case Err(f) => Failed(f)
  {
    hide Register, Create, Answer, Without;
  }

  /** Beyond the gates a raw call touches only the entries, and nothing when a gate refuses. */
  lemma RegisterAfterGate(env: Env, st: State, p: Params, d: Draw)
    requires ValidDraw(d)
    ensures var r, g := Register(env, st, p, d), Gate(env, st, p, d.ask);
      && r.0.cachedKey == st.cachedKey && r.0.decided == g.0.decided && r.0.decision == g.0.decision
      && (g.1.Err? || MC.Parse(g.1.value).Err? ==> r.0.entries == st.entries)
  {
    hide Gate, MC.Parse, Admit;
    GateKeepsVault(env, st, p, d.ask);
  }

  lemma AnswerAfterGate(env: Env, st: State, p: Params, d: Draw)
    requires AllStorable(st.entries)
    ensures var r, g := Answer(env, st, p, d), Gate(env, st, p, d.ask);
      && r.0.cachedKey == st.cachedKey && r.0.decided == g.0.decided && r.0.decision == g.0.decision
      && (g.1.Err? || GA.Parse(g.1.value).Err? ==> r.0.entries == st.entries)
  {
    hide Gate, GA.Parse, Select, Incremented, Reply;
    GateKeepsVault(env, st, p, d.ask);
  }

  /** In every run a raw call changes the vault only for authorised bytes that parse as its request. */
  lemma RawChangesAuthorised(env: Env, t: Tick) returns (cbor: bytes)
    requires Taken(env, t) && IsRaw(t.e) && t.post.entries != t.pre.entries
    ensures CborOf(t.e) == Some(cbor) && Authorised(env, t.pre, t.e.call.p, t.e.call.d.ask, cbor)
    ensures if t.e.call.MakeRaw? then MC.Parse(cbor).Ok? else GA.Parse(cbor).Ok?
  {
    hide Authorised, Gate, MC.Parse, GA.Parse, Register, Answer, Taken, ValidDraw, AllStorable;
    var p, d := t.e.call.p, t.e.call.d;
    if t.e.call.MakeRaw? {
      MakeOfTick(env, t);
      RegisterAfterGate(env, t.pre, p, d);
    } else {
      AssertOfTick(env, t);
      AnswerAfterGate(env, t.pre, p, d);
    }
    var g := Gate(env, t.pre, p, d.ask);
    cbor := g.1.value;
    GateIffAuthorised(env, t.pre, p, d.ask, cbor);
  }

  /** makeCredentialRaw comes as far as storing its record. */
  predicate Admissible(g: Result<bytes, Fault>, es: seq<VaultEntry>)
  {
    g.Ok? && MC.Parse(g.value).Ok? && !HoldsExcluded(es, MC.Parse(g.value).value.excludeList)
  }

  lemma AdmitIff(env: Env, es: seq<VaultEntry>, req: MC.Request, p: Params, d: Draw)
    requires ValidDraw(d) && req.requestedAlgs != []
    requires forall a :: a in req.requestedAlgs ==> a == MC.ES256 || a == MC.RS256
    ensures Admit(env, es, req, p, d).Ok? <==> !HoldsExcluded(es, req.excludeList)
    ensures Admit(env, es, req, p, d).Err? ==> Admit(env, es, req, p, d).error == Excluded
  {
    hide ValidDraw, AttestationBytes, NewAuthData, NewRecord, AnyExcluded, HoldsExcluded;
    ExcludedIff(es, req.excludeList);
    var first := req.requestedAlgs[0];
    assert first in req.requestedAlgs;
    assert SelectAlgorithm(req.requestedAlgs).Some?;
  }

  lemma GateShort(env: Env, st: State, p: Params, ask: Option<bool>)
    requires ValidParams(p)
    ensures Gate(env, st, p, ask).1.Ok? ==> |Gate(env, st, p, ask).1.value| <= MAX_ARRAY
  {
    hide UvGate;
  }

  lemma AdmittedIff(env: Env, st: State, p: Params, d: Draw)
    requires ValidDraw(d) && ValidParams(p)
    ensures Admitted(env, st, p, d).1.Ok? <==> Admissible(Gate(env, st, p, d.ask).1, st.entries)
    ensures var g := Gate(env, st, p, d.ask).1;
      Admitted(env, st, p, d).1.Err? ==>
        Admitted(env, st, p, d).1.error == if g.Err? then g.error else if MC.Parse(g.value).Err? then MC.Parse(g.value).error else Excluded
  {
    hide Gate, MC.Parse, ValidDraw, Admit, HoldsExcluded;
    var g := Gate(env, st, p, d.ask).1;
    if g.Ok? {
      GateShort(env, st, p, d.ask);
      MCM.OnlySupported(g.value);
      if MC.Parse(g.value).Ok? { AdmitIff(env, st.entries, MC.Parse(g.value).value, p, d); }
    }
  }

  lemma RegisterOutcome(env: Env, st: State, p: Params, d: Draw)
    requires ValidDraw(d) && Admitted(env, st, p, d).1.Ok?
    ensures Register(env, st, p, d).1 == if d.saved then Admitted(env, st, p, d).1 else Err(SaveFailed)
  {
    hide Admitted, ValidDraw;
  }

  /**
   makeCredentialRaw succeeds exactly when the gates let it through, it parses, no excluded ID is that of an entry, and Save
   returns; it fails with the first of these that does not hold.
   */
  lemma RegisteredIff(env: Env, t: Tick)
    requires Taken(env, t) && t.e.Request? && t.e.call.MakeRaw? && t.e.vaultOpen
    ensures var admissible, saved := Admissible(Gate(env, t.pre, t.e.call.p, t.e.call.d.ask).1, t.pre.entries), t.e.call.d.saved;
      && (t.out.Registered? <==> admissible && saved)
      && (admissible && !saved ==> t.out == Failed(SaveFailed))
    ensures var g := Gate(env, t.pre, t.e.call.p, t.e.call.d.ask).1;
      && (g.Err? ==> t.out == Failed(g.error)) && (g.Ok? && MC.Parse(g.value).Err? ==> t.out == Failed(MC.Parse(g.value).error))
      && (g.Ok? && MC.Parse(g.value).Ok? ==>
            (HoldsExcluded(t.pre.entries, MC.Parse(g.value).value.excludeList) ==> t.out == Failed(Excluded)))
  {
    hide Taken, Gate, ValidDraw, Admitted, Register, HoldsExcluded, MC.Parse;
    var p, d := t.e.call.p, t.e.call.d;
    MakeOfTick(env, t);
    AdmittedIff(env, t.pre, p, d);
    if Admitted(env, t.pre, p, d).1.Ok? {
      RegisterOutcome(env, t.pre, p, d);
    } else {
      RefusedRegister(env, t.pre, p, d);
      RefusedSame(env, t.pre, p, d);
    }
  }

  lemma RefusedSame(env: Env, st: State, p: Params, d: Draw)
    requires ValidDraw(d) && Admitted(env, st, p, d).1.Err?
    ensures Register(env, st, p, d).1 == Admitted(env, st, p, d).1
  {
    hide Admitted, ValidDraw;
  }

  /**
   makeCredentialRaw changes the vault exactly when it succeeds or Save throws after the record went in, and then by one
   record at the end, of an algorithm that was offered; any refusal by a gate, the parser, the exclude list or the
   algorithm choice leaves the vault as it was.
   */
  lemma RefusalChangesNothing(env: Env, t: Tick) returns (added: Option<Passkey>)
    requires Taken(env, t) && t.e.Request? && t.e.call.MakeRaw? && t.e.vaultOpen
    ensures var p, d := t.e.call.p, t.e.call.d;
      t.post.entries != t.pre.entries <==>
      t.out.Registered? || (Admissible(Gate(env, t.pre, p, d.ask).1, t.pre.entries) && !d.saved)
    ensures t.post.entries == t.pre.entries + if added.Some? then [VaultEntry(added.value, ZERO)] else []
    ensures added.Some? ==> Preferred(CborOf(t.e), added.value.algId)
    ensures t.out.Registered? ==> added == Some(t.out.made.record)
  {
    hide Taken, Gate, ValidDraw, Admitted, Register, Admissible, MadeFrom, NewRecord, MC.Parse, Preferred, SelectAlgorithm, Registers, ValidParams;
    var p, d := t.e.call.p, t.e.call.d;
    MakeOfTick(env, t);
    RegisteredIff(env, t);
    AdmittedIff(env, t.pre, p, d);
    added := None;
    if Admitted(env, t.pre, p, d).1.Ok? {
      var req, alg := RegisterShape(env, t.pre, p, d);
      added := Some(NewRecord(req, alg, d));
      OfferedAlg(env, t.pre, p, d, req, alg);
      if t.out.Registered? {
        SameLast(t.pre.entries, added.value, t.out.made.record) by { var _, _ := TickRegistered(env, t); }
      }
    } else {
      RefusedRegister(env, t.pre, p, d);
    }
  }

  lemma SameLast(es: seq<VaultEntry>, a: Passkey, b: Passkey)
    requires es + [VaultEntry(a, ZERO)] == es + [VaultEntry(b, ZERO)]
    ensures a == b
  {
    assert (es + [VaultEntry(a, ZERO)])[|es|] == (es + [VaultEntry(b, ZERO)])[|es|];
  }

  lemma OfferedAlg(env: Env, st: State, p: Params, d: Draw, req: MC.Request, alg: int)
    requires ValidDraw(d) && MadeFrom(Gate(env, st, p, d.ask).1, req) && SelectAlgorithm(req.requestedAlgs) == Some(alg)
    ensures p.cbor.Decoded? && Preferred(Some(p.cbor.value), alg) && NewRecord(req, alg, d).algId == alg
  {
    hide Gate, MC.Parse, CoseBytes, Base64Url.Encode, Base64Url.ToBase64, ValidDraw;
    GateBytes(env, st, p, d.ask);
  }

  /** `alg` is among the algorithms the request offers, -7 if that is. */
  predicate Preferred(cbor: Option<bytes>, alg: int)
  {
    cbor.Some? && match MC.Parse(cbor.value)
                  case Err(_) => false
                  case Ok(req) => alg in req.requestedAlgs && (alg == -7 <==> -7 in req.requestedAlgs)
  }

  /** Whether the count of an assertion is advanced: everything before signing went well. */
  predicate CountsUse(env: Env, st: State, p: Params, ask: Option<bool>)
  {
    var g := Gate(env, st, p, ask).1;
    g.Ok? && GA.Parse(g.value).Ok?
    && var req := GA.Parse(g.value).value;
    req.up && Select(st.entries, req).Some? && Incremented(st.entries, Select(st.entries, req).value.credentialId).Ok?
  }

  /** What makes an answer fail once the count was advanced, Save aside: signing throws, or the record's own texts fail. */
  predicate LateFailure(env: Env, rec: Passkey, req: GA.Request, uv: bool, count: nat, nonce: nat)
    requires count <= UINT32_MAX
  {
    var pkcs8 := Base64Url.FromBase64(rec.privateKey);
    || pkcs8.None?
    || (rec.algId != MC.ES256 && rec.algId != MC.RS256)
    || env.sign(pkcs8.value, rec.algId, AssertionAuthData(env.sha(rec.rpId), uv, count) + req.clientDataHash, nonce) == None
    || Base64Url.Decode(rec.credentialId).None?
    || (req.allowList == [] && Base64Url.Decode(rec.userHandle).None?)
  }

  /** The faults raised after the count was advanced. */
  predicate LateFault(f: Fault)
  {
    f == BadPrivateKey || f == NoSupportedAlg || f == BadBase64 || f == SaveFailed
  }

  /** For every stored record, whoever made it. */
  lemma ReplyIff(env: Env, rec: Passkey, req: GA.Request, uv: bool, count: nat, nonce: nat)
    requires Storable(rec) && count <= UINT32_MAX
    ensures Reply(env, rec, req, uv, count, nonce).Err? <==> LateFailure(env, rec, req, uv, count, nonce)
    ensures Reply(env, rec, req, uv, count, nonce).Err? ==> LateFault(Reply(env, rec, req, uv, count, nonce).error)
  {
    hide AssertionBytes, Base64Url.Decode, Base64Url.FromBase64, AssertionAuthData;
  }

  /** The selected record fails late, or Save throws. */
  predicate UseFails(env: Env, st: State, p: Params, d: Draw)
    requires CountsUse(env, st, p, d.ask)
  {
    var req := GA.Parse(Gate(env, st, p, d.ask).1.value).value;
    var rec := Select(st.entries, req).value;
    IncrementedMeans(st.entries, rec.credentialId);
    !d.saved || LateFailure(env, rec, req, p.uv, Incremented(st.entries, rec.credentialId).value.1, d.nonce)
  }

  /**
   getAssertionRaw advances one count exactly when it gets as far as selecting a record whose counter is not full. Its
   failure burns that count exactly when Save then throws or the record fails late; every other failure changes nothing.
   */
  lemma CountBurns(env: Env, t: Tick)
    requires Taken(env, t) && t.e.Request? && t.e.call.AssertRaw? && t.e.vaultOpen
    ensures var p, d := t.e.call.p, t.e.call.d;
      var used := CountsUse(env, t.pre, p, d.ask);
      && (t.post.entries != t.pre.entries <==> used)
      && (t.out.Asserted? <==> used && !UseFails(env, t.pre, p, d))
      && (t.out.Failed? && t.post.entries != t.pre.entries <==> used && UseFails(env, t.pre, p, d))
      && (t.out.Failed? && t.post.entries != t.pre.entries ==> LateFault(t.out.fault))
      && (used && !d.saved ==> t.out == Failed(SaveFailed))
  {
    hide Taken, Answer, CountsUse, UseFails;
    AssertOfTick(env, t);
    AnswerBurns(env, t.pre, t.e.call.p, t.e.call.d);
  }

  lemma AnswerBurns(env: Env, st: State, p: Params, d: Draw)
    requires AllStorable(st.entries)
    ensures var r, used := Answer(env, st, p, d), CountsUse(env, st, p, d.ask);
      && (r.0.entries != st.entries <==> used)
      && (r.1.Ok? <==> used && !UseFails(env, st, p, d))
      && (r.1.Err? && used ==> LateFault(r.1.error))
      && (used && !d.saved ==> r.1 == Err(SaveFailed))
  {
    hide Gate, GA.Parse, Select, Incremented, Reply, Storable, AllStorable, LateFailure;
    GateKeepsVault(env, st, p, d.ask);
    var g := Gate(env, st, p, d.ask).1;
    if g.Ok? && GA.Parse(g.value).Ok? {
      var req := GA.Parse(g.value).value;
      var sel := Select(st.entries, req);
      if req.up && sel.Some? {
        SelectedIsStored(st.entries, req);
        IncrementedMeans(st.entries, sel.value.credentialId);
        var r := Incremented(st.entries, sel.value.credentialId);
        if r.Ok? {
          CountDiffers(st.entries, sel.value.credentialId);
          ReplyIff(env, sel.value, req, p.uv, r.value.1, d.nonce);
        }
      }
    }
  }

  /** Why an assertion is refused before any count is touched: the first of these that holds. */
  lemma AssertRefusals(env: Env, t: Tick)
    requires Taken(env, t) && t.e.Request? && t.e.call.AssertRaw? && t.e.vaultOpen
    requires !CountsUse(env, t.pre, t.e.call.p, t.e.call.d.ask)
    ensures var g, es := Gate(env, t.pre, t.e.call.p, t.e.call.d.ask).1, t.pre.entries;
      t.out == Failed(
        if g.Err? then g.error
        else match GA.Parse(g.value)
          case Err(f) => f
          case Ok(req) => if !req.up then UpNotSupported else if forall rec :: !Chosen(es, req, rec) then NotFound else CounterOverflow)
  {
    hide Taken, Answer, Gate, GA.Parse, Chosen, Select, CountsUse, AllStorable;
    AssertOfTick(env, t);
    AnswerRefusals(env, t.pre, t.e.call.p, t.e.call.d);
    var g := Gate(env, t.pre, t.e.call.p, t.e.call.d.ask).1;
    if g.Ok? && GA.Parse(g.value).Ok? { NothingChosen(t.pre.entries, GA.Parse(g.value).value); }
  }

  lemma AnswerRefusals(env: Env, st: State, p: Params, d: Draw)
    requires AllStorable(st.entries) && !CountsUse(env, st, p, d.ask)
    ensures var g := Gate(env, st, p, d.ask).1;
      Answer(env, st, p, d).1 == Err(
        if g.Err? then g.error
        else match GA.Parse(g.value)
          case Err(f) => f
          case Ok(req) => if !req.up then UpNotSupported else if Select(st.entries, req) == None then NotFound else CounterOverflow)
  {
    hide Gate, GA.Parse, Select, Incremented, Reply, Storable, AllStorable;
    var g := Gate(env, st, p, d.ask).1;
    if g.Ok? && GA.Parse(g.value).Ok? && GA.Parse(g.value).value.up && Select(st.entries, GA.Parse(g.value).value).Some? {
      var rec := Select(st.entries, GA.Parse(g.value).value).value;
      SelectedIsStored(st.entries, GA.Parse(g.value).value);
      IncrementedMeans(st.entries, rec.credentialId);
      IndexBound(st.entries, rec);
    }
  }

  lemma IndexBound(es: seq<VaultEntry>, rec: Passkey)
    requires exists e :: e in es && e.key == rec
    ensures IndexOf(es, rec.credentialId) < |es|
  {
    var e :| e in es && e.key == rec;
    var k :| 0 <= k < |es| && es[k] == e;
    var _ := IndexOf(es, rec.credentialId);
  }

  lemma NothingChosen(es: seq<VaultEntry>, req: GA.Request)
    ensures Select(es, req) == None <==> forall rec :: !Chosen(es, req, rec)
  {
    hide Select, Chosen;
    forall rec
      ensures Chosen(es, req, rec) <==> Select(es, req) == Some(rec)
    {
      ChosenIff(es, req, rec);
    }
    if Select(es, req).Some? { assert Chosen(es, req, Select(es, req).value); }
  }

  lemma CountDiffers(es: seq<VaultEntry>, id: bytes)
    requires Incremented(es, id).Ok?
    ensures Incremented(es, id).value.0 != es
  {
    hide Incremented;
    IncrementedMeans(es, id);
  }

  /** A record the plugin made itself: its key and ID read back, and its user handle does if the raw method made it. */
  predicate MadeHere(rec: Passkey, e: Event)
  {
    && e.Request? && (e.call.MakeRaw? || e.call.CreatePasskey?)
    && (rec.algId == MC.ES256 || rec.algId == MC.RS256) && rec.credentialId == Base64Url.Encode(e.call.d.rawId)
    && Base64Url.FromBase64(rec.privateKey) == Some(e.call.d.pkcs8)
    && (e.call.MakeRaw? ==> Base64Url.Decode(rec.userHandle).Some?)
    && (e.call.CreatePasskey? ==> rec.userHandle == e.call.legacy.userHandle)
  }

  lemma NewIsMadeHere(env: Env, st: State, p: Params, d: Draw, req: MC.Request, alg: int)
    requires ValidDraw(d) && MadeFrom(Gate(env, st, p, d.ask).1, req) && SelectAlgorithm(req.requestedAlgs) == Some(alg)
    ensures MadeHere(NewRecord(req, alg, d), Request(true, MakeRaw(p, d)))
  {
    hide Gate, MC.Parse, CoseBytes, Base64Url.Encode, Base64Url.Decode, Base64Url.FromBase64, Base64Url.ToBase64;
    MCM.HandleIsEncoded(Gate(env, st, p, d.ask).1.value);
    var userId :| req.userHandle == Base64Url.Encode(userId);
    Base64Url.StandardRoundTrip(d.pkcs8);
    Base64Url.RoundTrip(userId);
  }

  lemma LegacyIsMadeHere(p: LegacyParams, d: Draw)
    requires ValidDraw(d)
    ensures MadeHere(LegacyRecord(p, d), Request(true, CreatePasskey(p, d)))
  {
    hide CoseBytes, Base64Url.Encode, Base64Url.Decode, Base64Url.FromBase64, Base64Url.ToBase64;
    Base64Url.StandardRoundTrip(d.pkcs8);
  }

  /** Whatever request adds a record, and whether or not it is then saved, the record is one made here. */
  lemma AddedIsMadeHere(env: Env, t: Tick) returns (rec: Passkey)
    requires Taken(env, t) && t.e.Request? && |t.post.entries| > |t.pre.entries|
    ensures t.post.entries == t.pre.entries + [VaultEntry(rec, ZERO)] && MadeHere(rec, t.e)
  {
    hide Taken, Gate, ValidDraw, Admitted, Register, Create, MadeFrom, NewRecord, LegacyRecord, MadeHere, SelectAlgorithm;
    AddsByCreation(env, t);
    var d := t.e.call.d;
    if t.e.call.MakeRaw? {
      MakeOfTick(env, t);
      if Admitted(env, t.pre, t.e.call.p, d).1.Err? {
        RefusedRegister(env, t.pre, t.e.call.p, d);
      }
      var req, alg := RegisterShape(env, t.pre, t.e.call.p, d);
      rec := NewRecord(req, alg, d);
      NewIsMadeHere(env, t.pre, t.e.call.p, d, req, alg);
    } else {
      rec := LegacyRecord(t.e.call.legacy, d);
      LegacyIsMadeHere(t.e.call.legacy, d);
    }
  }

  lemma AddsByCreation(env: Env, t: Tick)
    requires Taken(env, t) && t.e.Request? && |t.post.entries| > |t.pre.entries|
    ensures t.e.Request? && t.e.vaultOpen && (t.e.call.MakeRaw? || t.e.call.CreatePasskey?) && ValidDraw(t.e.call.d)
    ensures t.e.call.CreatePasskey? ==> t.post.entries == t.pre.entries + [VaultEntry(LegacyRecord(t.e.call.legacy, t.e.call.d), ZERO)]
  {
    hide Register, Answer, ValidDraw, LegacyRecord, RegistrationAuthData, Incremented, Good;
    if t.e.Request? && t.e.vaultOpen && t.e.call.AssertRaw? {
      var c := AnswerChange(env, t.pre, t.e.call.p, t.e.call.d);
      if c.Counted? { IncrementedMeans(t.pre.entries, c.id); }
    }
  }

  /** A record made here fails late exactly when signing throws, or when its handle, given to createPasskey, is no base64url and is due. */
  lemma OwnRecordFailsLate(env: Env, rec: Passkey, e: Event, req: GA.Request, uv: bool, count: nat, nonce: nat)
    requires MadeHere(rec, e) && count <= UINT32_MAX
    ensures LateFailure(env, rec, req, uv, count, nonce) <==>
      || env.sign(e.call.d.pkcs8, rec.algId, AssertionAuthData(env.sha(rec.rpId), uv, count) + req.clientDataHash, nonce) == None
      || (e.call.CreatePasskey? && req.allowList == [] && Base64Url.Decode(e.call.legacy.userHandle).None?)
  {
    hide Base64Url.Encode, Base64Url.Decode, Base64Url.FromBase64, AssertionAuthData;
    Base64Url.RoundTrip(e.call.d.rawId);
  }

  /** The request of an assertion whose count is advanced, the record it selects and the count it reaches. */
  lemma UseParts(env: Env, st: State, p: Params, d: Draw) returns (req: GA.Request, rec: Passkey, count: nat)
    requires AllStorable(st.entries) && CountsUse(env, st, p, d.ask)
    ensures AskedFrom(Gate(env, st, p, d.ask).1, req) && Select(st.entries, req) == Some(rec)
    ensures exists e :: e in st.entries && e.key == rec
    ensures var c := Incremented(st.entries, rec.credentialId); c.Ok? && c.value.1 == count <= UINT32_MAX
    ensures UseFails(env, st, p, d) <==> !d.saved || LateFailure(env, rec, req, p.uv, count, d.nonce)
  {
    hide Gate, GA.Parse, Select, Incremented, Storable, LateFailure;
    req := GA.Parse(Gate(env, st, p, d.ask).1.value).value;
    rec := Select(st.entries, req).value;
    SelectedIsStored(st.entries, req);
    IncrementedMeans(st.entries, rec.credentialId);
    count := Incremented(st.entries, rec.credentialId).value.1;
  }

  /**
   Whatever record the plugin made in a run, by either method and saved or not: an assertion that later selects it with its
   counter not full is answered exactly unless Save throws, signing throws, or the handle createPasskey stored is no
   base64url text and the request lists no credentials. In these cases, and in no other, it burns the count.
   */
  lemma OwnRecordIsAnswered(env: Env, ts: seq<Tick>, i: nat, j: nat) returns (made: Passkey, req: GA.Request, rec: Passkey, count: nat)
    requires IsRun(env, ts) && i < j < |ts| && ts[i].e.Request? && |ts[i].post.entries| > |ts[i].pre.entries|
    requires ts[j].e.Request? && ts[j].e.call.AssertRaw? && ts[j].e.vaultOpen
    requires CountsUse(env, ts[j].pre, ts[j].e.call.p, ts[j].e.call.d.ask)
    ensures ts[i].post.entries == ts[i].pre.entries + [VaultEntry(made, ZERO)] && MadeHere(made, ts[i].e)
    ensures AskedFrom(Gate(env, ts[j].pre, ts[j].e.call.p, ts[j].e.call.d.ask).1, req) && Select(ts[j].pre.entries, req) == Some(rec)
    ensures var c := Incremented(ts[j].pre.entries, rec.credentialId); c.Ok? && c.value.1 == count <= UINT32_MAX
    ensures rec.credentialId == made.credentialId ==>
      && rec == made
      && (ts[j].out.Asserted? <==> ts[j].e.call.d.saved && Signs(env, ts[i].e, ts[j].e, made, req, count) && HandleServes(ts[i].e, req))
      && ts[j].post.entries != ts[j].pre.entries
  {
    hide GoodState, Taken, Tracked, Known, Gate, Select, AskedFrom, MadeHere, CountsUse, UseFails, LateFailure, Incremented, AllStorable,
         AssertionAuthData, Base64Url.Decode;
    RunTick(env, ts, i);
    RunTick(env, ts, j);
    made := AddedIsMadeHere(env, ts[i]);
    AddedKnown(env, ts[i], made);
    KnownAt(env, ts, i, j, made.credentialId, made, 0);
    KnownTracked(ts[j].pre, made.credentialId, made, 0);
    AssertOfTick(env, ts[j]);
    req, rec, count := UseParts(env, ts[j].pre, ts[j].e.call.p, ts[j].e.call.d);
    CountBurns(env, ts[j]);
    if rec.credentialId == made.credentialId {
      StoredIsTracked(ts[j].pre.entries, rec, made);
      assert ts[i].e.Request? && (ts[i].e.call.MakeRaw? || ts[i].e.call.CreatePasskey?) by { MadeByCreation(made, ts[i].e); }
      OwnRecordFailsLate(env, made, ts[i].e, req, ts[j].e.call.p.uv, count, ts[j].e.call.d.nonce);
    }
  }

  lemma MadeByCreation(rec: Passkey, e: Event)
    requires MadeHere(rec, e)
    ensures e.Request? && (e.call.MakeRaw? || e.call.CreatePasskey?) && NewId(e) == Some(rec.credentialId)
  {
    hide Base64Url.Encode;
  }

  /** Signing with the key drawn at `made` answers for the data of `asked`. */
  predicate Signs(env: Env, created: Event, asked: Event, rec: Passkey, req: GA.Request, count: nat)
    requires count <= UINT32_MAX
  {
    && created.Request? && (created.call.MakeRaw? || created.call.CreatePasskey?) && asked.Request? && asked.call.AssertRaw?
    && env.sign(created.call.d.pkcs8, rec.algId,
                AssertionAuthData(env.sha(rec.rpId), asked.call.p.uv, count) + req.clientDataHash, asked.call.d.nonce) != None
  }

  /** The handle can be given back if it is due. */
  predicate HandleServes(created: Event, req: GA.Request)
  {
    created.Request? && created.call.CreatePasskey? && req.allowList == [] ==> Base64Url.Decode(created.call.legacy.userHandle).Some?
  }

  lemma AddedKnown(env: Env, t: Tick, rec: Passkey)
    requires Taken(env, t) && GoodState(t.pre, t.used) && MadeHere(rec, t.e)
    requires t.post.entries == t.pre.entries + [VaultEntry(rec, ZERO)]
    ensures rec.credentialId in Used(t.used, t.e) && Known(t.post, rec.credentialId, rec, 0)
  {
    hide GoodState, Step, Known, MadeHere, Base64Url.Encode, ValidEvent;
    MadeByCreation(rec, t.e);
    StepDisk(env, t.pre, t.e);
    KnownAfterAdd(t, rec);
  }

  lemma StoredIsTracked(es: seq<VaultEntry>, rec: Passkey, made: Passkey)
    requires (exists e :: e in es && e.key == rec) && rec.credentialId == made.credentialId && Tracked(es, made.credentialId, made, 0)
    ensures rec == made
  {
    var e :| e in es && e.key == rec;
    var k :| 0 <= k < |es| && es[k] == e;
    TrackedEntry(es, k, made, 0);
  }

  /** Whether Save would return, were it called. */
  predicate SaveReturns(c: Call)
  {
    match c case MakeRaw(_, d) => d.saved case AssertRaw(_, d) => d.saved case CreatePasskey(_, d) => d.saved
            case Delete(_, saved) => saved case ReadOnly => false
  }

  /** A request leaves the file a copy of the vault exactly when it changed the vault and Save returned; otherwise it leaves it alone. */
  lemma FileFollows(env: Env, t: Tick)
    requires Taken(env, t) && t.e.Request?
    ensures t.post.disk == if t.post.entries != t.pre.entries && SaveReturns(t.e.call) then t.post.entries else t.pre.disk
  {
    hide Register, Answer, Create, Drop, AllStorable, ValidDraw, Taken, CountsUse, UseFails, Admissible, Admitted;
    if t.e.vaultOpen {
      match t.e.call {
        case MakeRaw(p, d) =>
          MakeOfTick(env, t);
          RegisterDisk(env, t.pre, p, d);
          RegisteredIff(env, t);
          var _ := RefusalChangesNothing(env, t);
        case AssertRaw(p, d) =>
          AssertOfTick(env, t);
          AnswerFile(env, t.pre, p, d);
        case CreatePasskey(p, d) =>
          CreateOfTick(env, t);
          CreateDisk(env, t.pre, p, d);
          var _ := TickCreated(env, t);
        case Delete(id, saved) =>
          DropOfTick(env, t);
          DropFile(t.pre, id, saved);
        case ReadOnly => ReadOfTick(env, t);
      }
    } else {
      LockedTick(env, t);
    }
  }

  lemma LockedTick(env: Env, t: Tick)
    requires Taken(env, t) && t.e.Request? && !t.e.vaultOpen
    ensures t.post == t.pre && t.out == Failed(VaultLocked)
  {
    hide AllStorable, ValidEvent;
  }

  lemma ReadOfTick(env: Env, t: Tick)
    requires Taken(env, t) && t.e.Request? && t.e.call.ReadOnly?
    ensures t.post == t.pre
  {
    hide AllStorable;
  }

  lemma CreateOfTick(env: Env, t: Tick)
    requires Taken(env, t) && t.e.Request? && t.e.call.CreatePasskey? && t.e.vaultOpen
    ensures ValidDraw(t.e.call.d)
    ensures var r := Create(env, t.pre, t.e.call.legacy, t.e.call.d);
      t.post == r.0 && t.out == match r.1 case Ok(passkey) => Created(passkey) case Err(f) => Failed(f)
  {
    hide Create, AllStorable, ValidDraw;
  }

  lemma DropFile(st: State, id: bytes, saved: bool)
    ensures var r := Drop(st, id, saved).0; r.disk == if r.entries != st.entries && saved then r.entries else st.disk
  {
    hide IndexOf;
    var i := IndexOf(st.entries, id);
    if i < |st.entries| { assert |Without(st.entries, id)| == |st.entries| - 1; }
  }

  lemma AnswerFile(env: Env, st: State, p: Params, d: Draw)
    requires AllStorable(st.entries)
    ensures var r := Answer(env, st, p, d).0; r.disk == if r.entries != st.entries && d.saved then r.entries else st.disk
  {
    hide Gate, GA.Parse, Select, Incremented, Reply, Storable, AllStorable;
    GateKeepsVault(env, st, p, d.ask);
    var g := Gate(env, st, p, d.ask).1;
    if g.Ok? && GA.Parse(g.value).Ok? {
      var req := GA.Parse(g.value).value;
      var sel := Select(st.entries, req);
      if req.up && sel.Some? {
        SelectedIsStored(st.entries, req);
        if Incremented(st.entries, sel.value.credentialId).Ok? { CountDiffers(st.entries, sel.value.credentialId); }
      }
    }
  }

  // -- the latch over a run ---------------------------------------------------------------------------------

  lemma GateLatch(env: Env, st: State, p: Params, ask: Option<bool>)
    ensures var g := Gate(env, st, p, ask);
      st.decided ==> g.0.decided && g.0.decision == st.decision && (!st.decision && !IsV2(p.uvBindingTier) ==> g.1.Err?)
  {
    hide VerifiedCbor, UvSignatureFault;
  }

  lemma TickLatch(env: Env, t: Tick)
    requires Taken(env, t)
    ensures t.pre.decided ==> t.post.decided && t.post.decision == t.pre.decision
    ensures t.post.cachedKey == if t.e.Hello? then Some(t.e.opSignKey) else t.pre.cachedKey
    ensures t.pre.decided && !t.pre.decision && IsRaw(t.e) && !IsV2(t.e.call.p.uvBindingTier) ==> t.post.entries == t.pre.entries
  {
    hide Gate, Register, Answer, MC.Parse, GA.Parse, Without, ValidDraw, AllStorable, Taken;
    if IsRaw(t.e) {
      GateLatch(env, t.pre, t.e.call.p, t.e.call.d.ask);
      if t.e.call.MakeRaw? {
        MakeOfTick(env, t);
        RegisterAfterGate(env, t.pre, t.e.call.p, t.e.call.d);
      } else {
        AssertOfTick(env, t);
        AnswerAfterGate(env, t.pre, t.e.call.p, t.e.call.d);
      }
    } else {
      OtherTick(env, t);
    }
  }

  lemma OtherTick(env: Env, t: Tick)
    requires Taken(env, t) && !IsRaw(t.e)
    ensures t.post.decided == t.pre.decided && t.post.decision == t.pre.decision
    ensures t.post.cachedKey == if t.e.Hello? then Some(t.e.opSignKey) else t.pre.cachedKey
  {
    hide Without, Register, Answer, ValidDraw, AllStorable, LegacyRecord, RegistrationAuthData;
  }

  /** Event `t` is a raw call whose prompt the user answers. */
  predicate AnswersPrompt(env: Env, t: Tick)
  {
    IsRaw(t.e) && t.e.vaultOpen && PromptAnswered(env, t.pre, t.e.call.p, t.e.call.d.ask)
  }

  lemma TickAnswers(env: Env, t: Tick)
    requires Taken(env, t)
    ensures t.post.decided <==> t.pre.decided || AnswersPrompt(env, t)
    ensures t.post.decided ==> t.post.decision == if t.pre.decided then t.pre.decision else t.e.call.d.ask.value
  {
    hide Gate, Register, Answer, MC.Parse, GA.Parse, Without, ValidDraw, AllStorable, Taken, PromptAnswered;
    if IsRaw(t.e) {
      GateLatches(env, t.pre, t.e.call.p, t.e.call.d.ask);
      PromptNew(env, t.pre, t.e.call.p, t.e.call.d.ask);
      if t.e.call.MakeRaw? {
        MakeOfTick(env, t);
        RegisterAfterGate(env, t.pre, t.e.call.p, t.e.call.d);
      } else {
        AssertOfTick(env, t);
        AnswerAfterGate(env, t.pre, t.e.call.p, t.e.call.d);
      }
    } else {
      OtherTick(env, t);
    }
  }

  lemma PromptNew(env: Env, st: State, p: Params, ask: Option<bool>)
    ensures PromptAnswered(env, st, p, ask) ==> !st.decided && ask.Some?
  {}

  /** In a run that begins undecided, what is decided at any point is the first answer the user gave to the prompt. */
  lemma {:induction false} LatchIsFirstAnswer(env: Env, ts: seq<Tick>, j: nat)
    requires IsRun(env, ts) && j < |ts| && !ts[0].pre.decided
    ensures ts[j].post.decided <==> exists i :: 0 <= i <= j && AnswersPrompt(env, ts[i])
    ensures ts[j].post.decided ==>
      exists i :: 0 <= i <= j && AnswersPrompt(env, ts[i]) && ts[i].e.call.d.ask == Some(ts[j].post.decision)
                  && forall k :: 0 <= k < i ==> !AnswersPrompt(env, ts[k])
    decreases j
  {
    hide Good, Taken, AnswersPrompt;
    RunTaken(env, ts, j);
    TickAnswers(env, ts[j]);
    AnsweredNow(env, ts[j]);
    if j > 0 { LatchIsFirstAnswer(env, ts, j - 1); }
  }

  lemma AnsweredNow(env: Env, t: Tick)
    ensures AnswersPrompt(env, t) ==> !t.pre.decided && IsRaw(t.e) && t.e.call.d.ask.Some?
  {}

  /** Once taken, the prompt's decision stands for the rest of the run. */
  lemma {:induction false} LatchHolds(env: Env, ts: seq<Tick>, i: nat, j: nat)
    requires IsRun(env, ts) && i <= j < |ts| && ts[i].pre.decided
    ensures ts[j].pre.decided && ts[j].pre.decision == ts[i].pre.decision
    decreases j
  {
    hide Good, Taken;
    if i < j {
      LatchHolds(env, ts, i, j - 1);
      TickLatch(env, ts[j - 1]);
    }
  }

  /** After the user once declined, no v1 or untiered raw call of the run changes the vault, bypass or not. */
  lemma DeclinedForGood(env: Env, ts: seq<Tick>, i: nat, j: nat)
    requires IsRun(env, ts) && i <= j < |ts| && ts[i].pre.decided && !ts[i].pre.decision
    requires IsRaw(ts[j].e) && !IsV2(ts[j].e.call.p.uvBindingTier)
    ensures ts[j].post.entries == ts[j].pre.entries
  {
    hide IsRun;
    LatchHolds(env, ts, i, j);
    assert Taken(env, ts[j]) by { RunTaken(env, ts, j); }
    TickLatch(env, ts[j]);
  }

  lemma RunTaken(env: Env, ts: seq<Tick>, j: nat)
    requires IsRun(env, ts) && j < |ts|
    ensures Taken(env, ts[j])
  {
    hide Taken, Good;
  }

  /** The cached key of any state is the one the run began with or one a handshake delivered. */
  lemma {:induction false} KeyFromHandshake(env: Env, ts: seq<Tick>, j: nat)
    requires IsRun(env, ts) && j < |ts|
    ensures ts[j].pre.cachedKey == ts[0].pre.cachedKey
            || exists i :: 0 <= i < j && ts[i].e.Hello? && ts[j].pre.cachedKey == Some(ts[i].e.opSignKey)
    decreases j
  {
    hide Good, Taken;
    if j > 0 {
      KeyFromHandshake(env, ts, j - 1);
      TickLatch(env, ts[j - 1]);
    }
  }
}
