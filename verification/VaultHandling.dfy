/**
 The two raw methods of Ipc/VaultHandler.cs with their gates, and its two other methods that change the vault: what each
 request does to the vault and what it answers, as functions of the state, and the handler that computes them.
 */
module VaultHandling {
  import opened Prelude
  import opened EcdsaDer
  import opened PluginState
  import opened Responses
  import opened VaultStore
  import Base64Url
  import GA = GetAssertionRequest
  import MC = MakeCredentialRequest

  /** SHA-256, of which only the digest length is known. */
  type Hash = f: bytes -> bytes | forall b :: |f(b)| == 32 witness (_: bytes) => ToBE(0, 32)

  /** Signing with a PKCS#8 key for an algorithm, with whatever randomness; None is a CryptographicException. */
  type Signer = f: (bytes, int, bytes, nat) -> Option<bytes> | forall k, a, d, n :: f(k, a, d, n).Some? ==> |f(k, a, d, n).value| <= MAX_TEXT
    witness (_: bytes, _: int, _: bytes, _: nat) => None

  /** What does not change while the plugin runs: the bypass variable, the prompt's presence, the primitives. */
  datatype Env = Env(bypass: bool, hasPrompt: bool, sha: Hash, ecdsa: Ecdsa, sign: Signer)

  /** A base64 member of the JSON params: missing or empty, not base64, or text that decodes to `value`. */
  datatype Base64Text = Absent | Malformed | Decoded(value: bytes)

  /** The text of uvBindingTier: missing or empty, one of the three the plugin knows, or anything else. */
  datatype Tier = NoTier | V1 | V2Stable | V2Experimental | OtherTier(name: string)

  /** The JSON params of a raw method. */
  datatype Params = Params(cbor: Base64Text, uv: bool, requestSignature: Base64Text, uvBindingTier: Tier, uvSignature: Base64Text)

  /** The JSON params of createPasskey; a required text that is missing reads as an empty one. */
  datatype LegacyParams = LegacyParams(rpId: bytes, rpName: Option<bytes>, userHandle: bytes, userName: bytes, userDisplayName: Option<bytes>)

  /** What one call draws from outside: random bytes, key pairs, the user's answer (None: the prompt threw), and whether Save returns. */
  datatype Draw = Draw(rawId: bytes, pkcs8: bytes, ec: PublicKey, rsa: PublicKey, ask: Option<bool>, nonce: nat, saved: bool)

  /** The vault, its file, the cached op-sign key and the prompt's latch. */
  datatype State = State(entries: seq<VaultEntry>, disk: seq<VaultEntry>, cachedKey: Option<bytes>, decided: bool, decision: bool)

  ghost predicate FitKey(k: PublicKey)
  {
    ValidKey(k) && |CoseBytes(k)| <= MAX_TEXT
  }

  ghost predicate ValidDraw(d: Draw)
  {
    |d.rawId| == 32 && d.ec.Ec? && d.rsa.Rsa? && FitKey(d.ec) && FitKey(d.rsa)
  }

  /** The vault changed in memory, and saved or not. */
  function Stored(st: State, after: seq<VaultEntry>, saved: bool): State
  {
    st.(entries := after, disk := if saved then after else st.disk)
  }

  predicate AllStorable(es: seq<VaultEntry>)
  {
    forall e :: e in es ==> Storable(e.key)
  }

  // -- the gates -------------------------------------------------------------------------------

  function VerifiedCbor(env: Env, cachedKey: Option<bytes>, p: Params): Result<bytes, Fault>
  {
    match p.cbor
    case Absent => Err(BadParams)
    case Malformed => Err(BadParams)
    case Decoded(cbor) =>
      if env.bypass then Ok(cbor)
      else if cachedKey.None? then Err(NoCachedKey)
      else match p.requestSignature
        case Absent => Err(BadSignature)
        case Malformed => Err(BadSignature)
        case Decoded(sig) => if Verify(env.ecdsa, cachedKey.value, cbor, sig) then Ok(cbor) else Err(BadSignature)
  }

  predicate IsV2(tier: Tier)
  {
    tier.V2Stable? || tier.V2Experimental?
  }

  /** The UV signature a v2 tier must carry. */
  function UvSignatureFault(env: Env, cachedKey: Option<bytes>, p: Params, cbor: bytes): Option<Fault>
  {
    if cachedKey.None? then Some(NoCachedKey)
    else match p.uvSignature
      case Absent => Some(BadUv)
      case Malformed => Some(BadUv)
      case Decoded(sig) => if sig != [] && EitherFormat(env.ecdsa, cachedKey.value, cbor, sig) then None else Some(BadUv)
  }

  function UvGate(env: Env, st: State, p: Params, cbor: bytes, ask: Option<bool>): (State, Option<Fault>)
  {
    if IsV2(p.uvBindingTier) then (st, UvSignatureFault(env, st.cachedKey, p, cbor))
    else if p.uvBindingTier.V1? || p.uvBindingTier.NoTier? then
      if !env.hasPrompt then (st, Some(PromptMissing))
      else if st.decided then (st, if st.decision then None else Some(Declined))
      else match ask
        case None => (st, Some(PromptFailed))
        case Some(b) => (st.(decided := true, decision := b), if b then None else Some(Declined))
    else (st, Some(UnknownTier))
  }

  /** Both gates: the CBOR bytes they let through. */
  function Gate(env: Env, st: State, p: Params, ask: Option<bool>): (State, Result<bytes, Fault>)
  {
    match VerifiedCbor(env, st.cachedKey, p)
    case Err(e) => (st, Err(e))
    case Ok(cbor) =>
      var g := UvGate(env, st, p, cbor, ask);
      (g.0, if g.1.Some? then Err(g.1.value) else Ok(cbor))
  }

  // -- makeCredentialRaw -----------------------------------------------------------------------------

  function SelectAlgorithm(algs: seq<int>): Option<int>
  {
    if MC.ES256 in algs then Some(MC.ES256) else if MC.RS256 in algs then Some(MC.RS256) else None
  }

  predicate AnyExcluded(es: seq<VaultEntry>, ids: seq<bytes>)
  {
    exists i :: 0 <= i < |ids| && ById(es, ids[i]).Some?
  }

  function KeyFor(alg: int, d: Draw): PublicKey
  {
    if alg == MC.ES256 then d.ec else d.rsa
  }

  ghost function NewRecord(req: MC.Request, alg: int, d: Draw): Passkey
    requires ValidDraw(d)
  {
    Passkey(Base64Url.Encode(d.rawId), req.rpId, req.rpName, req.userHandle, req.userName, req.userDisplayName, alg,
            Base64Url.ToBase64(d.pkcs8), CoseBytes(KeyFor(alg, d)))
  }

  ghost function NewAuthData(env: Env, req: MC.Request, alg: int, d: Draw, uv: bool): (a: bytes)
    requires ValidDraw(d)
    ensures |a| <= UINT64_MAX
  {
    RegistrationAuthData(env.sha(req.rpId), d.rawId, CoseBytes(KeyFor(alg, d)), uv)
  }

  datatype Made = Made(response: bytes, record: Passkey)

  ghost function Admit(env: Env, es: seq<VaultEntry>, req: MC.Request, p: Params, d: Draw): Result<Made, Fault>
    requires ValidDraw(d)
  {
    if AnyExcluded(es, req.excludeList) then Err(Excluded)
    else match SelectAlgorithm(req.requestedAlgs)
      case None => Err(NoSupportedAlg)
      case Some(alg) => Ok(Made(AttestationBytes(NewAuthData(env, req, alg, d, p.uv)), NewRecord(req, alg, d)))
  }

  /** Everything before the record is stored. */
  ghost function Admitted(env: Env, st: State, p: Params, d: Draw): (State, Result<Made, Fault>)
    requires ValidDraw(d)
  {
    var g := Gate(env, st, p, d.ask);
    if g.1.Err? then (g.0, Err(g.1.error))
    else match MC.Parse(g.1.value)
      case Err(e) => (g.0, Err(e))
      case Ok(req) => (g.0, Admit(env, st.entries, req, p, d))
  }

  ghost function Register(env: Env, st: State, p: Params, d: Draw): (State, Result<Made, Fault>)
    requires ValidDraw(d)
  {
    var a := Admitted(env, st, p, d);
    if a.1.Err? then a
    else (Stored(a.0, st.entries + [VaultEntry(a.1.value.record, ZERO)], d.saved), if d.saved then a.1 else Err(SaveFailed))
  }

  // -- createPasskey and deleteCredential ------------------------------------------------------------

  datatype Legacy = Legacy(record: Passkey, authData: bytes)

  function GivenOr(name: Option<bytes>, other: bytes): bytes
  {
    match name case Some(n) => n case None => other
  }

  predicate Complete(p: LegacyParams)
  {
    p.rpId != [] && p.userHandle != [] && p.userName != []
  }

  /** The user handle is stored as it came: nothing checks that it is base64url. */
  ghost function LegacyRecord(p: LegacyParams, d: Draw): Passkey
    requires ValidDraw(d)
  {
    Passkey(Base64Url.Encode(d.rawId), p.rpId, GivenOr(p.rpName, p.rpId), p.userHandle, p.userName,
            GivenOr(p.userDisplayName, p.userName), MC.ES256, Base64Url.ToBase64(d.pkcs8), CoseBytes(d.ec))
  }

  ghost function Create(env: Env, st: State, p: LegacyParams, d: Draw): (State, Result<Legacy, Fault>)
    requires ValidDraw(d)
  {
    if !Complete(p) then (st, Err(BadParams))
    else
      var record := LegacyRecord(p, d);
      (Stored(st, st.entries + [VaultEntry(record, ZERO)], d.saved),
       if d.saved then Ok(Legacy(record, RegistrationAuthData(env.sha(p.rpId), d.rawId, record.publicKey, true))) else Err(SaveFailed))
  }

  function Drop(st: State, id: bytes, saved: bool): (State, Result<bool, Fault>)
  {
    if id == [] then (st, Err(BadParams))
    else
      var after := Without(st.entries, id);
      (Stored(st, after, saved && |after| < |st.entries|), Deleted(|after| < |st.entries|, saved))
  }

  // -- getAssertionRaw ----------------------------------------------------------------------------------

  /** The first listed raw ID that is in the vault. */
  function FirstListed(es: seq<VaultEntry>, ids: seq<bytes>): Option<Passkey>
  {
    if ids == [] then None
    else
      var hit := ById(es, Base64Url.Encode(ids[0]));
      if hit.Some? then hit else FirstListed(es, ids[1..])
  }

  function Select(es: seq<VaultEntry>, req: GA.Request): Option<Passkey>
  {
    if req.allowList == [] then (var c := ByRpId(es, req.rpId); if c == [] then None else Some(c[0]))
    else FirstListed(es, req.allowList)
  }

  function Sign(env: Env, rec: Passkey, pkcs8: bytes, data: bytes, nonce: nat): Result<bytes, Fault>
  {
    if rec.algId != MC.ES256 && rec.algId != MC.RS256 then Err(NoSupportedAlg)
    else match env.sign(pkcs8, rec.algId, data, nonce) case None => Err(BadPrivateKey) case Some(s) => Ok(s)
  }

  function RawId(rec: Passkey): (r: Option<bytes>)
    requires Storable(rec)
    ensures r.Some? ==> |r.value| <= UINT64_MAX
  {
    Base64Url.DecodeShort(rec.credentialId);
    Base64Url.Decode(rec.credentialId)
  }

  /** Everything after the count was advanced to `count`. */
  ghost function Reply(env: Env, rec: Passkey, req: GA.Request, uv: bool, count: nat, nonce: nat): Result<bytes, Fault>
    requires Storable(rec) && count <= UINT32_MAX
  {
    var authData := AssertionAuthData(env.sha(rec.rpId), uv, count);
    match Base64Url.FromBase64(rec.privateKey)
    case None => Err(BadPrivateKey)
    case Some(pkcs8) =>
      match Sign(env, rec, pkcs8, authData + req.clientDataHash, nonce)
      case Err(e) => Err(e)
      case Ok(sig) =>
        match RawId(rec)
        case None => Err(BadBase64)
        case Some(rawId) =>
          match ResponseFor(rawId, authData, sig, if req.allowList == [] then Some(rec) else None, uv)
          case None => Err(BadBase64)
          case Some(response) => Ok(response)
  }

  ghost function Answer(env: Env, st: State, p: Params, d: Draw): (State, Result<bytes, Fault>)
    requires AllStorable(st.entries)
  {
    var g := Gate(env, st, p, d.ask);
    if g.1.Err? then (g.0, Err(g.1.error))
    else match GA.Parse(g.1.value)
      case Err(e) => (g.0, Err(e))
      case Ok(req) =>
        if !req.up then (g.0, Err(UpNotSupported))
        else match Select(st.entries, req)
          case None => (g.0, Err(NotFound))
          case Some(rec) =>
            SelectedIsStored(st.entries, req);
            match Incremented(st.entries, rec.credentialId)
            case Err(e) => (g.0, Err(e))
            case Ok((after, count)) =>
              IncrementedMeans(st.entries, rec.credentialId);
              (Stored(g.0, after, d.saved), if d.saved then Reply(env, rec, req, p.uv, count, d.nonce) else Err(SaveFailed))
  }

  lemma {:induction false} ByRpIdStored(es: seq<VaultEntry>, rpId: bytes)
    ensures forall k :: k in ByRpId(es, rpId) ==> k.rpId == rpId && exists e :: e in es && e.key == k
  {
    if es != [] {
      ByRpIdStored(es[..|es| - 1], rpId);
      forall k | k in ByRpId(es, rpId)
        ensures k.rpId == rpId && exists e :: e in es && e.key == k
      {
        if k in ByRpId(es[..|es| - 1], rpId) {
          var e :| e in es[..|es| - 1] && e.key == k;
          assert e in es;
        } else {
          assert es[|es| - 1] in es;
        }
      }
    }
  }

  /** The discoverable choice is the vault's first record for exactly the requested RP ID. */
  lemma {:induction false} FirstForRp(es: seq<VaultEntry>, rpId: bytes)
    ensures ByRpId(es, rpId) == [] ==> forall e :: e in es ==> e.key.rpId != rpId
    ensures ByRpId(es, rpId) != [] ==>
      exists i :: 0 <= i < |es| && es[i].key == ByRpId(es, rpId)[0] && es[i].key.rpId == rpId
                  && forall j :: 0 <= j < i ==> es[j].key.rpId != rpId
  {
    if es != [] {
      var front := es[..|es| - 1];
      FirstForRp(front, rpId);
      assert es == front + [es[|es| - 1]];
      if ByRpId(front, rpId) != [] {
        var i :| 0 <= i < |front| && front[i].key == ByRpId(front, rpId)[0] && front[i].key.rpId == rpId
                 && forall j :: 0 <= j < i ==> front[j].key.rpId != rpId;
        assert es[i] == front[i];
      } else if ByRpId(es, rpId) != [] {
        assert forall j :: 0 <= j < |front| ==> es[j] == front[j] && front[j] in front;
        assert es[|es| - 1].key == ByRpId(es, rpId)[0];
      }
    }
  }

  /** On the allowList path the choice is the first listed raw ID the vault holds, and none exactly when it holds none. */
  lemma {:induction false} FirstListedMeans(es: seq<VaultEntry>, ids: seq<bytes>)
    ensures match FirstListed(es, ids)
            case None => forall i :: 0 <= i < |ids| ==> ById(es, Base64Url.Encode(ids[i])).None?
            case Some(rec) => (exists i :: 0 <= i < |ids| && ById(es, Base64Url.Encode(ids[i])) == Some(rec)
                                 && forall j :: 0 <= j < i ==> ById(es, Base64Url.Encode(ids[j])).None?)
  {
    hide ById, Base64Url.Encode;
    if ids != [] && ById(es, Base64Url.Encode(ids[0])).None? {
      FirstListedMeans(es, ids[1..]);
      assert forall i :: 0 < i < |ids| ==> ids[i] == ids[1..][i - 1];
      if FirstListed(es, ids).Some? {
        var i :| 0 <= i < |ids[1..]| && ById(es, Base64Url.Encode(ids[1..][i])) == FirstListed(es, ids[1..])
                 && forall j :: 0 <= j < i ==> ById(es, Base64Url.Encode(ids[1..][j])).None?;
        assert ById(es, Base64Url.Encode(ids[i + 1])) == FirstListed(es, ids);
      }
    }
  }

  /** The vault's first record of this RP. */
  predicate FirstOfRp(es: seq<VaultEntry>, rpId: bytes, rec: Passkey)
  {
    exists i :: 0 <= i < |es| && es[i].key == rec && rec.rpId == rpId && forall j :: 0 <= j < i ==> es[j].key.rpId != rpId
  }

  /** The vault's first record with the first listed ID that it has at all. */
  predicate FirstListedIs(es: seq<VaultEntry>, ids: seq<bytes>, rec: Passkey)
  {
    exists i :: 0 <= i < |ids| && FirstWithId(es, Base64Url.Encode(ids[i]), rec)
                && forall j :: 0 <= j < i ==> NoEntry(es, Base64Url.Encode(ids[j]))
  }

  /** Which record an assertion is for, said over the entries themselves. */
  predicate Chosen(es: seq<VaultEntry>, req: GA.Request, rec: Passkey)
  {
    if req.allowList == [] then FirstOfRp(es, req.rpId, rec) else FirstListedIs(es, req.allowList, rec)
  }

  lemma ChosenIff(es: seq<VaultEntry>, req: GA.Request, rec: Passkey)
    ensures Select(es, req) == Some(rec) <==> Chosen(es, req, rec)
    ensures Select(es, req) == None <==>
            if req.allowList == [] then forall k :: 0 <= k < |es| ==> es[k].key.rpId != req.rpId
            else forall i :: 0 <= i < |req.allowList| ==> NoEntry(es, Base64Url.Encode(req.allowList[i]))
  {
    hide FirstWithId, FirstListed, ById, ByRpId, Base64Url.Encode, NoEntry, FirstOfRp;
    if req.allowList == [] {
      FirstOfRpIff(es, req.rpId, rec);
    } else {
      ListedIff(es, req.allowList, rec);
    }
  }

  lemma FirstOfRpIff(es: seq<VaultEntry>, rpId: bytes, rec: Passkey)
    ensures var c := ByRpId(es, rpId);
      && (c != [] && c[0] == rec <==> FirstOfRp(es, rpId, rec))
      && (c == [] <==> forall k :: 0 <= k < |es| ==> es[k].key.rpId != rpId)
  {
    hide ByRpId;
    FirstForRp(es, rpId);
    var c := ByRpId(es, rpId);
    if c != [] {
      var i :| 0 <= i < |es| && es[i].key == c[0] && es[i].key.rpId == rpId && forall j :: 0 <= j < i ==> es[j].key.rpId != rpId;
    }
  }

  lemma ListedIff(es: seq<VaultEntry>, ids: seq<bytes>, rec: Passkey)
    ensures FirstListed(es, ids) == Some(rec) <==> FirstListedIs(es, ids, rec)
    ensures FirstListed(es, ids) == None <==> forall i :: 0 <= i < |ids| ==> NoEntry(es, Base64Url.Encode(ids[i]))
  {
    hide FirstWithId, FirstListed, ById, Base64Url.Encode, NoEntry;
    FirstListedMeans(es, ids);
    forall i | 0 <= i < |ids|
      ensures ById(es, Base64Url.Encode(ids[i])) == None <==> NoEntry(es, Base64Url.Encode(ids[i]))
      ensures forall r :: ById(es, Base64Url.Encode(ids[i])) == Some(r) <==> FirstWithId(es, Base64Url.Encode(ids[i]), r)
    {
      ByIdMeans(es, Base64Url.Encode(ids[i]));
    }
    if FirstListed(es, ids).Some? {
      var r := FirstListed(es, ids).value;
      var i :| 0 <= i < |ids| && ById(es, Base64Url.Encode(ids[i])) == Some(r)
               && forall j :: 0 <= j < i ==> ById(es, Base64Url.Encode(ids[j])).None?;
      assert FirstWithId(es, Base64Url.Encode(ids[i]), r);
      if FirstListedIs(es, ids, rec) {
        var k :| 0 <= k < |ids| && FirstWithId(es, Base64Url.Encode(ids[k]), rec)
                 && forall j :: 0 <= j < k ==> NoEntry(es, Base64Url.Encode(ids[j]));
        assert ById(es, Base64Url.Encode(ids[k])) == Some(rec);
        assert i == k;
      }
    }
  }

  /** Some excluded ID is the ID of some entry. */
  predicate HoldsExcluded(es: seq<VaultEntry>, ids: seq<bytes>)
  {
    exists i, k :: 0 <= i < |ids| && 0 <= k < |es| && ids[i] == es[k].key.credentialId
  }

  lemma ExcludedIff(es: seq<VaultEntry>, ids: seq<bytes>)
    ensures AnyExcluded(es, ids) <==> HoldsExcluded(es, ids)
  {
    hide ById;
    forall i | 0 <= i < |ids|
      ensures ById(es, ids[i]).Some? <==> !NoEntry(es, ids[i])
    {
      ByIdMeans(es, ids[i]);
    }
  }

  /** The vault holds the credential of this raw ID, for this RP. */
  predicate HeldFor(es: seq<VaultEntry>, id: bytes, rpId: bytes)
  {
    ById(es, Base64Url.Encode(id)).Some? && ById(es, Base64Url.Encode(id)).value.rpId == rpId
  }

  /** The first listed credential the vault holds is one of this RP. */
  predicate FirstHeldIsFor(es: seq<VaultEntry>, ids: seq<bytes>, rpId: bytes)
  {
    exists i :: 0 <= i < |ids| && HeldFor(es, ids[i], rpId) && forall j :: 0 <= j < i ==> ById(es, Base64Url.Encode(ids[j])).None?
  }

  /** Every listed credential the vault holds is one of this RP. */
  ghost predicate EveryHeldIsFor(es: seq<VaultEntry>, ids: seq<bytes>, rpId: bytes)
  {
    forall id :: id in ids && ById(es, Base64Url.Encode(id)).Some? ==> HeldFor(es, id, rpId)
  }

  predicate ChoiceIsForRp(es: seq<VaultEntry>, req: GA.Request)
  {
    Select(es, req).Some? ==> Select(es, req).value.rpId == req.rpId
  }

  /** With an allowList the choice is for the requested RP exactly when the first listed credential the vault holds is. */
  lemma ListedForRp(es: seq<VaultEntry>, req: GA.Request)
    requires req.allowList != [] && Select(es, req).Some?
    ensures Select(es, req).value.rpId == req.rpId <==> FirstHeldIsFor(es, req.allowList, req.rpId)
  {
    hide ById, Base64Url.Encode;
    FirstListedMeans(es, req.allowList);
    var rec := Select(es, req).value;
    var i :| 0 <= i < |req.allowList| && ById(es, Base64Url.Encode(req.allowList[i])) == Some(rec)
             && forall j :: 0 <= j < i ==> ById(es, Base64Url.Encode(req.allowList[j])).None?;
    assert HeldFor(es, req.allowList[i], rec.rpId);
  }

  /** Whatever order the list is given in, the choice is for the requested RP: exactly when every listed credential the vault holds is. */
  lemma ListedForRpInAnyOrder(es: seq<VaultEntry>, req: GA.Request)
    requires req.allowList != []
    ensures (forall ids: seq<bytes> :: multiset(ids) == multiset(req.allowList) ==> ChoiceIsForRp(es, req.(allowList := ids)))
            <==> EveryHeldIsFor(es, req.allowList, req.rpId)
  {
    hide ById, Base64Url.Encode;
    if EveryHeldIsFor(es, req.allowList, req.rpId) {
      forall ids: seq<bytes> | multiset(ids) == multiset(req.allowList)
        ensures ChoiceIsForRp(es, req.(allowList := ids))
      {
        EveryHeldSuffices(es, req.(allowList := ids), req.allowList);
      }
    } else {
      var id :| id in req.allowList && ById(es, Base64Url.Encode(id)).Some? && !HeldFor(es, id, req.rpId);
      var k :| 0 <= k < |req.allowList| && req.allowList[k] == id;
      var ids := [id] + (req.allowList[..k] + req.allowList[k + 1..]);
      MovedToFront(req.allowList, k);
      assert FirstListed(es, ids) == ById(es, Base64Url.Encode(id));
      assert !ChoiceIsForRp(es, req.(allowList := ids));
    }
  }

  lemma EveryHeldSuffices(es: seq<VaultEntry>, req: GA.Request, ids: seq<bytes>)
    requires req.allowList != [] && multiset(req.allowList) == multiset(ids) && EveryHeldIsFor(es, ids, req.rpId)
    ensures ChoiceIsForRp(es, req)
  {
    hide ById, Base64Url.Encode;
    FirstListedMeans(es, req.allowList);
    if Select(es, req).Some? {
      var rec := Select(es, req).value;
      var i :| 0 <= i < |req.allowList| && ById(es, Base64Url.Encode(req.allowList[i])) == Some(rec);
      assert req.allowList[i] in multiset(ids);
      assert req.allowList[i] in ids && HeldFor(es, req.allowList[i], req.rpId);
    }
  }

  lemma MovedToFront<T>(s: seq<T>, k: nat)
    requires k < |s|
    ensures multiset([s[k]] + (s[..k] + s[k + 1..])) == multiset(s)
  {
    assert s == s[..k] + ([s[k]] + s[k + 1..]);
  }

  /** A listed credential of another RP is chosen all the same: the RP IDs are not compared on this path. */
  lemma AllowListCrossesRps()
    ensures exists es: seq<VaultEntry>, req: GA.Request ::
              Select(es, req).Some? && Select(es, req).value.rpId != req.rpId
  {
    var rec := Passkey(Base64Url.Encode([1]), [0x62], [], [], [], [], -7, [], []);
    var es, req := [VaultEntry(rec, ZERO)], GA.Request([0x61], Zeros(32), [[1]], true, false);
    FirstIndex(es, rec.credentialId, 0);
    assert Select(es, req) == Some(rec);
  }

  lemma SelectedIsStored(es: seq<VaultEntry>, req: GA.Request)
    requires AllStorable(es)
    ensures Select(es, req).Some? ==> Storable(Select(es, req).value)
    ensures Select(es, req).Some? ==> exists e :: e in es && e.key == Select(es, req).value
  {
    hide Storable, Base64Url.Encode;
    if req.allowList == [] {
      ByRpIdStored(es, req.rpId);
      var c := ByRpId(es, req.rpId);
      if c != [] { assert c[0] in c; }
    } else {
      FirstListedMeans(es, req.allowList);
    }
  }

  // -- the classes ------------------------------------------------------------------------------------------

  class VaultHandler {
    const env: Env
    const store: KeePassPasskeyStore
    const prompt: UvFallbackPrompt
    const cache: OpSignPubKeyCache

    constructor (env: Env, store: KeePassPasskeyStore, prompt: UvFallbackPrompt, cache: OpSignPubKeyCache)
      ensures this.env == env && this.store == store && this.prompt == prompt && this.cache == cache
    {
      this.env, this.store, this.prompt, this.cache := env, store, prompt, cache;
    }

    ghost function St(): State
      reads store, prompt, cache
    {
      State(store.entries, store.disk, cache.current, prompt.decided, prompt.decision)
    }

    method VerifyAndDecodeCbor(p: Params) returns (r: Result<bytes, Fault>)
      ensures r == VerifiedCbor(env, cache.current, p)
    {
      if p.cbor.Absent? {
        return Err(BadParams);
      }
      if p.cbor.Malformed? {
        return Err(BadParams);
      }
      var cborBytes := p.cbor.value;
      if env.bypass {
        return Ok(cborBytes);
      }
      var pubKey := cache.current;
      if pubKey.None? {
        return Err(NoCachedKey);
      }
      if p.requestSignature.Absent? {
        return Err(BadSignature);
      }
      if p.requestSignature.Malformed? {
        return Err(BadSignature);
      }
      if !Verify(env.ecdsa, pubKey.value, cborBytes, p.requestSignature.value) {
        return Err(BadSignature);
      }
      return Ok(cborBytes);
    }

    method VerifyUvSignatureOrPrompt(p: Params, cborBytes: bytes, ask: Option<bool>) returns (f: Option<Fault>)
      modifies prompt
      ensures (St(), f) == UvGate(env, old(St()), p, cborBytes, ask)
    {
      var uvTier := p.uvBindingTier;
      if uvTier == V2Stable || uvTier == V2Experimental {
        f := VerifyUvSignature(p, cborBytes);
        return;
      }
      if uvTier == V1 || uvTier == NoTier {
        if !env.hasPrompt {
          return Some(PromptMissing);
        }
        var proceed := prompt.ShouldProceed(ask);
        if proceed.None? {
          return Some(PromptFailed);
        }
        if !proceed.value {
          return Some(Declined);
        }
        return None;
      }
      return Some(UnknownTier);
    }

    method VerifyUvSignature(p: Params, cborBytes: bytes) returns (f: Option<Fault>)
      ensures f == UvSignatureFault(env, cache.current, p, cborBytes)
    {
      hide EitherFormat;
      var pubKey := cache.current;
      if pubKey.None? {
        return Some(NoCachedKey);
      }
      if p.uvSignature.Absent? {
        return Some(BadUv);
      }
      if p.uvSignature.Malformed? {
        return Some(BadUv);
      }
      var sigBytes := p.uvSignature.value;
      if |sigBytes| == 0 {
        return Some(BadUv);
      }
      var ok := VerifyAcceptingEitherFormat(env.ecdsa, pubKey.value, cborBytes, sigBytes);
      return if ok then None else Some(BadUv);
    }

    method HasExcluded(ids: seq<bytes>) returns (hit: bool)
      ensures hit == AnyExcluded(store.entries, ids)
    {
      for i := 0 to |ids|
        invariant forall k :: 0 <= k < i ==> ById(store.entries, ids[k]).None?
      {
        var r := store.FindById(ids[i]);
        if r.Some? {
          return true;
        }
      }
      return false;
    }

    method GenerateKeyPairAndCoseKey(algId: int, d: Draw) returns (r: Option<bytes>)
      requires ValidDraw(d)
      ensures r == if algId == MC.ES256 || algId == MC.RS256 then Some(CoseBytes(KeyFor(algId, d))) else None
    {
      hide CoseBytes;
      if algId == -7 {
        r := EncodeEc(d.ec.x, d.ec.y);
        return;
      }
      if algId == -257 {
        r := EncodeRsa(d.rsa.n, d.rsa.e);
        return;
      }
      return None;
    }

    method HandleMakeCredentialRaw(p: Params, d: Draw) returns (r: Result<Made, Fault>)
      requires ValidDraw(d) && (p.cbor.Decoded? ==> |p.cbor.value| <= MAX_ARRAY)
      modifies store, prompt
      ensures (St(), r) == Register(env, old(St()), p, d)
    {
      hide UvGate, MC.Parse, CoseBytes, AttestationBytes, NewAuthData, NewRecord, Base64Url.FromBase64, AnyExcluded, ValidDraw;
      var cborBytes :- VerifyAndDecodeCbor(p);
      var f := VerifyUvSignatureOrPrompt(p, cborBytes, d.ask);
      if f.Some? {
        return Err(f.value);
      }
      var req :- MC.ParseMakeCredentialCbor(cborBytes);
      var excluded := HasExcluded(req.excludeList);
      if excluded {
        return Err(Excluded);
      }
      var selectedAlg := SelectAlgorithm(req.requestedAlgs);
      if selectedAlg.None? {
        return Err(NoSupportedAlg);
      }
      var coseKey := GenerateKeyPairAndCoseKey(selectedAlg.value, d);
      r := Persist(req, selectedAlg.value, coseKey.value, p.uv, d);
    }

    method Persist(req: MC.Request, selectedAlg: int, coseKey: bytes, uv: bool, d: Draw) returns (r: Result<Made, Fault>)
      requires ValidDraw(d) && coseKey == CoseBytes(KeyFor(selectedAlg, d))
      modifies store
      ensures r == if d.saved then Ok(Made(AttestationBytes(NewAuthData(env, req, selectedAlg, d, uv)), NewRecord(req, selectedAlg, d)))
                   else Err(SaveFailed)
      ensures store.entries == old(store.entries) + [VaultEntry(NewRecord(req, selectedAlg, d), ZERO)]
      ensures store.disk == if d.saved then store.entries else old(store.disk)
    {
      hide CoseBytes, AttestationBytes, Base64Url.Encode, Base64Url.ToBase64;
      CoseNonEmpty(d);
      var authData := Build(env.sha(req.rpId), d.rawId, coseKey, uv);
      var record := Passkey(Base64Url.Encode(d.rawId), req.rpId, req.rpName, req.userHandle, req.userName,
                            req.userDisplayName, selectedAlg, Base64Url.ToBase64(d.pkcs8), coseKey);
      var unsaved := store.Add(record, d.saved);
      if unsaved.Some? {
        return Err(unsaved.value);
      }
      var responseBytes := BuildAttestationObject(authData.value);
      return Ok(Made(responseBytes, record));
    }

    method CreatePasskey(p: LegacyParams, d: Draw) returns (r: Result<Legacy, Fault>)
      requires ValidDraw(d)
      modifies store
      ensures (St(), r) == Create(env, old(St()), p, d)
    {
      hide CoseBytes, RegistrationAuthData, Base64Url.Encode, Base64Url.ToBase64;
      if |p.rpId| == 0 || |p.userHandle| == 0 || |p.userName| == 0 {
        return Err(BadParams);
      }
      var rpName := GivenOr(p.rpName, p.rpId);
      var userDisplayName := GivenOr(p.userDisplayName, p.userName);
      var coseKey := GenerateKeyPairAndCoseKey(MC.ES256, d);
      CoseNonEmpty(d);
      var authData := Build(env.sha(p.rpId), d.rawId, coseKey.value, true);
      var record := Passkey(Base64Url.Encode(d.rawId), p.rpId, rpName, p.userHandle, p.userName, userDisplayName, MC.ES256,
                            Base64Url.ToBase64(d.pkcs8), coseKey.value);
      var unsaved := store.Add(record, d.saved);
      if unsaved.Some? {
        return Err(unsaved.value);
      }
      return Ok(Legacy(record, authData.value));
    }

    method DeleteCredential(credentialId: bytes, saved: bool) returns (r: Result<bool, Fault>)
      modifies store
      ensures (St(), r) == Drop(old(St()), credentialId, saved)
    {
      hide Without;
      if |credentialId| == 0 {
        return Err(BadParams);
      }
      r := store.Delete(credentialId, saved);
    }

    method SelectCredential(req: GA.Request) returns (r: Option<Passkey>)
      ensures r == Select(store.entries, req)
    {
      hide ById, Base64Url.Encode, ByRpId;
      if |req.allowList| == 0 {
        var candidates := store.FindByRpId(req.rpId);
        return if |candidates| == 0 then None else Some(candidates[0]);
      }
      for i := 0 to |req.allowList|
        invariant FirstListed(store.entries, req.allowList) == FirstListed(store.entries, req.allowList[i..])
      {
        var hit := store.FindById(Base64Url.Encode(req.allowList[i]));
        if hit.Some? {
          return hit;
        }
        assert req.allowList[i..][1..] == req.allowList[i + 1..];
      }
      return None;
    }

    method SignAndRespond(selected: Passkey, req: GA.Request, uv: bool, newCount: nat, nonce: nat) returns (r: Result<bytes, Fault>)
      requires Storable(selected) && newCount <= UINT32_MAX
      ensures r == Reply(env, selected, req, uv, newCount, nonce)
    {
      hide ResponseFor, Base64Url.FromBase64, Base64Url.Decode;
      var authData := BuildAssertion(env.sha(selected.rpId), uv, newCount);
      var pkcs8 := Base64Url.FromBase64(selected.privateKey);
      if pkcs8.None? {
        return Err(BadPrivateKey);
      }
      var signature :- Sign(env, selected, pkcs8.value, authData + req.clientDataHash, nonce);
      var rawCredIdBytes := Base64Url.Decode(selected.credentialId);
      if rawCredIdBytes.None? {
        return Err(BadBase64);
      }
      Base64Url.DecodeShort(selected.credentialId);
      var userRecord := if |req.allowList| == 0 then Some(selected) else None;
      var response := BuildAssertionResponse(rawCredIdBytes.value, authData, signature, userRecord, uv);
      if response.None? {
        return Err(BadBase64);
      }
      return Ok(response.value);
    }

    method HandleGetAssertionRaw(p: Params, d: Draw) returns (r: Result<bytes, Fault>)
      requires AllStorable(store.entries) && (p.cbor.Decoded? ==> |p.cbor.value| <= MAX_ARRAY)
      modifies store, prompt
      ensures (St(), r) == Answer(env, old(St()), p, d)
    {
      hide UvGate, GA.Parse, Select, Reply, Incremented, Storable, Base64Url.FromBase64;
      var cborBytes :- VerifyAndDecodeCbor(p);
      var f := VerifyUvSignatureOrPrompt(p, cborBytes, d.ask);
      if f.Some? {
        return Err(f.value);
      }
      var req :- GA.ParseGetAssertionCbor(cborBytes);
      if !req.up {
        return Err(UpNotSupported);
      }
      var selected := SelectCredential(req);
      if selected.None? {
        return Err(NotFound);
      }
      SelectedIsStored(store.entries, req);
      IncrementedMeans(store.entries, selected.value.credentialId);
      var newCount :- store.IncrementSignCount(selected.value.credentialId, d.saved);
      r := SignAndRespond(selected.value, req, p.uv, newCount, d.nonce);
    }
  }

  lemma CoseNonEmpty(d: Draw)
    requires ValidDraw(d)
    ensures CoseBytes(d.ec) != [] && CoseBytes(d.rsa) != []
  {
    hide CoseBytes;
    KeyReads(d.ec);
    KeyReads(d.rsa);
  }
}
