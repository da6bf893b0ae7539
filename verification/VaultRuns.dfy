/**
 Whole runs of the plugin: any interleaving of raw and legacy requests, deletions, handshakes, lockings and unlockings,
 and what holds between the answers a relying party sees.
 */
module VaultRuns {
  import opened Prelude
  import opened CborSyntax
  import opened RequestFold
  import opened EcdsaDer
  import opened Responses
  import opened VaultStore
  import opened VaultHandling
  import Base64Url
  import GA = GetAssertionRequest
  import MC = MakeCredentialRequest
  import MCM = MakeCredentialMeaning

  datatype Call =
    | MakeRaw(p: Params, d: Draw)
    | AssertRaw(p: Params, d: Draw)
    | CreatePasskey(legacy: LegacyParams, d: Draw)
    | Delete(credentialId: bytes, saved: bool)
    | ReadOnly  // listCredentials, signAssertion, enumerateForSync

  /** KeePass may also save on its own, and unlocking reads the file again, so what was not saved is gone. */
  datatype Event = Request(vaultOpen: bool, call: Call) | Hello(opSignKey: bytes) | KeePassSaves | Reopened

  datatype Out = Registered(made: Made) | Asserted(response: bytes) | Created(passkey: Legacy) | Removed(found: bool) | Failed(fault: Fault) | Done

  ghost predicate ValidParams(p: Params)
  {
    p.cbor.Decoded? ==> |p.cbor.value| <= MAX_ARRAY
  }

  ghost predicate ValidEvent(e: Event)
  {
    e.Request? ==>
      match e.call
      case MakeRaw(p, d) => ValidParams(p) && ValidDraw(d)
      case AssertRaw(p, _) => ValidParams(p)
      case CreatePasskey(p, d) => ValidLegacy(p) && ValidDraw(d)
      case _ => true
  }

  ghost predicate ValidLegacy(p: LegacyParams)
  {
    |p.userHandle| <= MAX_TEXT && |p.userName| <= MAX_TEXT && |GivenOr(p.userDisplayName, p.userName)| <= MAX_TEXT
  }

  ghost function Step(env: Env, st: State, e: Event): (State, Out)
    requires AllStorable(st.entries) && ValidEvent(e)
  {
    match e
    case Hello(key) => (st.(cachedKey := Some(key)), Done)
    case KeePassSaves => (st.(disk := st.entries), Done)
    case Reopened => (st.(entries := st.disk), Done)
    case Request(vaultOpen, call) =>
      if !vaultOpen then (st, Failed(VaultLocked))
      else match call
        case MakeRaw(p, d) =>
          var r := Register(env, st, p, d);
          (r.0, match r.1 case Ok(made) => Registered(made) case Err(f) => Failed(f))
        case AssertRaw(p, d) =>
          var r := Answer(env, st, p, d);
          (r.0, match r.1 case Ok(response) => Asserted(response) case Err(f) => Failed(f))
        case CreatePasskey(p, d) =>
          var r := Create(env, st, p, d);
          (r.0, match r.1 case Ok(passkey) => Created(passkey) case Err(f) => Failed(f))
        case Delete(id, saved) =>
          var r := Drop(st, id, saved);
          (r.0, match r.1 case Ok(found) => Removed(found) case Err(f) => Failed(f))
        case ReadOnly => (st, Done)
  }

  // -- states of a run --------------------------------------------------------------------------------

  ghost predicate DistinctIds(es: seq<VaultEntry>)
  {
    forall i, j :: 0 <= i < j < |es| ==> es[i].key.credentialId != es[j].key.credentialId
  }

  /** IDs are distinct base64url texts, all among those ever `used`. */
  ghost predicate Good(es: seq<VaultEntry>, used: set<bytes>)
  {
    && AllStorable(es) && DistinctIds(es)
    && forall e :: e in es ==> e.key.credentialId in used && Canonical(e.key.credentialId)
  }

  ghost predicate Canonical(id: bytes)
  {
    exists raw :: id == Base64Url.Encode(raw)
  }

  /** The ID a call would give to a new credential. */
  function NewId(e: Event): Option<bytes>
  {
    if e.Request? && e.call.MakeRaw? then Some(Base64Url.Encode(e.call.d.rawId))
    else if e.Request? && e.call.CreatePasskey? then Some(Base64Url.Encode(e.call.d.rawId))
    else None
  }

  function Used(used: set<bytes>, e: Event): set<bytes>
  {
    if NewId(e).Some? then used + {NewId(e).value} else used
  }

  ghost predicate FreshIds(used: set<bytes>, e: Event)
  {
    ValidEvent(e) && (NewId(e).Some? ==> NewId(e).value !in used)
  }

  // -- one step ------------------------------------------------------------------------------------------

  lemma DecodedCanonical(id: bytes, raw: bytes)
    requires Canonical(id) && Base64Url.Decode(id) == Some(raw)
    ensures Base64Url.Encode(raw) == id
  {
    hide Base64Url.Encode, Base64Url.Decode;
    var x :| id == Base64Url.Encode(x);
    Base64Url.RoundTrip(x);
  }

  /** With distinct IDs a stored record is the one its ID finds. */
  lemma FoundAt(es: seq<VaultEntry>, e: VaultEntry)
    requires DistinctIds(es) && e in es
    ensures var i := IndexOf(es, e.key.credentialId); i < |es| && es[i] == e
  {
    var k :| 0 <= k < |es| && es[k] == e;
    FirstIndex(es, e.key.credentialId, k);
  }

  /** Response `a` asserts entry `i` of the vault in answer to `req`, and moves that entry's count and nothing else. */
  ghost predicate Asserts(env: Env, before: seq<VaultEntry>, after: seq<VaultEntry>, req: GA.Request, uv: bool, nonce: nat,
                          i: nat, a: Assertion)
  {
    && i < |before| && Select(before, req) == Some(before[i].key) && req.up
    && CountOf(before[i]) < UINT32_MAX
    && Incremented(before, before[i].key.credentialId) == Ok((after, CountOf(before[i]) + 1))
    && AssertsRecord(env, before[i].key, CountOf(before[i]) + 1, req, uv, nonce, a)
  }

  ghost predicate AssertsRecord(env: Env, rec: Passkey, count: nat, req: GA.Request, uv: bool, nonce: nat, a: Assertion)
  {
    && Base64Url.Decode(rec.credentialId) == Some(a.id) && a.ty == PUBLIC_KEY
    && a.auth == AuthView(env.sha(rec.rpId), true, uv, count, None)
    && a.user == (if req.allowList == [] then UserOf(rec, uv) else None)
    && (req.allowList == [] ==> a.user.Some?)
    && SignedBy(env, rec, a.authData + req.clientDataHash, nonce, a.signature)
  }

  /** What a successful getAssertionRaw did and what its answer says. */
  lemma AnswerOk(env: Env, st: State, p: Params, d: Draw, after: seq<VaultEntry>, response: bytes)
    returns (req: GA.Request, i: nat, a: Assertion)
    requires AllStorable(st.entries) && DistinctIds(st.entries)
    requires Answer(env, st, p, d).1 == Ok(response) && Answer(env, st, p, d).0.entries == after
    ensures AskedFrom(Gate(env, st, p, d.ask).1, req)
    ensures ReadAssertion(response) == Some(a)
    ensures Asserts(env, st.entries, after, req, p.uv, d.nonce, i, a)
  {
    hide *;
    var rec, count;
    req, rec, count := AnswerParts(env, st, p, d, after, response);
    var e :| e in st.entries && e.key == rec;
    FoundAt(st.entries, e);
    i := IndexOf(st.entries, rec.credentialId);
    IncrementedMeans(st.entries, rec.credentialId);
    a := ReplyOk(env, rec, req, p.uv, count, d.nonce, response);
    AssertsIntro(env, st.entries, after, req, p.uv, d.nonce, i, rec, count, a);
  }

  lemma AssertsIntro(env: Env, before: seq<VaultEntry>, after: seq<VaultEntry>, req: GA.Request, uv: bool, nonce: nat,
                     i: nat, rec: Passkey, count: nat, a: Assertion)
    requires i < |before| && before[i].key == rec && count == CountOf(before[i]) + 1 <= UINT32_MAX
    requires Select(before, req) == Some(rec) && req.up
    requires Incremented(before, rec.credentialId) == Ok((after, count))
    requires AssertsRecord(env, rec, count, req, uv, nonce, a)
    ensures Asserts(env, before, after, req, uv, nonce, i, a)
  {}

  ghost predicate AskedFrom(g: Result<bytes, Fault>, req: GA.Request)
  {
    g.Ok? && GA.Parse(g.value) == Ok(req)
  }

  lemma AnswerParts(env: Env, st: State, p: Params, d: Draw, after: seq<VaultEntry>, response: bytes)
    returns (req: GA.Request, rec: Passkey, count: nat)
    requires AllStorable(st.entries)
    requires Answer(env, st, p, d).1 == Ok(response) && Answer(env, st, p, d).0.entries == after
    ensures AskedFrom(Gate(env, st, p, d.ask).1, req) && req.up
    ensures Select(st.entries, req) == Some(rec) && Storable(rec) && (exists e :: e in st.entries && e.key == rec)
    ensures count <= UINT32_MAX && Incremented(st.entries, rec.credentialId) == Ok((after, count))
    ensures Reply(env, rec, req, p.uv, count, d.nonce) == Ok(response)
  {
    hide Gate, GA.Parse, Select, Reply, Incremented, Storable;
    req := GA.Parse(Gate(env, st, p, d.ask).1.value).value;
    rec := Select(st.entries, req).value;
    SelectedIsStored(st.entries, req);
    IncrementedMeans(st.entries, rec.credentialId);
    count := Incremented(st.entries, rec.credentialId).value.1;
    assert d.saved;
  }

  ghost predicate SignedBy(env: Env, rec: Passkey, data: bytes, nonce: nat, signature: bytes)
  {
    exists pkcs8 :: Base64Url.FromBase64(rec.privateKey) == Some(pkcs8) && env.sign(pkcs8, rec.algId, data, nonce) == Some(signature)
  }

  lemma ReplyOk(env: Env, rec: Passkey, req: GA.Request, uv: bool, count: nat, nonce: nat, response: bytes) returns (a: Assertion)
    requires Storable(rec) && count <= UINT32_MAX && Reply(env, rec, req, uv, count, nonce) == Ok(response)
    ensures ReadAssertion(response) == Some(a) && AssertsRecord(env, rec, count, req, uv, nonce, a)
  {
    hide ReadAssertion, UserOf, Base64Url.Decode, Base64Url.FromBase64, AssertionBytes, AssertionAuthData;
    var hash := env.sha(rec.rpId);
    var authData := AssertionAuthData(hash, uv, count);
    assert |authData| == 37 by { AuthDataLength(hash, uv, count); }
    var pkcs8 := Base64Url.FromBase64(rec.privateKey).value;
    var sig := Sign(env, rec, pkcs8, authData + req.clientDataHash, nonce).value;
    var rawId := RawId(rec).value;
    var user := if req.allowList == [] then UserOf(rec, uv) else None;
    UserSized(rec, uv);
    AssertionReads(rawId, hash, uv, count, sig, user);
    a := Assertion(rawId, PUBLIC_KEY, authData, AuthView(hash, true, uv, count, None), sig, user);
  }

  lemma AuthDataLength(hash: bytes, uv: bool, count: nat)
    requires |hash| == 32
    ensures |AssertionAuthData(hash, uv, count)| == 37
  {}

  /** What a successful makeCredentialRaw did: one record, of the preferred offered algorithm, that the answer spells out. */
  ghost predicate Registers(env: Env, req: MC.Request, alg: int, uv: bool, d: Draw, made: Made)
    requires ValidDraw(d)
  {
    && (alg == -7 || (alg == -257 && -7 !in req.requestedAlgs)) && alg in req.requestedAlgs
    && var key := if alg == -7 then d.ec else d.rsa;
    && made.record == Passkey(Base64Url.Encode(d.rawId), req.rpId, req.rpName, req.userHandle, req.userName, req.userDisplayName,
                              alg, Base64Url.ToBase64(d.pkcs8), made.record.publicKey)
    && ReadKey(made.record.publicKey) == Some(key) && AlgOfKey(key) == alg
    && ReadAttestation(made.response) ==
       Some(Registration(NONE, Nest(true, 0, []),
                         AuthView(env.sha(req.rpId), true, uv, 0, Some(Attested(ToBE(0, 16), d.rawId, made.record.publicKey))),
                         key))
  }

  lemma RegisterOk(env: Env, st: State, p: Params, d: Draw, made: Made) returns (req: MC.Request, alg: int)
    requires ValidDraw(d) && Register(env, st, p, d).1 == Ok(made)
    ensures MadeFrom(Gate(env, st, p, d.ask).1, req) && !HoldsExcluded(st.entries, req.excludeList)
    ensures Register(env, st, p, d).0.entries == st.entries + [VaultEntry(made.record, ZERO)]
    ensures Registers(env, req, alg, p.uv, d, made)
  {
    hide Gate, MC.Parse, Admit, Registers, AnyExcluded, HoldsExcluded;
    req := MC.Parse(Gate(env, st, p, d.ask).1.value).value;
    alg := AdmitOk(env, st.entries, req, p, d, made);
  }

  ghost predicate MadeFrom(g: Result<bytes, Fault>, req: MC.Request)
  {
    g.Ok? && MC.Parse(g.value) == Ok(req)
  }

  lemma AdmitOk(env: Env, es: seq<VaultEntry>, req: MC.Request, p: Params, d: Draw, made: Made) returns (alg: int)
    requires ValidDraw(d) && Admit(env, es, req, p, d) == Ok(made)
    ensures !HoldsExcluded(es, req.excludeList) && Registers(env, req, alg, p.uv, d, made)
  {
    hide ReadAttestation, ReadKey, CoseBytes, AttestationBytes, Base64Url.Encode, Base64Url.ToBase64, ToBE, HoldsExcluded, AnyExcluded;
    alg := SelectAlgorithm(req.requestedAlgs).value;
    var key := KeyFor(alg, d);
    ExcludedIff(es, req.excludeList);
    KeyReads(key);
    AttestationReads(env.sha(req.rpId), d.rawId, key, p.uv);
  }

  // -- how a step may change the vault ---------------------------------------------------------------------

  datatype Change = Same | Added(rec: Passkey) | Dropped(id: bytes) | Counted(id: bytes)

  ghost predicate Changed(before: seq<VaultEntry>, after: seq<VaultEntry>, c: Change)
  {
    match c
    case Same => after == before
    case Added(rec) => after == before + [VaultEntry(rec, ZERO)]
    case Dropped(id) => after == Without(before, id)
    case Counted(id) => Incremented(before, id).Ok? && after == Incremented(before, id).value.0
  }

  /** Only a creation adds, and under its own new ID. */
  ghost predicate Permitted(e: Event, c: Change)
  {
    c.Added? ==> NewId(e) == Some(c.rec.credentialId) && Storable(c.rec) && Canonical(c.rec.credentialId)
  }

  lemma StepChange(env: Env, st: State, e: Event) returns (c: Change)
    requires AllStorable(st.entries) && ValidEvent(e) && !e.Reopened?
    ensures Changed(st.entries, Step(env, st, e).0.entries, c) && Permitted(e, c)
  {
    hide Gate, Register, Create, Answer, Incremented, Without, Base64Url.Encode, Base64Url.ToBase64, CoseBytes;
    c := Same;
    if e.Request? && e.vaultOpen {
      match e.call {
        case MakeRaw(p, d) => c := RegisterChange(env, st, p, d);
        case AssertRaw(p, d) => c := AnswerChange(env, st, p, d);
        case CreatePasskey(p, d) => c := CreateChange(env, st, p, d);
        case Delete(id, _) => if id != [] { c := Dropped(id); }
        case ReadOnly =>
      }
    }
  }

  /** The file stays as it was or becomes a copy of the vault; only unlocking takes the vault from the file. */
  lemma StepDisk(env: Env, st: State, e: Event)
    requires AllStorable(st.entries) && ValidEvent(e)
    ensures var s := Step(env, st, e).0;
      && (s.disk == st.disk || s.disk == s.entries)
      && (e.Reopened? ==> s.entries == s.disk == st.disk)
      && (e.KeePassSaves? ==> s.entries == s.disk == st.entries)
  {
    hide Gate, Admitted, Create, Select, Incremented, Reply, Without, LegacyRecord, GA.Parse, ValidDraw, RegistrationAuthData;
    if e.Request? && e.vaultOpen {
      match e.call {
        case MakeRaw(p, d) => RegisterDisk(env, st, p, d);
        case AssertRaw(p, d) => AnswerDisk(env, st, p, d);
        case CreatePasskey(p, d) => CreateDisk(env, st, p, d);
        case Delete(_, _) =>
        case ReadOnly =>
      }
    }
  }

  lemma RegisterDisk(env: Env, st: State, p: Params, d: Draw)
    requires ValidDraw(d)
    ensures var r := Register(env, st, p, d); r.0.disk == if r.1.Ok? then r.0.entries else st.disk
  {
    hide Gate, Admit, MC.Parse, ValidDraw;
    GateKeepsVault(env, st, p, d.ask);
  }

  lemma CreateDisk(env: Env, st: State, p: LegacyParams, d: Draw)
    requires ValidDraw(d)
    ensures var r := Create(env, st, p, d); r.0.disk == if r.1.Ok? then r.0.entries else st.disk
  {
    hide LegacyRecord, RegistrationAuthData;
  }

  lemma AnswerDisk(env: Env, st: State, p: Params, d: Draw)
    requires AllStorable(st.entries)
    ensures var r := Answer(env, st, p, d);
      && (r.0.disk == st.disk || r.0.disk == r.0.entries)
      && (r.1.Ok? ==> r.0.disk == r.0.entries) && (!d.saved ==> r.0.disk == st.disk)
  {
    hide Gate, GA.Parse, Select, Incremented, Reply;
    GateKeepsVault(env, st, p, d.ask);
  }

  lemma DrawnId(d: Draw)
    requires ValidDraw(d)
    ensures |d.rawId| == 32
  {}

  lemma EncodedId(rawId: bytes)
    requires |rawId| == 32
    ensures Canonical(Base64Url.Encode(rawId)) && |Base64Url.Encode(rawId)| == 43
  {
    Base64Url.EncodeLength(rawId);
  }

  lemma GateKeepsVault(env: Env, st: State, p: Params, ask: Option<bool>)
    ensures Gate(env, st, p, ask).0.entries == st.entries && Gate(env, st, p, ask).0.cachedKey == st.cachedKey
    ensures Gate(env, st, p, ask).0.disk == st.disk
  {
    hide EitherFormat;
  }

  lemma RefusedRegister(env: Env, st: State, p: Params, d: Draw)
    requires ValidDraw(d) && Admitted(env, st, p, d).1.Err?
    ensures Register(env, st, p, d).0.entries == st.entries && Register(env, st, p, d).1.Err?
  {
    hide Gate, MC.Parse, Admit, ValidDraw;
    GateKeepsVault(env, st, p, d.ask);
  }

  /** The record goes in once everything before it went well, whether or not it is then saved. */
  lemma RegisterShape(env: Env, st: State, p: Params, d: Draw) returns (req: MC.Request, alg: int)
    requires ValidDraw(d) && Admitted(env, st, p, d).1.Ok?
    ensures Register(env, st, p, d).0.entries == st.entries + [VaultEntry(NewRecord(req, alg, d), ZERO)]
    ensures MadeFrom(Gate(env, st, p, d.ask).1, req) && SelectAlgorithm(req.requestedAlgs) == Some(alg)
  {
    hide Gate, MC.Parse, NewRecord, NewAuthData, AttestationBytes, AnyExcluded, ValidDraw;
    req := MC.Parse(Gate(env, st, p, d.ask).1.value).value;
    alg := SelectAlgorithm(req.requestedAlgs).value;
  }

  lemma RegisterChange(env: Env, st: State, p: Params, d: Draw) returns (c: Change)
    requires ValidDraw(d) && ValidParams(p)
    ensures Changed(st.entries, Register(env, st, p, d).0.entries, c) && Permitted(Request(true, MakeRaw(p, d)), c)
  {
    hide Gate, Register, Admitted, MadeFrom, CoseBytes, Base64Url.Encode, Base64Url.ToBase64, Storable, Canonical, ValidDraw;
    if Admitted(env, st, p, d).1.Ok? {
      var req, alg := RegisterShape(env, st, p, d);
      NewStorable(env, st, p, d, req, alg);
      c := Added(NewRecord(req, alg, d));
      assert |d.rawId| == 32 by { DrawnId(d); }
      EncodedId(d.rawId);
    } else {
      RefusedRegister(env, st, p, d);
      c := Same;
    }
  }

  lemma CreateChange(env: Env, st: State, p: LegacyParams, d: Draw) returns (c: Change)
    requires ValidDraw(d) && ValidLegacy(p)
    ensures Changed(st.entries, Create(env, st, p, d).0.entries, c) && Permitted(Request(true, CreatePasskey(p, d)), c)
    ensures Complete(p) ==> c == Added(LegacyRecord(p, d))
  {
    hide CoseBytes, Base64Url.Encode, Base64Url.ToBase64, RegistrationAuthData, Canonical;
    c := Same;
    if Complete(p) {
      c := Added(LegacyRecord(p, d));
      EncodedId(d.rawId);
    }
  }

  /** A request's texts are no longer than its bytes, so the record they make can be stored. */
  lemma NewStorable(env: Env, st: State, p: Params, d: Draw, req: MC.Request, alg: int)
    requires ValidDraw(d) && ValidParams(p) && MadeFrom(Gate(env, st, p, d.ask).1, req)
    ensures Storable(NewRecord(req, alg, d))
  {
    hide UvGate, MC.Parse, Base64Url.Encode, CoseBytes, Base64Url.ToBase64;
    MCM.CopiesBounded(Gate(env, st, p, d.ask).1.value);
    EncodedId(d.rawId);
  }

  lemma AnswerChange(env: Env, st: State, p: Params, d: Draw) returns (c: Change)
    requires AllStorable(st.entries)
    ensures Changed(st.entries, Answer(env, st, p, d).0.entries, c) && (c == Same || c.Counted?)
  {
    hide Gate, GA.Parse, Select, Reply, Incremented, Storable;
    GateKeepsVault(env, st, p, d.ask);
    var g := Gate(env, st, p, d.ask).1;
    c := Same;
    if g.Ok? && GA.Parse(g.value).Ok? {
      var req := GA.Parse(g.value).value;
      var sel := Select(st.entries, req);
      if req.up && sel.Some? {
        SelectedIsStored(st.entries, req);
        if Incremented(st.entries, sel.value.credentialId).Ok? { c := Counted(sel.value.credentialId); }
      }
    }
  }

  // -- what every change keeps -------------------------------------------------------------------------------

  lemma ChangeKeepsGood(before: seq<VaultEntry>, after: seq<VaultEntry>, c: Change, used: set<bytes>, e: Event)
    requires Good(before, used) && Changed(before, after, c) && Permitted(e, c) && FreshIds(used, e)
    ensures Good(after, Used(used, e))
  {
    hide Canonical, Storable, ValidEvent, IndexOf, CountOf, Incremented;
    if c.Counted? {
      IncrementedMeans(before, c.id);
      assert forall k :: 0 <= k < |before| ==> after[k].key == before[k].key;
      forall x | x in after
        ensures Storable(x.key) && x.key.credentialId in used && Canonical(x.key.credentialId)
      {
        var k :| 0 <= k < |after| && after[k] == x;
        assert before[k] in before;
      }
    }
  }

  /** If credential `id` is in the vault at all, it is `rec` with a count of at least `n`. */
  ghost predicate Tracked(es: seq<VaultEntry>, id: bytes, rec: Passkey, n: nat)
  {
    forall k :: 0 <= k < |es| && es[k].key.credentialId == id ==> es[k].key == rec && CountOf(es[k]) >= n
  }

  lemma ChangeKeepsTracked(before: seq<VaultEntry>, after: seq<VaultEntry>, c: Change, used: set<bytes>, e: Event,
                           id: bytes, rec: Passkey, n: nat)
    requires Changed(before, after, c) && Permitted(e, c) && FreshIds(used, e) && id in used && Tracked(before, id, rec, n)
    ensures Tracked(after, id, rec, n)
  {
    hide Canonical, Storable, ValidEvent, CountOf, Incremented;
    if c.Counted? {
      IncrementedMeans(before, c.id);
    }
  }

  // -- runs ------------------------------------------------------------------------------------------------------

  /** One event of a run; `used` holds every credential ID in the vault or drawn before. */
  datatype Tick = Tick(used: set<bytes>, pre: State, e: Event, post: State, out: Out)

  ghost predicate Taken(env: Env, t: Tick)
  {
    FreshIds(t.used, t.e) && AllStorable(t.pre.entries) && Step(env, t.pre, t.e) == (t.post, t.out)
  }

  /** The vault and its file both. */
  ghost predicate GoodState(st: State, used: set<bytes>)
  {
    Good(st.entries, used) && Good(st.disk, used)
  }

  ghost predicate Known(st: State, id: bytes, rec: Passkey, n: nat)
  {
    Tracked(st.entries, id, rec, n) && Tracked(st.disk, id, rec, n)
  }

  /** A run starts in any vault and file with distinct IDs and draws only new ones. */
  ghost predicate IsRun(env: Env, ts: seq<Tick>)
  {
    && (ts != [] ==> GoodState(ts[0].pre, ts[0].used))
    && (forall i :: 0 <= i < |ts| ==> Taken(env, ts[i]))
    && (forall i :: 0 < i < |ts| ==> ts[i].pre == ts[i - 1].post && ts[i].used == Used(ts[i - 1].used, ts[i - 1].e))
  }

  /**
   Every step leaves a vault the next step can be taken in, and moves a credential back behind no record and count that
   vault and file both have reached: unlocking takes the vault back to the file and no further.
   */
  lemma TickKeeps(env: Env, t: Tick)
    requires Taken(env, t) && GoodState(t.pre, t.used)
    ensures GoodState(t.post, Used(t.used, t.e)) && AllStorable(t.post.entries)
    ensures forall id, rec, n :: id in t.used && Known(t.pre, id, rec, n) ==> Known(t.post, id, rec, n)
  {
    hide Step, Changed, Permitted, Tracked, ValidEvent, Good;
    StepDisk(env, t.pre, t.e);
    VaultKeeps(env, t);
    GoodGrows(t.pre.disk, t.used, t.e);
    GoodParts(t.post.entries, Used(t.used, t.e));
  }

  lemma VaultKeeps(env: Env, t: Tick)
    requires Taken(env, t) && GoodState(t.pre, t.used)
    ensures Good(t.post.entries, Used(t.used, t.e))
    ensures forall id, rec, n :: id in t.used && Known(t.pre, id, rec, n) ==> Tracked(t.post.entries, id, rec, n)
  {
    hide Step, Changed, Permitted, Tracked, ValidEvent, Good;
    if t.e.Reopened? {
      StepDisk(env, t.pre, t.e);
      GoodGrows(t.pre.disk, t.used, t.e);
    } else {
      var c := StepChange(env, t.pre, t.e);
      ChangeKeepsGood(t.pre.entries, t.post.entries, c, t.used, t.e);
      forall id, rec, n | id in t.used && Known(t.pre, id, rec, n)
        ensures Tracked(t.post.entries, id, rec, n)
      {
        ChangeKeepsTracked(t.pre.entries, t.post.entries, c, t.used, t.e, id, rec, n);
      }
    }
  }

  lemma GoodGrows(es: seq<VaultEntry>, used: set<bytes>, e: Event)
    requires Good(es, used)
    ensures Good(es, Used(used, e))
  {
    hide Canonical, AllStorable, DistinctIds;
  }

  lemma {:induction false} GoodAt(env: Env, ts: seq<Tick>, i: nat)
    requires IsRun(env, ts) && i < |ts|
    ensures GoodState(ts[i].pre, ts[i].used)
  {
    hide GoodState, Taken, Known;
    if i > 0 {
      GoodAt(env, ts, i - 1);
      TickKeeps(env, ts[i - 1]);
    }
  }

  lemma {:induction false} KnownAt(env: Env, ts: seq<Tick>, i: nat, j: nat, id: bytes, rec: Passkey, n: nat)
    requires IsRun(env, ts) && i < j < |ts|
    requires id in Used(ts[i].used, ts[i].e) && Known(ts[i].post, id, rec, n)
    ensures id in ts[j].used && Known(ts[j].pre, id, rec, n)
    decreases j
  {
    hide GoodState, Taken, Known;
    if j > i + 1 {
      KnownAt(env, ts, i, j - 1, id, rec, n);
      GoodAt(env, ts, j - 1);
      TickKeeps(env, ts[j - 1]);
    }
  }

  /** What an event that answers an assertion did to the vault, and what its answer says. */
  lemma TickAsserted(env: Env, t: Tick) returns (req: GA.Request, rec: Passkey, a: Assertion)
    requires Taken(env, t) && Good(t.pre.entries, t.used) && t.out.Asserted?
    ensures t.e.Request? && t.e.call.AssertRaw? && AskedFrom(Gate(env, t.pre, t.e.call.p, t.e.call.d.ask).1, req)
    ensures ReadAssertion(t.out.response) == Some(a)
    ensures AssertsRecord(env, rec, a.auth.signCount, req, t.e.call.p.uv, t.e.call.d.nonce, a)
    ensures rec.credentialId == Base64Url.Encode(a.id) && rec.credentialId in t.used && Select(t.pre.entries, req) == Some(rec)
    ensures Known(t.post, rec.credentialId, rec, a.auth.signCount)
    ensures forall r, n :: Tracked(t.pre.entries, rec.credentialId, r, n) ==> r == rec && a.auth.signCount > n
  {
    hide *;
    var i;
    assert TickAnswer(env, t) by { AnswerOfTick(env, t); }
    TickAnswerParts(env, t);
    var p, d := t.e.call.p, t.e.call.d;
    GoodParts(t.pre.entries, t.used);
    req, i, a := AnswerOk(env, t.pre, p, d, t.post.entries, t.out.response);
    rec := AssertedEntry(env, t.pre.entries, t.post.entries, req, p.uv, d.nonce, i, a);
    GoodId(t.pre.entries, t.used, i);
    DecodedCanonical(rec.credentialId, a.id);
    AnswerDisk(env, t.pre, p, d);
    KnownBoth(t.post, rec.credentialId, rec, a.auth.signCount);
    forall r, n | Tracked(t.pre.entries, rec.credentialId, r, n)
      ensures r == rec && a.auth.signCount > n
    {
      TrackedEntry(t.pre.entries, i, r, n);
    }
  }

  ghost predicate TickAnswer(env: Env, t: Tick)
  {
    && t.e.Request? && t.e.call.AssertRaw? && t.out.Asserted? && AllStorable(t.pre.entries)
    && Answer(env, t.pre, t.e.call.p, t.e.call.d) == (t.post, Ok(t.out.response))
  }

  lemma AnswerOfTick(env: Env, t: Tick)
    requires Taken(env, t) && t.out.Asserted?
    ensures TickAnswer(env, t)
  {
    hide Answer, Register, Create, Without;
  }

  lemma TickAnswerParts(env: Env, t: Tick)
    requires TickAnswer(env, t)
    ensures t.e.Request? && t.e.call.AssertRaw? && t.out.Asserted? && AllStorable(t.pre.entries)
    ensures Answer(env, t.pre, t.e.call.p, t.e.call.d).1 == Ok(t.out.response)
    ensures Answer(env, t.pre, t.e.call.p, t.e.call.d).0 == t.post
  {
    hide Answer;
  }

  lemma GoodParts(es: seq<VaultEntry>, used: set<bytes>)
    requires Good(es, used)
    ensures DistinctIds(es) && AllStorable(es)
  {}

  lemma GoodId(es: seq<VaultEntry>, used: set<bytes>, i: nat)
    requires Good(es, used) && i < |es|
    ensures es[i].key.credentialId in used && Canonical(es[i].key.credentialId)
  {
    assert es[i] in es;
  }

  /** A saved vault and its file agree. */
  lemma KnownBoth(st: State, id: bytes, rec: Passkey, n: nat)
    requires Tracked(st.entries, id, rec, n) && st.disk == st.entries
    ensures Known(st, id, rec, n)
  {}

  lemma KnownTracked(st: State, id: bytes, rec: Passkey, n: nat)
    requires Known(st, id, rec, n)
    ensures Tracked(st.entries, id, rec, n)
  {}

  lemma TrackedEntry(es: seq<VaultEntry>, i: nat, r: Passkey, n: nat)
    requires i < |es| && Tracked(es, es[i].key.credentialId, r, n)
    ensures r == es[i].key && CountOf(es[i]) >= n
  {}

  lemma AssertedEntry(env: Env, before: seq<VaultEntry>, after: seq<VaultEntry>, req: GA.Request, uv: bool, nonce: nat, i: nat, a: Assertion)
    returns (rec: Passkey)
    requires DistinctIds(before) && Asserts(env, before, after, req, uv, nonce, i, a)
    ensures i < |before| && rec == before[i].key && Select(before, req) == Some(rec)
    ensures Base64Url.Decode(rec.credentialId) == Some(a.id) && a.auth.signCount == CountOf(before[i]) + 1
    ensures AssertsRecord(env, rec, a.auth.signCount, req, uv, nonce, a)
    ensures Tracked(after, rec.credentialId, rec, a.auth.signCount)
  {
    hide Select, Incremented, UserOf, SignedBy, Base64Url.Decode, CountOf, Tracked;
    rec := before[i].key;
    assert a.auth.signCount == CountOf(before[i]) + 1;
    TrackedAfterAssert(before, after, i, a.auth.signCount);
  }

  lemma TrackedAfterAssert(before: seq<VaultEntry>, after: seq<VaultEntry>, i: nat, count: nat)
    requires DistinctIds(before) && i < |before| && Incremented(before, before[i].key.credentialId) == Ok((after, count))
    ensures Tracked(after, before[i].key.credentialId, before[i].key, count)
  {
    hide Incremented, CountOf;
    IncrementedMeans(before, before[i].key.credentialId);
    FoundAt(before, before[i]);
  }

  /**
   In every run with fresh credential IDs the counters in successive answers for one credential strictly increase,
   whatever creations, deletions, failures, handshakes, lockings and unlockings lie between.
   */
  lemma CountersIncrease(env: Env, ts: seq<Tick>, i: nat, j: nat)
    requires IsRun(env, ts) && i < j < |ts| && ts[i].out.Asserted? && ts[j].out.Asserted?
    ensures ReadAssertion(ts[i].out.response).Some? && ReadAssertion(ts[j].out.response).Some?
    ensures var a, b := ReadAssertion(ts[i].out.response).value, ReadAssertion(ts[j].out.response).value;
            a.id == b.id ==> a.auth.signCount < b.auth.signCount && a.auth.rpIdHash == b.auth.rpIdHash
  {
    hide Good, Taken, Tracked, Gate, Select, AskedFrom, ReadAssertion, SignedBy, UserOf, Base64Url.Encode, Base64Url.Decode;
    GoodAt(env, ts, i);
    GoodAt(env, ts, j);
    var req, rec, a := TickAsserted(env, ts[i]);
    var req', rec', b := TickAsserted(env, ts[j]);
    KnownAt(env, ts, i, j, rec.credentialId, rec, a.auth.signCount);
    KnownTracked(ts[j].pre, rec.credentialId, rec, a.auth.signCount);
  }

  /**
   The answer carries the RP ID hash of the record chosen: without an allowList the vault's first record of the RP, with one
   the first listed one it holds. That record is the requested RP's exactly when there is no allowList or the first listed
   credential the vault holds is that RP's; it is if all those the vault holds are.
   */
  lemma AnswerIsForRp(env: Env, t: Tick) returns (req: GA.Request, rec: Passkey, a: Assertion)
    requires Taken(env, t) && Good(t.pre.entries, t.used) && t.out.Asserted?
    ensures t.e.Request? && t.e.call.AssertRaw? && AskedFrom(Gate(env, t.pre, t.e.call.p, t.e.call.d.ask).1, req)
    ensures ReadAssertion(t.out.response) == Some(a) && a.auth.rpIdHash == env.sha(rec.rpId)
    ensures Select(t.pre.entries, req) == Some(rec) && Chosen(t.pre.entries, req, rec) && rec.credentialId == Base64Url.Encode(a.id)
    ensures rec.rpId == req.rpId <==> req.allowList == [] || FirstHeldIsFor(t.pre.entries, req.allowList, req.rpId)
    ensures EveryHeldIsFor(t.pre.entries, req.allowList, req.rpId) ==> rec.rpId == req.rpId
  {
    hide Taken, Good, Gate, AskedFrom, ReadAssertion, SignedBy, UserOf, Base64Url.Encode, Base64Url.Decode, Tracked, ById,
         FirstHeldIsFor, EveryHeldIsFor, Chosen;
    req, rec, a := TickAsserted(env, t);
    ChosenIff(t.pre.entries, req, rec);
    if req.allowList == [] {
      ByRpIdStored(t.pre.entries, req.rpId);
      assert rec in ByRpId(t.pre.entries, req.rpId);
    } else {
      ListedForRp(t.pre.entries, req);
      if EveryHeldIsFor(t.pre.entries, req.allowList, req.rpId) {
        EveryHeldSuffices(t.pre.entries, req, req.allowList);
      }
    }
  }

  lemma TickRegistered(env: Env, t: Tick) returns (req: MC.Request, alg: int)
    requires Taken(env, t) && t.out.Registered?
    ensures t.e.Request? && t.e.call.MakeRaw? && ValidDraw(t.e.call.d)
    ensures MadeFrom(Gate(env, t.pre, t.e.call.p, t.e.call.d.ask).1, req)
    ensures !HoldsExcluded(t.pre.entries, req.excludeList)
    ensures t.post.entries == t.pre.entries + [VaultEntry(t.out.made.record, ZERO)]
    ensures Registers(env, req, alg, t.e.call.p.uv, t.e.call.d, t.out.made)
  {
    hide Gate, Answer, Register, Create, Registers, Base64Url.Encode, CountOf, ValidDraw, MadeFrom, Storable;
    req, alg := RegisterOk(env, t.pre, t.e.call.p, t.e.call.d, t.out.made);
  }

  lemma RegisteredRecord(env: Env, req: MC.Request, alg: int, uv: bool, d: Draw, made: Made)
    requires ValidDraw(d) && Registers(env, req, alg, uv, d, made)
    ensures made.record.credentialId == Base64Url.Encode(d.rawId) && made.record.userHandle == req.userHandle
    ensures made.record.userName == req.userName && made.record.userDisplayName == req.userDisplayName
    ensures made.record.rpId == req.rpId && made.record.rpName == req.rpName
  {
    hide ReadAttestation, ReadKey;
  }

  lemma KnownAfterAdd(t: Tick, rec: Passkey)
    requires GoodState(t.pre, t.used) && FreshIds(t.used, t.e) && NewId(t.e) == Some(rec.credentialId)
    requires t.post.entries == t.pre.entries + [VaultEntry(rec, ZERO)] && (t.post.disk == t.pre.disk || t.post.disk == t.post.entries)
    ensures Known(t.post, rec.credentialId, rec, 0)
  {
    hide Canonical, CountOf, ValidEvent, Storable;
  }

  /** What createPasskey stores and answers, and when: all three required texts are there, and Save returns. */
  lemma TickCreated(env: Env, t: Tick) returns (rec: Passkey)
    requires Taken(env, t) && t.e.Request? && t.e.call.CreatePasskey? && t.e.vaultOpen
    ensures ValidDraw(t.e.call.d)
    ensures var p, d := t.e.call.legacy, t.e.call.d;
      && rec == Passkey(Base64Url.Encode(d.rawId), p.rpId, if p.rpName.Some? then p.rpName.value else p.rpId, p.userHandle, p.userName,
                        if p.userDisplayName.Some? then p.userDisplayName.value else p.userName, -7, Base64Url.ToBase64(d.pkcs8), rec.publicKey)
      && ReadKey(rec.publicKey) == Some(d.ec)
      && var complete := p.rpId != [] && p.userHandle != [] && p.userName != [];
      && t.post.entries == (if complete then t.pre.entries + [VaultEntry(rec, ZERO)] else t.pre.entries)
      && (t.out.Created? <==> complete && d.saved) && (t.out == Failed(BadParams) <==> !complete)
      && (complete && !d.saved ==> t.out == Failed(SaveFailed))
      && (t.out.Created? ==>
            && t.out.passkey.record == rec
            && ReadAuthData(t.out.passkey.authData) ==
               Some(AuthView(env.sha(p.rpId), true, true, 0, Some(Attested(ToBE(0, 16), d.rawId, rec.publicKey)))))
  {
    hide CoseBytes, RegistrationAuthData, Base64Url.Encode, Base64Url.ToBase64, FitKey, ReadKey, ReadAuthData, ToBE, AllStorable;
    var p, d := t.e.call.legacy, t.e.call.d;
    rec := LegacyRecord(p, d);
    FitKeyValid(d);
    KeyReads(d.ec);
    RegistrationAuthDataReads(env.sha(p.rpId), d.rawId, rec.publicKey, true);
  }

  lemma FitKeyValid(d: Draw)
    requires ValidDraw(d)
    ensures ValidKey(d.ec) && ValidKey(d.rsa) && |d.rawId| == 32
  {}

  /** What deleteCredential removes: the first entry with the ID, if there is one, and nothing else. */
  lemma TickDeleted(env: Env, t: Tick, a: seq<VaultEntry>, e: VaultEntry, b: seq<VaultEntry>)
    requires Taken(env, t) && t.e.Request? && t.e.call.Delete? && t.e.vaultOpen
    ensures var id := t.e.call.credentialId;
      && (t.out == Failed(BadParams) <==> id == [])
      && (id == [] || NoEntry(t.pre.entries, id) ==> t.post.entries == t.pre.entries && t.out == if id == [] then Failed(BadParams) else Removed(false))
      && (id != [] && t.pre.entries == a + [e] + b && e.key.credentialId == id && (forall x :: x in a ==> x.key.credentialId != id) ==>
            t.post.entries == a + b && t.out == if t.e.call.saved then Removed(true) else Failed(SaveFailed))
  {
    hide Drop, AllStorable, NoEntry, Taken;
    DropOfTick(env, t);
    DropMeans(t.pre, t.e.call.credentialId, t.e.call.saved, a, e, b);
  }

  lemma DropOfTick(env: Env, t: Tick)
    requires Taken(env, t) && t.e.Request? && t.e.call.Delete? && t.e.vaultOpen
    ensures var r := Drop(t.pre, t.e.call.credentialId, t.e.call.saved);
      t.post == r.0 && t.out == match r.1 case Ok(found) => Removed(found) case Err(f) => Failed(f)
  {
    hide Drop, AllStorable;
  }

  lemma DropMeans(st: State, id: bytes, saved: bool, a: seq<VaultEntry>, e: VaultEntry, b: seq<VaultEntry>)
    ensures var r := Drop(st, id, saved);
      && (r.1 == Err(BadParams) <==> id == [])
      && (id == [] || NoEntry(st.entries, id) ==> r.0.entries == st.entries && r.1 == if id == [] then Err(BadParams) else Ok(false))
      && (id != [] && st.entries == a + [e] + b && e.key.credentialId == id && (forall x :: x in a ==> x.key.credentialId != id) ==>
            r.0.entries == a + b && r.1 == if saved then Ok(true) else Err(SaveFailed))
  {
    hide Without;
    WithoutMeans(st.entries, id);
  }

  /** An answer that names a credential registered earlier in the run is about exactly the record then stored. */
  lemma RegisterThenAssert(env: Env, ts: seq<Tick>, i: nat, j: nat) returns (mc: MC.Request, alg: int, ga: GA.Request, a: Assertion)
    requires IsRun(env, ts) && i < j < |ts| && ts[i].out.Registered? && ts[j].out.Asserted?
    ensures ts[i].e.Request? && ts[i].e.call.MakeRaw? && ts[j].e.Request? && ts[j].e.call.AssertRaw? && ValidDraw(ts[i].e.call.d)
    ensures MadeFrom(Gate(env, ts[i].pre, ts[i].e.call.p, ts[i].e.call.d.ask).1, mc)
    ensures Registers(env, mc, alg, ts[i].e.call.p.uv, ts[i].e.call.d, ts[i].out.made)
    ensures AskedFrom(Gate(env, ts[j].pre, ts[j].e.call.p, ts[j].e.call.d.ask).1, ga) && ReadAssertion(ts[j].out.response) == Some(a)
    ensures a.id == ts[i].e.call.d.rawId ==>
              AssertsRecord(env, ts[i].out.made.record, a.auth.signCount, ga, ts[j].e.call.p.uv, ts[j].e.call.d.nonce, a)
  {
    hide Good, Step, Tracked, Gate, Select, AskedFrom, MadeFrom, ReadAssertion, AssertsRecord, Registers, Base64Url.Encode, ValidDraw;
    GoodAt(env, ts, i);
    GoodAt(env, ts, j);
    var rec;
    mc, alg := TickRegistered(env, ts[i]);
    var made := ts[i].out.made;
    RegisteredRecord(env, mc, alg, ts[i].e.call.p.uv, ts[i].e.call.d, made);
    assert Known(ts[i].post, made.record.credentialId, made.record, 0) by {
      StepDisk(env, ts[i].pre, ts[i].e);
      KnownAfterAdd(ts[i], made.record);
    }
    ga, rec, a := TickAsserted(env, ts[j]);
    KnownAt(env, ts, i, j, made.record.credentialId, made.record, 0);
    KnownTracked(ts[j].pre, made.record.credentialId, made.record, 0);
  }

  lemma RunTick(env: Env, ts: seq<Tick>, i: nat)
    requires IsRun(env, ts) && i < |ts|
    ensures Taken(env, ts[i]) && GoodState(ts[i].pre, ts[i].used)
  {
    hide Taken, Good;
    GoodAt(env, ts, i);
  }

  lemma ChosenIsListed(es: seq<VaultEntry>, req: GA.Request, rec: Passkey, id: bytes)
    requires req.allowList != [] && Select(es, req) == Some(rec) && rec.credentialId == Base64Url.Encode(id)
    ensures id in req.allowList
  {
    hide Base64Url.Encode;
    FirstListedMeans(es, req.allowList);
    var i :| 0 <= i < |req.allowList| && ById(es, Base64Url.Encode(req.allowList[i])) == Some(rec);
    Base64Url.EncodeInjective(req.allowList[i], id);
  }

  lemma AnswersFor(env: Env, ts: seq<Tick>, i: nat, j: nat, a: Assertion, rpId: bytes)
    requires IsRun(env, ts) && i < j < |ts| && ts[j].out.Asserted? && ReadAssertion(ts[j].out.response) == Some(a)
    requires RegisteredFor(ts[i], a.id, rpId)
    ensures a.auth.rpIdHash == env.sha(rpId)
  {
    hide IsRun, Registers, Gate, AskedFrom, MadeFrom, ReadAssertion, SignedBy, UserOf, Base64Url.Decode;
    var mc, alg, ga, b := RegisterThenAssert(env, ts, i, j);
  }

  /** Event `i` answered the registration of raw ID `id` for this RP. */
  ghost predicate RegisteredFor(t: Tick, id: bytes, rpId: bytes)
  {
    t.out.Registered? && t.e.Request? && t.e.call.MakeRaw? && t.e.call.d.rawId == id && t.out.made.record.rpId == rpId
  }

  /** A relying party that lists only credentials it registered itself earlier in the run is answered for its own RP ID. */
  lemma OwnListIsAnsweredForRp(env: Env, ts: seq<Tick>, j: nat) returns (req: GA.Request, a: Assertion)
    requires IsRun(env, ts) && j < |ts| && ts[j].out.Asserted?
    ensures ts[j].e.Request? && ts[j].e.call.AssertRaw?
    ensures AskedFrom(Gate(env, ts[j].pre, ts[j].e.call.p, ts[j].e.call.d.ask).1, req)
    ensures ReadAssertion(ts[j].out.response) == Some(a)
    ensures (forall id :: id in req.allowList ==> exists i :: 0 <= i < j && RegisteredFor(ts[i], id, req.rpId))
            ==> a.auth.rpIdHash == env.sha(req.rpId)
  {
    hide IsRun, Taken, Good, Gate, AskedFrom, ReadAssertion, SignedBy, UserOf, Base64Url.Encode, Base64Url.Decode, Tracked, ById,
         FirstHeldIsFor, EveryHeldIsFor, RegisteredFor;
    RunTick(env, ts, j);
    var rec;
    req, rec, a := AnswerIsForRp(env, ts[j]);
    if req.allowList != [] && forall id :: id in req.allowList ==> exists i :: 0 <= i < j && RegisteredFor(ts[i], id, req.rpId) {
      ChosenIsListed(ts[j].pre.entries, req, rec, a.id);
      var i :| 0 <= i < j && RegisteredFor(ts[i], a.id, req.rpId);
      AnswersFor(env, ts, i, j, a, req.rpId);
    }
  }

  lemma GateBytes(env: Env, st: State, p: Params, ask: Option<bool>)
    ensures Gate(env, st, p, ask).1.Ok? ==> p.cbor == Decoded(Gate(env, st, p, ask).1.value)
  {
    hide EitherFormat, Verify;
  }

  /** The CBOR bytes a raw call carries. */
  function CborOf(e: Event): Option<bytes>
  {
    if e.Request? && (e.call.MakeRaw? || e.call.AssertRaw?) && e.call.p.cbor.Decoded? then Some(e.call.p.cbor.value) else None
  }

  /** The user entity due to a relying party that registered `userId`. */
  function DueUser(userId: bytes, mc: MC.Request, uv: bool): User
  {
    if uv then User(userId, Some(mc.userName), Some(mc.userDisplayName)) else User(userId, None, None)
  }

  /**
   Register, then assert: a discoverable answer gives back the exact `user.id` bytes of the registration request, the
   names exactly when the user was verified, and no user entity at all when the request listed credentials.
   */
  lemma UserReturned(env: Env, ts: seq<Tick>, i: nat, j: nat, it: Item, rest: bytes)
    returns (mc: MC.Request, ga: GA.Request, a: Assertion)
    requires IsRun(env, ts) && i < j < |ts| && ts[i].out.Registered? && ts[j].out.Asserted?
    requires WF(it) && it.Nest? && it.isMap && DistinctFields(it.kids) && |Enc(it) + rest| <= MAX_ARRAY
    requires CborOf(ts[i].e) == Some(Enc(it) + rest)
    ensures ts[i].e.Request? && ts[i].e.call.MakeRaw? && ts[j].e.Request? && ts[j].e.call.AssertRaw?
    ensures MC.Parse(Enc(it) + rest) == Ok(mc) && MCM.UserIdOf(it).Some?
    ensures AskedFrom(Gate(env, ts[j].pre, ts[j].e.call.p, ts[j].e.call.d.ask).1, ga) && ReadAssertion(ts[j].out.response) == Some(a)
    ensures a.id == ts[i].e.call.d.rawId ==>
      && a.auth.rpIdHash == env.sha(mc.rpId) && a.auth.uv == ts[j].e.call.p.uv
      && a.user == if ga.allowList == [] then Some(DueUser(MCM.UserIdOf(it).value, mc, ts[j].e.call.p.uv)) else None
  {
    hide IsRun, ReadAssertion, AskedFrom, Registers, MC.Parse, Base64Url.Encode, Base64Url.Decode, Base64Url.FromBase64, Gate,
         ValidDraw, SignedBy, MCM.DescribesRest, MCM.UserIdOf, Enc, WF, DistinctFields;
    var alg;
    mc, alg, ga, a := RegisterThenAssert(env, ts, i, j);
    GateBytes(env, ts[i].pre, ts[i].e.call.p, ts[i].e.call.d.ask);
    RegisteredRecord(env, mc, alg, ts[i].e.call.p.uv, ts[i].e.call.d, ts[i].out.made);
    MCM.RoundTrip(it, mc, rest);
    MCM.HandleEncodesUserId(it, mc);
    Base64Url.RoundTrip(MCM.UserIdOf(it).value);
  }
}
