/**
 Runs built from request bytes, with the bypass off: a credential that is registered and answers twice, once of them for
 another RP; a count burnt though signing never fails; and a record that stays although its registration failed.
 */
module VaultExample {
  import opened Prelude
  import opened CborSyntax
  import opened CanonicalItems
  import opened EcdsaDer
  import opened RequestItems
  import opened Responses
  import opened VaultStore
  import opened VaultHandling
  import opened VaultRuns
  import opened VaultGates
  import Base64Url
  import DecimalText
  import GA = GetAssertionRequest
  import MC = MakeCredentialRequest

  // -- an environment and what is drawn in it ------------------------------------------------------

  function LengthHash(b: bytes): (h: bytes)
    ensures |h| == 32
  {
    ToBE(|b|, 32)
  }

  function AnyVerifies(key: bytes, payload: bytes, signature: bytes): bool
  {
    true
  }

  function FixedSignature(pkcs8: bytes, alg: int, data: bytes, nonce: nat): (r: Option<bytes>)
    ensures r.Some? && |r.value| <= MAX_TEXT
  {
    Some([4])
  }

  /** The bypass is off, every signature verifies, signing never fails, and texts of different lengths hash differently. */
  ghost predicate Willing(env: Env)
  {
    && !env.bypass && (forall k, p, s :: env.ecdsa(k, p, s)) && (forall k, a, x, n :: env.sign(k, a, x, n).Some?)
    && forall b :: env.sha(b) == ToBE(|b|, 32)
  }

  lemma WillingEnv() returns (env: Env)
    ensures Willing(env)
  {
    hide ToBE;
    env := Env(false, false, LengthHash, AnyVerifies, FixedSignature);
  }

  lemma NeverThrows(env: Env)
    requires Willing(env)
    ensures !env.bypass && forall k, a, x, n :: env.sign(k, a, x, n).Some?
  {}

  const KEY: bytes := [5]

  function Submitted(data: bytes): Params
  {
    Params(Decoded(data), true, Decoded(Zeros(64)), V2Stable, Decoded(Zeros(64)))
  }

  function Drawn(saved: bool): Draw
  {
    Draw(Zeros(32), [3], Ec(Zeros(32), Zeros(32)), Rsa([1], [1]), None, 0, saved)
  }

  /** Any key of everyday size can be drawn. */
  lemma KeyFits(k: PublicKey)
    requires ValidKey(k) && (k.Rsa? ==> |k.n| <= 0x1_0000 && |k.e| <= 0x1_0000)
    ensures FitKey(k)
  {
    hide Enc, WF, Tidy;
    KeyPairsTidy(k);
    TidyAscends(KeyPairs(k));
    MapBytes(KeyPairs(k));
    EncWithinWeight(MapOf(KeyPairs(k)));
    MapWeight(KeyPairs(k), 0x1_0100);
  }

  lemma DrawnValid(saved: bool)
    ensures ValidDraw(Drawn(saved))
  {
    hide FitKey;
    KeyFits(Ec(Zeros(32), Zeros(32)));
    KeyFits(Rsa([1], [1]));
  }

  /** Submitted bytes pass both gates. */
  lemma Passes(env: Env, st: State, data: bytes)
    requires Willing(env) && st.cachedKey == Some(KEY) && data != []
    ensures Gate(env, st, Submitted(data), None) == (st, Ok(data))
  {
    hide FromDer, ToBE;
  }

  // -- requests --------------------------------------------------------------------------------------

  const A: bytes := [0x61]
  const BB: bytes := [0x62, 0x62]

  function Asking(rpId: bytes, ids: seq<bytes>): GA.Request
  {
    GA.Request(rpId, ToBE(0, 32), ids, true, false)
  }

  lemma AskingBytes(rpId: bytes, ids: seq<bytes>) returns (data: bytes)
    requires 0 < |rpId| <= 2 && |ids| <= 1 && forall i :: 0 <= i < |ids| ==> |ids[i]| == 32
    ensures data != [] && |data| <= MAX_ARRAY && GA.Parse(data) == Ok(Asking(rpId, ids))
  {
    hide Enc, WF, GetItem, GA.Parse, ToBE;
    var r := Asking(rpId, ids);
    GetSmall(r);
    data := Enc(GetItem(r));
    assert data + [] == data;
    GetRoundTrip(r, []);
  }

  /** A registration for RP "bb" of user [2]. */
  function Making(): MC.Request
  {
    MC.Request(ToBE(0, 32), BB, BB, Base64Url.Encode([2]), A, A, [], [MC.ES256])
  }

  lemma MakingBytes() returns (data: bytes)
    ensures data != [] && |data| <= MAX_ARRAY && MC.Parse(data) == Ok(Making())
  {
    hide Enc, WF, MakeItem, MC.Parse, ToBE, Base64Url.Encode;
    var r := Making();
    assert MakeExpressible(r) && Spelt(r, [2], []) && MakeShort(r, [2], []);
    MakeSmall(r, [2], []);
    data := Enc(MakeItem(r, [2], []));
    assert data + [] == data;
    MakeRoundTrip(r, [2], [], []);
  }

  // -- building runs -----------------------------------------------------------------------------------

  lemma TakeStep(env: Env, used: set<bytes>, st: State, e: Event) returns (t: Tick)
    requires AllStorable(st.entries) && FreshIds(used, e)
    ensures t.used == used && t.pre == st && t.e == e && Taken(env, t)
  {
    hide Step, AllStorable;
    var s := Step(env, st, e);
    t := Tick(used, st, e, s.0, s.1);
  }

  lemma Begin(env: Env) returns (t: Tick)
    ensures IsRun(env, [t]) && t.used == {} && NewId(t.e) == None
    ensures t.e.Hello? && t.post == State([], [], Some(KEY), false, false)
  {
    var st := State([], [], None, false, false);
    t := TakeStep(env, {}, st, Hello(KEY));
    BeginIsRun(env, t);
  }

  lemma BeginIsRun(env: Env, t: Tick)
    requires Taken(env, t) && t.pre.entries == t.pre.disk == [] && t.used == {}
    ensures IsRun(env, [t])
  {
    hide Taken;
  }

  lemma Extend(env: Env, ts: seq<Tick>, e: Event) returns (t: Tick)
    requires IsRun(env, ts) && ts != []
    requires var last := ts[|ts| - 1]; FreshIds(Used(last.used, last.e), e)
    ensures IsRun(env, ts + [t]) && Taken(env, t) && t.e == e && t.pre == ts[|ts| - 1].post
    ensures var last := ts[|ts| - 1]; t.used == Used(last.used, last.e)
  {
    hide Taken, GoodState, Known, FreshIds, Used, AllStorable;
    var last := ts[|ts| - 1];
    RunTick(env, ts, |ts| - 1);
    TickKeeps(env, last);
    t := TakeStep(env, Used(last.used, last.e), last.post, e);
  }

  lemma AssertFresh(used: set<bytes>, data: bytes, saved: bool)
    requires |data| <= MAX_ARRAY
    ensures FreshIds(used, Request(true, AssertRaw(Submitted(data), Drawn(saved))))
  {}

  lemma MakeFresh(data: bytes, saved: bool)
    requires |data| <= MAX_ARRAY
    ensures FreshIds({}, Request(true, MakeRaw(Submitted(data), Drawn(saved))))
  {
    hide ValidDraw;
    DrawnValid(saved);
  }

  // -- a vault of one record ---------------------------------------------------------------------------

  /** One record, found under its ID, whose count is at most `n`. */
  ghost predicate Holds(st: State, rec: Passkey, n: nat)
  {
    |st.entries| == 1 && st.entries[0].key == rec && CountOf(st.entries[0]) <= n && st.cachedKey == Some(KEY)
  }

  lemma ZeroCount(k: Passkey)
    ensures CountOf(VaultEntry(k, ZERO)) == 0
  {
    DecimalText.RoundTrip(0);
    assert DecimalText.Decimal(0) == ZERO;
  }

  lemma HoldsNew(st: State, rec: Passkey)
    requires st.entries == [VaultEntry(rec, ZERO)] && st.cachedKey == Some(KEY)
    ensures Holds(st, rec, 0)
  {
    ZeroCount(rec);
  }

  /** An assertion moves at most that count, by one. */
  lemma AskedKeeps(env: Env, t: Tick, rec: Passkey, n: nat)
    requires Taken(env, t) && t.e.Request? && t.e.call.AssertRaw? && Holds(t.pre, rec, n)
    ensures Holds(t.post, rec, n + 1)
  {
    hide Taken, Answer, Incremented, CountOf, AllStorable;
    AssertOfTick(env, t);
    TickLatch(env, t);
    if t.e.vaultOpen {
      var c := AnswerChange(env, t.pre, t.e.call.p, t.e.call.d);
      if c.Counted? { IncrementedMeans(t.pre.entries, c.id); }
    }
  }

  lemma Uses(env: Env, st: State, rec: Passkey, n: nat, data: bytes, req: GA.Request)
    requires Willing(env) && Holds(st, rec, n) && n < 10 && data != []
    requires GA.Parse(data) == Ok(req) && req.up && Select(st.entries, req) == Some(rec)
    ensures CountsUse(env, st, Submitted(data), None)
  {
    hide Gate, GA.Parse, Select, Incremented, CountOf, Submitted;
    Passes(env, st, data);
    FirstIndex(st.entries, rec.credentialId, 0);
    IncrementedMeans(st.entries, rec.credentialId);
  }

  lemma SelectsForRp(st: State, rec: Passkey, n: nat)
    requires Holds(st, rec, n)
    ensures Select(st.entries, Asking(rec.rpId, [])) == Some(rec)
  {
    hide CountOf, ToBE;
    assert st.entries == [st.entries[0]] && ByRpId(st.entries[..0], rec.rpId) == [];
    assert ByRpId(st.entries, rec.rpId) == [rec];
  }

  lemma SelectsListed(st: State, rec: Passkey, n: nat, rpId: bytes, id: bytes)
    requires Holds(st, rec, n) && rec.credentialId == Base64Url.Encode(id)
    ensures Select(st.entries, Asking(rpId, [id])) == Some(rec)
  {
    hide CountOf, ToBE, Base64Url.Encode;
    FirstIndex(st.entries, rec.credentialId, 0);
    assert ById(st.entries, Base64Url.Encode(id)) == Some(rec);
  }

  // -- register, then assert twice -----------------------------------------------------------------------

  lemma Made1(env: Env, t: Tick, data: bytes, saved: bool)
    requires Willing(env) && Taken(env, t) && t.pre.entries == [] && t.pre.cachedKey == Some(KEY)
    requires t.e == Request(true, MakeRaw(Submitted(data), Drawn(saved)))
    requires data != [] && MC.Parse(data) == Ok(Making())
    ensures if saved then t.out.Registered? else t.out == Failed(SaveFailed)
    ensures |t.post.entries| == 1 && t.post.cachedKey == Some(KEY)
    ensures saved ==> Holds(t.post, t.out.made.record, 0) && t.out.made.record.rpId == BB
                      && t.out.made.record.credentialId == Base64Url.Encode(Zeros(32))
  {
    hide Taken, Gate, MC.Parse, Making, ValidDraw, Submitted, HoldsExcluded, Registers, MadeFrom, Base64Url.Encode;
    Passes(env, t.pre, data);
    NoneExcluded();
    TickLatch(env, t);
    RegisteredIff(env, t);
    var added := RefusalChangesNothing(env, t);
    if saved {
      var req, alg := TickRegistered(env, t);
      RegisteredRecord(env, req, alg, t.e.call.p.uv, t.e.call.d, t.out.made);
      HoldsNew(t.post, t.out.made.record);
      MadeForBB(Gate(env, t.pre, t.e.call.p, t.e.call.d.ask).1, req);
    }
  }

  lemma NoneExcluded()
    ensures !HoldsExcluded([], Making().excludeList)
  {
    hide ToBE, Base64Url.Encode;
  }

  lemma MadeForBB(g: Result<bytes, Fault>, req: MC.Request)
    requires MadeFrom(g, req) && g.Ok? && MC.Parse(g.value) == Ok(Making())
    ensures req.rpId == BB
  {
    hide MC.Parse, ToBE, Base64Url.Encode;
  }

  /** Once registered, an assertion that selects the record is answered. */
  lemma Answers(env: Env, ts: seq<Tick>, j: nat, rec: Passkey, n: nat, data: bytes, req: GA.Request)
    requires Willing(env) && IsRun(env, ts) && 1 < j < |ts| && ts[1].out.Registered? && ts[1].out.made.record == rec
    requires ts[j].e == Request(true, AssertRaw(Submitted(data), Drawn(true)))
    requires Holds(ts[j].pre, rec, n) && n < 10 && data != []
    requires GA.Parse(data) == Ok(req) && req.up && Select(ts[j].pre.entries, req) == Some(rec)
    ensures ts[j].out.Asserted? && Holds(ts[j].post, rec, n + 1)
    ensures AskedFrom(Gate(env, ts[j].pre, ts[j].e.call.p, ts[j].e.call.d.ask).1, req)
  {
    hide *;
    RunTick(env, ts, 1);
    RunTick(env, ts, j);
    DrawnSaved();
    Uses(env, ts[j].pre, rec, n, data, req);
    Passes1(env, ts[j].pre, rec, n, data);
    var mc, alg := TickRegistered(env, ts[1]);
    RegisteredGrows(ts[1], rec);
    var made, ga, sel, count := OwnRecordIsAnswered(env, ts, 1, j);
    SameLast(ts[1].pre.entries, made, rec);
    SameAsked(Gate(env, ts[j].pre, Submitted(data), None).1, data, req, ga);
    SignsAlways(env, ts[1].e, ts[j].e, made, ga, count);
    AskedKeeps(env, ts[j], rec, n);
  }

  lemma RegisteredGrows(t: Tick, rec: Passkey)
    requires t.post.entries == t.pre.entries + [VaultEntry(rec, ZERO)]
    ensures |t.post.entries| > |t.pre.entries|
  {}

  lemma SameAsked(g: Result<bytes, Fault>, data: bytes, req: GA.Request, ga: GA.Request)
    requires g == Ok(data) && GA.Parse(data) == Ok(req)
    ensures AskedFrom(g, req) && (AskedFrom(g, ga) ==> ga == req)
  {
    hide GA.Parse;
  }

  lemma SignsAlways(env: Env, created: Event, asked: Event, rec: Passkey, req: GA.Request, count: nat)
    requires Willing(env) && created.Request? && created.call.MakeRaw? && asked.Request? && asked.call.AssertRaw? && count <= UINT32_MAX
    ensures Signs(env, created, asked, rec, req, count) && HandleServes(created, req)
  {
    hide AssertionAuthData;
  }

  lemma Passes1(env: Env, st: State, rec: Passkey, n: nat, data: bytes)
    requires Willing(env) && Holds(st, rec, n) && data != []
    ensures Gate(env, st, Submitted(data), None).1 == Ok(data)
  {
    hide Gate, Submitted;
    Passes(env, st, data);
  }

  /** A handshake, then a registration. */
  lemma RegisteredRun(env: Env) returns (ts: seq<Tick>, rec: Passkey)
    requires Willing(env)
    ensures IsRun(env, ts) && |ts| == 2 && ts[1].out.Registered? && ts[1].out.made.record == rec && Holds(ts[1].post, rec, 0)
    ensures rec.rpId == BB && rec.credentialId == Base64Url.Encode(Zeros(32))
  {
    hide *;
    var data := MakingBytes();
    var t0 := Begin(env);
    MakeFresh(data, true);
    NoNewId(t0);
    var t1 := Extend(env, [t0], Request(true, MakeRaw(Submitted(data), Drawn(true))));
    Made1(env, t1, data, true);
    ts, rec := [t0] + [t1], t1.out.made.record;
  }

  /** One more assertion, and its answer. */
  lemma AskNext(env: Env, ts: seq<Tick>, rec: Passkey, n: nat, req: GA.Request, data: bytes) returns (t: Tick, a: Assertion)
    requires Willing(env) && IsRun(env, ts) && |ts| >= 2 && ts[1].out.Registered? && ts[1].out.made.record == rec
    requires Holds(ts[|ts| - 1].post, rec, n) && n < 10 && Select(ts[|ts| - 1].post.entries, req) == Some(rec)
    requires data != [] && |data| <= MAX_ARRAY && GA.Parse(data) == Ok(req) && req.up
    ensures IsRun(env, ts + [t]) && t.out.Asserted? && Holds(t.post, rec, n + 1)
    ensures t.e.Request? && t.e.call.AssertRaw? && AskedFrom(Gate(env, t.pre, t.e.call.p, t.e.call.d.ask).1, req)
    ensures ReadAssertion(t.out.response) == Some(a) && rec.credentialId == Base64Url.Encode(a.id) && a.auth.rpIdHash == env.sha(rec.rpId)
  {
    hide *;
    var last := ts[|ts| - 1];
    AssertFresh(Used(last.used, last.e), data, true);
    t := Extend(env, ts, Request(true, AssertRaw(Submitted(data), Drawn(true))));
    var all := ts + [t];
    Answers(env, all, |ts|, rec, n, data, req);
    a := AnswerOf(env, all, |ts|, rec, req);
  }

  /**
   A run with the bypass off in which a credential of RP "bb" is registered, then answers a request of RP "a" that lists
   it, and then one of "bb" that lists none.
   */
  lemma RegistersThenAnswersTwice() returns (env: Env, ts: seq<Tick>, foreign: GA.Request, a: Assertion, b: Assertion)
    ensures !env.bypass && IsRun(env, ts) && |ts| == 4
    ensures ts[1].out.Registered? && ts[2].out.Asserted? && ts[3].out.Asserted?
    ensures ts[2].e.Request? && ts[2].e.call.AssertRaw? && AskedFrom(Gate(env, ts[2].pre, ts[2].e.call.p, ts[2].e.call.d.ask).1, foreign)
    ensures ReadAssertion(ts[2].out.response) == Some(a) && a.auth.rpIdHash != env.sha(foreign.rpId)
    ensures ReadAssertion(ts[3].out.response) == Some(b) && a.id == b.id
  {
    hide *;
    env := WillingEnv();
    NeverThrows(env);
    var run, rec := RegisteredRun(env);
    var data, own;
    foreign, data := ForeignBytes();
    SelectsListed(run[1].post, rec, 0, A, Zeros(32));
    var t2, t3;
    t2, a := AskNext(env, run, rec, 0, foreign, data);
    own, data := OwnBytes(BB);
    SelectsForRp(t2.post, rec, 1);
    t3, b := AskNext(env, run + [t2], rec, 1, own, data);
    ts := run + [t2] + [t3];
    Base64Url.EncodeInjective(a.id, b.id);
    HashesDiffer(env);
  }

  lemma ForeignBytes() returns (r: GA.Request, data: bytes)
    ensures r == Asking(A, [Zeros(32)]) && r.up && r.rpId == A
    ensures data != [] && |data| <= MAX_ARRAY && GA.Parse(data) == Ok(r)
  {
    hide GA.Parse, ToBE;
    r := Asking(A, [Zeros(32)]);
    data := AskingBytes(A, [Zeros(32)]);
  }

  lemma OwnBytes(rpId: bytes) returns (r: GA.Request, data: bytes)
    requires rpId == A || rpId == BB
    ensures r == Asking(rpId, []) && r.up && r.rpId == rpId
    ensures data != [] && |data| <= MAX_ARRAY && GA.Parse(data) == Ok(r)
  {
    hide GA.Parse, ToBE;
    r := Asking(rpId, []);
    data := AskingBytes(rpId, []);
  }

  lemma NoNewId(t: Tick)
    requires NewId(t.e) == None && t.used == {}
    ensures Used(t.used, t.e) == {}
  {}

  lemma HashesDiffer(env: Env)
    requires Willing(env)
    ensures env.sha(A) != env.sha(BB)
  {
    hide ToBE;
    FromToBE(1, 32) by { Wide(); }
    FromToBE(2, 32) by { Wide(); }
  }

  lemma Wide()
    ensures Pow256(32) > 2
  {
    assert Pow256(32) == 256 * Pow256(31);
  }

  lemma AnswerOf(env: Env, ts: seq<Tick>, j: nat, rec: Passkey, req: GA.Request) returns (a: Assertion)
    requires IsRun(env, ts) && j < |ts| && ts[j].out.Asserted? && ts[j].e.Request? && ts[j].e.call.AssertRaw?
    requires AskedFrom(Gate(env, ts[j].pre, ts[j].e.call.p, ts[j].e.call.d.ask).1, req) && Select(ts[j].pre.entries, req) == Some(rec)
    ensures ReadAssertion(ts[j].out.response) == Some(a) && rec.credentialId == Base64Url.Encode(a.id) && a.auth.rpIdHash == env.sha(rec.rpId)
  {
    hide IsRun, Taken, Good, Gate, GA.Parse, Select, ReadAssertion, Base64Url.Encode, FirstHeldIsFor, EveryHeldIsFor;
    RunTick(env, ts, j);
    var q, r;
    q, r, a := AnswerIsForRp(env, ts[j]);
  }

  // -- a burnt count -----------------------------------------------------------------------------------

  /** A createPasskey request whose user handle is "!", which is no base64url. */
  function BadHandle(): LegacyParams
  {
    LegacyParams(A, None, [0x21], A, None)
  }

  lemma HandleUndecodable()
    ensures Base64Url.Decode([0x21]) == None
  {}

  lemma CreateFresh()
    ensures FreshIds({}, Request(true, CreatePasskey(BadHandle(), Drawn(true))))
  {
    hide ValidDraw;
    DrawnValid(true);
  }

  lemma Created1(env: Env, t: Tick) returns (rec: Passkey)
    requires Taken(env, t) && t.pre.entries == [] && t.pre.cachedKey == Some(KEY)
    requires t.e == Request(true, CreatePasskey(BadHandle(), Drawn(true)))
    ensures t.out.Created? && |t.post.entries| == 1 && Holds(t.post, rec, 0) && rec.rpId == A
  {
    hide FitKey, CoseBytes, RegistrationAuthData, Base64Url.Encode, Base64Url.ToBase64, Holds;
    rec := LegacyRecord(BadHandle(), Drawn(true));
    HoldsNew(t.post, rec);
  }

  /** Signing never fails and Save returns, yet an assertion fails and leaves its count advanced. */
  lemma BurnsACount() returns (env: Env, ts: seq<Tick>)
    ensures !env.bypass && (forall k, a, x, n :: env.sign(k, a, x, n).Some?)
    ensures IsRun(env, ts) && |ts| == 3 && ts[1].out.Created?
    ensures ts[2].e.Request? && ts[2].e.call.AssertRaw? && ts[2].e.call.d.saved
    ensures ts[2].out.Failed? && ts[2].post.entries != ts[2].pre.entries
  {
    hide *;
    env := WillingEnv();
    NeverThrows(env);
    var own, o := OwnBytes(A);
    var t0 := Begin(env);
    CreateFresh();
    NoNewId(t0);
    var t1 := Extend(env, [t0], Request(true, CreatePasskey(BadHandle(), Drawn(true))));
    var rec := Created1(env, t1);
    AssertFresh(Used(t1.used, t1.e), o, true);
    var t2 := Extend(env, [t0] + [t1], Request(true, AssertRaw(Submitted(o), Drawn(true))));
    ts := [t0] + [t1] + [t2];
    SelectsForRp(t2.pre, rec, 0);
    Uses(env, t2.pre, rec, 0, o, own);
    UseFailsLate(env, ts, rec, o);
    DrawnSaved();
  }

  lemma DrawnSaved()
    ensures Drawn(true).saved && Drawn(true).ask == None
  {}

  lemma UseFailsLate(env: Env, ts: seq<Tick>, rec: Passkey, data: bytes)
    requires Willing(env) && IsRun(env, ts) && |ts| == 3 && |ts[1].post.entries| == 1 && ts[1].pre.entries == []
    requires ts[1].e == Request(true, CreatePasskey(BadHandle(), Drawn(true))) && Holds(ts[1].post, rec, 0)
    requires ts[2].e == Request(true, AssertRaw(Submitted(data), Drawn(true))) && CountsUse(env, ts[2].pre, Submitted(data), None)
    requires data != [] && GA.Parse(data) == Ok(Asking(A, [])) && Holds(ts[2].pre, rec, 0) && Select(ts[2].pre.entries, Asking(A, [])) == Some(rec)
    ensures ts[2].out.Failed? && ts[2].post.entries != ts[2].pre.entries
  {
    hide IsRun, Taken, Good, Gate, GA.Parse, Select, MadeHere, CountsUse, UseFails, Incremented, Submitted, Willing, CountOf, ToBE, Base64Url.Decode;
    RunTick(env, ts, 2);
    Passes1(env, ts[2].pre, rec, 0, data);
    HandleUndecodable();
    var made, ga, sel, count := OwnRecordIsAnswered(env, ts, 1, 2);
    CountBurns(env, ts[2]);
    AssertOfTick(env, ts[2]);
  }

  lemma UnsavedDisk(env: Env, t: Tick, data: bytes)
    requires Taken(env, t) && t.e == Request(true, MakeRaw(Submitted(data), Drawn(false))) && !t.out.Registered?
    ensures t.post.disk == t.pre.disk
  {
    hide Taken, Register, Submitted, ValidDraw;
    MakeOfTick(env, t);
    RegisterDisk(env, t.pre, t.e.call.p, t.e.call.d);
  }

  lemma ReopenFresh(used: set<bytes>)
    ensures FreshIds(used, Reopened)
  {}

  lemma ReopenedDisk(env: Env, t: Tick)
    requires Taken(env, t) && t.e == Reopened
    ensures t.post.entries == t.pre.disk
  {
    hide AllStorable;
  }

  /** Save throws while a registration is stored: the call fails and the record stays, until KeePass is unlocked again. */
  lemma UnsavedStays() returns (env: Env, ts: seq<Tick>)
    ensures !env.bypass && IsRun(env, ts) && |ts| == 3
    ensures ts[1].e.Request? && ts[1].e.call.MakeRaw? && ts[1].out == Failed(SaveFailed)
    ensures ts[1].pre.entries == [] && |ts[1].post.entries| == 1
    ensures ts[2].e == Reopened && ts[2].post.entries == []
  {
    hide *;
    env := WillingEnv();
    NeverThrows(env);
    var m := MakingBytes();
    var t0 := Begin(env);
    MakeFresh(m, false);
    NoNewId(t0);
    var t1 := Extend(env, [t0], Request(true, MakeRaw(Submitted(m), Drawn(false))));
    Made1(env, t1, m, false);
    UnsavedDisk(env, t1, m);
    ReopenFresh(Used(t1.used, t1.e));
    var t2 := Extend(env, [t0] + [t1], Reopened);
    ReopenedDisk(env, t2);
    ts := [t0] + [t1] + [t2];
  }
}
