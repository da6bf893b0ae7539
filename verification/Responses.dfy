/**
 What the vault sends back: WebAuthn/AuthDataBuilder.cs, Cbor/CoseKey.cs and the two response builders of
 Ipc/VaultHandler.cs, each proved to come back whole when a relying party takes it apart.
 */
module Responses {
  import opened Prelude
  import opened CborSyntax
  import opened CborEncoding
  import opened RequestFold
  import opened CanonicalItems
  import Base64Url

  const FLAG_UP := 0x01
  const FLAG_UV := 0x04
  const FLAG_AT := 0x40

  const NONE: bytes := [0x6E, 0x6F, 0x6E, 0x65]

  // -- authenticator data (section 6.1 of WebAuthn Level 2) ------------------------------------

  datatype Attested = Attested(aaguid: bytes, id: bytes, key: bytes)
  datatype AuthView = AuthView(rpIdHash: bytes, up: bool, uv: bool, signCount: nat, attested: Option<Attested>)

  /**
   A strict relying party's reading, by offsets; None where a length does not add up, and where a bit stands that this
   authenticator never claims: reserved, backup eligibility and state, extension data.
   */
  function ReadAuthData(d: bytes): Option<AuthView>
  {
    if |d| < 37 then None
    else
      var flags := d[32];
      if flags / 2 % 2 != 0 || flags / 8 % 8 != 0 || flags / 128 != 0 then None else
      var base := AuthView(d[..32], flags % 2 == 1, flags / 4 % 2 == 1, FromBE(d[33..37]), None);
      if flags / 64 % 2 == 0 then (if |d| == 37 then Some(base) else None)
      else if |d| < 55 || |d| < 55 + FromBE(d[53..55]) then None
      else
        var end := 55 + FromBE(d[53..55]);
        Some(base.(attested := Some(Attested(d[37..53], d[55..end], d[end..]))))
  }

  function Header(rpIdHash: bytes, flags: byte, signCount: nat): bytes
  {
    rpIdHash + [flags] + ToBE(signCount, 4)
  }

  function RegistrationAuthData(rpIdHash: bytes, id: bytes, cose: bytes, uv: bool): bytes
  {
    Header(rpIdHash, if uv then 0x45 else 0x41, 0) + ToBE(0, 16) + ToBE(|id|, 2) + id + cose
  }

  function AssertionAuthData(rpIdHash: bytes, uv: bool, signCount: nat): bytes
  {
    Header(rpIdHash, if uv then 0x05 else 0x01, signCount)
  }

  method WriteUint32Be(ms: bytes, value: nat) returns (r: bytes)
    requires value <= UINT32_MAX
    ensures r == ms + ToBE(value, 4)
  {
    ToBE4(value);
    return ms + [value / 0x100_0000] + [value / 0x1_0000 % 256] + [value / 0x100 % 256] + [value % 256];
  }

  method WriteUint16Be(ms: bytes, value: nat) returns (r: bytes)
    requires value <= 0xFFFF
    ensures r == ms + ToBE(value, 2)
  {
    ToBE2(value);
    return ms + [value / 0x100] + [value % 256];
  }

  /** None stands for the ArgumentException on an empty or oversized ID or an empty key. */
  method Build(rpIdHash: bytes, credentialId: bytes, coseKey: bytes, userVerified: bool) returns (r: Option<bytes>)
    requires |rpIdHash| == 32
    ensures r == if 1 <= |credentialId| <= 0xFFFF && coseKey != []
                 then Some(RegistrationAuthData(rpIdHash, credentialId, coseKey, userVerified)) else None
  {
    if credentialId == [] {
      return None;
    }
    if |credentialId| > 0xFFFF {
      return None;
    }
    if coseKey == [] {
      return None;
    }
    var flags := FLAG_UP + FLAG_AT;  // disjoint bits
    if userVerified {
      flags := flags + FLAG_UV;
    }
    var ms := rpIdHash + [flags];
    ms := WriteUint32Be(ms, 0);
    ms := ms + seq(16, _ => 0);
    assert seq(16, _ => 0) == ToBE(0, 16) by { ZeroBytes(16); }
    ms := WriteUint16Be(ms, |credentialId|);
    return Some(ms + credentialId + coseKey);
  }

  lemma {:induction false} ZeroBytes(n: nat)
    ensures ToBE(0, n) == seq(n, _ => 0)
  {
    if n > 0 { ZeroBytes(n - 1); }
  }

  method BuildAssertion(rpIdHash: bytes, userVerified: bool, signCount: nat) returns (r: bytes)
    requires |rpIdHash| == 32 && signCount <= UINT32_MAX
    ensures r == AssertionAuthData(rpIdHash, userVerified, signCount)
  {
    var flags := FLAG_UP;
    if userVerified {
      flags := flags + FLAG_UV;
    }
    var ms := rpIdHash + [flags];
    r := WriteUint32Be(ms, signCount);
  }

  /** Taking registration authenticator data apart gives back everything put in, for every ID length. */
  lemma RegistrationAuthDataReads(rpIdHash: bytes, id: bytes, cose: bytes, uv: bool)
    requires |rpIdHash| == 32 && |id| <= 0xFFFF
    ensures ReadAuthData(RegistrationAuthData(rpIdHash, id, cose, uv)) ==
            Some(AuthView(rpIdHash, true, uv, 0, Some(Attested(ToBE(0, 16), id, cose))))
  {
    hide ToBE, FromBE, Pow256;
    Pow256Values();
    FromToBE(0, 4);
    FromToBE(|id|, 2);
    var d := RegistrationAuthData(rpIdHash, id, cose, uv);
    assert d[..32] == rpIdHash && d[33..37] == ToBE(0, 4) && d[37..53] == ToBE(0, 16) && d[53..55] == ToBE(|id|, 2);
    assert d[55..55 + |id|] == id && d[55 + |id|..] == cose;
  }

  lemma AssertionAuthDataReads(rpIdHash: bytes, uv: bool, signCount: nat)
    requires |rpIdHash| == 32 && signCount <= UINT32_MAX
    ensures ReadAuthData(AssertionAuthData(rpIdHash, uv, signCount)) == Some(AuthView(rpIdHash, true, uv, signCount, None))
  {
    hide ToBE, FromBE, Pow256;
    Pow256Values();
    FromToBE(signCount, 4);
    var d := AssertionAuthData(rpIdHash, uv, signCount);
    assert d[..32] == rpIdHash && d[33..37] == ToBE(signCount, 4);
  }

  // -- COSE keys ------------------------------------------------------------------------------------

  datatype PublicKey = Ec(x: bytes, y: bytes) | Rsa(n: bytes, e: bytes)

  predicate ValidKey(k: PublicKey)
  {
    match k
    case Ec(x, y) => |x| == 32 && |y| == 32
    case Rsa(n, e) => n != [] && e != [] && |n| <= UINT64_MAX && |e| <= UINT64_MAX
  }

  function AlgOfKey(k: PublicKey): int
  {
    if k.Ec? then -7 else -257
  }

  function KeyPairs(k: PublicKey): seq<Pair>
  {
    match k
    case Ec(x, y) =>
      [(UInt(1), UInt(2)), (UInt(3), NInt(-7)), (NInt(-1), UInt(1)), (NInt(-2), Blob(x)), (NInt(-3), Blob(y))]
    case Rsa(n, e) =>
      [(UInt(1), UInt(3)), (UInt(3), NInt(-257)), (NInt(-1), Blob(n)), (NInt(-2), Blob(e))]
  }

  function NumberOf(it: Option<Item>): Option<int>
  {
    if it.Some? && it.value.Num? then Some(if it.value.neg then -1 - it.value.v else it.value.v) else None
  }

  function BlobOf(it: Option<Item>): Option<bytes>
  {
    if it.Some? && IsBlob(it.value) then Some(it.value.body) else None
  }

  function TextOf(it: Option<Item>): Option<bytes>
  {
    if it.Some? && IsText(it.value) then Some(it.value.body) else None
  }

  /** A relying party's reading of a COSE_Key with no other parameters (sections 7 of RFC 9053 and 4 of RFC 8230). */
  function ReadKey(b: bytes): Option<PublicKey>
  {
    match Decode(b)
    case Fail => None
    case Got(it, rest) =>
      if rest != [] || !it.Nest? || !it.isMap then None
      else
        var kty, alg := NumberOf(Field(it.kids, U(1))), NumberOf(Field(it.kids, U(3)));
        if kty == Some(2) && alg == Some(-7) && NumberOf(Field(it.kids, N(0))) == Some(1) then
          var x, y := BlobOf(Field(it.kids, N(1))), BlobOf(Field(it.kids, N(2)));
          if x.Some? && y.Some? && |it.kids| == 10 then Some(Ec(x.value, y.value)) else None
        else if kty == Some(3) && alg == Some(-257) then
          var n, e := BlobOf(Field(it.kids, N(0))), BlobOf(Field(it.kids, N(1)));
          if n.Some? && e.Some? && |it.kids| == 8 then Some(Rsa(n.value, e.value)) else None
        else None
  }

  lemma KeyPairsTidy(k: PublicKey)
    requires ValidKey(k)
    ensures Tidy(KeyPairs(k))
  {
    hide ToBE, Pow256, Enc;
    match k {
      case Ec(x, y) => Leaf(1, -7, x); Leaf(2, -1, y);
      case Rsa(n, e) => Leaf(3, -257, n); Leaf(1, -1, e);
    }
    ShortestHead(0, 0);
  }

  ghost function CoseBytes(k: PublicKey): bytes
    requires ValidKey(k)
  {
    KeyPairsTidy(k);
    TidyAscends(KeyPairs(k));
    MapBytes(KeyPairs(k));
    Enc(MapOf(KeyPairs(k)))
  }

  /** None stands for the ArgumentException on coordinates that are not 32 bytes. */
  method EncodeEc(x: bytes, y: bytes) returns (r: Option<bytes>)
    ensures r == if |x| == 32 && |y| == 32 then Some(CoseBytes(Ec(x, y))) else None
  {
    hide Enc, WF, CanonMap;
    if |x| != 32 {
      return None;
    }
    if |y| != 32 {
      return None;
    }
    var kty := EncodeUint(1);
    var ec2 := EncodeUint(2);
    var alg := EncodeUint(3);
    var es256 := EncodeNeg(-7);
    var crv := EncodeNeg(-1);
    var p256 := EncodeUint(1);
    var xLabel := EncodeNeg(-2);
    var xValue := EncodeBstr(x);
    var yLabel := EncodeNeg(-3);
    var yValue := EncodeBstr(y);
    KeyPairsTidy(Ec(x, y));
    var w := EncodeMap([(kty, ec2), (alg, es256), (crv, p256), (xLabel, xValue), (yLabel, yValue)], KeyPairs(Ec(x, y)));
    return Some(w);
  }

  method EncodeRsa(n: bytes, e: bytes) returns (r: Option<bytes>)
    requires |n| <= UINT64_MAX && |e| <= UINT64_MAX
    ensures r == if n != [] && e != [] then Some(CoseBytes(Rsa(n, e))) else None
  {
    hide Enc, WF, CanonMap;
    if n == [] {
      return None;
    }
    if e == [] {
      return None;
    }
    var kty := EncodeUint(1);
    var rsa := EncodeUint(3);
    var alg := EncodeUint(3);
    var rs256 := EncodeNeg(-257);
    var nLabel := EncodeNeg(-1);
    var nValue := EncodeBstr(n);
    var eLabel := EncodeNeg(-2);
    var eValue := EncodeBstr(e);
    KeyPairsTidy(Rsa(n, e));
    var w := EncodeMap([(kty, rsa), (alg, rs256), (nLabel, nValue), (eLabel, eValue)], KeyPairs(Rsa(n, e)));
    return Some(w);
  }

  lemma KeyFields(k: PublicKey)
    requires ValidKey(k)
    ensures var kids := Flat(KeyPairs(k));
      && Field(kids, U(1)) == Some(UInt(if k.Ec? then 2 else 3))
      && Field(kids, U(3)) == Some(NInt(AlgOfKey(k)))
      && Field(kids, N(0)) == Some(if k.Ec? then UInt(1) else Blob(k.n))
      && Field(kids, N(1)) == Some(Blob(if k.Ec? then k.x else k.e))
      && (k.Ec? ==> Field(kids, N(2)) == Some(Blob(k.y)))
      && |kids| == if k.Ec? then 10 else 8
  {
    hide Field, Flat, CanonKey, Enc, WF, Tidy, ShortW;
    var ps := KeyPairs(k);
    KeyPairsTidy(k);
    TidyAscends(ps);
    FieldOfMap(ps, 0, U(1));
    FieldOfMap(ps, 1, U(3));
    FieldOfMap(ps, 2, N(0));
    FieldOfMap(ps, 3, N(1));
    if k.Ec? { FieldOfMap(ps, 4, N(2)); }
  }

  /** The public key read back from its COSE form is the one put in, for both algorithms. */
  lemma KeyReads(k: PublicKey)
    requires ValidKey(k)
    ensures ReadKey(CoseBytes(k)) == Some(k) && CoseBytes(k) != []
  {
    hide Enc, WF, Decode, Field, Flat, CanonMap, Tidy, KeyPairs, ShortW;
    var ps := KeyPairs(k);
    KeyPairsTidy(k);
    TidyAscends(ps);
    MapDecodes(ps, []);
    MapBytes(ps);
    assert CoseBytes(k) + [] == CoseBytes(k);
    KeyFields(k);
  }

  // -- the attestation object (section 6.1 of CTAP 2.1) ---------------------------------------------------

  function AttestationPairs(authData: bytes): seq<Pair>
  {
    [(UInt(1), Text(NONE)), (UInt(2), Blob(authData)), (UInt(3), MapOf([]))]
  }

  lemma AttestationTidy(authData: bytes)
    requires |authData| <= UINT64_MAX
    ensures Tidy([]) && Tidy(AttestationPairs(authData))
  {
    hide ToBE, Pow256, Enc;
    Leaf(1, -1, NONE);
    Leaf(2, -1, authData);
    Leaf(3, -1, []);
  }

  ghost function AttestationBytes(authData: bytes): bytes
    requires |authData| <= UINT64_MAX
  {
    AttestationTidy(authData);
    TidyAscends(AttestationPairs(authData));
    MapBytes(AttestationPairs(authData));
    Enc(MapOf(AttestationPairs(authData)))
  }

  method BuildAttestationObject(authData: bytes) returns (r: bytes)
    requires |authData| <= UINT64_MAX
    ensures r == AttestationBytes(authData)
  {
    hide Enc, WF, CanonMap;
    AttestationTidy(authData);
    var fmt := EncodeUint(1);
    var none := EncodeTstr(NONE);
    var authDataKey := EncodeUint(2);
    var authDataValue := EncodeBstr(authData);
    var attStmt := EncodeUint(3);
    var empty := EncodeMap([], []);
    r := EncodeMap([(fmt, none), (authDataKey, authDataValue), (attStmt, empty)], AttestationPairs(authData));
  }

  datatype Registration = Registration(fmt: bytes, attStmt: Item, auth: AuthView, key: PublicKey)

  /** A relying party's reading of a registration: the object of three entries, its authenticator data, and the key inside. */
  function ReadAttestation(b: bytes): Option<Registration>
  {
    match Decode(b)
    case Fail => None
    case Got(it, rest) =>
      if rest != [] || !it.Nest? || !it.isMap then None
      else
        var fmt, authData, stmt := TextOf(Field(it.kids, U(1))), BlobOf(Field(it.kids, U(2))), Field(it.kids, U(3));
        if fmt.None? || authData.None? || stmt.None? || |it.kids| != 6 then None
        else match ReadAuthData(authData.value)
          case None => None
          case Some(auth) =>
            if auth.attested.None? || ReadKey(auth.attested.value.key).None? then None
            else Some(Registration(fmt.value, stmt.value, auth, ReadKey(auth.attested.value.key).value))
  }

  lemma AttestationFields(authData: bytes)
    requires |authData| <= UINT64_MAX
    ensures var kids := Flat(AttestationPairs(authData));
      Field(kids, U(1)) == Some(Text(NONE)) && Field(kids, U(2)) == Some(Blob(authData)) && Field(kids, U(3)) == Some(MapOf([])) && |kids| == 6
    ensures Decode(AttestationBytes(authData)) == Got(MapOf(AttestationPairs(authData)), [])
  {
    hide Field, Flat, CanonKey, Enc, WF, Tidy, ShortW, Decode, CanonMap;
    var ps := AttestationPairs(authData);
    AttestationTidy(authData);
    TidyAscends(ps);
    FieldOfMap(ps, 0, U(1));
    FieldOfMap(ps, 1, U(2));
    FieldOfMap(ps, 2, U(3));
    MapDecodes(ps, []);
    MapBytes(ps);
    assert AttestationBytes(authData) + [] == AttestationBytes(authData);
  }

  /** Decoding a registration recovers format "none", the RP ID hash, the flags, the credential ID and the public key. */
  lemma AttestationReads(rpIdHash: bytes, id: bytes, k: PublicKey, uv: bool)
    requires |rpIdHash| == 32 && 1 <= |id| <= 0xFFFF && ValidKey(k)
    requires |RegistrationAuthData(rpIdHash, id, CoseBytes(k), uv)| <= UINT64_MAX
    ensures ReadAttestation(AttestationBytes(RegistrationAuthData(rpIdHash, id, CoseBytes(k), uv))) ==
            Some(Registration(NONE, Nest(true, 0, []),
                              AuthView(rpIdHash, true, uv, 0, Some(Attested(ToBE(0, 16), id, CoseBytes(k)))), k))
  {
    hide Field, Decode, CoseBytes, AttestationBytes, ReadKey, ReadAuthData, ToBE, AttestationPairs;
    var d := RegistrationAuthData(rpIdHash, id, CoseBytes(k), uv);
    AttestationFields(d);
    RegistrationAuthDataReads(rpIdHash, id, CoseBytes(k), uv);
    KeyReads(k);
  }

  // -- the assertion response (section 6.2 of CTAP 2.1) -----------------------------------------------------

  /** Storage/PasskeyRecord.cs, less the sign count, which the store keeps apart; text is UTF-8, IDs and handles are base64url, the private key is base64. */
  datatype Passkey = Passkey(credentialId: bytes, rpId: bytes, rpName: bytes, userHandle: bytes, userName: bytes,
                             userDisplayName: bytes, algId: int, privateKey: bytes, publicKey: bytes)

  // No text or byte array of the runtime comes near this length.
  const MAX_TEXT := UINT32_MAX

  predicate Storable(rec: Passkey)
  {
    && |rec.credentialId| <= MAX_TEXT && |rec.userHandle| <= MAX_TEXT
    && |rec.userName| <= MAX_TEXT && |rec.userDisplayName| <= MAX_TEXT
  }

  datatype User = User(id: bytes, name: Option<bytes>, displayName: Option<bytes>)

  /** The user entity a discoverable credential is answered with; names only after user verification. */
  function UserOf(rec: Passkey, uv: bool): Option<User>
  {
    match Base64Url.Decode(rec.userHandle)
    case None => None
    case Some(raw) => Some(if uv then User(raw, Some(rec.userName), Some(rec.userDisplayName)) else User(raw, None, None))
  }

  predicate Sized(u: User)
  {
    && |u.id| <= UINT64_MAX && (u.name.Some? <==> u.displayName.Some?)
    && (u.name.Some? ==> |u.name.value| <= UINT64_MAX && |u.displayName.value| <= UINT64_MAX)
  }

  function UserPairs(u: User): seq<Pair>
    requires Sized(u)
  {
    [(Text(ID), Blob(u.id))]
    + if u.name.Some? then [(Text(NAME), Text(u.name.value)), (Text(DISPLAY_NAME), Text(u.displayName.value))] else []
  }

  function DescriptorPairs(id: bytes): seq<Pair>
  {
    [(Text(ID), Blob(id)), (Text(TYPE), Text(PUBLIC_KEY))]
  }

  function ResponsePairs(id: bytes, authData: bytes, signature: bytes, user: Option<User>): seq<Pair>
    requires user.Some? ==> Sized(user.value)
  {
    [(UInt(1), MapOf(DescriptorPairs(id))), (UInt(2), Blob(authData)), (UInt(3), Blob(signature))]
    + if user.Some? then [(UInt(4), MapOf(UserPairs(user.value)))] else []
  }

  lemma UserTidy(u: User)
    requires Sized(u)
    ensures Tidy(UserPairs(u))
  {
    hide ToBE, Pow256, Enc;
    Leaf(0, -1, ID);
    Leaf(0, -1, NAME);
    Leaf(0, -1, DISPLAY_NAME);
    Leaf(0, -1, u.id);
    if u.name.Some? {
      Leaf(0, -1, u.name.value);
      Leaf(0, -1, u.displayName.value);
    }
  }

  lemma DescriptorTidy(id: bytes)
    requires |id| <= UINT64_MAX
    ensures Tidy(DescriptorPairs(id))
  {
    hide ToBE, Pow256, Enc;
    Leaf(0, -1, ID);
    Leaf(0, -1, TYPE);
    Leaf(0, -1, id);
    Leaf(0, -1, PUBLIC_KEY);
  }

  lemma TidyMapWF(ps: seq<Pair>)
    requires Tidy(ps)
    ensures WF(MapOf(ps))
  {
    TidyAscends(ps);
    MapBytes(ps);
  }

  predicate Fits(id: bytes, authData: bytes, signature: bytes, user: Option<User>)
  {
    |id| <= UINT64_MAX && |authData| <= UINT64_MAX && |signature| <= UINT64_MAX && (user.Some? ==> Sized(user.value))
  }

  lemma ResponseTidy(id: bytes, authData: bytes, signature: bytes, user: Option<User>)
    requires Fits(id, authData, signature, user)
    ensures Tidy(ResponsePairs(id, authData, signature, user))
  {
    hide ToBE, Pow256, Enc, UserPairs, DescriptorPairs, MapOf;
    Leaf(1, -1, authData);
    Leaf(2, -1, signature);
    Leaf(3, -1, []);
    Leaf(4, -1, []);
    DescriptorTidy(id);
    TidyMapWF(DescriptorPairs(id));
    if user.Some? {
      UserTidy(user.value);
      TidyMapWF(UserPairs(user.value));
    }
  }

  ghost function AssertionBytes(id: bytes, authData: bytes, signature: bytes, user: Option<User>): bytes
    requires Fits(id, authData, signature, user)
  {
    ResponseTidy(id, authData, signature, user);
    TidyMapWF(ResponsePairs(id, authData, signature, user));
    Enc(MapOf(ResponsePairs(id, authData, signature, user)))
  }

  method EncodeUser(u: User) returns (r: bytes)
    requires Sized(u)
    ensures WF(MapOf(UserPairs(u))) && r == Enc(MapOf(UserPairs(u)))
  {
    hide Enc, WF;
    UserTidy(u);
    var id := EncodeTstr(ID);
    var idValue := EncodeBstr(u.id);
    var userPairs := [(id, idValue)];
    if u.name.Some? {
      var name := EncodeTstr(NAME);
      var nameValue := EncodeTstr(u.name.value);
      var display := EncodeTstr(DISPLAY_NAME);
      var displayValue := EncodeTstr(u.displayName.value);
      userPairs := userPairs + [(name, nameValue)];
      userPairs := userPairs + [(display, displayValue)];
    }
    r := EncodeMap(userPairs, UserPairs(u));
  }

  method EncodeDescriptor(credentialId: bytes) returns (r: bytes)
    requires |credentialId| <= UINT64_MAX
    ensures WF(MapOf(DescriptorPairs(credentialId))) && r == Enc(MapOf(DescriptorPairs(credentialId)))
  {
    hide Enc, WF;
    DescriptorTidy(credentialId);
    var id := EncodeTstr(ID);
    var idValue := EncodeBstr(credentialId);
    var ty := EncodeTstr(TYPE);
    var tyValue := EncodeTstr(PUBLIC_KEY);
    r := EncodeMap([(id, idValue), (ty, tyValue)], DescriptorPairs(credentialId));
  }

  /** None stands for the FormatException on a user handle that is not base64url. */
  method BuildAssertionResponse(credentialId: bytes, authData: bytes, signature: bytes, userRecord: Option<Passkey>, uv: bool)
    returns (r: Option<bytes>)
    requires |credentialId| <= UINT64_MAX && |authData| <= UINT64_MAX && |signature| <= UINT64_MAX
    requires userRecord.Some? ==> Storable(userRecord.value)
    ensures r == ResponseFor(credentialId, authData, signature, userRecord, uv)
  {
    hide Enc, WF, UserPairs, DescriptorPairs, Base64Url.Decode, MapOf;
    var descriptorKey := EncodeUint(1);
    var descriptor := EncodeDescriptor(credentialId);
    var authDataKey := EncodeUint(2);
    var authDataValue := EncodeBstr(authData);
    var signatureKey := EncodeUint(3);
    var signatureValue := EncodeBstr(signature);
    var pairs := [(descriptorKey, descriptor), (authDataKey, authDataValue), (signatureKey, signatureValue)];
    ghost var user := None;
    if userRecord.Some? {
      var u := UserOf(userRecord.value, uv);
      if u.None? {
        return None;
      }
      UserSized(userRecord.value, uv);
      var userKey := EncodeUint(4);
      var userMap := EncodeUser(u.value);
      pairs := pairs + [(userKey, userMap)];
      user := u;
    }
    ResponseTidy(credentialId, authData, signature, user);
    var w := EncodeMap(pairs, ResponsePairs(credentialId, authData, signature, user));
    return Some(w);
  }

  lemma UserSized(rec: Passkey, uv: bool)
    requires Storable(rec)
    ensures UserOf(rec, uv).Some? ==> Sized(UserOf(rec, uv).value)
  {
    hide Base64Url.Decode;
    Base64Url.DecodeShort(rec.userHandle);
  }

  ghost function ResponseFor(id: bytes, authData: bytes, signature: bytes, userRecord: Option<Passkey>, uv: bool): Option<bytes>
    requires |id| <= UINT64_MAX && |authData| <= UINT64_MAX && |signature| <= UINT64_MAX
    requires userRecord.Some? ==> Storable(userRecord.value)
  {
    match userRecord
    case None => Some(AssertionBytes(id, authData, signature, None))
    case Some(rec) =>
      UserSized(rec, uv);
      if UserOf(rec, uv).None? then None else Some(AssertionBytes(id, authData, signature, UserOf(rec, uv)))
  }

  datatype Assertion = Assertion(id: bytes, ty: bytes, authData: bytes, auth: AuthView, signature: bytes, user: Option<User>)

  /** A relying party's reading of an assertion; None where a mandatory part is missing or mistyped, or an entry is left over. */
  function ReadAssertion(b: bytes): Option<Assertion>
  {
    match Decode(b)
    case Fail => None
    case Got(it, rest) =>
      if rest != [] || !it.Nest? || !it.isMap then None
      else
        var desc, authData, sig := Field(it.kids, U(1)), BlobOf(Field(it.kids, U(2))), BlobOf(Field(it.kids, U(3)));
        if desc.None? || !desc.value.Nest? || authData.None? || sig.None? || ReadAuthData(authData.value).None? then None
        else
          var id, ty := BlobOf(Field(desc.value.kids, T(ID))), TextOf(Field(desc.value.kids, T(TYPE)));
          if id.None? || ty.None? || |desc.value.kids| != 4 || |it.kids| != (if Field(it.kids, U(4)).Some? then 8 else 6) then None
          else match ReadUser(Field(it.kids, U(4)))
            case None => None
            case Some(user) =>
              Some(Assertion(id.value, ty.value, authData.value, ReadAuthData(authData.value).value, sig.value, user))
  }

  function ReadUser(it: Option<Item>): Option<Option<User>>
  {
    if it.None? then Some(None)
    else if !it.value.Nest? || BlobOf(Field(it.value.kids, T(ID))).None? then None
    else
      var name, display := TextOf(Field(it.value.kids, T(NAME))), TextOf(Field(it.value.kids, T(DISPLAY_NAME)));
      if |it.value.kids| != 2 + (if name.Some? then 2 else 0) + (if display.Some? then 2 else 0) then None
      else Some(Some(User(BlobOf(Field(it.value.kids, T(ID))).value, name, display)))
  }

  lemma UserReads(u: User)
    requires Sized(u)
    ensures ReadUser(Some(MapOf(UserPairs(u)))) == Some(Some(u))
  {
    hide Field, Flat, CanonKey, Enc, WF, Tidy, ShortW;
    var ps := UserPairs(u);
    UserTidy(u);
    TidyAscends(ps);
    FieldOfMap(ps, 0, T(ID));
    if u.name.Some? {
      FieldOfMap(ps, 1, T(NAME));
      FieldOfMap(ps, 2, T(DISPLAY_NAME));
    } else {
      FieldAbsent(ps, T(NAME));
      FieldAbsent(ps, T(DISPLAY_NAME));
    }
  }

  lemma DescriptorFields(id: bytes)
    requires |id| <= UINT64_MAX
    ensures var kids := Flat(DescriptorPairs(id));
      Field(kids, T(ID)) == Some(Blob(id)) && Field(kids, T(TYPE)) == Some(Text(PUBLIC_KEY)) && |kids| == 4
  {
    hide Field, Flat, CanonKey, Enc, WF, Tidy, ShortW;
    var ps := DescriptorPairs(id);
    DescriptorTidy(id);
    TidyAscends(ps);
    FieldOfMap(ps, 0, T(ID));
    FieldOfMap(ps, 1, T(TYPE));
  }

  lemma ResponseFields(id: bytes, authData: bytes, signature: bytes, user: Option<User>)
    requires Fits(id, authData, signature, user)
    ensures var kids := Flat(ResponsePairs(id, authData, signature, user));
      && Field(kids, U(1)) == Some(MapOf(DescriptorPairs(id)))
      && Field(kids, U(2)) == Some(Blob(authData)) && Field(kids, U(3)) == Some(Blob(signature))
      && Field(kids, U(4)) == (if user.Some? then Some(MapOf(UserPairs(user.value))) else None)
      && |kids| == if user.Some? then 8 else 6
    ensures Decode(AssertionBytes(id, authData, signature, user)) == Got(MapOf(ResponsePairs(id, authData, signature, user)), [])
  {
    hide Field, Flat, CanonKey, Enc, WF, Tidy, ShortW, Decode, CanonMap, MapOf, UserPairs, DescriptorPairs;
    var ps := ResponsePairs(id, authData, signature, user);
    ResponseTidy(id, authData, signature, user);
    TidyAscends(ps);
    FieldOfMap(ps, 0, U(1));
    FieldOfMap(ps, 1, U(2));
    FieldOfMap(ps, 2, U(3));
    if user.Some? {
      FieldOfMap(ps, 3, U(4));
    } else {
      FieldAbsent(ps, U(4));
    }
    MapDecodes(ps, []);
    MapBytes(ps);
    var b := AssertionBytes(id, authData, signature, user);
    assert b + [] == b;
  }

  /**
   Decoding an assertion recovers every part; key 4 is there exactly when a user entity was given, the names in it
   exactly when they were.
   */
  lemma AssertionReads(id: bytes, rpIdHash: bytes, uv: bool, signCount: nat, signature: bytes, user: Option<User>)
    requires |rpIdHash| == 32 && signCount <= UINT32_MAX
    requires Fits(id, AssertionAuthData(rpIdHash, uv, signCount), signature, user)
    ensures var d := AssertionAuthData(rpIdHash, uv, signCount);
      ReadAssertion(AssertionBytes(id, d, signature, user)) ==
      Some(Assertion(id, PUBLIC_KEY, d, AuthView(rpIdHash, true, uv, signCount, None), signature, user))
  {
    hide Field, Decode, ReadUser, ReadAuthData, AssertionBytes, ResponsePairs, DescriptorPairs, UserPairs, ShortW, AssertionAuthData;
    var d := AssertionAuthData(rpIdHash, uv, signCount);
    ResponseFields(id, d, signature, user);
    DescriptorFields(id);
    AssertionAuthDataReads(rpIdHash, uv, signCount);
    if user.Some? {
      UserReads(user.value);
    }
    assert ReadUser(None) == Some(None) by { NoUser(); }
  }

  lemma NoUser()
    ensures ReadUser(None) == Some(None)
  {}
}
