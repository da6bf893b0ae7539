/** ParseMakeCredentialCbor of Ipc/VaultHandler.cs: the loops, their byte-level meaning and their item-level meaning. */
module MakeCredentialRequest {
  import opened Prelude
  import opened CborSyntax
  import opened CborDecoding
  import opened RequestFold
  import Base64Url

  const ALG: bytes := [0x61, 0x6C, 0x67]
  const ES256 := -7
  const RS256 := -257

  /** Text fields are UTF-8; userHandle and the excludeList are base64url. */
  datatype Request = Request(clientDataHash: bytes, rpId: bytes, rpName: bytes, userHandle: bytes,
                             userName: bytes, userDisplayName: bytes, excludeList: seq<bytes>, requestedAlgs: seq<int>)

  datatype Fields = Fields(hash: Option<bytes>, rp: Rp, user: User, algs: seq<int>, exclude: seq<bytes>)
  datatype Rp = Rp(id: Option<bytes>, name: Option<bytes>)
  datatype User = User(handle: Option<bytes>, name: Option<bytes>, display: Option<bytes>)
  datatype Param = Param(ty: Option<bytes>, alg: Option<int>)

  const NO_FIELDS := Fields(None, Rp(None, None), User(None, None, None), [], [])
  const NO_PARAM := Param(None, None)

  // -- on bytes ------------------------------------------------------------------

  function RpStep(r: Rp, b: bytes): Run<Rp>
  {
    match ReadString(true, b)
    case Fail => Stop(BadCbor)
    case Got(field, b1) =>
      if field == ID then
        match ReadString(true, b1) case Fail => Stop(BadCbor) case Got(x, b2) => More(r.(id := Some(x)), b2)
      else if field == NAME then
        match ReadString(true, b1) case Fail => Stop(BadCbor) case Got(x, b2) => More(r.(name := Some(x)), b2)
      else SkipRun(r, b1)
  }

  function UserStep(u: User, b: bytes): Run<User>
  {
    match ReadString(true, b)
    case Fail => Stop(BadCbor)
    case Got(field, b1) =>
      if field == ID then
        match ReadString(false, b1) case Fail => Stop(BadCbor) case Got(x, b2) => More(u.(handle := Some(Base64Url.Encode(x))), b2)
      else if field == NAME then
        match ReadString(true, b1) case Fail => Stop(BadCbor) case Got(x, b2) => More(u.(name := Some(x)), b2)
      else if field == DISPLAY_NAME then
        match ReadString(true, b1) case Fail => Stop(BadCbor) case Got(x, b2) => More(u.(display := Some(x)), b2)
      else SkipRun(u, b1)
  }

  function ParamStep(p: Param, b: bytes): Run<Param>
  {
    match ReadString(true, b)
    case Fail => Stop(BadCbor)
    case Got(field, b1) =>
      if field == ALG then
        if |b1| == 0 then Stop(BadCbor)
        else if b1[0] / 32 == 1 then
          match ReadNegative(b1) case Fail => Stop(BadCbor) case Got(x, b2) => More(p.(alg := Some(x)), b2)
        else SkipRun(p, b1)
      else if field == TYPE then
        match ReadString(true, b1) case Fail => Stop(BadCbor) case Got(x, b2) => More(p.(ty := Some(x)), b2)
      else SkipRun(p, b1)
  }

  function CollectAlg(algs: seq<int>, p: Param): seq<int>
  {
    if p.ty == Some(PUBLIC_KEY) && (p.alg == Some(ES256) || p.alg == Some(RS256)) then algs + [p.alg.value] else algs
  }

  function AlgsStep(algs: seq<int>, b: bytes): Run<seq<int>>
  {
    match ParseNest(true, ParamStep, b, NO_PARAM)
    case Stop(e) => Stop(e)
    case More(p, rest) => More(CollectAlg(algs, p), rest)
  }

  function ExDescStep(id: Option<bytes>, b: bytes): Run<Option<bytes>>
  {
    match ReadString(true, b)
    case Fail => Stop(BadCbor)
    case Got(field, b1) =>
      if field == ID then
        match ReadString(false, b1) case Fail => Stop(BadCbor) case Got(x, b2) => More(Some(x), b2)
      else SkipRun(id, b1)
  }

  function CollectExcluded(ids: seq<bytes>, id: Option<bytes>): seq<bytes>
  {
    if id.Some? then ids + [Base64Url.Encode(id.value)] else ids
  }

  function ExcludeStep(ids: seq<bytes>, b: bytes): Run<seq<bytes>>
  {
    match ParseNest(true, ExDescStep, b, None)
    case Stop(e) => Stop(e)
    case More(id, rest) => More(CollectExcluded(ids, id), rest)
  }

  function TopStep(f: Fields, b: bytes): Run<Fields>
  {
    match ReadUnsigned(b)
    case Fail => Stop(BadCbor)
    case Got(key, b1) =>
      if key == 1 then
        match ReadString(false, b1)
        case Fail => Stop(BadCbor)
        case Got(x, b2) => if |x| != 32 then Stop(BadHashLength) else More(f.(hash := Some(x)), b2)
      else if key == 2 then
        match ParseNest(true, RpStep, b1, f.rp) case Stop(e) => Stop(e) case More(r, b2) => More(f.(rp := r), b2)
      else if key == 3 then
        match ParseNest(true, UserStep, b1, f.user) case Stop(e) => Stop(e) case More(u, b2) => More(f.(user := u), b2)
      else if key == 4 then
        match ParseNest(false, AlgsStep, b1, f.algs) case Stop(e) => Stop(e) case More(a, b2) => More(f.(algs := a), b2)
      else if key == 5 then
        match ParseNest(false, ExcludeStep, b1, f.exclude) case Stop(e) => Stop(e) case More(x, b2) => More(f.(exclude := x), b2)
      else SkipRun(f, b1)
  }

  predicate NullOrEmpty(s: Option<bytes>)
  {
    s.None? || s.value == []
  }

  function Finish(f: Fields): Result<Request, Fault>
  {
    if f.hash.None? then Err(MissingHash)
    else if NullOrEmpty(f.rp.id) then Err(MissingRpId)
    else if NullOrEmpty(f.user.handle) then Err(MissingUserId)
    else if NullOrEmpty(f.user.name) then Err(MissingUserName)
    else if f.algs == [] then Err(NoSupportedAlg)
    else Ok(Request(f.hash.value, f.rp.id.value, if NullOrEmpty(f.rp.name) then f.rp.id.value else f.rp.name.value,
                    f.user.handle.value, f.user.name.value,
                    if NullOrEmpty(f.user.display) then f.user.name.value else f.user.display.value, f.exclude, f.algs))
  }

  function Parse(data: bytes): Result<Request, Fault>
  {
    match ParseNest(true, TopStep, data, NO_FIELDS)
    case Stop(e) => Err(e)
    case More(f, _) => Finish(f)
  }

  // -- on items ------------------------------------------------------------------

  function RpD(r: Rp, kv: seq<Item>): Result<Rp, Fault>
  {
    if |kv| != 2 || !IsText(kv[0]) then Err(BadCbor)
    else if kv[0].body == ID then if IsText(kv[1]) then Ok(r.(id := Some(kv[1].body))) else Err(BadCbor)
    else if kv[0].body == NAME then if IsText(kv[1]) then Ok(r.(name := Some(kv[1].body))) else Err(BadCbor)
    else Ok(r)
  }

  function UserD(u: User, kv: seq<Item>): Result<User, Fault>
  {
    if |kv| != 2 || !IsText(kv[0]) then Err(BadCbor)
    else if kv[0].body == ID then if IsBlob(kv[1]) then Ok(u.(handle := Some(Base64Url.Encode(kv[1].body)))) else Err(BadCbor)
    else if kv[0].body == NAME then if IsText(kv[1]) then Ok(u.(name := Some(kv[1].body))) else Err(BadCbor)
    else if kv[0].body == DISPLAY_NAME then if IsText(kv[1]) then Ok(u.(display := Some(kv[1].body))) else Err(BadCbor)
    else Ok(u)
  }

  function ParamD(p: Param, kv: seq<Item>): Result<Param, Fault>
  {
    if |kv| != 2 || !IsText(kv[0]) then Err(BadCbor)
    else if kv[0].body == ALG then
      if !kv[1].Num? || !kv[1].neg then Ok(p)
      else if kv[1].v > INT64_MAX then Err(BadCbor)
      else Ok(p.(alg := Some(-1 - kv[1].v)))
    else if kv[0].body == TYPE then if IsText(kv[1]) then Ok(p.(ty := Some(kv[1].body))) else Err(BadCbor)
    else Ok(p)
  }

  function AlgsD(algs: seq<int>, e: seq<Item>): Result<seq<int>, Fault>
  {
    if |e| != 1 then Err(BadCbor)
    else match DenoteNest(true, ParamD, e[0], NO_PARAM) case Err(x) => Err(x) case Ok(p) => Ok(CollectAlg(algs, p))
  }

  function ExDescD(id: Option<bytes>, kv: seq<Item>): Result<Option<bytes>, Fault>
  {
    if |kv| != 2 || !IsText(kv[0]) then Err(BadCbor)
    else if kv[0].body == ID then if IsBlob(kv[1]) then Ok(Some(kv[1].body)) else Err(BadCbor)
    else Ok(id)
  }

  function ExcludeD(ids: seq<bytes>, e: seq<Item>): Result<seq<bytes>, Fault>
  {
    if |e| != 1 then Err(BadCbor)
    else match DenoteNest(true, ExDescD, e[0], None) case Err(x) => Err(x) case Ok(id) => Ok(CollectExcluded(ids, id))
  }

  function TopD(f: Fields, kv: seq<Item>): Result<Fields, Fault>
  {
    if |kv| != 2 || !IsUint(kv[0]) then Err(BadCbor)
    else if kv[0].v == 1 then
      if !IsBlob(kv[1]) then Err(BadCbor) else if |kv[1].body| != 32 then Err(BadHashLength) else Ok(f.(hash := Some(kv[1].body)))
    else if kv[0].v == 2 then
      match DenoteNest(true, RpD, kv[1], f.rp) case Err(e) => Err(e) case Ok(r) => Ok(f.(rp := r))
    else if kv[0].v == 3 then
      match DenoteNest(true, UserD, kv[1], f.user) case Err(e) => Err(e) case Ok(u) => Ok(f.(user := u))
    else if kv[0].v == 4 then
      match DenoteNest(false, AlgsD, kv[1], f.algs) case Err(e) => Err(e) case Ok(a) => Ok(f.(algs := a))
    else if kv[0].v == 5 then
      match DenoteNest(false, ExcludeD, kv[1], f.exclude) case Err(e) => Err(e) case Ok(x) => Ok(f.(exclude := x))
    else Ok(f)
  }

  /** The request a decoded item stands for. */
  function Denote(it: Item): Result<Request, Fault>
  {
    match DenoteNest(true, TopD, it, NO_FIELDS) case Err(e) => Err(e) case Ok(f) => Finish(f)
  }

  // -- the two meanings agree --------------------------------------------------------

  lemma RpAgrees()
    ensures Agrees(2, RpStep, RpD)
  {
    hide Decode, DecodeN, ReadString, ReadNegative;
    forall acc, b: bytes | |b| <= MAX_ARRAY
      ensures StepAgrees(2, RpStep, RpD, acc, b)
    {
      PairReads(b);
    }
  }

  lemma UserAgrees()
    ensures Agrees(2, UserStep, UserD)
  {
    hide Decode, DecodeN, ReadString, ReadNegative;
    forall acc, b: bytes | |b| <= MAX_ARRAY
      ensures StepAgrees(2, UserStep, UserD, acc, b)
    {
      PairReads(b);
    }
  }

  lemma ParamAgrees()
    ensures Agrees(2, ParamStep, ParamD)
  {
    hide Decode, DecodeN, ReadString, ReadNegative;
    forall acc, b: bytes | |b| <= MAX_ARRAY
      ensures StepAgrees(2, ParamStep, ParamD, acc, b)
    {
      PairReads(b);
    }
  }

  lemma ExDescAgrees()
    ensures Agrees(2, ExDescStep, ExDescD)
  {
    hide Decode, DecodeN, ReadString, ReadNegative;
    forall acc, b: bytes | |b| <= MAX_ARRAY
      ensures StepAgrees(2, ExDescStep, ExDescD, acc, b)
    {
      PairReads(b);
    }
  }

  lemma ArraysAgree()
    ensures Agrees(1, AlgsStep, AlgsD) && Agrees(1, ExcludeStep, ExcludeD)
  {
    ParamAgrees();
    ExDescAgrees();
    forall a, b: bytes | |b| <= MAX_ARRAY
      ensures StepAgrees(1, AlgsStep, AlgsD, a, b)
    {
      PairDecode(b);
      NestAgrees(true, ParamStep, ParamD, b, NO_PARAM);
    }
    forall x, b: bytes | |b| <= MAX_ARRAY
      ensures StepAgrees(1, ExcludeStep, ExcludeD, x, b)
    {
      PairDecode(b);
      NestAgrees(true, ExDescStep, ExDescD, b, None);
    }
  }

  lemma TopStepAgrees(f: Fields, b: bytes)
    requires |b| <= MAX_ARRAY
    ensures StepAgrees(2, TopStep, TopD, f, b)
  {
    hide Decode, DecodeN, ParseNest, DenoteNest, Agrees, ReadString, ReadUnsigned;
    RpAgrees();
    UserAgrees();
    ArraysAgree();
    PairReads(b);
    if Decode(b).Got? {
      var b1 := Decode(b).rest;
      NestAgrees(true, RpStep, RpD, b1, f.rp);
      NestAgrees(true, UserStep, UserD, b1, f.user);
      NestAgrees(false, AlgsStep, AlgsD, b1, f.algs);
      NestAgrees(false, ExcludeStep, ExcludeD, b1, f.exclude);
    }
  }

  /**
   The parser succeeds on bytes exactly when they begin with one complete item that stands for a request;
   whatever follows that item is ignored, and on a complete item the fault is the item's own.
   */
  lemma ParseMeaning(data: bytes)
    requires |data| <= MAX_ARRAY
    ensures match Decode(data)
            case Fail => Parse(data).Err?
            case Got(it, _) => Parse(data) == Denote(it)
  {
    hide TopStep, TopD, Decode, ParseNest, DenoteNest;
    forall f, b: bytes | |b| <= MAX_ARRAY
      ensures StepAgrees(2, TopStep, TopD, f, b)
    {
      TopStepAgrees(f, b);
    }
    NestAgrees(true, TopStep, TopD, data, NO_FIELDS);
  }

  // -- the loops, each with its body ----------------------------------------------------

  method ReadRpField(reader: CborReader, rp: Rp) returns (r: Result<Rp, Fault>)
    requires reader.Valid()
    modifies reader
    ensures Ran(reader, old(reader.pos), RpStep(rp, old(reader.Rest())), r)
  {
    hide ReadString, Decode;
    var field :- reader.ReadTextString();
    if field == ID {
      var x :- reader.ReadTextString();
      return Ok(rp.(id := Some(x)));
    } else if field == NAME {
      var x :- reader.ReadTextString();
      return Ok(rp.(name := Some(x)));
    }
    var _ :- reader.SkipValue();
    return Ok(rp);
  }

  method ReadRp(reader: CborReader, rp: Rp) returns (r: Result<Rp, Fault>)
    requires reader.Valid()
    modifies reader
    ensures Ran(reader, old(reader.pos), ParseNest(true, RpStep, old(reader.Rest()), rp), r)
  {
    hide RpStep;
    var rpCount :- reader.ReadMapHeader();
    var acc := rp;
    ghost var b := reader.Rest();
    for k := 0 to rpCount
      invariant reader.Valid() && old(reader.pos) <= reader.pos
      invariant Fold(RpStep, b, rpCount, rp) == Fold(RpStep, reader.Rest(), rpCount - k, acc)
    {
      FoldNext(RpStep, reader.Rest(), rpCount - k, acc);
      acc :- ReadRpField(reader, acc);
    }
    return Ok(acc);
  }

  method ReadUserField(reader: CborReader, user: User) returns (r: Result<User, Fault>)
    requires reader.Valid()
    modifies reader
    ensures Ran(reader, old(reader.pos), UserStep(user, old(reader.Rest())), r)
  {
    hide ReadString, Decode;
    var field :- reader.ReadTextString();
    if field == ID {
      var x :- reader.ReadByteString();
      return Ok(user.(handle := Some(Base64Url.Encode(x))));
    } else if field == NAME {
      var x :- reader.ReadTextString();
      return Ok(user.(name := Some(x)));
    } else if field == DISPLAY_NAME {
      var x :- reader.ReadTextString();
      return Ok(user.(display := Some(x)));
    }
    var _ :- reader.SkipValue();
    return Ok(user);
  }

  method ReadUser(reader: CborReader, user: User) returns (r: Result<User, Fault>)
    requires reader.Valid()
    modifies reader
    ensures Ran(reader, old(reader.pos), ParseNest(true, UserStep, old(reader.Rest()), user), r)
  {
    hide UserStep;
    var userCount :- reader.ReadMapHeader();
    var acc := user;
    ghost var b := reader.Rest();
    for k := 0 to userCount
      invariant reader.Valid() && old(reader.pos) <= reader.pos
      invariant Fold(UserStep, b, userCount, user) == Fold(UserStep, reader.Rest(), userCount - k, acc)
    {
      FoldNext(UserStep, reader.Rest(), userCount - k, acc);
      acc :- ReadUserField(reader, acc);
    }
    return Ok(acc);
  }

  method ReadParamField(reader: CborReader, p: Param) returns (r: Result<Param, Fault>)
    requires reader.Valid()
    modifies reader
    ensures Ran(reader, old(reader.pos), ParamStep(p, old(reader.Rest())), r)
  {
    hide ReadString, ReadNegative, Decode;
    var field :- reader.ReadTextString();
    if field == ALG {
      var mt :- reader.PeekMajorType();
      if mt == 1 {
        var x :- reader.ReadNegativeInt();
        return Ok(p.(alg := Some(x)));
      }
    } else if field == TYPE {
      var x :- reader.ReadTextString();
      return Ok(p.(ty := Some(x)));
    }
    var _ :- reader.SkipValue();
    return Ok(p);
  }

  method ReadParam(reader: CborReader) returns (r: Result<Param, Fault>)
    requires reader.Valid()
    modifies reader
    ensures Ran(reader, old(reader.pos), ParseNest(true, ParamStep, old(reader.Rest()), NO_PARAM), r)
  {
    hide ParamStep;
    var paramCount :- reader.ReadMapHeader();
    var acc := NO_PARAM;
    ghost var b := reader.Rest();
    for p := 0 to paramCount
      invariant reader.Valid() && old(reader.pos) <= reader.pos
      invariant Fold(ParamStep, b, paramCount, NO_PARAM) == Fold(ParamStep, reader.Rest(), paramCount - p, acc)
    {
      FoldNext(ParamStep, reader.Rest(), paramCount - p, acc);
      acc :- ReadParamField(reader, acc);
    }
    return Ok(acc);
  }

  method ReadAlgs(reader: CborReader, algs: seq<int>) returns (r: Result<seq<int>, Fault>)
    requires reader.Valid()
    modifies reader
    ensures Ran(reader, old(reader.pos), ParseNest(false, AlgsStep, old(reader.Rest()), algs), r)
  {
    hide ParamStep;
    var arrCount :- reader.ReadArrayHeader();
    var requestedAlgs := algs;
    ghost var b := reader.Rest();
    for k := 0 to arrCount
      invariant reader.Valid() && old(reader.pos) <= reader.pos
      invariant Fold(AlgsStep, b, arrCount, algs) == Fold(AlgsStep, reader.Rest(), arrCount - k, requestedAlgs)
    {
      FoldNext(AlgsStep, reader.Rest(), arrCount - k, requestedAlgs);
      var p :- ReadParam(reader);
      if p.ty == Some(PUBLIC_KEY) && (p.alg == Some(ES256) || p.alg == Some(RS256)) {
        requestedAlgs := requestedAlgs + [p.alg.value];
      }
    }
    return Ok(requestedAlgs);
  }

  method ReadExcludedField(reader: CborReader, id: Option<bytes>) returns (r: Result<Option<bytes>, Fault>)
    requires reader.Valid()
    modifies reader
    ensures Ran(reader, old(reader.pos), ExDescStep(id, old(reader.Rest())), r)
  {
    hide ReadString, Decode;
    var field :- reader.ReadTextString();
    if field == ID {
      var x :- reader.ReadByteString();
      return Ok(Some(x));
    }
    var _ :- reader.SkipValue();
    return Ok(id);
  }

  method ReadExcluded(reader: CborReader) returns (r: Result<Option<bytes>, Fault>)
    requires reader.Valid()
    modifies reader
    ensures Ran(reader, old(reader.pos), ParseNest(true, ExDescStep, old(reader.Rest()), None), r)
  {
    hide ExDescStep;
    var descCount :- reader.ReadMapHeader();
    var descId: Option<bytes> := None;
    ghost var b := reader.Rest();
    for p := 0 to descCount
      invariant reader.Valid() && old(reader.pos) <= reader.pos
      invariant Fold(ExDescStep, b, descCount, None) == Fold(ExDescStep, reader.Rest(), descCount - p, descId)
    {
      FoldNext(ExDescStep, reader.Rest(), descCount - p, descId);
      descId :- ReadExcludedField(reader, descId);
    }
    return Ok(descId);
  }

  method ReadExcludeList(reader: CborReader, excluded: seq<bytes>) returns (r: Result<seq<bytes>, Fault>)
    requires reader.Valid()
    modifies reader
    ensures Ran(reader, old(reader.pos), ParseNest(false, ExcludeStep, old(reader.Rest()), excluded), r)
  {
    hide ExDescStep;
    var exCount :- reader.ReadArrayHeader();
    var excludeList := excluded;
    ghost var b := reader.Rest();
    for k := 0 to exCount
      invariant reader.Valid() && old(reader.pos) <= reader.pos
      invariant Fold(ExcludeStep, b, exCount, excluded) == Fold(ExcludeStep, reader.Rest(), exCount - k, excludeList)
    {
      FoldNext(ExcludeStep, reader.Rest(), exCount - k, excludeList);
      var descId :- ReadExcluded(reader);
      if descId.Some? {
        excludeList := excludeList + [Base64Url.Encode(descId.value)];
      }
    }
    return Ok(excludeList);
  }

  method ReadTopField(reader: CborReader, f: Fields) returns (r: Result<Fields, Fault>)
    requires reader.Valid()
    modifies reader
    ensures Ran(reader, old(reader.pos), TopStep(f, old(reader.Rest())), r)
  {
    hide ReadString, ReadUnsigned, Decode, ParseNest;
    var key :- reader.ReadUnsignedInt();
    match key {
      case 1 =>
        var x :- reader.ReadByteString();
        if |x| != 32 {
          return Err(BadHashLength);
        }
        return Ok(f.(hash := Some(x)));
      case 2 =>
        var rp :- ReadRp(reader, f.rp);
        return Ok(f.(rp := rp));
      case 3 =>
        var user :- ReadUser(reader, f.user);
        return Ok(f.(user := user));
      case 4 =>
        var algs :- ReadAlgs(reader, f.algs);
        return Ok(f.(algs := algs));
      case 5 =>
        var ids :- ReadExcludeList(reader, f.exclude);
        return Ok(f.(exclude := ids));
      case _ =>
        var _ :- reader.SkipValue();
        return Ok(f);
    }
  }

  method ReadFields(reader: CborReader) returns (r: Result<Fields, Fault>)
    requires reader.Valid()
    modifies reader
    ensures Ran(reader, old(reader.pos), ParseNest(true, TopStep, old(reader.Rest()), NO_FIELDS), r)
  {
    hide TopStep;
    var mapCount :- reader.ReadMapHeader();
    var f := NO_FIELDS;
    ghost var b := reader.Rest();
    for i := 0 to mapCount
      invariant reader.Valid() && old(reader.pos) <= reader.pos
      invariant Fold(TopStep, b, mapCount, NO_FIELDS) == Fold(TopStep, reader.Rest(), mapCount - i, f)
    {
      FoldNext(TopStep, reader.Rest(), mapCount - i, f);
      f :- ReadTopField(reader, f);
    }
    return Ok(f);
  }

  method ParseMakeCredentialCbor(data: bytes) returns (r: Result<Request, Fault>)
    requires |data| <= MAX_ARRAY
    ensures r == Parse(data)
  {
    hide ParseNest;
    var reader := new CborReader(data);
    var f :- ReadFields(reader);
    if f.hash.None? {
      return Err(MissingHash);
    }
    if NullOrEmpty(f.rp.id) {
      return Err(MissingRpId);
    }
    if NullOrEmpty(f.user.handle) {
      return Err(MissingUserId);
    }
    if NullOrEmpty(f.user.name) {
      return Err(MissingUserName);
    }
    if f.algs == [] {
      return Err(NoSupportedAlg);
    }
    var rpName := if NullOrEmpty(f.rp.name) then f.rp.id.value else f.rp.name.value;
    var display := if NullOrEmpty(f.user.display) then f.user.name.value else f.user.display.value;
    return Ok(Request(f.hash.value, f.rp.id.value, rpName, f.user.handle.value, f.user.name.value, display, f.exclude, f.algs));
  }
}
