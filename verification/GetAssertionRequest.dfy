/** ParseGetAssertionCbor of Ipc/VaultHandler.cs: the loops, their byte-level meaning and their item-level meaning. */
module GetAssertionRequest {
  import opened Prelude
  import opened CborSyntax
  import opened CborDecoding
  import opened RequestFold

  const UP: bytes := [0x75, 0x70]
  const UV: bytes := [0x75, 0x76]

  datatype Request = Request(rpId: bytes, clientDataHash: bytes, allowList: seq<bytes>, up: bool, uv: bool)

  datatype Fields = Fields(rpId: Option<bytes>, hash: Option<bytes>, allow: seq<bytes>, opts: Options)
  datatype Options = Options(up: bool, uv: bool)
  datatype Desc = Desc(id: Option<bytes>, ty: Option<bytes>)

  const NO_DESC := Desc(None, None)
  const NO_FIELDS := Fields(None, None, [], Options(true, false))

  // -- on bytes ------------------------------------------------------------------

  function DescStep(d: Desc, b: bytes): Run<Desc>
  {
    match ReadString(true, b)
    case Fail => Stop(BadCbor)
    case Got(field, b1) =>
      if field == ID then
        match ReadString(false, b1) case Fail => Stop(BadCbor) case Got(x, b2) => More(d.(id := Some(x)), b2)
      else if field == TYPE then
        match ReadString(true, b1) case Fail => Stop(BadCbor) case Got(x, b2) => More(d.(ty := Some(x)), b2)
      else SkipRun(d, b1)
  }

  function Collect(ids: seq<bytes>, d: Desc): seq<bytes>
  {
    if d.id.Some? && d.ty == Some(PUBLIC_KEY) then ids + [d.id.value] else ids
  }

  function AllowStep(ids: seq<bytes>, b: bytes): Run<seq<bytes>>
  {
    match ParseNest(true, DescStep, b, NO_DESC)
    case Stop(e) => Stop(e)
    case More(d, rest) => More(Collect(ids, d), rest)
  }

  function OptionStep(o: Options, b: bytes): Run<Options>
  {
    match ReadString(true, b)
    case Fail => Stop(BadCbor)
    case Got(field, b1) =>
      if field == UP then
        match ReadFlag(b1) case Fail => Stop(BadCbor) case Got(x, b2) => More(o.(up := x), b2)
      else if field == UV then
        match ReadFlag(b1) case Fail => Stop(BadCbor) case Got(x, b2) => More(o.(uv := x), b2)
      else SkipRun(o, b1)
  }

  function TopStep(f: Fields, b: bytes): Run<Fields>
  {
    match ReadUnsigned(b)
    case Fail => Stop(BadCbor)
    case Got(key, b1) =>
      if key == 1 then
        match ReadString(true, b1) case Fail => Stop(BadCbor) case Got(x, b2) => More(f.(rpId := Some(x)), b2)
      else if key == 2 then
        match ReadString(false, b1)
        case Fail => Stop(BadCbor)
        case Got(x, b2) => if |x| != 32 then Stop(BadHashLength) else More(f.(hash := Some(x)), b2)
      else if key == 3 then
        match ParseNest(false, AllowStep, b1, f.allow) case Stop(e) => Stop(e) case More(ids, b2) => More(f.(allow := ids), b2)
      else if key == 5 then
        match ParseNest(true, OptionStep, b1, f.opts) case Stop(e) => Stop(e) case More(o, b2) => More(f.(opts := o), b2)
      else SkipRun(f, b1)
  }

  function Finish(f: Fields): Result<Request, Fault>
  {
    if f.rpId.None? || f.rpId.value == [] then Err(MissingRpId)
    else if f.hash.None? then Err(MissingHash)
    else Ok(Request(f.rpId.value, f.hash.value, f.allow, f.opts.up, f.opts.uv))
  }

  function Parse(data: bytes): Result<Request, Fault>
  {
    match ParseNest(true, TopStep, data, NO_FIELDS)
    case Stop(e) => Err(e)
    case More(f, _) => Finish(f)
  }

  // -- on items ------------------------------------------------------------------

  predicate IsFlag(it: Item) { it.Simple? && 20 <= it.ai <= 21 }

  function DescD(d: Desc, kv: seq<Item>): Result<Desc, Fault>
  {
    if |kv| != 2 || !IsText(kv[0]) then Err(BadCbor)
    else if kv[0].body == ID then if IsBlob(kv[1]) then Ok(d.(id := Some(kv[1].body))) else Err(BadCbor)
    else if kv[0].body == TYPE then if IsText(kv[1]) then Ok(d.(ty := Some(kv[1].body))) else Err(BadCbor)
    else Ok(d)
  }

  function AllowD(ids: seq<bytes>, e: seq<Item>): Result<seq<bytes>, Fault>
  {
    if |e| != 1 then Err(BadCbor)
    else match DenoteNest(true, DescD, e[0], NO_DESC) case Err(x) => Err(x) case Ok(d) => Ok(Collect(ids, d))
  }

  function OptionD(o: Options, kv: seq<Item>): Result<Options, Fault>
  {
    if |kv| != 2 || !IsText(kv[0]) then Err(BadCbor)
    else if kv[0].body == UP then if IsFlag(kv[1]) then Ok(o.(up := kv[1].ai == 21)) else Err(BadCbor)
    else if kv[0].body == UV then if IsFlag(kv[1]) then Ok(o.(uv := kv[1].ai == 21)) else Err(BadCbor)
    else Ok(o)
  }

  function TopD(f: Fields, kv: seq<Item>): Result<Fields, Fault>
  {
    if |kv| != 2 || !IsUint(kv[0]) then Err(BadCbor)
    else if kv[0].v == 1 then if IsText(kv[1]) then Ok(f.(rpId := Some(kv[1].body))) else Err(BadCbor)
    else if kv[0].v == 2 then
      if !IsBlob(kv[1]) then Err(BadCbor) else if |kv[1].body| != 32 then Err(BadHashLength) else Ok(f.(hash := Some(kv[1].body)))
    else if kv[0].v == 3 then
      match DenoteNest(false, AllowD, kv[1], f.allow) case Err(e) => Err(e) case Ok(ids) => Ok(f.(allow := ids))
    else if kv[0].v == 5 then
      match DenoteNest(true, OptionD, kv[1], f.opts) case Err(e) => Err(e) case Ok(o) => Ok(f.(opts := o))
    else Ok(f)
  }

  /** The request a decoded item stands for. */
  function Denote(it: Item): Result<Request, Fault>
  {
    match DenoteNest(true, TopD, it, NO_FIELDS) case Err(e) => Err(e) case Ok(f) => Finish(f)
  }

  // -- the two meanings agree --------------------------------------------------------

  lemma DescAgrees()
    ensures Agrees(2, DescStep, DescD)
  {
    hide Decode, DecodeN, ReadString, ReadFlag;
    forall d, b: bytes | |b| <= MAX_ARRAY
      ensures StepAgrees(2, DescStep, DescD, d, b)
    {
      PairReads(b);
    }
  }

  lemma OptionAgrees()
    ensures Agrees(2, OptionStep, OptionD)
  {
    hide Decode, DecodeN, ReadString, ReadFlag;
    forall o, b: bytes | |b| <= MAX_ARRAY
      ensures StepAgrees(2, OptionStep, OptionD, o, b)
    {
      PairReads(b);
    }
  }

  lemma AllowAgrees()
    ensures Agrees(1, AllowStep, AllowD)
  {
    DescAgrees();
    forall ids, b: bytes | |b| <= MAX_ARRAY
      ensures StepAgrees(1, AllowStep, AllowD, ids, b)
    {
      PairDecode(b);
      NestAgrees(true, DescStep, DescD, b, NO_DESC);
    }
  }

  lemma TopStepAgrees(f: Fields, b: bytes)
    requires |b| <= MAX_ARRAY
    ensures StepAgrees(2, TopStep, TopD, f, b)
  {
    hide Decode, DecodeN, ParseNest, DenoteNest, Agrees, ReadString, ReadUnsigned;
    AllowAgrees();
    OptionAgrees();
    PairReads(b);
    if Decode(b).Got? {
      var b1 := Decode(b).rest;
      NestAgrees(false, AllowStep, AllowD, b1, f.allow);
      NestAgrees(true, OptionStep, OptionD, b1, f.opts);
    }
  }

  /**
   The parser succeeds on bytes exactly when they begin with one complete item that stands for a request;
   whatever follows that item is ignored, and on a complete item the fault is the item's own.
   */
  lemma ParseMeaning(data: bytes)
    requires |data| <= MAX_ARRAY
    ensures match Decode(data)
            case Fail => Parse(data).Err?
            case Got(it, _) => Parse(data) == Denote(it)
  {
    hide TopStep, TopD, Decode, ParseNest, DenoteNest;
    forall f, b: bytes | |b| <= MAX_ARRAY
      ensures StepAgrees(2, TopStep, TopD, f, b)
    {
      TopStepAgrees(f, b);
    }
    NestAgrees(true, TopStep, TopD, data, NO_FIELDS);
  }

  // -- the loops, each with its body ----------------------------------------------------

  method ReadDescField(reader: CborReader, d: Desc) returns (r: Result<Desc, Fault>)
    requires reader.Valid()
    modifies reader
    ensures Ran(reader, old(reader.pos), DescStep(d, old(reader.Rest())), r)
  {
    hide ReadString, ReadFlag, Decode;
    var field :- reader.ReadTextString();
    if field == ID {
      var x :- reader.ReadByteString();
      return Ok(d.(id := Some(x)));
    } else if field == TYPE {
      var x :- reader.ReadTextString();
      return Ok(d.(ty := Some(x)));
    }
    var _ :- reader.SkipValue();
    return Ok(d);
  }

  method ReadDescriptor(reader: CborReader) returns (r: Result<Desc, Fault>)
    requires reader.Valid()
    modifies reader
    ensures Ran(reader, old(reader.pos), ParseNest(true, DescStep, old(reader.Rest()), NO_DESC), r)
  {
    hide DescStep;
    var descCount :- reader.ReadMapHeader();
    var d := NO_DESC;
    ghost var b, d0 := reader.Rest(), d;
    for p := 0 to descCount
      invariant reader.Valid() && old(reader.pos) <= reader.pos
      invariant Fold(DescStep, b, descCount, d0) == Fold(DescStep, reader.Rest(), descCount - p, d)
    {
      FoldNext(DescStep, reader.Rest(), descCount - p, d);
      d :- ReadDescField(reader, d);
    }
    return Ok(d);
  }

  method ReadAllowList(reader: CborReader, allowList: seq<bytes>) returns (r: Result<seq<bytes>, Fault>)
    requires reader.Valid()
    modifies reader
    ensures Ran(reader, old(reader.pos), ParseNest(false, AllowStep, old(reader.Rest()), allowList), r)
  {
    hide DescStep;
    var arrCount :- reader.ReadArrayHeader();
    var list := allowList;
    ghost var b := reader.Rest();
    for k := 0 to arrCount
      invariant reader.Valid() && old(reader.pos) <= reader.pos
      invariant Fold(AllowStep, b, arrCount, allowList) == Fold(AllowStep, reader.Rest(), arrCount - k, list)
    {
      FoldNext(AllowStep, reader.Rest(), arrCount - k, list);
      var d :- ReadDescriptor(reader);
      if d.id.Some? && d.ty == Some(PUBLIC_KEY) {
        list := list + [d.id.value];
      }
    }
    return Ok(list);
  }

  method ReadOption(reader: CborReader, o: Options) returns (r: Result<Options, Fault>)
    requires reader.Valid()
    modifies reader
    ensures Ran(reader, old(reader.pos), OptionStep(o, old(reader.Rest())), r)
  {
    hide ReadString, ReadFlag, Decode;
    var field :- reader.ReadTextString();
    if field == UP {
      var x :- reader.ReadBool();
      return Ok(o.(up := x));
    } else if field == UV {
      var x :- reader.ReadBool();
      return Ok(o.(uv := x));
    }
    var _ :- reader.SkipValue();
    return Ok(o);
  }

  method ReadOptions(reader: CborReader, opts: Options) returns (r: Result<Options, Fault>)
    requires reader.Valid()
    modifies reader
    ensures Ran(reader, old(reader.pos), ParseNest(true, OptionStep, old(reader.Rest()), opts), r)
  {
    hide OptionStep;
    var optCount :- reader.ReadMapHeader();
    var o := opts;
    ghost var b := reader.Rest();
    for k := 0 to optCount
      invariant reader.Valid() && old(reader.pos) <= reader.pos
      invariant Fold(OptionStep, b, optCount, opts) == Fold(OptionStep, reader.Rest(), optCount - k, o)
    {
      FoldNext(OptionStep, reader.Rest(), optCount - k, o);
      o :- ReadOption(reader, o);
    }
    return Ok(o);
  }

  method ReadTopField(reader: CborReader, f: Fields) returns (r: Result<Fields, Fault>)
    requires reader.Valid()
    modifies reader
    ensures Ran(reader, old(reader.pos), TopStep(f, old(reader.Rest())), r)
  {
    hide ReadString, ReadUnsigned, Decode, ParseNest;
    var key :- reader.ReadUnsignedInt();
    match key {
      case 1 =>
        var x :- reader.ReadTextString();
        return Ok(f.(rpId := Some(x)));
      case 2 =>
        var x :- reader.ReadByteString();
        if |x| != 32 {
          return Err(BadHashLength);
        }
        return Ok(f.(hash := Some(x)));
      case 3 =>
        var ids :- ReadAllowList(reader, f.allow);
        return Ok(f.(allow := ids));
      case 5 =>
        var o :- ReadOptions(reader, f.opts);
        return Ok(f.(opts := o));
      case _ =>
        var _ :- reader.SkipValue();
        return Ok(f);
    }
  }

  method ReadFields(reader: CborReader) returns (r: Result<Fields, Fault>)
    requires reader.Valid()
    modifies reader
    ensures Ran(reader, old(reader.pos), ParseNest(true, TopStep, old(reader.Rest()), NO_FIELDS), r)
  {
    hide TopStep;
    var mapCount :- reader.ReadMapHeader();
    var f := NO_FIELDS;
    ghost var b := reader.Rest();
    for i := 0 to mapCount
      invariant reader.Valid() && old(reader.pos) <= reader.pos
      invariant Fold(TopStep, b, mapCount, NO_FIELDS) == Fold(TopStep, reader.Rest(), mapCount - i, f)
    {
      FoldNext(TopStep, reader.Rest(), mapCount - i, f);
      f :- ReadTopField(reader, f);
    }
    return Ok(f);
  }

  method ParseGetAssertionCbor(data: bytes) returns (r: Result<Request, Fault>)
    requires |data| <= MAX_ARRAY
    ensures r == Parse(data)
  {
    var reader := new CborReader(data);
    var f :- ReadFields(reader);
    if f.rpId.None? || f.rpId.value == [] {
      return Err(MissingRpId);
    }
    if f.hash.None? {
      return Err(MissingHash);
    }
    return Ok(Request(f.rpId.value, f.hash.value, f.allow, f.opts.up, f.opts.uv));
  }
}
