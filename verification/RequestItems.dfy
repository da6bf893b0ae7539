/** One canonical request map for every request the parsers of Ipc/VaultHandler.cs can return, and for no other value. */
module RequestItems {
  import opened Prelude
  import opened CborSyntax
  import opened CborEncoding
  import opened CanonicalItems
  import opened RequestFold
  import Base64Url
  import GA = GetAssertionRequest
  import GAM = GetAssertionMeaning
  import MC = MakeCredentialRequest
  import MCM = MakeCredentialMeaning

  // -- maps from keys to items -----------------------------------------------------------------

  type Named = (Key, Item)

  function KeyItem(k: Key): Item
  {
    match k case U(n) => UInt(n) case N(n) => NInt(-1 - n) case T(s) => Text(s)
  }

  function Keyed(fs: seq<Named>): (ps: seq<Pair>)
    ensures |ps| == |fs| && forall i :: 0 <= i < |fs| ==> ps[i] == (KeyItem(fs[i].0), fs[i].1)
  {
    seq(|fs|, i requires 0 <= i < |fs| => (KeyItem(fs[i].0), fs[i].1))
  }

  function Record(fs: seq<Named>): (it: Item)
    ensures it.Nest? && it.isMap && |it.kids| == 2 * |fs|
  {
    MapOf(Keyed(fs))
  }

  function ListOf(items: seq<Item>): Item
  {
    Nest(false, ShortW(|items|), items)
  }

  ghost predicate Different(fs: seq<Named>)
  {
    forall i, j :: 0 <= i < j < |fs| ==> fs[i].0 != fs[j].0
  }

  lemma KeyItemIs(k: Key)
    ensures forall key :: IsKey(KeyItem(k), key) <==> key == k
  {}

  lemma RecordAt(fs: seq<Named>, i: nat)
    requires i < |fs|
    ensures |Record(fs).kids| / 2 == |fs|
    ensures KeyAt(Record(fs).kids, i) == KeyItem(fs[i].0) && ValAt(Record(fs).kids, i) == fs[i].1
  {
    FlatAt(Keyed(fs), i);
  }

  lemma RecordDistinct(fs: seq<Named>)
    requires Different(fs)
    ensures DistinctFields(Record(fs).kids)
  {
    hide KeyItem, IsKey, Record;
    var kids := Record(fs).kids;
    forall i, j, key | 0 <= i < j < |kids| / 2 && IsKey(KeyAt(kids, i), key)
      ensures !IsKey(KeyAt(kids, j), key)
    {
      RecordAt(fs, i);
      RecordAt(fs, j);
      KeyItemIs(fs[i].0);
      KeyItemIs(fs[j].0);
    }
  }

  /** What a record holds under each of its keys. */
  lemma RecordField(fs: seq<Named>, i: nat)
    requires Different(fs) && i < |fs|
    ensures Field(Record(fs).kids, fs[i].0) == Some(fs[i].1)
  {
    hide KeyItem, IsKey, Record, Field, DistinctFields;
    RecordDistinct(fs);
    RecordAt(fs, i);
    KeyItemIs(fs[i].0);
    FieldIsPair(Record(fs).kids, fs[i].0);
  }

  lemma RecordAbsent(fs: seq<Named>, key: Key)
    requires forall i :: 0 <= i < |fs| ==> fs[i].0 != key
    ensures Field(Record(fs).kids, key) == None
  {
    hide KeyItem, IsKey, Record, Field;
    forall i | 0 <= i < |Record(fs).kids| / 2
      ensures !IsKey(KeyAt(Record(fs).kids, i), key)
    {
      RecordAt(fs, i);
      KeyItemIs(fs[i].0);
    }
    LastAbsent(key, Record(fs).kids, None);
    FieldIsLast(Record(fs).kids, key);
  }

  lemma FieldIsLast(kids: seq<Item>, key: Key)
    ensures Field(kids, key) == LastOr(key, kids, None)
  {}

  lemma RecordWF(fs: seq<Named>)
    requires |fs| <= UINT64_MAX && forall i :: 0 <= i < |fs| ==> WF(KeyItem(fs[i].0)) && WF(fs[i].1)
    ensures WF(Record(fs))
  {
    hide WF, KeyItem;
    FlatWF(Keyed(fs));
    ShortestHead(|fs|, 0);
    MapWF(Keyed(fs));
  }

  lemma MapWF(ps: seq<Pair>)
    requires AllWF(Flat(ps)) && HeadFits(ShortW(|ps|), |ps|)
    ensures WF(MapOf(ps))
  {
    hide HeadFits, Flat, AllWF, ShortW;
  }

  lemma {:induction false} AllWFFrom(items: seq<Item>)
    requires forall i :: 0 <= i < |items| ==> WF(items[i])
    ensures AllWF(items)
  {
    hide WF;
    if items != [] { AllWFFrom(items[1..]); }
  }

  lemma ListWF(items: seq<Item>)
    requires |items| <= UINT64_MAX && forall i :: 0 <= i < |items| ==> WF(items[i])
    ensures WF(ListOf(items))
  {
    AllWFFrom(items);
    ShortestHead(|items|, 0);
  }

  // -- how long an encoding can be ---------------------------------------------------------------

  /** At most nine bytes of header for each item, and the strings. */
  function Weight(it: Item): nat
    decreases it, 0
  {
    match it
    case Str(_, _, body) => 9 + |body|
    case Nest(_, _, kids) => 9 + Weights(kids)
    case _ => 9
  }

  function Weights(items: seq<Item>): nat
    decreases items, 1
  {
    if items == [] then 0 else Weight(items[0]) + Weights(items[1..])
  }

  lemma {:induction false} EncWithinWeight(it: Item)
    requires WF(it)
    ensures |Enc(it)| <= Weight(it)
    decreases it, 0
  {
    hide ToBE, Pow256;
    if it.Nest? { EncAllWithinWeights(it.kids); }
  }

  lemma {:induction false} EncAllWithinWeights(items: seq<Item>)
    requires AllWF(items)
    ensures |EncAll(items)| <= Weights(items)
    decreases items, 1
  {
    hide Enc, WF;
    if items != [] {
      EncWithinWeight(items[0]);
      EncAllWithinWeights(items[1..]);
    }
  }

  lemma {:induction false} WeightsOfFlat(ps: seq<Pair>)
    ensures Weights(Flat(ps)) == PairWeights(ps)
  {
    hide Weight;
    if ps != [] {
      WeightsOfFlat(ps[1..]);
      var kids := [ps[0].0, ps[0].1] + Flat(ps[1..]);
      assert kids[1..] == [ps[0].1] + Flat(ps[1..]) && kids[1..][1..] == Flat(ps[1..]);
    }
  }

  function PairWeights(ps: seq<Pair>): nat
  {
    if ps == [] then 0 else Weight(ps[0].0) + Weight(ps[0].1) + PairWeights(ps[1..])
  }

  lemma {:induction false} WeightsBound(items: seq<Item>, b: nat)
    requires forall i :: 0 <= i < |items| ==> Weight(items[i]) <= b
    ensures Weights(items) <= |items| * b
  {
    hide Weight;
    if items != [] {
      WeightsBound(items[1..], b);
      assert |items| * b == |items[1..]| * b + b;
    }
  }

  lemma {:induction false} PairWeightsBound(ps: seq<Pair>, b: nat)
    requires forall i :: 0 <= i < |ps| ==> Weight(ps[i].0) + Weight(ps[i].1) <= b
    ensures PairWeights(ps) <= |ps| * b
  {
    hide Weight;
    if ps != [] {
      PairWeightsBound(ps[1..], b);
      assert |ps| * b == |ps[1..]| * b + b;
    }
  }

  lemma MapWeight(ps: seq<Pair>, b: nat)
    requires forall i :: 0 <= i < |ps| ==> Weight(ps[i].0) + Weight(ps[i].1) <= b
    ensures Weight(MapOf(ps)) <= 9 + |ps| * b
  {
    hide Flat, Weights;
    WeightsOfFlat(ps);
    PairWeightsBound(ps, b);
    MapWeights(ps);
  }

  lemma MapWeights(ps: seq<Pair>)
    ensures Weight(MapOf(ps)) == 9 + Weights(Flat(ps))
  {
    hide Flat;
  }

  lemma RecordWeight(fs: seq<Named>, b: nat)
    requires forall i :: 0 <= i < |fs| ==> Weight(KeyItem(fs[i].0)) + Weight(fs[i].1) <= b
    ensures Weight(Record(fs)) <= 9 + |fs| * b
  {
    hide Weight, KeyItem;
    MapWeight(Keyed(fs), b);
  }

  lemma ListWeight(items: seq<Item>, b: nat)
    requires forall i :: 0 <= i < |items| ==> Weight(items[i]) <= b
    ensures Weight(ListOf(items)) <= 9 + |items| * b
  {
    WeightsBound(items, b);
  }

  // -- parts of both requests ----------------------------------------------------------------------

  function Flag(b: bool): Item
  {
    Simple(if b then 21 else 20)
  }

  function DescriptorFields(id: bytes): seq<Named>
  {
    [(T(ID), Blob(id)), (T(TYPE), Text(PUBLIC_KEY))]
  }

  function Descriptors(ids: seq<bytes>): (items: seq<Item>)
    ensures |items| == |ids| && forall i :: 0 <= i < |ids| ==> items[i] == Record(DescriptorFields(ids[i]))
  {
    seq(|ids|, i requires 0 <= i < |ids| => Record(DescriptorFields(ids[i])))
  }

  lemma DescriptorDiffers(id: bytes)
    ensures Different(DescriptorFields(id))
  {}

  lemma DescriptorReads(id: bytes)
    ensures Field(Record(DescriptorFields(id)).kids, T(ID)) == Some(Blob(id))
    ensures Field(Record(DescriptorFields(id)).kids, T(TYPE)) == Some(Text(PUBLIC_KEY))
    ensures |Record(DescriptorFields(id)).kids| / 2 == 2
    ensures KeyAt(Record(DescriptorFields(id)).kids, 0) == Text(ID) && ValAt(Record(DescriptorFields(id)).kids, 0) == Blob(id)
    ensures KeyAt(Record(DescriptorFields(id)).kids, 1) == Text(TYPE) && ValAt(Record(DescriptorFields(id)).kids, 1) == Text(PUBLIC_KEY)
  {
    hide Record, Field;
    var fs := DescriptorFields(id);
    DescriptorDiffers(id);
    RecordField(fs, 0);
    RecordField(fs, 1);
    RecordAt(fs, 0);
    RecordAt(fs, 1);
  }

  ghost predicate Short(s: bytes)
  {
    |s| <= UINT64_MAX
  }

  lemma TextWF(s: bytes)
    requires Short(s)
    ensures WF(Text(s)) && WF(Blob(s)) && WF(KeyItem(T(s)))
  {
    Leaf(0, -1, s);
  }

  lemma NumWF(v: nat)
    requires v <= UINT64_MAX
    ensures WF(KeyItem(U(v)))
  {
    Leaf(v, -1, []);
  }

  lemma DescriptorWF(id: bytes)
    requires Short(id)
    ensures WF(Record(DescriptorFields(id)))
  {
    hide WF;
    TextWF(id);
    TextWF(ID);
    TextWF(TYPE);
    TextWF(PUBLIC_KEY);
    RecordWF(DescriptorFields(id));
  }

  lemma DescriptorsWF(ids: seq<bytes>)
    requires |ids| <= UINT64_MAX && forall i :: 0 <= i < |ids| ==> Short(ids[i])
    ensures WF(ListOf(Descriptors(ids)))
  {
    hide WF, Record;
    forall i | 0 <= i < |ids|
      ensures WF(Descriptors(ids)[i])
    {
      DescriptorWF(ids[i]);
    }
    ListWF(Descriptors(ids));
  }

  // -- getAssertion ---------------------------------------------------------------------------------

  function OptionFields(r: GA.Request): seq<Named>
  {
    [(T(GA.UP), Flag(r.up)), (T(GA.UV), Flag(r.uv))]
  }

  function GetFields(r: GA.Request): seq<Named>
  {
    [(U(1), Text(r.rpId)), (U(2), Blob(r.clientDataHash)), (U(3), ListOf(Descriptors(r.allowList))), (U(5), Record(OptionFields(r)))]
  }

  function GetItem(r: GA.Request): Item
  {
    Record(GetFields(r))
  }

  /** What every accepted getAssertion request satisfies. */
  predicate GetExpressible(r: GA.Request)
  {
    r.rpId != [] && |r.clientDataHash| == 32
  }

  ghost predicate GetShort(r: GA.Request)
  {
    Short(r.rpId) && |r.allowList| <= UINT64_MAX && forall i :: 0 <= i < |r.allowList| ==> Short(r.allowList[i])
  }

  lemma GetDiffers(r: GA.Request)
    ensures Different(GetFields(r)) && Different(OptionFields(r))
  {}

  lemma OptionsRead(r: GA.Request)
    ensures GAM.OptionShape(Record(OptionFields(r)))
    ensures Field(Record(OptionFields(r)).kids, T(GA.UP)) == Some(Flag(r.up)) && Field(Record(OptionFields(r)).kids, T(GA.UV)) == Some(Flag(r.uv))
  {
    hide Record, Field;
    var fs := OptionFields(r);
    GetDiffers(r);
    RecordField(fs, 0);
    RecordField(fs, 1);
    RecordAt(fs, 0);
    RecordAt(fs, 1);
  }

  lemma DescriptorShape(id: bytes)
    ensures GAM.DescShape(Record(DescriptorFields(id))) && GAM.DescId(Record(DescriptorFields(id))) == Some(id)
    ensures MCM.ExDescShape(Record(DescriptorFields(id)))
  {
    hide Record, Field;
    DescriptorReads(id);
  }

  lemma {:induction false} AllowReads(ids: seq<bytes>)
    ensures GAM.DescShapes(Descriptors(ids)) && GAM.AllowIds(Descriptors(ids)) == ids
  {
    hide Record, GAM.DescShape, GAM.DescId;
    forall i | 0 <= i < |ids|
      ensures GAM.DescShape(Descriptors(ids)[i])
    {
      DescriptorShape(ids[i]);
    }
    if ids != [] {
      AllowReads(ids[1..]);
      DescriptorShape(ids[0]);
      assert Descriptors(ids)[1..] == Descriptors(ids[1..]);
    }
  }

  lemma GetShape(r: GA.Request)
    requires GetExpressible(r)
    ensures GAM.TopShape(GetItem(r).kids)
  {
    hide Record, GAM.TopPair, GetFields;
    var fs := GetFields(r);
    forall i | 0 <= i < |fs|
      ensures GAM.TopPair(KeyAt(GetItem(r).kids, i), ValAt(GetItem(r).kids, i))
    {
      RecordAt(fs, i);
      GetPair(r, i);
    }
  }

  lemma GetPair(r: GA.Request, i: nat)
    requires GetExpressible(r) && i < |GetFields(r)|
    ensures GAM.TopPair(KeyItem(GetFields(r)[i].0), GetFields(r)[i].1)
  {
    hide Record, GAM.OptionShape, GAM.AllowShape, Descriptors, OptionFields;
    OptionsRead(r);
    ListShape(r.allowList);
  }

  lemma ListShape(ids: seq<bytes>)
    ensures GAM.AllowShape(ListOf(Descriptors(ids))) && GAM.AllowOf(Some(ListOf(Descriptors(ids)))) == ids
  {
    hide GAM.DescShapes, Descriptors, GAM.AllowIds;
    AllowReads(ids);
  }

  /** The canonical map of a request describes it. */
  lemma GetDescribed(r: GA.Request)
    requires GetExpressible(r)
    ensures GAM.Describes(GetItem(r), r) && DistinctFields(GetItem(r).kids)
  {
    hide Record, Field, DistinctFields, GAM.TopShape, GAM.AllowOf, Descriptors, OptionFields;
    var fs := GetFields(r);
    GetDiffers(r);
    RecordDistinct(fs);
    GetShape(r);
    RecordField(fs, 0);
    RecordField(fs, 1);
    RecordField(fs, 2);
    RecordField(fs, 3);
    OptionsRead(r);
    ListShape(r.allowList);
  }

  lemma GetWF(r: GA.Request)
    requires GetExpressible(r) && GetShort(r)
    ensures WF(GetItem(r))
  {
    hide WF, Descriptors, Record;
    TextWF(r.rpId);
    TextWF(r.clientDataHash);
    DescriptorsWF(r.allowList);
    OptionsWF(r);
    NumWF(1);
    NumWF(2);
    NumWF(3);
    NumWF(5);
    RecordWF(GetFields(r));
  }

  lemma OptionsWF(r: GA.Request)
    ensures WF(Record(OptionFields(r)))
  {
    TextWF(GA.UP);
    TextWF(GA.UV);
    RecordWF(OptionFields(r));
  }

  ghost predicate RequestMap(it: Item)
  {
    WF(it) && it.Nest? && it.isMap && DistinctFields(it.kids)
  }

  /** A request value has an encoding exactly when its RP ID is not empty and its hash has 32 bytes. */
  lemma GetHasEncodingIff(r: GA.Request)
    requires GetShort(r)
    ensures GetExpressible(r) <==> exists it :: RequestMap(it) && GAM.Describes(it, r)
  {
    hide WF, GAM.TopShape, Field, DistinctFields, Record;
    if GetExpressible(r) {
      GetDescribed(r);
      GetWF(r);
      assert RequestMap(GetItem(r));
    }
    forall it | RequestMap(it) && GAM.Describes(it, r)
      ensures GetExpressible(r)
    {
      GAM.FieldShape(it.kids, 2);
    }
  }

  /** Parsing the canonical encoding of a request gives the request back. */
  lemma GetRoundTrip(r: GA.Request, rest: bytes)
    requires GetExpressible(r) && GetShort(r)
    ensures WF(GetItem(r))
    ensures |Enc(GetItem(r)) + rest| <= MAX_ARRAY ==> GA.Parse(Enc(GetItem(r)) + rest) == Ok(r)
  {
    hide WF, Enc, GAM.Describes, DistinctFields, Record, GA.Parse;
    GetDescribed(r);
    GetWF(r);
    if |Enc(GetItem(r)) + rest| <= MAX_ARRAY { GAM.RoundTrip(GetItem(r), r, rest); }
  }

  /** A request of everyday size is far from the largest array. */
  lemma GetSmall(r: GA.Request)
    requires GetExpressible(r) && |r.rpId| <= 1000 && |r.allowList| <= 10 && forall i :: 0 <= i < |r.allowList| ==> |r.allowList[i]| <= 1000
    ensures WF(GetItem(r)) && |Enc(GetItem(r))| <= 0x10_0000
  {
    hide WF, Enc, Record, Weight, Descriptors, OptionFields;
    GetWF(r);
    EncWithinWeight(GetItem(r));
    forall i | 0 <= i < 4
      ensures Weight(KeyItem(GetFields(r)[i].0)) + Weight(GetFields(r)[i].1) <= 30_000
    {
      GetPartWeight(r, i);
    }
    RecordWeight(GetFields(r), 30_000);
  }

  lemma GetPartWeight(r: GA.Request, i: nat)
    requires GetExpressible(r) && |r.rpId| <= 1000 && |r.allowList| <= 10 && forall i :: 0 <= i < |r.allowList| ==> |r.allowList[i]| <= 1000
    requires i < 4
    ensures Weight(KeyItem(GetFields(r)[i].0)) + Weight(GetFields(r)[i].1) <= 30_000
  {
    hide Record, Descriptors;
    DescriptorsWeight(r.allowList);
    RecordWeight(OptionFields(r), 100);
  }

  lemma DescriptorsWeight(ids: seq<bytes>)
    requires |ids| <= 10 && forall i :: 0 <= i < |ids| ==> |ids[i]| <= 1000
    ensures Weight(ListOf(Descriptors(ids))) <= 25_000
  {
    hide Record, Weights;
    forall i | 0 <= i < |ids|
      ensures Weight(Descriptors(ids)[i]) <= 2_209
    {
      RecordWeight(DescriptorFields(ids[i]), 1_100);
    }
    ListWeight(Descriptors(ids), 2_209);
  }

  // -- makeCredential ---------------------------------------------------------------------------------

  function RpFields(r: MC.Request): seq<Named>
  {
    [(T(ID), Text(r.rpId)), (T(NAME), Text(r.rpName))]
  }

  function UserFields(r: MC.Request, userId: bytes): seq<Named>
  {
    [(T(ID), Blob(userId)), (T(NAME), Text(r.userName)), (T(DISPLAY_NAME), Text(r.userDisplayName))]
  }

  function ParamFields(alg: int): seq<Named>
  {
    [(T(MC.ALG), if alg < 0 then NInt(alg) else UInt(alg)), (T(TYPE), Text(PUBLIC_KEY))]
  }

  function Parameters(algs: seq<int>): (items: seq<Item>)
    ensures |items| == |algs| && forall i :: 0 <= i < |algs| ==> items[i] == Record(ParamFields(algs[i]))
  {
    seq(|algs|, i requires 0 <= i < |algs| => Record(ParamFields(algs[i])))
  }

  function MakeFields(r: MC.Request, userId: bytes, excluded: seq<bytes>): seq<Named>
  {
    [(U(1), Blob(r.clientDataHash)), (U(2), Record(RpFields(r))), (U(3), Record(UserFields(r, userId))),
     (U(4), ListOf(Parameters(r.requestedAlgs))), (U(5), ListOf(Descriptors(excluded)))]
  }

  /** The map of request `r`, given the bytes behind its base64url texts. */
  function MakeItem(r: MC.Request, userId: bytes, excluded: seq<bytes>): Item
  {
    Record(MakeFields(r, userId, excluded))
  }

  function Encoded(ids: seq<bytes>): (texts: seq<bytes>)
    ensures |texts| == |ids| && forall i :: 0 <= i < |ids| ==> texts[i] == Base64Url.Encode(ids[i])
  {
    seq(|ids|, i requires 0 <= i < |ids| => Base64Url.Encode(ids[i]))
  }

  /** The base64url texts of `r` are those of these bytes. */
  predicate Spelt(r: MC.Request, userId: bytes, excluded: seq<bytes>)
  {
    r.userHandle == Base64Url.Encode(userId) && r.excludeList == Encoded(excluded)
  }

  /** What every accepted makeCredential request satisfies, its user handle and exclude list aside. */
  predicate MakeExpressible(r: MC.Request)
  {
    && |r.clientDataHash| == 32 && r.rpId != [] && r.rpName != [] && r.userName != [] && r.userDisplayName != []
    && r.requestedAlgs != [] && MCM.Supported(r.requestedAlgs)
  }

  ghost predicate MakeShort(r: MC.Request, userId: bytes, excluded: seq<bytes>)
  {
    && Short(r.rpId) && Short(r.rpName) && Short(userId) && Short(r.userName) && Short(r.userDisplayName)
    && |r.requestedAlgs| <= UINT64_MAX && |excluded| <= UINT64_MAX && forall i :: 0 <= i < |excluded| ==> Short(excluded[i])
  }

  lemma MakeDiffers(r: MC.Request, userId: bytes, excluded: seq<bytes>)
    ensures Different(MakeFields(r, userId, excluded)) && Different(RpFields(r)) && Different(UserFields(r, userId))
  {}

  lemma RpReads(r: MC.Request)
    ensures MCM.RpPairs(Record(RpFields(r)).kids)
    ensures Field(Record(RpFields(r)).kids, T(ID)) == Some(Text(r.rpId)) && Field(Record(RpFields(r)).kids, T(NAME)) == Some(Text(r.rpName))
  {
    hide Record, Field;
    var fs := RpFields(r);
    MakeDiffers(r, [], []);
    RecordField(fs, 0);
    RecordField(fs, 1);
    RecordAt(fs, 0);
    RecordAt(fs, 1);
  }

  lemma UserReads(r: MC.Request, userId: bytes)
    ensures MCM.UserPairs(Record(UserFields(r, userId)).kids)
    ensures Field(Record(UserFields(r, userId)).kids, T(ID)) == Some(Blob(userId))
    ensures Field(Record(UserFields(r, userId)).kids, T(NAME)) == Some(Text(r.userName))
    ensures Field(Record(UserFields(r, userId)).kids, T(DISPLAY_NAME)) == Some(Text(r.userDisplayName))
  {
    hide Record, Field;
    var fs := UserFields(r, userId);
    MakeDiffers(r, userId, []);
    RecordField(fs, 0);
    RecordField(fs, 1);
    RecordField(fs, 2);
    RecordAt(fs, 0);
    RecordAt(fs, 1);
    RecordAt(fs, 2);
  }

  lemma ParamDiffers(alg: int)
    ensures Different(ParamFields(alg))
  {}

  lemma ParamReads(alg: int)
    requires alg == MC.ES256 || alg == MC.RS256
    ensures MCM.ParamShape(Record(ParamFields(alg))) && MCM.AlgsIn([Record(ParamFields(alg))]) == [alg]
  {
    hide Record, Field, MCM.AlgOf, MCM.AlgsIn;
    var fs := ParamFields(alg);
    var it := Record(fs);
    ParamDiffers(alg);
    RecordField(fs, 1);
    RecordAt(fs, 0);
    RecordAt(fs, 1);
    assert it.kids == [Text(MC.ALG), NInt(alg), Text(TYPE), Text(PUBLIC_KEY)];
    ParamAlg(it.kids, alg);
    AlgsOfOne(it, alg);
  }

  lemma ParamAlg(kids: seq<Item>, alg: int)
    requires alg == MC.ES256 || alg == MC.RS256
    requires kids == [Text(MC.ALG), NInt(alg), Text(TYPE), Text(PUBLIC_KEY)]
    ensures MCM.AlgOf(kids, None) == Some(alg)
  {
    assert kids[2..] == [Text(TYPE), Text(PUBLIC_KEY)] && kids[2..][2..] == [];
    assert MCM.AlgOf(kids[2..], Some(alg)) == Some(alg);
  }

  lemma AlgsOfOne(it: Item, alg: int)
    requires alg == MC.ES256 || alg == MC.RS256
    requires it.Nest? && Body(Field(it.kids, T(TYPE))) == Some(PUBLIC_KEY) && MCM.AlgOf(it.kids, None) == Some(alg)
    ensures MCM.AlgsIn([it]) == [alg]
  {
    hide Field, MCM.AlgOf;
    assert [it][1..] == [] && MCM.AlgsIn([]) == [];
  }

  lemma {:induction false} ParametersRead(algs: seq<int>)
    requires MCM.Supported(algs)
    ensures MCM.ParamShapes(Parameters(algs)) && MCM.AlgsIn(Parameters(algs)) == algs
  {
    hide Record, MCM.ParamShape, MCM.AlgsIn;
    forall i | 0 <= i < |algs|
      ensures MCM.ParamShape(Parameters(algs)[i])
    {
      assert algs[i] in algs;
      ParamReads(algs[i]);
    }
    if algs == [] {
      MCM.NoKids();
    } else {
      assert forall a :: a in algs[1..] ==> a in algs;
      ParametersRead(algs[1..]);
      assert algs[0] in algs;
      ParamReads(algs[0]);
      assert Parameters(algs)[1..] == Parameters(algs[1..]);
      MCM.AlgsCons(Parameters(algs));
    }
  }

  lemma {:induction false} ExcludedReads(ids: seq<bytes>)
    ensures MCM.ExDescShapes(Descriptors(ids)) && MCM.ExcludedIn(Descriptors(ids)) == Encoded(ids)
  {
    hide Record, MCM.ExDescShape, MCM.ExcludedIn, Base64Url.Encode;
    forall i | 0 <= i < |ids|
      ensures MCM.ExDescShape(Descriptors(ids)[i])
    {
      DescriptorShape(ids[i]);
    }
    if ids == [] {
      MCM.NoKids();
    } else {
      ExcludedReads(ids[1..]);
      ExcludedOfOne(ids[0]);
      assert Descriptors(ids)[1..] == Descriptors(ids[1..]);
      MCM.ExcludedCons(Descriptors(ids));
      assert Encoded(ids) == [Base64Url.Encode(ids[0])] + Encoded(ids[1..]);
    }
  }

  lemma ExcludedOfOne(id: bytes)
    ensures MCM.ExcludedIn([Record(DescriptorFields(id))]) == [Base64Url.Encode(id)]
  {
    hide Record, Field, Base64Url.Encode;
    DescriptorReads(id);
    var it := Record(DescriptorFields(id));
    assert [it][1..] == [] && MCM.ExcludedIn([]) == [];
  }

  lemma MakePair(r: MC.Request, userId: bytes, excluded: seq<bytes>, i: nat)
    requires MakeExpressible(r) && i < |MakeFields(r, userId, excluded)|
    ensures MCM.TopPair(KeyItem(MakeFields(r, userId, excluded)[i].0), MakeFields(r, userId, excluded)[i].1)
  {
    hide Record, MCM.RpPairs, MCM.UserPairs, MCM.ParamShapes, MCM.ExDescShapes, Descriptors, Parameters, RpFields, UserFields, MCM.Supported;
    RpReads(r);
    UserReads(r, userId);
    ParametersRead(r.requestedAlgs);
    ExcludedReads(excluded);
  }

  lemma MakeShape(r: MC.Request, userId: bytes, excluded: seq<bytes>)
    requires MakeExpressible(r)
    ensures MCM.TopShape(MakeItem(r, userId, excluded).kids)
  {
    hide Record, MCM.TopPair, MakeFields, MakeExpressible;
    var fs := MakeFields(r, userId, excluded);
    forall i | 0 <= i < |fs|
      ensures MCM.TopPair(KeyAt(MakeItem(r, userId, excluded).kids, i), ValAt(MakeItem(r, userId, excluded).kids, i))
    {
      RecordAt(fs, i);
      MakePair(r, userId, excluded, i);
    }
  }

  /** The canonical map of a request says everything the request does, an empty `user.id` included. */
  lemma MakeDescribed(r: MC.Request, userId: bytes, excluded: seq<bytes>)
    requires MakeExpressible(r) && Spelt(r, userId, excluded)
    ensures MCM.DescribesRest(MakeItem(r, userId, excluded), r) && DistinctFields(MakeItem(r, userId, excluded).kids)
    ensures MCM.UserIdOf(MakeItem(r, userId, excluded)) == Some(userId)
  {
    hide Record, Field, DistinctFields, MCM.TopShape, Descriptors, Parameters, RpFields, UserFields, MCM.AlgsIn, MCM.ExcludedIn,
         MCM.Supported, Base64Url.Encode, Encoded;
    var fs := MakeFields(r, userId, excluded);
    MakeDiffers(r, userId, excluded);
    RecordDistinct(fs);
    MakeShape(r, userId, excluded);
    RecordField(fs, 0);
    RecordField(fs, 1);
    RecordField(fs, 2);
    RecordField(fs, 3);
    RecordField(fs, 4);
    RpReads(r);
    UserReads(r, userId);
    ParametersRead(r.requestedAlgs);
    ExcludedReads(excluded);
  }

  lemma ParamWF(alg: int)
    requires alg == MC.ES256 || alg == MC.RS256
    ensures WF(Record(ParamFields(alg)))
  {
    hide WF;
    Leaf(0, alg, []);
    TextWF(MC.ALG);
    TextWF(TYPE);
    TextWF(PUBLIC_KEY);
    RecordWF(ParamFields(alg));
  }

  lemma ParametersWF(algs: seq<int>)
    requires MCM.Supported(algs) && |algs| <= UINT64_MAX
    ensures WF(ListOf(Parameters(algs)))
  {
    hide WF, Record;
    forall i | 0 <= i < |algs|
      ensures WF(Parameters(algs)[i])
    {
      assert algs[i] in algs;
      ParamWF(algs[i]);
    }
    ListWF(Parameters(algs));
  }

  lemma EntityWF(r: MC.Request, userId: bytes)
    requires MakeShort(r, userId, [])
    ensures WF(Record(RpFields(r))) && WF(Record(UserFields(r, userId)))
  {
    hide WF, Record;
    TextWF(ID);
    TextWF(NAME);
    TextWF(DISPLAY_NAME);
    TextWF(r.rpId);
    TextWF(r.rpName);
    TextWF(userId);
    TextWF(r.userName);
    TextWF(r.userDisplayName);
    RecordWF(RpFields(r));
    RecordWF(UserFields(r, userId));
  }

  lemma MakeWF(r: MC.Request, userId: bytes, excluded: seq<bytes>)
    requires MakeExpressible(r) && MakeShort(r, userId, excluded)
    ensures WF(MakeItem(r, userId, excluded))
  {
    hide WF, Record, Descriptors, Parameters, RpFields, UserFields, MCM.Supported;
    TextWF(r.clientDataHash);
    EntityWF(r, userId);
    ParametersWF(r.requestedAlgs);
    DescriptorsWF(excluded);
    NumWF(1);
    NumWF(2);
    NumWF(3);
    NumWF(4);
    NumWF(5);
    RecordWF(MakeFields(r, userId, excluded));
  }

  /** Parsing the canonical encoding of a request gives the request back, unless its `user.id` is empty: then it is refused. */
  lemma MakeRoundTrip(r: MC.Request, userId: bytes, excluded: seq<bytes>, rest: bytes)
    requires MakeExpressible(r) && Spelt(r, userId, excluded) && MakeShort(r, userId, excluded)
    ensures WF(MakeItem(r, userId, excluded))
    ensures |Enc(MakeItem(r, userId, excluded)) + rest| <= MAX_ARRAY ==>
      && (userId != [] ==> MC.Parse(Enc(MakeItem(r, userId, excluded)) + rest) == Ok(r))
      && (userId == [] ==> MC.Parse(Enc(MakeItem(r, userId, excluded)) + rest).Err?)
  {
    hide WF, Enc, MCM.DescribesRest, DistinctFields, MakeItem, MC.Parse, Spelt, MakeExpressible, MakeShort, MCM.UserIdOf;
    MakeDescribed(r, userId, excluded);
    MakeWF(r, userId, excluded);
    assert MCM.IsMap(MakeItem(r, userId, excluded)) by { MakeIsMap(r, userId, excluded); }
    if |Enc(MakeItem(r, userId, excluded)) + rest| <= MAX_ARRAY { MCM.AcceptedIffUserId(MakeItem(r, userId, excluded), r, rest); }
  }

  lemma MakeIsMap(r: MC.Request, userId: bytes, excluded: seq<bytes>)
    ensures MCM.IsMap(MakeItem(r, userId, excluded))
  {}

  lemma MakeSmall(r: MC.Request, userId: bytes, excluded: seq<bytes>)
    requires MakeExpressible(r) && MakeShort(r, userId, excluded) && |userId| <= 1000 && |r.rpId| <= 1000 && |r.rpName| <= 1000
    requires |r.userName| <= 1000 && |r.userDisplayName| <= 1000 && |r.requestedAlgs| <= 10 && |excluded| <= 10
    requires forall i :: 0 <= i < |excluded| ==> |excluded[i]| <= 1000
    ensures WF(MakeItem(r, userId, excluded)) && |Enc(MakeItem(r, userId, excluded))| <= 0x10_0000
  {
    hide WF, Enc, Record, Weight, MakeFields, MakeExpressible, MakeShort;
    MakeWF(r, userId, excluded);
    EncWithinWeight(MakeItem(r, userId, excluded));
    var fs := MakeFields(r, userId, excluded);
    forall i | 0 <= i < |fs|
      ensures Weight(KeyItem(fs[i].0)) + Weight(fs[i].1) <= 30_000
    {
      MakePartWeight(r, userId, excluded, i);
    }
    FiveFields(r, userId, excluded);
    RecordWeight(fs, 30_000);
  }

  lemma FiveFields(r: MC.Request, userId: bytes, excluded: seq<bytes>)
    ensures |MakeFields(r, userId, excluded)| == 5
  {
    hide Record, Descriptors, Parameters;
  }

  lemma MakePartWeight(r: MC.Request, userId: bytes, excluded: seq<bytes>, i: nat)
    requires MakeExpressible(r) && |userId| <= 1000 && |r.rpId| <= 1000 && |r.rpName| <= 1000
    requires |r.userName| <= 1000 && |r.userDisplayName| <= 1000 && |r.requestedAlgs| <= 10 && |excluded| <= 10
    requires forall i :: 0 <= i < |excluded| ==> |excluded[i]| <= 1000
    requires i < |MakeFields(r, userId, excluded)|
    ensures Weight(KeyItem(MakeFields(r, userId, excluded)[i].0)) + Weight(MakeFields(r, userId, excluded)[i].1) <= 30_000
  {
    hide Record, Descriptors, Parameters, MCM.Supported, Weights;
    DescriptorsWeight(excluded);
    ParametersWeight(r.requestedAlgs);
    RecordWeight(RpFields(r), 1_100);
    RecordWeight(UserFields(r, userId), 1_100);
  }

  lemma ParametersWeight(algs: seq<int>)
    requires |algs| <= 10
    ensures Weight(ListOf(Parameters(algs))) <= 25_000
  {
    hide Record, Weights;
    forall i | 0 <= i < |algs|
      ensures Weight(Parameters(algs)[i]) <= 209
    {
      RecordWeight(ParamFields(algs[i]), 100);
    }
    ListWeight(Parameters(algs), 209);
  }

  lemma {:induction false} AlgsInSupported(kids: seq<Item>)
    ensures MCM.Supported(MCM.AlgsIn(kids))
  {
    if kids != [] { AlgsInSupported(kids[1..]); }
  }

  lemma {:induction false} ExcludedInEncoded(kids: seq<Item>) returns (ids: seq<bytes>)
    ensures MCM.ExcludedIn(kids) == Encoded(ids)
  {
    hide Field, Base64Url.Encode;
    if kids == [] {
      ids := [];
    } else {
      ids := ExcludedInEncoded(kids[1..]);
      if kids[0].Nest? && Body(Field(kids[0].kids, T(ID))).Some? {
        var id := Body(Field(kids[0].kids, T(ID))).value;
        assert [Base64Url.Encode(id)] + Encoded(ids) == Encoded([id] + ids);
        ids := [id] + ids;
      }
    }
  }

  lemma {:induction false} HashShape(kids: seq<Item>, d: Option<Item>)
    requires MCM.TopShape(kids) && (d.Some? ==> IsBlob(d.value) && |d.value.body| == 32)
    ensures LastOr(U(1), kids, d).Some? ==> IsBlob(LastOr(U(1), kids, d).value) && |LastOr(U(1), kids, d).value.body| == 32
    decreases |kids|
  {
    hide MCM.RpPairs, MCM.UserPairs, MCM.ParamShapes, MCM.ExDescShapes, MCM.TopShape;
    if |kids| >= 2 {
      MCM.PairsCons(kids);
      HashShape(kids[2..], if IsKey(kids[0], U(1)) then Some(kids[1]) else d);
    }
  }

  lemma DescribedExpressible(it: Item, r: MC.Request) returns (userId: bytes, excluded: seq<bytes>)
    requires MCM.Describes(it, r)
    ensures MakeExpressible(r) && Spelt(r, userId, excluded) && userId != []
  {
    hide MCM.TopShape, Base64Url.Encode, Encoded, MCM.AlgsIn, MCM.ExcludedIn, MCM.Supported;
    MCM.HandleEncodesUserId(it, r);
    userId := MCM.UserIdOf(it).value;
    Base64Url.EncodeEmpty(userId);
    HashShape(it.kids, None);
    AlgsInSupported(MCM.Kids(Field(it.kids, U(4))));
    excluded := ExcludedInEncoded(MCM.Kids(Field(it.kids, U(5))));
  }

  ghost predicate TextsShort(r: MC.Request)
  {
    && Short(r.rpId) && Short(r.rpName) && Short(r.userHandle) && Short(r.userName) && Short(r.userDisplayName)
    && |r.requestedAlgs| <= UINT64_MAX && |r.excludeList| <= UINT64_MAX && forall i :: 0 <= i < |r.excludeList| ==> Short(r.excludeList[i])
  }

  lemma BytesShort(r: MC.Request, userId: bytes, excluded: seq<bytes>)
    requires TextsShort(r) && Spelt(r, userId, excluded)
    ensures MakeShort(r, userId, excluded)
  {
    hide Base64Url.Encode;
    Base64Url.EncodeLength(userId);
    forall i | 0 <= i < |excluded|
      ensures Short(excluded[i])
    {
      assert r.excludeList[i] == Base64Url.Encode(excluded[i]);
      Base64Url.EncodeLength(excluded[i]);
    }
  }

  /**
   A request value has an encoding exactly when its parts are there, its algorithms are supported, its user handle is the
   base64url text of some non-empty bytes and its exclude list holds base64url texts.
   */
  lemma MakeHasEncodingIff(r: MC.Request)
    requires TextsShort(r)
    ensures MakeExpressible(r) && (exists userId, excluded :: Spelt(r, userId, excluded) && userId != [])
            <==> exists it :: RequestMap(it) && MCM.Describes(it, r)
  {
    hide WF, DistinctFields, MakeItem, MCM.DescribesRest, Spelt, MakeExpressible, MakeShort, MCM.UserIdOf, TextsShort;
    if MakeExpressible(r) {
      forall userId, excluded | Spelt(r, userId, excluded) && userId != []
        ensures exists it :: RequestMap(it) && MCM.Describes(it, r)
      {
        BytesShort(r, userId, excluded);
        MakeDescribed(r, userId, excluded);
        MakeWF(r, userId, excluded);
        MakeIsMap(r, userId, excluded);
        HandleNotEmpty(r, userId, excluded);
        assert RequestMap(MakeItem(r, userId, excluded));
      }
    }
    forall it | RequestMap(it) && MCM.Describes(it, r)
      ensures MakeExpressible(r) && exists userId, excluded :: Spelt(r, userId, excluded) && userId != []
    {
      var u, x := DescribedExpressible(it, r);
    }
  }

  lemma HandleNotEmpty(r: MC.Request, userId: bytes, excluded: seq<bytes>)
    requires Spelt(r, userId, excluded)
    ensures userId != [] <==> r.userHandle != []
  {
    hide Base64Url.Encode, Encoded;
    Base64Url.EncodeEmpty(userId);
  }

  /** A request that is complete but for an empty `user.id`, and is refused. */
  lemma EmptyUserIdCase() returns (r: MC.Request, it: Item)
    ensures RequestMap(it) && MCM.DescribesRest(it, r) && MCM.UserIdOf(it) == Some([])
    ensures |Enc(it)| <= MAX_ARRAY && MC.Parse(Enc(it)).Err?
  {
    hide Enc, WF, MCM.DescribesRest, DistinctFields, Record, MakeFields, MC.Parse, MCM.UserIdOf, ToBE;
    r := MC.Request(ToBE(0, 32), [0x61], [0x61], [], [0x62], [0x62], [], [MC.ES256]);
    Base64Url.EncodeEmpty([]);
    MakeDescribed(r, [], []);
    MakeSmall(r, [], []);
    it := MakeItem(r, [], []);
    assert Enc(it) + [] == Enc(it);
    MakeRoundTrip(r, [], [], []);
  }
}
