/** What a makeCredential request map says field by field, and that the parser returns exactly that. */
module MakeCredentialMeaning {
  import opened Prelude
  import opened CborSyntax
  import opened CborDecoding
  import opened RequestFold
  import opened MakeCredentialRequest
  import Base64Url

  // -- shapes: which pairs a map may hold without being refused ---------------------------

  ghost predicate RpPair(k: Item, v: Item)
  {
    IsText(k) && (k.body in {ID, NAME} ==> IsText(v))
  }

  ghost predicate UserPair(k: Item, v: Item)
  {
    IsText(k) && (k.body == ID ==> IsBlob(v)) && (k.body in {NAME, DISPLAY_NAME} ==> IsText(v))
  }

  ghost predicate ParamPair(k: Item, v: Item)
  {
    IsText(k) && (k.body == ALG && v.Num? && v.neg ==> v.v <= INT64_MAX) && (k.body == TYPE ==> IsText(v))
  }

  ghost predicate ExDescPair(k: Item, v: Item)
  {
    IsText(k) && (k.body == ID ==> IsBlob(v))
  }

  ghost predicate RpPairs(kids: seq<Item>) { forall i :: 0 <= i < |kids| / 2 ==> RpPair(KeyAt(kids, i), ValAt(kids, i)) }
  ghost predicate UserPairs(kids: seq<Item>) { forall i :: 0 <= i < |kids| / 2 ==> UserPair(KeyAt(kids, i), ValAt(kids, i)) }
  ghost predicate ParamPairs(kids: seq<Item>) { forall i :: 0 <= i < |kids| / 2 ==> ParamPair(KeyAt(kids, i), ValAt(kids, i)) }
  ghost predicate ExDescPairs(kids: seq<Item>) { forall i :: 0 <= i < |kids| / 2 ==> ExDescPair(KeyAt(kids, i), ValAt(kids, i)) }

  ghost predicate IsMap(it: Item) { it.Nest? && it.isMap }
  ghost predicate IsArray(it: Item) { it.Nest? && !it.isMap }
  ghost predicate ParamShape(it: Item) { IsMap(it) && ParamPairs(it.kids) }
  ghost predicate ExDescShape(it: Item) { IsMap(it) && ExDescPairs(it.kids) }
  ghost predicate ParamShapes(kids: seq<Item>) { forall i :: 0 <= i < |kids| ==> ParamShape(kids[i]) }
  ghost predicate ExDescShapes(kids: seq<Item>) { forall i :: 0 <= i < |kids| ==> ExDescShape(kids[i]) }

  ghost predicate TopPair(k: Item, v: Item)
  {
    && IsUint(k)
    && (k.v == 1 ==> IsBlob(v) && |v.body| == 32)
    && (k.v == 2 ==> IsMap(v) && RpPairs(v.kids))
    && (k.v == 3 ==> IsMap(v) && UserPairs(v.kids))
    && (k.v == 4 ==> IsArray(v) && ParamShapes(v.kids))
    && (k.v == 5 ==> IsArray(v) && ExDescShapes(v.kids))
  }

  ghost predicate TopShape(kids: seq<Item>) { forall i :: 0 <= i < |kids| / 2 ==> TopPair(KeyAt(kids, i), ValAt(kids, i)) }

  // -- meanings ------------------------------------------------------------------------------

  function Or(x: Option<bytes>, d: Option<bytes>): Option<bytes>
  {
    if x.Some? then x else d
  }

  /** An absent or empty name falls back. */
  function OrElse(x: Option<bytes>, d: bytes): bytes
  {
    if x.None? || x.value == [] then d else x.value
  }

  predicate StrOrNone(x: Option<Item>)
  {
    x.Some? ==> x.value.Str?
  }

  function EncodeOpt(x: Option<bytes>): Option<bytes>
  {
    if x.Some? then Some(Base64Url.Encode(x.value)) else None
  }

  /** The last negative "alg" value; non-negative ones are passed over. */
  function AlgOf(kids: seq<Item>, d: Option<int>): Option<int>
  {
    if |kids| < 2 then d
    else AlgOf(kids[2..], if IsKey(kids[0], T(ALG)) && kids[1].Num? && kids[1].neg then Some(-1 - kids[1].v) else d)
  }

  /** The algorithm a parameter offers: none unless it is typed "public-key" and names -7 or -257. */
  function Offered(kids: seq<Item>): seq<int>
  {
    var alg := AlgOf(kids, None);
    if Body(Field(kids, T(TYPE))) == Some(PUBLIC_KEY) && (alg == Some(-7) || alg == Some(-257)) then [alg.value] else []
  }

  /** The ID a descriptor names, whatever its type. */
  function ExcludedId(kids: seq<Item>): seq<bytes>
  {
    match Body(Field(kids, T(ID))) case None => [] case Some(id) => [Base64Url.Encode(id)]
  }

  /** The supported algorithms of the public-key parameters, in the order offered. */
  function AlgsIn(kids: seq<Item>): seq<int>
  {
    if kids == [] then []
    else if !kids[0].Nest? then AlgsIn(kids[1..])
    else Offered(kids[0].kids) + AlgsIn(kids[1..])
  }

  function ExcludedIn(kids: seq<Item>): seq<bytes>
  {
    if kids == [] then []
    else if !kids[0].Nest? then ExcludedIn(kids[1..])
    else ExcludedId(kids[0].kids) + ExcludedIn(kids[1..])
  }

  function Kids(v: Option<Item>): seq<Item>
  {
    if v.Some? && v.value.Nest? then v.value.kids else []
  }

  /** The fields of request `r`, and nothing else, are what the map `it` says; any other keys are free. */
  ghost predicate Describes(it: Item, r: Request)
  {
    DescribesRest(it, r) && r.userHandle != []
  }

  /** The same, an empty `user.id` included. */
  ghost predicate DescribesRest(it: Item, r: Request)
  {
    && IsMap(it) && TopShape(it.kids)
    && Body(Field(it.kids, U(1))) == Some(r.clientDataHash)
    && var rp, user := Kids(Field(it.kids, U(2))), Kids(Field(it.kids, U(3)));
    && Body(Field(rp, T(ID))) == Some(r.rpId) && r.rpId != []
    && r.rpName == OrElse(Body(Field(rp, T(NAME))), r.rpId)
    && EncodeOpt(Body(Field(user, T(ID)))) == Some(r.userHandle)
    && Body(Field(user, T(NAME))) == Some(r.userName) && r.userName != []
    && r.userDisplayName == OrElse(Body(Field(user, T(DISPLAY_NAME))), r.userName)
    && r.requestedAlgs == AlgsIn(Kids(Field(it.kids, U(4)))) && r.requestedAlgs != []
    && r.excludeList == ExcludedIn(Kids(Field(it.kids, U(5))))
  }

  // -- the folds compute the meanings -----------------------------------------------------------

  lemma PairsCons(kids: seq<Item>)
    requires |kids| >= 2
    ensures RpPairs(kids) == (RpPair(kids[0], kids[1]) && RpPairs(kids[2..]))
    ensures UserPairs(kids) == (UserPair(kids[0], kids[1]) && UserPairs(kids[2..]))
    ensures ParamPairs(kids) == (ParamPair(kids[0], kids[1]) && ParamPairs(kids[2..]))
    ensures ExDescPairs(kids) == (ExDescPair(kids[0], kids[1]) && ExDescPairs(kids[2..]))
    ensures TopShape(kids) == (TopPair(kids[0], kids[1]) && TopShape(kids[2..]))
  {
    hide RpPair, UserPair, ParamPair, ExDescPair, TopPair;
    PairShift(kids);
    forall i | 0 < i < |kids| / 2
      ensures KeyAt(kids, i) == KeyAt(kids[2..], i - 1) && ValAt(kids, i) == ValAt(kids[2..], i - 1)
    {}
  }

  lemma {:induction false} RpFold(kids: seq<Item>, r: Rp)
    ensures FoldD(2, RpD, kids, r) ==
      if RpPairs(kids) then Ok(Rp(Or(Body(Field(kids, T(ID))), r.id), Or(Body(Field(kids, T(NAME))), r.name))) else Err(BadCbor)
    ensures RpPairs(kids) ==> StrOrNone(Field(kids, T(ID))) && StrOrNone(Field(kids, T(NAME)))
    decreases |kids|
  {
    hide RpPairs;
    if |kids| >= 2 {
      PairShift(kids);
      PairsCons(kids);
      var s := RpD(r, kids[..2]);
      if s.Ok? {
        RpFold(kids[2..], s.value);
        LastOver(T(ID), kids[2..], Some(kids[1]));
        LastOver(T(NAME), kids[2..], Some(kids[1]));
      }
    } else {
      assert RpPairs(kids) by { NoPairs(kids); }
    }
  }

  lemma NoPairs(kids: seq<Item>)
    requires |kids| < 2
    ensures RpPairs(kids) && UserPairs(kids) && ParamPairs(kids) && ExDescPairs(kids) && TopShape(kids)
  {}

  lemma {:induction false} UserFold(kids: seq<Item>, u: User)
    ensures FoldD(2, UserD, kids, u) ==
      if UserPairs(kids)
      then Ok(User(Or(EncodeOpt(Body(Field(kids, T(ID)))), u.handle), Or(Body(Field(kids, T(NAME))), u.name),
                   Or(Body(Field(kids, T(DISPLAY_NAME))), u.display)))
      else Err(BadCbor)
    ensures UserPairs(kids) ==> StrOrNone(Field(kids, T(ID))) && StrOrNone(Field(kids, T(NAME))) && StrOrNone(Field(kids, T(DISPLAY_NAME)))
    decreases |kids|
  {
    hide UserPairs;
    if |kids| >= 2 {
      PairShift(kids);
      PairsCons(kids);
      var s := UserD(u, kids[..2]);
      if s.Ok? {
        UserFold(kids[2..], s.value);
        LastOver(T(ID), kids[2..], Some(kids[1]));
        LastOver(T(NAME), kids[2..], Some(kids[1]));
        LastOver(T(DISPLAY_NAME), kids[2..], Some(kids[1]));
      }
    } else {
      assert UserPairs(kids) by { NoPairs(kids); }
    }
  }

  lemma {:induction false} ParamFold(kids: seq<Item>, p: Param)
    ensures FoldD(2, ParamD, kids, p) ==
      if ParamPairs(kids) then Ok(Param(Or(Body(Field(kids, T(TYPE))), p.ty), AlgOf(kids, p.alg))) else Err(BadCbor)
    ensures ParamPairs(kids) ==> StrOrNone(Field(kids, T(TYPE)))
    decreases |kids|
  {
    hide ParamPairs;
    if |kids| >= 2 {
      PairShift(kids);
      PairsCons(kids);
      var s := ParamD(p, kids[..2]);
      if s.Ok? {
        ParamFold(kids[2..], s.value);
        LastOver(T(TYPE), kids[2..], Some(kids[1]));
      }
    } else {
      assert ParamPairs(kids) by { NoPairs(kids); }
    }
  }

  lemma {:induction false} ExDescFold(kids: seq<Item>, id: Option<bytes>)
    ensures FoldD(2, ExDescD, kids, id) ==
      if ExDescPairs(kids) then Ok(Or(Body(Field(kids, T(ID))), id)) else Err(BadCbor)
    ensures ExDescPairs(kids) ==> StrOrNone(Field(kids, T(ID)))
    decreases |kids|
  {
    hide ExDescPairs;
    if |kids| >= 2 {
      PairShift(kids);
      PairsCons(kids);
      var s := ExDescD(id, kids[..2]);
      if s.Ok? {
        ExDescFold(kids[2..], s.value);
        LastOver(T(ID), kids[2..], Some(kids[1]));
      }
    } else {
      assert ExDescPairs(kids) by { NoPairs(kids); }
    }
  }

  lemma ShapesCons(kids: seq<Item>)
    requires kids != []
    ensures ParamShapes(kids) == (ParamShape(kids[0]) && ParamShapes(kids[1..]))
    ensures ExDescShapes(kids) == (ExDescShape(kids[0]) && ExDescShapes(kids[1..]))
  {
    hide ParamShape, ExDescShape;
    assert forall i :: 0 < i < |kids| ==> kids[i] == kids[1..][i - 1];
  }

  lemma AlgsOne(it: Item, algs: seq<int>)
    ensures AlgsD(algs, [it]) == if ParamShape(it) then Ok(algs + AlgsIn([it])) else Err(BadCbor)
  {
    if IsMap(it) {
      ParamFold(it.kids, NO_PARAM);
      var p := Param(Body(Field(it.kids, T(TYPE))), AlgOf(it.kids, None));
      assert CollectAlg(algs, p) == algs + Offered(it.kids);
      assert [it][1..] == [] && Offered(it.kids) + [] == Offered(it.kids);
      assert AlgsIn([it]) == Offered(it.kids);
    }
  }

  lemma {:induction false} AlgsFold(kids: seq<Item>, algs: seq<int>)
    ensures FoldD(1, AlgsD, kids, algs) == if ParamShapes(kids) then Ok(algs + AlgsIn(kids)) else Err(BadCbor)
    decreases |kids|
  {
    hide AlgsD, ParamShape, ParamShapes;
    if kids == [] {
      assert algs + [] == algs;
      assert ParamShapes(kids) by { NoShapes(); }
    } else {
      assert kids[..1] == [kids[0]];
      AlgsOne(kids[0], algs);
      ShapesCons(kids);
      if ParamShape(kids[0]) {
        AlgsFold(kids[1..], algs + AlgsIn([kids[0]]));
        AlgsCons(kids);
        assert algs + AlgsIn([kids[0]]) + AlgsIn(kids[1..]) == algs + AlgsIn(kids);
      }
    }
  }

  lemma NoShapes()
    ensures ParamShapes([]) && ExDescShapes([])
  {}

  lemma AlgsCons(kids: seq<Item>)
    requires kids != []
    ensures AlgsIn(kids) == AlgsIn([kids[0]]) + AlgsIn(kids[1..])
  {
    assert [kids[0]][1..] == [];
    assert AlgsIn([kids[0]][1..]) == [];
  }

  lemma ExcludedOne(it: Item, ids: seq<bytes>)
    ensures ExcludeD(ids, [it]) == if ExDescShape(it) then Ok(ids + ExcludedIn([it])) else Err(BadCbor)
  {
    if IsMap(it) {
      ExDescFold(it.kids, None);
      var id := Body(Field(it.kids, T(ID)));
      assert CollectExcluded(ids, id) == ids + ExcludedId(it.kids);
      assert [it][1..] == [] && ExcludedId(it.kids) + [] == ExcludedId(it.kids);
      assert ExcludedIn([it]) == ExcludedId(it.kids);
    }
  }

  lemma {:induction false} ExcludedFold(kids: seq<Item>, ids: seq<bytes>)
    ensures FoldD(1, ExcludeD, kids, ids) == if ExDescShapes(kids) then Ok(ids + ExcludedIn(kids)) else Err(BadCbor)
    decreases |kids|
  {
    hide ExcludeD, ExDescShape, ExDescShapes;
    if kids == [] {
      assert ids + [] == ids;
      assert ExDescShapes(kids) by { NoShapes(); }
    } else {
      assert kids[..1] == [kids[0]];
      ExcludedOne(kids[0], ids);
      ShapesCons(kids);
      if ExDescShape(kids[0]) {
        ExcludedFold(kids[1..], ids + ExcludedIn([kids[0]]));
        ExcludedCons(kids);
        assert ids + ExcludedIn([kids[0]]) + ExcludedIn(kids[1..]) == ids + ExcludedIn(kids);
      }
    }
  }

  lemma ExcludedCons(kids: seq<Item>)
    requires kids != []
    ensures ExcludedIn(kids) == ExcludedIn([kids[0]]) + ExcludedIn(kids[1..])
  {
    assert [kids[0]][1..] == [];
    assert ExcludedIn([kids[0]][1..]) == [];
  }

  function RpOf(kids: seq<Item>, r: Rp): Rp
  {
    Rp(Or(Body(Field(kids, T(ID))), r.id), Or(Body(Field(kids, T(NAME))), r.name))
  }

  function UserOf(kids: seq<Item>, u: User): User
  {
    User(Or(EncodeOpt(Body(Field(kids, T(ID)))), u.handle), Or(Body(Field(kids, T(NAME))), u.name),
         Or(Body(Field(kids, T(DISPLAY_NAME))), u.display))
  }

  lemma TopPairD(f: Fields, k: Item, v: Item)
    ensures TopD(f, [k, v]).Ok? == TopPair(k, v)
    ensures TopPair(k, v) ==> TopD(f, [k, v]) == Ok(Fields(
              if k.v == 1 then Some(v.body) else f.hash,
              if k.v == 2 then RpOf(v.kids, f.rp) else f.rp,
              if k.v == 3 then UserOf(v.kids, f.user) else f.user,
              if k.v == 4 then f.algs + AlgsIn(v.kids) else f.algs,
              if k.v == 5 then f.exclude + ExcludedIn(v.kids) else f.exclude))
  {
    hide FoldD, RpPairs, UserPairs, ParamShapes, ExDescShapes, AlgsIn, ExcludedIn;
    if IsUint(k) && v.Nest? {
      RpFold(v.kids, f.rp);
      UserFold(v.kids, f.user);
      AlgsFold(v.kids, f.algs);
      ExcludedFold(v.kids, f.exclude);
    }
  }

  lemma NoKids()
    ensures AlgsIn([]) == [] && ExcludedIn([]) == []
    ensures forall r :: RpOf([], r) == r
    ensures forall u :: UserOf([], u) == u
  {}

  /** One key's field, seen from the first pair of a map with distinct keys. */
  lemma FieldCons(kids: seq<Item>, n: nat)
    requires |kids| >= 2 && DistinctFields(kids)
    ensures IsKey(kids[0], U(n)) ==> Field(kids, U(n)) == Some(kids[1]) && Field(kids[2..], U(n)) == None
    ensures !IsKey(kids[0], U(n)) ==> Field(kids, U(n)) == Field(kids[2..], U(n))
  {
    DistinctTail(kids);
    if IsKey(kids[0], U(n)) {
      LastAbsent(U(n), kids[2..], Some(kids[1]));
      LastAbsent(U(n), kids[2..], None);
    }
  }

  lemma {:induction false} TopFold(kids: seq<Item>, f: Fields)
    requires DistinctFields(kids)
    ensures FoldD(2, TopD, kids, f).Ok? == TopShape(kids)
    ensures TopShape(kids) ==> FoldD(2, TopD, kids, f) == Ok(Fields(
              Or(Body(Field(kids, U(1))), f.hash), RpOf(Kids(Field(kids, U(2))), f.rp), UserOf(Kids(Field(kids, U(3))), f.user),
              f.algs + AlgsIn(Kids(Field(kids, U(4)))), f.exclude + ExcludedIn(Kids(Field(kids, U(5))))))
    decreases |kids|
  {
    hide TopD, TopShape, AlgsIn, ExcludedIn, RpOf, UserOf, Field, DistinctFields, RpPairs, UserPairs, ParamShapes, ExDescShapes;
    NoKids();
    assert f.algs + [] == f.algs && f.exclude + [] == f.exclude;
    if |kids| >= 2 {
      PairShift(kids);
      PairsCons(kids);
      DistinctTail(kids);
      TopPairD(f, kids[0], kids[1]);
      FieldCons(kids, 1);
      FieldCons(kids, 2);
      FieldCons(kids, 3);
      FieldCons(kids, 4);
      FieldCons(kids, 5);
      if TopPair(kids[0], kids[1]) {
        var f' := TopD(f, kids[..2]).value;
        TopFold(kids[2..], f');
        assert f'.algs + [] == f'.algs && f'.exclude + [] == f'.exclude;
      }
    } else {
      NoPairs(kids);
      EmptyFields(kids);
    }
  }

  lemma EmptyFields(kids: seq<Item>)
    requires |kids| < 2
    ensures forall key :: Field(kids, key) == None
  {}

  /** A map with distinct keys stands for exactly the request whose fields it spells out, in whatever order. */
  lemma DenoteIffDescribes(it: Item, r: Request)
    requires IsMap(it) && DistinctFields(it.kids)
    ensures Denote(it) == Ok(r) <==> Describes(it, r)
  {
    hide TopShape, AlgsIn, ExcludedIn, FoldD, Field;
    TopFold(it.kids, NO_FIELDS);
    assert [] + AlgsIn(Kids(Field(it.kids, U(4)))) == AlgsIn(Kids(Field(it.kids, U(4))));
    assert [] + ExcludedIn(Kids(Field(it.kids, U(5)))) == ExcludedIn(Kids(Field(it.kids, U(5))));
  }

  /** The parser inverts every encoding of every request: any header widths, key order, unknown fields and trailing bytes. */
  lemma RoundTrip(it: Item, r: Request, rest: bytes)
    requires WF(it) && |Enc(it) + rest| <= MAX_ARRAY
    requires IsMap(it) && DistinctFields(it.kids)
    ensures Parse(Enc(it) + rest) == Ok(r) <==> Describes(it, r)
  {
    hide Describes, Parse, Denote;
    DecodeComplete(it, rest);
    ParseMeaning(Enc(it) + rest);
    DenoteIffDescribes(it, r);
  }

  /** The `user.id` bytes of a request map. */
  function UserIdOf(it: Item): Option<bytes>
  {
    if it.Nest? then Body(Field(Kids(Field(it.kids, U(3))), T(ID))) else None
  }

  lemma HandleEncodesUserId(it: Item, r: Request)
    requires DescribesRest(it, r)
    ensures UserIdOf(it).Some? && r.userHandle == Base64Url.Encode(UserIdOf(it).value)
  {
    hide Field, Base64Url.Encode, TopShape, AlgsIn, ExcludedIn;
  }

  /** A map that describes a request in everything else is accepted exactly when its `user.id` is not empty. */
  lemma AcceptedIffUserId(it: Item, r: Request, rest: bytes)
    requires WF(it) && |Enc(it) + rest| <= MAX_ARRAY
    requires IsMap(it) && DistinctFields(it.kids) && DescribesRest(it, r)
    ensures UserIdOf(it).Some?
    ensures Parse(Enc(it) + rest).Ok? <==> UserIdOf(it).value != []
    ensures Parse(Enc(it) + rest).Ok? ==> Parse(Enc(it) + rest).value == r
  {
    hide DescribesRest, Parse, Base64Url.Encode, UserIdOf, DistinctFields, Enc, WF;
    HandleEncodesUserId(it, r);
    Base64Url.EncodeEmpty(UserIdOf(it).value);
    RoundTrip(it, r, rest);
    if Parse(Enc(it) + rest).Ok? {
      var q := Parse(Enc(it) + rest).value;
      RoundTrip(it, q, rest);
      HandleEncodesUserId(it, q);
    }
  }

  lemma DescribesOrderFree(a: Item, b: Item, r: Request)
    requires IsMap(b) && Describes(a, r) && DistinctFields(a.kids) && DistinctFields(b.kids)
    requires PairsWithin(a.kids, b.kids) && PairsWithin(b.kids, a.kids)
    ensures Describes(b, r)
  {
    hide Field, AlgsIn, ExcludedIn;
    FieldOrderFree(a.kids, b.kids, U(1));
    FieldOrderFree(a.kids, b.kids, U(2));
    FieldOrderFree(a.kids, b.kids, U(3));
    FieldOrderFree(a.kids, b.kids, U(4));
    FieldOrderFree(a.kids, b.kids, U(5));
    ShapeOrderFree(a.kids, b.kids);
  }

  lemma ShapeOrderFree(kids: seq<Item>, kids': seq<Item>)
    requires PairsWithin(kids', kids) && TopShape(kids)
    ensures TopShape(kids')
  {
    hide TopPair;
  }

  /** Reordering the pairs of a request map, known or unknown, never changes what the parser returns. */
  lemma OrderFree(a: Item, b: Item, x: bytes, y: bytes, r: Request)
    requires WF(a) && WF(b) && |Enc(a) + x| <= MAX_ARRAY && |Enc(b) + y| <= MAX_ARRAY
    requires IsMap(a) && IsMap(b) && DistinctFields(a.kids) && DistinctFields(b.kids)
    requires PairsWithin(a.kids, b.kids) && PairsWithin(b.kids, a.kids)
    ensures Parse(Enc(a) + x) == Ok(r) <==> Parse(Enc(b) + y) == Ok(r)
  {
    hide Describes, Parse, PairsWithin, DistinctFields;
    RoundTrip(a, r, x);
    RoundTrip(b, r, y);
    if Describes(a, r) { DescribesOrderFree(a, b, r); }
    if Describes(b, r) { DescribesOrderFree(b, a, r); }
  }

  /** An accepted request always names a supported algorithm, and only supported ones. */
  lemma OnlySupported(data: bytes)
    requires |data| <= MAX_ARRAY
    ensures Parse(data).Ok? ==> Parse(data).value.requestedAlgs != []
                                && forall a :: a in Parse(data).value.requestedAlgs ==> a == ES256 || a == RS256
  {
    hide TopStep, AlgsStep, RpStep, UserStep, ExcludeStep;
    forall f: Fields, b: bytes | Supported(f.algs) && TopStep(f, b).More?
      ensures Supported(TopStep(f, b).s.algs)
    {
      TopKeepsSupported(f, b);
    }
    NestKeeps(true, TopStep, (f: Fields) => Supported(f.algs), data, NO_FIELDS);
  }

  lemma TopKeepsSupported(f: Fields, b: bytes)
    requires Supported(f.algs) && TopStep(f, b).More?
    ensures Supported(TopStep(f, b).s.algs)
  {
    hide AlgsStep, RpStep, UserStep, ExcludeStep, ParseNest, ReadUnsigned, ReadString, Decode;
    forall algs: seq<int>, s: bytes | Supported(algs) && AlgsStep(algs, s).More?
      ensures Supported(AlgsStep(algs, s).s)
    {
      AlgsKeepSupported(algs, s);
    }
    NestKeeps(false, AlgsStep, Supported, ReadUnsigned(b).rest, f.algs);
  }

  lemma AlgsKeepSupported(algs: seq<int>, s: bytes)
    requires Supported(algs) && AlgsStep(algs, s).More?
    ensures Supported(AlgsStep(algs, s).s)
  {
    hide ParseNest;
  }

  predicate Supported(algs: seq<int>)
  {
    forall a :: a in algs ==> a == ES256 || a == RS256
  }

  ghost predicate Base64UrlText(h: Option<bytes>)
  {
    h.Some? ==> exists u :: h.value == Base64Url.Encode(u)
  }

  /** The user handle of an accepted request is the base64url text of some bytes. */
  lemma HandleIsEncoded(data: bytes)
    ensures Parse(data).Ok? ==> exists u :: Parse(data).value.userHandle == Base64Url.Encode(u)
  {
    hide TopStep, Base64UrlText, ParseNest;
    forall f: Fields, b: bytes | Base64UrlText(f.user.handle) && TopStep(f, b).More?
      ensures Base64UrlText(TopStep(f, b).s.user.handle)
    {
      TopKeepsHandle(f, b);
    }
    assert Base64UrlText(None) by { NoHandle(); }
    NestKeeps(true, TopStep, (f: Fields) => Base64UrlText(f.user.handle), data, NO_FIELDS);
    var r := ParseNest(true, TopStep, data, NO_FIELDS);
    if r.More? && r.s.user.handle.Some? { HandleWitness(r.s.user.handle); }
  }

  lemma NoHandle()
    ensures Base64UrlText(None)
  {}

  lemma HandleWitness(h: Option<bytes>)
    requires Base64UrlText(h) && h.Some?
    ensures exists u :: h.value == Base64Url.Encode(u)
  {}

  lemma TopKeepsHandle(f: Fields, b: bytes)
    requires Base64UrlText(f.user.handle) && TopStep(f, b).More?
    ensures Base64UrlText(TopStep(f, b).s.user.handle)
  {
    hide AlgsStep, RpStep, UserStep, ExcludeStep, ParseNest, ReadUnsigned, ReadString, Decode, Base64UrlText;
    forall u: User, s: bytes | Base64UrlText(u.handle) && UserStep(u, s).More?
      ensures Base64UrlText(UserStep(u, s).s.handle)
    {
      UserKeepsHandle(u, s);
    }
    NestKeeps(true, UserStep, (u: User) => Base64UrlText(u.handle), ReadUnsigned(b).rest, f.user);
  }

  lemma UserKeepsHandle(u: User, s: bytes)
    requires Base64UrlText(u.handle) && UserStep(u, s).More?
    ensures Base64UrlText(UserStep(u, s).s.handle)
  {
    hide ReadString, Decode, Base64Url.Encode;
  }

  /** Bytes held by the fields; base64url text counts half, for it is at most twice as long as its bytes. */
  function Size(f: Fields): nat
  {
    Len(f.hash) + RpSize(f.rp) + UserSize(f.user) + |f.algs| + SumLen(f.exclude) / 2
  }

  function RpSize(r: Rp): nat { Len(r.id) + Len(r.name) }
  function UserSize(u: User): nat { Len(u.handle) / 2 + Len(u.name) + Len(u.display) }

  /** Everything copied out of the request, plus one for each algorithm and ID, is paid for by input bytes. */
  lemma CopiesBounded(data: bytes)
    ensures match ParseNest(true, TopStep, data, NO_FIELDS) case Stop(_) => true case More(f, rest) => Size(f) + |rest| < |data|
    ensures Parse(data).Ok? ==>
      var r := Parse(data).value;
      && |r.clientDataHash| + |r.rpId| + |r.userHandle| / 2 + |r.userName| + |r.requestedAlgs| + SumLen(r.excludeList) / 2 < |data|
      && |r.rpName| < |data| && |r.userDisplayName| < |data|
  {
    hide TopStep, SumLen;
    forall f, s | TopStep(f, s).More?
      ensures Size(TopStep(f, s).s) + |TopStep(f, s).rest| <= Size(f) + |s|
    {
      TopBound(f, s);
    }
    assert SumLen([]) == 0 by { NoIds(); }
    NestBound(true, TopStep, Size, data, NO_FIELDS);
  }

  lemma NoIds()
    ensures SumLen([]) == 0
  {}

  lemma RpBound(r: Rp, s: bytes)
    requires RpStep(r, s).More?
    ensures RpSize(RpStep(r, s).s) + |RpStep(r, s).rest| <= RpSize(r) + |s|
  {}

  lemma UserBound(u: User, s: bytes)
    requires UserStep(u, s).More?
    ensures UserSize(UserStep(u, s).s) + |UserStep(u, s).rest| <= UserSize(u) + |s|
  {
    hide Decode, Base64Url.Encode, ReadString;
    StringBound(true, s);
    var b1 := ReadString(true, s).rest;
    StringBound(true, b1);
    StringBound(false, b1);
    var x := ReadString(false, b1);
    if x.Got? { Base64Url.EncodeLength(x.v); }
  }

  lemma ParamBound(p: Param, s: bytes)
    requires ParamStep(p, s).More?
    ensures |ParamStep(p, s).rest| <= |s|
  {}

  lemma AlgsBound(algs: seq<int>, s: bytes)
    requires AlgsStep(algs, s).More?
    ensures |AlgsStep(algs, s).s| + |AlgsStep(algs, s).rest| <= |algs| + |s|
  {
    hide ParamStep, ParseNest;
    forall p, t | ParamStep(p, t).More?
      ensures |ParamStep(p, t).rest| <= |t|
    {
      ParamBound(p, t);
    }
    NestBound(true, ParamStep, (_: Param) => 0, s, NO_PARAM);
  }

  lemma ExDescBound(id: Option<bytes>, s: bytes)
    requires ExDescStep(id, s).More?
    ensures Len(ExDescStep(id, s).s) + |ExDescStep(id, s).rest| <= Len(id) + |s|
  {}

  lemma ExcludeBound(ids: seq<bytes>, s: bytes)
    requires ExcludeStep(ids, s).More?
    ensures SumLen(ExcludeStep(ids, s).s) / 2 + |ExcludeStep(ids, s).rest| <= SumLen(ids) / 2 + |s|
  {
    hide ExDescStep, ParseNest, SumLen, Base64Url.Encode;
    forall id, t | ExDescStep(id, t).More?
      ensures Len(ExDescStep(id, t).s) + |ExDescStep(id, t).rest| <= Len(id) + |t|
    {
      ExDescBound(id, t);
    }
    NestBound(true, ExDescStep, Len, s, None);
    var id := ParseNest(true, ExDescStep, s, None).s;
    if id.Some? {
      SumLenSnoc(ids, Base64Url.Encode(id.value));
      Base64Url.EncodeLength(id.value);
    }
  }

  lemma TopBound(f: Fields, s: bytes)
    requires TopStep(f, s).More?
    ensures Size(TopStep(f, s).s) + |TopStep(f, s).rest| <= Size(f) + |s|
  {
    hide RpStep, UserStep, AlgsStep, ExcludeStep, ParseNest, RpSize, UserSize, SumLen, Decode, ReadString;
    var b1, key := ReadUnsigned(s).rest, ReadUnsigned(s).v;
    StringBound(false, b1);
    if key == 2 {
      forall r, t | RpStep(r, t).More?
        ensures RpSize(RpStep(r, t).s) + |RpStep(r, t).rest| <= RpSize(r) + |t|
      {
        RpBound(r, t);
      }
      NestBound(true, RpStep, RpSize, b1, f.rp);
    } else if key == 3 {
      forall u, t | UserStep(u, t).More?
        ensures UserSize(UserStep(u, t).s) + |UserStep(u, t).rest| <= UserSize(u) + |t|
      {
        UserBound(u, t);
      }
      NestBound(true, UserStep, UserSize, b1, f.user);
    } else if key == 4 {
      forall a, t | AlgsStep(a, t).More?
        ensures |AlgsStep(a, t).s| + |AlgsStep(a, t).rest| <= |a| + |t|
      {
        AlgsBound(a, t);
      }
      NestBound(false, AlgsStep, (a: seq<int>) => |a|, b1, f.algs);
    } else if key == 5 {
      forall x, t | ExcludeStep(x, t).More?
        ensures SumLen(ExcludeStep(x, t).s) / 2 + |ExcludeStep(x, t).rest| <= SumLen(x) / 2 + |t|
      {
        ExcludeBound(x, t);
      }
      NestBound(false, ExcludeStep, (x: seq<bytes>) => SumLen(x) / 2, b1, f.exclude);
    }
  }
}
