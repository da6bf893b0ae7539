/** What a getAssertion request map says field by field, and that the parser returns exactly that. */
module GetAssertionMeaning {
  import opened Prelude
  import opened CborSyntax
  import opened CborDecoding
  import opened RequestFold
  import opened GetAssertionRequest

  // -- what a request map says, field by field -----------------------------------------

  ghost predicate DescPair(k: Item, v: Item)
  {
    IsText(k) && (k.body == ID ==> IsBlob(v)) && (k.body == TYPE ==> IsText(v))
  }

  ghost predicate DescShape(it: Item)
  {
    it.Nest? && it.isMap && DescPairs(it.kids)
  }

  /** The credential ID a descriptor contributes: none unless it has one and is typed "public-key". */
  function DescId(it: Item): Option<bytes>
    requires it.Nest?
  {
    if Body(Field(it.kids, T(TYPE))) == Some(PUBLIC_KEY) then Body(Field(it.kids, T(ID))) else None
  }

  ghost predicate DescShapes(kids: seq<Item>)
  {
    forall i :: 0 <= i < |kids| ==> DescShape(kids[i])
  }

  ghost predicate AllowShape(it: Item)
  {
    it.Nest? && !it.isMap && DescShapes(it.kids)
  }

  /** The IDs of an allowList in order, the descriptors that contribute none dropped. */
  ghost function AllowIds(kids: seq<Item>): seq<bytes>
    requires DescShapes(kids)
  {
    if kids == [] then [] else
    assert DescShape(kids[0]);
    (if DescId(kids[0]).Some? then [DescId(kids[0]).value] else []) + AllowIds(kids[1..])
  }

  ghost predicate OptionPair(k: Item, v: Item)
  {
    IsText(k) && (k.body in {UP, UV} ==> IsFlag(v))
  }

  ghost predicate OptionPairs(kids: seq<Item>)
  {
    forall i :: 0 <= i < |kids| / 2 ==> OptionPair(KeyAt(kids, i), ValAt(kids, i))
  }

  ghost predicate OptionShape(it: Item)
  {
    it.Nest? && it.isMap && OptionPairs(it.kids)
  }

  function FlagOr(it: Option<Item>, d: bool): bool
  {
    if it.Some? && it.value.Simple? then it.value.ai == 21 else d
  }

  ghost predicate TopPair(k: Item, v: Item)
  {
    && IsUint(k)
    && (k.v == 1 ==> IsText(v))
    && (k.v == 2 ==> IsBlob(v) && |v.body| == 32)
    && (k.v == 3 ==> AllowShape(v))
    && (k.v == 5 ==> OptionShape(v))
  }

  ghost predicate TopShape(kids: seq<Item>)
  {
    forall i :: 0 <= i < |kids| / 2 ==> TopPair(KeyAt(kids, i), ValAt(kids, i))
  }

  /** The fields of request `r`, and nothing else, are what the map `it` says; any other keys are free. */
  ghost predicate Describes(it: Item, r: Request)
  {
    && it.Nest? && it.isMap && TopShape(it.kids)
    && r.rpId != [] && Body(Field(it.kids, U(1))) == Some(r.rpId)
    && Body(Field(it.kids, U(2))) == Some(r.clientDataHash)
    && r.allowList == AllowOf(Field(it.kids, U(3)))
    && r.up == (match Field(it.kids, U(5)) case Some(v) => v.Nest? && FlagOr(Field(v.kids, T(UP)), true) case None => true)
    && r.uv == (match Field(it.kids, U(5)) case Some(v) => v.Nest? && FlagOr(Field(v.kids, T(UV)), false) case None => false)
  }

  ghost predicate DescPairs(kids: seq<Item>)
  {
    forall i :: 0 <= i < |kids| / 2 ==> DescPair(KeyAt(kids, i), ValAt(kids, i))
  }

  lemma {:induction false} DescFold(kids: seq<Item>, d: Desc)
    ensures FoldD(2, DescD, kids, d) ==
      if DescPairs(kids)
      then Ok(Desc(Body(LastOr(T(ID), kids, Wrap(d.id))), Body(LastOr(T(TYPE), kids, Wrap(d.ty)))))
      else Err(BadCbor)
    decreases |kids|
  {
    if |kids| >= 2 {
      PairShift(kids);
      var k, v := KeyAt(kids, 0), ValAt(kids, 0);
      var r := DescD(d, kids[..2]);
      assert r.Ok? == DescPair(k, v);
      assert DescPairs(kids) == (DescPair(k, v) && DescPairs(kids[2..])) by { PairsCons(kids); }
      if r.Ok? {
        DescFold(kids[2..], r.value);
        LastDefault(T(ID), kids[2..], Some(v), Wrap(r.value.id));
        LastDefault(T(TYPE), kids[2..], Some(v), Wrap(r.value.ty));
      }
    }
  }

  lemma PairsCons(kids: seq<Item>)
    requires |kids| >= 2
    ensures DescPairs(kids) == (DescPair(kids[0], kids[1]) && DescPairs(kids[2..]))
    ensures OptionPairs(kids) == (OptionPair(kids[0], kids[1]) && OptionPairs(kids[2..]))
    ensures TopShape(kids) == (TopPair(kids[0], kids[1]) && TopShape(kids[2..]))
  {
    PairShift(kids);
    forall i | 0 < i < |kids| / 2
      ensures KeyAt(kids, i) == KeyAt(kids[2..], i - 1) && ValAt(kids, i) == ValAt(kids[2..], i - 1)
    {}
  }

  function WrapFlag(x: bool): Option<Item>
  {
    Some(Simple(if x then 21 else 20))
  }

  lemma {:induction false} OptionFold(kids: seq<Item>, o: Options)
    ensures FoldD(2, OptionD, kids, o) ==
      if OptionPairs(kids)
      then Ok(Options(FlagOr(LastOr(T(UP), kids, WrapFlag(o.up)), true), FlagOr(LastOr(T(UV), kids, WrapFlag(o.uv)), false)))
      else Err(BadCbor)
    decreases |kids|
  {
    if |kids| >= 2 {
      PairShift(kids);
      PairsCons(kids);
      var k, v := kids[0], kids[1];
      var r := OptionD(o, kids[..2]);
      assert r.Ok? == OptionPair(k, v);
      if r.Ok? {
        OptionFold(kids[2..], r.value);
        LastDefault(T(UP), kids[2..], Some(v), WrapFlag(r.value.up));
        LastDefault(T(UV), kids[2..], Some(v), WrapFlag(r.value.uv));
      }
    }
  }

  lemma AllowOne(it: Item, ids: seq<bytes>)
    ensures AllowD(ids, [it]) ==
      if DescShape(it) then Ok(ids + if DescId(it).Some? then [DescId(it).value] else []) else Err(BadCbor)
  {
    if it.Nest? && it.isMap {
      DescFold(it.kids, NO_DESC);
      assert ids + [] == ids;
    }
  }

  lemma DescShapesCons(kids: seq<Item>)
    requires kids != []
    ensures DescShapes(kids) == (DescShape(kids[0]) && DescShapes(kids[1..]))
  {
    hide DescShape;
    assert forall i :: 0 < i < |kids| ==> kids[i] == kids[1..][i - 1];
  }

  lemma {:induction false} AllowFold(kids: seq<Item>, ids: seq<bytes>)
    ensures FoldD(1, AllowD, kids, ids) == if DescShapes(kids) then Ok(ids + AllowIds(kids)) else Err(BadCbor)
    decreases |kids|
  {
    hide DescShape, DescShapes, AllowD, DescId, AllowIds;
    if kids == [] {
      NoDescriptors();
      assert ids + [] == ids;
    } else {
      assert kids[..1] == [kids[0]];
      AllowOne(kids[0], ids);
      DescShapesCons(kids);
      var r := AllowD(ids, kids[..1]);
      if r.Ok? {
        AllowFold(kids[1..], r.value);
        if DescShapes(kids) {
          AllowIdsCons(kids);
          assert r.value + AllowIds(kids[1..]) == ids + AllowIds(kids);
        }
      }
    }
  }

  lemma NoDescriptors()
    ensures DescShapes([]) && AllowIds([]) == []
  {}

  lemma AllowIdsCons(kids: seq<Item>)
    requires kids != [] && DescShapes(kids) && DescShape(kids[0]) && DescShapes(kids[1..])
    ensures AllowIds(kids) == (if DescId(kids[0]).Some? then [DescId(kids[0]).value] else []) + AllowIds(kids[1..])
  {
    hide DescShape, DescShapes, DescId;
  }

  ghost function AllowOf(v: Option<Item>): seq<bytes>
  {
    if v.Some? && AllowShape(v.value) then AllowIds(v.value.kids) else []
  }

  ghost function OptionsOf(v: Option<Item>, o: Options): Options
  {
    if v.Some? && v.value.Nest?
    then Options(FlagOr(LastOr(T(UP), v.value.kids, WrapFlag(o.up)), true), FlagOr(LastOr(T(UV), v.value.kids, WrapFlag(o.uv)), false))
    else o
  }

  /** One top-level pair, whatever its key. */
  lemma TopPairD(f: Fields, k: Item, v: Item)
    ensures TopD(f, [k, v]).Ok? == TopPair(k, v)
    ensures TopPair(k, v) ==> TopD(f, [k, v]) == Ok(Fields(
              if k.v == 1 then Some(v.body) else f.rpId,
              if k.v == 2 then Some(v.body) else f.hash,
              if k.v == 3 then f.allow + AllowOf(Some(v)) else f.allow,
              if k.v == 5 then OptionsOf(Some(v), f.opts) else f.opts))
  {
    if IsUint(k) && k.v == 3 && v.Nest? { AllowFold(v.kids, f.allow); }
    if IsUint(k) && k.v == 5 && v.Nest? { OptionFold(v.kids, f.opts); }
  }

  lemma {:induction false} TopFold(kids: seq<Item>, f: Fields)
    requires DistinctFields(kids)
    ensures FoldD(2, TopD, kids, f).Ok? == TopShape(kids)
    ensures TopShape(kids) ==> FoldD(2, TopD, kids, f) == Ok(Fields(
              Body(LastOr(U(1), kids, Wrap(f.rpId))), Body(LastOr(U(2), kids, Wrap(f.hash))),
              f.allow + AllowOf(Field(kids, U(3))), OptionsOf(Field(kids, U(5)), f.opts)))
    decreases |kids|
  {
    if |kids| >= 2 {
      PairShift(kids);
      PairsCons(kids);
      DistinctTail(kids);
      var k, v, tail := kids[0], kids[1], kids[2..];
      TopPairD(f, k, v);
      if TopPair(k, v) {
        var f' := TopD(f, kids[..2]).value;
        TopFold(tail, f');
        LastDefault(U(1), tail, Some(v), Wrap(f'.rpId));
        LastDefault(U(2), tail, Some(v), Wrap(f'.hash));
        if k.v == 3 {
          assert IsKey(k, U(3));
          LastAbsent(U(3), tail, Some(v));
          LastAbsent(U(3), tail, None);
          assert f'.allow + [] == f'.allow;
        } else {
          assert !IsKey(k, U(3));
        }
        if k.v == 5 {
          assert IsKey(k, U(5));
          LastAbsent(U(5), tail, Some(v));
          LastAbsent(U(5), tail, None);
        } else {
          assert !IsKey(k, U(5));
        }
      }
    } else {
      assert f.allow + [] == f.allow;
    }
  }

  lemma FieldShape(kids: seq<Item>, n: nat)
    requires TopShape(kids)
    ensures Field(kids, U(n)).Some? ==> TopPair(Num(false, 0, n), Field(kids, U(n)).value)
  {
    FieldShapeFrom(kids, n, None);
  }

  lemma {:induction false} FieldShapeFrom(kids: seq<Item>, n: nat, d: Option<Item>)
    requires TopShape(kids) && (d.Some? ==> TopPair(Num(false, 0, n), d.value))
    ensures LastOr(U(n), kids, d).Some? ==> TopPair(Num(false, 0, n), LastOr(U(n), kids, d).value)
    decreases |kids|
  {
    if |kids| >= 2 {
      PairsCons(kids);
      FieldShapeFrom(kids[2..], n, if IsKey(kids[0], U(n)) then Some(kids[1]) else d);
    }
  }

  /** A map with distinct keys stands for exactly the request whose fields it spells out, in whatever order. */
  lemma DenoteIffDescribes(it: Item, r: Request)
    requires it.Nest? && it.isMap && DistinctFields(it.kids)
    ensures Denote(it) == Ok(r) <==> Describes(it, r)
  {
    TopFold(it.kids, NO_FIELDS);
    if TopShape(it.kids) {
      assert [] + AllowOf(Field(it.kids, U(3))) == AllowOf(Field(it.kids, U(3)));
      FieldShape(it.kids, 3);
      FieldShape(it.kids, 5);
      var v := Field(it.kids, U(5));
      if v.Some? {
        LastDefault(T(UP), v.value.kids, WrapFlag(true), None);
        LastDefault(T(UV), v.value.kids, WrapFlag(false), None);
      }
    }
  }

  /** The parser inverts every encoding of every request: any header widths, key order, unknown fields and trailing bytes. */
  lemma RoundTrip(it: Item, r: Request, rest: bytes)
    requires WF(it) && |Enc(it) + rest| <= MAX_ARRAY
    requires it.Nest? && it.isMap && DistinctFields(it.kids)
    ensures Parse(Enc(it) + rest) == Ok(r) <==> Describes(it, r)
  {
    DecodeComplete(it, rest);
    ParseMeaning(Enc(it) + rest);
    DenoteIffDescribes(it, r);
  }

  /** Reordering the pairs of a request map, known or unknown, never changes what the parser returns. */
  lemma OrderFree(a: Item, b: Item, x: bytes, y: bytes, r: Request)
    requires WF(a) && WF(b) && |Enc(a) + x| <= MAX_ARRAY && |Enc(b) + y| <= MAX_ARRAY
    requires a.Nest? && a.isMap && b.Nest? && b.isMap && DistinctFields(a.kids) && DistinctFields(b.kids)
    requires PairsWithin(a.kids, b.kids) && PairsWithin(b.kids, a.kids)
    ensures Parse(Enc(a) + x) == Ok(r) <==> Parse(Enc(b) + y) == Ok(r)
  {
    RoundTrip(a, r, x);
    RoundTrip(b, r, y);
    if Describes(a, r) { DescribesOrderFree(a, b, r); }
    if Describes(b, r) { DescribesOrderFree(b, a, r); }
  }

  lemma DescribesOrderFree(a: Item, b: Item, r: Request)
    requires b.Nest? && b.isMap && Describes(a, r) && DistinctFields(a.kids) && DistinctFields(b.kids)
    requires PairsWithin(a.kids, b.kids) && PairsWithin(b.kids, a.kids)
    ensures Describes(b, r)
  {
    FieldOrderFree(a.kids, b.kids, U(1));
    FieldOrderFree(a.kids, b.kids, U(2));
    FieldOrderFree(a.kids, b.kids, U(3));
    FieldOrderFree(a.kids, b.kids, U(5));
    ShapeOrderFree(a.kids, b.kids);
  }

  lemma ShapeOrderFree(kids: seq<Item>, kids': seq<Item>)
    requires PairsWithin(kids', kids) && TopShape(kids)
    ensures TopShape(kids')
  {}

  function Size(f: Fields): nat
  {
    Len(f.rpId) + Len(f.hash) + SumLen(f.allow)
  }

  /** Everything copied out of the request, plus one for each ID, is paid for by input bytes, whatever counts are declared. */
  lemma CopiesBounded(data: bytes)
    ensures Parse(data).Ok? ==>
              var r := Parse(data).value; |r.rpId| + |r.clientDataHash| + SumLen(r.allowList) < |data|
  {
    hide TopStep;
    forall f, s | TopStep(f, s).More?
      ensures Size(TopStep(f, s).s) + |TopStep(f, s).rest| <= Size(f) + |s|
    {
      TopBound(f, s);
    }
    NestBound(true, TopStep, Size, data, NO_FIELDS);
  }

  lemma DescBound(d: Desc, s: bytes)
    requires DescStep(d, s).More?
    ensures Len(DescStep(d, s).s.id) + |DescStep(d, s).rest| <= Len(d.id) + |s|
  {}

  lemma AllowStepBound(ids: seq<bytes>, s: bytes)
    requires AllowStep(ids, s).More?
    ensures SumLen(AllowStep(ids, s).s) + |AllowStep(ids, s).rest| <= SumLen(ids) + |s|
  {
    hide DescStep, ParseNest;
    forall d, t | DescStep(d, t).More?
      ensures Len(DescStep(d, t).s.id) + |DescStep(d, t).rest| <= Len(d.id) + |t|
    {
      DescBound(d, t);
    }
    NestBound(true, DescStep, (d: Desc) => Len(d.id), s, NO_DESC);
    var d := ParseNest(true, DescStep, s, NO_DESC).s;
    if d.id.Some? { SumLenSnoc(ids, d.id.value); }
  }

  lemma OptionBound(o: Options, s: bytes)
    requires OptionStep(o, s).More?
    ensures |OptionStep(o, s).rest| <= |s|
  {}

  lemma TopBound(f: Fields, s: bytes)
    requires TopStep(f, s).More?
    ensures Size(TopStep(f, s).s) + |TopStep(f, s).rest| <= Size(f) + |s|
  {
    hide AllowStep, OptionStep, ParseNest, SumLen;
    forall ids, t | AllowStep(ids, t).More?
      ensures SumLen(AllowStep(ids, t).s) + |AllowStep(ids, t).rest| <= SumLen(ids) + |t|
    {
      AllowStepBound(ids, t);
    }
    forall o, t | OptionStep(o, t).More?
      ensures |OptionStep(o, t).rest| <= |t|
    {
      OptionBound(o, t);
    }
    var b1 := ReadUnsigned(s).rest;
    NestBound(false, AllowStep, SumLen, b1, f.allow);
    NestBound(true, OptionStep, (_: Options) => 0, b1, f.opts);
  }
}
