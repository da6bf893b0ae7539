/**
 Request maps whose keys repeat. The parsers do not look for repeats: a later text or byte string wins, and the entries of
 the maps and arrays under one key add up. With that each parser is described on every buffer.
 */
module RepeatedKeys {
  import opened Prelude
  import opened CborSyntax
  import opened RequestFold

  /** The entries of all containers under a key, in order. */
  function Joined(kvs: seq<Item>, key: Key): seq<Item>
  {
    if |kvs| < 2 then []
    else (if IsKey(kvs[0], key) && kvs[1].Nest? then kvs[1].kids else []) + Joined(kvs[2..], key)
  }

  /** Maps hold whole pairs, as all decoded ones do. */
  predicate WholePairs(items: seq<Item>)
  {
    forall i :: 0 <= i < |items| && items[i].Nest? && items[i].isMap ==> |items[i].kids| % 2 == 0
  }

  lemma {:induction false} DecodedWholePairs(items: seq<Item>)
    requires AllWF(items)
    ensures WholePairs(items)
  {
    if items != [] {
      DecodedWholePairs(items[1..]);
      assert WF(items[0]);
      assert forall i :: 0 < i < |items| ==> items[i] == items[1..][i - 1];
    }
  }

  lemma {:induction false} FoldConcat<S>(ar: nat, dstep: (S, seq<Item>) -> Result<S, Fault>, a: seq<Item>, b: seq<Item>, acc: S)
    requires 1 <= ar <= 2 && |a| % ar == 0
    ensures FoldD(ar, dstep, a + b, acc) ==
      match FoldD(ar, dstep, a, acc) case Err(e) => Err(e) case Ok(x) => FoldD(ar, dstep, b, x)
    decreases |a|
  {
    if a == [] {
      assert a + b == b;
    } else {
      assert (a + b)[..ar] == a[..ar] && (a + b)[ar..] == a[ar..] + b;
      var r := dstep(acc, a[..ar]);
      if r.Ok? { FoldConcat(ar, dstep, a[ar..], b, r.value); }
    }
  }

  /** The fold over the joined entries, seen from the first pair. */
  lemma JoinedFold<S>(ar: nat, dstep: (S, seq<Item>) -> Result<S, Fault>, kvs: seq<Item>, key: Key, acc: S)
    requires 1 <= ar <= 2 && |kvs| >= 2
    requires IsKey(kvs[0], key) && kvs[1].Nest? ==> |kvs[1].kids| % ar == 0
    ensures FoldD(ar, dstep, Joined(kvs, key), acc) ==
      if IsKey(kvs[0], key) && kvs[1].Nest?
      then (match FoldD(ar, dstep, kvs[1].kids, acc) case Err(e) => Err(e) case Ok(x) => FoldD(ar, dstep, Joined(kvs[2..], key), x))
      else FoldD(ar, dstep, Joined(kvs[2..], key), acc)
  {
    hide FoldD;
    if IsKey(kvs[0], key) && kvs[1].Nest? {
      FoldConcat(ar, dstep, kvs[1].kids, Joined(kvs[2..], key), acc);
    } else {
      assert [] + Joined(kvs[2..], key) == Joined(kvs[2..], key);
    }
  }

  lemma FoldNothing<S>(ar: nat, dstep: (S, seq<Item>) -> Result<S, Fault>, acc: S)
    requires 1 <= ar <= 2
    ensures FoldD(ar, dstep, [], acc) == Ok(acc)
  {}

  lemma WholeTail(kvs: seq<Item>)
    requires |kvs| >= 2 && WholePairs(kvs)
    ensures WholePairs(kvs[2..])
  {}
}

/** Every getAssertion request map. */
module GetAssertionEveryMap {
  import opened Prelude
  import opened CborSyntax
  import opened CborDecoding
  import opened RequestFold
  import opened RepeatedKeys
  import opened GetAssertionRequest
  import opened GetAssertionMeaning

  /** What a request map says, keys repeated or not. */
  ghost predicate Says(it: Item, r: Request)
  {
    && it.Nest? && it.isMap && TopShape(it.kids)
    && Body(Field(it.kids, U(1))) == Some(r.rpId) && r.rpId != []
    && Body(Field(it.kids, U(2))) == Some(r.clientDataHash)
    && var listed, options := Joined(it.kids, U(3)), Joined(it.kids, U(5));
    && DescShapes(listed) && r.allowList == AllowIds(listed)
    && r.up == FlagOr(Field(options, T(UP)), true) && r.uv == FlagOr(Field(options, T(UV)), false)
  }

  lemma {:induction false} EveryTopFold(kids: seq<Item>, f: Fields)
    requires WholePairs(kids)
    ensures FoldD(2, TopD, kids, f).Ok? == TopShape(kids)
    ensures TopShape(kids) ==>
      var a, o := FoldD(1, AllowD, Joined(kids, U(3)), f.allow), FoldD(2, OptionD, Joined(kids, U(5)), f.opts);
      && a.Ok? && o.Ok?
      && FoldD(2, TopD, kids, f) == Ok(Fields(Body(LastOr(U(1), kids, Wrap(f.rpId))), Body(LastOr(U(2), kids, Wrap(f.hash))),
                                              a.value, o.value))
    decreases |kids|
  {
    hide TopPair, AllowD, OptionD, TopShape, WholePairs;
    if |kids| >= 2 {
      PairShift(kids);
      PairsCons(kids);
      WholeTail(kids);
      var k, v, tail := kids[0], kids[1], kids[2..];
      OneTopPair(f, k, v);
      if TopPair(k, v) {
        var f' := TopD(f, kids[..2]).value;
        EveryTopFold(tail, f');
        LastDefault(U(1), tail, Some(v), Wrap(f'.rpId));
        LastDefault(U(2), tail, Some(v), Wrap(f'.hash));
        assert IsKey(k, U(5)) && v.Nest? ==> |v.kids| % 2 == 0 by { MapUnder(kids); }
        JoinedFold(1, AllowD, kids, U(3), f.allow);
        JoinedFold(2, OptionD, kids, U(5), f.opts);
      }
    } else {
      assert TopShape(kids) by { ShortShape(kids); }
      FoldNothing(1, AllowD, f.allow);
      FoldNothing(2, OptionD, f.opts);
    }
  }

  lemma ShortShape(kids: seq<Item>)
    requires |kids| < 2
    ensures TopShape(kids)
  {}

  lemma MapUnder(kids: seq<Item>)
    requires |kids| >= 2 && WholePairs(kids) && TopPair(kids[0], kids[1])
    ensures IsKey(kids[0], U(5)) && kids[1].Nest? ==> |kids[1].kids| % 2 == 0
  {}

  /** One pair, the containers by their folds. */
  lemma OneTopPair(f: Fields, k: Item, v: Item)
    ensures TopD(f, [k, v]).Ok? == TopPair(k, v)
    ensures TopPair(k, v) ==>
      && IsUint(k)
      && (k.v == 1 || k.v == 2 ==> v.Str?)
      && (k.v == 3 ==> v.Nest? && FoldD(1, AllowD, v.kids, f.allow).Ok?)
      && (k.v == 5 ==> v.Nest? && FoldD(2, OptionD, v.kids, f.opts).Ok?)
      && TopD(f, [k, v]) == Ok(Fields(
           if k.v == 1 then Some(v.body) else f.rpId,
           if k.v == 2 then Some(v.body) else f.hash,
           if k.v == 3 then FoldD(1, AllowD, v.kids, f.allow).value else f.allow,
           if k.v == 5 then FoldD(2, OptionD, v.kids, f.opts).value else f.opts))
  {
    hide FoldD, AllowD, OptionD;
    TopPairD(f, k, v);
  }

  /** A map stands for exactly the request it says. */
  lemma DenoteIffSays(it: Item, r: Request)
    requires WF(it)
    ensures Denote(it) == Ok(r) <==> Says(it, r)
    ensures it.Nest? && it.isMap && TopShape(it.kids) && Denote(it).Err? ==>
      Denote(it).error == if Body(Field(it.kids, U(1))) in {None, Some([])} then MissingRpId else MissingHash
  {
    hide TopShape, DescShapes, AllowIds, OptionPairs;
    if it.Nest? && it.isMap {
      DecodedWholePairs(it.kids);
      EveryTopFold(it.kids, NO_FIELDS);
      var listed, options := Joined(it.kids, U(3)), Joined(it.kids, U(5));
      AllowFold(listed, []);
      OptionFold(options, Options(true, false));
      if TopShape(it.kids) {
        assert [] + AllowIds(listed) == AllowIds(listed);
        LastDefault(T(UP), options, WrapFlag(true), None);
        LastDefault(T(UV), options, WrapFlag(false), None);
      }
    }
  }

  /** On every buffer: a request is returned exactly when the bytes begin with one whole map that says it. */
  lemma ParseIffSays(data: bytes, r: Request)
    requires |data| <= MAX_ARRAY
    ensures Parse(data) == Ok(r) <==> exists it, rest :: WF(it) && data == Enc(it) + rest && Says(it, r)
  {
    hide Says, Denote, Parse, WF, Enc, Decode;
    ParseMeaning(data);
    if Decode(data).Got? {
      var d := Decode(data);
      DecodeSound(data);
      DenoteIffSays(d.v, r);
    }
    forall it, rest | WF(it) && data == Enc(it) + rest && Says(it, r)
      ensures Parse(data) == Ok(r)
    {
      DecodeComplete(it, rest);
      DenoteIffSays(it, r);
    }
  }
}

/** Every makeCredential request map. */
module MakeCredentialEveryMap {
  import opened Prelude
  import opened CborSyntax
  import opened CborDecoding
  import opened RequestFold
  import opened RepeatedKeys
  import opened MakeCredentialRequest
  import opened MakeCredentialMeaning

  /** What a request map says, keys repeated or not. */
  ghost predicate Says(it: Item, r: Request)
  {
    && IsMap(it) && TopShape(it.kids)
    && Body(Field(it.kids, U(1))) == Some(r.clientDataHash)
    && var rp, user := Joined(it.kids, U(2)), Joined(it.kids, U(3));
    && Body(Field(rp, T(ID))) == Some(r.rpId) && r.rpId != []
    && r.rpName == OrElse(Body(Field(rp, T(NAME))), r.rpId)
    && EncodeOpt(Body(Field(user, T(ID)))) == Some(r.userHandle) && r.userHandle != []
    && Body(Field(user, T(NAME))) == Some(r.userName) && r.userName != []
    && r.userDisplayName == OrElse(Body(Field(user, T(DISPLAY_NAME))), r.userName)
    && r.requestedAlgs == AlgsIn(Joined(it.kids, U(4))) && r.requestedAlgs != []
    && r.excludeList == ExcludedIn(Joined(it.kids, U(5)))
  }

  lemma {:induction false} EveryTopFold(kids: seq<Item>, f: Fields)
    requires WholePairs(kids)
    ensures FoldD(2, TopD, kids, f).Ok? == TopShape(kids)
    ensures TopShape(kids) ==>
      var rp, user := FoldD(2, RpD, Joined(kids, U(2)), f.rp), FoldD(2, UserD, Joined(kids, U(3)), f.user);
      var a, x := FoldD(1, AlgsD, Joined(kids, U(4)), f.algs), FoldD(1, ExcludeD, Joined(kids, U(5)), f.exclude);
      && rp.Ok? && user.Ok? && a.Ok? && x.Ok?
      && FoldD(2, TopD, kids, f) == Ok(Fields(Body(LastOr(U(1), kids, Wrap(f.hash))), rp.value, user.value, a.value, x.value))
    decreases |kids|
  {
    hide TopPair, TopD, RpD, UserD, AlgsD, ExcludeD, TopShape, WholePairs;
    if |kids| >= 2 {
      PairShift(kids);
      PairsCons(kids);
      WholeTail(kids);
      var k, v, tail := kids[0], kids[1], kids[2..];
      OneTopPair(f, k, v);
      if TopPair(k, v) {
        var f' := TopD(f, kids[..2]).value;
        EveryTopFold(tail, f');
        LastDefault(U(1), tail, Some(v), Wrap(f'.hash));
        MapUnder(kids);
        JoinedFold(2, RpD, kids, U(2), f.rp);
        JoinedFold(2, UserD, kids, U(3), f.user);
        JoinedFold(1, AlgsD, kids, U(4), f.algs);
        JoinedFold(1, ExcludeD, kids, U(5), f.exclude);
      }
    } else {
      NoPairs(kids);
      FoldNothing(2, RpD, f.rp);
      FoldNothing(2, UserD, f.user);
      FoldNothing(1, AlgsD, f.algs);
      FoldNothing(1, ExcludeD, f.exclude);
    }
  }

  lemma MapUnder(kids: seq<Item>)
    requires |kids| >= 2 && WholePairs(kids) && TopPair(kids[0], kids[1])
    ensures (IsKey(kids[0], U(2)) || IsKey(kids[0], U(3))) && kids[1].Nest? ==> |kids[1].kids| % 2 == 0
  {}

  /** One pair, the containers by their folds. */
  lemma OneTopPair(f: Fields, k: Item, v: Item)
    ensures TopD(f, [k, v]).Ok? == TopPair(k, v)
    ensures TopPair(k, v) ==>
      && IsUint(k)
      && (k.v == 1 ==> v.Str?) && (2 <= k.v <= 5 ==> v.Nest?)
      && (k.v == 2 ==> FoldD(2, RpD, v.kids, f.rp).Ok?) && (k.v == 3 ==> FoldD(2, UserD, v.kids, f.user).Ok?)
      && (k.v == 4 ==> FoldD(1, AlgsD, v.kids, f.algs).Ok?) && (k.v == 5 ==> FoldD(1, ExcludeD, v.kids, f.exclude).Ok?)
      && TopD(f, [k, v]) == Ok(Fields(
           if k.v == 1 then Some(v.body) else f.hash,
           if k.v == 2 then FoldD(2, RpD, v.kids, f.rp).value else f.rp,
           if k.v == 3 then FoldD(2, UserD, v.kids, f.user).value else f.user,
           if k.v == 4 then FoldD(1, AlgsD, v.kids, f.algs).value else f.algs,
           if k.v == 5 then FoldD(1, ExcludeD, v.kids, f.exclude).value else f.exclude))
  {
    hide FoldD, RpD, UserD, AlgsD, ExcludeD;
    TopPairD(f, k, v);
  }

  /** The fields a map leaves the parser with. */
  ghost function FieldsOf(kids: seq<Item>): Fields
  {
    var rp, user := Joined(kids, U(2)), Joined(kids, U(3));
    Fields(Body(Field(kids, U(1))), Rp(Body(Field(rp, T(ID))), Body(Field(rp, T(NAME)))),
           User(EncodeOpt(Body(Field(user, T(ID)))), Body(Field(user, T(NAME))), Body(Field(user, T(DISPLAY_NAME)))),
           AlgsIn(Joined(kids, U(4))), ExcludedIn(Joined(kids, U(5))))
  }

  lemma DenotedFields(it: Item)
    requires WF(it)
    ensures IsMap(it) && TopShape(it.kids) ==> Denote(it) == Finish(FieldsOf(it.kids))
    ensures Denote(it).Ok? ==> IsMap(it) && TopShape(it.kids)
  {
    hide TopShape, AlgsIn, ExcludedIn, FoldD, LastOr, Base64Url.Encode, Finish;
    if IsMap(it) {
      DecodedWholePairs(it.kids);
      EveryTopFold(it.kids, NO_FIELDS);
      var f := NO_FIELDS;
      RpFold(Joined(it.kids, U(2)), f.rp);
      UserFold(Joined(it.kids, U(3)), f.user);
      AlgsFold(Joined(it.kids, U(4)), f.algs);
      ExcludedFold(Joined(it.kids, U(5)), f.exclude);
      assert [] + AlgsIn(Joined(it.kids, U(4))) == AlgsIn(Joined(it.kids, U(4)));
      assert [] + ExcludedIn(Joined(it.kids, U(5))) == ExcludedIn(Joined(it.kids, U(5)));
    }
  }

  /** A map stands for exactly the request it says, and is refused for the first thing it lacks. */
  lemma DenoteIffSays(it: Item, r: Request)
    requires WF(it)
    ensures Denote(it) == Ok(r) <==> Says(it, r)
    ensures IsMap(it) && TopShape(it.kids) && Denote(it).Err? ==>
      var rp, user := Joined(it.kids, U(2)), Joined(it.kids, U(3));
      Denote(it).error ==
        if Body(Field(it.kids, U(1))) == None then MissingHash
        else if Body(Field(rp, T(ID))) in {None, Some([])} then MissingRpId
        else if EncodeOpt(Body(Field(user, T(ID)))) in {None, Some([])} then MissingUserId
        else if Body(Field(user, T(NAME))) in {None, Some([])} then MissingUserName
        else NoSupportedAlg
  {
    hide TopShape, AlgsIn, ExcludedIn, Field, Base64Url.Encode, Denote, Joined;
    DenotedFields(it);
  }

  /** On every buffer: a request is returned exactly when the bytes begin with one whole map that says it. */
  lemma ParseIffSays(data: bytes, r: Request)
    requires |data| <= MAX_ARRAY
    ensures Parse(data) == Ok(r) <==> exists it, rest :: WF(it) && data == Enc(it) + rest && Says(it, r)
  {
    hide Says, Denote, Parse, WF, Enc, Decode;
    ParseMeaning(data);
    if Decode(data).Got? {
      var d := Decode(data);
      DecodeSound(data);
      DenoteIffSays(d.v, r);
    }
    forall it, rest | WF(it) && data == Enc(it) + rest && Says(it, r)
      ensures Parse(data) == Ok(r)
    {
      DecodeComplete(it, rest);
      DenoteIffSays(it, r);
    }
  }
}
