/**
 The shape every loop of the request parsers shares: read a header, then fold a step over the declared
 number of elements or pairs. A step on bytes agrees with a step on decoded items when both see the same
 value; agreement of steps lifts to agreement of loops.
 */
module RequestFold {
  import opened Prelude
  import opened CborSyntax
  import opened CborDecoding

  // Field names and values both parsers compare with, as UTF-8.
  const ID: bytes := [0x69, 0x64]
  const TYPE: bytes := [0x74, 0x79, 0x70, 0x65]
  const PUBLIC_KEY: bytes := [0x70, 0x75, 0x62, 0x6C, 0x69, 0x63, 0x2D, 0x6B, 0x65, 0x79]
  const NAME: bytes := [0x6E, 0x61, 0x6D, 0x65]
  const DISPLAY_NAME: bytes := [0x64, 0x69, 0x73, 0x70, 0x6C, 0x61, 0x79, 0x4E, 0x61, 0x6D, 0x65]

  predicate IsText(it: Item) { it.Str? && it.text }
  predicate IsBlob(it: Item) { it.Str? && !it.text }
  predicate IsUint(it: Item) { it.Num? && !it.neg }

  datatype Run<+S> = Stop(e: Fault) | More(s: S, rest: bytes)

  function Lift<S>(r: Result<S, Fault>, rest: bytes): Run<S>
  {
    match r case Ok(s) => More(s, rest) case Err(e) => Stop(e)
  }

  /** `n` iterations of a parser loop. */
  function Fold<S>(step: (S, bytes) -> Run<S>, b: bytes, n: nat, acc: S): Run<S>
    decreases n
  {
    if n == 0 then More(acc, b)
    else match step(acc, b)
      case Stop(e) => Stop(e)
      case More(a, rest) => Fold(step, rest, n - 1, a)
  }

  lemma FoldNext<S>(step: (S, bytes) -> Run<S>, b: bytes, n: nat, acc: S)
    requires n > 0
    ensures Fold(step, b, n, acc) ==
      match step(acc, b) case Stop(e) => Stop(e) case More(a, rest) => Fold(step, rest, n - 1, a)
  {}

  function SkipRun<S>(acc: S, b: bytes): Run<S>
  {
    match Decode(b) case Fail => Stop(BadCbor) case Got(_, rest) => More(acc, rest)
  }

  /** A parser method begun at `start` either throws `want`'s fault or returns its value at its remainder. */
  ghost predicate Ran<S>(reader: CborReader, start: nat, want: Run<S>, got: Result<S, Fault>)
    reads reader
  {
    && reader.Valid() && start <= reader.pos
    && got == (match want case Stop(e) => Err(e) case More(s, _) => Ok(s))
    && (want.More? ==> reader.Rest() == want.rest)
  }

  /** The same loop over decoded items, `ar` of them per iteration. */
  function FoldD<S>(ar: nat, dstep: (S, seq<Item>) -> Result<S, Fault>, items: seq<Item>, acc: S): Result<S, Fault>
    requires 1 <= ar <= 2
    decreases |items|
  {
    if |items| < ar then Ok(acc)
    else match dstep(acc, items[..ar])
      case Err(e) => Err(e)
      case Ok(a) => FoldD(ar, dstep, items[ar..], a)
  }

  ghost predicate StepAgrees<S>(ar: nat, step: (S, bytes) -> Run<S>, dstep: (S, seq<Item>) -> Result<S, Fault>, acc: S, b: bytes)
  {
    match DecodeN(b, ar)
    case Fail => step(acc, b).Stop?
    case Got(items, rest) => step(acc, b) == Lift(dstep(acc, items), rest)
  }

  ghost predicate Agrees<S(!new)>(ar: nat, step: (S, bytes) -> Run<S>, dstep: (S, seq<Item>) -> Result<S, Fault>)
  {
    forall acc, b :: |b| <= MAX_ARRAY ==> StepAgrees(ar, step, dstep, acc, b)
  }

  lemma {:induction false} FoldAgrees<S(!new)>(ar: nat, step: (S, bytes) -> Run<S>, dstep: (S, seq<Item>) -> Result<S, Fault>,
                                               b: bytes, n: nat, acc: S)
    requires 1 <= ar <= 2 && |b| <= MAX_ARRAY && Agrees(ar, step, dstep)
    ensures match DecodeN(b, ar * n)
            case Fail => Fold(step, b, n, acc).Stop?
            case Got(items, rest) => Fold(step, b, n, acc) == Lift(FoldD(ar, dstep, items, acc), rest)
    decreases n
  {
    if n > 0 {
      DecodeNSplit(b, ar, ar * (n - 1));
      assert ar + ar * (n - 1) == ar * n;
      assert StepAgrees(ar, step, dstep, acc, b);
      var p := DecodeN(b, ar);
      if p.Got? {
        var r := dstep(acc, p.v);
        var q := DecodeN(p.rest, ar * (n - 1));
        if q.Got? {
          assert (p.v + q.v)[..ar] == p.v && (p.v + q.v)[ar..] == q.v;
        }
        if r.Ok? {
          FoldAgrees(ar, step, dstep, p.rest, n - 1, r.value);
        }
      }
    }
  }

  /** One header, then the loop over its elements (arrays) or pairs (maps). */
  function ParseNest<S>(isMap: bool, step: (S, bytes) -> Run<S>, b: bytes, init: S): Run<S>
  {
    match ReadCount(isMap, b)
    case Fail => Stop(BadCbor)
    case Got(n, rest) => Fold(step, rest, n, init)
  }

  function DenoteNest<S>(isMap: bool, dstep: (S, seq<Item>) -> Result<S, Fault>, it: Item, init: S): Result<S, Fault>
  {
    if it.Nest? && it.isMap == isMap then FoldD(if isMap then 2 else 1, dstep, it.kids, init) else Err(BadCbor)
  }

  lemma {:induction false} DecodeNBound(s: bytes, n: nat)
    requires DecodeN(s, n).Got?
    ensures n <= |s| - |DecodeN(s, n).rest|
    decreases n
  {
    if n > 0 {
      DecodeNInv(s, n);
      DecodeNBound(Decode(s).rest, n - 1);
    }
  }

  /** A header read and a decoded container see the same elements. */
  lemma NestDecode(isMap: bool, b: bytes)
    requires |b| <= MAX_ARRAY
    ensures match ReadCount(isMap, b)
            case Fail => Decode(b).Got? ==> !(Decode(b).v.Nest? && Decode(b).v.isMap == isMap)
            case Got(n, rest) =>
              && |rest| <= |b|
              && match DecodeN(rest, (if isMap then 2 else 1) * n)
                 case Fail => Decode(b).Fail?
                 case Got(kids, rest') => Decode(b).Got? && Decode(b).rest == rest' && Decode(b).v.Nest?
                                          && Decode(b).v.isMap == isMap && Decode(b).v.kids == kids
  {
    var h := ReadHead(b);
    if h.GotHead? && h.mt == (if isMap then 5 else 4) {
      var ar := if isMap then 2 else 1;
      if DecodeN(h.rest, ar * h.v).Got? { DecodeNBound(h.rest, ar * h.v); }
    }
  }

  lemma NestAgrees<S(!new)>(isMap: bool, step: (S, bytes) -> Run<S>, dstep: (S, seq<Item>) -> Result<S, Fault>, b: bytes, init: S)
    requires |b| <= MAX_ARRAY && Agrees(if isMap then 2 else 1, step, dstep)
    ensures match Decode(b)
            case Fail => ParseNest(isMap, step, b, init).Stop?
            case Got(it, rest) => ParseNest(isMap, step, b, init) == Lift(DenoteNest(isMap, dstep, it, init), rest)
  {
    hide Fold, FoldD, Agrees, Decode, DecodeN, ReadCount;
    NestDecode(isMap, b);
    var c := ReadCount(isMap, b);
    if c.Got? {
      FoldAgrees(if isMap then 2 else 1, step, dstep, c.rest, c.v, init);
    }
  }

  /** What the scalar reads yield on the item at the cursor. */
  ghost predicate ScalarFacts(b: bytes)
  {
    match Decode(b)
    case Fail => ReadUnsigned(b).Fail? && ReadNegative(b).Fail? && ReadFlag(b).Fail?
                 && ReadString(true, b).Fail? && ReadString(false, b).Fail?
    case Got(it, rest) =>
      && ReadUnsigned(b) == (if it.Num? && !it.neg then Got(it.v, rest) else Fail)
      && ReadNegative(b) == (if it.Num? && it.neg && it.v <= INT64_MAX then Got(-1 - it.v, rest) else Fail)
      && ReadFlag(b) == (if it.Simple? && it.ai == 21 then Got(true, rest)
                         else if it.Simple? && it.ai == 20 then Got(false, rest) else Fail)
      && ReadString(true, b) == (if it.Str? && it.text then Got(it.body, rest) else Fail)
      && ReadString(false, b) == (if it.Str? && !it.text then Got(it.body, rest) else Fail)
      && |b| > 0 && b[0] / 32 == Major(it)
  }

  lemma ScalarReads(b: bytes)
    ensures ScalarFacts(b)
  {}

  /** A key item and a value item are two reads in sequence. */
  lemma PairDecode(b: bytes)
    ensures DecodeN(b, 2) ==
      match Decode(b)
      case Fail => Fail
      case Got(k, rest) => (match Decode(rest) case Fail => Fail case Got(v, rest') => Got([k, v], rest'))
    ensures DecodeN(b, 1) == match Decode(b) case Fail => Fail case Got(k, rest) => Got([k], rest)
  {
    if Decode(b).Got? {
      var k, rest := Decode(b).v, Decode(b).rest;
      DecodeNCons(b, 0, k, rest, [], rest);
      assert [k] + [] == [k];
      if Decode(rest).Got? {
        var v, rest' := Decode(rest).v, Decode(rest).rest;
        DecodeNCons(rest, 0, v, rest', [], rest');
        assert [v] + [] == [v];
        assert [k] + [v] == [k, v];
      }
    }
  }

  /** Both at once: the scalar reads on the key and on the value. */
  lemma PairReads(b: bytes)
    ensures DecodeN(b, 2) ==
      match Decode(b)
      case Fail => Fail
      case Got(k, rest) => (match Decode(rest) case Fail => Fail case Got(v, rest') => Got([k, v], rest'))
    ensures ScalarFacts(b) && (Decode(b).Got? ==> ScalarFacts(Decode(b).rest))
  {
    PairDecode(b);
    ScalarReads(b);
    if Decode(b).Got? { ScalarReads(Decode(b).rest); }
  }

  // -- maps as key-value pairs ---------------------------------------------------------

  /** An unsigned, a negative (-1 - n) or a text key. */
  datatype Key = U(n: nat) | N(n: nat) | T(name: bytes)

  predicate IsKey(k: Item, key: Key)
  {
    match key
    case U(n) => k.Num? && !k.neg && k.v == n
    case N(n) => k.Num? && k.neg && k.v == n
    case T(name) => k.Str? && k.text && k.body == name
  }

  function KeyAt(kvs: seq<Item>, i: nat): Item
    requires i < |kvs| / 2
  {
    kvs[2 * i]
  }

  function ValAt(kvs: seq<Item>, i: nat): Item
    requires i < |kvs| / 2
  {
    kvs[2 * i + 1]
  }

  lemma PairShift(kvs: seq<Item>)
    requires |kvs| >= 2
    ensures |kvs[2..]| / 2 == |kvs| / 2 - 1
    ensures KeyAt(kvs, 0) == kvs[0] && ValAt(kvs, 0) == kvs[1] && kvs[..2] == [kvs[0], kvs[1]]
    ensures forall i :: 0 <= i < |kvs| / 2 - 1 ==> KeyAt(kvs[2..], i) == KeyAt(kvs, i + 1) && ValAt(kvs[2..], i) == ValAt(kvs, i + 1)
  {}

  /** The value of the last pair under `key`, or `d`: the parsers let a later duplicate win. */
  function LastOr(key: Key, kvs: seq<Item>, d: Option<Item>): Option<Item>
  {
    if |kvs| < 2 then d else LastOr(key, kvs[2..], if IsKey(kvs[0], key) then Some(kvs[1]) else d)
  }

  function Field(kvs: seq<Item>, key: Key): Option<Item>
  {
    LastOr(key, kvs, None)
  }

  ghost predicate DistinctFields(kvs: seq<Item>)
  {
    forall i, j, key :: 0 <= i < j < |kvs| / 2 && IsKey(KeyAt(kvs, i), key) ==> !IsKey(KeyAt(kvs, j), key)
  }

  lemma {:induction false} LastAbsent(key: Key, kvs: seq<Item>, d: Option<Item>)
    requires forall i :: 0 <= i < |kvs| / 2 ==> !IsKey(KeyAt(kvs, i), key)
    ensures LastOr(key, kvs, d) == d
  {
    if |kvs| >= 2 {
      PairShift(kvs);
      LastAbsent(key, kvs[2..], d);
    }
  }

  lemma {:induction false} LastUnique(key: Key, kvs: seq<Item>, d: Option<Item>, i: nat)
    requires i < |kvs| / 2 && IsKey(KeyAt(kvs, i), key)
    requires forall j :: 0 <= j < |kvs| / 2 && j != i ==> !IsKey(KeyAt(kvs, j), key)
    ensures LastOr(key, kvs, d) == Some(ValAt(kvs, i))
  {
    PairShift(kvs);
    if i == 0 {
      LastAbsent(key, kvs[2..], Some(kvs[1]));
    } else {
      assert !IsKey(KeyAt(kvs, 0), key);
      LastUnique(key, kvs[2..], d, i - 1);
    }
  }

  /** The default shows only when no pair has the key. */
  lemma {:induction false} LastDefault(key: Key, kvs: seq<Item>, x: Option<Item>, y: Option<Item>)
    ensures LastOr(key, kvs, x) == LastOr(key, kvs, y) || (LastOr(key, kvs, x) == x && LastOr(key, kvs, y) == y)
  {
    if |kvs| >= 2 && !IsKey(kvs[0], key) {
      LastDefault(key, kvs[2..], x, y);
    }
  }

  /** The default shows exactly when no pair has the key. */
  lemma {:induction false} LastOver(key: Key, kvs: seq<Item>, d: Option<Item>)
    ensures LastOr(key, kvs, d) == if Field(kvs, key).Some? then Field(kvs, key) else d
  {
    if |kvs| >= 2 {
      LastOver(key, kvs[2..], if IsKey(kvs[0], key) then Some(kvs[1]) else d);
      LastOver(key, kvs[2..], if IsKey(kvs[0], key) then Some(kvs[1]) else None);
    }
  }

  /** The contents of a string field. */
  function Body(it: Option<Item>): Option<bytes>
  {
    if it.Some? && it.value.Str? then Some(it.value.body) else None
  }

  function Wrap(x: Option<bytes>): Option<Item>
  {
    if x.Some? then Some(Str(false, 0, x.value)) else None
  }

  lemma DistinctTail(kvs: seq<Item>)
    requires |kvs| >= 2 && DistinctFields(kvs)
    ensures DistinctFields(kvs[2..])
    ensures forall key, i :: IsKey(kvs[0], key) && 0 <= i < |kvs| / 2 - 1 ==> !IsKey(KeyAt(kvs[2..], i), key)
  {
    PairShift(kvs);
    forall i, j, key | 0 <= i < j < |kvs[2..]| / 2 && IsKey(KeyAt(kvs[2..], i), key)
      ensures !IsKey(KeyAt(kvs[2..], j), key)
    {
      assert IsKey(KeyAt(kvs, i + 1), key);
    }
    forall key, i | IsKey(kvs[0], key) && 0 <= i < |kvs| / 2 - 1
      ensures !IsKey(KeyAt(kvs[2..], i), key)
    {
      assert IsKey(KeyAt(kvs, 0), key);
      assert !IsKey(KeyAt(kvs, i + 1), key);
    }
  }

  /** With distinct keys a field is the value of the one pair that has the key, wherever it stands. */
  lemma FieldIsPair(kvs: seq<Item>, key: Key)
    requires DistinctFields(kvs)
    ensures forall i :: 0 <= i < |kvs| / 2 && IsKey(KeyAt(kvs, i), key) ==> Field(kvs, key) == Some(ValAt(kvs, i))
    ensures (forall i :: 0 <= i < |kvs| / 2 ==> !IsKey(KeyAt(kvs, i), key)) ==> Field(kvs, key) == None
  {
    forall i | 0 <= i < |kvs| / 2 && IsKey(KeyAt(kvs, i), key)
      ensures Field(kvs, key) == Some(ValAt(kvs, i))
    {
      LastUnique(key, kvs, None, i);
    }
    if forall i :: 0 <= i < |kvs| / 2 ==> !IsKey(KeyAt(kvs, i), key) {
      LastAbsent(key, kvs, None);
    }
  }

  /** Every pair of `kvs` also occurs in `kvs'`. */
  ghost predicate PairsWithin(kvs: seq<Item>, kvs': seq<Item>)
  {
    forall i :: 0 <= i < |kvs| / 2 ==> exists j :: 0 <= j < |kvs'| / 2 && KeyAt(kvs', j) == KeyAt(kvs, i) && ValAt(kvs', j) == ValAt(kvs, i)
  }

  /** Reordering pairs with distinct keys changes no field. */
  lemma FieldOrderFree(kvs: seq<Item>, kvs': seq<Item>, key: Key)
    requires DistinctFields(kvs) && DistinctFields(kvs') && PairsWithin(kvs, kvs') && PairsWithin(kvs', kvs)
    ensures Field(kvs, key) == Field(kvs', key)
  {
    FieldIsPair(kvs, key);
    FieldIsPair(kvs', key);
  }

  // -- consumption bounds -----------------------------------------------------------------

  function Len(x: Option<bytes>): nat
  {
    if x.Some? then |x.value| else 0
  }

  /** The bytes of a list of byte strings, and one more for each. */
  function SumLen(ids: seq<bytes>): nat
  {
    if ids == [] then 0 else SumLen(ids[..|ids| - 1]) + |ids[|ids| - 1]| + 1
  }

  lemma SumLenSnoc(ids: seq<bytes>, id: bytes)
    ensures SumLen(ids + [id]) == SumLen(ids) + |id| + 1
  {
    assert (ids + [id])[..|ids|] == ids;
  }

  lemma StringBound(text: bool, s: bytes)
    ensures ReadString(text, s).Got? ==> |ReadString(text, s).v| + |ReadString(text, s).rest| < |s|
  {}

  /** What a loop accumulates is paid for by the bytes it consumes. */
  lemma {:induction false} FoldBound<S(!new)>(step: (S, bytes) -> Run<S>, size: S -> nat, b: bytes, n: nat, acc: S)
    requires forall a, s :: step(a, s).More? ==> size(step(a, s).s) + |step(a, s).rest| <= size(a) + |s|
    ensures Fold(step, b, n, acc).More? ==>
              size(Fold(step, b, n, acc).s) + |Fold(step, b, n, acc).rest| <= size(acc) + |b|
    decreases n
  {
    if n > 0 && step(acc, b).More? {
      FoldBound(step, size, step(acc, b).rest, n - 1, step(acc, b).s);
    }
  }

  /** A property every step keeps survives a loop. */
  lemma {:induction false} FoldKeeps<S(!new)>(step: (S, bytes) -> Run<S>, inv: S -> bool, b: bytes, n: nat, acc: S)
    requires inv(acc) && forall a, s :: inv(a) && step(a, s).More? ==> inv(step(a, s).s)
    ensures Fold(step, b, n, acc).More? ==> inv(Fold(step, b, n, acc).s)
    decreases n
  {
    if n > 0 && step(acc, b).More? {
      FoldKeeps(step, inv, step(acc, b).rest, n - 1, step(acc, b).s);
    }
  }

  lemma NestKeeps<S(!new)>(isMap: bool, step: (S, bytes) -> Run<S>, inv: S -> bool, b: bytes, init: S)
    requires inv(init) && forall a, s :: inv(a) && step(a, s).More? ==> inv(step(a, s).s)
    ensures var r := ParseNest(isMap, step, b, init); r.More? ==> inv(r.s)
  {
    var c := ReadCount(isMap, b);
    if c.Got? { FoldKeeps(step, inv, c.rest, c.v, init); }
  }

  lemma NestBound<S(!new)>(isMap: bool, step: (S, bytes) -> Run<S>, size: S -> nat, b: bytes, init: S)
    requires forall a, s :: step(a, s).More? ==> size(step(a, s).s) + |step(a, s).rest| <= size(a) + |s|
    ensures var r := ParseNest(isMap, step, b, init); r.More? ==> size(r.s) + |r.rest| < size(init) + |b|
  {
    var c := ReadCount(isMap, b);
    if c.Got? { FoldBound(step, size, c.rest, c.v, init); }
  }
}
