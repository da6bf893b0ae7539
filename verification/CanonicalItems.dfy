/**
 The items the vault writes, always with shortest headers and sorted keys, and what a reader of its maps finds
 under a key: the small encoders of Cbor/CoseKey.cs and Ipc/VaultHandler.cs.
 */
module CanonicalItems {
  import opened Prelude
  import opened CborSyntax
  import opened CborEncoding
  import opened RequestFold

  // -- canonical items ---------------------------------------------------------------------

  function UInt(v: nat): Item { Num(false, ShortW(v), v) }
  function NInt(v: int): Item requires v < 0 { Num(true, ShortW(-1 - v), -1 - v) }
  function Text(s: bytes): Item { Str(true, ShortW(|s|), s) }
  function Blob(s: bytes): Item { Str(false, ShortW(|s|), s) }

  type Pair = (Item, Item)

  function Flat(ps: seq<Pair>): (kids: seq<Item>)
    ensures |kids| == 2 * |ps|
  {
    if ps == [] then [] else [ps[0].0, ps[0].1] + Flat(ps[1..])
  }

  function MapOf(ps: seq<Pair>): Item
  {
    Nest(true, ShortW(|ps|), Flat(ps))
  }

  ghost predicate AllPairsWF(ps: seq<Pair>)
  {
    forall p :: p in ps ==> WF(p.0) && WF(p.1)
  }

  /** Every map the vault builds lists its keys already sorted, and their first bytes already tell them apart. */
  ghost predicate Ascending(ps: seq<Pair>)
    requires AllPairsWF(ps)
  {
    forall i, j :: 0 <= i < j < |ps| ==> Enc(ps[i].0)[0] < Enc(ps[j].0)[0]
  }

  ghost function Entries(ps: seq<Pair>): (es: seq<Entry>)
    requires AllPairsWF(ps)
    ensures |es| == |ps| && forall i :: 0 <= i < |ps| ==> es[i] == (Enc(ps[i].0), Enc(ps[i].1))
  {
    seq(|ps|, i requires 0 <= i < |ps| => (Enc(ps[i].0), Enc(ps[i].1)))
  }

  lemma Leaf(v: nat, n: int, s: bytes)
    requires v <= UINT64_MAX && -INT64_MAX - 1 <= n < 0 && |s| <= UINT64_MAX
    ensures WF(UInt(v)) && Enc(UInt(v)) == CanonHead(0, v)
    ensures WF(NInt(n)) && Enc(NInt(n)) == CanonHead(1, -1 - n)
    ensures WF(Text(s)) && Enc(Text(s)) == CanonHead(3, |s|) + s
    ensures WF(Blob(s)) && Enc(Blob(s)) == CanonHead(2, |s|) + s
  {
    hide ToBE, Pow256;
    ShortestHead(v, 0);
    ShortestHead(-1 - n, 0);
    ShortestHead(|s|, 0);
  }

  lemma {:induction false} FlatWF(ps: seq<Pair>)
    requires AllPairsWF(ps)
    ensures AllWF(Flat(ps))
  {
    if ps != [] {
      FlatWF(ps[1..]);
      AllWFPair(ps[0], Flat(ps[1..]));
    }
  }

  lemma AllWFPair(p: Pair, kids: seq<Item>)
    requires WF(p.0) && WF(p.1) && AllWF(kids)
    ensures AllWF([p.0, p.1] + kids) && EncAll([p.0, p.1] + kids) == Enc(p.0) + Enc(p.1) + EncAll(kids)
  {
    EncAllCons(p.1, kids);
    EncAllCons(p.0, [p.1] + kids);
    assert [p.0] + ([p.1] + kids) == [p.0, p.1] + kids;
    Assoc(Enc(p.0), Enc(p.1), EncAll(kids));
  }

  lemma {:induction false} FlattenFront(e: Entry, es: seq<Entry>)
    ensures Flatten([e] + es) == e.0 + e.1 + Flatten(es)
  {
    if es == [] {
      assert [e] + es == [e];
      assert Flatten([e]) == Flatten([]) + e.0 + e.1 by { assert [e][..0] == []; }
      assert e.0 + e.1 + [] == e.0 + e.1;
    } else {
      var last := es[|es| - 1];
      FlattenFront(e, es[..|es| - 1]);
      assert ([e] + es)[..|es|] == [e] + es[..|es| - 1];
      assert Flatten([e] + es) == Flatten([e] + es[..|es| - 1]) + last.0 + last.1;
      assert (e.0 + e.1 + Flatten(es[..|es| - 1])) + last.0 + last.1 == e.0 + e.1 + (Flatten(es[..|es| - 1]) + last.0 + last.1);
    }
  }

  lemma {:induction false} FlattenIsEncAll(ps: seq<Pair>)
    requires AllPairsWF(ps)
    ensures AllWF(Flat(ps)) && Flatten(Entries(ps)) == EncAll(Flat(ps))
  {
    hide Enc, WF;
    FlatWF(ps);
    if ps != [] {
      FlattenIsEncAll(ps[1..]);
      FlattenFront(Entries(ps)[0], Entries(ps[1..]));
      assert Entries(ps) == [Entries(ps)[0]] + Entries(ps[1..]);
      AllWFPair(ps[0], Flat(ps[1..]));
    }
  }

  /** WriteMap on such pairs writes the canonical map item. */
  lemma MapBytes(ps: seq<Pair>)
    requires |ps| <= 23 && AllPairsWF(ps) && Ascending(ps)
    ensures DistinctKeys(Entries(ps)) && WF(MapOf(ps)) && CanonMap(Entries(ps)) == Enc(MapOf(ps))
  {
    hide LexCmp, Flat, Flatten, Enc;
    var es := Entries(ps);
    forall i, j | 0 <= i < j < |es|
      ensures LexCmp(es[i].0, es[j].0) <= 0 && es[i].0 != es[j].0
    {
      FirstByte(es[i].0, es[j].0);
    }
    CanonMapSorted(es);
    FlattenIsEncAll(ps);
    MapEnc(ps);
  }

  lemma MapEnc(ps: seq<Pair>)
    requires |ps| <= 23 && AllWF(Flat(ps))
    ensures WF(MapOf(ps)) && Enc(MapOf(ps)) == CanonHead(5, |ps|) + EncAll(Flat(ps))
  {
    hide ToBE, Pow256, Enc, WF, EncAll, AllWF, Flat;
    ShortestHead(|ps|, 0);
    var body := EncAll(Flat(ps));
    assert body + [] == body;
    NestSound(CanonHead(5, |ps|) + body, GotHead(5, ShortW(|ps|), |ps|, body), MapOf(ps), []);
    assert Enc(MapOf(ps)) + [] == Enc(MapOf(ps));
  }

  lemma FirstByte(a: bytes, b: bytes)
    requires a != [] && b != [] && a[0] < b[0]
    ensures LexCmp(a, b) < 0
  {}

  /** A map the vault writes, taken apart again. */
  lemma MapDecodes(ps: seq<Pair>, rest: bytes)
    requires |ps| <= 23 && AllPairsWF(ps) && Ascending(ps)
    ensures Decode(CanonMap(Entries(ps)) + rest) == Got(MapOf(ps), rest)
  {
    hide Enc, CanonMap;
    MapBytes(ps);
    DecodeComplete(MapOf(ps), rest);
  }

  // -- looking a key up ----------------------------------------------------------------------------

  lemma {:induction false} FlatAt(ps: seq<Pair>, i: nat)
    requires i < |ps|
    ensures |Flat(ps)| / 2 == |ps| && KeyAt(Flat(ps), i) == ps[i].0 && ValAt(Flat(ps), i) == ps[i].1
  {
    if i > 0 {
      FlatAt(ps[1..], i - 1);
      PairShift(Flat(ps));
      assert Flat(ps)[2..] == Flat(ps[1..]);
    }
  }

  /** What a written map holds under a key. */
  lemma FieldOfMap(ps: seq<Pair>, i: nat, key: Key)
    requires AllPairsWF(ps) && Ascending(ps) && i < |ps| && IsKey(ps[i].0, key)
    requires forall p :: p in ps ==> CanonKey(p.0)
    ensures Field(Flat(ps), key) == Some(ps[i].1)
  {
    hide Enc, Flat, CanonKey, IsKey;
    FlatAt(ps, i);
    forall j | 0 <= j < |Flat(ps)| / 2 && j != i
      ensures !IsKey(KeyAt(Flat(ps), j), key)
    {
      FlatAt(ps, j);
      if i < j { assert Enc(ps[i].0)[0] < Enc(ps[j].0)[0]; } else { assert Enc(ps[j].0)[0] < Enc(ps[i].0)[0]; }
      if IsKey(ps[j].0, key) { SameKey(ps[i].0, ps[j].0, key); }
    }
    LastUnique(key, Flat(ps), None, i);
  }

  lemma SameKey(a: Item, b: Item, key: Key)
    requires CanonKey(a) && CanonKey(b) && IsKey(a, key) && IsKey(b, key)
    ensures a == b
  {}

  lemma FieldAbsent(ps: seq<Pair>, key: Key)
    requires forall p :: p in ps ==> !IsKey(p.0, key)
    ensures Field(Flat(ps), key) == None
  {
    hide Flat, IsKey;
    forall i | 0 <= i < |Flat(ps)| / 2
      ensures !IsKey(KeyAt(Flat(ps), i), key)
    {
      FlatAt(ps, i);
    }
    LastAbsent(key, Flat(ps), None);
  }

  /** A key short enough that its first byte is all of it that sorting looks at. */
  ghost predicate ShortKey(k: Item)
  {
    CanonKey(k) && KeyArg(k) <= 23
  }

  lemma FirstKeyByte(k: Item)
    requires ShortKey(k)
    ensures Enc(k)[0] == Major(k) * 32 + KeyArg(k)
  {
    hide ToBE, Pow256;
    KeyEnc(k);
  }

  /** The check every literal map of the vault passes: short keys whose first bytes ascend, values well-formed. */
  ghost predicate Tidy(ps: seq<Pair>)
  {
    && |ps| <= 23
    && (forall i :: 0 <= i < |ps| ==> ShortKey(ps[i].0) && WF(ps[i].1))
    && (forall i, j :: 0 <= i < j < |ps| ==> Major(ps[i].0) * 32 + KeyArg(ps[i].0) < Major(ps[j].0) * 32 + KeyArg(ps[j].0))
  }

  lemma TidyAscends(ps: seq<Pair>)
    requires Tidy(ps)
    ensures |ps| <= 23 && AllPairsWF(ps) && Ascending(ps) && forall p :: p in ps ==> CanonKey(p.0)
  {
    hide WF, Enc, HeadFits;
    forall i | 0 <= i < |ps|
      ensures WF(ps[i].0) && WF(ps[i].1) && Enc(ps[i].0)[0] == Major(ps[i].0) * 32 + KeyArg(ps[i].0)
    {
      FirstKeyByte(ps[i].0);
    }
  }

  // -- writers of single items -------------------------------------------------------------------

  method EncodeUint(v: nat) returns (r: bytes)
    requires v <= UINT64_MAX
    ensures WF(UInt(v)) && r == Enc(UInt(v))
  {
    var w := new CborWriter();
    w.WriteUnsignedInt(v);
    Leaf(v, -1, []);
    return w.buf;
  }

  method EncodeNeg(v: int) returns (r: bytes)
    requires -INT64_MAX - 1 <= v < 0
    ensures WF(NInt(v)) && r == Enc(NInt(v))
  {
    var w := new CborWriter();
    var _ := w.WriteNegativeInt(v);
    Leaf(0, v, []);
    return w.buf;
  }

  method EncodeTstr(s: bytes) returns (r: bytes)
    requires |s| <= UINT64_MAX
    ensures WF(Text(s)) && r == Enc(Text(s))
  {
    var w := new CborWriter();
    w.WriteString(true, s);
    Leaf(0, -1, s);
    return w.buf;
  }

  method EncodeBstr(s: bytes) returns (r: bytes)
    requires |s| <= UINT64_MAX
    ensures WF(Blob(s)) && r == Enc(Blob(s))
  {
    var w := new CborWriter();
    w.WriteString(false, s);
    Leaf(0, -1, s);
    return w.buf;
  }

  /** WriteMap into a fresh writer; the ghost argument says which items the entries encode. */
  method EncodeMap(entries: seq<Entry>, ghost ps: seq<Pair>) returns (r: bytes)
    requires Tidy(ps) && |entries| == |ps|
    requires forall i :: 0 <= i < |ps| ==> WF(ps[i].0) && WF(ps[i].1) && entries[i] == (Enc(ps[i].0), Enc(ps[i].1))
    ensures WF(MapOf(ps)) && r == Enc(MapOf(ps))
  {
    hide WF, Enc;
    TidyAscends(ps);
    assert entries == Entries(ps);
    var w := new CborWriter();
    MapBytes(ps);
    w.WriteMap(entries);
    return w.buf;
  }
}
