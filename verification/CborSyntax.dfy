/**
 The CBOR subset the vault speaks (section 3 of RFC 8949 restricted by section 8 of CTAP 2.1):
 an abstract item tree that remembers how wide each header was written, its bytes, and a
 total decoder. The decoder and the encoder are proved inverse to each other.
 */
module CborSyntax {
  import opened Prelude

  /** `w` is the number of argument bytes after the initial byte: 0, 1, 2, 4 or 8. */
  datatype Item =
    | Num(neg: bool, w: nat, v: nat)
    | Str(text: bool, w: nat, body: bytes)
    | Nest(isMap: bool, w: nat, kids: seq<Item>)  // a map's kids alternate key, value
    | Simple(ai: nat)

  datatype Head = NoHead | GotHead(mt: nat, w: nat, v: nat, rest: bytes)

  // -- headers -------------------------------------------------------------

  predicate HeadFits(w: nat, v: nat)
  {
    (w == 0 && v <= 23) || (w in {1, 2, 4, 8} && v < Pow256(w))
  }

  function WidthOf(ai: nat): nat
  {
    if ai <= 23 then 0 else if ai == 24 then 1 else if ai == 25 then 2 else if ai == 26 then 4 else 8
  }

  function HeadBytes(mt: nat, w: nat, v: nat): bytes
    requires mt < 8 && HeadFits(w, v)
  {
    [mt * 32 + if w == 0 then v else if w == 1 then 24 else if w == 2 then 25 else if w == 4 then 26 else 27]
    + ToBE(v, w)
  }

  function ReadHead(s: bytes): (h: Head)
    ensures h.GotHead? ==> |h.rest| < |s|
  {
    if |s| == 0 || s[0] / 32 >= 6 || s[0] % 32 >= 28 then NoHead else
    var ai, w := s[0] % 32, WidthOf(s[0] % 32);
    if |s| < 1 + w then NoHead else
    GotHead(s[0] / 32, w, if w == 0 then ai else FromBE(s[1..1 + w]), s[1 + w..])
  }

  lemma ReadHeadComplete(mt: nat, w: nat, v: nat, rest: bytes)
    requires mt < 6 && HeadFits(w, v)
    ensures ReadHead(HeadBytes(mt, w, v) + rest) == GotHead(mt, w, v, rest)
  {
    hide FromBE, ToBE, Pow256;
    var s := HeadBytes(mt, w, v) + rest;
    assert s[1..1 + w] == ToBE(v, w);
    assert s[1 + w..] == rest;
    if w > 0 { FromToBE(v, w); }
  }

  lemma ReadHeadSound(s: bytes)
    requires ReadHead(s).GotHead?
    ensures var h := ReadHead(s);
            h.mt < 6 && HeadFits(h.w, h.v) && s == HeadBytes(h.mt, h.w, h.v) + h.rest
  {
    hide FromBE, ToBE, Pow256;
    var h := ReadHead(s);
    ToFromBE(s[1..1 + h.w]);
    Pow256Values();
    assert s == [s[0]] + s[1..1 + h.w] + s[1 + h.w..];
  }

  // -- items -----------------------------------------------------------------

  ghost predicate WF(it: Item)
    decreases it, 0
  {
    match it
    case Num(_, w, v) => HeadFits(w, v)
    case Str(_, w, body) => HeadFits(w, |body|)
    case Nest(isMap, w, kids) => (isMap ==> |kids| % 2 == 0) && HeadFits(w, Count(it)) && AllWF(kids)
    case Simple(ai) => 20 <= ai <= 23
  }

  ghost predicate AllWF(items: seq<Item>)
    decreases items, 1
  {
    items == [] || (WF(items[0]) && AllWF(items[1..]))
  }

  /** The count a container's header declares: elements of an array, pairs of a map. */
  function Count(it: Item): nat
    requires it.Nest?
  {
    if it.isMap then |it.kids| / 2 else |it.kids|
  }

  function Major(it: Item): nat
  {
    match it
    case Num(neg, _, _) => if neg then 1 else 0
    case Str(text, _, _) => if text then 3 else 2
    case Nest(isMap, _, _) => if isMap then 5 else 4
    case Simple(_) => 7
  }

  ghost function Enc(it: Item): (s: bytes)
    requires WF(it)
    ensures |s| > 0
    decreases it, 0
  {
    match it
    case Num(_, w, v) => HeadBytes(Major(it), w, v)
    case Str(_, w, body) => HeadBytes(Major(it), w, |body|) + body
    case Nest(_, w, kids) => HeadBytes(Major(it), w, Count(it)) + EncAll(kids)
    case Simple(ai) => [224 + ai]
  }

  ghost function EncAll(items: seq<Item>): bytes
    requires AllWF(items)
    decreases items, 1
  {
    if items == [] then [] else Enc(items[0]) + EncAll(items[1..])
  }

  /** Reads one complete item; the remaining bytes are the termination measure, never a declared count. */
  function Decode(s: bytes): (r: Parsed<Item>)
    ensures r.Got? ==> |r.rest| < |s|
    decreases |s|, 0
  {
    if |s| == 0 then Fail
    else if s[0] / 32 == 7 then
      if 20 <= s[0] % 32 <= 23 then Got(Simple(s[0] % 32), s[1..]) else Fail
    else match ReadHead(s)
      case NoHead => Fail
      case GotHead(mt, w, v, rest) =>
        if mt <= 1 then Got(Num(mt == 1, w, v), rest)
        else if mt <= 3 then
          if v > |rest| then Fail else Got(Str(mt == 3, w, rest[..v]), rest[v..])
        else match DecodeN(rest, if mt == 4 then v else 2 * v)
          case Fail => Fail
          case Got(kids, rest') => Got(Nest(mt == 5, w, kids), rest')
  }

  function DecodeN(s: bytes, n: nat): (r: Parsed<seq<Item>>)
    ensures r.Got? ==> |r.rest| <= |s| && |r.v| == n
    decreases |s|, 1
  {
    if n == 0 then Got([], s)
    else match Decode(s)
      case Fail => Fail
      case Got(it, rest) =>
        match DecodeN(rest, n - 1)
        case Fail => Fail
        case Got(items, rest') => Got([it] + items, rest')
  }

  // One-step unfoldings, kept apart from the inductions so that each stays cheap.

  lemma DecodeNest(s: bytes, h: Head, kids: seq<Item>, rest: bytes)
    requires ReadHead(s) == h && h.GotHead? && 4 <= h.mt <= 5
    requires DecodeN(h.rest, if h.mt == 4 then h.v else 2 * h.v) == Got(kids, rest)
    ensures Decode(s) == Got(Nest(h.mt == 5, h.w, kids), rest)
  {}

  lemma DecodeNCons(s: bytes, n: nat, it: Item, mid: bytes, items: seq<Item>, rest: bytes)
    requires Decode(s) == Got(it, mid) && DecodeN(mid, n) == Got(items, rest)
    ensures DecodeN(s, n + 1) == Got([it] + items, rest)
  {}

  lemma DecodeLeafComplete(it: Item, rest: bytes)
    requires WF(it) && !it.Nest?
    ensures Decode(Enc(it) + rest) == Got(it, rest)
  {
    if it.Num? {
      ReadHeadComplete(Major(it), it.w, it.v, rest);
    } else if it.Str? {
      ReadHeadComplete(Major(it), it.w, |it.body|, it.body + rest);
      assert Enc(it) + rest == HeadBytes(Major(it), it.w, |it.body|) + (it.body + rest);
    }
  }

  lemma {:induction false} DecodeComplete(it: Item, rest: bytes)
    requires WF(it)
    ensures Decode(Enc(it) + rest) == Got(it, rest)
    decreases it, 0
  {
    if !it.Nest? {
      DecodeLeafComplete(it, rest);
    } else {
      var head, tail := HeadBytes(Major(it), it.w, Count(it)), EncAll(it.kids) + rest;
      ReadHeadComplete(Major(it), it.w, Count(it), tail);
      DecodeNComplete(it.kids, rest);
      DecodeNest(head + tail, GotHead(Major(it), it.w, Count(it), tail), it.kids, rest);
      assert Enc(it) + rest == head + tail;
    }
  }

  lemma {:induction false} DecodeNComplete(items: seq<Item>, rest: bytes)
    requires AllWF(items)
    ensures DecodeN(EncAll(items) + rest, |items|) == Got(items, rest)
    decreases items, 1
  {
    if items == [] {
      assert EncAll(items) + rest == rest;
    } else {
      var it, tail := items[0], items[1..];
      assert items == [it] + tail;
      EncAllCons(it, tail);
      var mid := EncAll(tail) + rest;
      DecodeComplete(it, mid);
      DecodeNComplete(tail, rest);
      DecodeNCons(Enc(it) + mid, |tail|, it, mid, tail, rest);
      Assoc(Enc(it), EncAll(tail), rest);
    }
  }

  lemma Assoc(a: bytes, b: bytes, c: bytes)
    ensures a + (b + c) == (a + b) + c
  {}

  lemma DecodeLeafSound(s: bytes)
    requires Decode(s).Got? && !Decode(s).v.Nest?
    ensures var r := Decode(s); WF(r.v) && s == Enc(r.v) + r.rest
  {
    hide ToBE, FromBE, Pow256, DecodeN;
    if s[0] / 32 == 7 {
      assert s == [s[0]] + s[1..];
    } else {
      ReadHeadSound(s);
      var h, it := ReadHead(s), Decode(s).v;
      if h.mt > 1 {
        assert Decode(s) == Got(Str(h.mt == 3, h.w, h.rest[..h.v]), h.rest[h.v..]);
        assert h.rest == it.body + Decode(s).rest;
        Assoc(HeadBytes(h.mt, h.w, h.v), it.body, Decode(s).rest);
      }
    }
  }

  lemma DecodeNestInv(s: bytes)
    requires Decode(s).Got? && Decode(s).v.Nest?
    ensures var r, h := Decode(s), ReadHead(s);
            h.GotHead? && 4 <= h.mt <= 5 && r.v.w == h.w && r.v.isMap == (h.mt == 5) && |h.rest| < |s|
            && DecodeN(h.rest, if h.mt == 4 then h.v else 2 * h.v) == Got(r.v.kids, r.rest)
  {}

  lemma {:induction false} DecodeSound(s: bytes)
    requires Decode(s).Got?
    ensures var r := Decode(s); WF(r.v) && s == Enc(r.v) + r.rest
    decreases |s|, 0
  {
    if Decode(s).v.Nest? {
      DecodeNestInv(s);
      ReadHeadSound(s);
      var h, it, rest := ReadHead(s), Decode(s).v, Decode(s).rest;
      DecodeNSound(h.rest, if h.mt == 4 then h.v else 2 * h.v);
      NestSound(s, h, it, rest);
    } else {
      DecodeLeafSound(s);
    }
  }

  lemma NestSound(s: bytes, h: Head, it: Item, rest: bytes)
    requires h.GotHead? && 4 <= h.mt <= 5 && HeadFits(h.w, h.v) && s == HeadBytes(h.mt, h.w, h.v) + h.rest
    requires it.Nest? && it.w == h.w && it.isMap == (h.mt == 5) && Count(it) == h.v && (it.isMap ==> |it.kids| % 2 == 0)
    requires AllWF(it.kids) && h.rest == EncAll(it.kids) + rest
    ensures WF(it) && s == Enc(it) + rest
  {
    assert HeadBytes(h.mt, h.w, h.v) + (EncAll(it.kids) + rest) == (HeadBytes(h.mt, h.w, h.v) + EncAll(it.kids)) + rest;
  }

  lemma DecodeNInv(s: bytes, n: nat)
    requires n > 0 && DecodeN(s, n).Got?
    ensures Decode(s).Got?
    ensures var it, mid := Decode(s).v, Decode(s).rest;
            DecodeN(mid, n - 1).Got?
            && DecodeN(s, n) == Got([it] + DecodeN(mid, n - 1).v, DecodeN(mid, n - 1).rest)
  {}

  lemma {:induction false} DecodeNSound(s: bytes, n: nat)
    requires DecodeN(s, n).Got?
    ensures var r := DecodeN(s, n); AllWF(r.v) && s == EncAll(r.v) + r.rest
    decreases |s|, 1
  {
    if n > 0 {
      DecodeNInv(s, n);
      DecodeSound(s);
      DecodeNSound(Decode(s).rest, n - 1);
      var it, q := Decode(s).v, DecodeN(Decode(s).rest, n - 1);
      EncAllCons(it, q.v);
      Assoc(Enc(it), EncAll(q.v), q.rest);
    }
  }

  lemma EncAllCons(it: Item, items: seq<Item>)
    requires WF(it) && AllWF(items)
    ensures AllWF([it] + items) && EncAll([it] + items) == Enc(it) + EncAll(items)
  {
    assert ([it] + items)[1..] == items;
  }

  /** Item encodings are uniquely decodable and prefix-free. */
  lemma UniquePrefix(a: Item, b: Item, x: bytes, y: bytes)
    requires WF(a) && WF(b) && Enc(a) + x == Enc(b) + y
    ensures a == b && x == y
  {
    DecodeComplete(a, x);
    DecodeComplete(b, y);
  }

  function Then(p: Parsed<seq<Item>>, q: Parsed<seq<Item>>): Parsed<seq<Item>>
  {
    if p.Got? && q.Got? then Got(p.v + q.v, q.rest) else Fail
  }

  lemma {:induction false} DecodeNSplit(s: bytes, m: nat, n: nat)
    ensures var p := DecodeN(s, m); DecodeN(s, m + n) == if p.Got? then Then(p, DecodeN(p.rest, n)) else Fail
    decreases m
  {
    hide Decode;
    if m == 0 {
      var q := DecodeN(s, n);
      if q.Got? { assert [] + q.v == q.v; }
    } else if Decode(s).Got? {
      var it, mid := Decode(s).v, Decode(s).rest;
      DecodeNSplit(mid, m - 1, n);
      var p := DecodeN(mid, m - 1);
      if p.Got? {
        var q := DecodeN(p.rest, n);
        if q.Got? { assert [it] + (p.v + q.v) == ([it] + p.v) + q.v; }
      }
    }
  }
}
