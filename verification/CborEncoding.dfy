/** The canonical encoder of Cbor/CborWriter.cs and the order it gives map keys. */
module CborEncoding {
  import opened Prelude
  import opened CborSyntax
  import opened CborDecoding

  type Entry = (bytes, bytes)  // encoded key, encoded value

  /** The header width WriteTypeAndValue picks. */
  function ShortW(v: nat): nat
  {
    if v <= 23 then 0 else if v <= 0xFF then 1 else if v <= 0xFFFF then 2 else if v <= 0xFFFF_FFFF then 4 else 8
  }

  /** It fits every 64-bit value, and no header that decodes to the same value is shorter. */
  lemma ShortestHead(v: nat, w: nat)
    requires v <= UINT64_MAX
    ensures HeadFits(ShortW(v), v)
    ensures HeadFits(w, v) ==> ShortW(v) <= w
  {
    Pow256Values();
  }

  function CanonHead(mt: nat, v: nat): bytes
    requires mt < 8 && v <= UINT64_MAX
  {
    ShortestHead(v, 0);
    HeadBytes(mt, ShortW(v), v)
  }

  /** ReadInitialByte inverts WriteTypeAndValue for every major type it accepts and every 64-bit value. */
  lemma HeadRoundTrip(mt: nat, v: nat, rest: bytes)
    requires mt < 6 && v <= UINT64_MAX
    ensures ReadHead(CanonHead(mt, v) + rest) == GotHead(mt, ShortW(v), v, rest)
  {
    ShortestHead(v, 0);
    ReadHeadComplete(mt, ShortW(v), v, rest);
  }

  /** What the writer writes for a number, a string or a container header, the reader's typed reads return. */
  lemma TypedRoundTrip(v: nat, n: int, s: bytes, count: nat, rest: bytes)
    requires v <= UINT64_MAX && -INT64_MAX - 1 <= n < 0 && |s| <= UINT64_MAX && count <= INT32_MAX
    ensures ReadUnsigned(CanonHead(0, v) + rest) == Got(v, rest)
    ensures ReadNegative(CanonHead(1, -1 - n) + rest) == Got(n, rest)
    ensures ReadString(true, CanonHead(3, |s|) + (s + rest)) == Got(s, rest)
    ensures ReadString(false, CanonHead(2, |s|) + (s + rest)) == Got(s, rest)
    ensures ReadCount(true, CanonHead(5, count) + rest) == Got(count, rest)
    ensures ReadCount(false, CanonHead(4, count) + rest) == Got(count, rest)
  {
    hide ReadHead, CanonHead;
    HeadRoundTrip(0, v, rest);
    HeadRoundTrip(1, -1 - n, rest);
    HeadRoundTrip(3, |s|, s + rest);
    HeadRoundTrip(2, |s|, s + rest);
    HeadRoundTrip(5, count, rest);
    HeadRoundTrip(4, count, rest);
    assert (s + rest)[..|s|] == s && (s + rest)[|s|..] == rest;
  }

  /** A negative integer below the lowest Int64 has an encoding the reader refuses. */
  lemma TooNegative(v: nat, rest: bytes)
    requires INT64_MAX < v <= UINT64_MAX
    ensures ReadNegative(CanonHead(1, v) + rest) == Fail
  {
    hide ReadHead, CanonHead;
    HeadRoundTrip(1, v, rest);
  }

  // -- the key order -----------------------------------------------------------

  /** -1, 0 or 1 as `a` sorts before, with or after `b`; a proper prefix sorts first. */
  function LexCmp(a: bytes, b: bytes): int
  {
    if a == [] || b == [] then (if |a| < |b| then -1 else if |a| == |b| then 0 else 1)
    else if a[0] != b[0] then (if a[0] < b[0] then -1 else 1)
    else LexCmp(a[1..], b[1..])
  }

  method BytewiseLexCompare(a: bytes, b: bytes) returns (c: int)
    ensures c == LexCmp(a, b)
  {
    var len := if |a| < |b| then |a| else |b|;
    var i := 0;
    while i < len
      invariant 0 <= i <= len
      invariant LexCmp(a, b) == LexCmp(a[i..], b[i..])
    {
      if a[i] != b[i] {
        return if a[i] < b[i] then -1 else 1;
      }
      assert a[i..][1..] == a[i + 1..] && b[i..][1..] == b[i + 1..];
      i := i + 1;
    }
    return if |a| < |b| then -1 else if |a| == |b| then 0 else 1;
  }

  lemma {:induction false} LexAntisym(a: bytes, b: bytes)
    ensures LexCmp(a, b) == -LexCmp(b, a)
    ensures LexCmp(a, b) == 0 <==> a == b
  {
    if a != [] && b != [] && a[0] == b[0] {
      LexAntisym(a[1..], b[1..]);
      assert a == [a[0]] + a[1..] && b == [b[0]] + b[1..];
    }
  }

  lemma {:induction false} LexTrans(a: bytes, b: bytes, c: bytes)
    requires LexCmp(a, b) <= 0 && LexCmp(b, c) <= 0
    ensures LexCmp(a, c) <= 0
  {
    if a != [] && b != [] && c != [] && a[0] == b[0] == c[0] {
      LexTrans(a[1..], b[1..], c[1..]);
    }
  }

  lemma {:induction false} LexPrefix(p: bytes, a: bytes, b: bytes)
    ensures LexCmp(p + a, p + b) == LexCmp(a, b)
  {
    if p == [] {
      assert p + a == a && p + b == b;
    } else {
      LexPrefix(p[1..], a, b);
      assert (p + a)[1..] == p[1..] + a && (p + b)[1..] == p[1..] + b;
    }
  }

  lemma {:induction false} LexBE(u: nat, v: nat, n: nat, x: bytes, y: bytes)
    requires u < v < Pow256(n)
    ensures LexCmp(ToBE(u, n) + x, ToBE(v, n) + y) == -1
  {
    var a, b := ToBE(u / 256, n - 1), ToBE(v / 256, n - 1);
    assert ToBE(u, n) + x == a + ([u % 256] + x);
    assert ToBE(v, n) + y == b + ([v % 256] + y);
    if u / 256 < v / 256 {
      LexBE(u / 256, v / 256, n - 1, [u % 256] + x, [v % 256] + y);
    } else {
      LexPrefix(a, [u % 256] + x, [v % 256] + y);
    }
  }

  lemma LexHead(mt: nat, u: nat, v: nat, x: bytes, y: bytes)
    requires mt < 8 && u < v <= UINT64_MAX
    ensures LexCmp(CanonHead(mt, u) + x, CanonHead(mt, v) + y) == -1
  {
    ShortestHead(u, 0);
    ShortestHead(v, 0);
    var a, b := CanonHead(mt, u), CanonHead(mt, v);
    if ShortW(u) == ShortW(v) && ShortW(u) > 0 {
      LexBE(u, v, ShortW(u), x, y);
      assert a + x == [a[0]] + (ToBE(u, ShortW(u)) + x);
      assert b + y == [b[0]] + (ToBE(v, ShortW(v)) + y);
      LexPrefix([a[0]], ToBE(u, ShortW(u)) + x, ToBE(v, ShortW(v)) + y);
    }
  }

  /** A map key of CTAP: an integer or a string, its header in shortest form. */
  ghost predicate CanonKey(k: Item)
  {
    WF(k) && (k.Num? || k.Str?) && k.w == ShortW(KeyArg(k)) && KeyArg(k) <= UINT64_MAX
  }

  function KeyArg(k: Item): nat
    requires k.Num? || k.Str?
  {
    if k.Num? then k.v else |k.body|
  }

  /** Section 8 of CTAP 2.1: lower major type first, then the shorter encoding, then bytewise. */
  ghost predicate CtapBefore(a: Item, b: Item)
    requires CanonKey(a) && CanonKey(b)
  {
    || Major(a) < Major(b)
    || (Major(a) == Major(b) && |Enc(a)| < |Enc(b)|)
    || (Major(a) == Major(b) && |Enc(a)| == |Enc(b)| && LexCmp(Enc(a), Enc(b)) < 0)
  }

  lemma KeyEnc(k: Item)
    requires CanonKey(k)
    ensures Enc(k) == CanonHead(Major(k), KeyArg(k)) + if k.Str? then k.body else []
    ensures Enc(k)[0] / 32 == Major(k)
    ensures |Enc(k)| == 1 + ShortW(KeyArg(k)) + if k.Str? then |k.body| else 0
  {}

  /** The plain bytewise comparison of CborWriter is the order the standard asks for. */
  lemma BytewiseIsCtapOrder(a: Item, b: Item)
    requires CanonKey(a) && CanonKey(b)
    ensures LexCmp(Enc(a), Enc(b)) < 0 <==> CtapBefore(a, b)
  {
    hide ToBE, Pow256;
    KeyEnc(a);
    KeyEnc(b);
    if Major(a) == Major(b) {
      var x, y := if a.Str? then a.body else [], if b.Str? then b.body else [];
      if KeyArg(a) < KeyArg(b) {
        LexHead(Major(a), KeyArg(a), KeyArg(b), x, y);
      } else if KeyArg(b) < KeyArg(a) {
        LexHead(Major(a), KeyArg(b), KeyArg(a), y, x);
        LexAntisym(Enc(a), Enc(b));
      }
    }
  }

  // -- canonical maps ------------------------------------------------------------

  ghost predicate SortedKeys(s: seq<Entry>)
  {
    forall i, j :: 0 <= i < j < |s| ==> LexCmp(s[i].0, s[j].0) <= 0
  }

  ghost predicate SortedFrom(entries: seq<Entry>, pairs: seq<Entry>)
  {
    SortedKeys(pairs) && multiset(pairs) == multiset(entries)
  }

  ghost predicate DistinctKeys(s: seq<Entry>)
  {
    forall i, j :: 0 <= i < j < |s| ==> s[i].0 != s[j].0
  }

  function Flatten(s: seq<Entry>): bytes
  {
    if s == [] then [] else Flatten(s[..|s| - 1]) + s[|s| - 1].0 + s[|s| - 1].1
  }

  function InsertEntry(s: seq<Entry>, e: Entry): seq<Entry>
  {
    if s == [] || LexCmp(s[|s| - 1].0, e.0) <= 0 then s + [e] else InsertEntry(s[..|s| - 1], e) + [s[|s| - 1]]
  }

  function SortEntries(s: seq<Entry>): seq<Entry>
  {
    if s == [] then [] else InsertEntry(SortEntries(s[..|s| - 1]), s[|s| - 1])
  }

  lemma {:induction false} InsertPerm(s: seq<Entry>, e: Entry)
    ensures multiset(InsertEntry(s, e)) == multiset(s) + multiset{e}
  {
    if s != [] && LexCmp(s[|s| - 1].0, e.0) > 0 {
      InsertPerm(s[..|s| - 1], e);
      assert s == s[..|s| - 1] + [s[|s| - 1]];
    }
  }

  lemma SortedSnoc(s: seq<Entry>, e: Entry)
    requires SortedKeys(s) && forall x :: x in s ==> LexCmp(x.0, e.0) <= 0
    ensures SortedKeys(s + [e])
  {
    forall i, j | 0 <= i < j < |s| + 1
      ensures LexCmp((s + [e])[i].0, (s + [e])[j].0) <= 0
    {
      if j == |s| { assert s[i] in s; }
    }
  }

  lemma {:induction false} InsertSorted(s: seq<Entry>, e: Entry)
    requires SortedKeys(s)
    ensures SortedKeys(InsertEntry(s, e))
  {
    if s == [] {
    } else if LexCmp(s[|s| - 1].0, e.0) <= 0 {
      forall x | x in s
        ensures LexCmp(x.0, e.0) <= 0
      {
        var i :| 0 <= i < |s| && s[i] == x;
        if i < |s| - 1 { LexTrans(x.0, s[|s| - 1].0, e.0); }
      }
      SortedSnoc(s, e);
    } else {
      var last, front := s[|s| - 1], s[..|s| - 1];
      InsertSorted(front, e);
      InsertPerm(front, e);
      LexAntisym(last.0, e.0);
      forall x | x in InsertEntry(front, e)
        ensures LexCmp(x.0, last.0) <= 0
      {
        assert x in multiset(front) + multiset{e};
      }
      SortedSnoc(InsertEntry(front, e), last);
    }
  }

  lemma {:induction false} SortCorrect(s: seq<Entry>)
    ensures SortedKeys(SortEntries(s)) && multiset(SortEntries(s)) == multiset(s)
    ensures |SortEntries(s)| == |s|
  {
    if s != [] {
      SortCorrect(s[..|s| - 1]);
      InsertSorted(SortEntries(s[..|s| - 1]), s[|s| - 1]);
      InsertPerm(SortEntries(s[..|s| - 1]), s[|s| - 1]);
      assert s == s[..|s| - 1] + [s[|s| - 1]];
      assert |multiset(SortEntries(s))| == |multiset(s)|;
    }
  }

  lemma HeadIsLeast(s: seq<Entry>, e: Entry)
    requires SortedKeys(s) && e in s
    ensures LexCmp(s[0].0, e.0) <= 0
  {
    LexAntisym(s[0].0, s[0].0);
  }

  lemma HeadsAgree(s: seq<Entry>, t: seq<Entry>)
    requires SortedKeys(s) && SortedKeys(t) && multiset(s) == multiset(t) && DistinctKeys(s) && s != [] && t != []
    ensures s[0] == t[0]
  {
    assert s[0] in multiset(t) && t[0] in multiset(s);
    HeadIsLeast(t, s[0]);
    HeadIsLeast(s, t[0]);
    LexAntisym(s[0].0, t[0].0);
    var k :| 0 <= k < |s| && s[k] == t[0];
  }

  lemma DropHead(s: seq<Entry>)
    requires s != []
    ensures multiset(s[1..]) == multiset(s) - multiset{s[0]}
  {
    assert s == [s[0]] + s[1..];
  }

  /** Distinct keys leave a sorted sequence no freedom, so the sort's (in)stability cannot show. */
  lemma {:induction false} SortedUnique(s: seq<Entry>, t: seq<Entry>)
    requires SortedKeys(s) && SortedKeys(t) && multiset(s) == multiset(t) && DistinctKeys(s)
    ensures s == t
    decreases |s|
  {
    assert |s| == |multiset(s)| == |multiset(t)| == |t|;
    if s != [] {
      HeadsAgree(s, t);
      DropHead(s);
      DropHead(t);
      SortedUnique(s[1..], t[1..]);
      assert s == [s[0]] + s[1..] && t == [t[0]] + t[1..];
    }
  }

  lemma PermutedDistinct(s: seq<Entry>, t: seq<Entry>)
    requires multiset(s) == multiset(t) && DistinctKeys(s)
    ensures DistinctKeys(t)
  {
    forall i, j | 0 <= i < j < |t|
      ensures t[i].0 != t[j].0
    {
      assert t[i] in multiset(s) && t[j] in multiset(s);
      if t[i] == t[j] {
        assert t == t[..i] + [t[i]] + t[i + 1..j] + [t[j]] + t[j + 1..];
        assert multiset(t)[t[i]] >= 2;
        OnceOnly(s, t[i]);
      }
    }
  }

  lemma {:induction false} OnceOnly(s: seq<Entry>, e: Entry)
    requires DistinctKeys(s)
    ensures multiset(s)[e] <= 1
  {
    if s != [] {
      OnceOnly(s[1..], e);
      assert s == [s[0]] + s[1..];
    }
  }

  /** The bytes WriteMap must produce for these entries. */
  function CanonMap(entries: seq<Entry>): bytes
    requires |entries| <= INT32_MAX
  {
    CanonHead(5, |entries|) + Flatten(SortEntries(entries))
  }

  /** Insertion order never shows in the bytes. */
  lemma CanonMapOrderFree(s: seq<Entry>, t: seq<Entry>)
    requires |s| <= INT32_MAX && multiset(s) == multiset(t) && DistinctKeys(s)
    ensures |s| == |t| && CanonMap(s) == CanonMap(t)
  {
    assert |s| == |multiset(s)| == |multiset(t)| == |t|;
    SortCorrect(s);
    SortCorrect(t);
    PermutedDistinct(s, SortEntries(s));
    SortedUnique(SortEntries(s), SortEntries(t));
  }

  lemma SortedPermutation(entries: seq<Entry>, pairs: seq<Entry>)
    requires DistinctKeys(entries) && SortedKeys(pairs) && multiset(pairs) == multiset(entries)
    ensures pairs == SortEntries(entries)
  {
    SortCorrect(entries);
    PermutedDistinct(entries, pairs);
    SortedUnique(pairs, SortEntries(entries));
  }

  /** Entries listed in key order are written as listed. */
  lemma CanonMapSorted(s: seq<Entry>)
    requires |s| <= INT32_MAX && SortedKeys(s) && DistinctKeys(s)
    ensures CanonMap(s) == CanonHead(5, |s|) + Flatten(s)
  {
    SortCorrect(s);
    SortedUnique(s, SortEntries(s));
  }

  lemma InsertStep(pairs: seq<Entry>, e: Entry, j: nat)
    requires 0 < j <= |pairs| && LexCmp(pairs[j - 1].0, e.0) > 0
    ensures InsertEntry(pairs[..j], e) + pairs[j..] == InsertEntry(pairs[..j - 1], e) + pairs[j - 1..]
  {
    hide LexCmp;
    var x := pairs[j - 1];
    var front := InsertEntry(pairs[..j - 1], e);
    assert pairs[..j][..j - 1] == pairs[..j - 1] && pairs[..j][j - 1] == x;
    assert InsertEntry(pairs[..j], e) == front + [x];
    hide InsertEntry;
    assert pairs[j - 1..] == [x] + pairs[j..];
    assert (front + [x]) + pairs[j..] == front + ([x] + pairs[j..]);
  }

  lemma InsertStop(pairs: seq<Entry>, e: Entry)
    requires pairs == [] || LexCmp(pairs[|pairs| - 1].0, e.0) <= 0
    ensures InsertEntry(pairs, e) == pairs + [e]
  {}

  method InsertPair(pairs: seq<Entry>, e: Entry) returns (r: seq<Entry>)
    ensures r == InsertEntry(pairs, e)
  {
    hide LexCmp, InsertEntry;
    var j := |pairs|;
    assert pairs[..j] == pairs && InsertEntry(pairs, e) + [] == InsertEntry(pairs, e) && pairs[j..] == [];
    while j > 0 && LexCmp(pairs[j - 1].0, e.0) > 0
      invariant 0 <= j <= |pairs|
      invariant InsertEntry(pairs, e) == InsertEntry(pairs[..j], e) + pairs[j..]
    {
      InsertStep(pairs, e, j);
      j := j - 1;
    }
    InsertStop(pairs[..j], e);
    return pairs[..j] + [e] + pairs[j..];
  }

  /** List.Sort: some permutation in key order; nothing is known of the order of equal keys. */
  method SortPairs(entries: seq<Entry>) returns (pairs: seq<Entry>)
    ensures SortedKeys(pairs) && multiset(pairs) == multiset(entries) && |pairs| == |entries|
  {
    hide InsertEntry, SortedKeys;
    pairs := [];
    for i := 0 to |entries|
      invariant pairs == SortEntries(entries[..i])
    {
      assert entries[..i + 1][..i] == entries[..i];
      pairs := InsertPair(pairs, entries[i]);
    }
    assert entries[..|entries|] == entries;
    SortCorrect(entries);
  }

  class CborWriter {
    var buf: bytes

    constructor ()
      ensures buf == []
    {
      buf := [];
    }

    method WriteTypeAndValue(majorType: nat, value: nat)
      requires majorType < 8 && value <= UINT64_MAX
      modifies this
      ensures buf == old(buf) + CanonHead(majorType, value)
    {
      hide ToBE, Pow256;
      Pow256Values();
      var mt := majorType * 32;
      if value <= 23 {
        buf := buf + [mt + value];
        assert ToBE(value, 0) == [];
      } else if value <= 0xFF {
        buf := buf + [mt + 24];
        buf := buf + [value];
        ToBE1(value);
      } else if value <= 0xFFFF {
        buf := buf + [mt + 25];
        buf := buf + [value / 0x100];
        buf := buf + [value % 256];
        ToBE2(value);
      } else if value <= 0xFFFF_FFFF {
        buf := buf + [mt + 26];
        buf := buf + [value / 0x100_0000];
        buf := buf + [value / 0x1_0000 % 256];
        buf := buf + [value / 0x100 % 256];
        buf := buf + [value % 256];
        ToBE4(value);
      } else {
        buf := buf + [mt + 27];
        ghost var start := buf;
        var k := 8;  // shift == 8 * (k - 1)
        while k > 0
          invariant 0 <= k <= 8
          invariant buf == start + ToBE(value, 8)[..8 - k]
        {
          ToBEAt(value, 8, k - 1);
          buf := buf + [value / Pow256(k - 1) % 256];
          k := k - 1;
        }
        assert ToBE(value, 8)[..8] == ToBE(value, 8);
      }
    }

    method WriteUnsignedInt(value: nat)
      requires value <= UINT64_MAX
      modifies this
      ensures buf == old(buf) + CanonHead(0, value)
    {
      WriteTypeAndValue(0, value);
    }

    /** Non-negative arguments are refused; the lowest Int64 encodes without overflow. */
    method WriteNegativeInt(value: int) returns (ok: bool)
      requires -INT64_MAX - 1 <= value <= INT64_MAX
      modifies this
      ensures ok == (value < 0)
      ensures buf == if ok then old(buf) + CanonHead(1, -1 - value) else old(buf)
    {
      if value >= 0 {
        return false;
      }
      WriteTypeAndValue(1, -1 - value);
      return true;
    }

    /** Byte strings, and text strings given as their UTF-8 bytes. */
    method WriteString(text: bool, s: bytes)
      requires |s| <= UINT64_MAX
      modifies this
      ensures buf == old(buf) + (CanonHead(if text then 3 else 2, |s|) + s)
    {
      WriteTypeAndValue(if text then 3 else 2, |s|);
      buf := buf + s;
    }

    /** The header and the emitting loop of WriteMap. */
    method WritePairs(pairs: seq<Entry>)
      requires |pairs| <= INT32_MAX
      modifies this
      ensures buf == old(buf) + (CanonHead(5, |pairs|) + Flatten(pairs))
    {
      WriteTypeAndValue(5, |pairs|);
      ghost var start := buf;
      for i := 0 to |pairs|
        invariant buf == start + Flatten(pairs[..i])
      {
        assert pairs[..i + 1][..i] == pairs[..i];
        buf := buf + pairs[i].0 + pairs[i].1;
      }
      assert pairs[..|pairs|] == pairs;
    }

    method WriteMap(entries: seq<Entry>)
      requires |entries| <= INT32_MAX
      modifies this
      ensures exists pairs :: SortedFrom(entries, pairs) && buf == old(buf) + (CanonHead(5, |entries|) + Flatten(pairs))
      ensures DistinctKeys(entries) ==> buf == old(buf) + CanonMap(entries)
    {
      var pairs := SortPairs(entries);
      assert SortedFrom(entries, pairs);
      if DistinctKeys(entries) { SortedPermutation(entries, pairs); }
      WritePairs(pairs);
    }
  }

  lemma ToBE1(v: nat)
    requires v <= 0xFF
    ensures ToBE(v, 1) == [v]
  {
    ToBEAt(v, 1, 0);
  }

  lemma ToBE2(v: nat)
    requires v <= 0xFFFF
    ensures ToBE(v, 2) == [v / 0x100, v % 256]
  {
    ToBEAt(v, 2, 0);
    ToBEAt(v, 2, 1);
  }

  lemma ToBE4(v: nat)
    requires v <= 0xFFFF_FFFF
    ensures ToBE(v, 4) == [v / 0x100_0000, v / 0x1_0000 % 256, v / 0x100 % 256, v % 256]
  {
    Pow256Values();
    assert Pow256(3) == 0x100_0000;
    ToBEAt(v, 4, 0);
    ToBEAt(v, 4, 1);
    ToBEAt(v, 4, 2);
    ToBEAt(v, 4, 3);
  }
}
