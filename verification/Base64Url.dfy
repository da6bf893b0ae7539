/** Util/Base64Url.cs over the standard base64 conversions of .NET; text is its ASCII bytes (section 5 of RFC 4648). */
module Base64Url {
  import opened Prelude

  const EQUALS: byte := 0x3D
  const PLUS: byte := 0x2B
  const SLASH: byte := 0x2F
  const MINUS: byte := 0x2D
  const UNDERSCORE: byte := 0x5F

  function Digit(v: nat): byte
    requires v < 64
  {
    if v < 26 then 0x41 + v else if v < 52 then 0x61 + (v - 26) else if v < 62 then 0x30 + (v - 52) else if v == 62 then PLUS else SLASH
  }

  function Value(c: byte): Option<nat>
  {
    if 0x41 <= c <= 0x5A then Some(c - 0x41)
    else if 0x61 <= c <= 0x7A then Some(c - 0x61 + 26)
    else if 0x30 <= c <= 0x39 then Some(c - 0x30 + 52)
    else if c == PLUS then Some(62)
    else if c == SLASH then Some(63)
    else None
  }

  /** Convert.ToBase64String. */
  function ToBase64(d: bytes): bytes
  {
    if d == [] then []
    else if |d| == 1 then [Digit(d[0] / 4), Digit(d[0] % 4 * 16), EQUALS, EQUALS]
    else if |d| == 2 then [Digit(d[0] / 4), Digit(d[0] % 4 * 16 + d[1] / 16), Digit(d[1] % 16 * 4), EQUALS]
    else [Digit(d[0] / 4), Digit(d[0] % 4 * 16 + d[1] / 16), Digit(d[1] % 16 * 4 + d[2] / 64), Digit(d[2] % 64)] + ToBase64(d[3..])
  }

  /** One group of four characters; bits past the last whole byte are dropped unchecked, as .NET does. */
  function Group(a: byte, b: byte, c: byte, e: byte, last: bool): Option<bytes>
  {
    if Value(a).None? || Value(b).None? then None
    else
      var x, y := Value(a).value, Value(b).value;
      var b0 := x * 4 + y / 16;
      if c == EQUALS then (if e == EQUALS && last then Some([b0]) else None)
      else if Value(c).None? then None
      else
        var z := Value(c).value;
        var b1 := y % 16 * 16 + z / 4;
        if e == EQUALS then (if last then Some([b0, b1]) else None)
        else if Value(e).None? then None
        else Some([b0, b1, z % 4 * 64 + Value(e).value])
  }

  function Groups(s: bytes): Option<bytes>
  {
    if s == [] then Some([])
    else if |s| < 4 then None
    else match Group(s[0], s[1], s[2], s[3], |s| == 4)
      case None => None
      case Some(x) => match Groups(s[4..]) case None => None case Some(y) => Some(x + y)
  }

  predicate IsSpace(c: byte)
  {
    c in {0x20, 0x09, 0x0A, 0x0D}
  }

  function DropSpaces(s: bytes): bytes
  {
    if s == [] then [] else (if IsSpace(s[0]) then [] else [s[0]]) + DropSpaces(s[1..])
  }

  /** Convert.FromBase64String; None is its FormatException. */
  function FromBase64(s: bytes): Option<bytes>
  {
    Groups(DropSpaces(s))
  }

  function TrimEnd(s: bytes): bytes
  {
    if s != [] && s[|s| - 1] == EQUALS then TrimEnd(s[..|s| - 1]) else s
  }

  function Replace(s: bytes, from: byte, to: byte): (r: bytes)
    ensures |r| == |s|
  {
    seq(|s|, i requires 0 <= i < |s| => if s[i] == from then to else s[i])
  }

  function Encode(data: bytes): bytes
  {
    Replace(Replace(TrimEnd(ToBase64(data)), PLUS, MINUS), SLASH, UNDERSCORE)
  }

  function Pad(s: bytes): bytes
  {
    s + if |s| % 4 == 2 then [EQUALS, EQUALS] else if |s| % 4 == 3 then [EQUALS] else []
  }

  function Decode(s: bytes): Option<bytes>
  {
    FromBase64(Pad(Replace(Replace(s, MINUS, PLUS), UNDERSCORE, SLASH)))
  }

  // -- the round trip --------------------------------------------------------------

  lemma DigitValue(v: nat)
    requires v < 64
    ensures Value(Digit(v)) == Some(v) && Digit(v) != EQUALS
  {}

  /** A byte split over two digits comes back whole. */
  lemma SplitBytes(x: byte, y: byte, z: byte)
    ensures x / 4 * 4 + (x % 4 * 16 + y / 16) / 16 == x
    ensures (x % 4 * 16 + y / 16) % 16 == y / 16
    ensures y / 16 * 16 + (y % 16 * 4 + z / 64) / 4 == y
    ensures (y % 16 * 4 + z / 64) % 4 == z / 64 && z / 64 * 64 + z % 64 == z
  {}

  lemma GroupOf3(x: byte, y: byte, z: byte, last: bool)
    ensures Group(Digit(x / 4), Digit(x % 4 * 16 + y / 16), Digit(y % 16 * 4 + z / 64), Digit(z % 64), last) == Some([x, y, z])
    ensures last ==> Group(Digit(x / 4), Digit(x % 4 * 16 + y / 16), Digit(y % 16 * 4), EQUALS, last) == Some([x, y])
    ensures last ==> Group(Digit(x / 4), Digit(x % 4 * 16), EQUALS, EQUALS, last) == Some([x])
  {
    hide Digit, Value;
    DigitValue(x / 4);
    DigitValue(x % 4 * 16 + y / 16);
    DigitValue(x % 4 * 16);
    DigitValue(y % 16 * 4 + z / 64);
    DigitValue(y % 16 * 4);
    DigitValue(z % 64);
    SplitBytes(x, y, z);
    SplitBytes(x, 0, 0);
    SplitBytes(x, y, 0);
  }

  lemma GroupRoundTrip(d: bytes, last: bool)
    requires 1 <= |d| <= 3 && (|d| < 3 ==> last)
    ensures var t := ToBase64(d); |t| == 4 && Group(t[0], t[1], t[2], t[3], last) == Some(d)
  {
    hide Digit, Value, Group;
    var x, y, z := d[0], if |d| > 1 then d[1] else 0, if |d| > 2 then d[2] else 0;
    GroupOf3(x, y, z, last);
    assert ToBase64([]) == [];
    assert d == if |d| == 1 then [x] else if |d| == 2 then [x, y] else [x, y, z];
    if |d| == 3 { assert d[3..] == []; }
  }

  /** Digits are never padding. */
  lemma PlainDigits(d: bytes)
    requires 1 <= |d| <= 3
    ensures var t := ToBase64(d);
            Value(t[0]).Some? && Value(t[1]).Some? && (|d| > 1 ==> Value(t[2]).Some?) && (|d| > 2 ==> Value(t[3]).Some?)
  {
    hide Digit, Value;
    DigitValue(d[0] / 4);
    if |d| == 1 { DigitValue(d[0] % 4 * 16); } else { DigitValue(d[0] % 4 * 16 + d[1] / 16); }
    if |d| == 2 { DigitValue(d[1] % 16 * 4); }
    if |d| == 3 {
      DigitValue(d[1] % 16 * 4 + d[2] / 64);
      DigitValue(d[2] % 64);
    }
  }

  lemma ToBase64Cons(d: bytes)
    requires |d| >= 1
    ensures ToBase64(d) == ToBase64(if |d| <= 3 then d else d[..3]) + ToBase64(if |d| <= 3 then [] else d[3..])
  {
    if |d| == 3 { assert d[3..] == []; }
    if |d| > 3 { assert d[..3][3..] == []; }
  }

  lemma {:induction false} GroupsRoundTrip(d: bytes)
    ensures Groups(ToBase64(d)) == Some(d)
    decreases |d|
  {
    if d != [] {
      hide ToBase64, Group;
      var head, tail := if |d| <= 3 then d else d[..3], if |d| <= 3 then [] else d[3..];
      GroupRoundTrip(head, tail == []);
      ToBase64Cons(d);
      GroupsRoundTrip(tail);
      assert ToBase64(d)[4..] == ToBase64(tail);
      assert d == head + tail;
      Base64Length(tail);
    }
  }

  lemma {:induction false} Base64Length(d: bytes)
    ensures |ToBase64(d)| == (|d| + 2) / 3 * 4
    decreases |d|
  {
    if |d| >= 3 { Base64Length(d[3..]); }
  }

  /** A character Encode may meet before padding is put on. */
  predicate Plain(c: byte)
  {
    Value(c).Some?
  }

  ghost predicate AllPlain(s: bytes)
  {
    forall i :: 0 <= i < |s| ==> Plain(s[i])
  }

  lemma ShapeSmall(d: bytes) returns (core: bytes)
    requires 1 <= |d| <= 3
    ensures AllPlain(core) && ToBase64(d) == Pad(core) && |core| == |d| + 1
  {
    GroupRoundTrip(d, true);
    PlainDigits(d);
    var t := ToBase64(d);
    core := if |d| == 1 then t[..2] else if |d| == 2 then t[..3] else t;
  }

  lemma ShapeJoin(core: bytes, rest: bytes)
    requires |core| == 4 && AllPlain(core) && AllPlain(rest)
    ensures AllPlain(core + rest) && Pad(core + rest) == core + Pad(rest) && Pad(core) == core
  {
    hide Plain;
  }

  lemma {:induction false} Shape(d: bytes) returns (core: bytes)
    ensures AllPlain(core) && ToBase64(d) == Pad(core) && |core| == (4 * |d| + 2) / 3
    decreases |d|
  {
    hide ToBase64, AllPlain, Pad;
    assert ToBase64([]) == [] by { Base64Length([]); }
    if d == [] {
      core := [];
      assert AllPlain([]) && Pad([]) == [] by { ShapeNone(); }
    } else {
      ToBase64Cons(d);
      core := ShapeSmall(if |d| <= 3 then d else d[..3]);
      if |d| > 3 {
        var rest := Shape(d[3..]);
        ShapeJoin(core, rest);
        core := core + rest;
      }
    }
  }

  lemma ShapeNone()
    ensures AllPlain([]) && Pad([]) == []
  {}

  lemma TrimPadded(core: bytes)
    requires AllPlain(core)
    ensures TrimEnd(Pad(core)) == core
  {
    assert core != [] ==> Plain(core[|core| - 1]);
    assert TrimEnd(core) == core;
    var one := core + [EQUALS];
    assert one[..|one| - 1] == core;
    var two := core + [EQUALS, EQUALS];
    assert two[..|two| - 1] == one;
    assert core + [] == core;
  }

  lemma {:induction false} NoSpaces(s: bytes)
    requires forall i :: 0 <= i < |s| ==> !IsSpace(s[i])
    ensures DropSpaces(s) == s
  {
    if s != [] { NoSpaces(s[1..]); }
  }

  /** Decoding undoes encoding for every byte string. */
  lemma RoundTrip(d: bytes)
    ensures Decode(Encode(d)) == Some(d)
  {
    hide ToBase64, TrimEnd;
    var core := Shape(d);
    TrimPadded(core);
    GroupsRoundTrip(d);
    var e := Encode(d);
    var back := Replace(Replace(e, MINUS, PLUS), UNDERSCORE, SLASH);
    forall i | 0 <= i < |core|
      ensures back[i] == core[i]
    {
      assert Plain(core[i]);
    }
    assert back == core;
    NoSpaces(Pad(core));
  }

  /** Convert.FromBase64String undoes Convert.ToBase64String. */
  lemma StandardRoundTrip(d: bytes)
    ensures FromBase64(ToBase64(d)) == Some(d)
  {
    hide ToBase64;
    var core := Shape(d);
    GroupsRoundTrip(d);
    assert forall i :: 0 <= i < |core| ==> Plain(core[i]);
    NoSpaces(ToBase64(d));
  }

  /** Distinct byte strings, in particular distinct credential IDs, get distinct texts. */
  lemma EncodeInjective(a: bytes, b: bytes)
    requires Encode(a) == Encode(b)
    ensures a == b
  {
    RoundTrip(a);
    RoundTrip(b);
  }

  lemma EncodeEmpty(d: bytes)
    ensures Encode(d) == [] <==> d == []
  {
    RoundTrip(d);
    assert Encode([]) == [];
    RoundTrip([]);
  }

  /** Four characters for every three bytes, and no padding. */
  lemma EncodeLength(d: bytes)
    ensures |Encode(d)| == (4 * |d| + 2) / 3
  {
    hide ToBase64, TrimEnd;
    var core := Shape(d);
    TrimPadded(core);
  }

  lemma {:induction false} GroupsShort(s: bytes)
    ensures Groups(s).Some? ==> |Groups(s).value| <= |s|
  {
    if |s| >= 4 { GroupsShort(s[4..]); }
  }

  lemma {:induction false} DropSpacesShort(s: bytes)
    ensures |DropSpaces(s)| <= |s|
  {
    if s != [] { DropSpacesShort(s[1..]); }
  }

  /** Decoding never lengthens by more than the padding it adds. */
  lemma DecodeShort(s: bytes)
    ensures Decode(s).Some? ==> |Decode(s).value| <= |s| + 2
  {
    var t := Pad(Replace(Replace(s, MINUS, PLUS), UNDERSCORE, SLASH));
    DropSpacesShort(t);
    GroupsShort(DropSpaces(t));
  }

  /** The characters of the URL alphabet, and the two of the standard one that decoding lets pass. */
  predicate InAlphabet(c: byte)
  {
    || 'A' as int <= c <= 'Z' as int || 'a' as int <= c <= 'z' as int || '0' as int <= c <= '9' as int
    || c == '-' as int || c == '_' as int || c == '+' as int || c == '/' as int
  }

  lemma {:induction false} GroupsIff(core: bytes)
    requires forall i :: 0 <= i < |core| ==> core[i] != EQUALS
    ensures Groups(Pad(core)).Some? <==> |core| % 4 != 1 && AllPlain(core)
    decreases |core|
  {
    if |core| > 4 {
      var head, tail := core[..4], core[4..];
      GroupsIff(tail);
      assert Pad(core) == head + Pad(tail);
      assert Pad(core)[4..] == Pad(tail);
      assert core == head + tail;
    } else {
      LastGroup(core);
    }
  }

  lemma LastGroup(core: bytes)
    requires |core| <= 4 && forall i :: 0 <= i < |core| ==> core[i] != EQUALS
    ensures Groups(Pad(core)).Some? <==> |core| % 4 != 1 && AllPlain(core)
  {
    hide Value;
    var t := Pad(core);
    if |t| == 4 { assert t[4..] == [] && Groups([]) == Some([]); }
  }

  /** Which texts without white space and padding decode: those over the alphabet whose length some byte string has. */
  lemma DecodableIff(s: bytes)
    requires forall i :: 0 <= i < |s| ==> s[i] != '=' as int && !IsSpace(s[i])
    ensures Decode(s).Some? <==> |s| % 4 != 1 && forall i :: 0 <= i < |s| ==> InAlphabet(s[i])
  {
    hide Groups;
    var t := Replace(Replace(s, MINUS, PLUS), UNDERSCORE, SLASH);
    assert forall i :: 0 <= i < |s| ==> t[i] == (if s[i] == MINUS then PLUS else if s[i] == UNDERSCORE then SLASH else s[i]);
    assert forall i :: 0 <= i < |s| ==> (Plain(t[i]) <==> InAlphabet(s[i]));
    GroupsIff(t);
    NoSpaces(Pad(t));
  }
}
