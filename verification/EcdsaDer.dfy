/**
 Crypto/EcdsaSigner.cs (P1363ToDer) and Crypto/EcdsaVerifier.cs (TryDerToP1363, VerifyAcceptingEitherFormat):
 two independently written conversions between r || s and ECDSA-Sig-Value (section 2.2.3 of RFC 3279),
 compared through the grammar of X.690.
 */
module EcdsaDer {
  import opened Prelude

  const SEQUENCE: byte := 0x30
  const INTEGER: byte := 0x02
  const P256_COORD_SIZE := 32

  // -- the grammar ----------------------------------------------------------------------

  /** SEQUENCE { INTEGER r, INTEGER s } with its three length fields spelled out. */
  datatype SigValue = SigValue(l0: bytes, l1: bytes, r: bytes, l2: bytes, s: bytes)

  function Content(x: SigValue): bytes
  {
    ([INTEGER] + x.l1 + x.r) + ([INTEGER] + x.l2 + x.s)
  }

  function Bytes(x: SigValue): bytes
  {
    [SEQUENCE] + x.l0 + Content(x)
  }

  /** The length forms the verifier understands: short, one byte, two bytes; shortest form not required. */
  predicate LengthForm(l: bytes, n: nat)
  {
    || (l == [n] && n < 0x80)
    || (|l| == 2 && l[0] == 0x81 && l[1] == n)
    || (|l| == 3 && l[0] == 0x82 && l[1] as int * 256 + l[2] == n)
  }

  /** Section 10.1 of X.690: the shortest form, of any length. */
  predicate DerLength(l: bytes, n: nat)
  {
    || (l == [n] && n < 0x80)
    || (n >= 0x80 && 2 <= |l| <= 127 && l[0] == 0x80 + (|l| - 1) && l[1] != 0 && FromBE(l[1..]) == n)
  }

  predicate Lenient(x: SigValue)
  {
    x.r != [] && x.s != [] && LengthForm(x.l1, |x.r|) && LengthForm(x.l2, |x.s|) && LengthForm(x.l0, |Content(x)|)
  }

  /** Sections 8.3.2 and 8.3.3 of X.690, for an integer that is not negative. */
  predicate NonNegInteger(c: bytes)
  {
    c != [] && c[0] < 0x80 && (|c| > 1 && c[0] == 0 ==> c[1] >= 0x80)
  }

  predicate Strict(x: SigValue)
  {
    NonNegInteger(x.r) && NonNegInteger(x.s) && DerLength(x.l1, |x.r|) && DerLength(x.l2, |x.s|) && DerLength(x.l0, |Content(x)|)
  }

  /** `d` is strict DER of two non-negative integers. */
  ghost predicate StrictDer(d: bytes)
  {
    exists x :: Strict(x) && d == Bytes(x)
  }

  /** `d` spells the two numbers of the 64-byte signature `p`, in some form the verifier understands. */
  ghost predicate Spells(d: bytes, p: bytes)
  {
    |p| == 64 && exists x :: Lenient(x) && d == Bytes(x) && FromBE(x.r) == FromBE(p[..32]) && FromBE(x.s) == FromBE(p[32..])
  }

  // -- what the two conversions compute -----------------------------------------------------

  function Trim(c: bytes): bytes
  {
    if |c| > 1 && c[0] == 0 then Trim(c[1..]) else c
  }

  function LengthFieldSize(n: nat): nat
  {
    if n < 0x80 then 1 else if n < 0x100 then 2 else 3
  }

  /** The two-byte form keeps only the low 16 bits. */
  function LengthField(n: nat): (l: bytes)
    ensures |l| == LengthFieldSize(n)
  {
    if n < 0x80 then [n] else if n < 0x100 then [0x81, n] else [0x82, n / 256 % 256, n % 256]
  }

  function Unsigned(v: bytes): (c: bytes)
    requires v != []
  {
    TrimNonEmpty(v);
    if Trim(v)[0] >= 0x80 then [0] + Trim(v) else Trim(v)
  }

  function Signature(p: bytes): SigValue
    requires |p| % 2 == 0 && p != []
  {
    var r, s := Unsigned(p[..|p| / 2]), Unsigned(p[|p| / 2..]);
    var x := SigValue([], LengthField(|r|), r, LengthField(|s|), s);
    x.(l0 := LengthField(|Content(x)|))
  }

  /** None stands for the ArgumentException on odd lengths and the IndexOutOfRangeException on none. */
  function ToDer(p: bytes): Option<bytes>
  {
    if |p| % 2 != 0 || p == [] then None else Some(Bytes(Signature(p)))
  }

  function ReadLength(s: bytes): Parsed<nat>
  {
    if |s| == 0 then Fail
    else if s[0] < 0x80 then Got(s[0], s[1..])
    else if s[0] == 0x81 && |s| >= 2 then Got(s[1], s[2..])
    else if s[0] == 0x82 && |s| >= 3 then Got(s[1] as int * 256 + s[2], s[3..])
    else Fail
  }

  function ReadInteger(s: bytes): Parsed<bytes>
  {
    if |s| == 0 || s[0] != INTEGER then Fail
    else match ReadLength(s[1..])
      case Fail => Fail
      case Got(n, rest) => if n == 0 || n > |rest| then Fail else Got(rest[..n], rest[n..])
  }

  function Zeros(n: nat): (z: bytes)
    ensures |z| == n
  {
    seq(n, _ => 0)
  }

  function Fit(c: bytes): (f: Option<bytes>)
    ensures f.Some? ==> |f.value| == P256_COORD_SIZE
  {
    if |Trim(c)| > P256_COORD_SIZE then None else Some(Zeros(P256_COORD_SIZE - |Trim(c)|) + Trim(c))
  }

  function Halves(r: bytes, s: bytes): Option<bytes>
  {
    if Fit(r).None? || Fit(s).None? then None else Some(Fit(r).value + Fit(s).value)
  }

  function FromDer(d: bytes): Option<bytes>
  {
    if |d| < 8 || d[0] != SEQUENCE then None
    else match ReadLength(d[1..])
      case Fail => None
      case Got(n, body) =>
        if n != |body| then None
        else match ReadInteger(body)
          case Fail => None
          case Got(r, rest) =>
            match ReadInteger(rest)
            case Fail => None
            case Got(s, end) =>
              if end != [] then None else Halves(r, s)
  }

  // -- numbers and their paddings --------------------------------------------------------------

  lemma {:induction false} TrimNonEmpty(c: bytes)
    ensures c != [] ==> Trim(c) != [] && |Trim(c)| <= |c| && (|Trim(c)| > 1 ==> Trim(c)[0] != 0)
  {
    if |c| > 1 && c[0] == 0 { TrimNonEmpty(c[1..]); }
  }

  lemma {:induction false} LeadingZero(s: bytes)
    ensures FromBE([0] + s) == FromBE(s)
  {
    if s == [] {
      assert FromBE([0]) == FromBE([]) * 256 + 0 by { assert [0][..0] == []; }
      assert [0] + s == [0];
    } else {
      LeadingZero(s[..|s| - 1]);
      assert ([0] + s)[..|s|] == [0] + s[..|s| - 1];
    }
  }

  lemma {:induction false} TrimValue(c: bytes)
    ensures FromBE(Trim(c)) == FromBE(c)
  {
    if |c| > 1 && c[0] == 0 {
      LeadingZero(c[1..]);
      assert c == [0] + c[1..];
      TrimValue(c[1..]);
    }
  }

  lemma {:induction false} PadValue(n: nat, c: bytes)
    ensures FromBE(Zeros(n) + c) == FromBE(c)
    ensures c != [] ==> Trim(Zeros(n) + c) == Trim(c)
  {
    if n == 0 {
      assert Zeros(n) + c == c;
    } else {
      assert Zeros(n) + c == [0] + (Zeros(n - 1) + c);
      LeadingZero(Zeros(n - 1) + c);
      PadValue(n - 1, c);
      assert c != [] ==> ([0] + (Zeros(n - 1) + c))[1..] == Zeros(n - 1) + c;
    }
  }

  lemma {:induction false} PowMono(m: nat, n: nat)
    requires m <= n
    ensures Pow256(m) <= Pow256(n)
  {
    if m < n { PowMono(m, n - 1); }
  }

  lemma {:induction false} LeadingByte(t: bytes)
    requires t != [] && t[0] != 0
    ensures FromBE(t) >= Pow256(|t| - 1)
  {
    if |t| > 1 { LeadingByte(t[..|t| - 1]); }
  }

  /** A coordinate fits exactly when its value does, and then it is the 32-byte form of that value. */
  lemma FitIsValue(c: bytes)
    requires c != []
    ensures Fit(c) == if FromBE(c) < Pow256(32) then Some(ToBE(FromBE(c), 32)) else None
  {
    hide ToBE, FromBE, Pow256;
    TrimNonEmpty(c);
    TrimValue(c);
    var t := Trim(c);
    if |t| <= 32 {
      var padded := Zeros(32 - |t|) + t;
      PadValue(32 - |t|, t);
      ToFromBE(padded);
    } else {
      LeadingByte(t);
      PowMono(32, |t| - 1);
    }
  }

  /** Sign padding is minimal and changes no value. */
  lemma UnsignedIsMinimal(v: bytes)
    requires v != []
    ensures NonNegInteger(Unsigned(v)) && FromBE(Unsigned(v)) == FromBE(v) && |Unsigned(v)| <= |v| + 1
  {
    hide FromBE;
    TrimNonEmpty(v);
    TrimValue(v);
    LeadingZero(Trim(v));
  }

  /** Fitting a minimal integer and encoding it again gives it back. */
  lemma UnsignedOfFit(c: bytes)
    requires NonNegInteger(c) && Fit(c).Some?
    ensures Unsigned(Fit(c).value) == c
  {
    hide FromBE;
    TrimNonEmpty(c);
    PadValue(32 - |Trim(c)|, Trim(c));
    if |c| > 1 && c[0] == 0 {
      assert Trim(c[1..]) == c[1..];
      assert c == [0] + c[1..];
    }
    assert Trim(Trim(c)) == Trim(c);
  }

  // -- length fields --------------------------------------------------------------------------------

  /** What the encoder writes is the shortest form, unless the length needs more than 16 bits. */
  lemma LengthFieldIsDer(n: nat)
    ensures DerLength(LengthField(n), n) <==> n <= 0xFFFF
    ensures n <= 0xFFFF ==> LengthForm(LengthField(n), n)
  {
    var l := LengthField(n);
    FromBEUnrolled(l[1..]);
    if n >= 0x100 { assert l[1..] == [n / 256 % 256, n % 256]; }
  }

  lemma DerLengthUnique(l: bytes, n: nat)
    requires DerLength(l, n) && n <= 0xFFFF
    ensures l == LengthField(n)
  {
    if n >= 0x80 {
      LeadingByte(l[1..]);
      Pow256Values();
      if |l| > 3 { PowMono(2, |l| - 2); }
      FromBEUnrolled(l[1..]);
    }
  }

  lemma ReadLengthComplete(l: bytes, n: nat, rest: bytes)
    requires LengthForm(l, n)
    ensures ReadLength(l + rest) == Got(n, rest)
  {
    assert (l + rest)[|l|..] == rest;
  }

  lemma ReadLengthSound(s: bytes)
    requires ReadLength(s).Got?
    ensures var g := ReadLength(s);
            |g.rest| < |s| && LengthForm(s[..|s| - |g.rest|], g.v) && s == s[..|s| - |g.rest|] + g.rest
  {}

  // -- acceptance -------------------------------------------------------------------------------------

  lemma ReadIntegerComplete(l: bytes, c: bytes, rest: bytes)
    requires c != [] && LengthForm(l, |c|)
    ensures ReadInteger([INTEGER] + l + c + rest) == Got(c, rest)
  {
    var s := [INTEGER] + l + c + rest;
    assert s[1..] == l + (c + rest);
    ReadLengthComplete(l, |c|, c + rest);
    assert (c + rest)[..|c|] == c && (c + rest)[|c|..] == rest;
  }

  lemma ReadIntegerSound(s: bytes) returns (l: bytes)
    requires ReadInteger(s).Got?
    ensures var g := ReadInteger(s); g.v != [] && LengthForm(l, |g.v|) && s == [INTEGER] + l + g.v + g.rest
  {
    hide ReadLength, LengthForm;
    var t := s[1..];
    ReadLengthSound(t);
    l := t[..|t| - |ReadLength(t).rest|];
    assert s == [INTEGER] + t;
  }

  lemma FromDerComplete(x: SigValue)
    requires Lenient(x)
    ensures FromDer(Bytes(x)) == Halves(x.r, x.s)
  {
    hide Fit;
    var d, tail := Bytes(x), [INTEGER] + x.l2 + x.s;
    assert d[1..] == x.l0 + Content(x);
    ReadLengthComplete(x.l0, |Content(x)|, Content(x));
    ReadIntegerComplete(x.l1, x.r, tail);
    assert tail + [] == tail;
    ReadIntegerComplete(x.l2, x.s, []);
  }

  lemma FromDerSound(d: bytes) returns (x: SigValue)
    requires FromDer(d).Some?
    ensures Lenient(x) && d == Bytes(x) && FromDer(d) == Halves(x.r, x.s)
  {
    hide Fit, LengthForm, ReadLength, ReadInteger;
    var t := d[1..];
    ReadLengthSound(t);
    var body := ReadLength(t).rest;
    var l0 := t[..|t| - |body|];
    var l1 := ReadIntegerSound(body);
    var first := ReadInteger(body);
    var l2 := ReadIntegerSound(first.rest);
    var second := ReadInteger(first.rest);
    x := SigValue(l0, l1, first.v, l2, second.v);
    assert Content(x) == body by { assert [INTEGER] + l2 + second.v + [] == [INTEGER] + l2 + second.v; }
    assert d == [SEQUENCE] + (l0 + body);
  }

  /** The decoder accepts `d` as `p` exactly when `d` spells the two numbers of `p`. */
  lemma AcceptsIffSpells(d: bytes, p: bytes)
    ensures FromDer(d) == Some(p) <==> Spells(d, p)
  {
    hide Fit, FromDer, ToBE, FromBE, Pow256;
    if FromDer(d) == Some(p) {
      var x := FromDerSound(d);
      HalvesAre(x, p);
    }
    if Spells(d, p) {
      var x :| Lenient(x) && d == Bytes(x) && FromBE(x.r) == FromBE(p[..32]) && FromBE(x.s) == FromBE(p[32..]);
      FromDerComplete(x);
      HalvesAre(x, p);
    }
  }

  lemma HalvesAre(x: SigValue, p: bytes)
    requires x.r != [] && x.s != []
    ensures Halves(x.r, x.s) == Some(p) <==>
            |p| == 64 && FromBE(x.r) == FromBE(p[..32]) && FromBE(x.s) == FromBE(p[32..])
  {
    hide Fit, ToBE, FromBE, Pow256;
    FitIsValue(x.r);
    FitIsValue(x.s);
    if |p| == 64 {
      ToFromBE(p[..32]);
      ToFromBE(p[32..]);
      assert p == p[..32] + p[32..];
    }
    if Halves(x.r, x.s) == Some(p) {
      FromToBE(FromBE(x.r), 32);
      FromToBE(FromBE(x.s), 32);
      assert p[..32] == Fit(x.r).value && p[32..] == Fit(x.s).value;
    }
  }

  // -- the encoder's output ---------------------------------------------------------------------------------

  /**
   The output is strict DER, denoting the same two numbers, exactly when its content fits a two-byte length;
   beyond that the length field is truncated and no reading of it is strict.
   */
  lemma OutputIsStrict(p: bytes)
    requires |p| % 2 == 0 && p != []
    ensures var x := Signature(p);
      && ToDer(p) == Some(Bytes(x))
      && FromBE(x.r) == FromBE(p[..|p| / 2]) && FromBE(x.s) == FromBE(p[|p| / 2..])
      && (Strict(x) <==> |Content(x)| <= 0xFFFF)
      && (StrictDer(Bytes(x)) <==> |Content(x)| <= 0xFFFF)
  {
    hide FromBE, DerLength, Unsigned, LengthField;
    var x := Signature(p);
    UnsignedIsMinimal(p[..|p| / 2]);
    UnsignedIsMinimal(p[|p| / 2..]);
    LengthFieldIsDer(|x.r|);
    LengthFieldIsDer(|x.s|);
    LengthFieldIsDer(|Content(x)|);
    if |Content(x)| > 0xFFFF {
      forall y | Strict(y)
        ensures Bytes(y) != Bytes(x)
      {
        TruncatedLength(x, y);
      }
    }
  }

  /** Two numbers of 40000 bytes each: what is written for them has a truncated length and no strict reading. */
  lemma TruncatedCase() returns (p: bytes)
    ensures |p| == 80_000 && ToDer(p).Some? && !StrictDer(ToDer(p).value)
  {
    hide StrictDer, FromBE, Strict, LengthField;
    p := seq(80_000, _ => 1);
    var half := p[..40_000];
    assert p[40_000..] == half && half[0] == 1;
    assert Unsigned(half) == half;
    OutputIsStrict(p);
  }

  lemma TruncatedLength(x: SigValue, y: SigValue)
    requires |Content(x)| > 0xFFFF && x.l0 == LengthField(|Content(x)|) && DerLength(y.l0, |Content(y)|)
    ensures Bytes(x) != Bytes(y)
  {
    hide Content;
    assert Bytes(x)[1] == 0x82 && Bytes(y)[1] == y.l0[0];
    assert |Bytes(x)| == 1 + 3 + |Content(x)| && |Bytes(y)| == 1 + |y.l0| + |Content(y)|;
    FromBEUnrolled(y.l0[1..]);
  }

  lemma SmallContent(p: bytes)
    requires |p| == 64
    ensures Lenient(Signature(p)) && |Content(Signature(p))| <= 70
  {
    hide FromBE;
    UnsignedIsMinimal(p[..32]);
    UnsignedIsMinimal(p[32..]);
    var x := Signature(p);
    LengthFieldIsDer(|Content(x)|);
  }

  /** The verifier's decoder undoes the signer's encoder on every 64-byte signature. */
  lemma RoundTrip(p: bytes)
    requires |p| == 64
    ensures ToDer(p).Some? && FromDer(ToDer(p).value) == Some(p)
  {
    hide FromDer, Signature, FromBE, Spells;
    OutputIsStrict(p);
    SmallContent(p);
    assert Spells(Bytes(Signature(p)), p) by { SpelledBy(Signature(p), p); }
    AcceptsIffSpells(Bytes(Signature(p)), p);
  }

  lemma SpelledBy(x: SigValue, p: bytes)
    requires |p| == 64 && Lenient(x) && FromBE(x.r) == FromBE(p[..32]) && FromBE(x.s) == FromBE(p[32..])
    ensures Spells(Bytes(x), p)
  {}

  /** Re-encoding an accepted signature gives the input back exactly when the input was strict. */
  lemma ReencodeIffStrict(d: bytes, p: bytes)
    requires FromDer(d) == Some(p)
    ensures ToDer(p) == Some(d) <==> StrictDer(d)
  {
    hide FromDer, FromBE, Strict, Lenient, Spells;
    AcceptsIffSpells(d, p);
    assert |p| == 64 by { SpellsLength(d, p); }
    OutputIsStrict(p);
    SmallContent(p);
    if StrictDer(d) {
      var x :| Strict(x) && d == Bytes(x);
      StrictReencodes(x, p);
    }
  }

  lemma SpellsLength(d: bytes, p: bytes)
    requires Spells(d, p)
    ensures |p| == 64
  {}

  lemma StrictReencodes(x: SigValue, p: bytes)
    requires Strict(x) && FromDer(Bytes(x)) == Some(p) && |p| == 64
    ensures Signature(p) == x
  {
    hide FromBE, FromDer, Fit, Unsigned, DerLength;
    var y := FromDerSound(Bytes(x));
    StrictLengths(x, y);
    FromDerComplete(x);
    UnsignedOfFit(x.r);
    UnsignedOfFit(x.s);
    assert p[..32] == Fit(x.r).value && p[32..] == Fit(x.s).value;
  }

  /** Strict bytes that the decoder also reads have the length fields the encoder writes. */
  lemma StrictLengths(x: SigValue, y: SigValue)
    requires Strict(x) && Lenient(y) && Bytes(x) == Bytes(y)
    ensures Lenient(x) && x.l0 == LengthField(|Content(x)|) && x.l1 == LengthField(|x.r|) && x.l2 == LengthField(|x.s|)
  {
    hide FromBE, Strict, LengthForm, LengthField;
    assert |Content(x)| <= 0xFFFF by { ContentBound(x, y); }
    StrictParts(x);
    DerLengthUnique(x.l0, |Content(x)|);
    DerLengthUnique(x.l1, |x.r|);
    DerLengthUnique(x.l2, |x.s|);
    LengthFieldIsDer(|Content(x)|);
    LengthFieldIsDer(|x.r|);
    LengthFieldIsDer(|x.s|);
  }

  lemma StrictParts(x: SigValue)
    requires Strict(x)
    ensures x.r != [] && x.s != [] && DerLength(x.l1, |x.r|) && DerLength(x.l2, |x.s|) && DerLength(x.l0, |Content(x)|)
  {}

  lemma ContentBound(x: SigValue, y: SigValue)
    requires Strict(x) && Lenient(y) && Bytes(x) == Bytes(y)
    ensures |Content(x)| <= 0xFFFF
  {
    hide FromBE;
    assert Bytes(x)[1] == x.l0[0] && Bytes(y)[1] == y.l0[0];
    assert |Bytes(x)| == 1 + |x.l0| + |Content(x)| && |Bytes(y)| == 1 + |y.l0| + |Content(y)|;
  }

  // -- the signer's code ---------------------------------------------------------------------------------------

  method WriteLength(buf: array<byte>, pos: nat, length: nat) returns (n: nat)
    requires pos + LengthFieldSize(length) <= buf.Length
    modifies buf
    ensures n == LengthFieldSize(length)
    ensures buf[..pos + n] == old(buf[..pos]) + LengthField(length) && buf[pos + n..] == old(buf[pos + n..])
  {
    if length < 0x80 {
      buf[pos] := length;
      return 1;
    }
    if length < 0x100 {
      buf[pos] := 0x81;
      buf[pos + 1] := length;
      return 2;
    }
    buf[pos] := 0x82;
    buf[pos + 1] := length / 256 % 256;
    buf[pos + 2] := length % 256;
    return 3;
  }

  method CopyTo(src: bytes, dst: array<byte>, pos: nat)
    requires pos + |src| <= dst.Length
    modifies dst
    ensures dst[..pos + |src|] == old(dst[..pos]) + src && dst[pos + |src|..] == old(dst[pos + |src|..])
  {
    forall i | 0 <= i < |src| {
      dst[pos + i] := src[i];
    }
  }

  /** The zero-stripping loop both conversions contain. */
  method SkipZeros(value: bytes) returns (start: nat)
    requires value != []
    ensures start < |value| && Trim(value) == value[start..]
  {
    start := 0;
    while start < |value| - 1 && value[start] == 0
      invariant 0 <= start < |value|
      invariant Trim(value[start..]) == Trim(value)
    {
      assert value[start..][1..] == value[start + 1..];
      start := start + 1;
    }
  }

  /** None stands for the IndexOutOfRangeException on an empty value. */
  method EncodeInteger(value: bytes) returns (r: Option<bytes>)
    ensures r == if value == [] then None else Some([INTEGER] + LengthField(|Unsigned(value)|) + Unsigned(value))
  {
    if value == [] {
      return None;
    }
    var start := SkipZeros(value);
    var needsPad := value[start] >= 0x80;
    var contentLen := |value| - start + if needsPad then 1 else 0;
    var encoded := new byte[1 + LengthFieldSize(contentLen) + contentLen];
    encoded[0] := INTEGER;
    assert encoded[..1] == [INTEGER];
    var n := WriteLength(encoded, 1, contentLen);
    var pos := 1 + n;
    ghost var head := encoded[..pos];
    if needsPad {
      encoded[pos] := 0x00;
      pos := pos + 1;
      assert encoded[..pos] == head + [0];
    }
    CopyTo(value[start..], encoded, pos);
    assert head + [0] + value[start..] == head + ([0] + value[start..]);
    assert encoded[..] == encoded[..pos + |value[start..]|];
    return Some(encoded[..]);
  }

  lemma Join(a: bytes, b: bytes, c: bytes)
    ensures (a + b) + c == a + (b + c)
  {}

  method WriteSequence(rDer: bytes, sDer: bytes) returns (r: bytes)
    ensures r == [SEQUENCE] + LengthField(|rDer| + |sDer|) + (rDer + sDer)
  {
    hide LengthField;
    var seqContentLen := |rDer| + |sDer|;
    var der := new byte[1 + LengthFieldSize(seqContentLen) + seqContentLen];
    der[0] := SEQUENCE;
    assert der[..1] == [SEQUENCE];
    var n := WriteLength(der, 1, seqContentLen);
    ghost var head := der[..1 + n];
    var mid, end := 1 + n + |rDer|, 1 + n + |rDer| + |sDer|;
    CopyTo(rDer, der, 1 + n);
    assert der[..mid] == head + rDer;
    CopyTo(sDer, der, mid);
    assert der[..end] == (head + rDer) + sDer;
    r := der[..];
    assert r == der[..end] by { assert end == der.Length; }
    Join(head, rDer, sDer);
  }

  method P1363ToDer(p1363: bytes) returns (r: Option<bytes>)
    ensures r == ToDer(p1363)
  {
    hide Unsigned, LengthField;
    if |p1363| % 2 != 0 {
      return None;
    }
    var half := |p1363| / 2;
    var rDer := EncodeInteger(p1363[..half]);
    var sDer := EncodeInteger(p1363[half..]);
    if rDer.None? || sDer.None? {
      return None;
    }
    var der := WriteSequence(rDer.value, sDer.value);
    return Some(der);
  }

  // -- the verifier's code ----------------------------------------------------------------------------------------

  /** A negative length reports failure. */
  method ReadDerLength(data: bytes, start: nat) returns (len: int, pos: nat)
    requires start <= |data|
    ensures start <= pos <= |data|
    ensures match ReadLength(data[start..]) case Fail => len < 0 case Got(n, rest) => len == n && data[pos..] == rest
  {
    pos := start;
    if pos >= |data| {
      return -1, pos;
    }
    var b := data[pos];
    pos := pos + 1;
    if b < 0x80 {
      return b, pos;
    }
    var numBytes := b - 0x80;
    if numBytes == 0 || numBytes > 2 || pos + numBytes > |data| {
      return -1, pos;
    }
    ghost var first := pos;
    len := 0;
    for i := 0 to numBytes
      invariant pos == first + i
      invariant len == FromBE(data[first..pos])
    {
      assert data[first..pos + 1][..i] == data[first..pos];
      len := len * 256 + data[pos];
      pos := pos + 1;
    }
    FromBEUnrolled(data[first..pos]);
  }

  method TryFitCoord(coord: bytes, dest: array<byte>, destOffset: nat) returns (ok: bool)
    requires destOffset + P256_COORD_SIZE <= dest.Length
    requires coord != []
    requires dest[destOffset..destOffset + P256_COORD_SIZE] == Zeros(P256_COORD_SIZE)
    modifies dest
    ensures ok == Fit(coord).Some?
    ensures dest[..destOffset + P256_COORD_SIZE] ==
            if ok then old(dest[..destOffset]) + Fit(coord).value else old(dest[..destOffset + P256_COORD_SIZE])
    ensures dest[destOffset + P256_COORD_SIZE..] == old(dest[destOffset + P256_COORD_SIZE..])
  {
    var start := SkipZeros(coord);
    var trimmed := coord[start..];
    if |trimmed| > P256_COORD_SIZE {
      return false;
    }
    var padding := P256_COORD_SIZE - |trimmed|;
    ghost var was := dest[..];
    assert was[..destOffset + padding] == was[..destOffset] + Zeros(padding) by {
      assert was[destOffset..destOffset + padding] == Zeros(P256_COORD_SIZE)[..padding];
    }
    CopyTo(trimmed, dest, destOffset + padding);
    return true;
  }

  method TryDerToP1363(der: bytes) returns (p1363: Option<bytes>)
    ensures p1363 == FromDer(der)
  {
    hide ReadLength, Halves, LengthForm;
    if |der| < 8 || der[0] != SEQUENCE {
      return None;
    }
    var seqLen, pos := ReadDerLength(der, 1);
    if seqLen < 0 || pos + seqLen != |der| {
      return None;
    }
    if pos >= |der| || der[pos] != INTEGER {
      return None;
    }
    var rLen: int;
    assert der[pos..][1..] == der[pos + 1..];
    rLen, pos := ReadDerLength(der, pos + 1);
    if rLen <= 0 || pos + rLen > |der| {
      return None;
    }
    var rBytes := der[pos..pos + rLen];
    assert der[pos..][..rLen] == rBytes && der[pos..][rLen..] == der[pos + rLen..];
    pos := pos + rLen;
    if pos >= |der| || der[pos] != INTEGER {
      return None;
    }
    var sLen: int;
    assert der[pos..][1..] == der[pos + 1..];
    sLen, pos := ReadDerLength(der, pos + 1);
    if sLen <= 0 || pos + sLen != |der| {
      return None;
    }
    var sBytes := der[pos..pos + sLen];
    assert der[pos..][..sLen] == sBytes && der[pos..][sLen..] == [];
    p1363 := FitBoth(rBytes, sBytes);
  }

  method FitBoth(rBytes: bytes, sBytes: bytes) returns (r: Option<bytes>)
    requires rBytes != [] && sBytes != []
    ensures r == Halves(rBytes, sBytes)
  {
    hide Trim, Fit;
    var result := new byte[64](_ => 0);
    var ok := TryFitCoord(rBytes, result, 0);
    if !ok {
      return None;
    }
    assert result[32..64] == result[32..] == Zeros(32);
    assert result[..32] == Fit(rBytes).value;
    ok := TryFitCoord(sBytes, result, 32);
    if !ok {
      return None;
    }
    assert result[..] == result[..64];
    return Some(result[..]);
  }

  // -- verification in either format ---------------------------------------------------------------------------------

  /** The platform's P1363 check; it is consulted only on non-empty arguments. */
  type Ecdsa = (bytes, bytes, bytes) -> bool

  predicate Verify(ecdsa: Ecdsa, pubKey: bytes, payload: bytes, signature: bytes)
  {
    pubKey != [] && payload != [] && signature != [] && ecdsa(pubKey, payload, signature)
  }

  method VerifyAcceptingEitherFormat(ecdsa: Ecdsa, pubKey: bytes, payload: bytes, signature: bytes) returns (ok: bool)
    ensures ok == EitherFormat(ecdsa, pubKey, payload, signature)
  {
    hide ReadLength, ReadInteger, Halves;
    if pubKey == [] || payload == [] || signature == [] {
      return false;
    }
    if |signature| == 64 && Verify(ecdsa, pubKey, payload, signature) {
      return true;
    }
    var p1363 := TryDerToP1363(signature);
    if p1363.Some? {
      return Verify(ecdsa, pubKey, payload, p1363.value);
    }
    return false;
  }

  predicate EitherFormat(ecdsa: Ecdsa, pubKey: bytes, payload: bytes, signature: bytes)
  {
    || (|signature| == 64 && Verify(ecdsa, pubKey, payload, signature))
    || (FromDer(signature).Some? && Verify(ecdsa, pubKey, payload, FromDer(signature).value))
  }

  /** Accepted are exactly the 64-byte signatures that verify, as they are or in any spelling of their two numbers. */
  lemma EitherFormatAccepts(ecdsa: Ecdsa, pubKey: bytes, payload: bytes, d: bytes)
    ensures EitherFormat(ecdsa, pubKey, payload, d) <==>
            pubKey != [] && payload != [] && exists p :: |p| == 64 && (d == p || Spells(d, p)) && ecdsa(pubKey, payload, p)
  {
    hide FromDer, Spells;
    forall p
      ensures FromDer(d) == Some(p) <==> Spells(d, p)
      ensures Spells(d, p) ==> |p| == 64
    {
      AcceptsIffSpells(d, p);
      if Spells(d, p) { SpellsLength(d, p); }
    }
  }

  /** A valid 64-byte signature passes both as it is and as the signer encodes it. */
  lemma BothFormatsPass(ecdsa: Ecdsa, pubKey: bytes, payload: bytes, p: bytes)
    requires |p| == 64 && Verify(ecdsa, pubKey, payload, p)
    ensures EitherFormat(ecdsa, pubKey, payload, p)
    ensures ToDer(p).Some? && EitherFormat(ecdsa, pubKey, payload, ToDer(p).value)
  {
    hide FromDer, ToDer;
    RoundTrip(p);
  }
}
