/** The names, alphabets and numbers of the formats, against their literal values and published test vectors. */
module KnownValues {
  import opened Prelude
  import opened CborSyntax
  import opened Responses
  import RequestFold
  import Base64Url
  import DecimalText
  import EcdsaDer
  import GA = GetAssertionRequest
  import MC = MakeCredentialRequest

  function Ascii(s: string): (b: bytes)
    requires forall i :: 0 <= i < |s| ==> s[i] as int < 128
  {
    seq(|s|, i requires 0 <= i < |s| => s[i] as int)
  }

  /** The member names of the request and response maps. */
  lemma Names()
    ensures RequestFold.ID == Ascii("id") && RequestFold.TYPE == Ascii("type") && RequestFold.NAME == Ascii("name")
    ensures RequestFold.DISPLAY_NAME == Ascii("displayName") && RequestFold.PUBLIC_KEY == Ascii("public-key")
    ensures GA.UP == Ascii("up") && GA.UV == Ascii("uv") && MC.ALG == Ascii("alg") && NONE == Ascii("none")
  {}

  /** Section 4 of RFC 4648, and the two characters that section 5 replaces. */
  lemma Alphabet(v: nat)
    requires v < 64
    ensures Base64Url.Digit(v) ==
      if v < 26 then 'A' as int + v else if v < 52 then 'a' as int + (v - 26) else if v < 62 then '0' as int + (v - 52)
      else if v == 62 then '+' as int else '/' as int
    ensures Base64Url.MINUS == '-' as int && Base64Url.UNDERSCORE == '_' as int && Base64Url.EQUALS == '=' as int
  {}

  /** Section 10 of RFC 4648. */
  lemma Base64Vectors()
    ensures Base64Url.ToBase64(Ascii("f")) == Ascii("Zg==") && Base64Url.ToBase64(Ascii("fo")) == Ascii("Zm8=")
  {}

  lemma Base64Group()
    ensures Base64Url.ToBase64(Ascii("foo")) == Ascii("Zm9v")
  {
    assert Ascii("foo")[3..] == [];
  }

  /** A text with both characters that differ. */
  lemma Base64UrlVector()
    ensures Base64Url.ToBase64([0xFB, 0xFF, 0xBF]) == [0x2B, 0x2F, 0x2B, 0x2F]
    ensures Base64Url.Encode([0xFB, 0xFF, 0xBF]) == [0x2D, 0x5F, 0x2D, 0x5F]
  {
    assert [0xFB as byte, 0xFF, 0xBF][3..] == [];
    var t := Base64Url.ToBase64([0xFB, 0xFF, 0xBF]);
    assert t == [0x2B, 0x2F, 0x2B, 0x2F] && Base64Url.TrimEnd(t) == t;
  }

  /** Appendix A of RFC 8949: 23, 100, -1, -100, 1000, h'01020304' and "a". */
  lemma CborVectors()
    ensures Enc(Num(false, 0, 23)) == [0x17] && Enc(Num(false, 1, 100)) == [0x18, 0x64]
    ensures Enc(Num(true, 0, 0)) == [0x20] && Enc(Num(true, 1, 99)) == [0x38, 0x63]
    ensures Enc(Num(false, 2, 1000)) == [0x19, 0x03, 0xE8]
    ensures Enc(Str(false, 0, [1, 2, 3, 4])) == [0x44, 1, 2, 3, 4] && Enc(Str(true, 0, [0x61])) == [0x61, 0x61]
  {
    ToBETwo(1000);
  }

  lemma ToBETwo(v: nat)
    requires v < 0x10000
    ensures ToBE(v, 2) == [v / 256, v % 256]
  {
    assert ToBE(v / 256, 1) == ToBE(0, 0) + [v / 256];
  }

  /** false, true, [] and {}. */
  lemma CborSimple()
    ensures Decode([0xF4]) == Got(Simple(20), []) && Decode([0xF5]) == Got(Simple(21), [])
    ensures Decode([0x80]) == Got(Nest(false, 0, []), []) && Decode([0xA0]) == Got(Nest(true, 0, []), [])
  {}

  /** A tag, a reserved length, an indefinite length and a floating-point number. */
  lemma CborRefused(rest: bytes)
    ensures Decode([0xC0] + rest) == Fail && Decode([0x1C] + rest) == Fail
    ensures Decode([0x5F] + rest) == Fail && Decode([0xFB] + rest) == Fail
  {}

  /** SEQUENCE { INTEGER 1, INTEGER 128 }. */
  lemma DerVector()
    ensures EcdsaDer.ToDer([0x01, 0x80]) == Some([0x30, 0x07, 0x02, 0x01, 0x01, 0x02, 0x02, 0x00, 0x80])
  {
    var p: bytes := [0x01, 0x80];
    assert p[..1] == [0x01] && p[1..] == [0x80];
    assert EcdsaDer.Unsigned([0x01]) == [0x01] && EcdsaDer.Unsigned([0x80]) == [0x00, 0x80];
    var x := EcdsaDer.Signature(p);
    assert EcdsaDer.Content(x) == [0x02, 0x01, 0x01, 0x02, 0x02, 0x00, 0x80];
    assert x.l0 == [0x07];
    assert EcdsaDer.Bytes(x) == [0x30, 0x07, 0x02, 0x01, 0x01, 0x02, 0x02, 0x00, 0x80];
  }

  lemma DecimalVectors()
    ensures DecimalText.Decimal(0) == [0x30] && DecimalText.Decimal(42) == [0x34, 0x32]
    ensures DecimalText.TryParse([0x34, 0x32]) == Some(42)
  {
    DecimalText.RoundTrip(42);
    assert DecimalText.Decimal(4) == [0x34];
  }

  /** Big-endian numbers, and the flags byte of the four kinds of authenticator data (section 6.1 of WebAuthn Level 2). */
  lemma AuthDataVectors(hash: bytes, id: bytes, cose: bytes, count: nat)
    requires |hash| == 32
    ensures ToBE(0x0102, 2) == [0x01, 0x02] && FromBE([0x01, 0x02]) == 0x0102
    ensures RegistrationAuthData(hash, id, cose, true)[32] == 0x45 && RegistrationAuthData(hash, id, cose, false)[32] == 0x41
    ensures AssertionAuthData(hash, true, count)[32] == 0x05 && AssertionAuthData(hash, false, count)[32] == 0x01
  {
    FromBEUnrolled([0x01, 0x02]);
    assert ToBE(0x01, 1) == ToBE(0, 0) + [0x01];
  }
}
