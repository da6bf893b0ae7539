/** Bytes, optional values and big-endian numbers shared by every module. */
module Prelude {

  type byte = b: int | 0 <= b < 256
  type bytes = seq<byte>

  datatype Option<+T> = None | Some(value: T)

  /** A read from the front of a byte string: nothing readable, or a value and what follows it. */
  datatype Parsed<+T> = Fail | Got(v: T, rest: bytes)

  /** An error value stands for a thrown exception; `:-` propagates it. */
  datatype Result<+T, +E> = Ok(value: T) | Err(error: E) {
    predicate IsFailure() { Err? }
    function PropagateFailure<U>(): Result<U, E>
      requires Err?
    {
      Err(error)
    }
    function Extract(): T
      requires Ok?
    {
      value
    }
  }

  /** Everything the request handlers throw. BadCbor is the CBOR reader's exception, SaveFailed the database's, the rest are RPC errors. */
  datatype Fault =
    | BadCbor | BadHashLength
    | MissingRpId | MissingHash | MissingUserId | MissingUserName
    | NoSupportedAlg | Excluded | NotFound | UpNotSupported
    | VaultLocked | BadParams | NoCachedKey | BadSignature | BadUv | PromptMissing | PromptFailed | Declined | UnknownTier
    | CounterOverflow | BadPrivateKey | BadBase64
    | SaveFailed

  // The largest byte array .NET allocates.
  const MAX_ARRAY := 0x7FFF_FFC7
  const INT32_MAX := 0x7FFF_FFFF
  const UINT32_MAX := 0xFFFF_FFFF
  const INT64_MAX := 0x7FFF_FFFF_FFFF_FFFF
  const UINT64_MAX := 0xFFFF_FFFF_FFFF_FFFF

  function Pow256(n: nat): (p: nat)
    ensures p >= 1
  {
    if n == 0 then 1 else 256 * Pow256(n - 1)
  }

  lemma Pow256Values()
    ensures Pow256(0) == 1 && Pow256(1) == 0x100 && Pow256(2) == 0x1_0000
    ensures Pow256(4) == 0x1_0000_0000 && Pow256(8) == 0x1_0000_0000_0000_0000
  {
    assert Pow256(2) == 256 * Pow256(1);
    assert Pow256(3) == 256 * Pow256(2);
    assert Pow256(4) == 256 * Pow256(3);
    assert Pow256(5) == 256 * Pow256(4);
    assert Pow256(6) == 256 * Pow256(5);
    assert Pow256(7) == 256 * Pow256(6);
  }

  /** The `n` low-order bytes of `v`, most significant first. */
  function ToBE(v: nat, n: nat): (s: bytes)
    ensures |s| == n
  {
    if n == 0 then [] else ToBE(v / 256, n - 1) + [v % 256]
  }

  /** The unsigned number a byte string denotes, most significant byte first. */
  function FromBE(s: bytes): nat
  {
    if s == [] then 0 else FromBE(s[..|s| - 1]) * 256 + s[|s| - 1]
  }

  lemma FromBEUnrolled(s: bytes)
    ensures |s| == 1 ==> FromBE(s) == s[0]
    ensures |s| == 2 ==> FromBE(s) == s[0] as int * 0x100 + s[1]
    ensures |s| == 4 ==> FromBE(s) == s[0] as int * 0x100_0000 + s[1] as int * 0x1_0000 + s[2] as int * 0x100 + s[3]
  {
    if |s| == 4 {
      FromBEUnrolled(s[..2]);
      assert s[..3][..2] == s[..2];
      assert FromBE(s[..3]) == FromBE(s[..2]) * 256 + s[2];
    } else if |s| == 2 {
      FromBEUnrolled(s[..1]);
    }
  }

  lemma FromBE8(s: bytes)
    requires |s| == 8
    ensures FromBE(s) == s[0] as int * 0x100_0000_0000_0000 + s[1] as int * 0x1_0000_0000_0000
                       + s[2] as int * 0x100_0000_0000 + s[3] as int * 0x1_0000_0000
                       + s[4] as int * 0x100_0000 + s[5] as int * 0x1_0000 + s[6] as int * 0x100 + s[7]
  {
    assert s[..7][..6] == s[..6] && s[..6][..5] == s[..5] && s[..5][..4] == s[..4];
    assert FromBE(s[..5]) == FromBE(s[..4]) * 256 + s[4];
    assert FromBE(s[..6]) == FromBE(s[..5]) * 256 + s[5];
    assert FromBE(s[..7]) == FromBE(s[..6]) * 256 + s[6];
    FromBEUnrolled(s[..4]);
  }

  lemma {:induction false} FromToBE(v: nat, n: nat)
    requires v < Pow256(n)
    ensures FromBE(ToBE(v, n)) == v
  {
    if n > 0 {
      FromToBE(v / 256, n - 1);
      assert ToBE(v, n)[..n - 1] == ToBE(v / 256, n - 1);
    }
  }

  lemma {:induction false} ToFromBE(s: bytes)
    ensures FromBE(s) < Pow256(|s|)
    ensures ToBE(FromBE(s), |s|) == s
  {
    if s != [] {
      var hi := s[..|s| - 1];
      ToFromBE(hi);
      assert FromBE(s) / 256 == FromBE(hi) && FromBE(s) % 256 == s[|s| - 1];
      assert s == hi + [s[|s| - 1]];
    }
  }

  lemma DivDiv(v: nat, a: nat, b: nat)
    requires a > 0 && b > 0
    ensures a * b > 0 && v / (a * b) == v / a / b
  {
    var q, r := v / a / b, v / a % b;
    var low := v % a;
    assert v / a == b * q + r;
    assert v == a * (v / a) + low;
    calc {
      v;
      a * (b * q + r) + low;
      { assert a * (b * q + r) == a * (b * q) + a * r; assert a * (b * q) == (a * b) * q; }
      (a * b) * q + (a * r + low);
    }
    assert r <= b - 1;
    assert a * r <= a * (b - 1) by { MulMono(a, r, b - 1); }
    assert a * (b - 1) == a * b - a;
    assert 0 <= a * r;
    DivUnique(v, a * b, q, a * r + low);
  }

  lemma MulMono(a: nat, x: int, y: int)
    requires x <= y
    ensures a * x <= a * y
  {
    assert a * (y - x) >= 0;
  }

  lemma DivUnique(v: int, d: int, q: int, r: int)
    requires d > 0 && v == d * q + r && 0 <= r < d
    ensures v / d == q
  {
    var k := v / d - q;
    assert v == d * (v / d) + v % d;
    assert d * k == d * (v / d) - d * q;
    assert d * k == r - v % d;
    if k >= 1 { MulMono(d, 1, k); }
    if k <= -1 { MulMono(d, k, -1); }
  }

  /** Byte `n - 1 - i` of the big-endian form is what shifting right by `8 * i` bits and truncating gives. */
  lemma {:induction false} ToBEAt(v: nat, n: nat, i: nat)
    requires i < n
    ensures ToBE(v, n)[n - 1 - i] == v / Pow256(i) % 256
  {
    if i > 0 {
      ToBEAt(v / 256, n - 1, i - 1);
      DivDiv(v, 256, Pow256(i - 1));
    }
  }
}
