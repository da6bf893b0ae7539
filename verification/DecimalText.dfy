/** Decimal text as .NET writes and reads it: uint.ToString and uint.TryParse with NumberStyles.Integer, invariant culture. */
module DecimalText {
  import opened Prelude

  function Decimal(n: nat): (s: bytes)
    ensures s != []
  {
    (if n < 10 then [] else Decimal(n / 10)) + [0x30 + n % 10]
  }

  predicate IsDigit(c: byte) { 0x30 <= c <= 0x39 }
  predicate IsWhite(c: byte) { 0x09 <= c <= 0x0D || c == 0x20 }
  predicate IsSign(c: byte) { c == 0x2B || c == 0x2D }

  function Number(s: bytes): nat
    requires forall i :: 0 <= i < |s| ==> IsDigit(s[i])
  {
    if s == [] then 0 else
    assert IsDigit(s[|s| - 1]);
    Number(s[..|s| - 1]) * 10 + s[|s| - 1] - 0x30
  }

  function DropLeadingWhite(s: bytes): bytes
  {
    if s != [] && IsWhite(s[0]) then DropLeadingWhite(s[1..]) else s
  }

  function DropTrailingWhite(s: bytes): bytes
  {
    if s != [] && IsWhite(s[|s| - 1]) then DropTrailingWhite(s[..|s| - 1]) else s
  }

  function DropTrailingNuls(s: bytes): bytes
  {
    if s != [] && s[|s| - 1] == 0 then DropTrailingNuls(s[..|s| - 1]) else s
  }

  /** White space around, one sign, digits; out-of-range values and negative ones other than zero are refused. */
  function TryParse(text: bytes): Option<nat>
  {
    var t := DropTrailingWhite(DropTrailingNuls(DropLeadingWhite(text)));
    var digits := if t != [] && IsSign(t[0]) then t[1..] else t;
    if digits == [] || exists i :: 0 <= i < |digits| && !IsDigit(digits[i]) then None
    else if Number(digits) > UINT32_MAX || (t[0] == 0x2D && Number(digits) > 0) then None
    else Some(Number(digits))
  }

  lemma {:induction false} DecimalDigits(n: nat)
    ensures forall i :: 0 <= i < |Decimal(n)| ==> IsDigit(Decimal(n)[i])
    ensures Number(Decimal(n)) == n
  {
    if n >= 10 {
      DecimalDigits(n / 10);
      assert Decimal(n)[..|Decimal(n)| - 1] == Decimal(n / 10);
    } else {
      assert Decimal(n)[..0] == [];
    }
  }

  /** What is written for a number reads back as that number, up to 2^32 - 1 and no further. */
  lemma RoundTrip(n: nat)
    ensures TryParse(Decimal(n)) == if n <= UINT32_MAX then Some(n) else None
  {
    hide Decimal, Number;
    DecimalDigits(n);
    var s := Decimal(n);
    assert IsDigit(s[0]) && IsDigit(s[|s| - 1]);
  }
}
