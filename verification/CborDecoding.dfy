/** The cursor decoder of Cbor/CborReader.cs, one method per reader method. */
module CborDecoding {
  import opened Prelude
  import opened CborSyntax

  // What each typed read yields on the bytes at the cursor.

  function ReadUnsigned(s: bytes): Parsed<nat>
  {
    match ReadHead(s)
    case GotHead(mt, _, v, rest) => if mt == 0 then Got(v, rest) else Fail
    case NoHead => Fail
  }

  function ReadNegative(s: bytes): Parsed<int>
  {
    match ReadHead(s)
    case GotHead(mt, _, v, rest) => if mt == 1 && v <= INT64_MAX then Got(-1 - v, rest) else Fail
    case NoHead => Fail
  }

  function ReadString(text: bool, s: bytes): Parsed<bytes>
  {
    match ReadHead(s)
    case GotHead(mt, _, v, rest) =>
      if mt == (if text then 3 else 2) && v <= |rest| then Got(rest[..v], rest[v..]) else Fail
    case NoHead => Fail
  }

  function ReadCount(isMap: bool, s: bytes): Parsed<nat>
  {
    match ReadHead(s)
    case GotHead(mt, _, v, rest) =>
      if mt == (if isMap then 5 else 4) && v <= INT32_MAX then Got(v, rest) else Fail
    case NoHead => Fail
  }

  function ReadFlag(s: bytes): Parsed<bool>
  {
    if |s| > 0 && s[0] == 0xF5 then Got(true, s[1..])
    else if |s| > 0 && s[0] == 0xF4 then Got(false, s[1..])
    else Fail
  }

  /** The remaining bytes after `n` complete items. */
  function SkipN(s: bytes, n: nat): Option<bytes>
  {
    match DecodeN(s, n)
    case Fail => None
    case Got(_, rest) => Some(rest)
  }

  ghost predicate BeginsWith(s: bytes, it: Item, rest: bytes)
  {
    WF(it) && s == Enc(it) + rest
  }

  /** Skipping succeeds exactly on one complete item of the grammar and consumes exactly that item. */
  lemma SkipExact(s: bytes)
    ensures SkipN(s, 1).Some? <==> exists it, rest :: BeginsWith(s, it, rest)
    ensures forall it, rest :: BeginsWith(s, it, rest) ==> SkipN(s, 1) == Some(rest)
  {
    if Decode(s).Got? {
      DecodeSound(s);
      assert BeginsWith(s, Decode(s).v, Decode(s).rest);
    }
    SkipNStep(s, 1);
    forall it, rest | BeginsWith(s, it, rest)
      ensures SkipN(s, 1) == Some(rest)
    {
      DecodeComplete(it, rest);
    }
  }

  lemma SkipNStep(s: bytes, n: nat)
    ensures SkipN(s, 0) == Some(s)
    ensures n > 0 ==> SkipN(s, n) == if Decode(s).Got? then SkipN(Decode(s).rest, n - 1) else None
  {}

  class CborReader {
    const buf: bytes
    var pos: nat
    ghost var copied: nat  // bytes handed out in arrays so far

    /** Nothing is copied out that was not first consumed, whatever lengths the input declares. */
    ghost predicate Valid()
      reads this
    {
      copied <= pos <= |buf| <= MAX_ARRAY
    }

    ghost function Rest(): bytes
      requires Valid()
      reads this
    {
      buf[pos..]
    }

    constructor (data: bytes)
      requires |data| <= MAX_ARRAY
      ensures Valid() && buf == data && Rest() == data
    {
      buf := data;
      pos, copied := 0, 0;
    }

    /** A read begun at `start` either fails, or yields `want`'s value and leaves the cursor at `want`'s remainder. */
    ghost predicate Reads<T>(start: nat, want: Parsed<T>, got: Result<T, Fault>)
      reads this
    {
      && Valid() && start <= pos
      && got == (if want.Got? then Ok(want.v) else Err(BadCbor))
      && (want.Got? ==> Rest() == want.rest)
    }

    method EnsureAvailable(count: nat) returns (r: Result<(), Fault>)
      requires Valid()
      ensures r == if pos + count > |buf| then Err(BadCbor) else Ok(())
    {
      if pos + count > |buf| {
        return Err(BadCbor);
      }
      return Ok(());
    }

    method PeekMajorType() returns (r: Result<nat, Fault>)
      requires Valid()
      ensures r == if |Rest()| == 0 then Err(BadCbor) else Ok(Rest()[0] / 32)
    {
      var _ :- EnsureAvailable(1);
      return Ok(buf[pos] / 32);
    }

    method ReadInitialByte() returns (r: Result<(nat, nat), Fault>)
      requires Valid()
      modifies this
      ensures Reads(old(pos), match ReadHead(old(Rest())) case NoHead => Fail case GotHead(mt, _, v, rest) => Got((mt, v), rest), r)
    {
      hide FromBE;
      var _ :- EnsureAvailable(1);
      var initial := buf[pos];
      pos := pos + 1;
      var mt, ai := initial / 32, initial % 32;
      if mt == 6 || mt == 7 {
        return Err(BadCbor);
      }
      if ai >= 28 {
        return Err(BadCbor);
      }
      assert Rest() == old(Rest())[1..];
      if ai <= 23 {
        return Ok((mt, ai));
      }
      var value :- ReadArgument(ai);
      assert old(Rest())[1..][..WidthOf(ai)] == old(Rest())[1..1 + WidthOf(ai)];
      return Ok((mt, value));
    }

    /** The argument bytes that follow an initial byte with additional information 24 to 27. */
    method ReadArgument(ai: nat) returns (r: Result<nat, Fault>)
      requires Valid() && 24 <= ai <= 27
      modifies this
      ensures Reads(old(pos), if WidthOf(ai) <= |old(Rest())| then Got(FromBE(old(Rest())[..WidthOf(ai)]), old(Rest())[WidthOf(ai)..]) else Fail, r)
    {
      hide FromBE;
      var value: nat;
      var _ :- EnsureAvailable(WidthOf(ai));
      ghost var word := buf[pos..pos + WidthOf(ai)];
      assert word == Rest()[..WidthOf(ai)];
      if ai == 24 {
        value := buf[pos];
        FromBEUnrolled(word);
        pos := pos + 1;
      } else if ai == 25 {
        value := buf[pos] as int * 0x100 + buf[pos + 1];
        FromBEUnrolled(word);
        pos := pos + 2;
      } else if ai == 26 {
        value := buf[pos] as int * 0x100_0000 + buf[pos + 1] as int * 0x1_0000 + buf[pos + 2] as int * 0x100 + buf[pos + 3];
        FromBEUnrolled(word);
        pos := pos + 4;
      } else {
        value := buf[pos] as int * 0x100_0000_0000_0000 + buf[pos + 1] as int * 0x1_0000_0000_0000
               + buf[pos + 2] as int * 0x100_0000_0000 + buf[pos + 3] as int * 0x1_0000_0000
               + buf[pos + 4] as int * 0x100_0000 + buf[pos + 5] as int * 0x1_0000 + buf[pos + 6] as int * 0x100 + buf[pos + 7];
        FromBE8(word);
        pos := pos + 8;
      }
      return Ok(value);
    }

    method ReadUnsignedInt() returns (r: Result<nat, Fault>)
      requires Valid()
      modifies this
      ensures Reads(old(pos), ReadUnsigned(old(Rest())), r)
    {
      var head :- ReadInitialByte();
      var mt, value := head.0, head.1;
      if mt != 0 {
        return Err(BadCbor);
      }
      return Ok(value);
    }

    method ReadNegativeInt() returns (r: Result<int, Fault>)
      requires Valid()
      modifies this
      ensures Reads(old(pos), ReadNegative(old(Rest())), r)
    {
      var head :- ReadInitialByte();
      var mt, value := head.0, head.1;
      if mt != 1 || value > INT64_MAX {
        return Err(BadCbor);
      }
      return Ok(-1 - value);
    }

    method ReadBytes(length: nat) returns (r: Result<bytes, Fault>)
      requires Valid()
      modifies this
      ensures Reads(old(pos), if length <= |old(Rest())| then Got(old(Rest())[..length], old(Rest())[length..]) else Fail, r)
    {
      if length > |buf| - pos || length > INT32_MAX {
        return Err(BadCbor);
      }
      var result := buf[pos..pos + length];
      assert result == Rest()[..length];
      pos, copied := pos + length, copied + length;
      return Ok(result);
    }

    method ReadByteString() returns (r: Result<bytes, Fault>)
      requires Valid()
      modifies this
      ensures Reads(old(pos), ReadString(false, old(Rest())), r)
    {
      var head :- ReadInitialByte();
      var mt, length := head.0, head.1;
      if mt != 2 {
        return Err(BadCbor);
      }
      r := ReadBytes(length);
    }

    method ReadTextString() returns (r: Result<bytes, Fault>)
      requires Valid()
      modifies this
      ensures Reads(old(pos), ReadString(true, old(Rest())), r)
    {
      var head :- ReadInitialByte();
      var mt, length := head.0, head.1;
      if mt != 3 {
        return Err(BadCbor);
      }
      r := ReadBytes(length);
    }

    method ReadArrayHeader() returns (r: Result<nat, Fault>)
      requires Valid()
      modifies this
      ensures Reads(old(pos), ReadCount(false, old(Rest())), r)
    {
      var head :- ReadInitialByte();
      var mt, count := head.0, head.1;
      if mt != 4 || count > INT32_MAX {
        return Err(BadCbor);
      }
      return Ok(count);
    }

    method ReadMapHeader() returns (r: Result<nat, Fault>)
      requires Valid()
      modifies this
      ensures Reads(old(pos), ReadCount(true, old(Rest())), r)
    {
      var head :- ReadInitialByte();
      var mt, count := head.0, head.1;
      if mt != 5 || count > INT32_MAX {
        return Err(BadCbor);
      }
      return Ok(count);
    }

    method ReadBool() returns (r: Result<bool, Fault>)
      requires Valid()
      modifies this
      ensures Reads(old(pos), ReadFlag(old(Rest())), r)
    {
      var _ :- EnsureAvailable(1);
      var b := buf[pos];
      if b == 0xF5 {
        pos := pos + 1;
        return Ok(true);
      }
      if b == 0xF4 {
        pos := pos + 1;
        return Ok(false);
      }
      return Err(BadCbor);
    }

    method SkipBytes(length: nat) returns (r: Result<(), Fault>)
      requires Valid()
      modifies this
      ensures Reads(old(pos), if length <= |old(Rest())| then Got((), old(Rest())[length..]) else Fail, r)
    {
      if length > |buf| - pos || length > INT32_MAX {
        return Err(BadCbor);
      }
      pos := pos + length;
      return Ok(());
    }

    /** Skips one item of any kind; terminates because every item consumes at least one byte. */
    method SkipValue() returns (r: Result<(), Fault>)
      requires Valid()
      modifies this
      ensures Reads(old(pos), match Decode(old(Rest())) case Fail => Fail case Got(_, rest) => Got((), rest), r)
      decreases |buf| - pos, 0
    {
      hide DecodeN, FromBE;
      var _ :- EnsureAvailable(1);
      var mt, ai := buf[pos] / 32, buf[pos] % 32;
      if ai >= 28 {
        return Err(BadCbor);
      }
      match mt {
        case 0 | 1 =>
          var _ :- ReadInitialByte();
          r := Ok(());
        case 2 | 3 =>
          var head :- ReadInitialByte();
          r := SkipBytes(head.1);
        case 4 =>
          var head :- ReadInitialByte();
          r := SkipItems(head.1, false);
        case 5 =>
          var head :- ReadInitialByte();
          r := SkipItems(head.1, true);
        case 7 =>
          if 20 <= ai <= 23 {
            pos := pos + 1;
            return Ok(());
          }
          return Err(BadCbor);
        case _ =>
          return Err(BadCbor);
      }
    }

    /** The two element loops of SkipValue: `count` array elements, or `count` key-value pairs. */
    method SkipItems(count: nat, pairs: bool) returns (r: Result<(), Fault>)
      requires Valid()
      modifies this
      ensures Reads(old(pos), match SkipN(old(Rest()), if pairs then 2 * count else count) case None => Fail case Some(rest) => Got((), rest), r)
      decreases |buf| - pos, 1
    {
      hide Decode, DecodeN, SkipN;
      var i := 0;
      ghost var k := if pairs then 2 else 1;
      while i < count
        invariant 0 <= i <= count && Valid() && old(pos) <= pos
        invariant SkipN(old(Rest()), k * count) == SkipN(Rest(), k * (count - i))
      {
        ghost var left := k * (count - i);
        assert left >= k;
        SkipNStep(Rest(), left);
        var _ :- SkipValue();
        if pairs {
          SkipNStep(Rest(), left - 1);
          var _ :- SkipValue();
        }
        i := i + 1;
      }
      SkipNStep(Rest(), 0);
      return Ok(());
    }
  }
}
