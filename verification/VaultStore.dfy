/**
 Storage/KeePassPasskeyStore.cs over the entries of the "Passkeys" group; the sign count is decimal text. Each change is
 made in memory and then saved; `saved` says whether Database.Save returns. When it throws the change stays in memory.
 */
module VaultStore {
  import opened Prelude
  import opened Responses
  import DecimalText

  /** One KeePass entry; `signCount` is its CustomData text, empty when missing. */
  datatype VaultEntry = VaultEntry(key: Passkey, signCount: bytes)

  const ZERO: bytes := [0x30]

  /** The position of the first entry with this ID, or the number of entries. */
  function IndexOf(es: seq<VaultEntry>, id: bytes): (i: nat)
    ensures i <= |es|
    ensures i < |es| ==> es[i].key.credentialId == id
    ensures forall k :: 0 <= k < i ==> es[k].key.credentialId != id
  {
    if es == [] || es[0].key.credentialId == id then 0 else 1 + IndexOf(es[1..], id)
  }

  function ById(es: seq<VaultEntry>, id: bytes): Option<Passkey>
  {
    var i := IndexOf(es, id);
    if i < |es| then Some(es[i].key) else None
  }

  /** The record an ID finds is the first entry's that has it. */
  lemma ByIdMeans(es: seq<VaultEntry>, id: bytes)
    ensures forall rec :: ById(es, id) == Some(rec) <==> FirstWithId(es, id, rec)
    ensures ById(es, id) == None <==> NoEntry(es, id)
  {
    hide IndexOf;
    var i := IndexOf(es, id);
  }

  predicate NoEntry(es: seq<VaultEntry>, id: bytes)
  {
    forall k :: 0 <= k < |es| ==> es[k].key.credentialId != id
  }

  predicate FirstWithId(es: seq<VaultEntry>, id: bytes, rec: Passkey)
  {
    exists k :: 0 <= k < |es| && es[k].key == rec && rec.credentialId == id && forall m :: 0 <= m < k ==> es[m].key.credentialId != id
  }

  function ByRpId(es: seq<VaultEntry>, rpId: bytes): seq<Passkey>
  {
    if es == [] then []
    else ByRpId(es[..|es| - 1], rpId) + if es[|es| - 1].key.rpId == rpId then [es[|es| - 1].key] else []
  }

  /** The records of an RP ID, entry by entry. */
  lemma {:induction false} ByRpIdMeans(a: seq<VaultEntry>, b: seq<VaultEntry>, e: VaultEntry, rpId: bytes)
    ensures ByRpId(a + b, rpId) == ByRpId(a, rpId) + ByRpId(b, rpId)
    ensures ByRpId([], rpId) == [] && ByRpId([e], rpId) == if e.key.rpId == rpId then [e.key] else []
    decreases |b|
  {
    assert [e][..0] == [] && ByRpId([], rpId) == [];
    if b == [] {
      assert a + b == a;
    } else {
      var front, last := b[..|b| - 1], b[|b| - 1];
      ByRpIdMeans(a, front, e, rpId);
      assert (a + b)[..|a + b| - 1] == a + front && (a + b)[|a + b| - 1] == last;
    }
  }

  function Without(es: seq<VaultEntry>, id: bytes): seq<VaultEntry>
  {
    var i := IndexOf(es, id);
    if i < |es| then es[..i] + es[i + 1..] else es
  }

  /** Exactly the first entry with the ID goes, and all others stay in order. */
  lemma WithoutMeans(es: seq<VaultEntry>, id: bytes)
    ensures (forall e :: e in es ==> e.key.credentialId != id) ==> Without(es, id) == es
    ensures forall a, e, b :: es == a + [e] + b && e.key.credentialId == id && (forall x :: x in a ==> x.key.credentialId != id)
              ==> Without(es, id) == a + b
  {
    hide IndexOf;
    var i := IndexOf(es, id);
    if i < |es| { assert es[i] in es; }
    forall a, e, b | es == a + [e] + b && e.key.credentialId == id && forall x :: x in a ==> x.key.credentialId != id
      ensures Without(es, id) == a + b
    {
      forall k | 0 <= k < |a| ensures es[k].key.credentialId != id { assert es[k] == a[k] && a[k] in a; }
      assert es[|a|] == e;
      FirstIndex(es, id, |a|);
      assert es[..|a|] == a && es[|a| + 1..] == b;
    }
  }

  /** What Delete returns when it did or did not find the entry. */
  function Deleted(found: bool, saved: bool): Result<bool, Fault>
  {
    if found && !saved then Err(SaveFailed) else Ok(found)
  }

  /** Unreadable text counts as zero. */
  function CountOf(e: VaultEntry): (n: nat)
    ensures n <= UINT32_MAX
  {
    match DecimalText.TryParse(e.signCount) case Some(n) => n case None => 0
  }

  /** A count is what its decimal text says, and zero for text that says none. */
  lemma CountMeans(k: Passkey, n: nat)
    ensures n <= UINT32_MAX ==> CountOf(VaultEntry(k, DecimalText.Decimal(n))) == n
    ensures n > UINT32_MAX ==> CountOf(VaultEntry(k, DecimalText.Decimal(n))) == 0
    ensures CountOf(VaultEntry(k, [])) == 0
  {
    hide DecimalText.Decimal;
    DecimalText.RoundTrip(n);
  }

  /** The entries with one count advanced, and its new value. */
  function Incremented(es: seq<VaultEntry>, id: bytes): Result<(seq<VaultEntry>, nat), Fault>
  {
    var i := IndexOf(es, id);
    if i == |es| then Err(NotFound)
    else if CountOf(es[i]) == UINT32_MAX then Err(CounterOverflow)
    else
      var next := CountOf(es[i]) + 1;
      Ok((es[i := es[i].(signCount := DecimalText.Decimal(next))], next))
  }

  /** The increment is strict, survives the text form, touches one entry's count and nothing else; at 2^32 - 1 it refuses. */
  lemma IncrementedMeans(es: seq<VaultEntry>, id: bytes)
    ensures var i := IndexOf(es, id);
      match Incremented(es, id)
      case Err(e) => (i == |es| && e == NotFound) || (i < |es| && CountOf(es[i]) == UINT32_MAX && e == CounterOverflow)
      case Ok((after, next)) =>
        && i < |es| && |after| == |es| && next == CountOf(es[i]) + 1 <= UINT32_MAX && CountOf(after[i]) == next
        && after[i].key == es[i].key && forall k :: 0 <= k < |es| && k != i ==> after[k] == es[k]
  {
    hide IndexOf, DecimalText.TryParse, DecimalText.Decimal;
    var i := IndexOf(es, id);
    if i < |es| {
      DecimalText.RoundTrip(CountOf(es[i]) + 1);
    }
  }

  /** The index found is the first one: any index of the ID with none before it. */
  lemma FirstIndex(es: seq<VaultEntry>, id: bytes, i: nat)
    requires i <= |es| && (i < |es| ==> es[i].key.credentialId == id)
    requires forall k :: 0 <= k < i ==> es[k].key.credentialId != id
    ensures IndexOf(es, id) == i
  {
    var _ := IndexOf(es, id);
  }

  class KeePassPasskeyStore {
    var entries: seq<VaultEntry>
    var disk: seq<VaultEntry>  // what the database file holds

    constructor (es: seq<VaultEntry>)
      ensures entries == disk == es
    {
      entries, disk := es, es;
    }

    /** Database.Save; whatever is in memory goes to the file. */
    method Save(saved: bool) returns (f: Option<Fault>)
      modifies this`disk
      ensures disk == (if saved then entries else old(disk)) && f == if saved then None else Some(SaveFailed)
    {
      if saved {
        disk := entries;
        return None;
      }
      return Some(SaveFailed);
    }

    /** Unlocking reads the file again. */
    method Reopen()
      modifies this`entries
      ensures entries == disk
    {
      entries := disk;
    }

    /** No duplicate check: the entry goes last, with count text "0". */
    method Add(record: Passkey, saved: bool) returns (f: Option<Fault>)
      modifies this
      ensures entries == old(entries) + [VaultEntry(record, ZERO)]
      ensures disk == (if saved then entries else old(disk)) && f == if saved then None else Some(SaveFailed)
    {
      entries := entries + [VaultEntry(record, ZERO)];
      f := Save(saved);
    }

    /** The search loop that FindById, Delete and IncrementSignCount share. */
    method Search(credentialId: bytes) returns (i: nat)
      ensures i == IndexOf(entries, credentialId)
    {
      i := 0;
      while i < |entries|
        invariant 0 <= i <= |entries|
        invariant forall k :: 0 <= k < i ==> entries[k].key.credentialId != credentialId
      {
        if entries[i].key.credentialId == credentialId {
          FirstIndex(entries, credentialId, i);
          return;
        }
        i := i + 1;
      }
      FirstIndex(entries, credentialId, i);
    }

    method FindByRpId(rpId: bytes) returns (results: seq<Passkey>)
      ensures results == ByRpId(entries, rpId)
    {
      results := [];
      for i := 0 to |entries|
        invariant results == ByRpId(entries[..i], rpId)
      {
        assert entries[..i + 1][..i] == entries[..i];
        if entries[i].key.rpId == rpId {
          results := results + [entries[i].key];
        }
      }
      assert entries[..|entries|] == entries;
    }

    method FindById(credentialId: bytes) returns (r: Option<Passkey>)
      ensures r == ById(entries, credentialId)
    {
      var i := Search(credentialId);
      return if i < |entries| then Some(entries[i].key) else None;
    }

    /** Saves only when something was removed. */
    method Delete(credentialId: bytes, saved: bool) returns (deleted: Result<bool, Fault>)
      modifies this
      ensures entries == Without(old(entries), credentialId)
      ensures deleted == Deleted(|entries| < |old(entries)|, saved)
      ensures disk == if saved && |entries| < |old(entries)| then entries else old(disk)
    {
      var i := Search(credentialId);
      if i < |entries| {
        entries := entries[..i] + entries[i + 1..];
        var unsaved := Save(saved);
        return if unsaved.None? then Ok(true) else Err(unsaved.value);
      }
      return Ok(false);
    }

    method IncrementSignCount(credentialId: bytes, saved: bool) returns (r: Result<nat, Fault>)
      modifies this
      ensures match Incremented(old(entries), credentialId)
              case Err(e) => r == Err(e) && entries == old(entries) && disk == old(disk)
              case Ok((after, next)) =>
                r == (if saved then Ok(next) else Err(SaveFailed)) && entries == after && disk == if saved then after else old(disk)
    {
      var i := Search(credentialId);
      if i == |entries| {
        return Err(NotFound);
      }
      var current := 0;
      var raw := entries[i].signCount;
      if raw != [] {
        var parsed := DecimalText.TryParse(raw);
        if parsed.Some? {
          current := parsed.value;
        }
      }
      if current == UINT32_MAX {
        return Err(CounterOverflow);
      }
      var next := current + 1;
      entries := entries[i := entries[i].(signCount := DecimalText.Decimal(next))];
      var unsaved := Save(saved);
      return if unsaved.None? then Ok(next) else Err(unsaved.value);
    }
  }
}
