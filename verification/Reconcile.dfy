/**
 reconcile_vault_with_os of com/exe_server.rs: one pass that publishes vault credentials to Windows and withdraws the
 ones the vault no longer has, with every foreign call free to fail.
 */
module Reconcile {
  import opened Prelude

  type Id = bytes

  /** An element of the enumerateForSync array: its decoded ID, and whether the remaining fields parse too. */
  datatype VaultItem = VaultItem(id: Option<Id>, complete: bool)

  /** What GetAllCredentials hands out; the IDs are readable only through a non-null pointer. */
  datatype Listing = Listing(count: nat, nonNull: bool, ids: seq<Id>)

  predicate HasArray(l: Listing)
  {
    l.count > 0 && l.nonNull
  }

  function OsIds(l: Listing): seq<Id>
  {
    if HasArray(l) then l.ids else []
  }

  /** A foreign call took effect, was refused by its HRESULT, or could not be made at all. */
  datatype Verdict = Applied | Rejected | Unavailable

  datatype Call = Add(id: Id, v: Verdict) | Remove(id: Id, v: Verdict) | Free

  /** The verdict of the n-th call. */
  type Ffi = nat -> Verdict

  // -- what one pass does -----------------------------------------------------------------------

  predicate ToAdd(it: VaultItem, known: seq<Id>)
  {
    it.id.Some? && it.id.value !in known && it.complete
  }

  /** The calls of the first loop and whether it gave up. */
  function AddPhase(items: seq<VaultItem>, known: seq<Id>, ffi: Ffi, calls: seq<Call>): (seq<Call>, bool)
  {
    if items == [] then (calls, false)
    else if !ToAdd(items[0], known) then AddPhase(items[1..], known, ffi, calls)
    else
      var v := ffi(|calls|);
      var calls' := calls + [Add(items[0].id.value, v)];
      if v == Unavailable then (calls', true) else AddPhase(items[1..], known, ffi, calls')
  }

  function VaultIds(items: seq<VaultItem>): seq<Id>
  {
    if items == [] then []
    else VaultIds(items[..|items| - 1]) + if items[|items| - 1].id.Some? then [items[|items| - 1].id.value] else []
  }

  function RemovePhase(osIds: seq<Id>, vaultIds: seq<Id>, ffi: Ffi, calls: seq<Call>): seq<Call>
  {
    if osIds == [] then calls
    else if osIds[0] == [] || osIds[0] in vaultIds then RemovePhase(osIds[1..], vaultIds, ffi, calls)
    else
      var v := ffi(|calls|);
      var calls' := calls + [Remove(osIds[0], v)];
      if v == Unavailable then calls' else RemovePhase(osIds[1..], vaultIds, ffi, calls')
  }

  function FreeCall(l: Listing, freeExported: bool): seq<Call>
  {
    if HasArray(l) && freeExported then [Free] else []
  }

  function Pass(items: seq<VaultItem>, l: Listing, ffi: Ffi, freeExported: bool): seq<Call>
  {
    var a := AddPhase(items, OsIds(l), ffi, []);
    var calls := if a.1 then a.0 else RemovePhase(OsIds(l), VaultIds(items), ffi, a.0);
    calls + FreeCall(l, freeExported)
  }

  /** What the calls do to the set of credentials Windows knows. */
  function Effect(os: set<Id>, calls: seq<Call>): set<Id>
  {
    if calls == [] then os
    else
      var before, last := Effect(os, calls[..|calls| - 1]), calls[|calls| - 1];
      if last.Free? || last.v != Applied then before
      else if last.Add? then before + {last.id}
      else before - {last.id}
  }

  // -- the code ------------------------------------------------------------------------------------

  /** webauthn.dll as seen through the bindings. */
  class WebAuthn {
    const ffi: Ffi
    const freeExported: bool
    ghost var calls: seq<Call>
    var made: nat

    ghost predicate Valid() reads this { made == |calls| }

    constructor (ffi: Ffi, freeExported: bool)
      ensures Valid() && calls == [] && this.ffi == ffi && this.freeExported == freeExported
    {
      this.ffi, this.freeExported, calls, made := ffi, freeExported, [], 0;
    }

    method AddCredentials(id: Id) returns (v: Verdict)
      requires Valid()
      modifies this
      ensures Valid() && v == ffi(|old(calls)|) && calls == old(calls) + [Add(id, v)]
    {
      v := ffi(made);
      calls := calls + [Add(id, v)];
      made := made + 1;
    }

    method RemoveCredentials(id: Id) returns (v: Verdict)
      requires Valid()
      modifies this
      ensures Valid() && v == ffi(|old(calls)|) && calls == old(calls) + [Remove(id, v)]
    {
      v := ffi(made);
      calls := calls + [Remove(id, v)];
      made := made + 1;
    }

    method FreeCredentialDetailsArray(l: Listing)
      requires Valid()
      modifies this
      ensures Valid() && calls == old(calls) + FreeCall(l, freeExported)
    {
      if l.count == 0 || !l.nonNull {
        return;
      }
      if freeExported {
        calls := calls + [Free];
        made := made + 1;
      }
    }
  }

  method AddMissing(api: WebAuthn, items: seq<VaultItem>, osIds: seq<Id>) returns (aborted: bool)
    requires api.Valid()
    modifies api
    ensures api.Valid() && (api.calls, aborted) == AddPhase(items, osIds, api.ffi, old(api.calls))
  {
    for i := 0 to |items|
      invariant api.Valid()
      invariant AddPhase(items, osIds, api.ffi, old(api.calls)) == AddPhase(items[i..], osIds, api.ffi, api.calls)
    {
      var item := items[i];
      assert items[i..][1..] == items[i + 1..];
      if item.id.None? {
        continue;
      }
      if item.id.value in osIds {
        continue;
      }
      if !item.complete {
        continue;
      }
      var v := api.AddCredentials(item.id.value);
      if v == Unavailable {
        return true;
      }
    }
    return false;
  }

  method CollectIds(items: seq<VaultItem>) returns (ids: seq<Id>)
    ensures ids == VaultIds(items)
  {
    ids := [];
    for i := 0 to |items|
      invariant ids == VaultIds(items[..i])
    {
      assert items[..i + 1][..i] == items[..i];
      if items[i].id.Some? {
        ids := ids + [items[i].id.value];
      }
    }
    assert items[..|items|] == items;
  }

  method RemoveStale(api: WebAuthn, osIds: seq<Id>, vaultIds: seq<Id>)
    requires api.Valid()
    modifies api
    ensures api.Valid() && api.calls == RemovePhase(osIds, vaultIds, api.ffi, old(api.calls))
  {
    for i := 0 to |osIds|
      invariant api.Valid()
      invariant RemovePhase(osIds, vaultIds, api.ffi, old(api.calls)) == RemovePhase(osIds[i..], vaultIds, api.ffi, api.calls)
    {
      assert osIds[i..][1..] == osIds[i + 1..];
      if osIds[i] == [] {
        continue;
      }
      if osIds[i] in vaultIds {
        continue;
      }
      var v := api.RemoveCredentials(osIds[i]);
      if v == Unavailable {
        return;
      }
    }
  }

  /** None for `items`: the RPC failed or was no array. None for `listing`: GetAllCredentials failed. */
  method ReconcileVaultWithOs(api: WebAuthn, items: Option<seq<VaultItem>>, listing: Option<Listing>)
    requires api.Valid() && api.calls == []
    modifies api
    ensures api.calls == if items.Some? && listing.Some?
                         then Pass(items.value, listing.value, api.ffi, api.freeExported) else []
  {
    hide AddPhase, RemovePhase;
    if items.None? || listing.None? {
      return;
    }
    var l := listing.value;
    var osIds := if l.count > 0 && l.nonNull then l.ids else [];
    var aborted := AddMissing(api, items.value, osIds);
    if aborted {
      api.FreeCredentialDetailsArray(l);
      return;
    }
    if l.count > 0 && l.nonNull {
      var vaultIds := CollectIds(items.value);
      RemoveStale(api, osIds, vaultIds);
    } else {
      assert RemovePhase([], VaultIds(items.value), api.ffi, api.calls) == api.calls by { NothingToRemove(items.value, api.ffi, api.calls); }
    }
    api.FreeCredentialDetailsArray(l);
  }

  lemma NothingToRemove(items: seq<VaultItem>, ffi: Ffi, calls: seq<Call>)
    ensures RemovePhase([], VaultIds(items), ffi, calls) == calls
  {}

  // -- which calls are made ----------------------------------------------------------------------------

  lemma {:induction false} VaultIdsMeans(items: seq<VaultItem>)
    ensures forall id :: id in VaultIds(items) <==> exists it :: it in items && it.id == Some(id)
  {
    if items != [] {
      var front, last := items[..|items| - 1], items[|items| - 1];
      VaultIdsMeans(front);
      assert items == front + [last];
      forall id
        ensures id in VaultIds(items) <==> exists it :: it in items && it.id == Some(id)
      {
        if id in VaultIds(front) {
          var it :| it in front && it.id == Some(id);
          assert it in items;
        } else if last.id == Some(id) {
          assert last in items;
        }
      }
    }
  }

  /** An ID some vault item asks to publish and the listing does not show. */
  ghost predicate Publishable(items: seq<VaultItem>, known: seq<Id>, id: Id)
  {
    exists it :: it in items && ToAdd(it, known) && it.id.value == id
  }

  /** A call of the add loop for such an ID. */
  ghost predicate GoodAdd(items: seq<VaultItem>, known: seq<Id>, c: Call)
  {
    c.Add? && Publishable(items, known, c.id)
  }

  predicate GoodRemove(osIds: seq<Id>, vaultIds: seq<Id>, c: Call)
  {
    c.Remove? && c.id != [] && c.id in osIds && c.id !in vaultIds
  }

  lemma {:induction false} AddPhaseCalls(items: seq<VaultItem>, known: seq<Id>, ffi: Ffi, calls: seq<Call>)
    ensures var a := AddPhase(items, known, ffi, calls);
      && calls <= a.0
      && (forall k :: |calls| <= k < |a.0| ==> GoodAdd(items, known, a.0[k]))
      && (!a.1 ==> forall id :: Publishable(items, known, id) ==> exists k :: |calls| <= k < |a.0| && a.0[k].Add? && a.0[k].id == id)
      && (a.1 ==> |a.0| > |calls| && a.0[|a.0| - 1].v == Unavailable)
  {
    if items != [] {
      hide Publishable;
      var tail := items[1..];
      var calls' := if ToAdd(items[0], known) then calls + [Add(items[0].id.value, ffi(|calls|))] else calls;
      AddPhaseCalls(tail, known, ffi, calls');
      PublishableCons(items, known);
      var a := AddPhase(items, known, ffi, calls);
      assert calls' <= a.0;
      forall k | |calls| <= k < |a.0|
        ensures GoodAdd(items, known, a.0[k])
      {
        if k < |calls'| { assert a.0[k] == calls'[k]; } else { assert GoodAdd(tail, known, a.0[k]); }
      }
      if !a.1 {
        forall id | Publishable(items, known, id)
          ensures exists k :: |calls| <= k < |a.0| && a.0[k].Add? && a.0[k].id == id
        {
          if ToAdd(items[0], known) && items[0].id.value == id { assert a.0[|calls|] == calls'[|calls|]; }
        }
      }
    }
  }

  lemma PublishableCons(items: seq<VaultItem>, known: seq<Id>)
    requires items != []
    ensures forall id ::
      Publishable(items, known, id) <==> (ToAdd(items[0], known) && items[0].id.value == id) || Publishable(items[1..], known, id)
  {
    assert items == [items[0]] + items[1..];
    assert items[0] in items;
  }

  lemma {:induction false} RemovePhaseCalls(osIds: seq<Id>, vaultIds: seq<Id>, ffi: Ffi, calls: seq<Call>)
    ensures var r := RemovePhase(osIds, vaultIds, ffi, calls);
      && calls <= r
      && (forall k :: |calls| <= k < |r| ==> GoodRemove(osIds, vaultIds, r[k]))
      && ((forall k :: |calls| <= k < |r| ==> r[k].v != Unavailable) ==>
            forall id :: id in osIds && id != [] && id !in vaultIds ==> exists k :: |calls| <= k < |r| && r[k].Remove? && r[k].id == id)
  {
    if osIds != [] {
      var tail := osIds[1..];
      assert osIds == [osIds[0]] + tail;
      var skip := osIds[0] == [] || osIds[0] in vaultIds;
      var calls' := if skip then calls else calls + [Remove(osIds[0], ffi(|calls|))];
      RemovePhaseCalls(tail, vaultIds, ffi, calls');
      var r := RemovePhase(osIds, vaultIds, ffi, calls);
      assert calls' <= r;
      if !skip { assert r[|calls|] == calls'[|calls|]; }
      forall k | |calls| <= k < |r|
        ensures GoodRemove(osIds, vaultIds, r[k])
      {
        if k >= |calls'| { assert GoodRemove(tail, vaultIds, r[k]); }
      }
    }
  }

  /** Windows listed the credential: in an array that is there. */
  predicate Listed(l: Listing, id: Id)
  {
    l.count > 0 && l.nonNull && id in l.ids
  }

  /** The enumeration has the ID; and has it in an item whose other fields parse too. */
  ghost predicate VaultHas(items: seq<VaultItem>, id: Id)
  {
    exists it :: it in items && it.id == Some(id)
  }

  ghost predicate Asked(items: seq<VaultItem>, id: Id)
  {
    exists it :: it in items && it.id == Some(id) && it.complete
  }

  lemma ListedIff(items: seq<VaultItem>, l: Listing, id: Id)
    ensures id in OsIds(l) <==> Listed(l, id)
    ensures id in VaultIds(items) <==> VaultHas(items, id)
    ensures Publishable(items, OsIds(l), id) <==> Asked(items, id) && !Listed(l, id)
  {
    hide VaultIds;
    VaultIdsMeans(items);
    if Asked(items, id) && !Listed(l, id) {
      var it :| it in items && it.id == Some(id) && it.complete;
      assert ToAdd(it, OsIds(l));
    }
  }

  ghost predicate DirectedCall(items: seq<VaultItem>, l: Listing, c: Call)
  {
    && (c.Add? ==> Asked(items, c.id) && !Listed(l, c.id))
    && (c.Remove? ==> Listed(l, c.id) && c.id != [] && !VaultHas(items, c.id))
  }

  /**
   An add is only ever for a fully parseable vault record Windows did not list, a removal only for a non-empty listed ID
   the enumeration did not have: no ID on both lists is touched, whatever the calls return.
   */
  lemma CallsAreDirected(items: seq<VaultItem>, l: Listing, ffi: Ffi, freeExported: bool)
    ensures forall c :: c in Pass(items, l, ffi, freeExported) ==> DirectedCall(items, l, c)
  {
    hide Pass, GoodAdd, GoodRemove, Asked, Listed, VaultHas;
    CallsAreGood(items, l, ffi, freeExported);
    forall c | c in Pass(items, l, ffi, freeExported)
      ensures DirectedCall(items, l, c)
    {
      GoodIsDirected(items, l, c);
    }
  }

  lemma GoodIsDirected(items: seq<VaultItem>, l: Listing, c: Call)
    requires (c.Add? ==> GoodAdd(items, OsIds(l), c)) && (c.Remove? ==> GoodRemove(OsIds(l), VaultIds(items), c))
    ensures DirectedCall(items, l, c)
  {
    hide Asked, Listed, VaultHas, VaultIds, Publishable, OsIds;
    if !c.Free? { ListedIff(items, l, c.id); }
  }

  lemma CallsAreGood(items: seq<VaultItem>, l: Listing, ffi: Ffi, freeExported: bool)
    ensures forall c :: c in Pass(items, l, ffi, freeExported) ==>
              (c.Add? ==> GoodAdd(items, OsIds(l), c)) && (c.Remove? ==> GoodRemove(OsIds(l), VaultIds(items), c))
  {
    hide AddPhase, RemovePhase, GoodAdd, GoodRemove;
    var a := AddPhase(items, OsIds(l), ffi, []);
    AddPhaseCalls(items, OsIds(l), ffi, []);
    RemovePhaseCalls(OsIds(l), VaultIds(items), ffi, a.0);
    var r := RemovePhase(OsIds(l), VaultIds(items), ffi, a.0);
    forall k | 0 <= k < |a.0| ensures GoodAdd(items, OsIds(l), a.0[k]) && a.0[k].Add? { GoodAddIsAdd(items, OsIds(l), a.0[k]); }
    forall k | |a.0| <= k < |r| ensures GoodRemove(OsIds(l), VaultIds(items), r[k]) && r[k].Remove?
    {
      GoodRemoveIsRemove(OsIds(l), VaultIds(items), r[k]);
    }
    assert forall k :: 0 <= k < |a.0| ==> r[k] == a.0[k];
  }

  lemma GoodAddIsAdd(items: seq<VaultItem>, known: seq<Id>, c: Call)
    requires GoodAdd(items, known, c)
    ensures c.Add?
  {}

  lemma GoodRemoveIsRemove(osIds: seq<Id>, vaultIds: seq<Id>, c: Call)
    requires GoodRemove(osIds, vaultIds, c)
    ensures c.Remove?
  {}

  /** The array is freed once, last, exactly when there is one and the symbol is exported; and never otherwise. */
  lemma FreedOnce(items: seq<VaultItem>, l: Listing, ffi: Ffi, freeExported: bool)
    ensures var calls := Pass(items, l, ffi, freeExported);
            forall k :: 0 <= k < |calls| ==> (calls[k].Free? <==> l.count > 0 && l.nonNull && freeExported && k == |calls| - 1)
    ensures l.count > 0 && l.nonNull && freeExported ==> Free in Pass(items, l, ffi, freeExported)
  {
    hide AddPhase, RemovePhase, GoodAdd, GoodRemove;
    var a := AddPhase(items, OsIds(l), ffi, []);
    AddPhaseCalls(items, OsIds(l), ffi, []);
    RemovePhaseCalls(OsIds(l), VaultIds(items), ffi, a.0);
    var r := RemovePhase(OsIds(l), VaultIds(items), ffi, a.0);
    forall k | 0 <= k < |a.0| ensures !a.0[k].Free? { GoodAddIsAdd(items, OsIds(l), a.0[k]); }
    forall k | |a.0| <= k < |r| ensures !r[k].Free? { GoodRemoveIsRemove(OsIds(l), VaultIds(items), r[k]); }
    assert forall k :: 0 <= k < |a.0| ==> r[k] == a.0[k];
    if HasArray(l) && freeExported {
      assert Pass(items, l, ffi, freeExported)[|Pass(items, l, ffi, freeExported)| - 1] == Free;
    }
  }

  // -- how far a pass gets ------------------------------------------------------------------------------------

  datatype Chore = Publish(id: Id) | Withdraw(id: Id)

  /** Each record to publish, in the order of the enumeration. */
  function AddChores(items: seq<VaultItem>, l: Listing): seq<Chore>
  {
    if items == [] then []
    else
      var it := items[0];
      (if it.id.Some? && it.complete && !Listed(l, it.id.value) then [Publish(it.id.value)] else []) + AddChores(items[1..], l)
  }

  /** Each ID to withdraw, in the order of the listing. */
  ghost function RemoveChores(ids: seq<Id>, items: seq<VaultItem>): seq<Chore>
  {
    if ids == [] then []
    else (if ids[0] != [] && !VaultHas(items, ids[0]) then [Withdraw(ids[0])] else []) + RemoveChores(ids[1..], items)
  }

  ghost function Chores(items: seq<VaultItem>, l: Listing): seq<Chore>
  {
    AddChores(items, l) + RemoveChores(if l.count > 0 && l.nonNull then l.ids else [], items)
  }

  function CallFor(c: Chore, v: Verdict): Call
  {
    match c case Publish(id) => Add(id, v) case Withdraw(id) => Remove(id, v)
  }

  /** `made` are the calls for the first chores, all up to the first that could not be made, that one included; a refusal stops nothing. */
  ghost predicate WorksOff(chores: seq<Chore>, ffi: Ffi, base: nat, made: seq<Call>)
  {
    && |made| <= |chores|
    && (forall i :: 0 <= i < |made| ==> made[i] == CallFor(chores[i], ffi(base + i)))
    && (forall i :: 0 <= i < |made| - 1 ==> made[i].Free? || made[i].v != Unavailable)
    && (|made| < |chores| ==> Stopped(made))
  }

  predicate Stopped(made: seq<Call>)
  {
    made != [] && !made[|made| - 1].Free? && made[|made| - 1].v == Unavailable
  }

  lemma WorksOffCons(c: Chore, chores: seq<Chore>, ffi: Ffi, base: nat, rest: seq<Call>)
    ensures ffi(base) == Unavailable ==> WorksOff([c] + chores, ffi, base, [CallFor(c, ffi(base))]) && Stopped([CallFor(c, ffi(base))])
    ensures ffi(base) != Unavailable && WorksOff(chores, ffi, base + 1, rest) ==>
              WorksOff([c] + chores, ffi, base, [CallFor(c, ffi(base))] + rest)
              && (Stopped([CallFor(c, ffi(base))] + rest) <==> Stopped(rest))
  {
    var all, made := [c] + chores, [CallFor(c, ffi(base))] + rest;
    assert forall i :: 0 < i < |all| ==> all[i] == chores[i - 1];
    assert forall i :: 0 < i < |made| ==> made[i] == rest[i - 1];
    if WorksOff(chores, ffi, base + 1, rest) {
      forall i | 0 < i < |made|
        ensures made[i] == CallFor(all[i], ffi(base + i))
      {
        assert rest[i - 1] == CallFor(chores[i - 1], ffi(base + 1 + (i - 1)));
      }
    }
  }

  /** The calls for a list of chores. */
  function WorkedOff(chores: seq<Chore>, ffi: Ffi, base: nat): seq<Call>
  {
    if chores == [] then []
    else [CallFor(chores[0], ffi(base))] + if ffi(base) == Unavailable then [] else WorkedOff(chores[1..], ffi, base + 1)
  }

  lemma {:induction false} WorkedOffMeans(chores: seq<Chore>, ffi: Ffi, base: nat)
    ensures WorksOff(chores, ffi, base, WorkedOff(chores, ffi, base))
  {
    hide WorksOff, Stopped;
    if chores == [] {
      NothingToDo(ffi, base);
    } else {
      WorkedOffMeans(chores[1..], ffi, base + 1);
      WorksOffCons(chores[0], chores[1..], ffi, base, WorkedOff(chores[1..], ffi, base + 1));
      assert chores == [chores[0]] + chores[1..];
      if ffi(base) == Unavailable { assert WorkedOff(chores, ffi, base) == [CallFor(chores[0], ffi(base))]; }
    }
  }

  lemma WorkedOffCons(c: Chore, chores: seq<Chore>, ffi: Ffi, base: nat)
    ensures WorkedOff([c] + chores, ffi, base) ==
      if ffi(base) == Unavailable then [CallFor(c, Unavailable)] else [CallFor(c, ffi(base))] + WorkedOff(chores, ffi, base + 1)
  {
    assert ([c] + chores)[1..] == chores;
  }

  lemma StoppedCons(c: Chore, v: Verdict, made: seq<Call>)
    ensures Stopped([CallFor(c, v)] + made) <==> if made == [] then v == Unavailable else Stopped(made)
    ensures Stopped([CallFor(c, v)]) <==> v == Unavailable
    ensures !Stopped([])
  {
    var all := [CallFor(c, v)] + made;
    assert all[|all| - 1] == if made == [] then CallFor(c, v) else made[|made| - 1];
  }

  lemma Regrouped<T>(a: seq<T>, x: T, b: seq<T>)
    ensures a + ([x] + b) == a + [x] + b && [x] + (a + b) == [x] + a + b
  {}

  lemma {:induction false} WorkedOffConcat(a: seq<Chore>, b: seq<Chore>, ffi: Ffi, base: nat)
    ensures var m := WorkedOff(a, ffi, base);
      && (Stopped(m) ==> WorkedOff(a + b, ffi, base) == m)
      && (!Stopped(m) ==> WorkedOff(a + b, ffi, base) == m + WorkedOff(b, ffi, base + |m|))
    decreases |a|, 1
  {
    if a == [] {
      assert a + b == b;
    } else {
      WorkedOffConcatCons(a[0], a[1..], b, ffi, base);
      assert a == [a[0]] + a[1..];
    }
  }

  lemma WorkedOffConcatCons(c: Chore, a: seq<Chore>, b: seq<Chore>, ffi: Ffi, base: nat)
    ensures var m := WorkedOff([c] + a, ffi, base);
      && (Stopped(m) ==> WorkedOff([c] + a + b, ffi, base) == m)
      && (!Stopped(m) ==> WorkedOff([c] + a + b, ffi, base) == m + WorkedOff(b, ffi, base + |m|))
    decreases |a|, 2
  {
    hide WorkedOff, Stopped;
    WorkedOffCons(c, a, ffi, base);
    WorkedOffCons(c, a + b, ffi, base);
    Regrouped(a, c, b);
    var m := WorkedOff(a, ffi, base + 1);
    StoppedCons(c, ffi(base), m);
    if ffi(base) != Unavailable {
      WorkedOffConcat(a, b, ffi, base + 1);
      Regrouped(m, CallFor(c, ffi(base)), WorkedOff(b, ffi, base + 1 + |m|));
    }
  }

  lemma NothingToDo(ffi: Ffi, base: nat)
    ensures WorksOff([], ffi, base, []) && !Stopped([])
  {}

  lemma {:induction false} AddPhaseWorks(items: seq<VaultItem>, l: Listing, ffi: Ffi, calls: seq<Call>)
    ensures var made := WorkedOff(AddChores(items, l), ffi, |calls|);
      AddPhase(items, OsIds(l), ffi, calls) == (calls + made, Stopped(made))
  {
    if items == [] {
      assert calls + [] == calls;
    } else {
      hide WorkedOff, Stopped;
      if ToAdd(items[0], OsIds(l)) {
        var id, v := items[0].id.value, ffi(|calls|);
        assert AddChores(items, l) == [Publish(id)] + AddChores(items[1..], l);
        AddPhaseWorks(items[1..], l, ffi, calls + [Add(id, v)]);
        AddCall(id, AddChores(items[1..], l), ffi, calls);
      } else {
        AddPhaseWorks(items[1..], l, ffi, calls);
        assert [] + AddChores(items[1..], l) == AddChores(items[1..], l);
      }
    }
  }

  lemma AddCall(id: Id, rest: seq<Chore>, ffi: Ffi, calls: seq<Call>)
    ensures var x, more := Add(id, ffi(|calls|)), WorkedOff(rest, ffi, |calls| + 1);
      var made := WorkedOff([Publish(id)] + rest, ffi, |calls|);
      if ffi(|calls|) == Unavailable then made == [x] && Stopped(made)
      else calls + made == calls + [x] + more && Stopped(made) == Stopped(more)
  {
    hide WorkedOff, Stopped;
    var x, more := Add(id, ffi(|calls|)), WorkedOff(rest, ffi, |calls| + 1);
    WorkedOffCons(Publish(id), rest, ffi, |calls|);
    StoppedCons(Publish(id), ffi(|calls|), more);
    Regrouped(calls, x, more);
  }

  lemma {:induction false} RemovePhaseWorks(ids: seq<Id>, items: seq<VaultItem>, ffi: Ffi, calls: seq<Call>)
    ensures RemovePhase(ids, VaultIds(items), ffi, calls) == calls + WorkedOff(RemoveChores(ids, items), ffi, |calls|)
  {
    if ids == [] {
      assert calls + [] == calls;
    } else {
      hide VaultIds, VaultHas, WorkedOff;
      ListedIff(items, Listing(0, false, []), ids[0]);
      if ids[0] == [] || ids[0] in VaultIds(items) {
        RemovePhaseWorks(ids[1..], items, ffi, calls);
        assert [] + RemoveChores(ids[1..], items) == RemoveChores(ids[1..], items);
      } else {
        assert RemoveChores(ids, items) == [Withdraw(ids[0])] + RemoveChores(ids[1..], items);
        RemovePhaseWorks(ids[1..], items, ffi, calls + [Remove(ids[0], ffi(|calls|))]);
        RemoveCall(ids[0], RemoveChores(ids[1..], items), ffi, calls);
      }
    }
  }

  lemma RemoveCall(id: Id, rest: seq<Chore>, ffi: Ffi, calls: seq<Call>)
    ensures var x, more := Remove(id, ffi(|calls|)), WorkedOff(rest, ffi, |calls| + 1);
      var made := WorkedOff([Withdraw(id)] + rest, ffi, |calls|);
      if ffi(|calls|) == Unavailable then made == [x] else calls + made == calls + [x] + more
  {
    hide WorkedOff;
    WorkedOffCons(Withdraw(id), rest, ffi, |calls|);
    Regrouped(calls, Remove(id, ffi(|calls|)), WorkedOff(rest, ffi, |calls| + 1));
  }

  /**
   A pass works off its chores in order, adds before removals, until a call cannot be made at all; a call that Windows
   refuses stops nothing. Then the array is freed, if there is one and the symbol is exported.
   */
  lemma PassWorksOff(items: seq<VaultItem>, l: Listing, ffi: Ffi, freeExported: bool) returns (made: seq<Call>)
    ensures WorksOff(Chores(items, l), ffi, 0, made)
    ensures Pass(items, l, ffi, freeExported) == made + if l.count > 0 && l.nonNull && freeExported then [Free] else []
  {
    hide AddPhase, RemovePhase, WorksOff, WorkedOff, Stopped, VaultIds, AddChores, RemoveChores;
    made := WorkedOff(Chores(items, l), ffi, 0);
    WorkedOffMeans(Chores(items, l), ffi, 0);
    var adds := WorkedOff(AddChores(items, l), ffi, 0);
    AddPhaseWorks(items, l, ffi, []);
    assert [] + adds == adds && adds + [] == adds;
    RemovePhaseWorks(OsIds(l), items, ffi, adds);
    WorkedOffConcat(AddChores(items, l), RemoveChores(OsIds(l), items), ffi, 0);
  }

  // -- what becomes of the two sides ------------------------------------------------------------------------

  function SymDiff(a: set<Id>, b: set<Id>): set<Id>
  {
    (a - b) + (b - a)
  }

  ghost predicate Directed(v: set<Id>, calls: seq<Call>)
  {
    forall c :: c in calls ==> (c.Add? ==> c.id in v) && (c.Remove? ==> c.id !in v)
  }

  lemma {:induction false} DirectedShrinks(v: set<Id>, os: set<Id>, calls: seq<Call>)
    requires Directed(v, calls)
    ensures SymDiff(v, Effect(os, calls)) <= SymDiff(v, os)
  {
    if calls != [] {
      var front, last := calls[..|calls| - 1], calls[|calls| - 1];
      assert calls == front + [last];
      DirectedShrinks(v, os, front);
      assert last in calls;
    }
  }

  function SetOf(s: seq<Id>): set<Id>
  {
    set id | id in s
  }

  /** One pass never enlarges the difference between the vault's IDs and the ones Windows knows. */
  lemma DifferenceShrinks(items: seq<VaultItem>, l: Listing, ffi: Ffi, freeExported: bool, os: set<Id>)
    ensures var v := SetOf(VaultIds(items));
            SymDiff(v, Effect(os, Pass(items, l, ffi, freeExported))) <= SymDiff(v, os)
    ensures forall id :: id in SetOf(VaultIds(items)) <==> VaultHas(items, id)
  {
    hide Pass, Effect, SymDiff, VaultIds, Listed;
    var v, calls := SetOf(VaultIds(items)), Pass(items, l, ffi, freeExported);
    CallsAreDirected(items, l, ffi, freeExported);
    VaultIdsMeans(items);
    assert Directed(v, calls);
    DirectedShrinks(v, os, calls);
  }

  ghost predicate AllApplied(calls: seq<Call>)
  {
    forall c :: c in calls ==> c.Free? || c.v == Applied
  }

  ghost predicate Adds(calls: seq<Call>, id: Id) { exists c :: c in calls && c.Add? && c.id == id }
  ghost predicate Removes(calls: seq<Call>, id: Id) { exists c :: c in calls && c.Remove? && c.id == id }

  /** When everything works the last word on an ID is the call that names it. */
  lemma {:induction false} EffectMember(os: set<Id>, calls: seq<Call>, v: set<Id>, id: Id)
    requires AllApplied(calls) && Directed(v, calls)
    ensures id in Effect(os, calls) <==> if id in v then id in os || Adds(calls, id) else id in os && !Removes(calls, id)
  {
    if calls != [] {
      var front, last := calls[..|calls| - 1], calls[|calls| - 1];
      assert calls == front + [last];
      assert last in calls;
      EffectMember(os, front, v, id);
    }
  }

  /** A pass in which everything worked made every call it could. */
  lemma AllCallsMade(items: seq<VaultItem>, l: Listing, ffi: Ffi, freeExported: bool)
    requires AllApplied(Pass(items, l, ffi, freeExported))
    ensures var calls := Pass(items, l, ffi, freeExported);
      && (forall id :: Publishable(items, OsIds(l), id) ==> Adds(calls, id))
      && (forall id :: id in OsIds(l) && id != [] && id !in VaultIds(items) ==> Removes(calls, id))
  {
    hide AddPhase, RemovePhase, VaultIds, Publishable, GoodAdd, GoodRemove, AllApplied;
    var calls, known := Pass(items, l, ffi, freeExported), OsIds(l);
    var a := AddPhase(items, known, ffi, []);
    AddPhaseCalls(items, known, ffi, []);
    if a.1 {
      Worked(calls, |a.0| - 1);
      GoodAddIsAdd(items, known, a.0[|a.0| - 1]);
    }
    RemovePhaseCalls(known, VaultIds(items), ffi, a.0);
    var r := RemovePhase(known, VaultIds(items), ffi, a.0);
    forall k | |a.0| <= k < |r| ensures r[k].Remove? && r[k].v != Unavailable
    {
      GoodRemoveIsRemove(known, VaultIds(items), r[k]);
      assert calls[k] == r[k];
      Worked(calls, k);
    }
    forall id | Publishable(items, known, id)
      ensures Adds(calls, id)
    {
      var k :| 0 <= k < |a.0| && a.0[k].Add? && a.0[k].id == id;
      assert calls[k] == r[k] == a.0[k];
      assert calls[k] in calls;
    }
    forall id | id in known && id != [] && id !in VaultIds(items)
      ensures Removes(calls, id)
    {
      var k :| |a.0| <= k < |r| && r[k].Remove? && r[k].id == id;
      assert calls[k] == r[k];
      assert calls[k] in calls;
    }
  }

  lemma Worked(calls: seq<Call>, k: nat)
    requires AllApplied(calls) && k < |calls|
    ensures calls[k].Free? || calls[k].v == Applied
  {
    assert calls[k] in calls;
  }

  ghost predicate IsListing(os: set<Id>, l: Listing)
  {
    forall id :: id in os <==> Listed(l, id)
  }

  /** A pass in which everything worked adds exactly what could be published and was not listed, and removes exactly the stale. */
  lemma CallsOfPass(items: seq<VaultItem>, l: Listing, ffi: Ffi, freeExported: bool, id: Id)
    requires AllApplied(Pass(items, l, ffi, freeExported))
    ensures Adds(Pass(items, l, ffi, freeExported), id) <==> Asked(items, id) && !Listed(l, id)
    ensures Removes(Pass(items, l, ffi, freeExported), id) <==> Listed(l, id) && id != [] && !VaultHas(items, id)
  {
    hide Pass, Asked, Listed, VaultHas, AllApplied, VaultIds, Publishable, OsIds;
    CallsAreDirected(items, l, ffi, freeExported);
    AllCallsMade(items, l, ffi, freeExported);
    ListedIff(items, l, id);
  }

  /** Windows' credentials after a pass that worked: of the vault's, what it had and what could be published; of others, none with a non-empty ID. */
  lemma PassCompletes(items: seq<VaultItem>, l: Listing, ffi: Ffi, freeExported: bool, os: set<Id>)
    requires IsListing(os, l) && AllApplied(Pass(items, l, ffi, freeExported))
    ensures var os' := Effect(os, Pass(items, l, ffi, freeExported));
      forall id :: id in os' <==> if VaultHas(items, id) then Listed(l, id) || Asked(items, id) else Listed(l, id) && id == []
  {
    hide Pass, Effect, VaultIds, Adds, Removes, AllApplied, Asked, Listed, VaultHas, SetOf;
    var v, calls := (set id | id in VaultIds(items)), Pass(items, l, ffi, freeExported);
    CallsAreDirected(items, l, ffi, freeExported);
    forall id ensures id in v <==> VaultHas(items, id) { ListedIff(items, l, id); }
    forall id ensures Asked(items, id) ==> VaultHas(items, id) { AskedIsHad(items, id); }
    assert Directed(v, calls);
    forall id
      ensures id in Effect(os, calls) <==> if VaultHas(items, id) then Listed(l, id) || Asked(items, id) else Listed(l, id) && id == []
    {
      EffectMember(os, calls, v, id);
      CallsOfPass(items, l, ffi, freeExported, id);
    }
  }

  lemma AskedIsHad(items: seq<VaultItem>, id: Id)
    ensures Asked(items, id) ==> VaultHas(items, id)
  {}

  /** After a pass that worked, a second pass over the same vault makes no add and no remove call. */
  lemma SecondPassIsQuiet(items: seq<VaultItem>, l: Listing, ffi: Ffi, freeExported: bool, os: set<Id>, l': Listing, ffi': Ffi)
    requires IsListing(os, l) && AllApplied(Pass(items, l, ffi, freeExported))
    requires IsListing(Effect(os, Pass(items, l, ffi, freeExported)), l')
    ensures Pass(items, l', ffi', freeExported) == if l'.count > 0 && l'.nonNull && freeExported then [Free] else []
  {
    hide Effect, Pass, AddPhase, RemovePhase, Asked, Listed, VaultHas, VaultIds, OsIds, AllApplied;
    PassCompletes(items, l, ffi, freeExported, os);
    forall id | id in OsIds(l') && id != []
      ensures id in VaultIds(items)
    {
      ListedIff(items, l', id);
    }
    forall it | it in items && it.id.Some? && it.complete
      ensures it.id.value in OsIds(l')
    {
      ListedIff(items, l', it.id.value);
      assert Asked(items, it.id.value) && VaultHas(items, it.id.value) by { ItemAsks(items, it); }
    }
    QuietPass(items, l', ffi', freeExported);
  }

  lemma ItemAsks(items: seq<VaultItem>, it: VaultItem)
    requires it in items && it.id.Some? && it.complete
    ensures Asked(items, it.id.value) && VaultHas(items, it.id.value)
  {}

  lemma QuietPass(items: seq<VaultItem>, l: Listing, ffi: Ffi, freeExported: bool)
    requires forall id :: id in OsIds(l) && id != [] ==> id in VaultIds(items)
    requires forall it :: it in items && it.id.Some? && it.complete ==> it.id.value in OsIds(l)
    ensures Pass(items, l, ffi, freeExported) == FreeCall(l, freeExported)
  {
    hide AddPhase, RemovePhase, GoodAdd, GoodRemove;
    AddPhaseCalls(items, OsIds(l), ffi, []);
    var a := AddPhase(items, OsIds(l), ffi, []);
    RemovePhaseCalls(OsIds(l), VaultIds(items), ffi, []);
    var r := RemovePhase(OsIds(l), VaultIds(items), ffi, []);
    assert a.0 != [] ==> GoodAdd(items, OsIds(l), a.0[0]);
    assert r != [] ==> GoodRemove(OsIds(l), VaultIds(items), r[0]);
    NothingGood(items, OsIds(l));
    assert [] + FreeCall(l, freeExported) == FreeCall(l, freeExported);
  }

  lemma NothingGood(items: seq<VaultItem>, known: seq<Id>)
    requires forall id :: id in known && id != [] ==> id in VaultIds(items)
    requires forall it :: it in items && it.id.Some? && it.complete ==> it.id.value in known
    ensures forall c :: !GoodAdd(items, known, c) && !GoodRemove(known, VaultIds(items), c)
  {}

  // -- against a vault with repeated IDs ---------------------------------------------------------------------

  /** The IDs of the add calls of an unhindered pass, in order. */
  function Wanted(items: seq<VaultItem>, known: seq<Id>): seq<Id>
  {
    if items == [] then []
    else (if ToAdd(items[0], known) then [items[0].id.value] else []) + Wanted(items[1..], known)
  }

  function AddLog(ids: seq<Id>): (calls: seq<Call>)
    ensures |calls| == |ids| && forall k :: 0 <= k < |ids| ==> calls[k] == Add(ids[k], Applied)
  {
    seq(|ids|, k requires 0 <= k < |ids| => Add(ids[k], Applied))
  }

  ghost predicate NoRepeats(ids: seq<Id>)
  {
    forall i, j :: 0 <= i < j < |ids| ==> ids[i] != ids[j]
  }

  lemma {:induction false} UnhinderedAdds(items: seq<VaultItem>, known: seq<Id>, ffi: Ffi, calls: seq<Call>)
    requires forall n :: ffi(n) == Applied
    ensures AddPhase(items, known, ffi, calls) == (calls + AddLog(Wanted(items, known)), false)
    ensures forall id :: id in Wanted(items, known) ==> id !in known
  {
    hide ToAdd;
    if items == [] {
      assert calls + AddLog([]) == calls;
    } else if ToAdd(items[0], known) {
      ToAddIsNew(items[0], known);
      var c := Add(items[0].id.value, Applied);
      UnhinderedAdds(items[1..], known, ffi, calls + [c]);
      assert calls + AddLog(Wanted(items, known)) == (calls + [c]) + AddLog(Wanted(items[1..], known));
    } else {
      UnhinderedAdds(items[1..], known, ffi, calls);
      assert Wanted(items, known) == [] + Wanted(items[1..], known) == Wanted(items[1..], known);
    }
  }

  lemma ToAddIsNew(it: VaultItem, known: seq<Id>)
    requires ToAdd(it, known)
    ensures it.id.Some? && it.id.value !in known
  {}

  lemma {:induction false} EffectOfAdds(os: set<Id>, ids: seq<Id>)
    ensures Effect(os, AddLog(ids)) == os + SetOf(ids)
  {
    if ids != [] {
      var front := ids[..|ids| - 1];
      EffectOfAdds(os, front);
      assert AddLog(ids)[..|ids| - 1] == AddLog(front);
      assert SetOf(ids) == SetOf(front) + {ids[|ids| - 1]} by { assert ids == front + [ids[|ids| - 1]]; }
    }
  }

  /** Two items ask for the same ID, which Windows did not list. */
  predicate AsksTwice(items: seq<VaultItem>, l: Listing, i: nat, j: nat)
    requires i < |items| && j < |items|
  {
    items[i].id.Some? && items[i].complete && items[j].complete && items[j].id == items[i].id && !Listed(l, items[i].id.value)
  }

  /**
   No add of an unhindered pass names an ID that Windows has by then, exactly when no two items of the vault ask for the same
   unlisted ID; the store does not check for duplicates.
   */
  lemma AddsAreNewIffNoRepeats(items: seq<VaultItem>, l: Listing, ffi: Ffi, freeExported: bool, os: set<Id>)
    requires (forall n :: ffi(n) == Applied) && IsListing(os, l)
    ensures var calls := Pass(items, l, ffi, freeExported);
      (forall k :: 0 <= k < |calls| && calls[k].Add? ==> calls[k].id !in Effect(os, calls[..k])) <==>
      (forall i: nat, j: nat :: i < j < |items| ==> !AsksTwice(items, l, i, j))
  {
    hide Pass, AddPhase, Effect, AddLog, NoRepeats, Wanted, Listed, AsksTwice;
    var ids := Wanted(items, OsIds(l));
    UnhinderedPass(items, l, ffi, freeExported);
    var calls := Pass(items, l, ffi, freeExported);
    forall k | 0 <= k < |ids|
      ensures calls[k] == Add(ids[k], Applied) && (calls[k].id in Effect(os, calls[..k]) <==> ids[k] in ids[..k])
    {
      assert calls[..k] == AddLog(ids[..k]);
      EffectOfAdds(os, ids[..k]);
      assert ids[k] in ids;
      ListedIff(items, l, ids[k]);
      assert SetOf(ids[..k]) == set id | id in ids[..k];
    }
    RepeatIsEarlier(ids);
    WantedRepeats(items, l);
  }

  /** The calls of an unhindered pass begin with its adds, and there are no others. */
  lemma UnhinderedPass(items: seq<VaultItem>, l: Listing, ffi: Ffi, freeExported: bool)
    requires forall n :: ffi(n) == Applied
    ensures var calls, ids := Pass(items, l, ffi, freeExported), Wanted(items, OsIds(l));
      && |ids| <= |calls| && calls[..|ids|] == AddLog(ids) && (forall k :: |ids| <= k < |calls| ==> !calls[k].Add?)
      && (forall id :: id in ids ==> id !in OsIds(l))
  {
    hide AddPhase, RemovePhase, AddLog, Wanted, VaultIds, GoodRemove;
    var ids := Wanted(items, OsIds(l));
    UnhinderedAdds(items, OsIds(l), ffi, []);
    assert [] + AddLog(ids) == AddLog(ids);
    RemovePhaseCalls(OsIds(l), VaultIds(items), ffi, AddLog(ids));
    var r := RemovePhase(OsIds(l), VaultIds(items), ffi, AddLog(ids));
    forall k | |ids| <= k < |r| ensures r[k].Remove? { GoodRemoveIsRemove(OsIds(l), VaultIds(items), r[k]); }
  }

  lemma {:induction false} WantedAt(items: seq<VaultItem>, l: Listing, i: nat) returns (k: nat)
    requires i < |items| && ToAdd(items[i], OsIds(l))
    ensures k < |Wanted(items, OsIds(l))| && Wanted(items, OsIds(l))[k] == items[i].id.value
    ensures k == |Wanted(items[..i], OsIds(l))|
  {
    hide ToAdd;
    if i == 0 {
      k := 0;
    } else {
      k := WantedAt(items[1..], l, i - 1);
      if ToAdd(items[0], OsIds(l)) { k := k + 1; }
      assert items[..i][1..] == items[1..][..i - 1];
    }
  }

  lemma {:induction false} WantedFrom(items: seq<VaultItem>, l: Listing, k: nat) returns (i: nat)
    requires k < |Wanted(items, OsIds(l))|
    ensures i < |items| && ToAdd(items[i], OsIds(l)) && Wanted(items, OsIds(l))[k] == items[i].id.value
    ensures k == |Wanted(items[..i], OsIds(l))|
  {
    hide ToAdd;
    if ToAdd(items[0], OsIds(l)) && k == 0 {
      i := 0;
    } else {
      var j := WantedFrom(items[1..], l, k - if ToAdd(items[0], OsIds(l)) then 1 else 0);
      i := j + 1;
      assert items[..i][1..] == items[1..][..j];
    }
  }

  lemma {:induction false} WantedGrows(items: seq<VaultItem>, known: seq<Id>, i: nat, j: nat)
    requires i < j <= |items| && ToAdd(items[i], known)
    ensures |Wanted(items[..i], known)| < |Wanted(items[..j], known)|
  {
    hide ToAdd;
    if i == 0 {
      assert items[..j][0] == items[0];
    } else {
      WantedGrows(items[1..], known, i - 1, j - 1);
      assert items[..i][1..] == items[1..][..i - 1] && items[..j][1..] == items[1..][..j - 1];
    }
  }

  lemma WantedRepeats(items: seq<VaultItem>, l: Listing)
    ensures NoRepeats(Wanted(items, OsIds(l))) <==> forall i: nat, j: nat :: i < j < |items| ==> !AsksTwice(items, l, i, j)
  {
    hide Wanted, ToAdd, Listed;
    var ids := Wanted(items, OsIds(l));
    forall i: nat, j: nat | i < j < |items| && AsksTwice(items, l, i, j)
      ensures !NoRepeats(ids)
    {
      ListedIff(items, l, items[i].id.value);
      AskedToAdd(items[i], l);
      AskedToAdd(items[j], l);
      var a := WantedAt(items, l, i);
      var b := WantedAt(items, l, j);
      WantedGrows(items, OsIds(l), i, j);
    }
    forall a: nat, b: nat | a < b < |ids| && ids[a] == ids[b]
      ensures exists i: nat, j: nat :: i < j < |items| && AsksTwice(items, l, i, j)
    {
      var i := WantedFrom(items, l, a);
      var j := WantedFrom(items, l, b);
      AskedToAdd(items[i], l);
      AskedToAdd(items[j], l);
      if j < i { WantedGrows(items, OsIds(l), j, i); }
      assert AsksTwice(items, l, i, j);
    }
  }

  lemma AskedToAdd(it: VaultItem, l: Listing)
    ensures ToAdd(it, OsIds(l)) <==> it.id.Some? && it.complete && !Listed(l, it.id.value)
  {}

  /** A vault that names one ID twice: Windows is given it twice, the second time when it has it already. */
  lemma RepeatIsAddedTwice()
    ensures var item: VaultItem, ffi: Ffi := VaultItem(Some([7]), true), (_: nat) => Applied;
      Pass([item, item], Listing(0, false, []), ffi, true) == [Add([7], Applied), Add([7], Applied)] && [7] in Effect({}, [Add([7], Applied)])
  {
    var item: VaultItem, ffi: Ffi := VaultItem(Some([7]), true), (_: nat) => Applied;
    var one := [Add([7], Applied)];
    assert [item, item][1..] == [item] && [item][1..] == [];
    assert [] + one == one && one + one == [Add([7], Applied), Add([7], Applied)];
    assert AddPhase([item], [], ffi, one) == (one + one, false);
    assert AddPhase([item, item], [], ffi, []) == (one + one, false);
    assert one[..0] == [] && Effect({}, one) == {[7]};
  }

  lemma RepeatIsEarlier(ids: seq<Id>)
    ensures NoRepeats(ids) <==> forall k :: 0 <= k < |ids| ==> ids[k] !in ids[..k]
  {
    forall i, j | 0 <= i < j < |ids| && ids[i] == ids[j]
      ensures ids[j] in ids[..j]
    {
      assert ids[..j][i] == ids[j];
    }
  }

  // -- against a vault that moved on -------------------------------------------------------------------------

  /** `id` is withdrawn although the vault has it and Windows listed it. */
  predicate Withdraws(calls: seq<Call>, id: Id)
  {
    exists k :: 0 <= k < |calls| && calls[k].Remove? && calls[k].id == id
  }

  /**
   The pipe is returned before GetAllCredentials, so a credential may be created and published in between. It is then
   missing from the enumeration, present in the listing, and withdrawn.
   */
  lemma LateCredentialIsWithdrawn()
    ensures Withdraws(Pass([], Listing(1, true, [[7]]), (_: nat) => Applied, true), [7])
  {
    var ffi: Ffi := (_: nat) => Applied;
    assert [[7 as byte]][1..] == [];
    assert RemovePhase([[7]], VaultIds([]), ffi, []) == [] + [Remove([7], Applied)];
    assert Pass([], Listing(1, true, [[7]]), ffi, true)[0] == Remove([7], Applied);
  }

  /**
   No credential of the current vault is ever withdrawn, whatever Windows lists and whatever the calls return, exactly
   when the vault gained none since it was enumerated.
   */
  lemma WithdrawsNoneIffNothingNew(items: seq<VaultItem>, vaultNow: set<Id>)
    ensures (forall l, ffi, freeExported, id :: id in vaultNow ==> !Withdraws(Pass(items, l, ffi, freeExported), id)) <==>
            (forall id :: id in vaultNow && id != [] ==> VaultHas(items, id))
  {
    hide Pass, VaultIds, VaultHas, Listed, Asked;
    if forall id :: id in vaultNow && id != [] ==> VaultHas(items, id) {
      forall l, ffi, freeExported, id | id in vaultNow
        ensures !Withdraws(Pass(items, l, ffi, freeExported), id)
      {
        CallsAreDirected(items, l, ffi, freeExported);
        var calls := Pass(items, l, ffi, freeExported);
        forall k | 0 <= k < |calls|
          ensures !(calls[k].Remove? && calls[k].id == id)
        {
          assert calls[k] in calls;
        }
      }
    } else {
      var id :| id in vaultNow && id != [] && !VaultHas(items, id);
      ListedIff(items, Listing(0, false, []), id);
      NewIsWithdrawn(items, id);
    }
  }

  lemma NewIsWithdrawn(items: seq<VaultItem>, id: Id)
    requires id != [] && id !in VaultIds(items)
    ensures Withdraws(Pass(items, Listing(1, true, [id]), (_: nat) => Rejected, true), id)
  {
    hide AddPhase, RemovePhase;
    var ffi: Ffi, l := (_: nat) => Rejected, Listing(1, true, [id]);
    var a := AddPhase(items, [id], ffi, []);
    AddPhaseCalls(items, [id], ffi, []);
    NeverUnavailable(items, [id], ffi, []);
    RemovePhaseCalls([id], VaultIds(items), ffi, a.0);
    RemoveVerdicts([id], VaultIds(items), ffi, a.0);
    var r := RemovePhase([id], VaultIds(items), ffi, a.0);
    var k :| |a.0| <= k < |r| && r[k].Remove? && r[k].id == id;
    assert Pass(items, l, ffi, true)[k] == r[k];
  }

  lemma {:induction false} NeverUnavailable(items: seq<VaultItem>, known: seq<Id>, ffi: Ffi, calls: seq<Call>)
    requires forall n :: ffi(n) != Unavailable
    ensures !AddPhase(items, known, ffi, calls).1
  {
    if items != [] {
      NeverUnavailable(items[1..], known, ffi, if ToAdd(items[0], known) then calls + [Add(items[0].id.value, ffi(|calls|))] else calls);
    }
  }

  lemma {:induction false} RemoveVerdicts(osIds: seq<Id>, vaultIds: seq<Id>, ffi: Ffi, calls: seq<Call>)
    requires forall n :: ffi(n) != Unavailable
    ensures var r := RemovePhase(osIds, vaultIds, ffi, calls); forall k :: |calls| <= k < |r| ==> r[k].Remove? && r[k].v != Unavailable
  {
    if osIds != [] {
      var calls' := if osIds[0] == [] || osIds[0] in vaultIds then calls else calls + [Remove(osIds[0], ffi(|calls|))];
      RemoveVerdicts(osIds[1..], vaultIds, ffi, calls');
      RemovePhaseCalls(osIds[1..], vaultIds, ffi, calls');
      var r := RemovePhase(osIds, vaultIds, ffi, calls);
      assert forall k :: |calls| <= k < |calls'| ==> r[k] == calls'[k];
    }
  }
}
