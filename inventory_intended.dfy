/**
 * `add` and `retrieve` as src/inventory.rs evidently means them: the walks
 * change the inventory's own slots instead of a clone, a stack that would
 * overflow is filled to `M` and only what did not fit is carried on, and a
 * stack too small for a retrieval is emptied and only the shortfall is taken
 * from the next stack of the kind. The search order, the `Overflow` and
 * `InvalidRetrieval` cases and the absence of rollback stay as written.
 */
module IntendedInventory {
  import opened Wrappers
  import opened Items
  import opened Inventories

  /** Room a slot has left for `kind`: a whole stack when empty, the rest of a stack of `kind`. */
  function RoomIn(slot: Option<InventorySlot>, kind: ItemKind, m: nat): nat
  {
    if slot.None? then m
    else if slot.value.kind == kind && slot.value.quantity <= m then m - slot.value.quantity
    else 0
  }

  /** Room left for `kind` over all slots. */
  function Room(s: Slots, kind: ItemKind, m: nat): nat
  {
    if s == [] then 0 else RoomIn(s[0], kind, m) + Room(s[1..], kind, m)
  }

  lemma {:induction false} RoomUpdate(s: Slots, i: nat, x: Option<InventorySlot>, kind: ItemKind, m: nat)
    requires i < |s|
    ensures Room(s[i := x], kind, m) == Room(s, kind, m) - RoomIn(s[i], kind, m) + RoomIn(x, kind, m)
  {
    if i > 0 {
      assert s[i := x][1..] == s[1..][i - 1 := x];
      RoomUpdate(s[1..], i - 1, x, kind, m);
    }
  }

  /** Slots with no stack to top up and no empty slot have no room left. */
  lemma {:induction false} NoRoomWithoutSpace(s: Slots, kind: ItemKind, m: nat)
    requires Bounded(s, m)
    requires forall j :: 0 <= j < |s| ==> !Matches(s[j], TopUp(kind, m)) && !Matches(s[j], Empty)
    ensures Room(s, kind, m) == 0
  {
    if s != [] {
      NoRoomWithoutSpace(s[1..], kind, m);
    }
  }

  /** With no stack of `kind` left, none of `kind` is stored. */
  lemma {:induction false} NothingStoredWithoutStack(s: Slots, kind: ItemKind)
    requires Count(s, Holding(kind)) == 0
    ensures Stored(s, kind) == 0
  {
    if s != [] {
      NothingStoredWithoutStack(s[1..], kind);
    }
  }

  /**
   * `add` with the top-up applied to the slot itself: the stack takes what
   * fits and the call goes on with the rest.
   */
  function AddIntended(s: Slots, m: nat, kind: ItemKind, q: nat): (r: OpResult)
    requires 0 < m && Bounded(s, m)
    ensures |r.slots| == |s|
    decreases q
  {
    match FirstMatch(s, TopUp(kind, m))
    case Some(i) =>
      var held := s[i].value.quantity;
      if held + q > m then AddIntended(s[i := Some(InventorySlot(kind, m))], m, kind, q - (m - held))
      else OpResult(s[i := Some(InventorySlot(kind, held + q))], Returned(NoError))
    case None =>
      match FirstMatch(s, Empty)
      case Some(i) =>
        if q > m then AddIntended(s[i := Some(InventorySlot(kind, m))], m, kind, q - m)
        else OpResult(s[i := Some(InventorySlot(kind, q))], Returned(NoError))
      case None => OpResult(s, Returned(Overflow))
  }

  /**
   * The intended `add` succeeds exactly when the inventory has room for all
   * `q` items (and any room at all), and then stores exactly `q` more. On
   * `Overflow` it has filled all the room there was. Stacks stay within `m`
   * and no other kind is touched.
   */
  lemma AddIntendedStoresAll(s: Slots, m: nat, kind: ItemKind, q: nat)
    requires 0 < m && Bounded(s, m)
    ensures var r := AddIntended(s, m, kind, q);
      var room := Room(s, kind, m);
      var fits := 0 < room && q <= room;
      && r.outcome == Returned(if fits then NoError else Overflow)
      && Stored(r.slots, kind) == Stored(s, kind) + (if fits then q else room)
      && (!fits ==> Room(r.slots, kind, m) == 0)
      && Bounded(r.slots, m)
      && forall other :: other != kind ==> Stored(r.slots, other) == Stored(s, other)
  {
    AddIntendedFills(s, m, kind, q);
    AddIntendedKeepsOthers(s, m, kind, q);
  }

  /** The outcome, the items stored and the room left by the intended `add`. */
  lemma {:induction false} AddIntendedFills(s: Slots, m: nat, kind: ItemKind, q: nat)
    requires 0 < m && Bounded(s, m)
    ensures var r := AddIntended(s, m, kind, q);
      var room := Room(s, kind, m);
      var fits := 0 < room && q <= room;
      && r.outcome == Returned(if fits then NoError else Overflow)
      && Stored(r.slots, kind) == Stored(s, kind) + (if fits then q else room)
      && (!fits ==> Room(r.slots, kind, m) == 0)
    decreases q
  {
    match FirstMatch(s, TopUp(kind, m))
    case Some(i) =>
      var held := s[i].value.quantity;
      if held + q > m {
        var x := Some(InventorySlot(kind, m));
        IntendedWrite(s, i, x, kind, m);
        AddIntendedFills(s[i := x], m, kind, q - (m - held));
      } else {
        IntendedWrite(s, i, Some(InventorySlot(kind, held + q)), kind, m);
      }
    case None =>
      match FirstMatch(s, Empty)
      case Some(i) =>
        if q > m {
          var x := Some(InventorySlot(kind, m));
          IntendedWrite(s, i, x, kind, m);
          AddIntendedFills(s[i := x], m, kind, q - m);
        } else {
          IntendedWrite(s, i, Some(InventorySlot(kind, q)), kind, m);
        }
      case None =>
        FirstMatchNone(s, TopUp(kind, m));
        FirstMatchNone(s, Empty);
        NoRoomWithoutSpace(s, kind, m);
  }

  /** The intended `add` keeps every stack within `m` and leaves other kinds alone. */
  lemma {:induction false} AddIntendedKeepsOthers(s: Slots, m: nat, kind: ItemKind, q: nat)
    requires 0 < m && Bounded(s, m)
    ensures var r := AddIntended(s, m, kind, q);
      && Bounded(r.slots, m)
      && forall other :: other != kind ==> Stored(r.slots, other) == Stored(s, other)
    decreases q
  {
    match FirstMatch(s, TopUp(kind, m))
    case Some(i) =>
      var held := s[i].value.quantity;
      var x := Some(InventorySlot(kind, if held + q > m then m else held + q));
      IntendedWriteKeepsOthers(s, i, x, kind, m);
      if held + q > m {
        assert AddIntended(s, m, kind, q) == AddIntended(s[i := x], m, kind, q - (m - held));
        AddIntendedKeepsOthers(s[i := x], m, kind, q - (m - held));
      } else {
        assert AddIntended(s, m, kind, q) == OpResult(s[i := x], Returned(NoError));
      }
    case None =>
      match FirstMatch(s, Empty)
      case Some(i) =>
        var x := Some(InventorySlot(kind, if q > m then m else q));
        IntendedWriteKeepsOthers(s, i, x, kind, m);
        if q > m {
          assert AddIntended(s, m, kind, q) == AddIntended(s[i := x], m, kind, q - m);
          AddIntendedKeepsOthers(s[i := x], m, kind, q - m);
        } else {
          assert AddIntended(s, m, kind, q) == OpResult(s[i := x], Returned(NoError));
        }
      case None =>
  }

  /** What writing a stack of `kind` over a top-up or empty slot does to room and storage. */
  lemma IntendedWrite(s: Slots, i: nat, x: Option<InventorySlot>, kind: ItemKind, m: nat)
    requires i < |s| && Bounded(s, m)
    requires s[i].None? || (s[i].value.kind == kind && s[i].value.quantity <= m)
    requires x.Some? && x.value.kind == kind && x.value.quantity <= m
    requires s[i].Some? ==> s[i].value.quantity <= x.value.quantity
    ensures Bounded(s[i := x], m)
    ensures Room(s[i := x], kind, m) == Room(s, kind, m) - (x.value.quantity - Amount(s[i], kind))
    ensures Room(s, kind, m) >= x.value.quantity - Amount(s[i], kind)
    ensures Room(s, kind, m) >= RoomIn(s[i], kind, m)
    ensures Stored(s[i := x], kind) == Stored(s, kind) + (x.value.quantity - Amount(s[i], kind))
  {
    RoomUpdate(s, i, x, kind, m);
    RoomUpdate(s, i, Some(InventorySlot(kind, m)), kind, m);
    StoredUpdate(s, i, x, kind);
  }

  /** Writing a stack of `kind` over a top-up or empty slot keeps stacks bounded and other kinds' totals. */
  lemma IntendedWriteKeepsOthers(s: Slots, i: nat, x: Option<InventorySlot>, kind: ItemKind, m: nat)
    requires i < |s| && Bounded(s, m)
    requires s[i].None? || s[i].value.kind == kind
    requires x.Some? && x.value.kind == kind && x.value.quantity <= m
    ensures Bounded(s[i := x], m)
    ensures forall other :: other != kind ==> Stored(s[i := x], other) == Stored(s, other)
  {
    forall other | other != kind
      ensures Stored(s[i := x], other) == Stored(s, other)
    {
      StoredUpdate(s, i, x, other);
    }
  }

  /**
   * `retrieve` with the removals applied to the slots themselves: a stack too
   * small for the request is emptied and only the shortfall is asked of the
   * next stack of the kind.
   */
  function RetrieveIntended(s: Slots, kind: ItemKind, q: nat): (r: OpResult)
    ensures |r.slots| == |s|
    decreases Count(s, Holding(kind))
  {
    match FirstMatch(s, Holding(kind))
    case None => OpResult(s, Returned(InvalidRetrieval))
    case Some(i) =>
      var held := s[i].value.quantity;
      if held < q then
        CountUpdate(s, i, None, Holding(kind));
        RetrieveIntended(s[i := None], kind, q - held)
      else if held == q then OpResult(s[i := None], Returned(NoError))
      else OpResult(s[i := Some(InventorySlot(kind, held - q))], Returned(NoError))
  }

  /**
   * The intended `retrieve` succeeds exactly when some stack of `kind` exists
   * and `q` items of it are stored, and then takes exactly `q`. On
   * `InvalidRetrieval` every stack of `kind` has been emptied (no rollback).
   * No other kind is touched.
   */
  lemma {:induction false} RetrieveIntendedTakesAll(s: Slots, kind: ItemKind, q: nat)
    ensures var r := RetrieveIntended(s, kind, q);
      var ok := Count(s, Holding(kind)) > 0 && q <= Stored(s, kind);
      && r.outcome == Returned(if ok then NoError else InvalidRetrieval)
      && Stored(r.slots, kind) == (if ok then Stored(s, kind) - q else 0)
      && forall other :: other != kind ==> Stored(r.slots, other) == Stored(s, other)
    decreases Count(s, Holding(kind))
  {
    match FirstMatch(s, Holding(kind))
    case None =>
      FirstMatchNone(s, Holding(kind));
      NoMatchCountsZero(s, Holding(kind));
      NothingStoredWithoutStack(s, kind);
    case Some(i) =>
      var held := s[i].value.quantity;
      var x: Option<InventorySlot> := if held <= q then None else Some(InventorySlot(kind, held - q));
      CountUpdate(s, i, x, Holding(kind));
      CountUpdate(s, i, None, Holding(kind));
      StoredUpdate(s, i, x, kind);
      forall other | other != kind
        ensures Stored(s[i := x], other) == Stored(s, other)
      {
        StoredUpdate(s, i, x, other);
      }
      if held < q {
        assert x == None;
        assert RetrieveIntended(s, kind, q) == RetrieveIntended(s[i := x], kind, q - held);
        assert Stored(s[i := x], kind) == Stored(s, kind) - held;
        assert Count(s[i := x], Holding(kind)) == Count(s, Holding(kind)) - 1;
        RetrieveIntendedTakesAll(s[i := x], kind, q - held);
        if Count(s[i := x], Holding(kind)) == 0 {
          NothingStoredWithoutStack(s[i := x], kind);
        }
      }
  }

  /** On the inputs where the code as written loses items or panics, the intended versions do not. */
  lemma IntendedOnLossyInputs()
    ensures AddIntended([Some(InventorySlot(ItemKind.Dirt, 10))], SLOT_SIZE, ItemKind.Dirt, 5)
      == OpResult([Some(InventorySlot(ItemKind.Dirt, 15))], Returned(NoError))
    ensures AddIntended([Some(InventorySlot(ItemKind.Dirt, 60)), None], SLOT_SIZE, ItemKind.Dirt, 10)
      == OpResult([Some(InventorySlot(ItemKind.Dirt, 64)), Some(InventorySlot(ItemKind.Dirt, 6))], Returned(NoError))
    ensures RetrieveIntended([Some(InventorySlot(ItemKind.Dirt, 10))], ItemKind.Dirt, 5)
      == OpResult([Some(InventorySlot(ItemKind.Dirt, 5))], Returned(NoError))
    ensures RetrieveIntended([Some(InventorySlot(ItemKind.Dirt, 10)), Some(InventorySlot(ItemKind.Dirt, 64))], ItemKind.Dirt, 20)
      == OpResult([None, Some(InventorySlot(ItemKind.Dirt, 54))], Returned(NoError))
  {
    var a := [Some(InventorySlot(ItemKind.Dirt, 10))];
    FirstMatchAt(a, TopUp(ItemKind.Dirt, SLOT_SIZE), 0);
    FirstMatchAt(a, Holding(ItemKind.Dirt), 0);
    var b := [Some(InventorySlot(ItemKind.Dirt, 60)), None];
    FirstMatchAt(b, TopUp(ItemKind.Dirt, SLOT_SIZE), 0);
    var b' := b[0 := Some(InventorySlot(ItemKind.Dirt, 64))];
    assert FirstMatch(b', TopUp(ItemKind.Dirt, SLOT_SIZE)).None?;
    FirstMatchAt(b', Empty, 1);
    var c := [Some(InventorySlot(ItemKind.Dirt, 10)), Some(InventorySlot(ItemKind.Dirt, 64))];
    FirstMatchAt(c, Holding(ItemKind.Dirt), 0);
    var c' := c[0 := None];
    FirstMatchAt(c', Holding(ItemKind.Dirt), 1);
  }
}
