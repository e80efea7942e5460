/**
 * The player inventory of src/inventory.rs: `Inventory<N, M>`, a fixed array
 * of `N` optional stacks, each holding one item kind and at most `M` items.
 *
 * Arithmetic is on Rust's `usize` as a debug build runs it: an addition that
 * would exceed `USIZE_MAX` or a subtraction that would go below zero panics.
 * A panic ends the call with the `Panicked` outcome.
 *
 * Both operations first walk a clone of the slot array (`self.0.clone()`), so
 * whatever that walk writes is lost: `add` only ever writes into empty slots,
 * and `retrieve` never changes the inventory at all.
 */
module Inventories {
  import opened Wrappers
  import opened Items

  /** The inventory resource the plugin installs is `Inventory<36, 64>`. */
  const INVENTORY_SIZE: nat := 36
  const SLOT_SIZE: nat := 64

  /** The largest `usize` on a 64-bit target. */
  const USIZE_MAX: nat := 0xFFFF_FFFF_FFFF_FFFF

  /** One stack of items. */
  datatype InventorySlot = InventorySlot(kind: ItemKind, quantity: nat)

  /** `InventorySlot::default()`: zero items of the default kind. */
  const DefaultSlot: InventorySlot := InventorySlot(DefaultKind, 0)

  /** `InventoryOpError`; its `None` variant is called `NoError` here. */
  datatype InventoryOpError = NoError | InvalidRetrieval | Overflow

  /** How a call ends: returning a value, or aborted by an arithmetic panic. */
  datatype Outcome = Returned(error: InventoryOpError) | Panicked

  type Slots = seq<Option<InventorySlot>>

  /** The slots after a call, with the call's outcome. */
  datatype OpResult = OpResult(slots: Slots, outcome: Outcome)

  // ---------------------------------------------------------------------------
  // Searching the slots
  // ---------------------------------------------------------------------------

  /** The three slot searches the operations make. */
  datatype Probe =
    | TopUp(kind: ItemKind, cap: nat)  // a stack of `kind` whose quantity is not `cap`
    | Empty                            // a `None` slot
    | Holding(kind: ItemKind)          // any stack of `kind`

  predicate Matches(slot: Option<InventorySlot>, p: Probe)
  {
    match p
    case TopUp(kind, cap) => slot.Some? && slot.value.kind == kind && slot.value.quantity != cap
    case Empty => slot.None?
    case Holding(kind) => slot.Some? && slot.value.kind == kind
  }

  /** The index of the first slot that matches `p`, the one a `for` over the slots stops at. */
  function FirstMatch(s: Slots, p: Probe): (r: Option<nat>)
    ensures r.Some? ==> r.value < |s| && Matches(s[r.value], p)
  {
    if s == [] then None
    else if Matches(s[0], p) then Some(0)
    else
      match FirstMatch(s[1..], p)
      case None => None
      case Some(i) => Some(i + 1)
  }

  /** There is no first match exactly when no slot matches. */
  lemma {:induction false} FirstMatchNone(s: Slots, p: Probe)
    ensures FirstMatch(s, p).None? <==> forall j :: 0 <= j < |s| ==> !Matches(s[j], p)
  {
    if s != [] && !Matches(s[0], p) {
      FirstMatchNone(s[1..], p);
      assert forall j :: 1 <= j < |s| ==> s[j] == s[1..][j - 1];
    }
  }

  /** No slot before the first match matches. */
  lemma {:induction false} FirstMatchIsFirst(s: Slots, p: Probe)
    ensures FirstMatch(s, p).Some? ==> forall j :: 0 <= j < FirstMatch(s, p).value ==> !Matches(s[j], p)
  {
    if s != [] && !Matches(s[0], p) {
      FirstMatchIsFirst(s[1..], p);
      assert forall j :: 1 <= j < |s| ==> s[j] == s[1..][j - 1];
    }
  }

  /** A matching slot with no match before it is the first match. */
  lemma {:induction false} FirstMatchAt(s: Slots, p: Probe, i: nat)
    requires i < |s| && Matches(s[i], p)
    requires forall j :: 0 <= j < i ==> !Matches(s[j], p)
    ensures FirstMatch(s, p) == Some(i)
  {
    if i > 0 {
      assert !Matches(s[0], p);
      FirstMatchAt(s[1..], p, i - 1);
    }
  }

  /** Every stack holds at most `m` items: the invariant `add` keeps. */
  ghost predicate Bounded(s: Slots, m: nat)
  {
    forall j :: 0 <= j < |s| && s[j].Some? ==> s[j].value.quantity <= m
  }

  /** `[Some(default()); N]`. */
  function DefaultSlots(n: nat): (s: Slots)
    ensures |s| == n
  {
    seq(n, _ => Some(DefaultSlot))
  }

  /** The number of slots matching `p`. */
  function Count(s: Slots, p: Probe): nat
  {
    if s == [] then 0 else (if Matches(s[0], p) then 1 else 0) + Count(s[1..], p)
  }

  /** What one slot contributes to the number of `kind` items stored. */
  function Amount(slot: Option<InventorySlot>, kind: ItemKind): nat
  {
    if slot.Some? && slot.value.kind == kind then slot.value.quantity else 0
  }

  /** The number of `kind` items stored over all slots. */
  function Stored(s: Slots, kind: ItemKind): nat
  {
    if s == [] then 0 else Amount(s[0], kind) + Stored(s[1..], kind)
  }

  /** Overwriting one slot changes the count by that slot's contribution only. */
  lemma {:induction false} CountUpdate(s: Slots, i: nat, x: Option<InventorySlot>, p: Probe)
    requires i < |s|
    ensures Count(s[i := x], p)
      == Count(s, p) - (if Matches(s[i], p) then 1 else 0) + (if Matches(x, p) then 1 else 0)
  {
    if i > 0 {
      assert s[i := x][1..] == s[1..][i - 1 := x];
      CountUpdate(s[1..], i - 1, x, p);
    }
  }

  /** Overwriting one slot changes the stored amount by that slot's contribution only. */
  lemma {:induction false} StoredUpdate(s: Slots, i: nat, x: Option<InventorySlot>, kind: ItemKind)
    requires i < |s|
    ensures Stored(s[i := x], kind) == Stored(s, kind) - Amount(s[i], kind) + Amount(x, kind)
  {
    if i > 0 {
      assert s[i := x][1..] == s[1..][i - 1 := x];
      StoredUpdate(s[1..], i - 1, x, kind);
    }
  }

  lemma MulAtLeast(t: nat, m: nat)
    requires 1 <= t
    ensures t * m >= m
  {
    assert t * m == m + (t - 1) * m;
  }

  /** `q % m` is the only remainder below `m` that `q` leaves over a multiple of `m`. */
  lemma ModUnique(q: nat, m: nat, k: nat, r: nat)
    requires 0 < m && q == k * m + r && r < m
    ensures q % m == r
  {
    var k', r' := q / m, q % m;
    assert q == k' * m + r' && r' < m;
    if k' < k {
      assert k * m == k' * m + (k - k') * m;
      MulAtLeast(k - k', m);
    } else if k' > k {
      assert k' * m == k * m + (k' - k) * m;
      MulAtLeast(k' - k, m);
    }
  }

  /** Going `m` down from `q >= m` keeps the remainder modulo `m`. */
  lemma ModSubtract(q: nat, m: nat)
    requires 0 < m <= q
    ensures (q - m) % m == q % m
  {
    var k, r := q / m, q % m;
    assert q == k * m + r && r < m;
    assert k >= 1;
    assert q - m == (k - 1) * m + r;
    ModUnique(q - m, m, k - 1, r);
  }

  // ---------------------------------------------------------------------------
  // `add` and `retrieve`, as functions of the slots
  // ---------------------------------------------------------------------------

  /**
   * `add(kind, quantity)` on slots `s` with stack size `m`. The top-up pass
   * finds the first stack of `kind` not at exactly `m`; whatever it adds goes
   * to the clone, so that branch returns the slots untouched, after recursing
   * on `quantity - m` (a `usize` subtraction) when the stack would overflow.
   * Without such a stack, the first empty slot receives a full stack (and the
   * call recurses on the rest) or the whole quantity; with no empty slot either,
   * the result is `Overflow`.
   */
  function AddSpec(s: Slots, m: nat, kind: ItemKind, q: nat): (r: OpResult)
    requires 0 < m
    ensures |r.slots| == |s|
    ensures r.outcome != Returned(InvalidRetrieval)
    decreases q
  {
    match FirstMatch(s, TopUp(kind, m))
    case Some(i) =>
      var held := s[i].value.quantity;
      if held + q > USIZE_MAX then OpResult(s, Panicked)
      else if held + q > m then
        // `slot.quantity += M` (on the clone), then `quantity - M`
        if held + m > USIZE_MAX || q < m then OpResult(s, Panicked)
        else AddSpec(s, m, kind, q - m)
      else OpResult(s, Returned(NoError))
    case None =>
      match FirstMatch(s, Empty)
      case Some(i) =>
        if q > m then AddSpec(s[i := Some(InventorySlot(kind, m))], m, kind, q - m)
        else OpResult(s[i := Some(InventorySlot(kind, q))], Returned(NoError))
      case None => OpResult(s, Returned(Overflow))
  }

  /**
   * `retrieve(kind, quantity)` on slots `s` with stack size `m`. Only the first
   * stack of `kind` is ever looked at: when it holds less than asked, the call
   * recurses on `quantity - m` (a `usize` subtraction); otherwise it returns
   * `None`. Without a stack of `kind` the result is `InvalidRetrieval`.
   */
  function RetrieveSpec(s: Slots, m: nat, kind: ItemKind, q: nat): (r: Outcome)
    requires 0 < m
    ensures r != Returned(Overflow)
    decreases q
  {
    match FirstMatch(s, Holding(kind))
    case None => Returned(InvalidRetrieval)
    case Some(i) =>
      var held := s[i].value.quantity;
      if held < q then
        if q < m then Panicked else RetrieveSpec(s, m, kind, q - m)
      else Returned(NoError)
  }

  // ---------------------------------------------------------------------------
  // The inventory object
  // ---------------------------------------------------------------------------

  /** `Inventory<N, M>` with `N == slots.Length` and `M == slotSize`. */
  class Inventory {
    const slots: array<Option<InventorySlot>>
    const slotSize: nat

    /**
     * A stack size of zero would let `retrieve` recurse forever; `M` is a
     * `usize`, and no stack exceeds it.
     */
    ghost predicate Valid()
      reads slots
    {
      0 < slotSize <= USIZE_MAX && Bounded(slots[..], slotSize)
    }

    /** `Default::default()`: every slot holds `Some` of the default stack, none is empty. */
    constructor (n: nat, m: nat)
      requires 0 < m <= USIZE_MAX
      ensures Valid() && fresh(slots)
      ensures slotSize == m && slots[..] == DefaultSlots(n)
      ensures Count(slots[..], Empty) == 0
    {
      slotSize := m;
      slots := new Option<InventorySlot>[n](_ => Some(DefaultSlot));
      new;
      DefaultHasNoEmptySlot(n);
    }

    /** `add`: stores `quantity` items of `kind`, as `AddSpec` describes. */
    method Add(kind: ItemKind, quantity: nat) returns (r: Outcome)
      requires Valid() && quantity <= USIZE_MAX
      modifies slots
      ensures Valid()
      ensures OpResult(slots[..], r) == AddSpec(old(slots[..]), slotSize, kind, quantity)
      decreases quantity
    {
      ghost var before := slots[..];
      // Top-up pass over a copy of the slots: what it writes is never seen again.
      var snapshot := slots[..];
      var i := 0;
      while i < |snapshot|
        invariant 0 <= i <= |snapshot| == slots.Length
        invariant snapshot == slots[..] == before
        invariant forall j :: 0 <= j < i ==> !Matches(snapshot[j], TopUp(kind, slotSize))
      {
        if snapshot[i].Some? {
          var slot := snapshot[i].value;
          if slot.kind == kind && slot.quantity != slotSize {
            FirstMatchAt(snapshot, TopUp(kind, slotSize), i);
            TopUpStep(before, slotSize, kind, quantity, i);
            if slot.quantity + quantity > USIZE_MAX {
              return Panicked;
            }
            if slot.quantity + quantity > slotSize {
              if slot.quantity + slotSize > USIZE_MAX {
                return Panicked;
              }
              snapshot := snapshot[i := Some(slot.(quantity := slot.quantity + slotSize))];
              if quantity < slotSize {
                return Panicked;
              }
              r := Add(kind, quantity - slotSize);
              return;
            }
            snapshot := snapshot[i := Some(slot.(quantity := slot.quantity + quantity))];
            return Returned(NoError);
          }
        }
        i := i + 1;
      }
      FirstMatchNone(snapshot, TopUp(kind, slotSize));
      // Fill pass over the slots themselves.
      i := 0;
      while i < slots.Length
        invariant 0 <= i <= slots.Length
        invariant slots[..] == before
        invariant forall j :: 0 <= j < i ==> !Matches(slots[j], Empty)
      {
        if slots[i].None? {
          FirstMatchAt(before, Empty, i);
          FillStep(before, slotSize, kind, quantity, i);
          if quantity > slotSize {
            slots[i] := Some(InventorySlot(kind, slotSize));
            assert slots[..] == before[i := Some(InventorySlot(kind, slotSize))];
            r := Add(kind, quantity - slotSize);
            return;
          }
          slots[i] := Some(InventorySlot(kind, quantity));
          assert slots[..] == before[i := Some(InventorySlot(kind, quantity))];
          return Returned(NoError);
        }
        i := i + 1;
      }
      FirstMatchNone(slots[..], Empty);
      return Returned(Overflow);
    }

    /**
     * `retrieve`: answers as `RetrieveSpec` describes. Its walk is over a
     * copy of the slots and binds a copy of each stack, so it needs no
     * `modifies` clause: the inventory is provably left as it was.
     */
    method Retrieve(kind: ItemKind, quantity: nat) returns (r: Outcome)
      requires Valid() && quantity <= USIZE_MAX
      ensures r == RetrieveSpec(slots[..], slotSize, kind, quantity)
      decreases quantity
    {
      var snapshot := slots[..];
      var i := 0;
      while i < |snapshot|
        invariant 0 <= i <= |snapshot|
        invariant snapshot == slots[..]
        invariant forall j :: 0 <= j < i ==> !Matches(snapshot[j], Holding(kind))
      {
        if snapshot[i].Some? {
          var someSlot := snapshot[i].value;
          if someSlot.kind == kind {
            FirstMatchAt(snapshot, Holding(kind), i);
            RetrieveStep(snapshot, slotSize, kind, quantity, i);
            if someSlot.quantity < quantity {
              snapshot := snapshot[i := None];
              if quantity < slotSize {
                return Panicked;
              }
              r := Retrieve(kind, quantity - slotSize);
              return;
            }
            if someSlot.quantity == quantity {
              snapshot := snapshot[i := None];
              return Returned(NoError);
            }
            someSlot := someSlot.(quantity := someSlot.quantity - quantity);
            return Returned(NoError);
          }
        }
        i := i + 1;
      }
      FirstMatchNone(snapshot, Holding(kind));
      return Returned(InvalidRetrieval);
    }
  }

  /** The resource the plugin installs: `Inventory::<INVENTORY_SIZE, SLOT_SIZE>::default()`. */
  method PluginInventory() returns (inv: Inventory)
    ensures fresh(inv) && fresh(inv.slots) && inv.Valid()
    ensures inv.slots.Length == INVENTORY_SIZE && inv.slotSize == SLOT_SIZE
    ensures inv.slots[..] == DefaultSlots(INVENTORY_SIZE)
  {
    inv := new Inventory(INVENTORY_SIZE, SLOT_SIZE);
  }

  // ---------------------------------------------------------------------------
  // Properties of `add`
  // ---------------------------------------------------------------------------

  /** The default slots hold no empty slot. */
  lemma {:induction false} DefaultHasNoEmptySlot(n: nat)
    ensures Count(DefaultSlots(n), Empty) == 0
  {
    if n > 0 {
      assert DefaultSlots(n)[1..] == DefaultSlots(n - 1);
      DefaultHasNoEmptySlot(n - 1);
    }
  }

  /**
   * `add` changes only empty slots, each into a stack of `kind` holding at most
   * `m` items; every other slot keeps what it held.
   */
  lemma {:induction false} AddWrites(s: Slots, m: nat, kind: ItemKind, q: nat)
    requires 0 < m
    ensures forall j :: 0 <= j < |s| ==>
      AddSpec(s, m, kind, q).slots[j] == s[j] ||
      (s[j].None? && AddSpec(s, m, kind, q).slots[j] == Some(InventorySlot(kind, AddSpec(s, m, kind, q).slots[j].value.quantity))
       && AddSpec(s, m, kind, q).slots[j].value.quantity <= m)
    decreases q
  {
    match FirstMatch(s, TopUp(kind, m))
    case Some(i) =>
      var held := s[i].value.quantity;
      if held + q <= USIZE_MAX && held + q > m && held + m <= USIZE_MAX && q >= m {
        AddWrites(s, m, kind, q - m);
      }
    case None =>
      match FirstMatch(s, Empty)
      case Some(i) =>
        if q > m {
          var s' := s[i := Some(InventorySlot(kind, m))];
          AddWrites(s', m, kind, q - m);
        }
      case None =>
  }

  /** `add` keeps every stack at most `m` items. */
  lemma AddKeepsStacksBounded(s: Slots, m: nat, kind: ItemKind, q: nat)
    requires 0 < m && Bounded(s, m)
    ensures Bounded(AddSpec(s, m, kind, q).slots, m)
  {
    AddWrites(s, m, kind, q);
  }

  /**
   * When some stack of `kind` is below `m` (with `2m` within `usize`), `add`
   * never changes the slots and never reports `Overflow`. With `held` the first
   * such stack's quantity, it returns `None` exactly when `held + q mod m` fits
   * in a stack; otherwise a recursion reaches a quantity below `m` that still
   * overflows the stack, and `quantity - M` panics.
   */
  lemma {:induction false} AddOntoPartialStack(s: Slots, m: nat, kind: ItemKind, q: nat)
    requires 0 < m && m + m <= USIZE_MAX && Bounded(s, m)
    requires FirstMatch(s, TopUp(kind, m)).Some?
    ensures var held := s[FirstMatch(s, TopUp(kind, m)).value].value.quantity;
      AddSpec(s, m, kind, q) == OpResult(s,
        if held + q > USIZE_MAX then Panicked
        else if held + q % m <= m then Returned(NoError)
        else Panicked)
    decreases q
  {
    var i := FirstMatch(s, TopUp(kind, m)).value;
    var held := s[i].value.quantity;
    assert held < m;
    if held + q > USIZE_MAX {
    } else if q < m {
      ModUnique(q, m, 0, q);
    } else if held + q <= m {
      ModUnique(q, m, 1, 0);
      assert AddSpec(s, m, kind, q) == OpResult(s, Returned(NoError));
    } else {
      assert AddSpec(s, m, kind, q) == AddSpec(s, m, kind, q - m);
      AddOntoPartialStack(s, m, kind, q - m);
      ModSubtract(q, m);
    }
  }

  /** How many empty slots `add` fills to store `q` items in stacks of `m`. */
  function StacksNeeded(q: nat, m: nat): (k: nat)
    requires 0 < m
    ensures 1 <= k
    decreases q
  {
    if q <= m then 1 else 1 + StacksNeeded(q - m, m)
  }

  /** `StacksNeeded(q, m)` is the fewest stacks of at most `m` items that hold `q`, and at least one. */
  lemma {:induction false} StacksNeededIsFewest(q: nat, m: nat)
    requires 0 < m
    ensures q <= StacksNeeded(q, m) * m
    ensures (StacksNeeded(q, m) - 1) * m < q || StacksNeeded(q, m) == 1
    decreases q
  {
    if q > m {
      StacksNeededIsFewest(q - m, m);
      var k := StacksNeeded(q - m, m);
      assert (k + 1) * m == k * m + m;
      assert k * m == (k - 1) * m + m;
    }
  }

  /**
   * When no stack of `kind` can be topped up, `add` fills empty slots: it
   * needs `StacksNeeded(q, m)` of them and succeeds exactly when there are
   * that many, storing all `q` items. Otherwise it reports `Overflow` after
   * filling every empty slot with a full stack: there is no rollback.
   */
  lemma AddIntoEmptySlots(s: Slots, m: nat, kind: ItemKind, q: nat)
    requires 0 < m && FirstMatch(s, TopUp(kind, m)).None?
    ensures var r := AddSpec(s, m, kind, q);
      var fits := StacksNeeded(q, m) <= Count(s, Empty);
      && r.outcome == Returned(if fits then NoError else Overflow)
      && Stored(r.slots, kind) == Stored(s, kind) + (if fits then q else m * Count(s, Empty))
      && Count(r.slots, Empty) == (if fits then Count(s, Empty) - StacksNeeded(q, m) else 0)
  {
    FillCounts(s, m, kind, q);
    FillStores(s, m, kind, q);
    FullStacksIsProduct(Count(s, Empty), m);
  }

  /** The outcome and the empty slots left by the fill pass. */
  lemma {:induction false} FillCounts(s: Slots, m: nat, kind: ItemKind, q: nat)
    requires 0 < m && FirstMatch(s, TopUp(kind, m)).None?
    ensures var r := AddSpec(s, m, kind, q);
      var fits := StacksNeeded(q, m) <= Count(s, Empty);
      && r.outcome == Returned(if fits then NoError else Overflow)
      && Count(r.slots, Empty) == (if fits then Count(s, Empty) - StacksNeeded(q, m) else 0)
    decreases q
  {
    match FirstMatch(s, Empty)
    case Some(i) =>
      var x := Some(InventorySlot(kind, if q > m then m else q));
      FillStep(s, m, kind, q, i);
      if q > m {
        FillCounts(s[i := x], m, kind, q - m);
      }
    case None =>
      FirstMatchNone(s, Empty);
      NoMatchCountsZero(s, Empty);
  }

  /** The items in `e` full stacks of `m`, counted stack by stack. */
  function FullStacks(e: nat, m: nat): (n: nat)
  {
    if e == 0 then 0 else m + FullStacks(e - 1, m)
  }

  lemma {:induction false} FullStacksIsProduct(e: nat, m: nat)
    ensures FullStacks(e, m) == m * e
  {
    if e > 0 {
      FullStacksIsProduct(e - 1, m);
      assert m * e == m + m * (e - 1);
    }
  }

  /** The items of `kind` stored by the fill pass. */
  lemma {:induction false} FillStores(s: Slots, m: nat, kind: ItemKind, q: nat)
    requires 0 < m && FirstMatch(s, TopUp(kind, m)).None?
    ensures Stored(AddSpec(s, m, kind, q).slots, kind)
      == Stored(s, kind) + (if StacksNeeded(q, m) <= Count(s, Empty) then q else FullStacks(Count(s, Empty), m))
    decreases q
  {
    match FirstMatch(s, Empty)
    case Some(i) =>
      var x := Some(InventorySlot(kind, if q > m then m else q));
      FillStep(s, m, kind, q, i);
      if q > m {
        var s' := s[i := x];
        var e := Count(s', Empty);
        FillStores(s', m, kind, q - m);
        assert Count(s, Empty) == e + 1;
        assert StacksNeeded(q, m) == StacksNeeded(q - m, m) + 1;
        assert FullStacks(e + 1, m) == m + FullStacks(e, m);
      }
    case None =>
      FirstMatchNone(s, Empty);
      NoMatchCountsZero(s, Empty);
  }

  /** One step of the top-up pass: the first stack of `kind` below `m` decides the outcome. */
  lemma TopUpStep(s: Slots, m: nat, kind: ItemKind, q: nat, i: nat)
    requires 0 < m && FirstMatch(s, TopUp(kind, m)) == Some(i)
    ensures var held := s[i].value.quantity;
      AddSpec(s, m, kind, q) ==
        if held + q > USIZE_MAX then OpResult(s, Panicked)
        else if held + q <= m then OpResult(s, Returned(NoError))
        else if held + m > USIZE_MAX || q < m then OpResult(s, Panicked)
        else AddSpec(s, m, kind, q - m)
  {
  }

  /** One step of the fill pass: the first empty slot receives a stack of `kind`. */
  lemma FillStep(s: Slots, m: nat, kind: ItemKind, q: nat, i: nat)
    requires 0 < m && FirstMatch(s, TopUp(kind, m)).None? && FirstMatch(s, Empty) == Some(i)
    ensures var x := Some(InventorySlot(kind, if q > m then m else q));
      && AddSpec(s, m, kind, q) == (if q > m then AddSpec(s[i := x], m, kind, q - m) else OpResult(s[i := x], Returned(NoError)))
      && Count(s[i := x], Empty) + 1 == Count(s, Empty)
      && Stored(s[i := x], kind) == Stored(s, kind) + (if q > m then m else q)
      && (q > m ==> FirstMatch(s[i := x], TopUp(kind, m)).None?)
  {
    var x := Some(InventorySlot(kind, if q > m then m else q));
    CountUpdate(s, i, x, Empty);
    StoredUpdate(s, i, x, kind);
    if q > m {
      FirstMatchNone(s, TopUp(kind, m));
      FirstMatchNone(s[i := x], TopUp(kind, m));
    }
  }

  /** No matching slot means a count of zero. */
  lemma {:induction false} NoMatchCountsZero(s: Slots, p: Probe)
    requires forall j :: 0 <= j < |s| ==> !Matches(s[j], p)
    ensures Count(s, p) == 0
  {
    if s != [] {
      NoMatchCountsZero(s[1..], p);
    }
  }

  /** With no top-up stack, a quantity of at most `m` lands whole in the first empty slot. */
  lemma AddFillsFirstEmptySlot(s: Slots, m: nat, kind: ItemKind, q: nat)
    requires 0 < m && q <= m
    requires FirstMatch(s, TopUp(kind, m)).None? && FirstMatch(s, Empty).Some?
    ensures AddSpec(s, m, kind, q)
      == OpResult(s[FirstMatch(s, Empty).value := Some(InventorySlot(kind, q))], Returned(NoError))
  {
  }

  /**
   * On the default inventory `add` never changes anything: the default kind
   * tops up the first zero stack and returns `None`; any other kind finds
   * neither a stack of its own nor an empty slot and returns `Overflow`.
   */
  lemma DefaultAdd(n: nat, m: nat, kind: ItemKind, q: nat)
    requires 0 < m && m + m <= USIZE_MAX && q <= USIZE_MAX
    ensures AddSpec(DefaultSlots(n), m, kind, q)
      == OpResult(DefaultSlots(n), Returned(if n > 0 && kind == DefaultKind then NoError else Overflow))
  {
    var s := DefaultSlots(n);
    if n > 0 && kind == DefaultKind {
      assert Matches(s[0], TopUp(kind, m));
      assert FirstMatch(s, TopUp(kind, m)) == Some(0);
      AddOntoPartialStack(s, m, kind, q);
    } else {
      assert FirstMatch(s, TopUp(kind, m)).None?;
      assert FirstMatch(s, Empty).None?;
    }
  }

  // ---------------------------------------------------------------------------
  // Properties of `retrieve`
  // ---------------------------------------------------------------------------

  /** One step of `retrieve`: the first stack of `kind` decides the outcome. */
  lemma RetrieveStep(s: Slots, m: nat, kind: ItemKind, q: nat, i: nat)
    requires 0 < m && FirstMatch(s, Holding(kind)) == Some(i)
    ensures RetrieveSpec(s, m, kind, q) ==
      if s[i].value.quantity >= q then Returned(NoError)
      else if q < m then Panicked
      else RetrieveSpec(s, m, kind, q - m)
  {
  }

  /**
   * `retrieve` reports `InvalidRetrieval` exactly when no stack holds `kind`.
   * Otherwise, with `held` the first such stack's quantity, it returns `None`
   * when `held >= m` or `q mod m <= held`, and panics on `quantity - M`
   * otherwise.
   */
  lemma {:induction false} RetrieveOutcome(s: Slots, m: nat, kind: ItemKind, q: nat)
    requires 0 < m
    ensures RetrieveSpec(s, m, kind, q) == Returned(InvalidRetrieval)
      <==> forall j :: 0 <= j < |s| ==> !Matches(s[j], Holding(kind))
    ensures FirstMatch(s, Holding(kind)).Some? ==>
      var held := s[FirstMatch(s, Holding(kind)).value].value.quantity;
      RetrieveSpec(s, m, kind, q) == if held >= m || q % m <= held then Returned(NoError) else Panicked
    decreases q
  {
    FirstMatchNone(s, Holding(kind));
    match FirstMatch(s, Holding(kind))
    case None =>
    case Some(i) =>
      var held := s[i].value.quantity;
      if q < m {
        ModUnique(q, m, 0, q);
      } else if held < q {
        RetrieveOutcome(s, m, kind, q - m);
        ModSubtract(q, m);
      }
  }

  /**
   * On the default inventory, `retrieve` of the default kind returns `None`
   * only for multiples of `m` and panics otherwise; any other kind is an
   * `InvalidRetrieval`.
   */
  lemma DefaultRetrieve(n: nat, m: nat, kind: ItemKind, q: nat)
    requires 0 < m
    ensures RetrieveSpec(DefaultSlots(n), m, kind, q)
      == if n > 0 && kind == DefaultKind then (if q % m == 0 then Returned(NoError) else Panicked)
         else Returned(InvalidRetrieval)
  {
    var s := DefaultSlots(n);
    if n > 0 && kind == DefaultKind {
      assert Matches(s[0], Holding(kind));
      assert FirstMatch(s, Holding(kind)) == Some(0);
    }
    RetrieveOutcome(s, m, kind, q);
  }

  // ---------------------------------------------------------------------------
  // Inputs on which the code as written loses or refuses items
  // ---------------------------------------------------------------------------

  /**
   * Adding 5 Dirt to a stack of 10 reports `None`, yet the stack still holds
   * 10: the top-up went to the clone. Adding 10 Dirt to a stack of 60 panics:
   * the stack would overflow, and `10 - 64` underflows.
   */
  lemma AddOnPartialStackLosesItems()
    ensures var s := [Some(InventorySlot(ItemKind.Dirt, 10))];
      AddSpec(s, SLOT_SIZE, ItemKind.Dirt, 5) == OpResult(s, Returned(NoError))
      && Stored(AddSpec(s, SLOT_SIZE, ItemKind.Dirt, 5).slots, ItemKind.Dirt) == 10
    ensures var s := [Some(InventorySlot(ItemKind.Dirt, 60)), None];
      AddSpec(s, SLOT_SIZE, ItemKind.Dirt, 10) == OpResult(s, Panicked)
  {
    var s := [Some(InventorySlot(ItemKind.Dirt, 10))];
    FirstMatchAt(s, TopUp(ItemKind.Dirt, SLOT_SIZE), 0);
    var t := [Some(InventorySlot(ItemKind.Dirt, 60)), None];
    FirstMatchAt(t, TopUp(ItemKind.Dirt, SLOT_SIZE), 0);
  }

  /**
   * Retrieving 5 Dirt from a stack of 10 reports `None`, and `Retrieve`, which
   * modifies nothing, leaves all 10 in place. Retrieving 20 Dirt from stacks of
   * 10 and 64 panics although 74 are stored: the first stack is too small and
   * `20 - 64` underflows.
   */
  lemma RetrieveKeepsItemsOrPanics()
    ensures var s := [Some(InventorySlot(ItemKind.Dirt, 10))];
      RetrieveSpec(s, SLOT_SIZE, ItemKind.Dirt, 5) == Returned(NoError)
    ensures var s := [Some(InventorySlot(ItemKind.Dirt, 10)), Some(InventorySlot(ItemKind.Dirt, 64))];
      Stored(s, ItemKind.Dirt) == 74 && RetrieveSpec(s, SLOT_SIZE, ItemKind.Dirt, 20) == Panicked
  {
    var s := [Some(InventorySlot(ItemKind.Dirt, 10))];
    FirstMatchAt(s, Holding(ItemKind.Dirt), 0);
    var t := [Some(InventorySlot(ItemKind.Dirt, 10)), Some(InventorySlot(ItemKind.Dirt, 64))];
    FirstMatchAt(t, Holding(ItemKind.Dirt), 0);
    assert t[1..][1..] == [];
  }
}
