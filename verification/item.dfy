/**
 * The item router: the effective-status calculator that derives what the
 * catalog shows from an item's stored status and its bookings, the catalog
 * reads, and the owner's create and update of an item.
 */
module ItemRouter {
  import opened Common
  import opened Dates
  import opened Schema
  import LoanRouter

  // ---------------------------------------------------------------------------
  // Effective status

  /** The test inside `hasActiveReservationToday`: a holding loan whose range, both ends truncated to their day, contains `today`. */
  predicate ActiveOn(l: Loan, today: int) {
    && l.reservedStartDate.Some? && l.reservedEndDate.Some? && Holding(l.status)
    && Day(l.reservedStartDate.value) <= today <= Day(l.reservedEndDate.value)
  }

  /** `hasActiveReservationToday` (lines 13-39): some loan of the item is active on the day of `now`. */
  function HasActiveReservationToday(itemLoans: seq<Loan>, now: int): (b: bool)
    ensures b <==> exists i :: 0 <= i < |itemLoans| && ActiveOn(itemLoans[i], Day(now))
  {
    var today := Day(now);
    AnyOf(itemLoans, l => ActiveOn(l, today))
  }

  /**
   * `computeEffectiveStatus` (lines 44-63): a borrowed or unavailable item keeps
   * its status; an available one shows as unavailable while a booking covers today.
   */
  function ComputeEffectiveStatus(status: ItemStatus, itemLoans: seq<Loan>, now: int): (r: ItemStatus)
    ensures r == Borrowed <==> status == Borrowed
    ensures r == Available <==> status == Available && forall i :: 0 <= i < |itemLoans| ==> !ActiveOn(itemLoans[i], Day(now))
    ensures r == Unavailable <==> status == Unavailable || exists i :: 0 <= i < |itemLoans| && status == Available && ActiveOn(itemLoans[i], Day(now))
  {
    if status == Borrowed || status == Unavailable then status
    else if status == Available && HasActiveReservationToday(itemLoans, now) then Unavailable
    else status
  }

  /** The status the owner stored is the most the calculator can hide: it only ever turns `available` into `unavailable`. */
  lemma EffectiveStatusOnlyRestricts(status: ItemStatus, itemLoans: seq<Loan>, now: int)
    ensures var r := ComputeEffectiveStatus(status, itemLoans, now);
      r == status || (status == Available && r == Unavailable)
  {
  }

  /** The derived status is a fixed point: deriving again from the derived status changes nothing. */
  lemma EffectiveStatusIdempotent(status: ItemStatus, itemLoans: seq<Loan>, now: int)
    ensures var r := ComputeEffectiveStatus(status, itemLoans, now);
      ComputeEffectiveStatus(r, itemLoans, now) == r
  {
  }

  /** Loans in a terminal status or without both dates never affect the derived status. */
  lemma {:induction false} ReleasedLoansIgnored(status: ItemStatus, itemLoans: seq<Loan>, extra: seq<Loan>, now: int)
    requires forall j :: 0 <= j < |extra| ==> !Holding(extra[j].status) || extra[j].reservedStartDate.None? || extra[j].reservedEndDate.None?
    ensures ComputeEffectiveStatus(status, itemLoans + extra, now) == ComputeEffectiveStatus(status, itemLoans, now)
  {
    var all := itemLoans + extra;
    forall i | 0 <= i < |all| && ActiveOn(all[i], Day(now))
      ensures exists k :: 0 <= k < |itemLoans| && ActiveOn(itemLoans[k], Day(now))
    {
      if i < |itemLoans| {
        assert all[i] == itemLoans[i];
      }
    }
    forall k | 0 <= k < |itemLoans| && ActiveOn(itemLoans[k], Day(now))
      ensures exists i :: 0 <= i < |all| && ActiveOn(all[i], Day(now))
    {
      assert all[k] == itemLoans[k];
    }
  }

  /** More bookings never make an item look more available. */
  lemma {:induction false} EffectiveStatusMonotone(status: ItemStatus, itemLoans: seq<Loan>, extra: seq<Loan>, now: int)
    ensures ComputeEffectiveStatus(status, itemLoans, now) == Unavailable ==>
            ComputeEffectiveStatus(status, itemLoans + extra, now) == Unavailable
  {
    if ComputeEffectiveStatus(status, itemLoans, now) == Unavailable && status == Available {
      var k :| 0 <= k < |itemLoans| && ActiveOn(itemLoans[k], Day(now));
      assert (itemLoans + extra)[k] == itemLoans[k];
    }
  }

  /**
   * An active loan over yesterday..tomorrow makes an available item
   * unavailable; the same loan five to seven days ahead does not.
   */
  lemma {:induction false} EffectiveStatusExamples(l: Loan, now: int)
    requires l.status == Active
    ensures ComputeEffectiveStatus(Available,
              [l.(reservedStartDate := Some(now - DayMs), reservedEndDate := Some(now + DayMs))], now) == Unavailable
    ensures ComputeEffectiveStatus(Available,
              [l.(reservedStartDate := Some(now + 5 * DayMs), reservedEndDate := Some(now + 7 * DayMs))], now) == Available
  {
    var near := l.(reservedStartDate := Some(now - DayMs), reservedEndDate := Some(now + DayMs));
    DayNext(now - DayMs);
    DayNext(now);
    assert ActiveOn([near][0], Day(now));
    var far := l.(reservedStartDate := Some(now + 5 * DayMs), reservedEndDate := Some(now + 7 * DayMs));
    DayMonotone(now + DayMs, now + 5 * DayMs);
    assert !ActiveOn([far][0], Day(now));
  }

  /** The `loans` relation the catalog loads with an item: every loan on it. */
  function LoansOf(loans: seq<Loan>, itemId: ItemId): (r: seq<Loan>)
    ensures forall i :: 0 <= i < |r| ==> r[i] in loans && r[i].itemId == itemId
    ensures forall i :: 0 <= i < |loans| && loans[i].itemId == itemId ==> loans[i] in r
  {
    Filter(loans, (l: Loan) => l.itemId == itemId)
  }

  /** A caller who holds a reservation covering today (the loan router's read) sees the item as unavailable, if it was available. */
  lemma CurrentReservationMakesUnavailable(loans: seq<Loan>, itemId: ItemId, caller: UserId, now: int)
    requires LoanRouter.CurrentUserReservation(loans, itemId, caller, now).Some?
    ensures ComputeEffectiveStatus(Available, LoansOf(loans, itemId), now) == Unavailable
  {
    var l := LoanRouter.CurrentUserReservation(loans, itemId, caller, now).value;
    var own := LoansOf(loans, itemId);
    assert l in own;
    var k :| 0 <= k < |own| && own[k] == l;
    assert ActiveOn(own[k], Day(now));
  }

  // ---------------------------------------------------------------------------
  // Catalog reads

  /** An item as the catalog returns it: the row and its derived status. */
  datatype ItemView = ItemView(item: Item, effectiveStatus: ItemStatus)

  /** `ORDER BY createdAt DESC`: newest item first. */
  function NewestItemFirst(it: Item): int {
    -it.createdAt
  }

  function ViewKey(v: ItemView): int {
    NewestItemFirst(v.item)
  }

  /** The item rows of a catalog answer, in order. */
  function ItemsOf(vs: seq<ItemView>): (r: seq<Item>)
    ensures |r| == |vs| && forall i :: 0 <= i < |vs| ==> r[i] == vs[i].item
  {
    seq(|vs|, i requires 0 <= i < |vs| => vs[i].item)
  }

  /** Attaches its derived status to each row, keeping the order. */
  function WithStatus(rows: seq<Item>, loans: seq<Loan>, now: int): (r: seq<ItemView>)
    ensures |r| == |rows|
    ensures forall i :: 0 <= i < |r| ==> r[i].item == rows[i]
    ensures forall i :: 0 <= i < |r| ==> r[i].effectiveStatus == ComputeEffectiveStatus(rows[i].status, LoansOf(loans, rows[i].id), now)
    ensures ItemsOf(r) == rows
  {
    if rows == [] then []
    else [ItemView(rows[0], ComputeEffectiveStatus(rows[0].status, LoansOf(loans, rows[0].id), now))] + WithStatus(rows[1..], loans, now)
  }

  /** The rows of a catalog query: the items satisfying `keep`, newest first. */
  function CatalogRows(items: seq<Item>, keep: Item -> bool): (r: seq<Item>)
    ensures SortedBy(r, NewestItemFirst)
    ensures forall i :: 0 <= i < |r| ==> r[i] in items && keep(r[i])
    ensures forall i :: 0 <= i < |items| && keep(items[i]) ==> items[i] in r
    ensures multiset(r) <= multiset(items)
    ensures forall i :: 0 <= i < |items| && keep(items[i]) ==> multiset(r)[items[i]] == multiset(items)[items[i]]
  {
    var kept := Filter(items, keep);
    var r := SortBy(kept, NewestItemFirst);
    SameElements(kept, r);
    PermutedFilterCounts(items, keep, r);
    r
  }

  /** The items satisfying `keep`, newest first, each with its derived status. */
  function Catalog(items: seq<Item>, loans: seq<Loan>, keep: Item -> bool, now: int): (r: seq<ItemView>)
    ensures SortedBy(r, ViewKey)
    ensures forall i :: 0 <= i < |r| ==> r[i].item in items && keep(r[i].item)
    ensures forall i :: 0 <= i < |items| && keep(items[i]) ==> exists j :: 0 <= j < |r| && r[j].item == items[i]
    ensures forall i :: 0 <= i < |r| ==> r[i].effectiveStatus == ComputeEffectiveStatus(r[i].item.status, LoansOf(loans, r[i].item.id), now)
    ensures multiset(ItemsOf(r)) <= multiset(items)
    ensures forall i :: 0 <= i < |items| && keep(items[i]) ==> multiset(ItemsOf(r))[items[i]] == multiset(items)[items[i]]
  {
    var rows := CatalogRows(items, keep);
    var r := WithStatus(rows, loans, now);
    ViewsFollowRows(items, keep, rows, r);
    r
  }

  /** Views taken row by row from the catalog rows keep their order and miss none of the kept items. */
  lemma ViewsFollowRows(items: seq<Item>, keep: Item -> bool, rows: seq<Item>, r: seq<ItemView>)
    requires SortedBy(rows, NewestItemFirst)
    requires forall i :: 0 <= i < |items| && keep(items[i]) ==> items[i] in rows
    requires ItemsOf(r) == rows
    ensures SortedBy(r, ViewKey)
    ensures forall i :: 0 <= i < |items| && keep(items[i]) ==> exists j :: 0 <= j < |r| && r[j].item == items[i]
  {
    forall i, j | 0 <= i < j < |r| ensures ViewKey(r[i]) <= ViewKey(r[j]) {
      assert NewestItemFirst(rows[i]) <= NewestItemFirst(rows[j]);
    }
    forall i | 0 <= i < |items| && keep(items[i]) ensures exists j :: 0 <= j < |r| && r[j].item == items[i] {
      var j :| 0 <= j < |rows| && rows[j] == items[i];
      assert r[j].item == items[i];
    }
  }

  predicate Listed(it: Item) {
    it.isListed
  }

  predicate OwnedBy(it: Item, ownerId: UserId) {
    it.ownerId == ownerId
  }

  /** `all` (lines 66-83): the listed items, newest first, each with its derived status. */
  function All(items: seq<Item>, loans: seq<Loan>, now: int): (r: seq<ItemView>)
    ensures SortedBy(r, ViewKey)
    ensures forall i :: 0 <= i < |r| ==> r[i].item in items && r[i].item.isListed
    ensures forall i :: 0 <= i < |items| && items[i].isListed ==> exists j :: 0 <= j < |r| && r[j].item == items[i]
    ensures forall i :: 0 <= i < |r| ==> r[i].effectiveStatus == ComputeEffectiveStatus(r[i].item.status, LoansOf(loans, r[i].item.id), now)
    ensures multiset(ItemsOf(r)) <= multiset(items)
    ensures forall i :: 0 <= i < |items| && items[i].isListed ==> multiset(ItemsOf(r))[items[i]] == multiset(items)[items[i]]
  {
    Catalog(items, loans, Listed, now)
  }

  /** `byOwner` (lines 108-127): all of an owner's items, listed or not, newest first, each with its derived status. */
  function ByOwner(items: seq<Item>, loans: seq<Loan>, ownerId: UserId, now: int): (r: seq<ItemView>)
    ensures SortedBy(r, ViewKey)
    ensures forall i :: 0 <= i < |r| ==> r[i].item in items && r[i].item.ownerId == ownerId
    ensures forall i :: 0 <= i < |items| && items[i].ownerId == ownerId ==> exists j :: 0 <= j < |r| && r[j].item == items[i]
    ensures forall i :: 0 <= i < |r| ==> r[i].effectiveStatus == ComputeEffectiveStatus(r[i].item.status, LoansOf(loans, r[i].item.id), now)
    ensures multiset(ItemsOf(r)) <= multiset(items)
    ensures forall i :: 0 <= i < |items| && items[i].ownerId == ownerId ==> multiset(ItemsOf(r))[items[i]] == multiset(items)[items[i]]
  {
    Catalog(items, loans, it => OwnedBy(it, ownerId), now)
  }

  /** `byId` (lines 85-106): the item with its derived status, or null for an unknown id. */
  function ById(items: seq<Item>, loans: seq<Loan>, id: ItemId, now: int): (r: Option<ItemView>)
    ensures r.None? <==> id >= |items|
    ensures r.Some? ==> r.value.item == items[id] &&
                        r.value.effectiveStatus == ComputeEffectiveStatus(items[id].status, LoansOf(loans, items[id].id), now)
  {
    if id >= |items| then None
    else Some(ItemView(items[id], ComputeEffectiveStatus(items[id].status, LoansOf(loans, items[id].id), now)))
  }

  // ---------------------------------------------------------------------------
  // create and update

  /** The input of `create`: every column but the id, the owner and the timestamps. */
  datatype NewItem = NewItem(
    title: string,
    description: string,
    category: Option<string>,
    imageUrl: Option<string>,
    requiresApproval: bool,
    status: ItemStatus)

  /**
   * The input of `update`: `None` leaves a column as it is. The two nullable
   * columns take `Some(None)` for an explicit null.
   */
  datatype ItemChanges = ItemChanges(
    title: Option<string>,
    description: Option<string>,
    category: Option<Option<string>>,
    imageUrl: Option<Option<string>>,
    requiresApproval: Option<bool>,
    status: Option<ItemStatus>,
    isListed: Option<bool>)

  function Or<T>(o: Option<T>, keep: T): T {
    if o.Some? then o.value else keep
  }

  /** The row `create` (lines 129-140) inserts: the input, owned by the caller, listed, stamped `now`. */
  function CreateItem(items: seq<Item>, caller: UserId, input: NewItem, now: int): (it: Item)
    ensures it.id == |items| && it.ownerId == caller && it.isListed
    ensures it.createdAt == now && it.updatedAt == now
    ensures it.title == input.title && it.description == input.description && it.category == input.category
    ensures it.imageUrl == input.imageUrl && it.requiresApproval == input.requiresApproval && it.status == input.status
  {
    Item(|items|, caller, input.title, input.description, input.category, input.imageUrl,
         input.requiresApproval, input.status, true, now, now)
  }

  /** The drizzle `.set(input.data)` branch: each given column is written, the rest kept. */
  function Apply(it: Item, data: ItemChanges, now: int): Item {
    it.(title := Or(data.title, it.title),
        description := Or(data.description, it.description),
        category := Or(data.category, it.category),
        imageUrl := Or(data.imageUrl, it.imageUrl),
        requiresApproval := Or(data.requiresApproval, it.requiresApproval),
        status := Or(data.status, it.status),
        isListed := Or(data.isListed, it.isListed),
        updatedAt := now)
  }

  /**
   * `update` (lines 142-200): NOT_FOUND, FORBIDDEN for anyone but the owner;
   * a change of `isListed` is written on its own, anything else column by column.
   */
  function UpdateItem(items: seq<Item>, caller: UserId, id: ItemId, data: ItemChanges, now: int): (r: Result<Item>)
    ensures r == Err(NotFound) <==> id >= |items|
    ensures r == Err(Forbidden) <==> id < |items| && items[id].ownerId != caller
    ensures r.Ok? <==> id < |items| && items[id].ownerId == caller
  {
    if id >= |items| then Err(NotFound)
    else if items[id].ownerId != caller then Err(Forbidden)
    else if data.isListed.Some? then Ok(items[id].(isListed := data.isListed.value, updatedAt := now))
    else Ok(Apply(items[id], data, now))
  }

  /** An update never changes who owns an item, its id or its creation time, and stamps it `now`. */
  lemma UpdateKeepsIdentity(items: seq<Item>, caller: UserId, id: ItemId, data: ItemChanges, now: int)
    requires UpdateItem(items, caller, id, data, now).Ok?
    ensures var it := UpdateItem(items, caller, id, data, now).value;
      it.id == items[id].id && it.ownerId == items[id].ownerId == caller &&
      it.createdAt == items[id].createdAt && it.updatedAt == now
  {
  }

  /**
   * When a request sets `isListed`, every other column it carries is dropped:
   * the row differs from the stored one only in `isListed` and `updatedAt`.
   */
  lemma ListingUpdateDropsOtherColumns(items: seq<Item>, caller: UserId, id: ItemId, data: ItemChanges, now: int)
    requires UpdateItem(items, caller, id, data, now).Ok? && data.isListed.Some?
    ensures UpdateItem(items, caller, id, data, now).value ==
            items[id].(isListed := data.isListed.value, updatedAt := now)
  {
  }

  /** Without `isListed`, the update agrees with writing the columns one by one, and writing them again changes nothing but the time stamp. */
  lemma ColumnUpdateIdempotent(items: seq<Item>, caller: UserId, id: ItemId, data: ItemChanges, now: int, later: int)
    requires UpdateItem(items, caller, id, data, now).Ok? && data.isListed.None?
    ensures var it := UpdateItem(items, caller, id, data, now).value;
      it == Apply(items[id], data, now) && Apply(it, data, later) == it.(updatedAt := later)
  {
  }

  // ---------------------------------------------------------------------------
  // The items table

  class ItemTable {
    var items: seq<Item>

    /** Row ids are positions. */
    ghost predicate Valid()
      reads this
    {
      forall i :: 0 <= i < |items| ==> items[i].id == i
    }

    constructor ()
      ensures Valid() && items == []
    {
      items := [];
    }

    method Create(caller: UserId, input: NewItem, now: int) returns (it: Item)
      requires Valid()
      modifies this
      ensures Valid()
      ensures it == CreateItem(old(items), caller, input, now)
      ensures items == old(items) + [it]
    {
      it := Item(|items|, caller, input.title, input.description, input.category, input.imageUrl,
                 input.requiresApproval, input.status, true, now, now);
      items := items + [it];
    }

    method Update(caller: UserId, id: ItemId, data: ItemChanges, now: int) returns (r: Result<Item>)
      requires Valid()
      modifies this
      ensures Valid()
      ensures r == UpdateItem(old(items), caller, id, data, now)
      ensures items == if r.Ok? then old(items)[id := r.value] else old(items)
    {
      if id >= |items| {
        return Err(NotFound);
      }
      var item := items[id];
      if item.ownerId != caller {
        return Err(Forbidden);
      }
      var updated;
      if data.isListed.Some? {
        updated := item.(isListed := data.isListed.value, updatedAt := now);
      } else {
        updated := item;
        if data.title.Some? { updated := updated.(title := data.title.value); }
        if data.description.Some? { updated := updated.(description := data.description.value); }
        if data.category.Some? { updated := updated.(category := data.category.value); }
        if data.imageUrl.Some? { updated := updated.(imageUrl := data.imageUrl.value); }
        if data.requiresApproval.Some? { updated := updated.(requiresApproval := data.requiresApproval.value); }
        if data.status.Some? { updated := updated.(status := data.status.value); }
        updated := updated.(updatedAt := now);
      }
      items := items[id := updated];
      r := Ok(updated);
    }
  }
}
