/** The shop page: the list of purchased items kept in the browser's local
    storage, and the rule that enables or disables a purchase button
    (frontend/js/shop.js). */
module ShopClient {
  import opened Common
  import ShopController
  import Users

  /** One entry of the stored inventory; the time stamps are the ISO strings
      the page writes, passed in by the caller. */
  datatype PurchasedItem = PurchasedItem(itemId: string, purchasedAt: string, used: bool, usedAt: Option<string>)

  /** An entry still waiting to be used for the item `id`. */
  predicate Waiting(x: PurchasedItem, id: string) {
    x.itemId == id && !x.used
  }

  /** The unused entries, in stored order. */
  function Unused(items: seq<PurchasedItem>): (r: seq<PurchasedItem>)
    ensures forall x :: x in r <==> x in items && !x.used
  {
    var r := Filter(items, (x: PurchasedItem) => !x.used);
    forall x | x in items && !x.used
      ensures x in r
    {
      FilterComplete(items, (x: PurchasedItem) => !x.used, x);
    }
    r
  }

  /** How many unused entries the inventory holds for `id`. */
  function CountWaiting(items: seq<PurchasedItem>, id: string): nat {
    if items == [] then 0 else (if Waiting(items[0], id) then 1 else 0) + CountWaiting(items[1..], id)
  }

  /** `findIndex` for the first unused entry of `id`, with -1 for none. */
  function FirstWaiting(items: seq<PurchasedItem>, id: string): (i: int)
    ensures -1 <= i < |items|
    ensures i >= 0 ==> Waiting(items[i], id) && forall j :: 0 <= j < i ==> !Waiting(items[j], id)
    ensures i == -1 <==> forall j :: 0 <= j < |items| ==> !Waiting(items[j], id)
  {
    if items == [] then -1
    else if Waiting(items[0], id) then 0
    else
      var k := FirstWaiting(items[1..], id);
      if k == -1 then -1 else k + 1
  }

  /** The entry after it has been used at `stamp`. */
  function Marked(x: PurchasedItem, stamp: string): PurchasedItem {
    x.(used := true, usedAt := Some(stamp))
  }

  /** No entry waiting means a zero count. */
  lemma {:induction false} NoneWaitingCountsZero(items: seq<PurchasedItem>, id: string)
    requires forall j :: 0 <= j < |items| ==> !Waiting(items[j], id)
    ensures CountWaiting(items, id) == 0
  {
    if items != [] {
      NoneWaitingCountsZero(items[1..], id);
    }
  }

  /** Marking a waiting entry takes exactly one off the count for its item
      and leaves the count of every other item alone. */
  lemma {:induction false} MarkCounts(items: seq<PurchasedItem>, i: nat, stamp: string)
    requires i < |items| && !items[i].used
    ensures CountWaiting(items[i := Marked(items[i], stamp)], items[i].itemId) == CountWaiting(items, items[i].itemId) - 1
    ensures forall other :: other != items[i].itemId ==>
              CountWaiting(items[i := Marked(items[i], stamp)], other) == CountWaiting(items, other)
  {
    var after := items[i := Marked(items[i], stamp)];
    if i == 0 {
      assert after[1..] == items[1..];
    } else {
      assert after[1..] == items[1..][i - 1 := Marked(items[i], stamp)];
      MarkCounts(items[1..], i - 1, stamp);
    }
  }

  /** The list after `markItemAsUsed(id)`: the first waiting entry of `id` is
      marked, every other entry is kept, and so the count for `id` drops by
      one while the other counts stay; with no waiting entry the list is
      kept as it is. */
  function AfterMark(items: seq<PurchasedItem>, id: string, stamp: string): (r: seq<PurchasedItem>)
    ensures |r| == |items|
    ensures FirstWaiting(items, id) == -1 ==> r == items && CountWaiting(items, id) == 0
    ensures (FirstWaiting(items, id) >= 0 ==>
              && r[FirstWaiting(items, id)] == Marked(items[FirstWaiting(items, id)], stamp)
              && (forall j :: 0 <= j < |items| && j != FirstWaiting(items, id) ==> r[j] == items[j])
              && CountWaiting(r, id) == CountWaiting(items, id) - 1)
    ensures forall other :: other != id ==> CountWaiting(r, other) == CountWaiting(items, other)
  {
    var i := FirstWaiting(items, id);
    if i == -1 then
      NoneWaitingCountsZero(items, id);
      items
    else
      MarkCounts(items, i, stamp);
      items[i := Marked(items[i], stamp)]
  }

  /** The unused view of two stretches of the list is the unused view of the
      first followed by that of the second; with `UnusedOfOne` this fixes the
      view as the unused entries in stored order, repeats included. */
  lemma UnusedSplits(a: seq<PurchasedItem>, b: seq<PurchasedItem>)
    ensures Unused(a + b) == Unused(a) + Unused(b)
  {
    FilterAppend(a, b, (x: PurchasedItem) => !x.used);
  }

  /** A single entry is listed exactly when it is unused. */
  lemma UnusedOfOne(x: PurchasedItem)
    ensures Unused([x]) == if x.used then [] else [x]
  {
    assert [x][1..] == [];
  }

  /** Appending an unused entry appends it to the unused view as well. */
  lemma AppendedIsListed(items: seq<PurchasedItem>, x: PurchasedItem)
    requires !x.used
    ensures Unused(items + [x]) == Unused(items) + [x]
  {
    FilterAppend(items, [x], (x: PurchasedItem) => !x.used);
    assert Filter([x], (x: PurchasedItem) => !x.used) == [x] by {
      assert [x][1..] == [];
    }
  }

  /** The stored list of purchased items (the `purchasedItems` key, an empty
      list when absent). */
  class Inventory {
    var items: seq<PurchasedItem>

    constructor ()
      ensures items == []
    {
      items := [];
    }

    /** `applyItemEffect`: one new unused entry at the end. */
    method ApplyItemEffect(itemId: string, stamp: string)
      modifies this
      ensures items == old(items) + [PurchasedItem(itemId, stamp, false, None)]
      ensures GetPurchasedItems() == old(GetPurchasedItems()) + [PurchasedItem(itemId, stamp, false, None)]
    {
      AppendedIsListed(items, PurchasedItem(itemId, stamp, false, None));
      items := items + [PurchasedItem(itemId, stamp, false, None)];
    }

    /** `getPurchasedItems`: the unused entries. */
    function GetPurchasedItems(): (r: seq<PurchasedItem>)
      reads this
      ensures r == Unused(items)
      ensures forall x :: x in r <==> x in items && !x.used
      ensures |r| <= |items|
    {
      Unused(items)
    }

    /** `markItemAsUsed`: the first unused entry of `itemId` is marked and
        `true` returned; with none, `false` and nothing changes. */
    method MarkItemAsUsed(itemId: string, stamp: string) returns (found: bool)
      modifies this
      ensures found <==> exists j :: 0 <= j < |old(items)| && Waiting(old(items)[j], itemId)
      ensures items == AfterMark(old(items), itemId, stamp)
    {
      found := FirstWaiting(items, itemId) != -1;
      items := AfterMark(items, itemId, stamp);
    }
  }

  /** The state `updatePurchaseButtons` gives one purchase button. */
  datatype Button = Button(disabled: bool, text: string)

  function PurchaseButton(balance: int, price: int): (b: Button)
    ensures b.disabled <==> balance < price
    ensures b.text == (if b.disabled then "Sem Senacoins" else "Comprar")
  {
    if balance < price then Button(true, "Sem Senacoins") else Button(false, "Comprar")
  }

  /** Shown the balance the server reports, a catalog item's button is
      disabled exactly when the server would refuse that purchase for too
      few coins. */
  lemma ButtonAgreesWithServer(users: map<string, Users.UserRecord>, userId: string, now: int, i: nat)
    requires i < |ShopController.Catalog|
    requires ShopController.GetUserBalance(users, userId, now).Ok?
    ensures var shown := ShopController.GetUserBalance(users, userId, now).value.balance;
            var item := ShopController.Catalog[i];
            (PurchaseButton(shown, item.price).disabled
             <==> ShopController.LoadedBalance(users[userId]) < ShopController.ItemPrices[item.id])
  {
    ShopController.PricesMatchCatalog();
  }
}
