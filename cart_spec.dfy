/**
 * The shopping cart as values: the line items, and what each of the page's
 * cart operations does to them, which alert it raises, and whether it
 * faults. The class in CartStore performs these same operations in place.
 */
module CartSpec {
  import opened Wrappers
  import opened Price
  import opened Notices

  /** One line of the cart: `{name, price, quantity}`. */
  datatype Item = Item(name: string, price: Num, quantity: int)

  /**
   * What an operation leaves behind: the new cart, the alert it raised (if
   * any), whether it stopped on a TypeError, and whether it asks the page to
   * hide the cart modal.
   */
  datatype Outcome = Outcome(items: seq<Item>, notice: Option<Notice>, faulted: bool, dismiss: bool)

  /** No two line items share a name. */
  predicate DistinctNames(items: seq<Item>) {
    forall i, j | 0 <= i < j < |items| :: items[i].name != items[j].name
  }

  /** Every line item has a quantity of at least one. */
  predicate PositiveQuantities(items: seq<Item>) {
    forall i | 0 <= i < |items| :: items[i].quantity >= 1
  }

  /** `cart.find(item => item.name === name)`, as the position of the item it finds. */
  function Find(items: seq<Item>, name: string): (r: Option<nat>)
    ensures r.None? <==> forall k | 0 <= k < |items| :: items[k].name != name
    ensures r.Some? ==> r.value < |items| && items[r.value].name == name
    ensures r.Some? ==> forall k | 0 <= k < r.value :: items[k].name != name
  {
    if items == [] then None
    else if items[0].name == name then Some(0)
    else match Find(items[1..], name)
      case None => None
      case Some(k) => Some(k + 1)
  }

  /** The cart with `delta` added to the quantity of the item at `index`. */
  function AdjustAt(items: seq<Item>, index: nat, delta: int): seq<Item>
    requires index < |items|
  {
    items[index := items[index].(quantity := items[index].quantity + delta)]
  }

  /** The cart without the item at `index`, as `cart.splice(index, 1)` leaves it. */
  function RemoveAt(items: seq<Item>, index: nat): seq<Item>
    requires index < |items|
  {
    items[..index] + items[index + 1..]
  }

  /**
   * `addToCart`: an item already in the cart under `name` gets one more of
   * it (its recorded price stays); otherwise a new item with quantity one
   * goes at the end. Either way the product is announced as added.
   */
  function AddItem(items: seq<Item>, name: string, price: Num): (o: Outcome)
    ensures o.notice == Some(Added(name)) && !o.faulted && !o.dismiss
    ensures Find(items, name).None? ==> o.items == items + [Item(name, price, 1)]
    ensures Find(items, name).Some? ==>
              var k := Find(items, name).value;
              && |o.items| == |items|
              && o.items[k] == Item(name, items[k].price, items[k].quantity + 1)
              && forall j | 0 <= j < |items| && j != k :: o.items[j] == items[j]
    ensures DistinctNames(items) ==> DistinctNames(o.items)
  {
    match Find(items, name)
    case Some(k) => Outcome(AdjustAt(items, k, 1), Some(Added(name)), false, false)
    case None => Outcome(items + [Item(name, price, 1)], Some(Added(name)), false, false)
  }

  /**
   * `deleteItemFromCart`: the item at `index` is taken out, those after it
   * move up one place, and the alert names the removed product. An index
   * past the end faults reading `cart[index].name` and changes nothing.
   */
  function DeleteItem(items: seq<Item>, index: nat): (o: Outcome)
    ensures index >= |items| ==> o == Outcome(items, None, true, false)
    ensures index < |items| ==>
              && o.notice == Some(Removed(items[index].name)) && !o.faulted && !o.dismiss
              && |o.items| == |items| - 1
              && (forall j | 0 <= j < index :: o.items[j] == items[j])
              && (forall j | index <= j < |o.items| :: o.items[j] == items[j + 1])
    ensures DistinctNames(items) ==> DistinctNames(o.items)
  {
    if index >= |items| then Outcome(items, None, true, false)
    else Outcome(RemoveAt(items, index), Some(Removed(items[index].name)), false, false)
  }

  /**
   * `increaseQuantity`: one more of the item at `index`, nothing else
   * changes, and no alert. An index past the end faults and changes nothing.
   */
  function IncreaseItem(items: seq<Item>, index: nat): (o: Outcome)
    ensures index >= |items| ==> o == Outcome(items, None, true, false)
    ensures index < |items| ==>
              && o.notice == None && !o.faulted && !o.dismiss
              && |o.items| == |items|
              && o.items[index] == items[index].(quantity := items[index].quantity + 1)
              && (forall j | 0 <= j < |items| && j != index :: o.items[j] == items[j])
  {
    if index >= |items| then Outcome(items, None, true, false)
    else Outcome(AdjustAt(items, index, 1), None, false, false)
  }

  /**
   * `decreaseQuantity` as written. With a quantity other than one, the
   * item at `index` loses one and nothing else changes. With a quantity of
   * one, the item is deleted (with its alert) but the handler does not
   * return: it then takes one off whatever item moved up into `index`, and
   * when the deleted item was the last one it faults on `undefined`.
   */
  function DecreaseAsWritten(items: seq<Item>, index: nat): (o: Outcome)
    ensures index >= |items| ==> o == Outcome(items, None, true, false)
    ensures index < |items| && items[index].quantity != 1 ==>
              && o.notice == None && !o.faulted && !o.dismiss
              && |o.items| == |items|
              && o.items[index] == items[index].(quantity := items[index].quantity - 1)
              && (forall j | 0 <= j < |items| && j != index :: o.items[j] == items[j])
    ensures index < |items| && items[index].quantity == 1 ==>
              && o.notice == Some(Removed(items[index].name)) && !o.dismiss
              && |o.items| == |items| - 1
              && (forall j | 0 <= j < index :: o.items[j] == items[j])
              && (forall j | index < j < |o.items| :: o.items[j] == items[j + 1])
              && (o.faulted <==> index == |items| - 1)
              && (!o.faulted ==> o.items[index] == items[index + 1].(quantity := items[index + 1].quantity - 1))
    ensures DistinctNames(items) ==> DistinctNames(o.items)
  {
    if index >= |items| then Outcome(items, None, true, false)
    else if items[index].quantity == 1 then
      var deleted := DeleteItem(items, index);
      if index < |deleted.items| then
        Outcome(AdjustAt(deleted.items, index, -1), deleted.notice, false, false)
      else
        Outcome(deleted.items, deleted.notice, true, false)
    else Outcome(AdjustAt(items, index, -1), None, false, false)
  }

  /**
   * The evidently intended `decreaseQuantity`: a quantity of one deletes the
   * item and stops there; otherwise the quantity drops by one.
   */
  function DecreaseIntended(items: seq<Item>, index: nat): (o: Outcome)
    ensures index < |items| && items[index].quantity == 1 ==> o == DeleteItem(items, index)
    ensures index < |items| && items[index].quantity != 1 ==> o == DecreaseAsWritten(items, index)
    ensures index >= |items| ==> o == Outcome(items, None, true, false)
    ensures PositiveQuantities(items) ==> PositiveQuantities(o.items)
    ensures DistinctNames(items) ==> DistinctNames(o.items)
  {
    if index < |items| && items[index].quantity == 1 then DeleteItem(items, index)
    else DecreaseAsWritten(items, index)
  }

  /**
   * The clear-cart handler: an empty cart is only warned about; otherwise
   * the cart is emptied and the clearing confirmed.
   */
  function ClearItems(items: seq<Item>): (o: Outcome)
    ensures o.items == [] && !o.faulted && !o.dismiss
    ensures o.notice == Some(if items == [] then CartEmpty else CartCleared)
  {
    if items == [] then Outcome(items, Some(CartEmpty), false, false)
    else Outcome([], Some(CartCleared), false, false)
  }

  /**
   * The purchase handler: an empty cart is only warned about and the modal
   * stays; otherwise the purchase is thanked, the cart emptied and the
   * modal hidden.
   */
  function PurchaseItems(items: seq<Item>): (o: Outcome)
    ensures o.items == [] && !o.faulted
    ensures o.notice == Some(if items == [] then CartEmpty else PurchaseThanks)
    ensures o.dismiss <==> items != []
  {
    if items == [] then Outcome(items, Some(CartEmpty), false, false)
    else Outcome([], Some(PurchaseThanks), false, true)
  }
}
