/**
 * The page's cart as it lives in memory: the `cart` array the handlers
 * mutate in place, and the `#cart-items` container each handler re-renders.
 */
module CartStore {
  import opened Wrappers
  import opened Price
  import opened Notices
  import opened CartSpec
  import opened CartView

  class Cart {
    /** The module-level `cart` array. */
    var items: seq<Item>
    /** The rows currently shown in the cart modal. */
    var display: seq<Row>

    /** Names are distinct, and the display shows exactly the cart. */
    ghost predicate Valid()
      reads this
    {
      DistinctNames(items) && display == Rows(items)
    }

    /** The page loads with `cart = []` and an empty cart listing. */
    constructor ()
      ensures Valid() && items == [] && display == []
    {
      items := [];
      display := [];
    }

    /** `updateCartDisplay`: replace the listing with rows built from the cart. */
    method UpdateCartDisplay()
      modifies this`display
      ensures display == Rows(items) && items == old(items)
    {
      display := BuildRows(items);
    }

    /** `addToCart` for a product with this name and displayed price text. */
    method AddToCart(name: string, priceText: string) returns (notice: Notice)
      requires Valid()
      modifies this
      ensures Valid()
      ensures var o := AddItem(old(items), name, ParsePrice(priceText));
              items == o.items && o.notice == Some(notice)
    {
      var price := ParsePrice(priceText);
      notice := AddPriced(name, price);
    }

    /** The rest of `addToCart`, once the price has been read. */
    method AddPriced(name: string, price: Num) returns (notice: Notice)
      requires Valid()
      modifies this
      ensures Valid()
      ensures var o := AddItem(old(items), name, price);
              items == o.items && o.notice == Some(notice)
    {
      var existing := Find(items, name);
      if existing.Some? {
        var k := existing.value;
        items := items[k := items[k].(quantity := items[k].quantity + 1)];
      } else {
        items := items + [Item(name, price, 1)];
      }
      notice := Added(name);
      UpdateCartDisplay();
    }

    /**
     * `deleteItemFromCart` for a button's index. An index past the end
     * throws reading `cart[index].name`, before anything changes.
     */
    method DeleteItemFromCart(index: nat) returns (notice: Option<Notice>, faulted: bool)
      requires Valid()
      modifies this
      ensures Valid()
      ensures DeleteItem(old(items), index) == Outcome(items, notice, faulted, false)
      ensures faulted ==> display == old(display)
    {
      if index >= |items| {
        return None, true;
      }
      var itemName := items[index].name;
      items := items[..index] + items[index + 1..];
      notice, faulted := Some(Removed(itemName)), false;
      UpdateCartDisplay();
    }

    /** `increaseQuantity` for a button's index; past the end it throws and changes nothing. */
    method IncreaseQuantity(index: nat) returns (faulted: bool)
      requires Valid()
      modifies this
      ensures Valid()
      ensures IncreaseItem(old(items), index) == Outcome(items, None, faulted, false)
      ensures faulted ==> display == old(display)
    {
      if index >= |items| {
        return true;
      }
      items := items[index := items[index].(quantity := items[index].quantity + 1)];
      faulted := false;
      UpdateCartDisplay();
    }

    /**
     * `decreaseQuantity` for a button's index, as written: after deleting a
     * quantity-one item it carries on to the next statement.
     */
    method DecreaseQuantity(index: nat) returns (notice: Option<Notice>, faulted: bool)
      requires Valid()
      modifies this
      ensures Valid()
      ensures DecreaseAsWritten(old(items), index) == Outcome(items, notice, faulted, false)
    {
      if index >= |items| {
        return None, true;
      }
      notice, faulted := None, false;
      if items[index].quantity == 1 {
        notice, faulted := DeleteItemFromCart(index);
      }
      if index >= |items| {
        // `cart[index]` is undefined: reading `.quantity` throws, after the delete has rendered.
        faulted := true;
        return;
      }
      items := items[index := items[index].(quantity := items[index].quantity - 1)];
      UpdateCartDisplay();
    }

    /** The clear-cart button's handler. */
    method ClearCart() returns (notice: Notice)
      requires Valid()
      modifies this
      ensures Valid()
      ensures var o := ClearItems(old(items));
              items == o.items && o.notice == Some(notice)
      ensures old(items) == [] ==> display == old(display)
    {
      if |items| == 0 {
        notice := CartEmpty;
        return;
      }
      items := [];
      notice := CartCleared;
      UpdateCartDisplay();
    }

    /** The purchase button's handler; `dismiss` is its hiding of the cart modal. */
    method Purchase() returns (notice: Notice, dismiss: bool)
      requires Valid()
      modifies this
      ensures Valid()
      ensures var o := PurchaseItems(old(items));
              items == o.items && o.notice == Some(notice) && o.dismiss == dismiss
      ensures old(items) == [] ==> display == old(display)
    {
      if |items| == 0 {
        notice, dismiss := CartEmpty, false;
        return;
      }
      notice := PurchaseThanks;
      items := [];
      UpdateCartDisplay();
      dismiss := true;
    }
  }
}
