/**
 * What `updateCartDisplay` puts on the page: one row per line item, in cart
 * order, showing the name, the line total, the quantity, and three buttons
 * tagged with the row's index.
 */
module CartView {
  import opened Wrappers
  import opened Price
  import opened CartSpec

  datatype Control = DecreaseButton | IncreaseButton | DeleteButton

  /** A button and the `data-index` it carries. */
  datatype Button = Button(control: Control, index: nat)

  datatype Row = Row(name: string, total: Num, quantity: int, buttons: seq<Button>)

  /** The row for `item` at position `index`: total `price * quantity`, then "-", "+", "Delete". */
  function RowOf(item: Item, index: nat): Row {
    Row(item.name, Times(item.price, item.quantity), item.quantity,
        [Button(DecreaseButton, index), Button(IncreaseButton, index), Button(DeleteButton, index)])
  }

  /** The rows for the whole cart. */
  function Rows(items: seq<Item>): (rows: seq<Row>)
    ensures |rows| == |items|
  {
    seq(|items|, i requires 0 <= i < |items| => RowOf(items[i], i))
  }

  /** The `cart.forEach((item, index) => ...)` loop that builds the rows one item at a time. */
  method BuildRows(items: seq<Item>) returns (rows: seq<Row>)
    ensures rows == Rows(items)
  {
    rows := [];
    var index := 0;
    while index < |items|
      invariant 0 <= index <= |items|
      invariant rows == Rows(items[..index])
    {
      assert items[..index + 1][..index] == items[..index];
      rows := rows + [RowOf(items[index], index)];
      index := index + 1;
    }
    assert items[..|items|] == items;
  }

  /**
   * The display matches the cart: one row per item, in order, with its name,
   * total and quantity, and the "-", "+" and "Delete" buttons for its index.
   */
  lemma RowsShowCart(items: seq<Item>)
    ensures |Rows(items)| == |items|
    ensures forall i | 0 <= i < |items| ::
              && Rows(items)[i].name == items[i].name
              && Rows(items)[i].quantity == items[i].quantity
              && Rows(items)[i].total == Times(items[i].price, items[i].quantity)
              && Rows(items)[i].buttons
                 == [Button(DecreaseButton, i), Button(IncreaseButton, i), Button(DeleteButton, i)]
  {
  }

  /** The unit price a row implies: its total over its quantity. */
  function PriceOf(total: Num, quantity: int): Num
    requires quantity != 0
  {
    if total.NaN? then NaN else Number(total.value / quantity)
  }

  /** The cart as read back from its rows, for rows whose quantity is not zero. */
  function ItemsOfRows(rows: seq<Row>): seq<Item>
    requires forall i | 0 <= i < |rows| :: rows[i].quantity != 0
  {
    seq(|rows|, i requires 0 <= i < |rows| => Item(rows[i].name, PriceOf(rows[i].total, rows[i].quantity), rows[i].quantity))
  }

  /** A non-zero multiple of `q` is at least as large as `q`. */
  lemma {:induction false} MultipleMagnitude(q: int, x: int)
    requires q != 0 && x != 0
    ensures (if q * x >= 0 then q * x else -(q * x)) >= (if q > 0 then q else -q)
    decreases if x > 0 then x else -x
  {
    if x > 1 {
      MultipleMagnitude(q, x - 1);
      assert q * x == q * (x - 1) + q;
    } else if x < -1 {
      MultipleMagnitude(q, x + 1);
      assert q * x == q * (x + 1) - q;
    }
  }

  /** Dividing a line total by its quantity gives back the unit price. */
  lemma ExactQuotient(p: int, q: int)
    requires q != 0
    ensures (p * q) / q == p
  {
    var t := p * q;
    var d := t / q;
    var m := t % q;
    assert q * d + m == t;
    assert 0 <= m < (if q > 0 then q else -q);
    assert q * (d - p) == -m by {
      assert q * (d - p) == q * d - q * p;
    }
    if d != p {
      MultipleMagnitude(q, d - p);
    }
  }

  /**
   * Nothing is lost on the way to the display: while no quantity is zero,
   * the cart can be read back from its rows.
   */
  lemma RowsDetermineCart(items: seq<Item>)
    requires forall i | 0 <= i < |items| :: items[i].quantity != 0
    ensures forall i | 0 <= i < |Rows(items)| :: Rows(items)[i].quantity != 0
    ensures ItemsOfRows(Rows(items)) == items
  {
    var rows := Rows(items);
    forall i | 0 <= i < |items| ensures ItemsOfRows(rows)[i] == items[i] {
      if items[i].price.Number? {
        ExactQuotient(items[i].price.value, items[i].quantity);
      }
    }
  }

  /** What a click on a rendered button does to the cart. */
  function Click(items: seq<Item>, b: Button): (o: Outcome)
    ensures b.index >= |items| ==> o == Outcome(items, None, true, false)
    ensures o.faulted && b.index < |items| ==> b.control == DecreaseButton
  {
    match b.control
    case DecreaseButton => DecreaseAsWritten(items, b.index)
    case IncreaseButton => IncreaseItem(items, b.index)
    case DeleteButton => DeleteItem(items, b.index)
  }

  /**
   * Every rendered button points at its own row, so clicking it never
   * addresses a missing item; the one click that faults is "-" on the last
   * row when its quantity is one.
   */
  lemma RenderedClickFaultsIff(items: seq<Item>, i: nat, b: Button)
    requires i < |items| && b in Rows(items)[i].buttons
    ensures b.index == i
    ensures Click(items, b).faulted <==>
              b.control == DecreaseButton && items[i].quantity == 1 && i == |items| - 1
  {
  }
}
