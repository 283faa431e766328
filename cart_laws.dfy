/**
 * Properties of the cart operations taken together: which operations undo
 * which, what the decrease handler's fall-through does, and the invariants
 * that hold over any sequence of user actions.
 */
module CartLaws {
  import opened Wrappers
  import opened Price
  import opened Notices
  import opened CartSpec

  /** A user action on the cart, as the page's buttons trigger them. */
  datatype Action =
    | AddProduct(name: string, priceText: string)
    | Delete(index: nat)
    | Increase(index: nat)
    | Decrease(index: nat)
    | Clear
    | Purchase

  /** One action, as the page performs it. */
  function Step(items: seq<Item>, a: Action): Outcome {
    match a
    case AddProduct(name, text) => AddItem(items, name, ParsePrice(text))
    case Delete(i) => DeleteItem(items, i)
    case Increase(i) => IncreaseItem(items, i)
    case Decrease(i) => DecreaseAsWritten(items, i)
    case Clear => ClearItems(items)
    case Purchase => PurchaseItems(items)
  }

  /** One action, with the two defects corrected: every separator removed from prices, and no fall-through after a delete. */
  function StepIntended(items: seq<Item>, a: Action): Outcome {
    match a
    case AddProduct(name, text) => AddItem(items, name, ParsePriceIntended(text))
    case Decrease(i) => DecreaseIntended(items, i)
    case _ => Step(items, a)
  }

  /** The cart after a sequence of actions, each starting from where the last left it. */
  function Run(items: seq<Item>, actions: seq<Action>): seq<Item>
    decreases |actions|
  {
    if actions == [] then items else Run(Step(items, actions[0]).items, actions[1..])
  }

  function RunIntended(items: seq<Item>, actions: seq<Action>): seq<Item>
    decreases |actions|
  {
    if actions == [] then items else RunIntended(StepIntended(items, actions[0]).items, actions[1..])
  }

  /** Whatever the user does, no two line items ever share a name. */
  lemma {:induction false} RunKeepsNamesDistinct(items: seq<Item>, actions: seq<Action>)
    requires DistinctNames(items)
    ensures DistinctNames(Run(items, actions))
    decreases |actions|
  {
    if actions != [] {
      RunKeepsNamesDistinct(Step(items, actions[0]).items, actions[1..]);
    }
  }

  /** With the defects corrected, every line keeps a quantity of at least one, and names stay distinct. */
  lemma StepIntendedKeepsInvariants(items: seq<Item>, a: Action)
    requires DistinctNames(items) && PositiveQuantities(items)
    ensures DistinctNames(StepIntended(items, a).items)
    ensures PositiveQuantities(StepIntended(items, a).items)
  {
    match a
    case AddProduct(name, text) =>
      AddKeepsPositive(items, name, ParsePriceIntended(text));
    case Delete(i) =>
      var o := DeleteItem(items, i);
      if i < |items| {
        forall j | 0 <= j < |o.items| ensures o.items[j].quantity >= 1 {
          if j >= i { assert o.items[j] == items[j + 1]; }
        }
      }
    case Increase(i) =>
      var o := IncreaseItem(items, i);
      if i < |items| {
        forall j | 0 <= j < |o.items| ensures o.items[j].quantity >= 1 {
          if j != i { assert o.items[j] == items[j]; }
        }
      }
    case Decrease(i) =>
    case Clear =>
    case Purchase =>
  }

  /** An add, at whatever price, keeps every quantity at least one. */
  lemma AddKeepsPositive(items: seq<Item>, name: string, price: Num)
    requires PositiveQuantities(items)
    ensures PositiveQuantities(AddItem(items, name, price).items)
  {
    var o := AddItem(items, name, price);
    forall j | 0 <= j < |o.items| ensures o.items[j].quantity >= 1 {
      if j < |items| && Find(items, name).Some? && j == Find(items, name).value {
      } else if j < |items| {
      }
    }
  }

  lemma {:induction false} RunIntendedKeepsInvariants(items: seq<Item>, actions: seq<Action>)
    requires DistinctNames(items) && PositiveQuantities(items)
    ensures DistinctNames(RunIntended(items, actions))
    ensures PositiveQuantities(RunIntended(items, actions))
    decreases |actions|
  {
    if actions != [] {
      StepIntendedKeepsInvariants(items, actions[0]);
      RunIntendedKeepsInvariants(StepIntended(items, actions[0]).items, actions[1..]);
    }
  }

  /**
   * The decrease handler as written does what was evidently meant exactly
   * when the quantity is not one: deleting a quantity-one item always goes
   * on to fault or to take one off the next item.
   */
  lemma DecreaseMatchesIntendedIff(items: seq<Item>, index: nat)
    requires index < |items|
    ensures DecreaseAsWritten(items, index) == DecreaseIntended(items, index)
            <==> items[index].quantity != 1
  {
    if items[index].quantity == 1 {
      var w := DecreaseAsWritten(items, index);
      var d := DecreaseIntended(items, index);
      if !w.faulted {
        assert w.items[index].quantity == items[index + 1].quantity - 1;
        assert d.items[index] == items[index + 1];
      }
    }
  }

  /**
   * Two quantity-one items, decrease the first: it is deleted, and the
   * second, now first, drops to quantity zero. A single quantity-one item,
   * decreased: it is deleted and the handler then faults.
   */
  lemma DecreaseFallThroughCounterexample()
    ensures DecreaseAsWritten([Item("A", Number(10), 1), Item("B", Number(20), 1)], 0)
            == Outcome([Item("B", Number(20), 0)], Some(Removed("A")), false, false)
    ensures DecreaseAsWritten([Item("A", Number(10), 1)], 0)
            == Outcome([], Some(Removed("A")), true, false)
    ensures PositiveQuantities([Item("A", Number(10), 1), Item("B", Number(20), 1)])
    ensures !PositiveQuantities(Run([Item("A", Number(10), 1), Item("B", Number(20), 1)], [Decrease(0)]))
  {
    var two := [Item("A", Number(10), 1), Item("B", Number(20), 1)];
    assert RemoveAt(two, 0) == [Item("B", Number(20), 1)];
    assert RemoveAt([Item("A", Number(10), 1)], 0) == [];
    assert Run(two, [Decrease(0)]) == Run([Item("B", Number(20), 0)], []);
  }

  /** Deleting the line an add has just appended gives back the cart from before. */
  lemma AddThenDeleteRestores(items: seq<Item>, name: string, price: Num)
    requires Find(items, name).None?
    ensures DeleteItem(AddItem(items, name, price).items, |items|).items == items
  {
    var added := AddItem(items, name, price).items;
    assert RemoveAt(added, |items|) == added[..|items|];
  }

  /**
   * Pressing "+" then "-" on a line gives back the cart exactly when the
   * line's quantity was not zero; from zero, "+" makes it one and "-" then
   * deletes it.
   */
  lemma IncreaseThenDecreaseRestoresIff(items: seq<Item>, index: nat)
    requires index < |items|
    ensures DecreaseAsWritten(IncreaseItem(items, index).items, index).items == items
            <==> items[index].quantity != 0
  {
    var up := IncreaseItem(items, index).items;
    var back := DecreaseAsWritten(up, index).items;
    if items[index].quantity != 0 {
      assert back == items;
    } else {
      assert |back| != |items|;
    }
  }

  /** Adding a product twice gives one line with quantity two, priced as at the first add. */
  lemma AddTwiceMakesOneLine(name: string, first: Num, second: Num)
    ensures AddItem(AddItem([], name, first).items, name, second).items == [Item(name, first, 2)]
  {
    var once := AddItem([], name, first).items;
    assert once == [Item(name, first, 1)];
    assert Find(once, name) == Some(0);
  }

  /** Clearing an emptied cart only warns. */
  lemma ClearTwiceWarns(items: seq<Item>)
    ensures ClearItems(ClearItems(items).items) == Outcome([], Some(CartEmpty), false, false)
  {
  }

  /** Purchase empties the cart as clearing does; it differs in its thanks and in hiding the modal. */
  lemma PurchaseIsClearWithDismiss(items: seq<Item>)
    ensures PurchaseItems(items).items == ClearItems(items).items
    ensures PurchaseItems(items).dismiss <==> ClearItems(items).notice == Some(CartCleared)
    ensures items == [] ==> PurchaseItems(items) == ClearItems(items)
  {
  }
}
