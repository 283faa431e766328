# Storefront cart and form handlers, modelled in Dafny

This project models the behaviour of the storefront page script `index.js`.
It covers two parts of that script:

- **The shopping cart.** The page keeps a module-level `cart` array of line
  items `{name, price, quantity}`. Its handlers change that array in place:
  `addToCart`, `deleteItemFromCart`, `increaseQuantity`, `decreaseQuantity`,
  and the clear-cart and purchase buttons. After each change,
  `updateCartDisplay` rebuilds the cart listing. The model reads a product's
  price the way the page does: `replace` the first `"Rs. "`, `replace` the
  first `","`, then `parseFloat`.
- **The two forms.** The newsletter and contact forms trim their fields and
  run a fixed chain of checks. The email check is the regular expression
  `/^[^\s@]+@[^\s@]+\.[^\s@]+$/`. The first check that fails picks the
  alert. Only a form that passes every check is thanked and reset.

Modules:

| file | module | what it holds |
|---|---|---|
| `wrappers.dfy` | `Wrappers` | `Option` |
| `text.dfy` | `Text` | the whitespace class of `trim()` and `\s`, `trim`, `indexOf`, `replace` with a string pattern, decimal digit runs |
| `price.dfy` | `Price` | `parseFloat` on price texts, the price reading as written and as intended |
| `notices.dfy` | `Notices` | every alert the page raises, with its exact text |
| `forms.dfy` | `Forms` | the email pattern and the two submit handlers |
| `cart_spec.dfy` | `CartSpec` | each cart operation as a function on the list of items |
| `cart_view.dfy` | `CartView` | the rows `updateCartDisplay` renders, and the loop that builds them |
| `cart_store.dfy` | `CartStore` | class `Cart`, whose methods change `items` and `display` in place |
| `cart_laws.dfy` | `CartLaws` | properties of sequences of user actions |

Class `Cart` holds the `cart` array as `items` and the rendered listing as
`display`. Its invariant `Valid()` says two things: no two items share a name,
and `display` is exactly `Rows(items)`. Every handler keeps that invariant.
Every handler's `ensures` ties the new `items` to the matching `CartSpec`
function of the old items. The properties are proved about those functions.

A thrown `TypeError` is modelled as a `faulted` flag. This is what happens
when `cart[index]` is `undefined`. In every such case the source throws
before it changes anything, except after the delete inside `decreaseQuantity`.

Where the evident intent and the code differ, the model follows the code:

- The evident intent is that decreasing a quantity-one item acts like a
  delete, so that every quantity stays at least 1. `decreaseQuantity` does
  not return after that delete (first finding below).
- `.replace(',', '')` removes only the first comma (second finding).
- An index past the end throws a `TypeError`; the model reports a fault.

## Model

| member | source | states |
|---|---|---|
| Text.IsSpace | index.js:53-54 | the characters `trim()` strips and the regex class `\s` matches: ECMAScript's WhiteSpace (tab, vertical tab, form feed, space, no-break space, byte order mark, the Unicode space separators) and LineTerminator (line feed, carriage return, line and paragraph separators) |
| Text.TrimStart | index.js:53 | the leading part `trim()` removes is all whitespace, what is left is a suffix of the input, and it starts with a non-space |
| Text.TrimEnd | index.js:53 | the trailing part removed is all whitespace, what is left is a prefix, and it ends with a non-space |
| Text.Trim | index.js:53 | `trim()`: the whole string with leading and trailing whitespace removed; its meaning is stated by `Text.TrimBlankIff`, `Text.TrimEdges`, `Text.TrimIsInnerPiece` and `Text.TrimIdempotent` |
| Text.TrimBlankIff | index.js:53-59 | a trimmed field is empty (the `!email` test) exactly when the raw field is all whitespace |
| Text.TrimEdges | index.js:53 | a non-empty trimmed value starts and ends with a non-space |
| Text.TrimIsInnerPiece | index.js:53 | the trimmed value is a contiguous piece of the field with only whitespace on either side |
| Text.TrimIdempotent | index.js:53 | trimming twice gives the same as trimming once |
| Text.IndexFrom | index.js:113 | `indexOf` returns the first position at or after `from` where the pattern occurs, or -1 when it occurs nowhere from there |
| Text.RemoveFirst | index.js:113 | `replace` with a string pattern either leaves the text unchanged or shortens it by exactly the pattern's length |
| Text.RemoveFirstOccurrence | index.js:113 | `replace` cuts out exactly the first occurrence and keeps everything after it, later occurrences included |
| Text.RemoveFirstAbsent | index.js:113 | `replace` leaves a text without the pattern unchanged |
| Text.DigitRunLength | index.js:113 | the digit run `parseFloat` reads is all digits and stops at the first non-digit |
| Text.WithoutSeparators | index.js:113 | taking the commas out of comma-grouped digits leaves only digits, and keeps the first digit first |
| Price.ParseFloat | index.js:113 | `parseFloat` gives NaN exactly when the text has no digit after its leading whitespace; otherwise a non-negative number |
| Price.ParseFloatReadsDigitPrefix | index.js:113 | the modelled `parseFloat` on digits followed by a character that is not a digit, `.`, `e` or `E` gives the value of those digits, whatever follows |
| Price.ParsePrice | index.js:113 | the price as the page reads it: first `"Rs. "` removed, first `","` removed, then `parseFloat`; its meaning is stated by `Price.ParsePriceAgreesWithOneSeparator` and `Price.ParsePriceLakhCounterexample` |
| Price.RemoveCurrencyPrefix | index.js:113 | `replace('Rs. ', '')` on a displayed price leaves exactly the amount |
| Price.RemoveFirstCommaIsWithout | index.js:113 | removing the first comma equals removing every comma when the text has at most one comma |
| Price.ParsePriceAgreesWithOneSeparator | index.js:113 | the as-written reading of a price equals the intended one for any text after `"Rs. "` with at most one comma |
| Price.ParsePriceIntendedReadsAllDigits | index.js:113 | with every comma removed, a displayed price reads as the value of all its digits |
| Price.ParsePriceLakhCounterexample | index.js:113 | `"Rs. 1,00,000"` reads as 100 as written, but as 100000 with every comma removed |
| Price.Times | index.js:142 | `item.price * item.quantity`: NaN exactly when the price is NaN, and the price itself for quantity one |
| Forms.RegexMatchIsWellFormed | index.js:54 | every string the email pattern accepts has no whitespace, exactly one `@` with text before it, and a `.` with text on both sides after the `@` |
| Forms.WellFormedMatchesRegex | index.js:54 | every such well-formed address is accepted by the email pattern |
| Forms.EmailRegex | index.js:54 | the language of `/^[^\s@]+@[^\s@]+\.[^\s@]+$/` as split points `@` and `.` between three non-empty runs without whitespace or `@`; `Forms.EmailRegexIff` states it as a well-formed address |
| Forms.EmailRegexIff | index.js:54 | the email pattern accepts a string exactly when it is a well-formed address |
| Forms.SubmitNewsletter | index.js:50-68 | an all-whitespace field gets "enter your email"; otherwise a malformed trimmed address gets "enter a valid email"; otherwise the subscription is thanked; the form resets exactly when thanked; each case holds in both directions |
| Forms.SubmitContact | index.js:72-105 | the checks run name, email present, email valid, message; each alert is given exactly when its check is the first to fail; the thanks and the reset come exactly when all checks pass |
| Forms.ContactAgreesWithNewsletter | index.js:54-64 | with a name and a message filled in, the contact form accepts and rejects an email exactly as the newsletter form does, with the same alert |
| Notices.Text | index.js:131 | the exact wording of every alert the page raises; the added and removed alerts begin with the product's name |
| CartSpec.Find | index.js:116 | `cart.find` by name: absent exactly when no item has the name; otherwise the position of the first item that has it |
| CartSpec.AddItem | index.js:111-133 | an item with the name gets one more (its price unchanged, all other items unchanged); otherwise a new quantity-one item goes at the end; the product is announced as added; names stay distinct |
| CartSpec.DeleteItem | index.js:184-189 | the item at the index is removed and the later items move up one place, with an alert naming it; past the end it faults and changes nothing; names stay distinct |
| CartSpec.IncreaseItem | index.js:192-195 | only the indexed item's quantity grows by one, with no alert; past the end it faults and changes nothing |
| CartSpec.DecreaseAsWritten | index.js:196-202 | a quantity other than one drops by one; a quantity-one item is deleted with its alert, and then the next item loses one, or, if the deleted item was last, the handler faults |
| CartSpec.DecreaseIntended | index.js:196-202 | with the fall-through removed, a quantity-one item is just deleted; every quantity stays at least one and names stay distinct |
| CartSpec.ClearItems | index.js:213-221 | the cart ends empty; the alert is the empty-cart warning exactly when it was already empty, otherwise the cleared confirmation |
| CartSpec.PurchaseItems | index.js:224-233 | the cart ends empty; an empty cart only gets the warning; otherwise the purchase is thanked and the modal is hidden, and hiding happens exactly then |
| CartView.BuildRows | index.js:136-159 | the `forEach` loop builds exactly one row per item, in cart order |
| CartView.RowOf | index.js:141-157 | one item's row: name, total, quantity, and the "-", "+" and "Delete" buttons with the item's index; stated over the whole cart by `CartView.RowsShowCart` |
| CartView.Rows | index.js:140-159 | one row per item; its contents are stated by `CartView.RowsShowCart` and `CartView.RowsDetermineCart` |
| CartView.RowsShowCart | index.js:140-157 | row `i` shows item `i`'s name, its quantity, the total price times quantity, and three buttons carrying index `i` |
| CartView.RowsDetermineCart | index.js:140-151 | while no quantity is zero, the cart can be read back from the rows (unit price is total over quantity), so the display loses nothing |
| CartView.RenderedClickFaultsIff | index.js:153-180 | every rendered button carries its own row's index; a click on one faults exactly when it is "-" on the last row and that row's quantity is one |
| CartView.Click | index.js:162-180 | a click on a "-", "+" or "Delete" button runs that handler on its `data-index`; past the end it faults and changes nothing, and within range only "-" can fault |
| CartStore.Cart.constructor | index.js:108 | the page starts with an empty cart and an empty listing |
| CartStore.Cart.UpdateCartDisplay | index.js:136-181 | the listing becomes the rows of the current cart, and the cart is unchanged |
| CartStore.Cart.AddToCart | index.js:111-133 | changes the cart in place as `AddItem` describes on the price read from the text, returns the alert, and re-renders |
| CartStore.Cart.AddPriced | index.js:116-132 | with the price already read, changes the cart in place as `AddItem` describes, keeps names distinct, and re-renders |
| CartStore.Cart.DeleteItemFromCart | index.js:184-189 | changes the cart in place as `DeleteItem` describes, returns its alert or fault, and re-renders unless it faulted |
| CartStore.Cart.IncreaseQuantity | index.js:192-195 | changes the cart in place as `IncreaseItem` describes; a fault leaves the cart and the listing as they were |
| CartStore.Cart.DecreaseQuantity | index.js:196-202 | changes the cart in place as `DecreaseAsWritten` describes, with the same alert and fault; the listing matches the cart even after the fault |
| CartStore.Cart.ClearCart | index.js:213-221 | changes the cart as `ClearItems` describes; an empty cart leaves the listing untouched |
| CartStore.Cart.Purchase | index.js:224-233 | changes the cart as `PurchaseItems` describes and returns the dismiss signal; an empty cart leaves the listing untouched |
| CartLaws.Step | index.js:162-233 | each button's handler as one transition of the cart: add to cart with the price read as written, "Delete", "+", "-" as written, clear, purchase; `CartLaws.RunKeepsNamesDistinct` states what every sequence of them keeps |
| CartLaws.RunKeepsNamesDistinct | index.js:111-233 | whatever sequence of adds, deletes, quantity changes, clears and purchases the user makes, no two items ever share a name |
| CartLaws.StepIntendedKeepsInvariants | index.js:111-233 | with both defects corrected, every single action keeps names distinct and quantities at least one |
| CartLaws.RunIntendedKeepsInvariants | index.js:111-233 | with both defects corrected, every sequence of actions keeps names distinct and quantities at least one |
| CartLaws.DecreaseMatchesIntendedIff | index.js:196-202 | the decrease handler as written agrees with the intended one exactly when the quantity is not one |
| CartLaws.DecreaseFallThroughCounterexample | index.js:196-202 | two quantity-one items, decrease the first: the second drops to quantity zero; a single quantity-one item, decreased: the handler faults after the delete |
| CartLaws.AddThenDeleteRestores | index.js:111-189 | deleting the item an add has just appended gives back the previous cart |
| CartLaws.IncreaseThenDecreaseRestoresIff | index.js:192-202 | "+" then "-" on an item gives back the cart exactly when its quantity was not zero |
| CartLaws.AddTwiceMakesOneLine | index.js:116-127 | adding a product twice to an empty cart gives one item with quantity two, priced as at the first add |
| CartLaws.ClearTwiceWarns | index.js:213-221 | clearing an already-cleared cart gives the empty-cart warning and not the confirmation |
| CartLaws.PurchaseIsClearWithDismiss | index.js:213-233 | purchase empties the cart as clearing does, hides the modal exactly when clearing would confirm, and on an empty cart behaves exactly like clearing |

## Left out

- Navigation highlighting and smooth scrolling (index.js:1-23): DOM behaviour that does not touch the cart or the forms.
- Opening and closing the cart modal (index.js:25-46). Only the purchase handler's hiding of the modal is kept, as the `dismiss` flag.
- The DOM itself is not modelled: `innerHTML`, `createElement`, `querySelector`, and re-attaching click listeners after every render. A rendered row is modelled as a value. Each button's listener is modelled as `CartView.Click` on the button's `data-index`.
- `alert` is not shown. Each alert is returned as a `Notices.Notice` value, and `Notices.Text` gives its exact wording.
- `toLocaleString` formatting of line totals is not modelled. A row holds the total as a number.
- Price.ParseFloatReadsDigitPrefix: in JavaScript a following `.` or exponent would extend the number (`"12.5"` is 12.5, `"12e3"` is 12000); the model, which reads digits only, gives 12 for both.
- Price.ParseFloat: reads only leading whitespace and a run of decimal digits. Signs, a decimal point, fractions, exponents and `Infinity` are not modelled, and prices are integers rather than IEEE doubles.
- JavaScript strings are UTF-16 code units, while Dafny's `char` is a Unicode scalar value. Characters outside the Basic Multilingual Plane are therefore not split into surrogate pairs here.
- The `data-index` attribute is the string form of the index. The page's `cart[index]` and `splice(index, 1)` convert it back to that same number, so the model takes the index as a `nat`.
- Line items are values inside `items`, not shared objects. `existingItem.quantity += 1` is modelled as replacing that item in the list. No other reference to an item exists in the script, so nothing depends on aliasing.
- The marketing markup injected at index.js:236-277 is not part of this model: it is static DOM content with no state or checks.

## Findings

| source | as written | input that shows it | evidently intended | confidence | as-written member | corrected member |
|---|---|---|---|---|---|---|
| index.js:196-202 | after `deleteItemFromCart(index)` the handler does not return, so `cart[index].quantity -= 1` runs on whatever item moved into `index`, or throws when nothing did | cart `[A ×1, B ×1]`, decrease index 0: A is deleted and B drops to quantity 0; cart `[A ×1]`, decrease index 0: A is deleted, then a `TypeError` | a quantity-one item is just deleted, and every quantity stays at least 1 | not executed | CartLaws.DecreaseFallThroughCounterexample | CartLaws.RunIntendedKeepsInvariants |
| index.js:113 | `.replace(',', '')` removes only the first comma, so `parseFloat` stops at the second one | `"Rs. 1,00,000"` reads as 100 | every thousands separator removed, reading 100000 | not executed | Price.ParsePriceLakhCounterexample | Price.ParsePriceIntendedReadsAllDigits |
