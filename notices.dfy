/** The alerts the page raises, as values; `Text` gives each one's wording. */
module Notices {

  datatype Notice =
    | Added(product: string)
    | Removed(product: string)
    | CartEmpty
    | CartCleared
    | PurchaseThanks
    | EnterName
    | EnterEmail
    | InvalidEmail
    | EnterMessage
    | Subscribed
    | MessageSent

  /** The wording of each alert; the two cart alerts open with the product's name. */
  function Text(n: Notice): (t: string)
    ensures n.Added? || n.Removed? ==> |n.product| <= |t| && t[..|n.product|] == n.product
  {
    match n
    case Added(p) => p + " has been added to your cart!"
    case Removed(p) => p + " has been removed from your cart."
    case CartEmpty => "Your cart is empty!. Add Something First"
    case CartCleared => "Your cart has been cleared."
    case PurchaseThanks => "Thank you for your purchase!"
    case EnterName => "Please enter your name."
    case EnterEmail => "Please enter your email address."
    case InvalidEmail => "Please enter a valid email address (e.g., name@example.com)."
    case EnterMessage => "Please enter your message."
    case Subscribed => "Thank you for subscribing to our newsletter!"
    case MessageSent => "Thank you for your message! We will get back to you soon."
  }
}
