/** The cart page's handlers (frontend/app/cart/page.tsx): quantity changes from the number
    input, the trash button, and the checkout gate. */
module CartPage {
  import opened Wrappers
  import opened Seqs
  import opened Cart

  /** `parseInt(value) || 1`: `parsed` is the result of `parseInt`, `None` standing for NaN.
      NaN and 0 are falsy, so both become 1. */
  function QuantityFromInput(parsed: Option<int>): (q: int)
    ensures parsed.None? || parsed.value == 0 ==> q == 1
    ensures parsed.Some? && parsed.value != 0 ==> q == parsed.value
  {
    if parsed.None? || parsed.value == 0 then 1 else parsed.value
  }

  /** From the input box, only a negative number yields a quantity below 1. */
  lemma OnlyNegativeInputRemoves(parsed: Option<int>)
    ensures QuantityFromInput(parsed) < 1 <==> parsed.Some? && parsed.value < 0
  {
  }

  /** `handleQuantityChange`: a quantity below 1 removes the entry, any other becomes the
      entry's quantity. */
  method HandleQuantityChange(cart: CartStore, id: string, q: int)
    requires cart.Valid()
    modifies cart
    ensures cart.Valid()
    ensures q < 1 ==> cart.cartItems == Filter(old(cart.cartItems), Keeps(id))
    ensures q >= 1 ==> cart.cartItems == WithQuantity(old(cart.cartItems), id, q)
  {
    if q < 1 {
      cart.RemoveFromCart(id);
      return;
    }
    cart.UpdateQuantity(id, q);
  }

  /** The number input's `onChange`: the parsed value goes through `|| 1` first. */
  method HandleQuantityInput(cart: CartStore, id: string, parsed: Option<int>)
    requires cart.Valid()
    modifies cart
    ensures cart.Valid()
    ensures parsed.Some? && parsed.value < 0 ==> cart.cartItems == Filter(old(cart.cartItems), Keeps(id))
    ensures !(parsed.Some? && parsed.value < 0) ==>
      cart.cartItems == WithQuantity(old(cart.cartItems), id, QuantityFromInput(parsed))
  {
    OnlyNegativeInputRemoves(parsed);
    HandleQuantityChange(cart, id, QuantityFromInput(parsed));
  }

  /** The trash button: removes exactly that product's entry. */
  method HandleTrash(cart: CartStore, id: string)
    requires cart.Valid()
    modifies cart
    ensures cart.Valid()
    ensures cart.cartItems == Filter(old(cart.cartItems), Keeps(id))
  {
    cart.RemoveFromCart(id);
  }

  /** `handleCheckout`: navigates to the checkout page only for an authenticated user; it
      never touches the cart. Returns the route navigated to, if any. */
  method HandleCheckout(isAuthenticated: bool) returns (route: Option<string>)
    ensures route.Some? <==> isAuthenticated
    ensures route.Some? ==> route.value == "/checkout"
  {
    if !isAuthenticated {
      return None;
    }
    route := Some("/checkout");
  }
}
