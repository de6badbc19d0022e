/** The client-side cart store (frontend/hooks/useCart.tsx): a list of products with
    quantities, at most one entry per product, and the running total. */
module Cart {
  import opened Wrappers
  import opened Seqs
  import opened Catalog

  /** A product in the cart with the number of units wanted. */
  datatype CartItem = CartItem(product: Product, quantity: int)

  function ItemId(item: CartItem): string
  {
    item.product.id
  }

  /** The amount one entry adds to the total: unit price times quantity, no discount. */
  function LineTotal(item: CartItem): real
  {
    item.product.price * item.quantity as real
  }

  /** `getTotalPrice`: the sum of the line totals, starting from 0. */
  function Total(items: seq<CartItem>): real
  {
    if items == [] then 0.0 else LineTotal(items[0]) + Total(items[1..])
  }

  /** `find`: the first entry for product `id`. */
  function FindItem(items: seq<CartItem>, id: string): (r: Option<CartItem>)
    ensures r.Some? ==> r.value in items && ItemId(r.value) == id
    ensures r.None? <==> forall i :: 0 <= i < |items| ==> ItemId(items[i]) != id
  {
    FindFirst(items, Holds(id))
  }

  /** The `map` of `addToCart` over an existing product: one more unit of entry `id`. */
  function Bumped(items: seq<CartItem>, id: string): seq<CartItem>
  {
    seq(|items|, i requires 0 <= i < |items| =>
      if ItemId(items[i]) == id then items[i].(quantity := items[i].quantity + 1) else items[i])
  }

  /** The `map` of `updateQuantity`: entry `id` gets quantity `q`. */
  function WithQuantity(items: seq<CartItem>, id: string, q: int): seq<CartItem>
  {
    seq(|items|, i requires 0 <= i < |items| =>
      if ItemId(items[i]) == id then items[i].(quantity := q) else items[i])
  }

  /** The condition of `removeFromCart`'s `filter`: entries for other products. */
  function Keeps(id: string): CartItem -> bool
  {
    (item: CartItem) => ItemId(item) != id
  }

  /** The condition selecting the entries for product `id`. */
  function Holds(id: string): CartItem -> bool
  {
    (item: CartItem) => ItemId(item) == id
  }

  /** The cart store. */
  class CartStore {
    var cartItems: seq<CartItem>

    /** Each product occurs in at most one entry. */
    ghost predicate Valid()
      reads this
    {
      DistinctBy(cartItems, ItemId)
    }

    constructor()
      ensures Valid() && cartItems == []
    {
      cartItems := [];
    }

    /** `addToCart`: one more unit of a product already in the cart; otherwise a new entry at
        the end with quantity 1. */
    method AddToCart(p: Product)
      requires Valid()
      modifies this
      ensures Valid()
      ensures FindItem(old(cartItems), p.id).Some? ==>
        |cartItems| == |old(cartItems)|
        && forall i :: 0 <= i < |cartItems| ==>
             cartItems[i] == if ItemId(old(cartItems)[i]) == p.id
                             then old(cartItems)[i].(quantity := old(cartItems)[i].quantity + 1)
                             else old(cartItems)[i]
      ensures FindItem(old(cartItems), p.id).None? ==> cartItems == old(cartItems) + [CartItem(p, 1)]
      ensures Total(cartItems) == Total(old(cartItems)) +
        if FindItem(old(cartItems), p.id).Some? then FindItem(old(cartItems), p.id).value.product.price
        else p.price
    {
      if FindItem(cartItems, p.id).Some? {
        BumpExisting(cartItems, p);
        cartItems := Bumped(cartItems, p.id);
      } else {
        AppendNew(cartItems, p);
        cartItems := cartItems + [CartItem(p, 1)];
      }
    }

    /** `removeFromCart`: every entry for the product goes, the rest keep their order. */
    method RemoveFromCart(id: string)
      requires Valid()
      modifies this
      ensures Valid()
      ensures cartItems == Filter(old(cartItems), Keeps(id))
      ensures forall i :: 0 <= i < |cartItems| ==> ItemId(cartItems[i]) != id
      ensures IsSubseq(cartItems, old(cartItems))
      ensures FindItem(old(cartItems), id).None? ==> cartItems == old(cartItems)
      ensures Total(cartItems) == Total(old(cartItems)) -
        if FindItem(old(cartItems), id).Some? then LineTotal(FindItem(old(cartItems), id).value) else 0.0
    {
      var before := cartItems;
      FilterIsSubseq(before, Keeps(id));
      FilterKeepsDistinctBy(before, Keeps(id), ItemId);
      TotalPartition(before, id);
      if FindItem(before, id).Some? {
        var k := IndexOf(before, id);
        FindIsAt(before, id, k);
        FilterDistinctMatch(before, id, k);
        assert Total([before[k]]) == LineTotal(before[k]);
      } else {
        FilterKeepsAll(before, Keeps(id));
        assert Filter(before, Holds(id)) == [] by {
          FilterNone(before, Holds(id));
        }
      }
      cartItems := Filter(before, Keeps(id));
      forall i | 0 <= i < |cartItems| ensures ItemId(cartItems[i]) != id {
        assert cartItems[i] in cartItems;
      }
    }

    /** `updateQuantity`: sets the quantity of the product's entry, unvalidated; length, order
        and every other entry stay as they were. */
    method UpdateQuantity(id: string, q: int)
      requires Valid()
      modifies this
      ensures Valid()
      ensures cartItems == WithQuantity(old(cartItems), id, q)
      ensures |cartItems| == |old(cartItems)|
      ensures forall i :: 0 <= i < |cartItems| ==>
        ItemId(cartItems[i]) == ItemId(old(cartItems)[i])
        && cartItems[i].product == old(cartItems)[i].product
        && (ItemId(cartItems[i]) != id ==> cartItems[i] == old(cartItems)[i])
        && (ItemId(cartItems[i]) == id ==> cartItems[i].quantity == q)
      ensures FindItem(old(cartItems), id).Some? ==>
        Total(cartItems) == Total(old(cartItems)) - LineTotal(FindItem(old(cartItems), id).value)
          + FindItem(old(cartItems), id).value.product.price * q as real
      ensures FindItem(old(cartItems), id).None? ==> cartItems == old(cartItems)
    {
      var before := cartItems;
      if FindItem(before, id).Some? {
        var k := IndexOf(before, id);
        FindIsAt(before, id, k);
        WithQuantityIsUpdateAt(before, id, q, k);
        TotalUpdateAt(before, k, before[k].(quantity := q));
      } else {
        assert WithQuantity(before, id, q) == before;
      }
      cartItems := WithQuantity(before, id, q);
    }

    /** `clearCart`. */
    method ClearCart()
      modifies this
      ensures Valid() && cartItems == [] && Total(cartItems) == 0.0
    {
      cartItems := [];
    }
  }

  /** The `addToCart` the pages call: an unauthenticated user is sent to the login page and the
      cart is left alone; otherwise the store's `addToCart` runs. Returns the route navigated
      to, if any. */
  method AddToCartIfAuthenticated(cart: CartStore, p: Product, isAuthenticated: bool)
    returns (redirect: Option<string>)
    requires cart.Valid()
    modifies cart
    ensures cart.Valid()
    ensures !isAuthenticated ==> redirect == Some("/login") && cart.cartItems == old(cart.cartItems)
    ensures isAuthenticated ==> redirect == None && |cart.cartItems| >= |old(cart.cartItems)|
    ensures isAuthenticated ==> FindItem(cart.cartItems, p.id).Some?
    ensures isAuthenticated && FindItem(old(cart.cartItems), p.id).Some? ==>
      cart.cartItems == Bumped(old(cart.cartItems), p.id)
    ensures isAuthenticated && FindItem(old(cart.cartItems), p.id).None? ==>
      cart.cartItems == old(cart.cartItems) + [CartItem(p, 1)]
    ensures isAuthenticated && FindItem(old(cart.cartItems), p.id).Some? ==>
      Total(cart.cartItems) == Total(old(cart.cartItems)) + FindItem(old(cart.cartItems), p.id).value.product.price
    ensures isAuthenticated && FindItem(old(cart.cartItems), p.id).None? ==>
      Total(cart.cartItems) == Total(old(cart.cartItems)) + p.price
  {
    if !isAuthenticated {
      return Some("/login");
    }
    cart.AddToCart(p);
    redirect := None;
    if FindItem(old(cart.cartItems), p.id).None? {
      assert cart.cartItems[|cart.cartItems| - 1] == CartItem(p, 1);
    } else {
      var k := IndexOf(old(cart.cartItems), p.id);
      assert ItemId(cart.cartItems[k]) == p.id;
    }
  }

  /** The position of product `id` in a cart that holds it. */
  lemma IndexOf(items: seq<CartItem>, id: string) returns (k: nat)
    requires FindItem(items, id).Some?
    ensures k < |items| && ItemId(items[k]) == id
  {
    k :| 0 <= k < |items| && ItemId(items[k]) == id;
  }

  /** In a cart with distinct products, `find` returns the one entry for the product. */
  lemma {:induction false} FindIsAt(items: seq<CartItem>, id: string, k: nat)
    requires DistinctBy(items, ItemId) && k < |items| && ItemId(items[k]) == id
    ensures FindItem(items, id) == Some(items[k])
  {
    if k > 0 {
      assert ItemId(items[0]) != id;
      FindIsAt(items[1..], id, k - 1);
    }
  }

  /** One more unit of a product already in the cart keeps the entries distinct and adds its
      unit price to the total. */
  lemma BumpExisting(items: seq<CartItem>, p: Product)
    requires DistinctBy(items, ItemId) && FindItem(items, p.id).Some?
    ensures DistinctBy(Bumped(items, p.id), ItemId)
    ensures Total(Bumped(items, p.id)) == Total(items) + FindItem(items, p.id).value.product.price
  {
    var k := IndexOf(items, p.id);
    var x := items[k].(quantity := items[k].quantity + 1);
    BumpedIsUpdateAt(items, p.id, k);
    TotalUpdateAt(items, k, x);
    FindIsAt(items, p.id, k);
    assert LineTotal(x) == LineTotal(items[k]) + items[k].product.price;
    var b := Bumped(items, p.id);
    assert forall i :: 0 <= i < |b| ==> ItemId(b[i]) == ItemId(items[i]);
  }

  /** A new entry with one unit for a product not in the cart keeps the entries distinct and
      adds its price to the total. */
  lemma AppendNew(items: seq<CartItem>, p: Product)
    requires DistinctBy(items, ItemId) && FindItem(items, p.id).None?
    ensures DistinctBy(items + [CartItem(p, 1)], ItemId)
    ensures Total(items + [CartItem(p, 1)]) == Total(items) + p.price
  {
    TotalAppend(items, [CartItem(p, 1)]);
    assert Total([CartItem(p, 1)]) == p.price;
  }

  lemma BumpedIsUpdateAt(items: seq<CartItem>, id: string, k: nat)
    requires DistinctBy(items, ItemId) && k < |items| && ItemId(items[k]) == id
    ensures Bumped(items, id) == items[k := items[k].(quantity := items[k].quantity + 1)]
  {
  }

  lemma WithQuantityIsUpdateAt(items: seq<CartItem>, id: string, q: int, k: nat)
    requires DistinctBy(items, ItemId) && k < |items| && ItemId(items[k]) == id
    ensures WithQuantity(items, id, q) == items[k := items[k].(quantity := q)]
  {
  }

  /** The total of a concatenation is the sum of the totals. */
  lemma {:induction false} TotalAppend(a: seq<CartItem>, b: seq<CartItem>)
    ensures Total(a + b) == Total(a) + Total(b)
  {
    if a == [] {
      assert a + b == b;
    } else {
      assert (a + b)[1..] == a[1..] + b;
      TotalAppend(a[1..], b);
    }
  }

  /** Replacing one entry changes the total by the difference of the two line totals. */
  lemma {:induction false} TotalUpdateAt(items: seq<CartItem>, k: nat, x: CartItem)
    requires k < |items|
    ensures Total(items[k := x]) == Total(items) - LineTotal(items[k]) + LineTotal(x)
  {
    if k > 0 {
      assert items[k := x][1..] == items[1..][k - 1 := x];
      TotalUpdateAt(items[1..], k - 1, x);
    } else {
      assert items[k := x][1..] == items[1..];
    }
  }

  /** The entries for a product and the entries for the others together make up the total. */
  lemma {:induction false} TotalPartition(items: seq<CartItem>, id: string)
    ensures Total(Filter(items, Keeps(id))) + Total(Filter(items, Holds(id))) == Total(items)
  {
    if items != [] {
      TotalPartition(items[1..], id);
      var h := [items[0]];
      if ItemId(items[0]) == id {
        assert Filter(items, Keeps(id)) == Filter(items[1..], Keeps(id));
        assert Filter(items, Holds(id)) == h + Filter(items[1..], Holds(id));
        TotalAppend(h, Filter(items[1..], Holds(id)));
      } else {
        assert Filter(items, Keeps(id)) == h + Filter(items[1..], Keeps(id));
        assert Filter(items, Holds(id)) == Filter(items[1..], Holds(id));
        TotalAppend(h, Filter(items[1..], Keeps(id)));
      }
    }
  }

  /** With distinct products, the entries for product `id` are exactly the one at `k`. */
  lemma {:induction false} FilterDistinctMatch(items: seq<CartItem>, id: string, k: nat)
    requires DistinctBy(items, ItemId) && k < |items| && ItemId(items[k]) == id
    ensures Filter(items, Holds(id)) == [items[k]]
  {
    if k == 0 {
      assert forall x :: x in items[1..] ==> !Holds(id)(x) by {
        forall x | x in items[1..] ensures !Holds(id)(x) {
          var j :| 0 <= j < |items[1..]| && items[1..][j] == x;
          assert items[j + 1] == x;
        }
      }
      FilterNone(items[1..], Holds(id));
    } else {
      assert ItemId(items[0]) != id;
      FilterDistinctMatch(items[1..], id, k - 1);
    }
  }

}
