/** The client-side product store (frontend/hooks/useProductsStore.ts): the catalogue list,
    the list currently shown, and the actions that replace, edit and delete entries. */
module ProductsStore {
  import opened Wrappers
  import opened Seqs
  import opened Catalog

  /** The `map` of `updateProduct`: every entry with the update's id becomes the update. */
  function Replaced(products: seq<Product>, updated: Product): seq<Product>
  {
    seq(|products|, i requires 0 <= i < |products| =>
      if products[i].id == updated.id then updated else products[i])
  }

  /** The condition of `removeProduct`'s `filter`: entries with another id. */
  function OtherId(id: string): Product -> bool
  {
    (p: Product) => p.id != id
  }

  /** The product store. */
  class ProductStore {
    var products: seq<Product>
    var filteredProducts: seq<Product>

    constructor()
      ensures products == [] && filteredProducts == []
    {
      products := [];
      filteredProducts := [];
    }

    /** `setProducts`: replaces the catalogue list only. */
    method SetProducts(ps: seq<Product>)
      modifies this
      ensures products == ps && filteredProducts == old(filteredProducts)
    {
      products := ps;
    }

    /** `setFilteredProducts`: replaces the shown list only. */
    method SetFilteredProducts(ps: seq<Product>)
      modifies this
      ensures filteredProducts == ps && products == old(products)
    {
      filteredProducts := ps;
    }

    /** `updateProduct`: same length and order; exactly the entries with the update's id are
        replaced by it; the shown list is untouched. */
    method UpdateProduct(updated: Product)
      modifies this
      ensures products == Replaced(old(products), updated)
      ensures |products| == |old(products)|
      ensures forall i :: 0 <= i < |products| ==>
        products[i].id == old(products)[i].id
        && (old(products)[i].id == updated.id ==> products[i] == updated)
        && (old(products)[i].id != updated.id ==> products[i] == old(products)[i])
      ensures filteredProducts == old(filteredProducts)
    {
      products := Replaced(products, updated);
    }

    /** `removeProduct`: no entry with the id is left, the others keep their order; the shown
        list is untouched. */
    method RemoveProduct(id: string)
      modifies this
      ensures products == Filter(old(products), OtherId(id))
      ensures forall i :: 0 <= i < |products| ==> products[i].id != id
      ensures IsSubseq(products, old(products))
      ensures forall p :: p in old(products) && p.id != id ==> p in products
      ensures filteredProducts == old(filteredProducts)
    {
      FilterIsSubseq(products, OtherId(id));
      products := Filter(products, OtherId(id));
      forall i | 0 <= i < |products| ensures products[i].id != id {
        assert products[i] in products;
      }
    }

    /** The state change of `fetchProducts`: `response` is the list the server sent, `None`
        when the request or its decoding failed. On success both lists become that list; on
        failure nothing changes. */
    method FetchProducts(response: Option<seq<Product>>)
      modifies this
      ensures response.Some? ==> products == response.value && filteredProducts == response.value
      ensures response.None? ==> products == old(products) && filteredProducts == old(filteredProducts)
    {
      if response.Some? {
        products := response.value;
        filteredProducts := response.value;
      }
    }
  }

  /** `updateProduct` with an id that is not in the list leaves it as it was. */
  lemma UpdateUnknownId(products: seq<Product>, updated: Product)
    requires forall i :: 0 <= i < |products| ==> products[i].id != updated.id
    ensures Replaced(products, updated) == products
  {
  }

  /** Updating twice with the same product is updating once. */
  lemma UpdateIdempotent(products: seq<Product>, updated: Product)
    ensures Replaced(Replaced(products, updated), updated) == Replaced(products, updated)
  {
  }

  /** Removing a product after updating it is the same as removing it straight away. */
  lemma {:induction false} RemoveAfterUpdate(products: seq<Product>, updated: Product)
    ensures Filter(Replaced(products, updated), OtherId(updated.id)) == Filter(products, OtherId(updated.id))
  {
    if products != [] {
      var r := Replaced(products, updated);
      assert r[1..] == Replaced(products[1..], updated);
      RemoveAfterUpdate(products[1..], updated);
    }
  }
}
