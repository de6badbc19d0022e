/** The product record shared by the storefront's pages and stores (frontend/types/index.ts). */
module Catalog {
  import opened Wrappers

  /** A catalogue product. Prices and ratings are exact; `stock` may be any integer. */
  datatype Product = Product(
    id: string,
    name: string,
    description: string,
    price: real,
    imageUrl: string,
    category: string,
    rating: real,
    isNew: Option<bool>,
    discount: real,
    stock: int,
    usage: Option<string>)

  function ProductId(p: Product): string
  {
    p.id
  }
}
