/** Catalogue entries. The catalogue itself is a read-only sequence of
    products handed to the engine; the core never changes it. */
module Catalogue {

  type ProductId = string

  /** A catalogue product. `description` and `image` are presentation only
      and are not part of the model. */
  datatype Product = Product(
    id: ProductId,
    name: string,
    category: string,
    price: real,
    originalPrice: real,
    rating: real,
    tags: seq<string>)

  /** `p.tags.some(tag => wanted.includes(tag))`. */
  predicate HasAnyTag(p: Product, wanted: seq<string>)
  {
    exists i :: 0 <= i < |p.tags| && p.tags[i] in wanted
  }
}
