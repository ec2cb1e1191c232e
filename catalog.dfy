/** The products table as the services read it: a sequence of rows, looked
    up by id the way `SELECT * FROM products WHERE id = %s` followed by
    `result[0]` does. */
module Catalog {
  import opened Text

  /** One row of the products table. Prices are whole paise; `stock` and
      `embedding` are nullable columns. */
  datatype Product = Product(
    id: int,
    name: string,
    description: string,
    price: int,
    stock: Option<int>,
    embedding: Option<string>)

  /** The first row with the given id, or None when there is none. */
  function FindProduct(table: seq<Product>, id: int): (r: Option<Product>)
    ensures r.Some? ==> r.value in table && r.value.id == id
    ensures r.None? <==> forall p :: p in table ==> p.id != id
  {
    if table == [] then None
    else if table[0].id == id then Some(table[0])
    else FindProduct(table[1..], id)
  }
}
