/** Product lookup by id (`GET /api/products/:id`, server.js:44). */
module Catalog {
  import opened Tables

  datatype ProductOutcome =
    | Found(product: Product)  // 200 with the row
    | NotFound                 // 404
    | LookupError              // 500: the id parameter does not fit INTEGER
  {
    function Status(): int {
      match this
      case Found(_) => 200
      case NotFound => 404
      case LookupError => 500
    }
  }

  /**
   * `SELECT * FROM products WHERE id = $1`: the row with that id, or 404 when
   * there is none. The parameter is bound as INTEGER, so an id outside that
   * range makes the query fail and the handler answer 500.
   */
  function FindProduct(products: map<int, Product>, id: int): (r: ProductOutcome)
    ensures r == LookupError <==> !IsInt32(id)
    ensures r == NotFound <==> IsInt32(id) && id !in products
    ensures r.Found? ==> r.product == products[id]
    ensures r.Found? && ProductsKeyed(products) ==> r.product.id == id
  {
    if !IsInt32(id) then LookupError
    else if id in products then Found(products[id])
    else NotFound
  }

  /** In a products table whose ids fit INTEGER, every stored product is found by its id. */
  lemma StoredProductIsFound(products: map<int, Product>, id: int)
    requires IntegersInRange(products) && id in products
    ensures FindProduct(products, id) == Found(products[id])
  {
  }
}
