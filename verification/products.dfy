/** ProductService: inserts, overwrites, deletes and stock adjustments on the product store,
    and the two filtering queries. */
module Products {
  import opened Common
  import opened JavaNum
  import opened Ascii
  import opened Entities

  /** `createProduct`: the product is inserted under the key the identity column issues. */
  function CreateProduct(products: map<Id, Product>, newId: Id, product: Product): (r: map<Id, Product>)
    requires newId !in products
    ensures r.Keys == products.Keys + {newId}
    ensures r[newId] == product
    ensures forall k :: k in products ==> r[k] == products[k]
  {
    products[newId := product]
  }

  /** `deleteProduct`: `deleteById` removes the row, and silently does nothing for a missing id. */
  function DeleteProduct(products: map<Id, Product>, id: Id): (r: map<Id, Product>)
    ensures r.Keys == products.Keys - {id}
    ensures forall k :: k in r ==> r[k] == products[k]
  {
    products - {id}
  }

  /** Deleting what was just created gives the store back. */
  lemma DeleteUndoesCreate(products: map<Id, Product>, newId: Id, product: Product)
    requires newId !in products
    ensures DeleteProduct(CreateProduct(products, newId, product), newId) == products
  {
    var r := DeleteProduct(CreateProduct(products, newId, product), newId);
    assert r.Keys == products.Keys;
  }

  /** `updateProduct`: the seven fields are copied from `details` onto the stored product;
      a missing id throws and leaves the store alone. */
  function UpdateProduct(products: map<Id, Product>, id: Id, details: Product): (r: Result<map<Id, Product>>)
    ensures r.Err? <==> id !in products
    ensures r.Err? ==> r.error == ProductNotFound
    ensures r.Ok? ==> r.value.Keys == products.Keys && r.value[id] == details
    ensures r.Ok? ==> forall k :: k in products && k != id ==> r.value[k] == products[k]
  {
    if id !in products then Err(ProductNotFound)
    else
      var p := products[id];
      var updated := p.(
        name := details.name,
        price := details.price,
        description := details.description,
        imageUrl := details.imageUrl,
        category := details.category,
        stockQuantity := details.stockQuantity,
        isActive := details.isActive);
      Ok(products[id := updated])
  }

  /** `updateStock`: an existing product loses `quantity` units in Java `int` arithmetic, with no
      check that enough stock is left, and the answer is true; a missing id answers false. */
  function UpdateStock(products: map<Id, Product>, id: Id, quantity: Int32): (r: (bool, map<Id, Product>))
    ensures r.0 <==> id in products
    ensures !r.0 ==> r.1 == products
    ensures r.0 ==> r.1.Keys == products.Keys
    ensures r.0 ==> r.1[id] == products[id].(stockQuantity := Wrap32(products[id].stockQuantity - quantity))
    ensures forall k :: k in products && k != id ==> k in r.1 && r.1[k] == products[k]
  {
    if id in products then
      (true, products[id := products[id].(stockQuantity := Wrap32(products[id].stockQuantity - quantity))])
    else (false, products)
  }

  /** Stock may go negative: there is no lower bound. */
  lemma UpdateStockNoLowerBound(products: map<Id, Product>, id: Id)
    requires id in products && products[id].stockQuantity == 0
    ensures UpdateStock(products, id, 1).0
    ensures UpdateStock(products, id, 1).1[id].stockQuantity == -1
  {
  }

  /** Taking `quantity` units and then its Java negation gives every product its stock back,
      `Integer.MIN_VALUE` included. */
  lemma {:induction false} UpdateStockUndo(products: map<Id, Product>, id: Id, quantity: Int32)
    ensures UpdateStock(UpdateStock(products, id, quantity).1, id, Wrap32(-(quantity as int))).1 == products
  {
    if id in products {
      var s := products[id].stockQuantity;
      Wrap32Add(s - quantity, -(Wrap32(-(quantity as int)) as int));
      assert (Wrap32(-(quantity as int)) + quantity) % TWO_32 == 0;
      Int32Congruent(Wrap32(s - quantity - Wrap32(-(quantity as int))), s);
      var once := UpdateStock(products, id, quantity).1;
      var twice := UpdateStock(once, id, Wrap32(-(quantity as int))).1;
      assert twice[id] == products[id];
      assert twice.Keys == products.Keys;
    }
  }

  /** Writing the same details twice is writing them once, and writing a product's own
      fields back changes nothing. */
  lemma UpdateProductIdempotent(products: map<Id, Product>, id: Id, details: Product)
    requires id in products
    ensures UpdateProduct(UpdateProduct(products, id, details).value, id, details) == UpdateProduct(products, id, details)
    ensures UpdateProduct(products, id, products[id]) == Ok(products)
  {
    var once := UpdateProduct(products, id, details).value;
    assert once[id := details] == once;
    assert products[id := products[id]] == products;
  }

  predicate IsActive(p: Product) {
    p.isActive == Some(true)
  }

  /** `getActiveProducts` (`findByIsActiveTrue`): a null flag does not count as active. */
  function ActiveProducts(products: map<Id, Product>): (r: map<Id, Product>)
    ensures forall k :: k in r <==> k in products && products[k].isActive == Some(true)
    ensures forall k :: k in r ==> r[k] == products[k]
  {
    map k | k in products && IsActive(products[k]) :: products[k]
  }

  /** Creating a product adds it to the active listing exactly when its flag is TRUE. */
  lemma ActiveAfterCreate(products: map<Id, Product>, newId: Id, product: Product)
    requires newId !in products
    ensures ActiveProducts(CreateProduct(products, newId, product))
            == if IsActive(product) then ActiveProducts(products)[newId := product] else ActiveProducts(products)
  {
  }

  /** Deleting a product drops it from the active listing and leaves the rest listed. */
  lemma ActiveAfterDelete(products: map<Id, Product>, id: Id)
    ensures ActiveProducts(DeleteProduct(products, id)) == ActiveProducts(products) - {id}
  {
  }

  /** The listing is a fixed point of the filter: every product it returns is active. */
  lemma ActiveProductsIdempotent(products: map<Id, Product>)
    ensures ActiveProducts(ActiveProducts(products)) == ActiveProducts(products)
  {
  }

  /** `searchProducts` (`findByNameContainingIgnoreCase`). */
  function SearchProducts(products: map<Id, Product>, keyword: string): (r: map<Id, Product>)
    ensures forall k :: k in r <==> k in products && Contains(Upper(products[k].name), Upper(keyword))
    ensures forall k :: k in r ==> r[k] == products[k]
  {
    map k | k in products && ContainsIgnoreCase(products[k].name, keyword) :: products[k]
  }

  /** An empty keyword finds every product. */
  lemma SearchEmptyKeyword(products: map<Id, Product>)
    ensures SearchProducts(products, "") == products
  {
    forall k | k in products
      ensures ContainsIgnoreCase(products[k].name, "")
    {
      EmptyKeywordMatches(products[k].name);
    }
  }

  /** The keyword's case does not change the answer. */
  lemma SearchIgnoresKeywordCase(products: map<Id, Product>, keyword: string)
    ensures SearchProducts(products, keyword) == SearchProducts(products, Upper(keyword))
  {
    UpperIdempotent(keyword);
  }
}
