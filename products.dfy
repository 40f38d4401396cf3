/** The product table of controllers/productController.js: a collection of
    product documents in store order, changed in place by create, update,
    delete and delete-all, and looked up by `product_id`. */
module ProductController {
  import opened Values

  datatype Product = Product(
    productId: string,
    name: string,
    presentation: Option<string>,
    description: Option<string>)

  /** A JSON request body: its keys and their (string) values. */
  type Body = map<string, string>

  /** The position of the first product whose `product_id` is `id`, or
      `|ps|` when there is none: the store's queries see documents in store order. */
  function FirstIndexOf(ps: seq<Product>, id: string): (k: nat)
    ensures k <= |ps|
    ensures forall j :: 0 <= j < k ==> ps[j].productId != id
    ensures k < |ps| ==> ps[k].productId == id
  {
    if ps == [] then 0
    else if ps[0].productId == id then 0
    else 1 + FirstIndexOf(ps[1..], id)
  }

  /** Some product carries `id`: the first-match search finds one. */
  predicate HasProduct(ps: seq<Product>, id: string)
  {
    FirstIndexOf(ps, id) < |ps|
  }

  /** The document after update applies a body to it: every schema field
      present in the body is overwritten (`product_id` included), every
      other field keeps its value. */
  function ApplyPatch(p: Product, body: Body): Product
  {
    Product(
      if "product_id" in body then body["product_id"] else p.productId,
      if "name" in body then body["name"] else p.name,
      if "presentation" in body then Some(body["presentation"]) else p.presentation,
      if "description" in body then Some(body["description"]) else p.description)
  }

  /** Applying the same body twice gives what applying it once gives, and a
      body without schema fields changes nothing. */
  lemma PatchIdempotent(p: Product, body: Body)
    ensures ApplyPatch(ApplyPatch(p, body), body) == ApplyPatch(p, body)
    ensures (forall key :: key in body ==> key !in {"product_id", "name", "presentation", "description"})
            ==> ApplyPatch(p, body) == p
  {
  }

  class ProductStore {
    var products: seq<Product>

    constructor ()
      ensures products == []
    {
      products := [];
    }

    /** POST /products. */
    method Create(body: Body) returns (r: Response<Product>)
      modifies this
      ensures r.Ok? || r.Invalid?
      ensures r.Invalid? <==> !Truthy(Field(body, "product_id")) || !Truthy(Field(body, "name"))
      ensures r.Invalid? ==> products == old(products)
      ensures r.Ok? ==>
                && Field(body, "product_id") == Some(r.value.productId)
                && Field(body, "name") == Some(r.value.name)
                && r.value.presentation == Field(body, "presentation")
                && r.value.description == Field(body, "description")
                && products == old(products) + [r.value]
    {
      if !Truthy(Field(body, "product_id")) || !Truthy(Field(body, "name")) {
        r := Invalid;
        return;
      }
      var product := Product(body["product_id"], body["name"], Field(body, "presentation"), Field(body, "description"));
      products := products + [product];
      r := Ok(product);
    }

    /** GET /products/:product_id: the first match, or not-found. */
    method FindOne(id: string) returns (r: Response<Product>)
      ensures r.Ok? || r.NotFound?
      ensures r.NotFound? <==> !HasProduct(products, id)
      ensures r.Ok? ==> r.value.productId == id && r.value == products[FirstIndexOf(products, id)]
    {
      var k := FirstIndexOf(products, id);
      if k == |products| {
        r := NotFound;
      } else {
        r := Ok(products[k]);
      }
    }

    /** PUT /products/:product_id: patch the first match in place and return
        the updated document. A request without a body is refused. */
    method Update(id: string, body: Option<Body>) returns (r: Response<Product>)
      modifies this
      ensures body.None? ==> r == Invalid && products == old(products)
      ensures body.Some? && !HasProduct(old(products), id) ==>
                r == NotFound && products == old(products)
      ensures body.Some? && HasProduct(old(products), id) ==>
                var k := FirstIndexOf(old(products), id);
                && r == Ok(ApplyPatch(old(products)[k], body.value))
                && products == old(products)[k := r.value]
    {
      if body.None? {
        r := Invalid;
        return;
      }
      var k := FirstIndexOf(products, id);
      if k == |products| {
        r := NotFound;
        return;
      }
      var updated := ApplyPatch(products[k], body.value);
      products := products[k := updated];
      r := Ok(updated);
    }

    /** DELETE /products/:product_id: remove the first match. */
    method Delete(id: string) returns (r: Response<()>)
      modifies this
      ensures r.Ok? || r.NotFound?
      ensures r.NotFound? <==> !HasProduct(old(products), id)
      ensures r.NotFound? ==> products == old(products)
      ensures r.Ok? ==>
                var k := FirstIndexOf(old(products), id);
                products == old(products)[..k] + old(products)[k + 1..]
    {
      var k := FirstIndexOf(products, id);
      if k == |products| {
        r := NotFound;
        return;
      }
      products := products[..k] + products[k + 1..];
      r := Ok(());
    }

    /** DELETE /products: empty the table and report how many were removed. */
    method DeleteAll() returns (deletedCount: nat)
      modifies this
      ensures deletedCount == |old(products)| && products == []
    {
      deletedCount := |products|;
      products := [];
    }
  }
}
