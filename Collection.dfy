/** The pure list logic inside `addToCart` and `addToWishlist`: the duplicate test and the append. */
module Collection {
  import opened Catalog

  /** `items.some(item => item._id === id)`, scanning from the front. */
  function ContainsId(items: seq<Product>, id: string): (found: bool)
    ensures found <==> exists i :: 0 <= i < |items| && items[i].id == id
  {
    if items == [] then false
    else if items[0].id == id then true
    else
      var rest := ContainsId(items[1..], id);
      assert forall i :: 1 <= i < |items| ==> items[i] == items[1..][i - 1];
      rest
  }

  /** No two entries share a product id. */
  predicate DistinctIds(items: seq<Product>) {
    forall i, j :: 0 <= i < j < |items| ==> items[i].id != items[j].id
  }

  /** What the user is told: "already in your …" or "added … successfully". */
  datatype AddOutcome = AlreadyPresent | Added

  datatype AddResult = AddResult(outcome: AddOutcome, items: seq<Product>)

  /**
   * Add-if-absent: a product whose id is already listed is rejected and the
   * list is kept; otherwise the product goes at the end (`[...items, product]`).
   */
  function AddIfAbsent(items: seq<Product>, product: Product): (r: AddResult)
    ensures r.outcome == AlreadyPresent <==> ContainsId(items, product.id)
    ensures r.outcome == AlreadyPresent ==> r.items == items
    ensures r.outcome == Added ==> |r.items| == |items| + 1 && r.items[..|items|] == items && r.items[|items|] == product
    ensures ContainsId(r.items, product.id)
    ensures forall id :: ContainsId(r.items, id) <==> ContainsId(items, id) || id == product.id
    ensures DistinctIds(items) ==> DistinctIds(r.items)
  {
    if ContainsId(items, product.id) then AddResult(AlreadyPresent, items)
    else
      var updated := items + [product];
      assert updated[|items|] == product;
      assert forall i :: 0 <= i < |items| ==> updated[i] == items[i];
      AddResult(Added, updated)
  }

  /** Adding the same product twice is the same as adding it once; the second
      attempt is reported as a duplicate. */
  lemma AddIfAbsentIdempotent(items: seq<Product>, product: Product)
    ensures AddIfAbsent(AddIfAbsent(items, product).items, product)
         == AddResult(AlreadyPresent, AddIfAbsent(items, product).items)
  {
  }
}
