/**
 The `Product` collection: documents in insertion order, with the constraints of
 `productSchema` (all three fields required, `name` unique, `price` a Number).
 */
module ProductModel {
  import opened Common

  /** A stored product. `price` follows the schema's `Number` type, not the `string`
      of the TypeScript interface. */
  datatype ProductDoc = ProductDoc(id: Id, name: string, category: string, price: real)

  predicate IdTaken(products: seq<ProductDoc>, id: Id) {
    exists i :: 0 <= i < |products| && products[i].id == id
  }

  predicate NameTaken(products: seq<ProductDoc>, name: string) {
    exists i :: 0 <= i < |products| && products[i].name == name
  }

  /** The schema's constraints, as they hold of every stored collection. */
  ghost predicate Valid(products: seq<ProductDoc>) {
    && (forall i, j :: 0 <= i < j < |products| ==> products[i].id != products[j].id)
    && (forall i, j :: 0 <= i < j < |products| ==> products[i].name != products[j].name)
    && (forall i :: 0 <= i < |products| ==> products[i].name != "" && products[i].category != "")
  }

  /** The unique index on `name`, looked up the way the database does before inserting. */
  function FindByName(products: seq<ProductDoc>, name: string): (r: Option<nat>)
    ensures r.Some? ==> r.value < |products| && products[r.value].name == name
    ensures r.None? <==> !NameTaken(products, name)
    decreases |products|
  {
    if |products| == 0 then None
    else if products[0].name == name then Some(0)
    else match FindByName(products[1..], name)
      case None => None
      case Some(k) => Some(k + 1)
  }

  /** The unique index on `_id`. */
  function FindById(products: seq<ProductDoc>, id: Id): (r: Option<nat>)
    ensures r.Some? ==> r.value < |products| && products[r.value].id == id
    ensures r.None? <==> !IdTaken(products, id)
    decreases |products|
  {
    if |products| == 0 then None
    else if products[0].id == id then Some(0)
    else match FindById(products[1..], id)
      case None => None
      case Some(k) => Some(k + 1)
  }

  /** `new Product({ name, category, price }).save()`: the required validators first
      (a Number path accepts any number, zero included), then the unique indexes. */
  function Create(products: seq<ProductDoc>, id: Id, name: Option<string>, category: Option<string>, price: Option<real>)
    : (r: Result<seq<ProductDoc>, DbError>)
    ensures r.Ok? <==>
      && RequiredString(name) && RequiredString(category) && price.Some?
      && !IdTaken(products, id) && !NameTaken(products, name.value)
    ensures r.Ok? ==> r.value == products + [ProductDoc(id, name.value, category.value, price.value)]
    ensures r.Err? && RequiredString(name) && RequiredString(category) && price.Some? && !IdTaken(products, id) ==>
      r.error == DuplicateKey("name")
    ensures Valid(products) && r.Ok? ==> Valid(r.value)
  {
    if !RequiredString(name) then Err(ValidationError("name"))
    else if !RequiredString(category) then Err(ValidationError("category"))
    else if price.None? then Err(ValidationError("price"))
    else if FindById(products, id).Some? then Err(DuplicateKey("_id"))
    else if FindByName(products, name.value).Some? then Err(DuplicateKey("name"))
    else Ok(products + [ProductDoc(id, name.value, category.value, price.value)])
  }

  /** A product whose name is already stored is refused. */
  lemma DuplicateNameRejected(products: seq<ProductDoc>, id: Id, i: nat, category: Option<string>, price: Option<real>)
    requires i < |products|
    ensures Create(products, id, Some(products[i].name), category, price).Err?
  {
  }

  /** `category` and `price` are not unique: a new product may repeat both from a stored one. */
  lemma {:induction false} SharedCategoryAndPriceAccepted(products: seq<ProductDoc>, id: Id, name: string, i: nat)
    requires Valid(products)
    requires i < |products| && name != "" && !NameTaken(products, name) && !IdTaken(products, id)
    ensures var r := Create(products, id, Some(name), Some(products[i].category), Some(products[i].price));
      && r.Ok? && Valid(r.value)
      && r.value[i].category == r.value[|products|].category
      && r.value[i].price == r.value[|products|].price
  {
    var r := Create(products, id, Some(name), Some(products[i].category), Some(products[i].price));
    assert r.value[i] == products[i];
  }
}
