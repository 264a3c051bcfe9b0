/** Catalog items: the ingredient documents of models/Pizza.js (bases,
    sauces, cheeses, vegetables and meats, all of one shape told apart by
    a category tag), and the by-id lookups the routes perform on the
    collection. The collection is a sequence in the store's natural order
    with unique ids. */
module Catalog {

  import opened Common

  type ItemId = nat

  datatype Category = Base | Sauce | Cheese | Veggie | Meat

  function CategoryName(c: Category): string
  {
    match c
    case Base => "base"
    case Sauce => "sauce"
    case Cheese => "cheese"
    case Veggie => "veggie"
    case Meat => "meat"
  }

  /** The schema's enum check on `category`. */
  function ParseCategory(s: string): (r: Option<Category>)
    ensures r.Some? ==> CategoryName(r.value) == s
    ensures r.None? ==> forall c: Category :: CategoryName(c) != s
  {
    if s == "base" then Some(Base)
    else if s == "sauce" then Some(Sauce)
    else if s == "cheese" then Some(Cheese)
    else if s == "veggie" then Some(Veggie)
    else if s == "meat" then Some(Meat)
    else None
  }

  datatype Item = Item(
    id: ItemId,
    name: string,
    description: string,
    basePrice: int,
    image: string,
    category: Category,
    isAvailable: bool,
    stock: int,
    threshold: int)

  const DefaultImage: string := "https://via.placeholder.com/300x200?text=Pizza"
  const DefaultStock: int := 100
  const DefaultThreshold: int := 20

  /** The fields a new catalog document is built from; None is `undefined`. */
  datatype ItemFields = ItemFields(
    name: Option<string>,
    description: Option<string>,
    basePrice: Option<int>,
    image: Option<string>,
    category: Option<string>,
    isAvailable: Option<bool>,
    stock: Option<int>,
    threshold: Option<int>)

  /** Building and validating a document as the schema does. name,
      description, basePrice and category are required (a required string
      refuses ""), category must be one of the five names, and image,
      isAvailable, stock and threshold take their defaults when undefined.
      stock and threshold have no lower bound. A refused document is a
      validation error, which the routes answer with a server error. */
  function NewItem(id: ItemId, f: ItemFields): (r: Result<Item>)
    ensures r.Ok? <==>
      Truthy(f.name) && Truthy(f.description) && f.basePrice.Some?
      && f.category.Some? && ParseCategory(f.category.value).Some?
    ensures r.Err? ==> r.failure == ServerError
    ensures r.Ok? ==>
              && r.value.id == id && r.value.name == f.name.value
              && r.value.description == f.description.value && r.value.basePrice == f.basePrice.value
              && CategoryName(r.value.category) == f.category.value
    ensures r.Ok? ==> r.value.isAvailable == (f.isAvailable.None? || f.isAvailable.value)
    ensures r.Ok? ==> r.value.image == (if f.image.None? then DefaultImage else f.image.value)
    ensures r.Ok? ==> r.value.stock == (if f.stock.None? then DefaultStock else f.stock.value)
    ensures r.Ok? ==> r.value.threshold == (if f.threshold.None? then DefaultThreshold else f.threshold.value)
  {
    if !Truthy(f.name) || !Truthy(f.description) || f.basePrice.None? || f.category.None? then
      Err(ServerError)
    else
      match ParseCategory(f.category.value)
      case None => Err(ServerError)
      case Some(c) =>
        Ok(Item(
          id, f.name.value, f.description.value, f.basePrice.value,
          if f.image.None? then DefaultImage else f.image.value,
          c,
          if f.isAvailable.None? then true else f.isAvailable.value,
          if f.stock.None? then DefaultStock else f.stock.value,
          if f.threshold.None? then DefaultThreshold else f.threshold.value))
  }

  /** `_id` is the primary key of the collection. */
  predicate UniqueIds(docs: seq<Item>)
  {
    forall i, j :: 0 <= i < j < |docs| ==> docs[i].id != docs[j].id
  }

  /** Position of the document with the given id, if there is one. */
  function IndexOf(docs: seq<Item>, id: ItemId): (r: Option<nat>)
    ensures r.Some? ==> r.value < |docs| && docs[r.value].id == id
    ensures r.None? ==> forall i :: 0 <= i < |docs| ==> docs[i].id != id
  {
    if docs == [] then None
    else if docs[0].id == id then Some(0)
    else
      match IndexOf(docs[1..], id)
      case None => None
      case Some(k) => Some(k + 1)
  }

  /** With unique ids, the lookup finds exactly the document that has it. */
  lemma {:induction false} IndexOfUnique(docs: seq<Item>, i: nat)
    requires UniqueIds(docs) && i < |docs|
    ensures IndexOf(docs, docs[i].id) == Some(i)
    decreases i
  {
    if i > 0 {
      assert docs[1..][i - 1] == docs[i];
      IndexOfUnique(docs[1..], i - 1);
    }
  }

  /** `findById`: the document with that id, or null. */
  function Find(docs: seq<Item>, id: ItemId): (r: Option<Item>)
    ensures r.Some? ==> r.value in docs && r.value.id == id
    ensures r.None? ==> forall i :: 0 <= i < |docs| ==> docs[i].id != id
  {
    match IndexOf(docs, id)
    case None => None
    case Some(k) => Some(docs[k])
  }

  /** `doc.basePrice` when `findById` found a document, and nothing added
      (0) when it found none, as both pricing routes do. */
  function PriceOf(x: Option<Item>): int
  {
    if x.Some? then x.value.basePrice else 0
  }
}
