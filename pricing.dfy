/** Server-side pricing: the calculate-price route of routes/pizza.js and
    the per-line pricing loop of the create-order route in
    routes/orders.js. Both resolve component ids against the catalog and
    add up `basePrice`; ids that resolve to nothing are skipped silently,
    and an id array is resolved with one `$in` query, so each matching
    document counts once however often its id is repeated. */
module Pricing {

  import opened Common
  import opened Catalog
  import opened OrderModel

  /** `findById` on an optional id: an absent id finds nothing. */
  function Resolve(docs: seq<Item>, id: Option<ItemId>): (r: Option<Item>)
    ensures r.Some? ==> id.Some? && r.value in docs && r.value.id == id.value
    ensures r.None? && id.Some? ==> forall i :: 0 <= i < |docs| ==> docs[i].id != id.value
  {
    if id.None? then None else Find(docs, id.value)
  }

  /** `Pizza.find({ _id: { $in: ids } })`: the documents whose id is among
      `ids`, each once, in the collection's order. */
  function FindIn(docs: seq<Item>, ids: seq<ItemId>): (r: seq<Item>)
    ensures forall x :: x in r <==> x in docs && x.id in ids
    ensures UniqueIds(docs) ==> UniqueIds(r)
  {
    if docs == [] then []
    else
      var rest := FindIn(docs[1..], ids);
      assert forall x :: x in rest ==> x in docs[1..];
      if docs[0].id in ids then [docs[0]] + rest else rest
  }

  /** Only which catalog ids are requested matters: repeating an id,
      reordering the ids or adding ids the catalog lacks changes nothing. */
  lemma {:induction false} FindInAgrees(docs: seq<Item>, a: seq<ItemId>, b: seq<ItemId>)
    requires forall i :: 0 <= i < |docs| ==> (docs[i].id in a <==> docs[i].id in b)
    ensures FindIn(docs, a) == FindIn(docs, b)
    decreases |docs|
  {
    if docs != [] {
      FindInAgrees(docs[1..], a, b);
    }
  }

  /** The sum of `basePrice` over some documents. */
  function SumPrices(xs: seq<Item>): (r: int)
    ensures (forall i :: 0 <= i < |xs| ==> xs[i].basePrice >= 0) ==> r >= 0
  {
    if xs == [] then 0 else SumPrices(xs[..|xs| - 1]) + xs[|xs| - 1].basePrice
  }

  /** The unit price of a selection: base, sauce and cheese when they
      resolve, and every distinct resolved vegetable and meat. */
  function UnitPrice(docs: seq<Item>, c: Customization): (r: int)
    ensures (forall i :: 0 <= i < |docs| ==> docs[i].basePrice >= 0) ==> r >= 0
  {
    PriceOf(Resolve(docs, c.base)) + PriceOf(Resolve(docs, c.sauce)) + PriceOf(Resolve(docs, c.cheese))
    + SumPrices(FindIn(docs, c.veggies)) + SumPrices(FindIn(docs, c.meat))
  }

  /** A vegetable or meat id that is already selected is not charged again. */
  lemma RepeatedIdChargedOnce(docs: seq<Item>, c: Customization, v: ItemId, m: ItemId)
    requires v in c.veggies && m in c.meat
    ensures UnitPrice(docs, c.(veggies := c.veggies + [v], meat := c.meat + [m])) == UnitPrice(docs, c)
  {
    FindInAgrees(docs, c.veggies + [v], c.veggies);
    FindInAgrees(docs, c.meat + [m], c.meat);
  }

  /** An id that no catalog document has adds nothing and raises no error,
      in any slot. */
  lemma UnknownIdAddsNothing(docs: seq<Item>, c: Customization, x: ItemId)
    requires forall i :: 0 <= i < |docs| ==> docs[i].id != x
    ensures UnitPrice(docs, c.(veggies := c.veggies + [x], meat := c.meat + [x])) == UnitPrice(docs, c)
    ensures c.base.None? ==> UnitPrice(docs, c.(base := Some(x))) == UnitPrice(docs, c)
    ensures c.sauce.None? ==> UnitPrice(docs, c.(sauce := Some(x))) == UnitPrice(docs, c)
    ensures c.cheese.None? ==> UnitPrice(docs, c.(cheese := Some(x))) == UnitPrice(docs, c)
  {
    FindInAgrees(docs, c.veggies + [x], c.veggies);
    FindInAgrees(docs, c.meat + [x], c.meat);
  }

  /** One entry of the calculate-price breakdown: `{ name, type, price }`,
      where `type` is the slot the component was selected in. */
  datatype Entry = Entry(name: string, kind: Category, price: int)

  function EntryOf(x: Item, kind: Category): Entry
  {
    Entry(x.name, kind, x.basePrice)
  }

  function EntriesOf(xs: seq<Item>, kind: Category): (r: seq<Entry>)
    ensures |r| == |xs|
  {
    seq(|xs|, i requires 0 <= i < |xs| => EntryOf(xs[i], kind))
  }

  /** Every entry carries the name and the price of a catalog document. */
  predicate FromCatalog(docs: seq<Item>, es: seq<Entry>)
  {
    forall e :: e in es ==> exists x :: x in docs && e == EntryOf(x, e.kind)
  }

  /** Entries made from catalog documents name a catalog document. */
  lemma EntriesFrom(docs: seq<Item>, xs: seq<Item>, kind: Category)
    requires forall x :: x in xs ==> x in docs
    ensures FromCatalog(docs, EntriesOf(xs, kind))
  {
    forall e | e in EntriesOf(xs, kind)
      ensures exists x :: x in docs && e == EntryOf(x, e.kind)
    {
      var i :| 0 <= i < |xs| && EntriesOf(xs, kind)[i] == e;
      assert xs[i] in docs;
    }
  }

  function SingleEntry(docs: seq<Item>, id: Option<ItemId>, kind: Category): seq<Entry>
  {
    match Resolve(docs, id)
    case None => []
    case Some(x) => [EntryOf(x, kind)]
  }

  /** The breakdown calculate-price reports, in its order: base, sauce,
      cheese, then the vegetables, then the meats. */
  function Breakdown(docs: seq<Item>, c: Customization): (r: seq<Entry>)
    ensures FromCatalog(docs, r)
  {
    EntriesFrom(docs, FindIn(docs, c.veggies), Veggie);
    EntriesFrom(docs, FindIn(docs, c.meat), Meat);
    SingleEntry(docs, c.base, Base) + SingleEntry(docs, c.sauce, Sauce) + SingleEntry(docs, c.cheese, Cheese)
    + EntriesOf(FindIn(docs, c.veggies), Veggie) + EntriesOf(FindIn(docs, c.meat), Meat)
  }

  /** The sum of the prices of some breakdown entries. */
  function Total(es: seq<Entry>): int
  {
    if es == [] then 0 else Total(es[..|es| - 1]) + es[|es| - 1].price
  }

  lemma {:induction false} TotalAppend(a: seq<Entry>, b: seq<Entry>)
    ensures Total(a + b) == Total(a) + Total(b)
    decreases |b|
  {
    if b == [] {
      assert a + b == a;
    } else {
      TotalAppend(a, b[..|b| - 1]);
      assert (a + b)[..|a + b| - 1] == a + b[..|b| - 1];
    }
  }

  lemma {:induction false} TotalOfEntries(xs: seq<Item>, kind: Category)
    ensures Total(EntriesOf(xs, kind)) == SumPrices(xs)
    decreases |xs|
  {
    if xs != [] {
      TotalOfEntries(xs[..|xs| - 1], kind);
      assert EntriesOf(xs, kind)[..|xs| - 1] == EntriesOf(xs[..|xs| - 1], kind);
    }
  }

  /** The place of a slot in the breakdown: the order in which
      calculate-price looks up base, sauce, cheese, veggies and meats. */
  function SlotRank(k: Category): nat
  {
    match k
    case Base => 0
    case Sauce => 1
    case Cheese => 2
    case Veggie => 3
    case Meat => 4
  }

  /** The breakdown adds up to the unit price. */
  lemma BreakdownMatchesUnitPrice(docs: seq<Item>, c: Customization)
    ensures Total(Breakdown(docs, c)) == UnitPrice(docs, c)
  {
    var b, s, ch := SingleEntry(docs, c.base, Base), SingleEntry(docs, c.sauce, Sauce), SingleEntry(docs, c.cheese, Cheese);
    var v, m := EntriesOf(FindIn(docs, c.veggies), Veggie), EntriesOf(FindIn(docs, c.meat), Meat);
    TotalAppend(b, s);
    TotalAppend(b + s, ch);
    TotalAppend(b + s + ch, v);
    TotalAppend(b + s + ch + v, m);
    TotalOfEntries(FindIn(docs, c.veggies), Veggie);
    TotalOfEntries(FindIn(docs, c.meat), Meat);
    SingleEntryTotal(docs, c.base, Base);
    SingleEntryTotal(docs, c.sauce, Sauce);
    SingleEntryTotal(docs, c.cheese, Cheese);
    assert Breakdown(docs, c) == b + s + ch + v + m;
  }

  lemma SingleEntryTotal(docs: seq<Item>, id: Option<ItemId>, kind: Category)
    ensures Total(SingleEntry(docs, id, kind)) == PriceOf(Resolve(docs, id))
  {
    match Resolve(docs, id)
    case None =>
    case Some(x) =>
      assert SingleEntry(docs, id, kind)[..0] == [];
  }

  /** Every entry of a list carries the given slot. */
  predicate AllOfKind(es: seq<Entry>, k: Category)
  {
    forall i :: 0 <= i < |es| ==> es[i].kind == k
  }

  /** Slot ranks never decrease along a list of entries. */
  predicate SlotOrdered(es: seq<Entry>)
  {
    forall i, j :: 0 <= i < j < |es| ==> SlotRank(es[i].kind) <= SlotRank(es[j].kind)
  }

  lemma SlotOrderedAppend(a: seq<Entry>, b: seq<Entry>, k: Category)
    requires SlotOrdered(a) && AllOfKind(b, k)
    requires forall i :: 0 <= i < |a| ==> SlotRank(a[i].kind) <= SlotRank(k)
    ensures SlotOrdered(a + b)
    ensures forall i :: 0 <= i < |a + b| ==> SlotRank((a + b)[i].kind) <= SlotRank(k)
  {
  }

  /** The breakdown lists base, sauce and cheese first, then the
      vegetables, then the meats. */
  lemma BreakdownSlotOrder(docs: seq<Item>, c: Customization)
    ensures SlotOrdered(Breakdown(docs, c))
  {
    var b, s, ch := SingleEntry(docs, c.base, Base), SingleEntry(docs, c.sauce, Sauce), SingleEntry(docs, c.cheese, Cheese);
    var v, m := EntriesOf(FindIn(docs, c.veggies), Veggie), EntriesOf(FindIn(docs, c.meat), Meat);
    SlotOrderedAppend(b, s, Sauce);
    SlotOrderedAppend(b + s, ch, Cheese);
    SlotOrderedAppend(b + s + ch, v, Veggie);
    SlotOrderedAppend(b + s + ch + v, m, Meat);
  }

  /** A query whose ids match no document finds nothing. */
  lemma {:induction false} FindInNothing(docs: seq<Item>, ids: seq<ItemId>)
    requires forall i :: 0 <= i < |docs| ==> docs[i].id !in ids
    ensures FindIn(docs, ids) == []
    decreases |docs|
  {
    if docs != [] {
      FindInNothing(docs[1..], ids);
    }
  }

  /** An empty selection costs nothing and has an empty breakdown. */
  lemma EmptySelection(docs: seq<Item>)
    ensures UnitPrice(docs, NoCustomization) == 0 && Breakdown(docs, NoCustomization) == []
  {
    FindInNothing(docs, []);
  }

  /** The calculate-price route: walks base, sauce and cheese, then the
      documents found for the vegetable and meat arrays, adding each
      resolved component's price to the total and an entry to the
      breakdown. */
  method CalculatePrice(docs: seq<Item>, base: Option<ItemId>, sauce: Option<ItemId>, cheese: Option<ItemId>,
                        veggies: seq<ItemId>, meats: seq<ItemId>)
    returns (totalPrice: int, breakdown: seq<Entry>)
    ensures breakdown == Breakdown(docs, Customization(base, sauce, cheese, veggies, meats))
    ensures totalPrice == UnitPrice(docs, Customization(base, sauce, cheese, veggies, meats))
    ensures totalPrice == Total(breakdown)
  {
    var c := Customization(base, sauce, cheese, veggies, meats);
    totalPrice := 0;
    var selected: seq<Entry> := [];
    totalPrice, selected := AddOne(docs, base, Base, totalPrice, selected);
    assert selected == SingleEntry(docs, base, Base);
    totalPrice, selected := AddOne(docs, sauce, Sauce, totalPrice, selected);
    totalPrice, selected := AddOne(docs, cheese, Cheese, totalPrice, selected);
    totalPrice, selected := AddQueried(docs, veggies, Veggie, totalPrice, selected);
    totalPrice, selected := AddQueried(docs, meats, Meat, totalPrice, selected);
    breakdown := selected;
    BreakdownMatchesUnitPrice(docs, c);
  }

  /** One `if (id) { findById; if (found) { ... } }` block of
      calculate-price. */
  method AddOne(docs: seq<Item>, id: Option<ItemId>, kind: Category, total0: int, selected0: seq<Entry>)
    returns (total: int, selected: seq<Entry>)
    ensures total == total0 + PriceOf(Resolve(docs, id))
    ensures selected == selected0 + SingleEntry(docs, id, kind)
  {
    total, selected := total0, selected0;
    if id.Some? {
      var x := Find(docs, id.value);
      if x.Some? {
        total := total + x.value.basePrice;
        selected := selected + [EntryOf(x.value, kind)];
      }
    }
  }

  /** The `forEach` over the documents of one `$in` query. */
  method AddEach(found: seq<Item>, kind: Category, total0: int, selected0: seq<Entry>)
    returns (total: int, selected: seq<Entry>)
    ensures total == total0 + SumPrices(found)
    ensures selected == selected0 + EntriesOf(found, kind)
  {
    total, selected := total0, selected0;
    var i := 0;
    while i < |found|
      invariant 0 <= i <= |found|
      invariant total == total0 + SumPrices(found[..i])
      invariant selected == selected0 + EntriesOf(found[..i], kind)
    {
      assert found[..i + 1][..i] == found[..i];
      total := total + found[i].basePrice;
      selected := selected + [EntryOf(found[i], kind)];
      i := i + 1;
    }
    assert found[..i] == found;
  }

  /** One `if (ids && ids.length > 0) { $in query; forEach }` block of
      calculate-price: an empty id list skips the query, which would have
      found nothing. */
  method AddQueried(docs: seq<Item>, ids: seq<ItemId>, kind: Category, total0: int, selected0: seq<Entry>)
    returns (total: int, selected: seq<Entry>)
    ensures total == total0 + SumPrices(FindIn(docs, ids))
    ensures selected == selected0 + EntriesOf(FindIn(docs, ids), kind)
  {
    if |ids| > 0 {
      total, selected := AddEach(FindIn(docs, ids), kind, total0, selected0);
    } else {
      FindInNothing(docs, ids);
      total, selected := total0, selected0;
      assert selected == selected0 + EntriesOf(FindIn(docs, ids), kind);
    }
  }

  /** The unit price computation of one create-order line: each slot is
      resolved with `findById` or, for arrays, one `$in` query, and every
      document found adds its price. */
  method UnitPriceOf(docs: seq<Item>, c: Customization) returns (unitPrice: int)
    ensures unitPrice == UnitPrice(docs, c)
  {
    unitPrice := 0;
    var b := Resolve(docs, c.base);
    if b.Some? { unitPrice := unitPrice + b.value.basePrice; }
    var s := Resolve(docs, c.sauce);
    if s.Some? { unitPrice := unitPrice + s.value.basePrice; }
    var ch := Resolve(docs, c.cheese);
    if ch.Some? { unitPrice := unitPrice + ch.value.basePrice; }
    var ignored: seq<Entry>;
    unitPrice, ignored := AddEach(FindIn(docs, c.veggies), Veggie, unitPrice, []);
    unitPrice, ignored := AddEach(FindIn(docs, c.meat), Meat, unitPrice, []);
  }
}
