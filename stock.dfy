/** How the order workflow of routes/orders.js moves catalog stock. The
    payments-disabled confirmation lowers the stock of every component
    occurrence of every line; payment verification lowers, and
    cancellation raises, only the stock of each line's representative
    `pizza`. Every change is a `$inc` on the document with that id (a
    missing id changes nothing), and there is no floor at zero. */
module Stock {

  import opened Common
  import opened Catalog
  import opened OrderModel

  /** `findByIdAndUpdate(id, { $inc: { stock: delta } })`. */
  function Inc(docs: seq<Item>, id: ItemId, delta: int): (r: seq<Item>)
    ensures |r| == |docs|
    ensures forall i :: 0 <= i < |docs| ==> r[i].id == docs[i].id
  {
    seq(|docs|, i requires 0 <= i < |docs| =>
      if docs[i].id == id then docs[i].(stock := docs[i].stock + delta) else docs[i])
  }

  /** `q` for every occurrence of `id` in `ids`. */
  function WeightedCount(ids: seq<ItemId>, id: ItemId, q: int): int
  {
    if ids == [] then 0
    else WeightedCount(ids[..|ids| - 1], id, q) + (if ids[|ids| - 1] == id then q else 0)
  }

  function SlotUse(slot: Option<ItemId>, id: ItemId, q: int): int
  {
    if slot == Some(id) then q else 0
  }

  /** The units of `id` one line's components take: the line quantity for
      each of base, sauce and cheese that is `id`, and for each occurrence
      of `id` in the vegetable and meat arrays. */
  function LineUse(l: LineItem, id: ItemId): int
  {
    var c := l.customizations;
    SlotUse(c.base, id, l.quantity) + SlotUse(c.sauce, id, l.quantity) + SlotUse(c.cheese, id, l.quantity)
    + WeightedCount(c.veggies, id, l.quantity) + WeightedCount(c.meat, id, l.quantity)
  }

  function ComponentDemand(lines: seq<LineItem>, id: ItemId): int
  {
    if lines == [] then 0 else ComponentDemand(lines[..|lines| - 1], id) + LineUse(lines[|lines| - 1], id)
  }

  /** The units of `id` the lines' representative references take. */
  function PizzaDemand(lines: seq<LineItem>, id: ItemId): int
  {
    if lines == [] then 0
    else PizzaDemand(lines[..|lines| - 1], id) + (if lines[|lines| - 1].pizza == id then lines[|lines| - 1].quantity else 0)
  }

  /** The catalog after the payments-disabled confirmation of these lines. */
  function ConsumeComponents(docs: seq<Item>, lines: seq<LineItem>): seq<Item>
  {
    seq(|docs|, i requires 0 <= i < |docs| => docs[i].(stock := docs[i].stock - ComponentDemand(lines, docs[i].id)))
  }

  /** The catalog after payment verification of these lines. */
  function ConsumeRepresentatives(docs: seq<Item>, lines: seq<LineItem>): seq<Item>
  {
    seq(|docs|, i requires 0 <= i < |docs| => docs[i].(stock := docs[i].stock - PizzaDemand(lines, docs[i].id)))
  }

  /** The catalog after cancellation of these lines. */
  function RestoreRepresentatives(docs: seq<Item>, lines: seq<LineItem>): seq<Item>
  {
    seq(|docs|, i requires 0 <= i < |docs| => docs[i].(stock := docs[i].stock + PizzaDemand(lines, docs[i].id)))
  }

  function Count(ids: seq<ItemId>, id: ItemId): nat
  {
    if ids == [] then 0 else Count(ids[..|ids| - 1], id) + (if ids[|ids| - 1] == id then 1 else 0)
  }

  /** Every occurrence takes the full quantity. */
  lemma {:induction false} WeightedCountIsProduct(ids: seq<ItemId>, id: ItemId, q: int)
    ensures WeightedCount(ids, id, q) == q * Count(ids, id)
    decreases |ids|
  {
    if ids != [] {
      WeightedCountIsProduct(ids[..|ids| - 1], id, q);
    }
  }

  predicate Mentions(l: LineItem, id: ItemId)
  {
    var c := l.customizations;
    c.base == Some(id) || c.sauce == Some(id) || c.cheese == Some(id) || id in c.veggies || id in c.meat
  }

  lemma {:induction false} UnlistedCountsNothing(ids: seq<ItemId>, id: ItemId, q: int)
    requires id !in ids
    ensures WeightedCount(ids, id, q) == 0
    decreases |ids|
  {
    if ids != [] {
      UnlistedCountsNothing(ids[..|ids| - 1], id, q);
    }
  }

  /** A catalog entry that no line mentions keeps its stock. */
  lemma {:induction false} UnmentionedUntouched(docs: seq<Item>, lines: seq<LineItem>, i: nat)
    requires i < |docs|
    requires forall k :: 0 <= k < |lines| ==> !Mentions(lines[k], docs[i].id)
    ensures ConsumeComponents(docs, lines)[i] == docs[i]
  {
    DemandOfUnmentioned(lines, docs[i].id);
  }

  lemma {:induction false} DemandOfUnmentioned(lines: seq<LineItem>, id: ItemId)
    requires forall k :: 0 <= k < |lines| ==> !Mentions(lines[k], id)
    ensures ComponentDemand(lines, id) == 0
    decreases |lines|
  {
    if lines != [] {
      var l := lines[|lines| - 1];
      DemandOfUnmentioned(lines[..|lines| - 1], id);
      UnlistedCountsNothing(l.customizations.veggies, id, l.quantity);
      UnlistedCountsNothing(l.customizations.meat, id, l.quantity);
    }
  }

  /** Verification followed by cancellation leaves the catalog as it was:
      both touch the same representative references by the same amounts. */
  lemma VerifyThenCancelRestores(docs: seq<Item>, lines: seq<LineItem>)
    ensures RestoreRepresentatives(ConsumeRepresentatives(docs, lines), lines) == docs
  {
    var after := RestoreRepresentatives(ConsumeRepresentatives(docs, lines), lines);
    assert forall i :: 0 <= i < |docs| ==> after[i] == docs[i];
  }

  /** Auto-confirmation followed by cancellation does not: a sauce that is
      not the line's representative loses the line quantity for good. */
  lemma {:induction false} AutoConfirmThenCancelKeepsSauce(docs: seq<Item>, l: LineItem, i: nat)
    requires i < |docs|
    requires l.customizations.sauce == Some(docs[i].id) && l.pizza != docs[i].id
    requires l.customizations.base != Some(docs[i].id) && l.customizations.cheese != Some(docs[i].id)
    requires docs[i].id !in l.customizations.veggies && docs[i].id !in l.customizations.meat
    ensures RestoreRepresentatives(ConsumeComponents(docs, [l]), [l])[i].stock == docs[i].stock - l.quantity
  {
    var id := docs[i].id;
    assert [l][..0] == [];
    UnlistedCountsNothing(l.customizations.veggies, id, l.quantity);
    UnlistedCountsNothing(l.customizations.meat, id, l.quantity);
    assert ComponentDemand([l], id) == l.quantity;
    assert PizzaDemand([l], id) == 0;
  }

  /** Stock has no floor: confirming more units of a cheese than are left
      takes its stock below zero. */
  lemma {:induction false} StockCanGoNegative(docs: seq<Item>, l: LineItem, i: nat)
    requires i < |docs|
    requires l.customizations == Customization(None, None, Some(docs[i].id), [], [])
    requires l.quantity > docs[i].stock
    ensures ConsumeComponents(docs, [l])[i].stock < 0
  {
    assert [l][..0] == [];
    assert ComponentDemand([l], docs[i].id) == l.quantity;
  }
}
