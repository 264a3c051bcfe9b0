/** The pizza builder wizard of client/src/pages/PizzaBuilder.js: six
    steps (base, sauce, cheese, vegetables, meats, review), a selection
    per step, a price refreshed from the calculate-price route whenever
    anything is selected, and the one-item order it sends to the
    create-order route. The page's component state is a `Builder` object
    whose methods are its event handlers; the catalog the price route
    reads is passed in. */
module Builder {

  import opened Common
  import opened Catalog
  import opened OrderModel
  import Listing
  import Pricing
  import Shop

  /** `steps.length - 1`: the review step. */
  const LastStep: nat := 5

  const NoBase := "Please select a pizza base"
  const NoSauce := "Please select a sauce"
  const NoCheese := "Please select a cheese"
  const NothingToOrder := "Please select at least a base, sauce, and cheese"

  predicate HasId(xs: seq<Item>, id: ItemId)
  {
    exists k :: 0 <= k < |xs| && xs[k].id == id
  }

  /** The filter callback that drops the entries with this id. */
  function Other(id: ItemId): Item -> bool
  {
    (y: Item) => y.id != id
  }

  /** The toggle updater of the vegetable and meat lists: an item whose id
      is already selected is removed (every entry with that id), any other
      item is appended. */
  function Toggle(prev: seq<Item>, x: Item): (r: seq<Item>)
    ensures HasId(prev, x.id) ==> forall y :: y in r <==> y in prev && y.id != x.id
    ensures !HasId(prev, x.id) ==> r == prev + [x]
    ensures HasId(r, x.id) <==> !HasId(prev, x.id)
  {
    if HasId(prev, x.id) then
      var r := Listing.Filter(prev, Other(x.id));
      assert !HasId(r, x.id) by {
        forall k | 0 <= k < |r| ensures r[k].id != x.id {
          assert r[k] in r;
        }
      }
      r
    else
      assert (prev + [x])[|prev|].id == x.id;
      prev + [x]
  }

  lemma {:induction false} FilterAppend(a: seq<Item>, b: seq<Item>, keep: Item -> bool)
    ensures Listing.Filter(a + b, keep) == Listing.Filter(a, keep) + Listing.Filter(b, keep)
    decreases |b|
  {
    if b == [] {
      assert a + b == a;
    } else {
      var ab, init, last := a + b, b[..|b| - 1], b[|b| - 1];
      var tail := if keep(last) then [last] else [];
      assert ab[..|ab| - 1] == a + init;
      assert ab[|ab| - 1] == last;
      assert Listing.Filter(ab, keep) == Listing.Filter(a + init, keep) + tail;
      assert Listing.Filter(b, keep) == Listing.Filter(init, keep) + tail;
      FilterAppend(a, init, keep);
      assert Listing.Filter(a, keep) + Listing.Filter(init, keep) + tail
          == Listing.Filter(a, keep) + (Listing.Filter(init, keep) + tail);
    }
  }

  lemma {:induction false} FilterKeepsAll(a: seq<Item>, keep: Item -> bool)
    requires forall k :: 0 <= k < |a| ==> keep(a[k])
    ensures Listing.Filter(a, keep) == a
    decreases |a|
  {
    if a != [] {
      var init, last := a[..|a| - 1], a[|a| - 1];
      forall k | 0 <= k < |init| ensures keep(init[k]) {
        assert init[k] == a[k];
      }
      FilterKeepsAll(init, keep);
      assert keep(last);
      assert Listing.Filter(a, keep) == Listing.Filter(init, keep) + [last];
      SplitLast(a);
    }
  }

  /** A non-empty list is its init followed by its last element. */
  lemma SplitLast(a: seq<Item>)
    requires a != []
    ensures a == a[..|a| - 1] + [a[|a| - 1]]
  {
    assert forall k :: 0 <= k < |a| ==> (a[..|a| - 1] + [a[|a| - 1]])[k] == a[k];
  }

  /** Toggling keeps the ids of a list distinct. */
  lemma ToggleKeepsUnique(prev: seq<Item>, x: Item)
    requires UniqueIds(prev)
    ensures UniqueIds(Toggle(prev, x))
  {
    if HasId(prev, x.id) {
      Listing.FilterUnique(prev, Other(x.id));
    }
  }

  /** Toggling an item that is not selected, twice, gives the list back. */
  lemma ToggleTwiceAbsent(prev: seq<Item>, x: Item)
    requires !HasId(prev, x.id)
    ensures Toggle(Toggle(prev, x), x) == prev
  {
    var once := prev + [x];
    var keep := Other(x.id);
    FilterAppend(prev, [x], keep);
    FilterKeepsAll(prev, keep);
    assert [x][..0] == [];
    assert Listing.Filter([x], keep) == [];
    assert once == prev + [x];
  }

  lemma FilterDropsOne(before: seq<Item>, x: Item, after: seq<Item>, keep: Item -> bool)
    requires forall i :: 0 <= i < |before| ==> keep(before[i])
    requires forall i :: 0 <= i < |after| ==> keep(after[i])
    requires !keep(x)
    ensures Listing.Filter(before + [x] + after, keep) == before + after
  {
    assert [x][..0] == [];
    assert Listing.Filter([x], keep) == [];
    FilterAppend(before, [x], keep);
    FilterKeepsAll(before, keep);
    assert Listing.Filter(before + [x], keep) == before;
    FilterAppend(before + [x], after, keep);
    FilterKeepsAll(after, keep);
  }

  /** In a list with distinct ids, no entry before or after entry k has
      its id. */
  lemma OthersKept(prev: seq<Item>, k: nat, before: seq<Item>, after: seq<Item>)
    requires UniqueIds(prev) && k < |prev|
    requires before == prev[..k] && after == prev[k + 1..]
    ensures forall i :: 0 <= i < |before| ==> before[i].id != prev[k].id
    ensures forall i :: 0 <= i < |after| ==> after[i].id != prev[k].id
  {
    forall i | 0 <= i < |before|
      ensures before[i].id != prev[k].id
    {
      assert before[i] == prev[i];
    }
    forall i | 0 <= i < |after|
      ensures after[i].id != prev[k].id
    {
      assert after[i] == prev[k + 1 + i];
    }
  }

  /** Dropping the id of an entry no other entry shares drops that entry. */
  lemma DropId(before: seq<Item>, x: Item, after: seq<Item>)
    requires forall i :: 0 <= i < |before| ==> before[i].id != x.id
    requires forall i :: 0 <= i < |after| ==> after[i].id != x.id
    ensures Listing.Filter(before + [x] + after, Other(x.id)) == before + after
  {
    FilterDropsOne(before, x, after, Other(x.id));
  }

  /** In a list with distinct ids, dropping the id of entry k drops
      exactly that entry. */
  lemma RemoveOne(prev: seq<Item>, k: nat)
    requires UniqueIds(prev) && k < |prev|
    ensures Listing.Filter(prev, Other(prev[k].id)) == prev[..k] + prev[k + 1..]
  {
    var x := prev[k];
    var before, after := prev[..k], prev[k + 1..];
    OthersKept(prev, k, before, after);
    DropId(before, x, after);
    assert prev == before + [x] + after;
  }

  /** Toggling a selected item twice moves it to the end of the list. */
  lemma ToggleTwicePresent(prev: seq<Item>, k: nat)
    requires UniqueIds(prev) && k < |prev|
    ensures Toggle(Toggle(prev, prev[k]), prev[k]) == prev[..k] + prev[k + 1..] + [prev[k]]
  {
    var x := prev[k];
    assert HasId(prev, x.id);
    RemoveOne(prev, k);
    var once := Toggle(prev, x);
    assert once == prev[..k] + prev[k + 1..];
    assert !HasId(once, x.id);
  }

  function Ids(xs: seq<Item>): (r: seq<ItemId>)
    ensures |r| == |xs| && forall k :: 0 <= k < |xs| ==> r[k] == xs[k].id
  {
    seq(|xs|, k requires 0 <= k < |xs| => xs[k].id)
  }

  function IdOf(x: Option<Item>): Option<ItemId>
  {
    if x.None? then None else Some(x.value.id)
  }

  /** The error Next reports at a step, if its selection is missing. */
  function MissingAt(step: nat, base: Option<Item>, sauce: Option<Item>, cheese: Option<Item>): (m: Option<string>)
    ensures m.Some? <==> (step == 0 && base.None?) || (step == 1 && sauce.None?) || (step == 2 && cheese.None?)
    ensures m.Some? ==> m.value == (if step == 0 then NoBase else if step == 1 then NoSauce else NoCheese)
  {
    if step == 0 && base.None? then Some(NoBase)
    else if step == 1 && sauce.None? then Some(NoSauce)
    else if step == 2 && cheese.None? then Some(NoCheese)
    else None
  }

  /** The one entry of the `items` array `confirmOrder` posts. */
  datatype PayloadItem = PayloadItem(pizza: ItemId, quantity: int, customizations: Customization)

  /** What the create-order route reads of a posted item: it ignores
      `pizza` and takes its reference from the customizations. */
  function Received(p: PayloadItem): Shop.RequestedItem
  {
    Shop.RequestedItem(Some(p.quantity), p.customizations)
  }

  class Builder {
    var activeStep: nat
    var error: string
    var selectedBase: Option<Item>
    var selectedSauce: Option<Item>
    var selectedCheese: Option<Item>
    var selectedVeggies: seq<Item>
    var selectedMeats: seq<Item>
    var totalPrice: int
    var showOrderSummary: bool

    /** The step stays within the six steps, Next has let the wizard past
        a step only with that step's selection made (selections are never
        cleared), and toggling keeps the lists free of repeated ids. */
    ghost predicate Valid()
      reads this
    {
      && activeStep <= LastStep
      && (activeStep > 0 ==> selectedBase.Some?)
      && (activeStep > 1 ==> selectedSauce.Some?)
      && (activeStep > 2 ==> selectedCheese.Some?)
      && UniqueIds(selectedVeggies)
      && UniqueIds(selectedMeats)
    }

    constructor ()
      ensures Valid()
      ensures activeStep == 0 && error == "" && totalPrice == 0 && !showOrderSummary
      ensures selectedBase == None && selectedSauce == None && selectedCheese == None
      ensures selectedVeggies == [] && selectedMeats == []
    {
      activeStep := 0;
      error := "";
      selectedBase := None;
      selectedSauce := None;
      selectedCheese := None;
      selectedVeggies := [];
      selectedMeats := [];
      totalPrice := 0;
      showOrderSummary := false;
    }

    /** The ids the price request and the order carry. */
    function Selection(): (c: Customization)
      reads this
      ensures c.base == IdOf(selectedBase) && c.sauce == IdOf(selectedSauce) && c.cheese == IdOf(selectedCheese)
      ensures c.veggies == Ids(selectedVeggies) && c.meat == Ids(selectedMeats)
    {
      Customization(IdOf(selectedBase), IdOf(selectedSauce), IdOf(selectedCheese), Ids(selectedVeggies), Ids(selectedMeats))
    }

    /** The condition of the price effect. */
    predicate AnySelected()
      reads this
    {
      selectedBase.Some? || selectedSauce.Some? || selectedCheese.Some? || |selectedVeggies| > 0 || |selectedMeats| > 0
    }

    /** The price effect: with anything selected, the total becomes the
        calculate-price route's answer; with nothing, it keeps its value. */
    method Refresh(docs: seq<Item>)
      modifies this`totalPrice
      ensures AnySelected() ==> totalPrice == Pricing.UnitPrice(docs, Selection())
      ensures !AnySelected() ==> totalPrice == old(totalPrice)
    {
      if AnySelected() {
        var c := Selection();
        var breakdown;
        totalPrice, breakdown := Pricing.CalculatePrice(docs, c.base, c.sauce, c.cheese, c.veggies, c.meat);
      }
    }

    method SelectBase(x: Item, docs: seq<Item>)
      requires Valid()
      modifies this`selectedBase, this`totalPrice
      ensures Valid()
      ensures selectedBase == Some(x)
      ensures totalPrice == Pricing.UnitPrice(docs, Selection())
    {
      selectedBase := Some(x);
      assert Valid();
      Refresh(docs);
    }

    method SelectSauce(x: Item, docs: seq<Item>)
      requires Valid()
      modifies this`selectedSauce, this`totalPrice
      ensures Valid()
      ensures selectedSauce == Some(x)
      ensures totalPrice == Pricing.UnitPrice(docs, Selection())
    {
      selectedSauce := Some(x);
      assert Valid();
      Refresh(docs);
    }

    method SelectCheese(x: Item, docs: seq<Item>)
      requires Valid()
      modifies this`selectedCheese, this`totalPrice
      ensures Valid()
      ensures selectedCheese == Some(x)
      ensures totalPrice == Pricing.UnitPrice(docs, Selection())
    {
      selectedCheese := Some(x);
      assert Valid();
      Refresh(docs);
    }

    method ToggleVeggie(x: Item, docs: seq<Item>)
      requires Valid()
      modifies this`selectedVeggies, this`totalPrice
      ensures Valid()
      ensures selectedVeggies == Toggle(old(selectedVeggies), x)
      ensures AnySelected() ==> totalPrice == Pricing.UnitPrice(docs, Selection())
      ensures !AnySelected() ==> totalPrice == old(totalPrice)
    {
      ToggleKeepsUnique(selectedVeggies, x);
      selectedVeggies := Toggle(selectedVeggies, x);
      assert Valid();
      Refresh(docs);
    }

    method ToggleMeat(x: Item, docs: seq<Item>)
      requires Valid()
      modifies this`selectedMeats, this`totalPrice
      ensures Valid()
      ensures selectedMeats == Toggle(old(selectedMeats), x)
      ensures AnySelected() ==> totalPrice == Pricing.UnitPrice(docs, Selection())
      ensures !AnySelected() ==> totalPrice == old(totalPrice)
    {
      ToggleKeepsUnique(selectedMeats, x);
      selectedMeats := Toggle(selectedMeats, x);
      assert Valid();
      Refresh(docs);
    }

    /** Next; the button is not shown at the review step. */
    method HandleNext()
      requires Valid() && activeStep < LastStep
      modifies this`activeStep, this`error
      ensures Valid()
      ensures var m := MissingAt(old(activeStep), selectedBase, selectedSauce, selectedCheese);
              if m.Some? then error == m.value && activeStep == old(activeStep)
              else error == "" && activeStep == old(activeStep) + 1
    {
      var m := MissingAt(activeStep, selectedBase, selectedSauce, selectedCheese);
      if m.Some? {
        error := m.value;
        return;
      }
      error := "";
      activeStep := activeStep + 1;
    }

    /** Back; the button is disabled at the first step. */
    method HandleBack()
      requires Valid() && activeStep > 0
      modifies this`activeStep, this`error
      ensures Valid()
      ensures error == "" && activeStep == old(activeStep) - 1
    {
      error := "";
      activeStep := activeStep - 1;
    }

    /** Place Order, shown at the review step: refused while the price is
        zero, otherwise it opens the confirmation dialog. */
    method HandleOrder()
      requires Valid()
      modifies this`error, this`showOrderSummary
      ensures Valid()
      ensures totalPrice == 0 ==> error == NothingToOrder && showOrderSummary == old(showOrderSummary)
      ensures totalPrice != 0 ==> error == old(error) && showOrderSummary
    {
      if totalPrice == 0 {
        error := NothingToOrder;
        return;
      }
      showOrderSummary := true;
    }

    /** The `items` array of `confirmOrder`; dereferencing a missing base,
        sauce or cheese throws, which the handler reports as an error. */
    function Payload(): (p: Option<seq<PayloadItem>>)
      reads this
      ensures p.Some? <==> selectedBase.Some? && selectedSauce.Some? && selectedCheese.Some?
      ensures p.Some? ==> |p.value| == 1 && p.value[0].quantity == 1
                          && p.value[0].pizza == selectedBase.value.id
                          && p.value[0].customizations == Selection()
    {
      if selectedBase.None? || selectedSauce.None? || selectedCheese.None? then None
      else Some([PayloadItem(selectedBase.value.id, 1, Selection())])
    }

    /** At the review step the order can always be built. */
    lemma ReviewHasPayload()
      requires Valid() && activeStep == LastStep
      ensures Payload().Some?
    {
    }

    /** What the server reads of the order built at the review step: one
        pizza, filed under the selected base. */
    lemma ReviewOrderReceived()
      requires Valid() && activeStep == LastStep
      ensures Payload().Some?
      ensures Shop.Quantity(Received(Payload().value[0]).quantity) == 1
      ensures Shop.Representative(Received(Payload().value[0]).customizations) == Some(selectedBase.value.id)
    {
      ReviewHasPayload();
      ServerReadsPayload(Payload().value[0]);
    }
  }

  /** The server prices the posted item as one pizza and files it under the
      same reference the client sent as `pizza`: the base. */
  lemma ServerReadsPayload(p: PayloadItem)
    requires p.quantity == 1 && p.customizations.base == Some(p.pizza)
    ensures Shop.Quantity(Received(p).quantity) == 1
    ensures Shop.Representative(Received(p).customizations) == Some(p.pizza)
  {
  }
}
