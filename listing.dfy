/** The read-only catalog queries: the per-category listings and the
    varieties of routes/pizza.js, and the inventory listing, low-stock
    listing and low-stock alert text of routes/inventory.js. A query is a
    filter over the collection in natural order followed by a sort; the
    groupings are the `reduce` into an object keyed by category, whose keys
    keep the order they were first met. */
module Listing {

  import opened Common
  import Text
  import opened Catalog

  /** The sort orders the routes ask for. */
  datatype SortKey = ByName | ByCategoryThenName | ByStock

  /** Position of a category name in the store's string order:
      base < cheese < meat < sauce < veggie. */
  function CategoryRank(c: Category): nat
  {
    match c
    case Base => 0
    case Cheese => 1
    case Meat => 2
    case Sauce => 3
    case Veggie => 4
  }

  /** The rank agrees with the order on the stored category strings. */
  lemma CategoryRankIsNameOrder(c: Category, d: Category)
    ensures CategoryRank(c) <= CategoryRank(d) <==> Text.StrLe(CategoryName(c), CategoryName(d))
  {
    var a, b := CategoryName(c), CategoryName(d);
    if c == d {
      Text.StrLeReflexive(a);
    } else {
      assert a[0] != b[0];
    }
  }

  predicate Le(k: SortKey, a: Item, b: Item)
  {
    match k
    case ByName => Text.StrLe(a.name, b.name)
    case ByCategoryThenName =>
      CategoryRank(a.category) < CategoryRank(b.category)
      || (a.category == b.category && Text.StrLe(a.name, b.name))
    case ByStock => a.stock <= b.stock
  }

  lemma LeTotal(k: SortKey, a: Item, b: Item)
    ensures Le(k, a, b) || Le(k, b, a)
  {
    Text.StrLeTotal(a.name, b.name);
  }

  lemma LeTransitive(k: SortKey, a: Item, b: Item, c: Item)
    requires Le(k, a, b) && Le(k, b, c)
    ensures Le(k, a, c)
  {
    if Text.StrLe(a.name, b.name) && Text.StrLe(b.name, c.name) {
      Text.StrLeTransitive(a.name, b.name, c.name);
    }
  }

  predicate Sorted(k: SortKey, s: seq<Item>)
  {
    forall i, j :: 0 <= i < j < |s| ==> Le(k, s[i], s[j])
  }

  function Insert(k: SortKey, s: seq<Item>, x: Item): (r: seq<Item>)
    ensures multiset(r) == multiset(s) + multiset{x}
  {
    if s == [] || Le(k, x, s[0]) then [x] + s
    else
      assert s == [s[0]] + s[1..];
      [s[0]] + Insert(k, s[1..], x)
  }

  lemma {:induction false} InsertSorted(k: SortKey, s: seq<Item>, x: Item)
    requires Sorted(k, s)
    ensures Sorted(k, Insert(k, s, x))
    decreases |s|
  {
    if s != [] {
      if Le(k, x, s[0]) {
        forall j | 0 < j < |s|
          ensures Le(k, x, s[j])
        {
          LeTransitive(k, x, s[0], s[j]);
        }
      } else {
        LeTotal(k, x, s[0]);
        var t := Insert(k, s[1..], x);
        InsertSorted(k, s[1..], x);
        forall j | 0 <= j < |t|
          ensures Le(k, s[0], t[j])
        {
          assert t[j] in multiset(t);
          if t[j] != x {
            assert t[j] in multiset(s[1..]);
            var m :| 0 <= m < |s[1..]| && s[1..][m] == t[j];
            assert s[m + 1] == t[j];
          }
        }
      }
    }
  }

  /** `.sort(...)` on a query result. Ties are left in the order the model's
      insertion puts them. */
  function Sort(k: SortKey, xs: seq<Item>): (r: seq<Item>)
    ensures multiset(r) == multiset(xs)
    ensures forall x :: x in r <==> x in xs
    decreases |xs|
  {
    if xs == [] then []
    else
      assert xs == [xs[0]] + xs[1..];
      var r := Insert(k, Sort(k, xs[1..]), xs[0]);
      assert forall x :: x in r <==> x in multiset(r);
      r
  }

  lemma {:induction false} SortSorted(k: SortKey, xs: seq<Item>)
    ensures Sorted(k, Sort(k, xs))
    decreases |xs|
  {
    if xs != [] {
      SortSorted(k, xs[1..]);
      InsertSorted(k, Sort(k, xs[1..]), xs[0]);
    }
  }

  /** A `find` filter: the documents that pass `keep`, in natural order. */
  function Filter(xs: seq<Item>, keep: Item -> bool): (r: seq<Item>)
    ensures forall x :: x in r <==> x in xs && keep(x)
    ensures |r| <= |xs|
  {
    if xs == [] then []
    else Filter(xs[..|xs| - 1], keep) + (if keep(xs[|xs| - 1]) then [xs[|xs| - 1]] else [])
  }

  lemma {:induction false} FilterUnique(xs: seq<Item>, keep: Item -> bool)
    requires UniqueIds(xs)
    ensures UniqueIds(Filter(xs, keep))
    decreases |xs|
  {
    if xs != [] {
      var init := xs[..|xs| - 1];
      FilterUnique(init, keep);
      var f := Filter(init, keep);
      forall i | 0 <= i < |f|
        ensures f[i].id != xs[|xs| - 1].id
      {
        assert f[i] in init;
        var m :| 0 <= m < |init| && init[m] == f[i];
        assert xs[m] == f[i];
      }
    }
  }

  /** The filter of the per-category listings. */
  predicate Listed(x: Item, c: Category)
  {
    x.category == c && x.isAvailable && x.stock > 0
  }

  /** GET bases, sauces, cheeses, veggies and meats: the available, in-stock
      items of one category, by name. */
  function CategoryListing(docs: seq<Item>, c: Category): (r: seq<Item>)
    ensures forall x :: x in r <==> x in docs && Listed(x, c)
    ensures multiset(r) == multiset(Filter(docs, x => Listed(x, c)))
  {
    var found := Filter(docs, x => Listed(x, c));
    Sort(ByName, found)
  }

  lemma CategoryListingSorted(docs: seq<Item>, c: Category)
    ensures Sorted(ByName, CategoryListing(docs, c))
  {
    SortSorted(ByName, Filter(docs, x => Listed(x, c)));
  }

  /** The items of one category, in the order given. */
  function OfCategory(xs: seq<Item>, c: Category): (r: seq<Item>)
    ensures forall x :: x in r <==> x in xs && x.category == c
  {
    if xs == [] then []
    else OfCategory(xs[..|xs| - 1], c) + (if xs[|xs| - 1].category == c then [xs[|xs| - 1]] else [])
  }

  /** One key of the grouped object and the array under it. */
  datatype Group = Group(category: Category, items: seq<Item>)

  /** No key appears twice. */
  predicate Keyed(gs: seq<Group>)
  {
    forall i, j :: 0 <= i < j < |gs| ==> gs[i].category != gs[j].category
  }

  /** One step of the `reduce`: push onto the item's category, creating the
      key at the end when it is new. */
  function GroupInto(acc: seq<Group>, x: Item): (r: seq<Group>)
    ensures 1 <= |r| <= |acc| + 1
  {
    if acc == [] then [Group(x.category, [x])]
    else if acc[0].category == x.category then [acc[0].(items := acc[0].items + [x])] + acc[1..]
    else [acc[0]] + GroupInto(acc[1..], x)
  }

  /** `items.reduce(...)` grouping by category. */
  function GroupBy(xs: seq<Item>): (r: seq<Group>)
    ensures Keyed(r) && |r| <= |xs|
  {
    if xs == [] then []
    else
      GroupIntoKeyed(GroupBy(xs[..|xs| - 1]), xs[|xs| - 1]);
      GroupInto(GroupBy(xs[..|xs| - 1]), xs[|xs| - 1])
  }

  /** The array under key `c`, or nothing. */
  function GroupOf(gs: seq<Group>, c: Category): seq<Item>
  {
    if gs == [] then [] else if gs[0].category == c then gs[0].items else GroupOf(gs[1..], c)
  }

  predicate HasKey(gs: seq<Group>, c: Category)
  {
    exists i :: 0 <= i < |gs| && gs[i].category == c
  }

  lemma HasKeyCons(g: Group, gs: seq<Group>, c: Category)
    ensures HasKey([g] + gs, c) <==> g.category == c || HasKey(gs, c)
  {
    var r := [g] + gs;
    if HasKey(gs, c) {
      var i :| 0 <= i < |gs| && gs[i].category == c;
      assert r[i + 1].category == c;
    }
    if g.category == c {
      assert r[0].category == c;
    }
    if HasKey(r, c) && g.category != c {
      var i :| 0 <= i < |r| && r[i].category == c;
      assert gs[i - 1].category == c;
    }
  }

  lemma KeyedTail(g: Group, gs: seq<Group>)
    requires Keyed([g] + gs)
    ensures Keyed(gs) && !HasKey(gs, g.category)
  {
    var r := [g] + gs;
    forall i, j | 0 <= i < j < |gs|
      ensures gs[i].category != gs[j].category
    {
      assert gs[i] == r[i + 1] && gs[j] == r[j + 1];
    }
    forall i | 0 <= i < |gs|
      ensures gs[i].category != g.category
    {
      assert r[0] == g && r[i + 1] == gs[i];
    }
  }

  lemma KeyedCons(g: Group, gs: seq<Group>)
    requires Keyed(gs) && !HasKey(gs, g.category)
    ensures Keyed([g] + gs)
  {
    var r := [g] + gs;
    forall i, j | 0 <= i < j < |r|
      ensures r[i].category != r[j].category
    {
      if i == 0 {
        assert gs[j - 1].category == r[j].category;
      } else {
        assert r[i] == gs[i - 1] && r[j] == gs[j - 1];
      }
    }
  }

  lemma {:induction false} GroupIntoKeyed(acc: seq<Group>, x: Item)
    requires Keyed(acc)
    ensures Keyed(GroupInto(acc, x))
    ensures forall c :: HasKey(GroupInto(acc, x), c) <==> HasKey(acc, c) || c == x.category
    decreases |acc|
  {
    var r := GroupInto(acc, x);
    if acc == [] {
      assert r[0].category == x.category;
    } else {
      assert acc == [acc[0]] + acc[1..];
      KeyedTail(acc[0], acc[1..]);
      forall c {
        HasKeyCons(acc[0], acc[1..], c);
      }
      if acc[0].category == x.category {
        KeyedCons(r[0], acc[1..]);
        forall c {
          HasKeyCons(r[0], acc[1..], c);
        }
      } else {
        var t := GroupInto(acc[1..], x);
        GroupIntoKeyed(acc[1..], x);
        KeyedCons(acc[0], t);
        forall c {
          HasKeyCons(acc[0], t, c);
        }
      }
    }
  }

  lemma {:induction false} GroupOfMissing(gs: seq<Group>, c: Category)
    requires !HasKey(gs, c)
    ensures GroupOf(gs, c) == []
    decreases |gs|
  {
    if gs != [] {
      assert gs == [gs[0]] + gs[1..];
      HasKeyCons(gs[0], gs[1..], c);
      GroupOfMissing(gs[1..], c);
    }
  }

  lemma {:induction false} GroupIntoOf(acc: seq<Group>, x: Item, c: Category)
    requires Keyed(acc)
    ensures GroupOf(GroupInto(acc, x), c) == GroupOf(acc, c) + (if x.category == c then [x] else [])
    decreases |acc|
  {
    var r := GroupInto(acc, x);
    if acc != [] {
      assert acc == [acc[0]] + acc[1..];
      KeyedTail(acc[0], acc[1..]);
      if acc[0].category == x.category {
        if c != x.category {
          assert r[1..] == acc[1..];
        }
      } else {
        GroupIntoOf(acc[1..], x, c);
      }
    }
  }

  /** The grouping is keyed, has a key exactly for the categories present,
      the array under each key is that category's items in order, and no
      array is empty. */
  lemma {:induction false} GroupByCorrect(xs: seq<Item>)
    ensures Keyed(GroupBy(xs))
    ensures forall c :: HasKey(GroupBy(xs), c) <==> OfCategory(xs, c) != []
    ensures forall c :: GroupOf(GroupBy(xs), c) == OfCategory(xs, c)
    ensures forall i :: 0 <= i < |GroupBy(xs)| ==> GroupBy(xs)[i].items != []
    decreases |xs|
  {
    var gs := GroupBy(xs);
    if xs != [] {
      var init := xs[..|xs| - 1];
      GroupByCorrect(init);
      GroupIntoKeyed(GroupBy(init), xs[|xs| - 1]);
      forall c {
        GroupIntoOf(GroupBy(init), xs[|xs| - 1], c);
      }
      forall i | 0 <= i < |gs|
        ensures gs[i].items != []
      {
        GroupOfKeyed(gs, i);
        assert HasKey(gs, gs[i].category);
      }
    }
  }

  lemma GroupByOf(xs: seq<Item>, c: Category)
    ensures GroupOf(GroupBy(xs), c) == OfCategory(xs, c)
  {
    GroupByCorrect(xs);
  }

  /** Some item of `xs` belongs to category `c`. */
  predicate Present(xs: seq<Item>, c: Category)
  {
    exists x :: x in xs && x.category == c
  }

  /** Every key of the grouping is the category of one of the items. */
  lemma GroupKeysPresent(xs: seq<Item>)
    ensures forall i :: 0 <= i < |GroupBy(xs)| ==> Present(xs, GroupBy(xs)[i].category)
  {
    var gs := GroupBy(xs);
    forall i | 0 <= i < |gs|
      ensures Present(xs, gs[i].category)
    {
      GroupsAreCategories(xs, i);
      var x := gs[i].items[0];
      assert x in OfCategory(xs, gs[i].category);
    }
  }

  /** Under a keyed grouping, a group's own key finds it. */
  lemma {:induction false} GroupOfKeyed(gs: seq<Group>, i: nat)
    requires Keyed(gs) && i < |gs|
    ensures GroupOf(gs, gs[i].category) == gs[i].items
    decreases i
  {
    if i > 0 {
      assert gs[1..][i - 1] == gs[i];
      GroupOfKeyed(gs[1..], i - 1);
    }
  }

  /** Every group holds exactly its category's items and none is empty. */
  lemma GroupsAreCategories(xs: seq<Item>, i: nat)
    requires i < |GroupBy(xs)|
    ensures GroupBy(xs)[i].items == OfCategory(xs, GroupBy(xs)[i].category) != []
  {
    GroupByCorrect(xs);
    GroupOfKeyed(GroupBy(xs), i);
  }

  lemma {:induction false} OfCategorySorted(k: SortKey, xs: seq<Item>, c: Category)
    requires Sorted(k, xs)
    ensures Sorted(k, OfCategory(xs, c))
    decreases |xs|
  {
    if xs != [] {
      var init := xs[..|xs| - 1];
      var last := xs[|xs| - 1];
      assert Sorted(k, init);
      OfCategorySorted(k, init, c);
      var prev := OfCategory(init, c);
      forall j | 0 <= j < |prev|
        ensures Le(k, prev[j], last)
      {
        assert prev[j] in init;
        var m :| 0 <= m < |init| && init[m] == prev[j];
      }
    }
  }

  /** The varieties filter: available (every category is asked for). */
  predicate Offered(x: Item)
  {
    x.isAvailable
  }

  /** GET varieties: the available items grouped by category; the arrays
      are sorted by name. */
  function Varieties(docs: seq<Item>): (r: seq<Group>)
    ensures Keyed(r)
    ensures forall i :: 0 <= i < |r| ==> r[i].items != []
  {
    GroupByCorrect(Sort(ByCategoryThenName, Filter(docs, Offered)));
    GroupBy(Sort(ByCategoryThenName, Filter(docs, Offered)))
  }

  lemma VarietiesMembers(docs: seq<Item>, c: Category)
    ensures forall x :: x in GroupOf(Varieties(docs), c) <==> x in docs && x.isAvailable && x.category == c
  {
    GroupByOf(Sort(ByCategoryThenName, Filter(docs, Offered)), c);
  }

  lemma VarietiesKeys(docs: seq<Item>, c: Category)
    ensures HasKey(Varieties(docs), c) <==> exists x :: x in docs && x.isAvailable && x.category == c
  {
    var g := GroupOf(Varieties(docs), c);
    GroupByCorrect(Sort(ByCategoryThenName, Filter(docs, Offered)));
    VarietiesMembers(docs, c);
    if g != [] {
      assert g[0] in g;
    }
    if exists x :: x in docs && x.isAvailable && x.category == c {
      var x :| x in docs && x.isAvailable && x.category == c;
      assert x in g;
    }
  }

  lemma VarietiesSorted(docs: seq<Item>, c: Category)
    ensures Sorted(ByName, GroupOf(Varieties(docs), c))
  {
    var sorted := Sort(ByCategoryThenName, Filter(docs, Offered));
    GroupByCorrect(sorted);
    SortSorted(ByCategoryThenName, Filter(docs, Offered));
    OfCategorySorted(ByCategoryThenName, sorted, c);
    var g := OfCategory(sorted, c);
    forall i, j | 0 <= i < j < |g|
      ensures Le(ByName, g[i], g[j])
    {
      assert g[i] in g && g[j] in g;
    }
  }

  /** The inventory filter: a truthy `category` parameter must equal the
      stored category string. */
  predicate Requested(x: Item, category: Option<string>)
  {
    !Truthy(category) || CategoryName(x.category) == category.value
  }

  /** GET inventory: the matching items grouped by category, each array in
      the category-then-name sort. */
  function Inventory(docs: seq<Item>, category: Option<string>): (r: seq<Group>)
    ensures Keyed(r)
    ensures Truthy(category) ==> forall i :: 0 <= i < |r| ==> CategoryName(r[i].category) == category.value
  {
    var found := Filter(docs, x => Requested(x, category));
    var sorted := Sort(ByCategoryThenName, found);
    GroupKeysPresent(sorted);
    GroupBy(sorted)
  }

  lemma InventoryCorrect(docs: seq<Item>, category: Option<string>)
    ensures Keyed(Inventory(docs, category))
    ensures forall i :: 0 <= i < |Inventory(docs, category)| ==> Inventory(docs, category)[i].items != []
    ensures forall c, x :: x in GroupOf(Inventory(docs, category), c) <==> x in docs && Requested(x, category) && x.category == c
  {
    var sorted := Sort(ByCategoryThenName, Filter(docs, x => Requested(x, category)));
    GroupByCorrect(sorted);
  }

  /** The low-stock query of both routes: available with stock at most 20,
      whatever the item's own threshold. */
  predicate IsLow(x: Item)
  {
    x.isAvailable && x.stock <= 20
  }

  /** GET inventory/low-stock: the low items, by ascending stock. */
  function LowStockListing(docs: seq<Item>): (r: seq<Item>)
    ensures forall x :: x in r <==> x in docs && IsLow(x)
    ensures multiset(r) == multiset(Filter(docs, IsLow))
  {
    var found := Filter(docs, IsLow);
    Sort(ByStock, found)
  }

  lemma LowStockListingSorted(docs: seq<Item>)
    ensures forall i, j :: 0 <= i < j < |LowStockListing(docs)| ==> LowStockListing(docs)[i].stock <= LowStockListing(docs)[j].stock
  {
    SortSorted(ByStock, Filter(docs, IsLow));
  }

  /** One line of the low-stock alert. */
  function AlertLine(x: Item): (r: string)
    ensures |r| == 17 + |x.name| + |CategoryName(x.category)| + |Text.IntToString(x.stock)|
    ensures r[..2 + |x.name|] == "- " + x.name
    ensures r[2 + |x.name|..2 + |x.name| + |CategoryName(x.category)| + 5] == " (" + CategoryName(x.category) + "): "
    ensures r[|r| - 10..] == " remaining"
    ensures var n := |Text.IntToString(x.stock)|; Text.ParseInt(r[|r| - 10 - n..|r| - 10]) == Some(x.stock)
  {
    Text.IntToStringRoundTrip(x.stock);
    var head, mid, num := "- " + x.name, " (" + CategoryName(x.category) + "): ", Text.IntToString(x.stock);
    FourParts(head, mid, num, " remaining");
    head + mid + num + " remaining"
  }

  /** Where each part of a four-part concatenation sits. */
  lemma FourParts(a: string, b: string, c: string, d: string)
    ensures (a + b + c + d)[..|a|] == a
    ensures (a + b + c + d)[|a|..|a| + |b|] == b
    ensures (a + b + c + d)[|a| + |b|..|a| + |b| + |c|] == c
    ensures (a + b + c + d)[|a| + |b| + |c|..] == d
  {
    var s := a + b + c + d;
    assert s == a + (b + (c + d));
    assert s[|a|..] == b + (c + d);
    assert s[|a| + |b|..] == c + d;
  }

  function AlertLines(xs: seq<Item>): (r: seq<string>)
    ensures |r| == |xs| && forall i :: 0 <= i < |xs| ==> r[i] == AlertLine(xs[i])
  {
    seq(|xs|, i requires 0 <= i < |xs| => AlertLine(xs[i]))
  }

  /** POST check-low-stock: the alert text and the number of items in it,
      or no alert. */
  function LowStockAlert(docs: seq<Item>): (r: (Option<string>, nat))
    ensures r.1 == |Filter(docs, IsLow)|
    ensures r.0.None? <==> r.1 == 0
  {
    var low := Filter(docs, IsLow);
    if low == [] then (None, 0) else (Some(Text.Join(AlertLines(low), '\n')), |low|)
  }

  lemma NoNewlineInNumber(n: int)
    ensures '\n' !in Text.IntToString(n)
  {
    var d := Text.Decimal(if n < 0 then -n else n);
    assert forall i :: 0 <= i < |d| ==> Text.IsDigit(d[i]);
    if n < 0 {
      assert Text.IntToString(n) == "-" + d;
    }
  }

  lemma AlertLineHasNoNewline(x: Item)
    requires '\n' !in x.name
    ensures '\n' !in AlertLine(x)
  {
    NoNewlineInNumber(x.stock);
    var head, cat, mid, num, tail := "- " + x.name, CategoryName(x.category), "): ", Text.IntToString(x.stock), " remaining";
    assert '\n' !in cat && '\n' !in mid && '\n' !in tail && '\n' !in " (";
    assert AlertLine(x) == head + " (" + cat + mid + num + tail;
  }

  /** The alert splits back into one line per low item, in natural order,
      when no item name holds a newline. */
  lemma AlertHasOneLinePerItem(docs: seq<Item>)
    requires forall x :: x in docs ==> '\n' !in x.name
    requires LowStockAlert(docs).0.Some?
    ensures Text.Split(LowStockAlert(docs).0.value, '\n') == AlertLines(Filter(docs, IsLow))
  {
    var low := Filter(docs, IsLow);
    var lines := AlertLines(low);
    forall i | 0 <= i < |lines|
      ensures '\n' !in lines[i]
    {
      assert low[i] in low;
      AlertLineHasNoNewline(low[i]);
    }
    Text.SplitJoin(lines, '\n');
  }
}
