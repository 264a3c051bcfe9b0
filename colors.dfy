/** The two chip-colour classifiers of the admin inventory page
    (client/src/pages/admin/AdminInventory.js): one colour per catalog
    category, and a traffic-light band for an item's stock against its
    threshold. */
module Colors {

  import opened Common
  import opened Catalog

  /** `getCategoryColor`: the five categories get five different colours,
      anything else the neutral one. */
  function CategoryColor(category: string): (color: string)
    ensures color != "default" <==> ParseCategory(category).Some?
  {
    match ParseCategory(category)
    case None => "default"
    case Some(Base) => "primary"
    case Some(Sauce) => "secondary"
    case Some(Cheese) => "warning"
    case Some(Veggie) => "success"
    case Some(Meat) => "error"
  }

  lemma CategoryNameParses(c: Category)
    ensures ParseCategory(CategoryName(c)) == Some(c)
  {
  }

  /** No two categories share a colour. */
  lemma CategoryColorsDistinct(c: Category, d: Category)
    requires c != d
    ensures CategoryColor(CategoryName(c)) != CategoryColor(CategoryName(d))
  {
    CategoryNameParses(c);
    CategoryNameParses(d);
  }

  /** `getStockColor`: at or below the threshold is an alert, up to twice
      the threshold a warning, above that healthy. */
  function StockColor(stock: int, threshold: int): (color: string)
    ensures color == "error" <==> stock <= threshold
    ensures color == "warning" <==> threshold < stock <= threshold * 2
    ensures color == "success" <==> threshold < stock && threshold * 2 < stock
  {
    if stock <= threshold then "error"
    else if stock <= threshold * 2 then "warning"
    else "success"
  }

  /** The bands in the order stock rises through them. */
  function Band(color: string): nat
  {
    if color == "error" then 0 else if color == "warning" then 1 else 2
  }

  /** For a fixed threshold, more stock never moves an item to a worse
      band. */
  lemma StockColorMonotone(stock: int, more: int, threshold: int)
    requires stock <= more
    ensures Band(StockColor(stock, threshold)) <= Band(StockColor(more, threshold))
  {
  }
}
