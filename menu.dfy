/** The ORDER BY whitelist of the menu listing query (MenuModel.GetAll in
    internal/models/menu.go): whatever the user asks to sort by, the SQL text only
    ever receives one of five fixed column identifiers and one of two directions. */
module Menu {
  import opened Filters

  /** The switch over sortColumn()'s result; anything unlisted, including the
      "id" fallback, becomes "m.id". */
  function MenuSortColumn(column: string): (sqlColumn: string)
    ensures sqlColumn in {"m.id", "m.name", "m.price_cent", "r.name", "m.category_id"}
    ensures sqlColumn == "m.name" <==> column == "name"
    ensures sqlColumn == "m.price_cent" <==> column == "price_cent"
    ensures sqlColumn == "r.name" <==> column == "restaurant_name"
    ensures sqlColumn == "m.category_id" <==> column == "category_id"
    ensures sqlColumn == "m.id" <==> column !in {"name", "price_cent", "restaurant_name", "category_id"}
  {
    match column
    case "name" => "m.name"
    case "price_cent" => "m.price_cent"
    case "restaurant_name" => "r.name"
    case "category_id" => "m.category_id"
    case _ => "m.id"
  }

  /** The column and direction GetAll formats into its ORDER BY clause. */
  function MenuOrderBy(f: Filters): (order: (string, string))
    ensures order.0 in {"m.id", "m.name", "m.price_cent", "r.name", "m.category_id"}
    ensures order.1 in {"ASC", "DESC"}
    ensures order.1 == SortDirection(f)
    ensures f.sort !in f.sortSafeList ==> order.0 == "m.id"
  {
    (MenuSortColumn(SortColumnOf(f)), SortDirection(f))
  }

  /** Changing only the safelist can change the column but never the direction. */
  lemma MenuDirectionIndependentOfColumn(f: Filters, safeList: seq<string>)
    ensures MenuOrderBy(f.(sortSafeList := safeList)).1 == MenuOrderBy(f).1
  {
    SortDirectionIgnoresSafeList(f, safeList);
  }
}
