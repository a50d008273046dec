/** The in-memory helpers of the products page: filtering, category names, and display rules. */
module ProductsPage {
  import opened Wrappers
  import opened Sequences
  import opened Text
  import opened Records
  import opened ListView
  import ResourceSlice

  /** `categoryFilter === '' || product.category_id?.toString() === categoryFilter`. */
  predicate CategoryMatches(filter: string, categoryId: Option<int>) {
    filter == "" || (categoryId.Some? && IntToString(categoryId.value) == filter)
  }

  /** Choosing the option for category `id` keeps exactly the products whose `category_id` is `id`. */
  lemma CategoryFilterSelectsId(categoryId: Option<int>, id: int)
    ensures CategoryMatches(IntToString(id), categoryId) <==> categoryId == Some(id)
  {
    if categoryId.Some? && IntToString(categoryId.value) == IntToString(id) {
      IntToStringInjective(categoryId.value, id);
    }
  }

  /** The three tests of `filteredProducts`, all of which must pass. */
  predicate ProductPasses(p: Product, term: string, categoryFilter: string, statusFilter: string) {
    SearchMatches(p.name, term) && CategoryMatches(categoryFilter, p.categoryId) && StatusMatches(statusFilter, p.isActive)
  }

  /** `filteredProducts`: the products passing all three tests, in list order, each as often as listed. */
  function FilteredProducts(products: seq<Product>, term: string, categoryFilter: string, statusFilter: string): (r: seq<Product>)
    ensures Subsequence(r, products)
    ensures forall p :: p in r <==> p in products && ProductPasses(p, term, categoryFilter, statusFilter)
    ensures forall p ::
      multiset(r)[p] == if ProductPasses(p, term, categoryFilter, statusFilter) then multiset(products)[p] else 0
  {
    var passes := (p: Product) => ProductPasses(p, term, categoryFilter, statusFilter);
    FilterIsSubsequence(products, passes);
    Filter(products, passes)
  }

  const CategoryNotFound: string := "Kategori bulunamadı"

  /**
   * `getCategoryName`: the title of the first category whose id is `categoryId`
   * (`None` when that category has no title), or the not-found text.
   */
  function CategoryName(categories: seq<Category>, categoryId: Option<int>): (r: Option<string>)
    ensures (forall k :: 0 <= k < |categories| ==> Some(categories[k].id) != categoryId) ==> r == Some(CategoryNotFound)
    ensures (exists k :: 0 <= k < |categories| && Some(categories[k].id) == categoryId) ==>
      exists k :: 0 <= k < |categories| && Some(categories[k].id) == categoryId && r == categories[k].title
        && forall j :: 0 <= j < k ==> Some(categories[j].id) != categoryId
  {
    var i := FindIndex(categories, (c: Category) => Some(c.id) == categoryId);
    if i == -1 then Some(CategoryNotFound) else categories[i].title
  }

  /** With unique category ids, a product referencing category `c` is shown with `c`'s title. */
  lemma CategoryNameOfListed(categories: seq<Category>, c: Category)
    requires ResourceSlice.UniqueIds(categories, CategoryId)
    requires c in categories
    ensures CategoryName(categories, Some(c.id)) == c.title
  {
  }

  /** A category id no listed category carries is shown as not found, never as a failure. */
  lemma CategoryNameDangling(categories: seq<Category>, id: Option<int>)
    requires forall c :: c in categories ==> Some(c.id) != id
    ensures CategoryName(categories, id) == Some(CategoryNotFound)
  {
  }

  const DescriptionLimit: nat := 50

  /** The description as shown: longer than 50 characters, its first 50 followed by "...". */
  function ShownDescription(description: Option<string>): (r: Option<string>)
    ensures r.Some? <==> description.Some?
    ensures r.Some? ==> |r.value| <= DescriptionLimit + 3
    ensures r.Some? && |description.value| <= DescriptionLimit ==> r == description
    ensures r.Some? && |description.value| > DescriptionLimit ==>
      |r.value| == DescriptionLimit + 3 &&
      r.value[..DescriptionLimit] == description.value[..DescriptionLimit] && r.value[DescriptionLimit..] == "..."
  {
    match description
    case Some(d) => if |d| > DescriptionLimit then Some(d[..DescriptionLimit] + "...") else description
    case None => None
  }

  /** The stock badge: green above 10, yellow from 1 to 10, red at zero, below, or when stock is missing. */
  function StockBadge(stock: Option<int>): (r: string)
    ensures r == GreenBadge <==> stock.Some? && stock.value > 10
    ensures r == YellowBadge <==> stock.Some? && 0 < stock.value <= 10
    ensures r == RedBadge <==> stock.None? || stock.value <= 0
  {
    if stock.Some? && stock.value > 10 then GreenBadge
    else if stock.Some? && stock.value > 0 then YellowBadge
    else RedBadge
  }

  /** The count shown in the badge, `stock || 0`. */
  function ShownStock(stock: Option<int>): int {
    stock.GetOr(0)
  }

  /** The badge colour agrees with the count shown inside it. */
  lemma StockBadgeMatchesShownCount(stock: Option<int>)
    ensures StockBadge(stock) == StockBadge(Some(ShownStock(stock)))
  {
  }

  /** More stock never gives a worse badge. */
  lemma StockBadgeMonotone(a: int, b: int)
    requires a <= b
    ensures StockBadge(Some(a)) == GreenBadge ==> StockBadge(Some(b)) == GreenBadge
    ensures StockBadge(Some(b)) == RedBadge ==> StockBadge(Some(a)) == RedBadge
  {
  }

  /** The product form as the validator sees it; `None` is an empty or non-numeric input. */
  datatype ProductForm = ProductForm(
    name: Option<string>,
    description: Option<string>,
    price: Option<real>,
    categoryId: Option<int>,
    stock: Option<int>,
    isActive: bool)

  /** The validation rules of the product form: field name to message, empty when the form may be submitted. */
  function ValidateProduct(f: ProductForm): (errors: map<string, string>)
    ensures errors.Keys <= {"name", "price", "category_id", "stock"}
    ensures "name" in errors <==> f.name.None? || f.name.value == ""
    ensures "price" in errors <==> f.price.None? || f.price.value <= 0.0
    ensures "category_id" in errors <==> f.categoryId.None?
    ensures "stock" in errors <==> f.stock.None? || f.stock.value < 0
    ensures "name" in errors ==> errors["name"] == "Ürün adı gereklidir"
    ensures "price" in errors ==>
      errors["price"] == if f.price.None? then "Fiyat gereklidir" else "Fiyat pozitif olmalıdır"
    ensures "category_id" in errors ==> errors["category_id"] == "Kategori seçimi gereklidir"
    ensures "stock" in errors ==>
      errors["stock"] == if f.stock.None? then "Stok miktarı gereklidir" else "Stok negatif olamaz"
  {
    var e0: map<string, string> := map[];
    var e1 := if f.name.None? || f.name.value == "" then e0["name" := "Ürün adı gereklidir"] else e0;
    var e2 :=
      if f.price.None? then e1["price" := "Fiyat gereklidir"]
      else if f.price.value <= 0.0 then e1["price" := "Fiyat pozitif olmalıdır"]
      else e1;
    var e3 := if f.categoryId.None? then e2["category_id" := "Kategori seçimi gereklidir"] else e2;
    if f.stock.None? then e3["stock" := "Stok miktarı gereklidir"]
    else if f.stock.value < 0 then e3["stock" := "Stok negatif olamaz"]
    else e3
  }

  /** A form that validates has a name, a strictly positive price, a category and a non-negative stock. */
  lemma ValidFormIsComplete(f: ProductForm)
    requires ValidateProduct(f) == map[]
    ensures f.name.Some? && f.name.value != ""
    ensures f.price.Some? && f.price.value > 0.0
    ensures f.categoryId.Some? && f.stock.Some? && f.stock.value >= 0
  {
  }
}
