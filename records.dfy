/**
 * The records the REST API returns. Every field the client may find missing
 * (`undefined` or `null`) is an Option; the server assigns `id`.
 */
module Records {
  import opened Wrappers

  datatype Category = Category(
    id: int,
    title: Option<string>,
    isActive: bool,
    createdAt: Option<string>)

  /** `price` is kept as an opaque number; only its sign matters to the model. */
  datatype Product = Product(
    id: int,
    name: Option<string>,
    description: Option<string>,
    price: Option<real>,
    categoryId: Option<int>,
    stock: Option<int>,
    isActive: bool,
    image: Option<string>)

  /** `role` is one of "admin", "supervisor", "clerk" by convention, but any string may arrive. */
  datatype User = User(
    id: int,
    username: Option<string>,
    role: string,
    isActive: bool,
    createdAt: Option<string>)

  function CategoryId(c: Category): int { c.id }
  function ProductId(p: Product): int { p.id }
  function UserId(u: User): int { u.id }
}
