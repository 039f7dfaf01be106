/**
 * The rows of the two tables the store works on, `tblProducts` and
 * `tblCart`, with SQL NULL as `None`, and the reader mapping from a product
 * row to the `ProductViewModel` the pages receive.
 */
module Tables {
  import opened Wrappers
  import opened Encoding
  import opened ProductView

  /** A row of `tblProducts`; `created` is `CreationDate` as a clock reading. */
  datatype ProductRow = ProductRow(
    productId: int,
    name: string,
    description: Option<string>,
    image: Option<seq<Byte>>,
    price: real,
    stock: int,
    created: int)

  /** A row of `tblCart`; `addedDate` is `AddedDate` as a clock reading. */
  datatype CartLine = CartLine(
    cartId: int,
    userId: int,
    productId: int,
    quantity: int,
    addedDate: int)

  /** The reader mapping of `GetAvailableProducts`: a NULL description reads as "", a NULL image as `null`. */
  function ToView(row: ProductRow): ProductViewModel {
    ProductViewModel(row.productId, row.name, Some(row.description.GetOr("")), row.image,
                     row.price, row.stock, row.created)
  }
}
