/** The records the storage layer and the pages exchange (src/types/index.ts).
    Prices, stock levels, amounts and millisecond timestamps are integers. */
module Types {

  datatype Option<T> = None | Some(value: T)

  datatype Result<T, E> = Ok(value: T) | Err(error: E)

  /** A catalogue entry. `imageUrl` is optional in the source. */
  datatype Product = Product(
    id: string,
    name: string,
    price: int,
    stock: int,
    imageUrl: Option<string>,
    createdAt: int)

  /** What the product form hands to `productStorage.add`: a product without id and creation time. */
  datatype NewProduct = NewProduct(name: string, price: int, stock: int, imageUrl: Option<string>)

  /** A cart line: a snapshot of the product and the requested quantity. */
  datatype CartItem = CartItem(product: Product, quantity: int)

  /** The three payment methods: 'cash' | 'qris' | 'transfer'. */
  datatype PaymentMethod = Cash | Qris | Transfer

  datatype Transaction = Transaction(
    id: string,
    timestamp: int,
    totalAmount: int,
    paymentMethod: PaymentMethod,
    items: seq<CartItem>,
    userId: string)

  /** What checkout hands to `transactionStorage.add`: a transaction without id and timestamp. */
  datatype TransactionDraft = TransactionDraft(
    totalAmount: int,
    paymentMethod: PaymentMethod,
    items: seq<CartItem>,
    userId: string)

  datatype User = User(id: string, email: string, businessName: string, ownerName: string, createdAt: int)
}
