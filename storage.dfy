/** The three tables of src/utils/storage.ts. Each class holds the list the source reads from its
    store key, and each method updates that list the way the source does before writing it back.
    The clock and id generation are parameters (`now`, `id`); the simulated latency is gone. */
module Storage {
  import opened Types
  import Catalog
  import Ledger
  import Accounts
  import Seqs

  /** `productStorage`: the product catalogue. */
  class ProductStorage {
    var products: seq<Product>

    constructor (loaded: seq<Product>)
      ensures products == loaded
    {
      products := loaded;
    }

    /** `add`: the new product, with its id and creation time, goes to the end of the list. */
    method Add(product: NewProduct, id: string, now: int) returns (created: Product)
      modifies this
      ensures created == Product(id, product.name, product.price, product.stock, product.imageUrl, now)
      ensures products == old(products) + [created]
    {
      created := Product(id, product.name, product.price, product.stock, product.imageUrl, now);
      products := products + [created];
    }

    /** `update`: the first product with the id absorbs the patch; an unknown id changes nothing. */
    method Update(id: string, updates: Catalog.ProductPatch)
      modifies this
      ensures products == Catalog.Updated(old(products), id, updates)
    {
      var index := Catalog.IndexOfId(products, id);
      if index != -1 {
        products := products[index := Catalog.Merge(products[index], updates)];
      }
    }

    /** `delete`: every product with the id is dropped. */
    method Delete(id: string)
      modifies this
      ensures products == Catalog.WithoutId(old(products), id)
    {
      products := Catalog.WithoutId(products, id);
    }

    /** `updateStock`: the first product with the id loses `quantitySold` units, floored at zero. */
    method UpdateStock(id: string, quantitySold: int)
      modifies this
      ensures products == Catalog.StockSold(old(products), id, quantitySold)
    {
      var index := Catalog.IndexOfId(products, id);
      if index != -1 {
        products := products[index := products[index].(stock := Catalog.Clamp(products[index].stock - quantitySold))];
      }
    }
  }

  /** `transactionStorage`: the transaction log, newest first. */
  class TransactionStorage {
    var transactions: seq<Transaction>

    constructor (loaded: seq<Transaction>)
      ensures transactions == loaded
    {
      transactions := loaded;
    }

    /** `add`: the new record, with its id and timestamp, goes to the front (`unshift`). */
    method Add(draft: TransactionDraft, id: string, now: int) returns (created: Transaction)
      modifies this
      ensures created == Transaction(id, now, draft.totalAmount, draft.paymentMethod, draft.items, draft.userId)
      ensures transactions == [created] + old(transactions)
    {
      created := Transaction(id, now, draft.totalAmount, draft.paymentMethod, draft.items, draft.userId);
      transactions := [created] + transactions;
    }

    /** `getTodayTransactions`: the records stamped at or after local midnight, each as often as it is stored,
        in log order. */
    function TodayTransactions(midnight: int): (r: seq<Transaction>)
      reads this
      ensures forall t :: multiset(r)[t] == if t.timestamp >= midnight then multiset(transactions)[t] else 0
      ensures forall t :: t in r <==> t in transactions && t.timestamp >= midnight
      ensures Seqs.IsSubsequence(r, transactions)
    {
      Ledger.Since(transactions, midnight)
    }

    /** `getTodayTotal`: the amounts of exactly the records `getTodayTransactions` returns, added up. */
    function TodayTotal(midnight: int): (total: int)
      reads this
      ensures total == Ledger.SumAmounts(TodayTransactions(midnight))
      ensures total == Ledger.AmountSince(transactions, midnight)
    {
      Ledger.SinceSum(transactions, midnight);
      Ledger.SumAmounts(Ledger.Since(transactions, midnight))
    }
  }

  /** `authStorage`: the registered users and the current session. */
  class AuthStorage {
    var users: seq<User>
    var currentUser: Option<User>

    constructor (loaded: seq<User>, session: Option<User>)
      ensures users == loaded && currentUser == session
    {
      users := loaded;
      currentUser := session;
    }

    /** `register`: a taken email is rejected with nothing changed; otherwise the user is appended
        and becomes the session. The password is not stored or checked. */
    method Register(email: string, password: string, businessName: string, ownerName: string, id: string, now: int)
      returns (r: Result<User, string>)
      modifies this
      ensures Accounts.EmailTaken(old(users), email) ==>
        r == Err(Accounts.EMAIL_TAKEN) && users == old(users) && currentUser == old(currentUser)
      ensures !Accounts.EmailTaken(old(users), email) ==>
        r == Ok(User(id, email, businessName, ownerName, now)) &&
        users == old(users) + [r.value] && currentUser == Some(r.value)
      ensures Accounts.UniqueEmails(old(users)) ==> Accounts.UniqueEmails(users)
    {
      var newUser := User(id, email, businessName, ownerName, now);
      var outcome := Accounts.Registered(users, newUser);
      if outcome.Err? {
        r := Err(outcome.error);
        return;
      }
      users := outcome.value;
      currentUser := Some(newUser);
      r := Ok(newUser);
    }

    /** `login`: the first user with the email becomes the session; the password is ignored. */
    method Login(email: string, password: string) returns (r: Result<User, string>)
      modifies this
      ensures r == Accounts.LoginResult(old(users), email)
      ensures users == old(users)
      ensures currentUser == if r.Ok? then Some(r.value) else old(currentUser)
    {
      r := Accounts.LoginResult(users, email);
      if r.Ok? {
        currentUser := Some(r.value);
      }
    }
  }
}
