/**
 * The relational schema the handlers read and write, with every table a
 * finite map from its autoincrement id to its row, plus the two lookups the
 * ORM provides: `findUnique`/`findFirst` by a condition and listing rows in
 * key order.
 */
module Schema {
  import opened Js

  /**
   * A handler's response: the HTTP status and either the JSON body or the
   * error message; `Threw` is an exception (an ORM error, a `TypeError`)
   * that leaves the handler instead of a response.
   */
  datatype Reply<T> = Ok(code: nat, body: T) | Fail(code: nat, message: string) | Threw

  /** The verified token payload placed in `req.user` (`sellerId` may be missing or null). */
  datatype TokenUser = TokenUser(id: int, role: string, sellerId: Option<int>)

  /** A user account; `password` holds a bcrypt hash, or nothing for social sign-in. */
  datatype User = User(
    id: nat,
    name: Option<string>,
    email: string,
    password: Option<string>,
    role: string,
    sellerId: Option<nat>,
    authProvider: Option<string>)  // None: the column's default

  datatype Seller = Seller(id: nat, businessName: string, phone: string)

  /** A password-reset token; `expiresAt` is in milliseconds since the epoch. */
  datatype PasswordReset = PasswordReset(id: nat, token: string, userId: nat, expiresAt: int)

  datatype Customer = Customer(
    id: nat,
    sellerId: nat,
    name: string,
    email: Option<string>,
    phone: Option<string>,
    createdAt: int)

  /** Prices are integers in minor currency units. */
  datatype Product = Product(id: nat, name: string, price: int)

  /** One line of an order, with the product's price snapshotted at purchase time. */
  datatype LineItem = LineItem(productId: int, quantity: int, priceAtPurchase: int)

  datatype TimelineEntry = TimelineEntry(status: string, timestamp: string, note: string)

  /** The JSON `timeline` column: normally an array of entries, but any JSON value can be stored. */
  datatype Timeline = Entries(entries: seq<TimelineEntry>) | NotAnArray

  datatype Order = Order(
    id: nat,
    sellerId: int,
    createdAt: int,
    customerName: string,
    customerPhone: Option<string>,
    customerEmail: Option<string>,
    shippingAddress: Option<string>,
    subtotal: int,
    tax: int,
    totalAmount: int,
    status: string,
    paymentStatus: string,
    paymentMethod: Option<string>,
    timeline: Timeline,
    trackingNumber: Option<string>,
    lines: seq<LineItem>)

  datatype Category = Category(id: nat, name: string)

  predicate UniqueEmails(users: map<nat, User>) {
    forall a, b :: a in users && b in users && users[a].email == users[b].email ==> a == b
  }

  predicate UniqueTokens(resets: map<nat, PasswordReset>) {
    forall a, b :: a in resets && b in resets && resets[a].token == resets[b].token ==> a == b
  }

  predicate UniqueNames(categories: map<nat, Category>) {
    forall a, b :: a in categories && b in categories && categories[a].name == categories[b].name ==> a == b
  }

  // Each table's rows are stored under their own ids, drawn from the table's sequence.

  predicate UsersKeyed(users: map<nat, User>, next: nat) {
    forall k :: k in users ==> users[k].id == k && 0 < k < next
  }

  predicate SellersKeyed(sellers: map<nat, Seller>, next: nat) {
    forall k :: k in sellers ==> sellers[k].id == k && 0 < k < next
  }

  predicate ResetsKeyed(resets: map<nat, PasswordReset>, next: nat) {
    forall k :: k in resets ==> resets[k].id == k && 0 < k < next
  }

  predicate OrdersKeyed(orders: map<nat, Order>, next: nat) {
    forall k :: k in orders ==> orders[k].id == k && 0 < k < next
  }

  predicate CategoriesKeyed(categories: map<nat, Category>, next: nat) {
    forall k :: k in categories ==> categories[k].id == k && 0 < k < next
  }

  predicate CustomersKeyed(customers: map<nat, Customer>) {
    forall k :: k in customers ==> customers[k].id == k
  }

  predicate ProductsKeyed(products: map<nat, Product>) {
    forall k :: k in products ==> products[k].id == k
  }

  /** The foreign key user.sellerId. */
  predicate SellerLinks(users: map<nat, User>, sellers: map<nat, Seller>) {
    forall k :: k in users && users[k].sellerId.Some? ==> users[k].sellerId.value in sellers
  }

  /** The foreign key passwordReset.userId. */
  predicate ResetLinks(resets: map<nat, PasswordReset>, users: map<nat, User>) {
    forall k :: k in resets ==> resets[k].userId in users
  }

  /** The contents of every table and sequence at one moment. */
  datatype Tables = Tables(
    users: map<nat, User>,
    sellers: map<nat, Seller>,
    resets: map<nat, PasswordReset>,
    customers: map<nat, Customer>,
    products: map<nat, Product>,
    orders: map<nat, Order>,
    categories: map<nat, Category>,
    nextUserId: nat,
    nextSellerId: nat,
    nextResetId: nat,
    nextOrderId: nat,
    nextCategoryId: nat)

  /**
   * Every row is stored under its own id, ids come from the table's
   * sequence (starting at 1), the unique columns are unique, and the
   * foreign keys user.sellerId and passwordReset.userId point at rows.
   */
  predicate Consistent(t: Tables) {
    && 0 < t.nextUserId && 0 < t.nextSellerId && 0 < t.nextResetId && 0 < t.nextOrderId && 0 < t.nextCategoryId
    && UsersKeyed(t.users, t.nextUserId)
    && SellersKeyed(t.sellers, t.nextSellerId)
    && ResetsKeyed(t.resets, t.nextResetId)
    && OrdersKeyed(t.orders, t.nextOrderId)
    && CategoriesKeyed(t.categories, t.nextCategoryId)
    && CustomersKeyed(t.customers)
    && ProductsKeyed(t.products)
    && UniqueEmails(t.users)
    && SellerLinks(t.users, t.sellers)
    && UniqueTokens(t.resets)
    && ResetLinks(t.resets, t.users)
    && UniqueNames(t.categories)
  }

  /** The database behind the ORM client: one map per table and one id sequence per table that rows are inserted into. */
  class Database {
    var users: map<nat, User>
    var sellers: map<nat, Seller>
    var resets: map<nat, PasswordReset>
    var customers: map<nat, Customer>
    var products: map<nat, Product>
    var orders: map<nat, Order>
    var categories: map<nat, Category>
    var nextUserId: nat
    var nextSellerId: nat
    var nextResetId: nat
    var nextOrderId: nat
    var nextCategoryId: nat

    function Snapshot(): Tables
      reads this
    {
      Tables(users, sellers, resets, customers, products, orders, categories,
             nextUserId, nextSellerId, nextResetId, nextOrderId, nextCategoryId)
    }

    ghost predicate Valid()
      reads this
    {
      Consistent(Snapshot())
    }

    /** An empty database with every sequence at 1. */
    constructor ()
      ensures Valid()
      ensures users == map[] && sellers == map[] && resets == map[] && customers == map[]
      ensures products == map[] && orders == map[] && categories == map[]
    {
      users, sellers, resets, customers := map[], map[], map[], map[];
      products, orders, categories := map[], map[], map[];
      nextUserId, nextSellerId, nextResetId, nextOrderId, nextCategoryId := 1, 1, 1, 1, 1;
    }
  }

  // -----------------------------------------------------------------------
  // The invariants under the row changes the handlers make.

  /** Rewriting a user row that keeps its id, email and seller link keeps the user-table invariants. */
  lemma UpdateUserKeeps(users: map<nat, User>, sellers: map<nat, Seller>, next: nat, k: nat, u: User)
    requires k in users && u.id == k && u.email == users[k].email && u.sellerId == users[k].sellerId
    requires UsersKeyed(users, next) && UniqueEmails(users) && SellerLinks(users, sellers)
    ensures var users' := users[k := u];
            UsersKeyed(users', next) && UniqueEmails(users') && SellerLinks(users', sellers) && users'.Keys == users.Keys
  {
  }

  /** Adding a user under the next id, with a new email and a valid seller link, keeps the user-table invariants. */
  lemma AddUserKeeps(users: map<nat, User>, sellers: map<nat, Seller>, next: nat, u: User)
    requires 0 < next && u.id == next
    requires forall k :: k in users ==> users[k].email != u.email
    requires u.sellerId.Some? ==> u.sellerId.value in sellers
    requires UsersKeyed(users, next) && UniqueEmails(users) && SellerLinks(users, sellers)
    ensures var users' := users[next := u];
            UsersKeyed(users', next + 1) && UniqueEmails(users') && SellerLinks(users', sellers)
  {
  }

  /** Adding a reset record under the next id, with an unused token, for an existing user, keeps the reset-table invariants. */
  lemma AddResetKeeps(resets: map<nat, PasswordReset>, users: map<nat, User>, next: nat, r: PasswordReset)
    requires 0 < next && r.id == next && r.userId in users
    requires forall k :: k in resets ==> resets[k].token != r.token
    requires ResetsKeyed(resets, next) && UniqueTokens(resets) && ResetLinks(resets, users)
    ensures var resets' := resets[next := r];
            ResetsKeyed(resets', next + 1) && UniqueTokens(resets') && ResetLinks(resets', users)
  {
  }

  /** Deleting a reset record keeps the reset-table invariants, also against a user table with the same ids. */
  lemma RemoveResetKeeps(resets: map<nat, PasswordReset>, users: map<nat, User>, users': map<nat, User>, next: nat, k: nat)
    requires users'.Keys == users.Keys
    requires ResetsKeyed(resets, next) && UniqueTokens(resets) && ResetLinks(resets, users)
    ensures var resets' := resets - {k};
            ResetsKeyed(resets', next) && UniqueTokens(resets') && ResetLinks(resets', users')
  {
  }

  // -----------------------------------------------------------------------
  // Lookups.

  lemma MinExists(s: set<nat>)
    requires s != {}
    ensures exists k :: k in s && forall j :: j in s ==> k <= j
  {
    var x :| x in s;
    MinAtMost(s, x);
  }

  lemma {:induction false} MinAtMost(s: set<nat>, x: nat)
    requires x in s
    ensures exists k :: k in s && forall j :: j in s ==> k <= j
    decreases x
  {
    if !forall j :: j in s ==> x <= j {
      var y :| y in s && y < x;
      MinAtMost(s, y);
    }
  }

  /** The least element of a non-empty set of ids. */
  function MinKey(s: set<nat>): (k: nat)
    requires s != {}
    ensures k in s && forall j :: j in s ==> k <= j
  {
    MinExists(s);
    var k :| k in s && forall j :: j in s ==> k <= j;
    k
  }

  /** The id of the row with the least id that satisfies `p`; `None` exactly when no row does. */
  function Find<V>(m: map<nat, V>, p: V -> bool): (r: Option<nat>)
    ensures r.Some? ==> r.value in m && p(m[r.value])
    ensures r.Some? ==> forall k :: k in m && p(m[k]) ==> r.value <= k
    ensures r.None? ==> forall k :: k in m ==> !p(m[k])
    decreases |m|
  {
    if |m| == 0 then None
    else
      var k := MinKey(m.Keys);
      if p(m[k]) then Some(k)
      else
        var rest := m - {k};
        assert rest.Keys == m.Keys - {k};
        assert forall j :: j in m ==> j == k || j in rest;
        Find(rest, p)
  }

  /** On a column whose values are unique, the lookup finds the one row holding the value. */
  lemma FindUnique<V>(m: map<nat, V>, p: V -> bool, k: nat)
    requires k in m && p(m[k])
    requires forall a, b :: a in m && b in m && p(m[a]) && p(m[b]) ==> a == b
    ensures Find(m, p) == Some(k)
  {
  }

  /** The rows of a table in id order (what a query without `orderBy` is taken to return). */
  function Rows<V>(m: map<nat, V>): (r: seq<V>)
    ensures |r| == |m|
    ensures forall i :: 0 <= i < |r| ==> exists k :: k in m && r[i] == m[k]
    ensures forall k :: k in m ==> m[k] in r
    decreases |m|
  {
    if |m| == 0 then []
    else
      var k := MinKey(m.Keys);
      var rest := m - {k};
      assert rest.Keys == m.Keys - {k};
      assert forall j :: j in m ==> j == k || j in rest;
      [m[k]] + Rows(rest)
  }

  /** When no two ids hold the same row (as when rows carry their own ids), no row occurs twice among the rows of the table. */
  lemma {:induction false} RowsOccurOnce<V>(m: map<nat, V>, v: V)
    requires forall a, b :: a in m && b in m && m[a] == m[b] ==> a == b
    ensures multiset(Rows(m))[v] <= 1
    decreases |m|
  {
    if |m| != 0 {
      var k := MinKey(m.Keys);
      var rest := m - {k};
      assert rest.Keys == m.Keys - {k};
      assert Rows(m) == [m[k]] + Rows(rest);
      RowsOccurOnce(rest, v);
      if m[k] == v {
        // every row of `rest` sits under another id, so it differs from `m[k]`
        assert v !in Rows(rest);
      }
    }
  }
}
