/**
 * The customer handlers, all scoped to the seller the request acts for:
 * `getCustomers` (optionally searched, newest first), `getCustomerById`,
 * `updateCustomer` (absent fields keep their value) and `deleteCustomer`.
 * Also the controller's own `resolveSellerId`, and how the three seller
 * resolutions of the code base relate.
 */
module Customers {
  import opened Js
  import opened Schema
  import opened Sorting
  import opened SellerId
  import Orders

  const Unauthorized: string := "Unauthorized"
  const InvalidCustomerId: string := "Invalid customer ID"
  const CustomerNotFound: string := "Customer not found"
  const CustomerDeleted: string := "Customer deleted successfully"

  // -----------------------------------------------------------------------
  // resolveSellerId

  /** The customer controller's `resolveSellerId(req)`; `undefined` is `None`. */
  function ResolveSellerId(user: Option<TokenUser>, users: map<nat, User>): (r: Option<int>)
    // a truthy sellerId in the token is the answer
    ensures user.Some? && TruthyInt(user.value.sellerId) ==> r == user.value.sellerId
    // otherwise, with a truthy user id, the stored sellerId (or nothing)
    ensures user.Some? && !TruthyInt(user.value.sellerId) && user.value.id != 0 ==> r == StoredSellerId(users, user.value.id)
    // and without one, the token's own falsy value
    ensures !(user.Some? && TruthyInt(user.value.sellerId)) && (user.None? || user.value.id == 0) ==> !TruthyInt(r)
  {
    var sellerId := if user.Some? then user.value.sellerId else None;
    if !TruthyInt(sellerId) && user.Some? && user.value.id != 0 then StoredSellerId(users, user.value.id)
    else sellerId
  }

  /** The seller a resolution lets a handler act for: its value when truthy. */
  function Effective(s: Option<int>): (r: Option<int>)
    ensures r.Some? <==> TruthyInt(s)
    ensures r.Some? ==> r == s
  {
    if TruthyInt(s) then s else None
  }

  /**
   * The three resolutions (`getSellerIdForReq`, and the order and customer
   * controllers' `resolveSellerId`) let a signed-in request act for the same
   * seller, as long as user id 0 holds no row. They differ in what they
   * return when there is none (null, 0 or undefined), never in the seller.
   */
  lemma SellerResolutionsAgree(u: TokenUser, users: map<nat, User>)
    requires 0 !in users
    ensures Effective(GetSellerIdForReq(Some(u), users)) == Orders.Acting(Orders.ResolveSellerId(Some(u), users))
    ensures Effective(ResolveSellerId(Some(u), users)) == Orders.Acting(Orders.ResolveSellerId(Some(u), users))
  {
  }

  /** The agreement holds in every consistent database, whose ids start at 1. */
  lemma SellerResolutionsAgreeInDatabase(db: Database, u: TokenUser)
    requires db.Valid()
    ensures Effective(GetSellerIdForReq(Some(u), db.users)) == Orders.Acting(Orders.ResolveSellerId(Some(u), db.users))
    ensures Effective(ResolveSellerId(Some(u), db.users)) == Orders.Acting(Orders.ResolveSellerId(Some(u), db.users))
  {
    SellerResolutionsAgree(u, db.users);
  }

  /** Without that condition the utility and the order controller part ways: user 0 is never looked up by the former. */
  lemma SellerResolutionsDifferOnUserZero(users: map<nat, User>, s: nat)
    requires 0 in users && users[0].sellerId == Some(s) && s != 0
    ensures GetSellerIdForReq(Some(TokenUser(0, "SELLER", None)), users) == None
    ensures Orders.Acting(Orders.ResolveSellerId(Some(TokenUser(0, "SELLER", None)), users)) == Some(s)
  {
  }

  // -----------------------------------------------------------------------
  // getCustomers

  /** The search's `OR` of case-insensitive `contains` on name, email and phone (a null column matches nothing). */
  predicate Matches(c: Customer, term: string) {
    || ContainsInsensitive(c.name, term)
    || (c.email.Some? && ContainsInsensitive(c.email.value, term))
    || (c.phone.Some? && ContainsInsensitive(c.phone.value, term))
  }

  /** The `where` clause: the seller's rows, and with a truthy search term only those that match it. */
  predicate Selected(c: Customer, sellerId: int, search: Option<string>) {
    c.sellerId == sellerId && (Truthy(search) ==> Matches(c, search.value))
  }

  function Select(rows: seq<Customer>, sellerId: int, search: Option<string>): (r: seq<Customer>)
    ensures forall c :: c in r <==> c in rows && Selected(c, sellerId, search)
    // a selected row is kept as often as it occurs, the others not at all
    ensures forall c :: multiset(r)[c] == if Selected(c, sellerId, search) then multiset(rows)[c] else 0
  {
    if rows == [] then []
    else
      assert rows == [rows[0]] + rows[1..];
      (if Selected(rows[0], sellerId, search) then [rows[0]] else []) + Select(rows[1..], sellerId, search)
  }

  predicate NewerFirst(a: Customer, b: Customer) {
    a.createdAt >= b.createdAt
  }

  lemma NewerFirstIsTotalPreorder()
    ensures TotalPreorder(NewerFirst)
  {
  }

  /** `getCustomers`. */
  function GetCustomers(customers: map<nat, Customer>, users: map<nat, User>, user: Option<TokenUser>,
                        search: Option<string>): (r: Reply<seq<Customer>>)
    ensures !TruthyInt(ResolveSellerId(user, users)) ==> r == Fail(401, Unauthorized)
    ensures TruthyInt(ResolveSellerId(user, users)) ==> r.Ok? && r.code == 200
    // exactly the seller's customers that the search selects
    ensures r.Ok? ==> forall c :: c in r.body <==>
              (exists k :: k in customers && customers[k] == c) && Selected(c, ResolveSellerId(user, users).value, search)
    // each selected row as often as the table holds it
    ensures r.Ok? ==>
      forall c :: multiset(r.body)[c] ==
        if Selected(c, ResolveSellerId(user, users).value, search) then multiset(Rows(customers))[c] else 0
    // newest first
    ensures r.Ok? ==> forall i, j :: 0 <= i < j < |r.body| ==> r.body[i].createdAt >= r.body[j].createdAt
  {
    var sellerId := ResolveSellerId(user, users);
    if !TruthyInt(sellerId) then Fail(401, Unauthorized)
    else
      NewerFirstIsTotalPreorder();
      var selected := Select(Rows(customers), sellerId.value, search);
      var sorted := SortBy(selected, NewerFirst);
      forall c ensures c in sorted <==> c in selected {
        assert c in sorted <==> c in multiset(sorted);
      }
      Ok(200, sorted)
  }

  /** No customer is listed twice: two positions of the listing hold different rows when rows carry their own ids. */
  lemma CustomersDistinct(customers: map<nat, Customer>, users: map<nat, User>, user: Option<TokenUser>,
                          search: Option<string>, i: int, j: int)
    requires forall k :: k in customers ==> customers[k].id == k
    requires var r := GetCustomers(customers, users, user, search); r.Ok? && 0 <= i < j < |r.body|
    ensures var r := GetCustomers(customers, users, user, search); r.body[i] != r.body[j]
  {
    var r := GetCustomers(customers, users, user, search).body;
    if r[i] == r[j] {
      // the row would occur twice in the listing, hence twice in the table's rows
      RepeatedCount(r, i, j);
      RowsOccurOnce(customers, r[i]);
    }
  }

  /** Without a search term (or with an empty one) the listing is all of the seller's customers. */
  lemma NoSearchListsAll(customers: map<nat, Customer>, users: map<nat, User>, user: Option<TokenUser>, k: nat)
    requires TruthyInt(ResolveSellerId(user, users))
    requires k in customers && customers[k].sellerId == ResolveSellerId(user, users).value
    ensures customers[k] in GetCustomers(customers, users, user, None).body
    ensures customers[k] in GetCustomers(customers, users, user, Some("")).body
  {
  }

  // -----------------------------------------------------------------------
  // The handlers on one customer.

  /** `customer.findFirst({ where: { id, sellerId } })`. */
  predicate Owns(customers: map<nat, Customer>, id: int, sellerId: int) {
    0 <= id && id in customers && customers[id].sellerId == sellerId
  }

  /** What the guards of the three handlers decide: an error reply, or the id of the owned customer. */
  datatype Access = Denied(code: nat, message: string) | Granted(id: nat)

  /** Seller first, then `Number(req.params.id)`, then ownership. */
  function Locate(customers: map<nat, Customer>, users: map<nat, User>, user: Option<TokenUser>, idParam: string)
    : (r: Access)
    ensures !TruthyInt(ResolveSellerId(user, users)) ==> r == Denied(401, Unauthorized)
    ensures TruthyInt(ResolveSellerId(user, users)) && NumberOf(idParam).None? ==> r == Denied(400, InvalidCustomerId)
    // granted exactly for a customer of the acting seller; another seller's customer is not found
    ensures r.Granted? <==>
      TruthyInt(ResolveSellerId(user, users)) && NumberOf(idParam).Some? &&
      Owns(customers, NumberOf(idParam).value, ResolveSellerId(user, users).value)
    ensures r.Granted? ==> r.id == NumberOf(idParam).value && r.id in customers
    ensures TruthyInt(ResolveSellerId(user, users)) && NumberOf(idParam).Some? && !r.Granted? ==>
      r == Denied(404, CustomerNotFound)
  {
    var sellerId := ResolveSellerId(user, users);
    if !TruthyInt(sellerId) then Denied(401, Unauthorized)
    else
      var id := NumberOf(idParam);
      if id.None? then Denied(400, InvalidCustomerId)
      else if !Owns(customers, id.value, sellerId.value) then Denied(404, CustomerNotFound)
      else Granted(id.value)
  }

  /** `getCustomerById`. */
  function GetCustomerById(customers: map<nat, Customer>, users: map<nat, User>, user: Option<TokenUser>,
                           idParam: string): (r: Reply<Customer>)
    ensures Locate(customers, users, user, idParam).Denied? ==>
      r == Fail(Locate(customers, users, user, idParam).code, Locate(customers, users, user, idParam).message)
    ensures Locate(customers, users, user, idParam).Granted? ==>
      r == Ok(200, customers[Locate(customers, users, user, idParam).id])
    ensures r.Ok? ==> r.body.sellerId == ResolveSellerId(user, users).value
  {
    match Locate(customers, users, user, idParam)
    case Denied(code, message) => Fail(code, message)
    case Granted(id) => Ok(200, customers[id])
  }

  /** `name ?? existing.name` and the same for email and phone: an absent field keeps its value, a given one replaces it. */
  function Merge(existing: Customer, name: Option<string>, email: Option<string>, phone: Option<string>): (c: Customer)
    ensures c.name == (if name.Some? then name.value else existing.name)
    ensures email.Some? ==> c.email == email
    ensures email.None? ==> c.email == existing.email
    ensures phone.Some? ==> c.phone == phone
    ensures phone.None? ==> c.phone == existing.phone
    // nothing else of the row changes
    ensures c.(name := existing.name, email := existing.email, phone := existing.phone) == existing
  {
    existing.(name := Coalesce(name, existing.name),
              email := if email.Some? then email else existing.email,
              phone := if phone.Some? then phone else existing.phone)
  }

  /** An update that gives no field leaves the customer as it is. */
  lemma EmptyUpdateChangesNothing(existing: Customer)
    ensures Merge(existing, None, None, None) == existing
  {
  }

  /** Updating with the fields of a first update again changes nothing more. */
  lemma MergeIdempotent(existing: Customer, name: Option<string>, email: Option<string>, phone: Option<string>)
    ensures Merge(Merge(existing, name, email, phone), name, email, phone) == Merge(existing, name, email, phone)
  {
  }

  lemma CustomerChangeKeepsConsistent(t: Tables, k: nat, c: Customer)
    requires Consistent(t) && c.id == k
    ensures Consistent(t.(customers := t.customers[k := c]))
    ensures Consistent(t.(customers := t.customers - {k}))
  {
  }

  /** `updateCustomer`. */
  method UpdateCustomer(db: Database, user: Option<TokenUser>, idParam: string,
                        name: Option<string>, email: Option<string>, phone: Option<string>) returns (reply: Reply<Customer>)
    requires db.Valid()
    modifies db`customers
    ensures db.Valid()
    ensures var a := Locate(old(db.customers), db.users, user, idParam);
      && (a.Denied? ==> reply == Fail(a.code, a.message) && db.customers == old(db.customers))
      && (a.Granted? ==>
            var c := Merge(old(db.customers)[a.id], name, email, phone);
            reply == Ok(200, c) && db.customers == old(db.customers)[a.id := c])
  {
    var sellerId := ResolveSellerId(user, db.users);
    if !TruthyInt(sellerId) {
      return Fail(401, Unauthorized);
    }
    var id := NumberOf(idParam);
    if id.None? {
      return Fail(400, InvalidCustomerId);
    }
    if !Owns(db.customers, id.value, sellerId.value) {
      return Fail(404, CustomerNotFound);
    }
    var existing := db.customers[id.value];
    var updated := existing.(name := if name.Some? then name.value else existing.name,
                             email := if email.Some? then email else existing.email,
                             phone := if phone.Some? then phone else existing.phone);
    ghost var before := db.Snapshot();
    CustomerChangeKeepsConsistent(before, id.value, updated);
    db.customers := db.customers[id.value := updated];
    assert db.Snapshot() == before.(customers := db.customers);
    reply := Ok(200, updated);
  }

  /** `deleteCustomer`. */
  method DeleteCustomer(db: Database, user: Option<TokenUser>, idParam: string) returns (reply: Reply<string>)
    requires db.Valid()
    modifies db`customers
    ensures db.Valid()
    ensures var a := Locate(old(db.customers), db.users, user, idParam);
      && (a.Denied? ==> reply == Fail(a.code, a.message) && db.customers == old(db.customers))
      && (a.Granted? ==> reply == Ok(200, CustomerDeleted) && db.customers == old(db.customers) - {a.id})
  {
    var sellerId := ResolveSellerId(user, db.users);
    if !TruthyInt(sellerId) {
      return Fail(401, Unauthorized);
    }
    var id := NumberOf(idParam);
    if id.None? {
      return Fail(400, InvalidCustomerId);
    }
    if !Owns(db.customers, id.value, sellerId.value) {
      return Fail(404, CustomerNotFound);
    }
    ghost var before := db.Snapshot();
    CustomerChangeKeepsConsistent(before, id.value, db.customers[id.value]);
    db.customers := db.customers - {id.value};
    assert db.Snapshot() == before.(customers := db.customers);
    reply := Ok(200, CustomerDeleted);
  }

  /** A delete removes exactly the one owned customer: every other row, of any seller, stays. */
  lemma DeleteRemovesOne(customers: map<nat, Customer>, id: nat)
    requires id in customers
    ensures (customers - {id}).Keys == customers.Keys - {id}
    ensures forall k :: k in customers && k != id ==> k in customers - {id} && (customers - {id})[k] == customers[k]
  {
  }
}
