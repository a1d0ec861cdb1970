/**
 * `exportOrders`: the seller's orders, newest first, written as CSV text: a
 * fixed header line, then one line per order. The date column is the
 * parameter `iso` (`Date.prototype.toISOString` of the row's `createdAt`).
 */
module OrderExport {
  import opened Js
  import opened Schema
  import opened Sorting
  import opened Orders

  /** The column titles; the header line is them joined by commas. */
  const Titles: seq<string> := ["Order ID", "Date", "Customer", "Phone", "Email", "Status", "Payment Status", "Total", "Items"]
  const Header: string := Join(Titles, ",") + "\n"
  const ItemSeparator: string := " | "
  const Unauthorized: string := "Unauthorized"
  const ExportFailed: string := "Failed to export orders"

  // -----------------------------------------------------------------------
  // The query.

  /** Orders compared by `createdAt`, newest first. */
  predicate NewerFirst(a: Order, b: Order) {
    a.createdAt >= b.createdAt
  }

  lemma NewerFirstIsTotalPreorder()
    ensures TotalPreorder(NewerFirst)
  {
  }

  /** The rows with the given `sellerId`, in the order given. */
  function OfSeller(rows: seq<Order>, sellerId: int): (r: seq<Order>)
    ensures forall o :: o in r <==> o in rows && o.sellerId == sellerId
    // a kept row as often as it occurs, the others not at all
    ensures forall o :: multiset(r)[o] == if o.sellerId == sellerId then multiset(rows)[o] else 0
  {
    if rows == [] then []
    else
      assert rows == [rows[0]] + rows[1..];
      (if rows[0].sellerId == sellerId then [rows[0]] else []) + OfSeller(rows[1..], sellerId)
  }

  /** `order.findMany({ where: { sellerId }, orderBy: { createdAt: "desc" } })`. */
  function SellerOrders(orders: map<nat, Order>, sellerId: int): (r: seq<Order>)
    ensures forall i, j :: 0 <= i < j < |r| ==> r[i].createdAt >= r[j].createdAt
    ensures forall o :: o in r <==> (exists k :: k in orders && orders[k] == o) && o.sellerId == sellerId
  {
    NewerFirstIsTotalPreorder();
    var kept := OfSeller(Rows(orders), sellerId);
    var r := SortBy(kept, NewerFirst);
    forall o ensures o in r <==> o in kept {
      assert o in r <==> o in multiset(r);
    }
    r
  }

  /** Each of the seller's orders is listed as often as the table holds it, and no other order is. */
  lemma SellerOrdersCounts(orders: map<nat, Order>, sellerId: int)
    ensures forall o :: multiset(SellerOrders(orders, sellerId))[o] ==
                          if o.sellerId == sellerId then multiset(Rows(orders))[o] else 0
  {
    NewerFirstIsTotalPreorder();
    assert SellerOrders(orders, sellerId) == SortBy(OfSeller(Rows(orders), sellerId), NewerFirst);
  }

  /** No order is listed twice: two positions of the listing hold different rows when rows carry their own ids. */
  lemma SellerOrdersDistinct(orders: map<nat, Order>, sellerId: int, i: int, j: int)
    requires forall k :: k in orders ==> orders[k].id == k
    requires 0 <= i < j < |SellerOrders(orders, sellerId)|
    ensures SellerOrders(orders, sellerId)[i] != SellerOrders(orders, sellerId)[j]
  {
    var r := SellerOrders(orders, sellerId);
    if r[i] == r[j] {
      // the row would occur twice in the listing, hence twice in the table's rows
      RepeatedCount(r, i, j);
      SellerOrdersCounts(orders, sellerId);
      RowsOccurOnce(orders, r[i]);
    }
  }

  // -----------------------------------------------------------------------
  // One record.

  /** `${p.Product.name} (x${p.quantity})`. */
  function ItemLabel(name: string, quantity: int): string {
    name + " (x" + IntToString(quantity) + ")"
  }

  /**
   * `order.products.map(...)`: one label per line item, in order; `None`
   * when a line's product row is missing (reading `.name` of it throws).
   */
  function ItemLabels(lines: seq<LineItem>, products: map<nat, Product>): (r: Option<seq<string>>)
    ensures r.Some? <==> forall i :: 0 <= i < |lines| ==> Stocked(products, lines[i].productId)
    ensures r.Some? ==> |r.value| == |lines|
    ensures r.Some? ==> forall i :: 0 <= i < |lines| ==>
                          r.value[i] == ItemLabel(products[lines[i].productId].name, lines[i].quantity)
  {
    if lines == [] then Some([])
    else if !Stocked(products, lines[0].productId) then None
    else
      match ItemLabels(lines[1..], products)
      case None => None
      case Some(rest) => Some([ItemLabel(products[lines[0].productId].name, lines[0].quantity)] + rest)
  }

  /** `"${s}"`: the text between double quotes, as is. */
  function Quote(s: string): (r: string)
    ensures |r| == |s| + 2 && r[0] == '"' && r[|r| - 1] == '"' && r[1..|r| - 1] == s
  {
    "\"" + s + "\""
  }

  /** The nine columns of one order, with the items column already joined. */
  function Columns(o: Order, items: string, iso: int -> string): (f: seq<string>)
    ensures |f| == 9
    ensures f[0] == IntToString(o.id) && f[1] == iso(o.createdAt) && f[2] == Quote(o.customerName)
    // a missing phone or email is an empty column, so the slot is still there
    ensures f[3] == OrElse(o.customerPhone, "") && f[4] == OrElse(o.customerEmail, "")
    ensures f[5] == o.status && f[6] == o.paymentStatus && f[7] == IntToString(o.totalAmount) && f[8] == Quote(items)
  {
    [IntToString(o.id), iso(o.createdAt), Quote(o.customerName), OrElse(o.customerPhone, ""),
     OrElse(o.customerEmail, ""), o.status, o.paymentStatus, IntToString(o.totalAmount), Quote(items)]
  }

  /** The line written for one order, newline included; `None` when its items cannot be labelled. */
  function Record(o: Order, products: map<nat, Product>, iso: int -> string): Option<string> {
    match ItemLabels(o.lines, products)
    case None => None
    case Some(labels) => Some(Join(Columns(o, Join(labels, ItemSeparator), iso), ",") + "\n")
  }

  /** The records of `rows`, one after the other; `None` when one of them fails. */
  function Records(rows: seq<Order>, products: map<nat, Product>, iso: int -> string): Option<string> {
    if rows == [] then Some("")
    else
      var init := rows[..|rows| - 1];
      match Records(init, products, iso)
      case None => None
      case Some(front) =>
        match Record(rows[|rows| - 1], products, iso)
        case None => None
        case Some(last) => Some(front + last)
  }

  /** `exportOrders`, as a reply: 401 without a seller in the token, the CSV text, or 500 when a record fails. */
  function Export(orders: map<nat, Order>, products: map<nat, Product>, user: Option<TokenUser>, iso: int -> string)
    : Reply<string>
  {
    if !(user.Some? && TruthyInt(user.value.sellerId)) then Fail(401, Unauthorized)
    else
      match Records(SellerOrders(orders, user.value.sellerId.value), products, iso)
      case None => Fail(500, ExportFailed)
      case Some(body) => Ok(200, Header + body)
  }

  /** `exportOrders`: the header, then `csv +=` one record per order in a loop. */
  method ExportOrders(db: Database, user: Option<TokenUser>, iso: int -> string) returns (reply: Reply<string>)
    ensures reply == Export(db.orders, db.products, user, iso)
  {
    var sellerId := if user.Some? then user.value.sellerId else None;
    if !TruthyInt(sellerId) {
      return Fail(401, Unauthorized);
    }
    var orders := SellerOrders(db.orders, sellerId.value);
    var csv := AppendRecords(Header, orders, db.products, iso);
    if csv.None? {
      return Fail(500, ExportFailed);
    }
    reply := Ok(200, csv.value);
  }

  /**
   * The loop of `exportOrders`: `csv += record` for each order in turn,
   * starting from `csv`; `None` as soon as one record cannot be written.
   */
  method AppendRecords(csv: string, orders: seq<Order>, products: map<nat, Product>, iso: int -> string)
    returns (r: Option<string>)
    ensures r.Some? <==> Records(orders, products, iso).Some?
    ensures r.Some? ==> r.value == csv + Records(orders, products, iso).value
  {
    var text := csv;
    var i := 0;
    while i < |orders|
      invariant 0 <= i <= |orders|
      invariant Records(orders[..i], products, iso).Some?
      invariant text == csv + Records(orders[..i], products, iso).value
    {
      var record := Record(orders[i], products, iso);
      RecordsNext(orders, i, products, iso);
      if record.None? {
        return None;
      }
      AppendAssoc(csv, Records(orders[..i], products, iso).value, record.value);
      text := text + record.value;
      i := i + 1;
    }
    assert orders[..i] == orders;
    r := Some(text);
  }

  lemma AppendAssoc(a: string, b: string, c: string)
    ensures (a + b) + c == a + (b + c)
  {
  }

  /** The export fails as a whole when the record of any one order fails. */
  lemma {:induction false} RecordsFailAt(rows: seq<Order>, i: int, products: map<nat, Product>, iso: int -> string)
    requires 0 <= i < |rows| && Record(rows[i], products, iso).None?
    ensures Records(rows, products, iso).None?
  {
    var init := rows[..|rows| - 1];
    if i < |rows| - 1 {
      assert init[i] == rows[i];
      RecordsFailAt(init, i, products, iso);
    }
  }

  /** One turn of the export loop: the records of the first i + 1 orders extend those of the first i. */
  /** One turn of the export loop: a failing record fails the whole export, a written one extends the text. */
  lemma RecordsNext(rows: seq<Order>, i: int, products: map<nat, Product>, iso: int -> string)
    requires 0 <= i < |rows| && Records(rows[..i], products, iso).Some?
    ensures Record(rows[i], products, iso).None? ==> Records(rows, products, iso).None?
    ensures Record(rows[i], products, iso).Some? ==>
      Records(rows[..i + 1], products, iso) ==
        Some(Records(rows[..i], products, iso).value + Record(rows[i], products, iso).value)
  {
    if Record(rows[i], products, iso).None? {
      RecordsFailAt(rows, i, products, iso);
    } else {
      RecordsStep(rows, i, products, iso);
    }
  }

  lemma RecordsStep(rows: seq<Order>, i: int, products: map<nat, Product>, iso: int -> string)
    requires 0 <= i < |rows| && Records(rows[..i], products, iso).Some?
    ensures Record(rows[i], products, iso).Some? ==>
      && Records(rows[..i + 1], products, iso).Some?
      && Records(rows[..i + 1], products, iso).value
        == Records(rows[..i], products, iso).value + Record(rows[i], products, iso).value
  {
    assert rows[..i + 1][..i] == rows[..i] && rows[..i + 1][i] == rows[i];
  }

  // -----------------------------------------------------------------------
  // Properties of the text.

  /** The number of line breaks in `s`. */
  function Newlines(s: string): nat {
    if s == [] then 0 else Newlines(s[..|s| - 1]) + (if s[|s| - 1] == '\n' then 1 else 0)
  }

  lemma {:induction false} NewlinesConcat(a: string, b: string)
    ensures Newlines(a + b) == Newlines(a) + Newlines(b)
    decreases |b|
  {
    if b == [] {
      assert a + b == a;
    } else {
      var b' := b[..|b| - 1];
      assert (a + b)[..|a + b| - 1] == a + b';
      assert (a + b)[|a + b| - 1] == b[|b| - 1];
      NewlinesConcat(a, b');
    }
  }

  lemma {:induction false} NoNewlines(s: string)
    requires '\n' !in s
    ensures Newlines(s) == 0
  {
    if s != [] {
      assert s[..|s| - 1] <= s;
      NoNewlines(s[..|s| - 1]);
    }
  }

  lemma IntToStringOneLine(n: int)
    ensures '\n' !in IntToString(n)
  {
    var d := NatToString(if n < 0 then -n else n);
    assert !IsDigit('\n');
    assert forall i :: 0 <= i < |d| ==> d[i] != '\n';
    if n < 0 {
      assert IntToString(n) == "-" + d;
    }
  }

  /** The order's own text holds no line break: customer, contacts, statuses, date and product names. */
  predicate OneLine(o: Order, products: map<nat, Product>, iso: int -> string) {
    && '\n' !in iso(o.createdAt) && '\n' !in o.customerName
    && '\n' !in OrElse(o.customerPhone, "") && '\n' !in OrElse(o.customerEmail, "")
    && '\n' !in o.status && '\n' !in o.paymentStatus
    && forall i :: 0 <= i < |o.lines| && Stocked(products, o.lines[i].productId) ==>
         '\n' !in products[o.lines[i].productId].name
  }

  /** The items column holds no line break when no product name does. */
  lemma ItemsOneLine(o: Order, products: map<nat, Product>, iso: int -> string)
    requires OneLine(o, products, iso)
    requires ItemLabels(o.lines, products).Some?
    ensures '\n' !in Join(ItemLabels(o.lines, products).value, ItemSeparator)
  {
    var labels := ItemLabels(o.lines, products).value;
    forall i | 0 <= i < |labels| ensures '\n' !in labels[i] {
      IntToStringOneLine(o.lines[i].quantity);
    }
    NotInJoin(labels, ItemSeparator, '\n');
  }

  /** No column of a record holds a line break. */
  lemma ColumnsOneLine(o: Order, products: map<nat, Product>, items: string, iso: int -> string)
    requires OneLine(o, products, iso) && '\n' !in items
    ensures forall i :: 0 <= i < 9 ==> '\n' !in Columns(o, items, iso)[i]
  {
    IntToStringOneLine(o.id);
    IntToStringOneLine(o.totalAmount);
  }

  /** Each record is exactly one line: it ends with the only line break it holds. */
  lemma RecordIsOneLine(o: Order, products: map<nat, Product>, iso: int -> string)
    requires OneLine(o, products, iso)
    requires Record(o, products, iso).Some?
    ensures var r := Record(o, products, iso).value;
            Newlines(r) == 1 && r[|r| - 1] == '\n'
  {
    var items := Join(ItemLabels(o.lines, products).value, ItemSeparator);
    ItemsOneLine(o, products, iso);
    var cols := Columns(o, items, iso);
    ColumnsOneLine(o, products, items, iso);
    NotInJoin(cols, ",", '\n');
    var line := Join(cols, ",");
    NoNewlines(line);
    NewlinesConcat(line, "\n");
  }

  /** Header line plus one line per order: the export holds exactly |rows| + 1 line breaks. */
  lemma {:induction false} RecordsLines(rows: seq<Order>, products: map<nat, Product>, iso: int -> string)
    requires forall i :: 0 <= i < |rows| ==> OneLine(rows[i], products, iso)
    requires Records(rows, products, iso).Some?
    ensures Newlines(Records(rows, products, iso).value) == |rows|
  {
    if rows != [] {
      var init := rows[..|rows| - 1];
      assert forall i :: 0 <= i < |init| ==> init[i] == rows[i];
      RecordsLines(init, products, iso);
      RecordIsOneLine(rows[|rows| - 1], products, iso);
      NewlinesConcat(Records(init, products, iso).value, Record(rows[|rows| - 1], products, iso).value);
    }
  }

  /** The records are all written exactly when every single record can be. */
  lemma {:induction false} RecordsSomeIff(rows: seq<Order>, products: map<nat, Product>, iso: int -> string)
    ensures Records(rows, products, iso).Some? <==> forall i :: 0 <= i < |rows| ==> Record(rows[i], products, iso).Some?
  {
    if rows != [] {
      var init := rows[..|rows| - 1];
      RecordsSomeIff(init, products, iso);
      if Records(rows, products, iso).Some? {
        forall i | 0 <= i < |rows| ensures Record(rows[i], products, iso).Some? {
          if i < |rows| - 1 {
            assert rows[i] == init[i];
          }
        }
      } else if Records(init, products, iso).None? {
        var i :| 0 <= i < |init| && Record(init[i], products, iso).None?;
        assert rows[i] == init[i];
      }
    }
  }

  /**
   * The replies of the export: 401 without a seller id in the token; otherwise
   * 500 exactly when one of the seller's orders has a line whose product row
   * is missing, and else 200 with the header followed by the records.
   */
  lemma ExportOutcomes(orders: map<nat, Order>, products: map<nat, Product>, user: Option<TokenUser>, iso: int -> string)
    ensures !(user.Some? && TruthyInt(user.value.sellerId)) ==> Export(orders, products, user, iso) == Fail(401, Unauthorized)
    ensures user.Some? && TruthyInt(user.value.sellerId) ==>
      var rows := SellerOrders(orders, user.value.sellerId.value);
      && (Export(orders, products, user, iso).Ok? <==>
            forall i :: 0 <= i < |rows| ==> ItemLabels(rows[i].lines, products).Some?)
      && (Export(orders, products, user, iso).Ok? ==>
            Export(orders, products, user, iso) == Ok(200, Header + Records(rows, products, iso).value))
      && (!Export(orders, products, user, iso).Ok? ==> Export(orders, products, user, iso) == Fail(500, ExportFailed))
  {
    if user.Some? && TruthyInt(user.value.sellerId) {
      RecordsSomeIff(SellerOrders(orders, user.value.sellerId.value), products, iso);
    }
  }

  /** A successful export starts with the header and holds one line per exported order. */
  lemma ExportShape(orders: map<nat, Order>, products: map<nat, Product>, user: Option<TokenUser>, iso: int -> string)
    requires Export(orders, products, user, iso).Ok?
    requires forall k :: k in orders ==> OneLine(orders[k], products, iso)
    ensures var csv := Export(orders, products, user, iso).body;
            && IsPrefix(Header, csv)
            && Newlines(csv) == 1 + |SellerOrders(orders, user.value.sellerId.value)|
  {
    var rows := SellerOrders(orders, user.value.sellerId.value);
    forall i | 0 <= i < |rows| ensures OneLine(rows[i], products, iso) {
      assert rows[i] in rows;
    }
    RecordsLines(rows, products, iso);
    var body := Records(rows, products, iso).value;
    HeaderIsOneLine();
    NewlinesConcat(Header, body);
    PrefixOfAppend(Header, body);
  }

  /** The header is one line, ended by its line break. */
  lemma HeaderIsOneLine()
    ensures Newlines(Header) == 1
  {
    assert forall i :: 0 <= i < |Titles| ==> '\n' !in Titles[i];
    NotInJoin(Titles, ",", '\n');
    NoNewlines(Join(Titles, ","));
    NewlinesConcat(Join(Titles, ","), "\n");
  }

  lemma PrefixOfAppend(a: string, b: string)
    ensures IsPrefix(a, a + b)
  {
    assert (a + b)[..|a|] == a;
  }

  /** When no column holds a comma, splitting the record's line at commas gives back its nine columns. */
  lemma RecordColumns(o: Order, items: string, iso: int -> string)
    requires forall i :: 0 <= i < 9 ==> ',' !in Columns(o, items, iso)[i]
    ensures Split(Join(Columns(o, items, iso), ","), ',') == Columns(o, items, iso)
  {
    JoinSplit(Columns(o, items, iso), ',');
  }

  // -----------------------------------------------------------------------
  // Quoting, against section 2, rule 7 of RFC 4180.

  /** Each double quote written twice. */
  function DoubleQuotes(s: string): (r: string)
    ensures |r| >= |s|
  {
    if s == [] then [] else (if s[0] == '"' then "\"\"" else [s[0]]) + DoubleQuotes(s[1..])
  }

  /** A quoted field as section 2, rule 7 of RFC 4180 writes it: embedded double quotes are doubled. */
  function Rfc4180Quote(s: string): string {
    "\"" + DoubleQuotes(s) + "\""
  }

  lemma {:induction false} DoubleQuotesIdentityIff(s: string)
    ensures DoubleQuotes(s) == s <==> '"' !in s
  {
    if s != [] {
      DoubleQuotesIdentityIff(s[1..]);
      if s[0] == '"' {
        assert |DoubleQuotes(s)| > |s|;
      } else {
        assert s == [s[0]] + s[1..];
        if DoubleQuotes(s) == s {
          assert DoubleQuotes(s)[1..] == DoubleQuotes(s[1..]);
        }
      }
    }
  }

  /**
   * The export's quoting of the customer name and the items agrees with
   * RFC 4180 exactly when the text holds no double quote; a name such as
   * `Ann "Jo" Lee` is written with its quotes undoubled.
   */
  lemma QuoteIsRfc4180Iff(s: string)
    ensures Quote(s) == Rfc4180Quote(s) <==> '"' !in s
  {
    DoubleQuotesIdentityIff(s);
    if Quote(s) == Rfc4180Quote(s) {
      assert Quote(s)[1..|Quote(s)| - 1] == DoubleQuotes(s);
    }
  }
}
