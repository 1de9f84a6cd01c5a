/** The order-creation transaction of app/api/v1/orders/create-order/route.ts
    over an immutable database state: customer upsert keyed by phone number,
    order totals, line-item snapshots, and the all-or-nothing commit.
    Timestamps (`createdAt`, `updatedAt`) and the time-zone rewriting of the
    date of birth are not part of this model. */
module OrderDb {
  import opened Wrappers
  import Rows
  import Utils

  datatype Gender = Male | Female | Lgbtqa

  /** The validated `user` part of the request body. */
  datatype CustomerInput = CustomerInput(shopId: int, eventId: int, fullName: string, phoneNumber: string,
                                         dob: string, gender: Gender, province: string, district: string,
                                         village: string, acceptTerms: bool)

  /** One validated `order_details` entry; quantities are any numbers. */
  datatype LineRequest = LineRequest(productId: int, qty: int)

  datatype OrderPayload = OrderPayload(user: CustomerInput, lines: seq<LineRequest>)

  /** The profile columns of a `user` row. */
  datatype Customer = Customer(id: int, fullName: string, phoneNumber: string, dateOfBirth: string,
                               gender: Gender, province: string, district: string, village: string,
                               acceptTerms: bool)

  datatype Product = Product(id: int, name: string, productPrice: int, crateQtyPerProduct: int,
                             promotionFreeQty: int, cratePrice: int)

  datatype Order = Order(id: int, userId: int, shopId: int, orderTotalCrateFee: int,
                         orderSubTotalAmount: int, orderTotalAmount: int, eventId: int)

  datatype OrderDetail = OrderDetail(id: int, orderId: int, productId: int, orderDetailQty: int,
                                     crateQtyPerProduct: int, promoQty: int, pricePerItem: int,
                                     cratePrice: int, orderDetailTotalAmount: int)

  /** The tables the transaction reads and writes; products by primary key. */
  datatype Db = Db(users: seq<Customer>, products: map<int, Product>, orders: seq<Order>, details: seq<OrderDetail>)

  // ---------------------------------------------------------------------------
  // findOrCreateUser
  // ---------------------------------------------------------------------------

  /** `user.findFirst({ where: { phoneNumber } })`: the index of the first match. */
  function FindByPhone(users: seq<Customer>, phone: string): (r: Option<nat>)
    ensures r.Some? ==> r.value < |users| && users[r.value].phoneNumber == phone
    ensures r.Some? ==> forall j :: 0 <= j < r.value ==> users[j].phoneNumber != phone
    ensures r.None? ==> forall j :: 0 <= j < |users| ==> users[j].phoneNumber != phone
  {
    if |users| == 0 then None
    else if users[0].phoneNumber == phone then Some(0)
    else match FindByPhone(users[1..], phone)
      case None => None
      case Some(i) => Some(i + 1)
  }

  /** The row carries the profile fields of the input. */
  predicate HasProfile(c: Customer, input: CustomerInput) {
    && c.fullName == input.fullName && c.dateOfBirth == input.dob && c.gender == input.gender
    && c.province == input.province && c.district == input.district && c.village == input.village
    && c.acceptTerms == input.acceptTerms
  }

  function WithProfile(c: Customer, input: CustomerInput): Customer {
    c.(fullName := input.fullName, dateOfBirth := input.dob, gender := input.gender, province := input.province,
       district := input.district, village := input.village, acceptTerms := input.acceptTerms)
  }

  datatype Upserted = Upserted(users: seq<Customer>, customer: Customer)

  function UserId(c: Customer): int { c.id }

  /** `findOrCreateUser(user)`: the first row with the phone number keeps its id
      and phone and takes the new profile; without one, exactly one row is added
      under a fresh id. No other row changes. */
  function FindOrCreateUser(users: seq<Customer>, input: CustomerInput): (r: Upserted)
    ensures HasProfile(r.customer, input) && r.customer.phoneNumber == input.phoneNumber
    ensures match FindByPhone(users, input.phoneNumber)
            case Some(i) =>
              && |r.users| == |users| && r.users[i] == r.customer && r.customer.id == users[i].id
              && forall j :: 0 <= j < |users| && j != i ==> r.users[j] == users[j]
            case None =>
              && r.users == users + [r.customer]
              && forall j :: 0 <= j < |users| ==> users[j].id != r.customer.id
  {
    match FindByPhone(users, input.phoneNumber)
    case Some(i) =>
      var updated := WithProfile(users[i], input);
      Upserted(users[i := updated], updated)
    case None =>
      var created := Customer(Rows.FreshId(users, UserId), input.fullName, input.phoneNumber, input.dob,
                              input.gender, input.province, input.district, input.village, input.acceptTerms);
      Upserted(users + [created], created)
  }

  // ---------------------------------------------------------------------------
  // createOrder: totals
  // ---------------------------------------------------------------------------

  /** The crate fee of one line: (crates per item + free items) x qty x crate price. */
  function LineCrateFee(p: Product, qty: int): int {
    (p.crateQtyPerProduct + p.promotionFreeQty) * qty * p.cratePrice
  }

  function LineSubtotal(p: Product, qty: int): int {
    qty * p.productPrice
  }

  /** The crate-fee total: lines whose product is missing contribute nothing. */
  function CrateFeeTotal(products: map<int, Product>, lines: seq<LineRequest>): int {
    if |lines| == 0 then 0
    else (if lines[0].productId in products then LineCrateFee(products[lines[0].productId], lines[0].qty) else 0)
         + CrateFeeTotal(products, lines[1..])
  }

  /** The subtotal: lines whose product is missing contribute nothing. */
  function SubtotalTotal(products: map<int, Product>, lines: seq<LineRequest>): int {
    if |lines| == 0 then 0
    else (if lines[0].productId in products then LineSubtotal(products[lines[0].productId], lines[0].qty) else 0)
         + SubtotalTotal(products, lines[1..])
  }

  lemma {:induction false} TotalsAppend(products: map<int, Product>, lines: seq<LineRequest>, line: LineRequest)
    ensures CrateFeeTotal(products, lines + [line])
            == CrateFeeTotal(products, lines)
               + (if line.productId in products then LineCrateFee(products[line.productId], line.qty) else 0)
    ensures SubtotalTotal(products, lines + [line])
            == SubtotalTotal(products, lines)
               + (if line.productId in products then LineSubtotal(products[line.productId], line.qty) else 0)
    decreases |lines|
  {
    if |lines| == 0 {
      assert lines + [line] == [line];
    } else {
      assert (lines + [line])[0] == lines[0];
      assert (lines + [line])[1..] == lines[1..] + [line];
      TotalsAppend(products, lines[1..], line);
    }
  }

  /** The accumulating loop of `createOrder`: it computes the crate-fee total and
      the subtotal over the lines whose product exists, and their sum. */
  method ComputeTotals(products: map<int, Product>, lines: seq<LineRequest>)
    returns (orderTotalCrateFee: int, orderSubTotalAmount: int, orderTotalAmount: int)
    ensures orderTotalCrateFee == CrateFeeTotal(products, lines)
    ensures orderSubTotalAmount == SubtotalTotal(products, lines)
    ensures orderTotalAmount == orderSubTotalAmount + orderTotalCrateFee
  {
    orderTotalCrateFee := 0;
    orderSubTotalAmount := 0;
    var i := 0;
    while i < |lines|
      invariant 0 <= i <= |lines|
      invariant orderTotalCrateFee == CrateFeeTotal(products, lines[..i])
      invariant orderSubTotalAmount == SubtotalTotal(products, lines[..i])
    {
      var line := lines[i];
      TotalsAppend(products, lines[..i], line);
      assert lines[..i + 1] == lines[..i] + [line];
      if line.productId in products {
        var product := products[line.productId];
        orderTotalCrateFee := orderTotalCrateFee + LineCrateFee(product, line.qty);
        orderSubTotalAmount := orderSubTotalAmount + LineSubtotal(product, line.qty);
      }
      i := i + 1;
    }
    assert lines[..|lines|] == lines;
    orderTotalAmount := orderSubTotalAmount + orderTotalCrateFee;
  }

  /** The lines whose product exists. */
  function KnownLines(products: map<int, Product>, lines: seq<LineRequest>): (r: seq<LineRequest>)
    ensures forall i :: 0 <= i < |r| ==> r[i].productId in products
  {
    if |lines| == 0 then []
    else (if lines[0].productId in products then [lines[0]] else []) + KnownLines(products, lines[1..])
  }

  /** The totals are those of the known lines alone: a missing product is skipped. */
  lemma {:induction false} TotalsSkipMissing(products: map<int, Product>, lines: seq<LineRequest>)
    ensures CrateFeeTotal(products, lines) == CrateFeeTotal(products, KnownLines(products, lines))
    ensures SubtotalTotal(products, lines) == SubtotalTotal(products, KnownLines(products, lines))
    decreases |lines|
  {
    if |lines| > 0 {
      TotalsSkipMissing(products, lines[1..]);
      var rest := KnownLines(products, lines[1..]);
      if lines[0].productId in products {
        assert KnownLines(products, lines) == [lines[0]] + rest;
        assert ([lines[0]] + rest)[1..] == rest;
      } else {
        assert KnownLines(products, lines) == rest;
      }
    }
  }

  /** `user.event_id || 1`. */
  function EventIdOf(input: CustomerInput): (r: int)
    ensures r != 0
    ensures input.eventId != 0 ==> r == input.eventId
    ensures input.eventId == 0 ==> r == 1
  {
    if input.eventId == 0 then 1 else input.eventId
  }

  /** The row `createOrder` inserts. */
  function NewOrder(id: int, customer: Customer, input: CustomerInput, products: map<int, Product>,
                    lines: seq<LineRequest>): (o: Order)
    ensures o.id == id && o.userId == customer.id && o.shopId == input.shopId
    ensures o.eventId != 0 && (input.eventId != 0 ==> o.eventId == input.eventId)
    ensures o.eventId == EventIdOf(input) && (input.eventId == 0 ==> o.eventId == 1)
    ensures o.orderTotalCrateFee == CrateFeeTotal(products, KnownLines(products, lines))
    ensures o.orderSubTotalAmount == SubtotalTotal(products, KnownLines(products, lines))
    ensures o.orderTotalAmount == o.orderSubTotalAmount + o.orderTotalCrateFee
  {
    TotalsSkipMissing(products, lines);
    var crateFee := CrateFeeTotal(products, lines);
    var subTotal := SubtotalTotal(products, lines);
    Order(id, customer.id, input.shopId, crateFee, subTotal, subTotal + crateFee, EventIdOf(input))
  }

  // ---------------------------------------------------------------------------
  // createOrderDetails: one snapshot row per line
  // ---------------------------------------------------------------------------

  predicate AllProductsExist(products: map<int, Product>, lines: seq<LineRequest>) {
    forall i :: 0 <= i < |lines| ==> lines[i].productId in products
  }

  /** The detail row records the line and a copy of the product's current
      packaging and price fields. */
  predicate IsSnapshot(d: OrderDetail, orderId: int, p: Product, line: LineRequest) {
    && d.orderId == orderId && d.productId == line.productId && d.orderDetailQty == line.qty
    && d.crateQtyPerProduct == p.crateQtyPerProduct && d.promoQty == p.promotionFreeQty
    && d.pricePerItem == p.productPrice && d.cratePrice == p.cratePrice
    && d.orderDetailTotalAmount == LineSubtotal(p, line.qty)
  }

  function Snapshot(id: int, orderId: int, p: Product, line: LineRequest): OrderDetail {
    OrderDetail(id, orderId, line.productId, line.qty, p.crateQtyPerProduct, p.promotionFreeQty,
                p.productPrice, p.cratePrice, LineSubtotal(p, line.qty))
  }

  /** `createOrderDetails(orderId, order_details)`: exactly one snapshot row per
      line, ids from `firstId` on; fails with the id of the first line whose
      product is missing. */
  function CreateOrderDetails(orderId: int, firstId: int, products: map<int, Product>, lines: seq<LineRequest>)
    : (r: Result<seq<OrderDetail>, int>)
    ensures r.Success? <==> AllProductsExist(products, lines)
    ensures r.Success? ==>
              && |r.value| == |lines|
              && forall i :: 0 <= i < |lines| ==>
                   r.value[i].id == firstId + i && IsSnapshot(r.value[i], orderId, products[lines[i].productId], lines[i])
    ensures r.Failure? ==>
              && r.error !in products
              && exists i :: 0 <= i < |lines| && lines[i].productId == r.error
    decreases |lines|
  {
    if |lines| == 0 then Success([])
    else if lines[0].productId !in products then Failure(lines[0].productId)
    else
      var rest :- CreateOrderDetails(orderId, firstId + 1, products, lines[1..]);
      Success([Snapshot(firstId, orderId, products[lines[0].productId], lines[0])] + rest)
  }

  function SumLineTotals(rows: seq<OrderDetail>): int {
    if |rows| == 0 then 0 else rows[0].orderDetailTotalAmount + SumLineTotals(rows[1..])
  }

  /** The crate fees recomputed from the snapshot fields of the rows. */
  function SumSnapshotCrateFees(rows: seq<OrderDetail>): int {
    if |rows| == 0 then 0
    else (rows[0].crateQtyPerProduct + rows[0].promoQty) * rows[0].orderDetailQty * rows[0].cratePrice
         + SumSnapshotCrateFees(rows[1..])
  }

  /** When every product exists, the detail rows add up to the order's subtotal
      and their snapshots reproduce its crate-fee total. */
  lemma {:induction false} DetailsReproduceTotals(orderId: int, firstId: int, products: map<int, Product>,
                                                  lines: seq<LineRequest>)
    requires AllProductsExist(products, lines)
    ensures SumLineTotals(CreateOrderDetails(orderId, firstId, products, lines).value) == SubtotalTotal(products, lines)
    ensures SumSnapshotCrateFees(CreateOrderDetails(orderId, firstId, products, lines).value)
            == CrateFeeTotal(products, lines)
    decreases |lines|
  {
    if |lines| > 0 {
      assert AllProductsExist(products, lines[1..]) by {
        forall i | 0 <= i < |lines[1..]| ensures lines[1..][i].productId in products {
          assert lines[1..][i] == lines[i + 1];
        }
      }
      DetailsReproduceTotals(orderId, firstId + 1, products, lines[1..]);
      var rows := CreateOrderDetails(orderId, firstId, products, lines).value;
      var rest := CreateOrderDetails(orderId, firstId + 1, products, lines[1..]).value;
      assert rows == [Snapshot(firstId, orderId, products[lines[0].productId], lines[0])] + rest;
      assert rows[1..] == rest;
    }
  }

  // ---------------------------------------------------------------------------
  // The transaction
  // ---------------------------------------------------------------------------

  /** Why a transaction rolled back: a missing product, or a known request
      error raised by the database. */
  datatype TxError = ProductNotFound(productId: int) | StoreFailure(error: Utils.KnownRequestError)

  datatype TxOutcome = Committed(db: Db, order: Order) | RolledBack(error: TxError)

  function OrderId(o: Order): int { o.id }

  function DetailId(d: OrderDetail): int { d.id }

  /** `prisma.$transaction(...)`: upsert the customer, insert the order, insert
      its details; on any failure nothing is written. `fault` is a known request
      error the database raises on the first write, if any. */
  function CreateOrderTransaction(db: Db, payload: OrderPayload, fault: Option<Utils.KnownRequestError>): (r: TxOutcome)
    ensures r.Committed? ==>
              && fault.None?
              && AllProductsExist(db.products, payload.lines)
              && r.db.products == db.products
              && r.order.orderTotalAmount == r.order.orderSubTotalAmount + r.order.orderTotalCrateFee
              && r.db.orders == db.orders + [r.order]
              && |r.db.details| == |db.details| + |payload.lines|
              && r.db.details[..|db.details|] == db.details
    ensures r.RolledBack? <==> fault.Some? || !AllProductsExist(db.products, payload.lines)
  {
    if fault.Some? then RolledBack(StoreFailure(fault.value))
    else
      var upserted := FindOrCreateUser(db.users, payload.user);
      var order := NewOrder(Rows.FreshId(db.orders, OrderId), upserted.customer, payload.user, db.products, payload.lines);
      match CreateOrderDetails(order.id, Rows.FreshId(db.details, DetailId), db.products, payload.lines)
      case Failure(productId) => RolledBack(ProductNotFound(productId))
      case Success(rows) =>
        assert (db.details + rows)[..|db.details|] == db.details;
        Committed(Db(upserted.users, db.products, db.orders + [order], db.details + rows), order)
  }

  /** The committed order is owned by the upserted customer, in the payload's
      shop and event (0 read as 1), with totals over the payload's lines. */
  lemma CommittedOrderFields(db: Db, payload: OrderPayload)
    requires CreateOrderTransaction(db, payload, None).Committed?
    ensures var r := CreateOrderTransaction(db, payload, None);
            var upserted := FindOrCreateUser(db.users, payload.user);
            && r.db.users == upserted.users
            && r.order.userId == upserted.customer.id
            && r.order.shopId == payload.user.shopId
            && r.order.eventId == (if payload.user.eventId == 0 then 1 else payload.user.eventId)
            && r.order.orderTotalCrateFee == CrateFeeTotal(db.products, payload.lines)
            && r.order.orderSubTotalAmount == SubtotalTotal(db.products, payload.lines)
  {
  }

  /** The detail rows of a committed order: one per line, snapshots of the
      products, and their totals add up to the order's aggregates. */
  lemma CommittedDetails(db: Db, payload: OrderPayload)
    requires CreateOrderTransaction(db, payload, None).Committed?
    ensures var r := CreateOrderTransaction(db, payload, None);
            var rows := r.db.details[|db.details|..];
            && |rows| == |payload.lines|
            && (forall i :: 0 <= i < |rows| ==>
                  IsSnapshot(rows[i], r.order.id, db.products[payload.lines[i].productId], payload.lines[i]))
            && SumLineTotals(rows) == r.order.orderSubTotalAmount
            && SumSnapshotCrateFees(rows) == r.order.orderTotalCrateFee
  {
    var r := CreateOrderTransaction(db, payload, None);
    var firstId := Rows.FreshId(db.details, DetailId);
    var rows := CreateOrderDetails(r.order.id, firstId, db.products, payload.lines).value;
    assert r.db.details == db.details + rows;
    assert r.db.details[|db.details|..] == rows;
    DetailsReproduceTotals(r.order.id, firstId, db.products, payload.lines);
  }

  /** A missing product aborts the whole transaction, whatever the totals step
      skipped. */
  lemma MissingProductRollsBack(db: Db, payload: OrderPayload, i: nat)
    requires i < |payload.lines| && payload.lines[i].productId !in db.products
    ensures CreateOrderTransaction(db, payload, None).RolledBack?
    ensures CreateOrderTransaction(db, payload, None).error.ProductNotFound?
    ensures CreateOrderTransaction(db, payload, None).error.productId !in db.products
  {
  }

  /** Two orders placed with the same phone number belong to the same customer,
      whose row then carries the second order's profile. */
  lemma RepeatCustomerKeepsIdentity(db: Db, first: OrderPayload, second: OrderPayload)
    requires first.user.phoneNumber == second.user.phoneNumber
    requires CreateOrderTransaction(db, first, None).Committed?
    requires CreateOrderTransaction(CreateOrderTransaction(db, first, None).db, second, None).Committed?
    ensures var one := CreateOrderTransaction(db, first, None);
            var two := CreateOrderTransaction(one.db, second, None);
            && one.order.userId == two.order.userId
            && |two.db.users| == |one.db.users|
            && exists i :: 0 <= i < |two.db.users| && two.db.users[i].id == two.order.userId
                           && two.db.users[i].phoneNumber == second.user.phoneNumber
                           && HasProfile(two.db.users[i], second.user)
  {
    var one := CreateOrderTransaction(db, first, None);
    var up1 := FindOrCreateUser(db.users, first.user);
    var phone := first.user.phoneNumber;
    var k: nat;
    match FindByPhone(db.users, phone) {
      case Some(i) => k := i;
      case None => k := |db.users|;
    }
    assert k < |one.db.users| && one.db.users[k] == up1.customer;
    assert one.db.users[k].phoneNumber == phone;
    var found := FindByPhone(one.db.users, phone);
    assert found.Some?;
    FirstPhoneMatchStable(db.users, one.db.users, phone, k);
    assert found.value == k;
    var two := CreateOrderTransaction(one.db, second, None);
    var up2 := FindOrCreateUser(one.db.users, second.user);
    assert two.db.users[k] == up2.customer;
  }

  /** After an upsert the row it touched is the first with that phone number. */
  lemma FirstPhoneMatchStable(before: seq<Customer>, after: seq<Customer>, phone: string, k: nat)
    requires k < |after| && after[k].phoneNumber == phone
    requires forall j :: 0 <= j < k ==> j < |before| && after[j] == before[j] && before[j].phoneNumber != phone
    ensures FindByPhone(after, phone) == Some(k)
  {
    FirstMatchIs(after, phone, k);
  }

  lemma {:induction false} FirstMatchIs(users: seq<Customer>, phone: string, k: nat)
    requires k < |users| && users[k].phoneNumber == phone
    requires forall j :: 0 <= j < k ==> users[j].phoneNumber != phone
    ensures FindByPhone(users, phone) == Some(k)
    decreases k
  {
    if k > 0 {
      FirstMatchIs(users[1..], phone, k - 1);
    }
  }

  // ---------------------------------------------------------------------------
  // Referential integrity of the tables
  // ---------------------------------------------------------------------------

  predicate HasUserId(users: seq<Customer>, id: int) {
    exists i :: 0 <= i < |users| && users[i].id == id
  }

  predicate HasOrderId(orders: seq<Order>, id: int) {
    exists i :: 0 <= i < |orders| && orders[i].id == id
  }

  /** Ids are unique per table, products are stored under their own id, every
      order names an existing customer and every detail an existing order and
      product. */
  predicate WellFormed(db: Db) {
    && Rows.UniqueIds(db.users, UserId)
    && Rows.UniqueIds(db.orders, OrderId)
    && Rows.UniqueIds(db.details, DetailId)
    && (forall k :: k in db.products ==> db.products[k].id == k)
    && (forall i :: 0 <= i < |db.orders| ==> HasUserId(db.users, db.orders[i].userId))
    && (forall i :: 0 <= i < |db.details| ==>
          HasOrderId(db.orders, db.details[i].orderId) && db.details[i].productId in db.products)
  }

  /** The upsert keeps every existing id in place and leaves the ids unique. */
  lemma UpsertKeepsIds(users: seq<Customer>, input: CustomerInput)
    requires Rows.UniqueIds(users, UserId)
    ensures var r := FindOrCreateUser(users, input);
            && |r.users| >= |users|
            && (forall j :: 0 <= j < |users| ==> r.users[j].id == users[j].id)
            && Rows.UniqueIds(r.users, UserId)
            && HasUserId(r.users, r.customer.id)
  {
    var r := FindOrCreateUser(users, input);
    match FindByPhone(users, input.phoneNumber) {
      case Some(i) =>
        assert r.users[i].id == users[i].id;
        assert HasUserId(r.users, r.customer.id) by { assert r.users[i] == r.customer; }
      case None =>
        assert r.users[|users|] == r.customer;
    }
  }

  lemma HasUserIdGrows(before: seq<Customer>, after: seq<Customer>, id: int)
    requires |after| >= |before|
    requires forall j :: 0 <= j < |before| ==> after[j].id == before[j].id
    requires HasUserId(before, id)
    ensures HasUserId(after, id)
  {
    var j :| 0 <= j < |before| && before[j].id == id;
    assert after[j].id == id;
  }

  /** A committed transaction keeps customer and order ids unique and every
      order owned by an existing customer. */
  lemma CommitKeepsOrdersOwned(db: Db, payload: OrderPayload)
    requires WellFormed(db)
    requires CreateOrderTransaction(db, payload, None).Committed?
    ensures var r := CreateOrderTransaction(db, payload, None).db;
            && Rows.UniqueIds(r.users, UserId)
            && Rows.UniqueIds(r.orders, OrderId)
            && forall i :: 0 <= i < |r.orders| ==> HasUserId(r.users, r.orders[i].userId)
  {
    var r := CreateOrderTransaction(db, payload, None);
    var upserted := FindOrCreateUser(db.users, payload.user);
    UpsertKeepsIds(db.users, payload.user);
    var orderId := Rows.FreshId(db.orders, OrderId);
    assert r.db.users == upserted.users && r.db.orders == db.orders + [r.order];
    assert r.order.id == orderId && r.order.userId == upserted.customer.id;
    forall i | 0 <= i < |r.db.orders| ensures HasUserId(r.db.users, r.db.orders[i].userId) {
      if i < |db.orders| {
        assert r.db.orders[i] == db.orders[i];
        HasUserIdGrows(db.users, upserted.users, db.orders[i].userId);
      }
    }
  }

  /** A committed transaction keeps detail ids unique and every detail pointing
      at an existing order and product. */
  lemma CommitKeepsDetailsReferenced(db: Db, payload: OrderPayload)
    requires WellFormed(db)
    requires CreateOrderTransaction(db, payload, None).Committed?
    ensures var r := CreateOrderTransaction(db, payload, None).db;
            && Rows.UniqueIds(r.details, DetailId)
            && forall i :: 0 <= i < |r.details| ==>
                 HasOrderId(r.orders, r.details[i].orderId) && r.details[i].productId in r.products
  {
    var r := CreateOrderTransaction(db, payload, None);
    var orderId := Rows.FreshId(db.orders, OrderId);
    var firstId := Rows.FreshId(db.details, DetailId);
    var rows := CreateOrderDetails(orderId, firstId, db.products, payload.lines).value;
    assert r.db.details == db.details + rows && r.db.orders == db.orders + [r.order];
    assert r.db.products == db.products && r.order.id == orderId;
    forall i | 0 <= i < |r.db.details|
      ensures HasOrderId(r.db.orders, r.db.details[i].orderId) && r.db.details[i].productId in r.db.products
    {
      if i < |db.details| {
        assert r.db.details[i] == db.details[i];
        var j :| 0 <= j < |db.orders| && db.orders[j].id == db.details[i].orderId;
        assert r.db.orders[j] == db.orders[j];
      } else {
        assert r.db.details[i] == rows[i - |db.details|];
        assert r.db.orders[|db.orders|] == r.order;
      }
    }
    forall i, j | 0 <= i < j < |r.db.details| ensures r.db.details[i].id != r.db.details[j].id {
      if j >= |db.details| {
        assert r.db.details[j] == rows[j - |db.details|];
        if i >= |db.details| {
          assert r.db.details[i] == rows[i - |db.details|];
        } else {
          assert r.db.details[i] == db.details[i];
        }
      } else {
        assert r.db.details[i] == db.details[i] && r.db.details[j] == db.details[j];
      }
    }
  }

  /** A committed transaction keeps the tables well formed. */
  lemma CommitPreservesWellFormed(db: Db, payload: OrderPayload)
    requires WellFormed(db)
    requires CreateOrderTransaction(db, payload, None).Committed?
    ensures WellFormed(CreateOrderTransaction(db, payload, None).db)
  {
    CommitKeepsOrdersOwned(db, payload);
    CommitKeepsDetailsReferenced(db, payload);
  }
}
