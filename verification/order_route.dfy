/** The `POST` handler of app/api/v1/orders/create-order/route.ts: rate-limit
    gate, body parsing, schema check, transaction, and the mapping of each
    outcome to a response. Error logging (`logError`) is not part of this model. */
module OrderRoute {
  import opened Wrappers
  import opened JsonValue
  import opened Http
  import Schema
  import Utils
  import RateLimit
  import opened OrderDb
  import OrderSchema

  /** The gate the route installs: ten requests per minute, 3000 ms timeout. */
  const RouteLimit: RateLimit.Config := RateLimit.Config(RateLimit.SlidingWindow(10, "1 m"), None, Some(3000))

  const FailedToCreate := "Failed to create order"

  /** The created order as the success body's `data`. */
  function OrderJson(o: Order): Json {
    JObject(map[
      "id" := JNumber(o.id),
      "userId" := JNumber(o.userId),
      "shopId" := JNumber(o.shopId),
      "orderTotalCrateFee" := JNumber(o.orderTotalCrateFee),
      "orderSubTotalAmount" := JNumber(o.orderSubTotalAmount),
      "orderTotalAmount" := JNumber(o.orderTotalAmount),
      "eventId" := JNumber(o.eventId)])
  }

  function CreatedBody(o: Order): Json {
    JObject(map[
      "status" := JString("success"),
      "message" := JString("Order created successfully"),
      "data" := OrderJson(o)])
  }

  /** `POST(req)`. `limiter` is the sliding-window limiter, `body` is `None`
      when the body is not JSON, `dateParses` is `Date.parse` succeeding, and
      `fault` a known request error the database raises, if any. Only a 201
      answer changes the database. */
  function Post(db: Db, request: RateLimit.Request, limiter: (RateLimit.Settings, string) -> RateLimit.Verdict,
                body: Option<Json>, dateParses: string -> bool, fault: Option<Utils.KnownRequestError>)
    : (r: (Response, Db))
    ensures r.0.status in {201, 400, 404, 409, 429, 500}
    ensures r.0.status != 201 ==> r.1 == db
    ensures r.0.status == 201 ==> |r.1.orders| == |db.orders| + 1 && r.1.products == db.products
  {
    var gate := RateLimit.HandleRateLimit(request, RouteLimit, limiter);
    if gate.Some? then (gate.value, db)
    else if body.None? then (ErrorResponse(FailedToCreate, 500), db)
    else match OrderSchema.ValidateOrder(body.value, dateParses)
      case Failure(issue) => (ErrorResponse(Schema.Report(issue), 400), db)
      case Success(payload) =>
        match CreateOrderTransaction(db, payload, fault)
        case Committed(db', order) => (JsonResponse(CreatedBody(order), 201), db')
        case RolledBack(ProductNotFound(_)) => (ErrorResponse(FailedToCreate, 500), db)
        case RolledBack(StoreFailure(e)) =>
          var reply := Utils.HandlePrismaError(e);
          (ErrorResponse(reply.message, reply.status), db)
  }

  /** A request the limiter refuses gets the limiter's 429 answer and nothing
      else happens. */
  lemma RateLimitedRequestUntouched(db: Db, request: RateLimit.Request,
                                    limiter: (RateLimit.Settings, string) -> RateLimit.Verdict,
                                    body: Option<Json>, dateParses: string -> bool,
                                    fault: Option<Utils.KnownRequestError>)
    requires !limiter(RateLimit.Resolve(RouteLimit), RateLimit.ClientKey(request)).success
    ensures var r := Post(db, request, limiter, body, dateParses, fault);
            && r.0 == RateLimit.HandleRateLimit(request, RouteLimit, limiter).value
            && r.0.status == 429 && r.1 == db
  {
  }

  /** The route's limiter runs with analytics on and a 3000 ms timeout. */
  lemma RouteLimiterSettings()
    ensures RateLimit.Resolve(RouteLimit) == RateLimit.Settings(RateLimit.SlidingWindow(10, "1 m"), true, 3000)
  {
  }

  /** A body the schema rejects is answered 400 with the first issue alone, and
      no transaction runs. */
  lemma InvalidBodyRejected(db: Db, request: RateLimit.Request,
                            limiter: (RateLimit.Settings, string) -> RateLimit.Verdict,
                            body: Json, dateParses: string -> bool, fault: Option<Utils.KnownRequestError>)
    requires limiter(RateLimit.Resolve(RouteLimit), RateLimit.ClientKey(request)).success
    requires OrderSchema.ValidateOrder(body, dateParses).Failure?
    ensures Post(db, request, limiter, Some(body), dateParses, fault)
            == (ErrorResponse(Schema.Report(OrderSchema.ValidateOrder(body, dateParses).error), 400), db)
  {
  }

  /** An order naming a product that does not exist is answered 500 and leaves
      the database exactly as it was: no customer change, no order, no detail. */
  lemma MissingProductLeavesNoTrace(db: Db, request: RateLimit.Request,
                                    limiter: (RateLimit.Settings, string) -> RateLimit.Verdict,
                                    p: OrderPayload, dateParses: string -> bool, i: nat)
    requires limiter(RateLimit.Resolve(RouteLimit), RateLimit.ClientKey(request)).success
    requires dateParses(p.user.dob)
    requires i < |p.lines| && p.lines[i].productId !in db.products
    ensures Post(db, request, limiter, Some(OrderSchema.EncodeOrder(p)), dateParses, None)
            == (ErrorResponse(FailedToCreate, 500), db)
  {
    OrderSchema.ValidateEncodedOrder(p, dateParses);
    MissingProductRollsBack(db, p, i);
  }

  /** A database error rolls everything back and is answered as
      `handlePrismaError` classifies it. */
  lemma StoreErrorClassified(db: Db, request: RateLimit.Request,
                             limiter: (RateLimit.Settings, string) -> RateLimit.Verdict,
                             p: OrderPayload, dateParses: string -> bool, e: Utils.KnownRequestError)
    requires limiter(RateLimit.Resolve(RouteLimit), RateLimit.ClientKey(request)).success
    requires dateParses(p.user.dob)
    ensures var r := Post(db, request, limiter, Some(OrderSchema.EncodeOrder(p)), dateParses, Some(e));
            && r.1 == db
            && r.0.status == Utils.HandlePrismaError(e).status
            && MessageOf(r.0) == Utils.HandlePrismaError(e).message
  {
    OrderSchema.ValidateEncodedOrder(p, dateParses);
  }

  /** A valid order whose products all exist is answered 201 with the new order,
      whose total is its subtotal plus its crate fees. */
  lemma ValidOrderCommitted(db: Db, request: RateLimit.Request,
                            limiter: (RateLimit.Settings, string) -> RateLimit.Verdict,
                            p: OrderPayload, dateParses: string -> bool)
    requires limiter(RateLimit.Resolve(RouteLimit), RateLimit.ClientKey(request)).success
    requires dateParses(p.user.dob)
    requires AllProductsExist(db.products, p.lines)
    ensures var r := Post(db, request, limiter, Some(OrderSchema.EncodeOrder(p)), dateParses, None);
            var tx := CreateOrderTransaction(db, p, None);
            && tx.Committed?
            && r == (JsonResponse(CreatedBody(tx.order), 201), tx.db)
            && tx.order.orderTotalAmount == tx.order.orderSubTotalAmount + tx.order.orderTotalCrateFee
            && |tx.db.details| == |db.details| + |p.lines|
  {
    OrderSchema.ValidateEncodedOrder(p, dateParses);
  }

  /** An example: one line of two items at 10000 with one crate per
      item at 500 gives 20000 + 1000 = 21000. */
  lemma WorkedExample(db: Db, input: CustomerInput)
    requires db.products == map[1 := Product(1, "beer", 10000, 1, 0, 500)]
    ensures var tx := CreateOrderTransaction(db, OrderPayload(input, [LineRequest(1, 2)]), None);
            && tx.Committed?
            && tx.order.orderSubTotalAmount == 20000
            && tx.order.orderTotalCrateFee == 1000
            && tx.order.orderTotalAmount == 21000
  {
    var lines := [LineRequest(1, 2)];
    var payload := OrderPayload(input, lines);
    assert lines[1..] == [];
    assert CrateFeeTotal(db.products, lines) == 1000;
    assert SubtotalTotal(db.products, lines) == 20000;
    CommittedOrderFields(db, payload);
  }
}
