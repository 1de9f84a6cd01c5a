/** `OrderDataSchema` of app/api/v1/orders/create-order/route.ts: the request
    body checked field by field in the schema's order, first issue reported.
    Whether a date string parses (`Date.parse`) is the predicate `dateParses`. */
module OrderSchema {
  import opened Wrappers
  import opened JsonValue
  import opened Schema
  import opened OrderDb

  const GenderNames: seq<string> := ["MALE", "FEMALE", "LGBTQA+"]

  function GenderName(g: Gender): (s: string)
    ensures s in GenderNames
  {
    match g
    case Male => "MALE"
    case Female => "FEMALE"
    case Lgbtqa => "LGBTQA+"
  }

  function GenderOf(s: string): (g: Gender)
    requires s in GenderNames
    ensures GenderName(g) == s
  {
    if s == "MALE" then Male else if s == "FEMALE" then Female else Lgbtqa
  }

  const InvalidDate := "Invalid date format"

  /** The `user` object of the schema. */
  function ValidateUser(v: Option<Json>, dateParses: string -> bool): (r: Result<CustomerInput, Issue>)
    ensures r.Success? ==> dateParses(r.value.dob)
    ensures r.Success? ==> v.Some? && v.value.JObject? && UserFieldsMatch(v.value.fields, r.value)
    ensures r.Failure? ==> |r.error.path| >= 1 && r.error.path[0] == Key("user")
  {
    var path := [Key("user")];
    var f :- ExpectObject(path, v);
    var shopId :- ExpectNumber(path + [Key("shop_id")], Lookup(f, "shop_id"));
    var eventId :- ExpectNumber(path + [Key("event_id")], Lookup(f, "event_id"));
    var fullName :- ExpectString(path + [Key("full_name")], Lookup(f, "full_name"));
    var phone :- ExpectString(path + [Key("phone_number")], Lookup(f, "phone_number"));
    var dob :- ExpectString(path + [Key("dob")], Lookup(f, "dob"));
    var dob :- Refine(path + [Key("dob")], dob, dateParses(dob), InvalidDate);
    var gender :- ExpectEnum(path + [Key("gender")], Lookup(f, "gender"), GenderNames);
    var province :- ExpectString(path + [Key("province")], Lookup(f, "province"));
    var district :- ExpectString(path + [Key("district")], Lookup(f, "district"));
    var village :- ExpectString(path + [Key("village")], Lookup(f, "village"));
    var acceptTerms :- ExpectBool(path + [Key("accept_terms")], Lookup(f, "accept_terms"));
    Success(CustomerInput(shopId, eventId, fullName, phone, dob, GenderOf(gender), province, district, village, acceptTerms))
  }

  /** The object's fields hold exactly the values of the input. */
  predicate UserFieldsMatch(f: map<string, Json>, u: CustomerInput) {
    && Lookup(f, "shop_id") == Some(JNumber(u.shopId))
    && Lookup(f, "event_id") == Some(JNumber(u.eventId))
    && Lookup(f, "full_name") == Some(JString(u.fullName))
    && Lookup(f, "phone_number") == Some(JString(u.phoneNumber))
    && Lookup(f, "dob") == Some(JString(u.dob))
    && Lookup(f, "gender") == Some(JString(GenderName(u.gender)))
    && Lookup(f, "province") == Some(JString(u.province))
    && Lookup(f, "district") == Some(JString(u.district))
    && Lookup(f, "village") == Some(JString(u.village))
    && Lookup(f, "accept_terms") == Some(JBool(u.acceptTerms))
  }

  predicate LineFieldsMatch(item: Json, line: LineRequest) {
    && item.JObject?
    && Lookup(item.fields, "product_id") == Some(JNumber(line.productId))
    && Lookup(item.fields, "order_detail_qty") == Some(JNumber(line.qty))
  }

  /** One `order_details` element, at index `index`. */
  function ValidateLine(item: Json, index: nat): (r: Result<LineRequest, Issue>)
    ensures r.Success? ==> LineFieldsMatch(item, r.value)
    ensures r.Failure? ==> |r.error.path| >= 2 && r.error.path[..2] == [Key("order_details"), Index(index)]
  {
    var path := [Key("order_details"), Index(index)];
    var f :- ExpectObject(path, Some(item));
    var productId :- ExpectNumber(path + [Key("product_id")], Lookup(f, "product_id"));
    var qty :- ExpectNumber(path + [Key("order_detail_qty")], Lookup(f, "order_detail_qty"));
    Success(LineRequest(productId, qty))
  }

  /** The elements of `order_details` from index `offset` on, in order. */
  function ValidateLines(items: seq<Json>, offset: nat): (r: Result<seq<LineRequest>, Issue>)
    ensures r.Success? ==> |r.value| == |items| && forall i :: 0 <= i < |items| ==> LineFieldsMatch(items[i], r.value[i])
    ensures r.Failure? ==> |r.error.path| >= 2 && r.error.path[0] == Key("order_details")
    decreases |items|
  {
    if |items| == 0 then Success([])
    else
      var line :- ValidateLine(items[0], offset);
      var rest :- ValidateLines(items[1..], offset + 1);
      Success([line] + rest)
  }

  /** `OrderDataSchema.safeParse(body)`, reporting the first issue. */
  function ValidateOrder(body: Json, dateParses: string -> bool): (r: Result<OrderPayload, Issue>)
    ensures r.Success? ==> dateParses(r.value.user.dob)
    ensures r.Success? ==>
              && body.JObject? && "user" in body.fields && "order_details" in body.fields
              && body.fields["user"].JObject? && UserFieldsMatch(body.fields["user"].fields, r.value.user)
              && body.fields["order_details"].JArray?
              && |body.fields["order_details"].items| == |r.value.lines|
              && forall i :: 0 <= i < |r.value.lines| ==>
                   LineFieldsMatch(body.fields["order_details"].items[i], r.value.lines[i])
  {
    var f :- ExpectObject([], Some(body));
    var user :- ValidateUser(Lookup(f, "user"), dateParses);
    var items :- ExpectArray([Key("order_details")], Lookup(f, "order_details"));
    var lines :- ValidateLines(items, 0);
    Success(OrderPayload(user, lines))
  }

  function EncodeUser(u: CustomerInput): Json {
    JObject(map[
      "shop_id" := JNumber(u.shopId),
      "event_id" := JNumber(u.eventId),
      "full_name" := JString(u.fullName),
      "phone_number" := JString(u.phoneNumber),
      "dob" := JString(u.dob),
      "gender" := JString(GenderName(u.gender)),
      "province" := JString(u.province),
      "district" := JString(u.district),
      "village" := JString(u.village),
      "accept_terms" := JBool(u.acceptTerms)])
  }

  function EncodeLine(line: LineRequest): Json {
    JObject(map["product_id" := JNumber(line.productId), "order_detail_qty" := JNumber(line.qty)])
  }

  /** The JSON body a client sends for `p`. */
  function EncodeOrder(p: OrderPayload): Json {
    JObject(map[
      "user" := EncodeUser(p.user),
      "order_details" := JArray(EncodeLines(p.lines))])
  }

  function EncodeLines(lines: seq<LineRequest>): (items: seq<Json>)
    ensures |items| == |lines|
  {
    if |lines| == 0 then [] else [EncodeLine(lines[0])] + EncodeLines(lines[1..])
  }

  lemma {:induction false} ValidateEncodedLines(lines: seq<LineRequest>, offset: nat)
    ensures ValidateLines(EncodeLines(lines), offset) == Success(lines)
    decreases |lines|
  {
    var items := EncodeLines(lines);
    if |lines| > 0 {
      assert items[1..] == EncodeLines(lines[1..]);
      ValidateEncodedLines(lines[1..], offset + 1);
      assert [lines[0]] + lines[1..] == lines;
    }
  }

  lemma GenderRoundTrip(g: Gender)
    ensures GenderOf(GenderName(g)) == g
  {
  }

  lemma ValidateEncodedUser(u: CustomerInput, dateParses: string -> bool)
    requires dateParses(u.dob)
    ensures ValidateUser(Some(EncodeUser(u)), dateParses) == Success(u)
  {
    var f := EncodeUser(u).fields;
    assert Lookup(f, "shop_id") == Some(JNumber(u.shopId));
    assert Lookup(f, "event_id") == Some(JNumber(u.eventId));
    assert Lookup(f, "full_name") == Some(JString(u.fullName));
    assert Lookup(f, "phone_number") == Some(JString(u.phoneNumber));
    assert Lookup(f, "dob") == Some(JString(u.dob));
    assert Lookup(f, "gender") == Some(JString(GenderName(u.gender)));
    assert Lookup(f, "province") == Some(JString(u.province));
    assert Lookup(f, "district") == Some(JString(u.district));
    assert Lookup(f, "village") == Some(JString(u.village));
    assert Lookup(f, "accept_terms") == Some(JBool(u.acceptTerms));
    GenderRoundTrip(u.gender);
  }

  /** Every payload whose date of birth parses is accepted when sent as JSON,
      and parses back to itself. */
  lemma ValidateEncodedOrder(p: OrderPayload, dateParses: string -> bool)
    requires dateParses(p.user.dob)
    ensures ValidateOrder(EncodeOrder(p), dateParses) == Success(p)
  {
    var body := EncodeOrder(p);
    var items := EncodeLines(p.lines);
    assert Lookup(body.fields, "user") == Some(EncodeUser(p.user));
    assert Lookup(body.fields, "order_details") == Some(JArray(items));
    ValidateEncodedLines(p.lines, 0);
    ValidateEncodedUser(p.user, dateParses);
  }

  lemma UnparsableDobUser(u: CustomerInput, dateParses: string -> bool)
    requires !dateParses(u.dob)
    ensures ValidateUser(Some(EncodeUser(u)), dateParses) == Failure(Issue([Key("user"), Key("dob")], InvalidDate))
  {
    var f := EncodeUser(u).fields;
    assert Lookup(f, "shop_id") == Some(JNumber(u.shopId));
    assert Lookup(f, "event_id") == Some(JNumber(u.eventId));
    assert Lookup(f, "full_name") == Some(JString(u.fullName));
    assert Lookup(f, "phone_number") == Some(JString(u.phoneNumber));
    assert Lookup(f, "dob") == Some(JString(u.dob));
    assert [Key("user")] + [Key("dob")] == [Key("user"), Key("dob")];
  }

  /** An unparsable date of birth is the issue reported for an otherwise
      well-formed body. */
  lemma UnparsableDobRejected(p: OrderPayload, dateParses: string -> bool)
    requires !dateParses(p.user.dob)
    ensures ValidateOrder(EncodeOrder(p), dateParses) == Failure(Issue([Key("user"), Key("dob")], InvalidDate))
  {
    assert Lookup(EncodeOrder(p).fields, "user") == Some(EncodeUser(p.user));
    UnparsableDobUser(p.user, dateParses);
  }

  lemma UnknownGenderUser(u: CustomerInput, gender: string, dateParses: string -> bool)
    requires dateParses(u.dob) && gender !in GenderNames
    ensures var r := ValidateUser(Some(JObject(EncodeUser(u).fields["gender" := JString(gender)])), dateParses);
            && r.Failure?
            && r.error.path == [Key("user"), Key("gender")]
            && r.error.message == "Invalid enum value. Expected " + JoinOptions(GenderNames) + ", received '" + gender + "'"
  {
    var f := EncodeUser(u).fields["gender" := JString(gender)];
    assert Lookup(f, "shop_id") == Some(JNumber(u.shopId));
    assert Lookup(f, "event_id") == Some(JNumber(u.eventId));
    assert Lookup(f, "full_name") == Some(JString(u.fullName));
    assert Lookup(f, "phone_number") == Some(JString(u.phoneNumber));
    assert Lookup(f, "dob") == Some(JString(u.dob));
    assert Lookup(f, "gender") == Some(JString(gender));
    assert [Key("user")] + [Key("gender")] == [Key("user"), Key("gender")];
  }

  /** A gender outside the three names is the issue reported for an otherwise
      well-formed body. */
  lemma UnknownGenderRejected(p: OrderPayload, gender: string, dateParses: string -> bool)
    requires dateParses(p.user.dob) && gender !in GenderNames
    ensures var body := EncodeOrder(p);
            var user := JObject(EncodeUser(p.user).fields["gender" := JString(gender)]);
            var r := ValidateOrder(JObject(body.fields["user" := user]), dateParses);
            && r.Failure?
            && r.error.path == [Key("user"), Key("gender")]
            && r.error.message == "Invalid enum value. Expected " + JoinOptions(GenderNames) + ", received '" + gender + "'"
  {
    var user := JObject(EncodeUser(p.user).fields["gender" := JString(gender)]);
    assert Lookup(EncodeOrder(p).fields["user" := user], "user") == Some(user);
    UnknownGenderUser(p.user, gender, dateParses);
  }
}
