/** The shared `createOrderSchema` request predicate (packages/shared/schemas/orderSchema.js):
    a JSON body is accepted when it carries a shipping-address UUID and a non-empty list of
    lines, each with a product UUID, an optional nullable variant string and a positive
    integer quantity. Parsing yields the typed request the server middleware works on. */
module OrderSchema {
  import opened Common

  /** A JSON number written as `mantissa` × 10^-`scale` (so 2, 2.0 and 2.5 are all expressible). */
  datatype JsonNumber = Decimal(mantissa: int, scale: nat)

  /** A parsed JSON value. Objects are maps: a key not in the map is absent. */
  datatype Json =
    | JNull
    | JBool(b: bool)
    | JNum(n: JsonNumber)
    | JStr(s: string)
    | JArr(items: seq<Json>)
    | JObj(fields: map<string, Json>)

  /** One validated request line. */
  datatype RequestLine = RequestLine(productId: Id, variantId: Option<Id>, quantity: int)

  /** A validated order request. */
  datatype OrderRequest = OrderRequest(shippingAddressId: Id, orderItems: seq<RequestLine>)

  /** `Number.MAX_SAFE_INTEGER`, the upper bound zod's integer check enforces. */
  const MaxSafeInteger: int := 9007199254740991

  function Pow10(n: nat): (r: nat)
    ensures r >= 1
  {
    if n == 0 then 1 else 10 * Pow10(n - 1)
  }

  predicate IsWhole(n: JsonNumber)
  {
    n.mantissa % Pow10(n.scale) == 0
  }

  function WholeValue(n: JsonNumber): int
  {
    n.mantissa / Pow10(n.scale)
  }

  // ----- the UUID string form -----

  predicate HexDigit(c: char)
  {
    '0' <= c <= '9' || 'a' <= c <= 'f' || 'A' <= c <= 'F'
  }

  predicate DashAt(k: int)
  {
    k == 8 || k == 13 || k == 18 || k == 23
  }

  /** 8-4-4-4-12 hexadecimal digits separated by dashes. */
  predicate UuidShape(s: string)
  {
    && |s| == 36
    && (forall k | 0 <= k < 36 && DashAt(k) :: s[k] == '-')
    && (forall k | 0 <= k < 36 && !DashAt(k) :: HexDigit(s[k]))
  }

  const NilUuid: string := "00000000-0000-0000-0000-000000000000"
  const MaxUuid: string := "ffffffff-ffff-ffff-ffff-ffffffffffff"

  /** `z.uuid()`: the textual form of RFC 9562 section 4 with a version digit 1-8 and the
      RFC variant (first variant digit 8, 9, a or b), or the Nil or Max UUID. */
  predicate IsUuid(s: string)
  {
    || (UuidShape(s) && '1' <= s[14] <= '8' && s[19] in "89abAB")
    || s == NilUuid
    || s == MaxUuid
  }

  // ----- parsing -----

  /** `variantId: z.string().optional().nullable()`. */
  function ParseVariant(fields: map<string, Json>): (r: Option<Option<Id>>)
    ensures "variantId" !in fields ==> r == Some(None)
    ensures "variantId" in fields && fields["variantId"] == JNull ==> r == Some(None)
    ensures "variantId" in fields && fields["variantId"].JStr? ==> r == Some(Some(fields["variantId"].s))
    ensures r.None? <==> "variantId" in fields && !fields["variantId"].JNull? && !fields["variantId"].JStr?
  {
    if "variantId" !in fields then Some(None)
    else match fields["variantId"]
      case JNull => Some(None)
      case JStr(s) => Some(Some(s))
      case _ => None
  }

  /** `quantity: z.number().int().positive().min(1)`. */
  function ParseQuantity(fields: map<string, Json>): (r: Option<int>)
    ensures r.Some? ==> 1 <= r.value <= MaxSafeInteger
    ensures r.Some? <==> "quantity" in fields && fields["quantity"].JNum?
                         && IsWhole(fields["quantity"].n)
                         && 1 <= WholeValue(fields["quantity"].n) <= MaxSafeInteger
  {
    if "quantity" in fields && fields["quantity"].JNum? then
      var n := fields["quantity"].n;
      if IsWhole(n) && 1 <= WholeValue(n) <= MaxSafeInteger then Some(WholeValue(n)) else None
    else None
  }

  function ParseItem(j: Json): (r: Option<RequestLine>)
    ensures r.Some? ==> IsUuid(r.value.productId) && r.value.quantity >= 1
  {
    if !j.JObj? then None
    else
      var f := j.fields;
      if "productId" !in f || !f["productId"].JStr? || !IsUuid(f["productId"].s) then None
      else match (ParseVariant(f), ParseQuantity(f))
        case (Some(v), Some(q)) => Some(RequestLine(f["productId"].s, v, q))
        case _ => None
  }

  /** Parses every element, failing if any one fails. */
  function ParseItems(items: seq<Json>): (r: Option<seq<RequestLine>>)
    ensures r.Some? <==> forall i | 0 <= i < |items| :: ParseItem(items[i]).Some?
    ensures r.Some? ==> |r.value| == |items|
                        && forall i | 0 <= i < |items| :: r.value[i] == ParseItem(items[i]).value
    decreases |items|
  {
    if items == [] then Some([])
    else
      match (ParseItems(items[..|items| - 1]), ParseItem(items[|items| - 1]))
      case (Some(init), Some(last)) => Some(init + [last])
      case _ => None
  }

  /** `createOrderSchema.safeParse(body)`: the typed request, or None when zod rejects the body.
      Every accepted body is well formed: at least one line, each quantity an integer of at
      least 1, UUIDs for the product and shipping-address ids; and it keeps one line per item. */
  function ParseOrderRequest(body: Json): (r: Option<OrderRequest>)
    ensures r.Some? ==> WellFormed(r.value)
    ensures r.Some? ==> && body.JObj?
                        && "orderItems" in body.fields && body.fields["orderItems"].JArr?
                        && |r.value.orderItems| == |body.fields["orderItems"].items|
                        && "shippingAddressId" in body.fields
                        && body.fields["shippingAddressId"] == JStr(r.value.shippingAddressId)
  {
    if !body.JObj? then None
    else
      var f := body.fields;
      if "shippingAddressId" !in f || !f["shippingAddressId"].JStr? || !IsUuid(f["shippingAddressId"].s) then None
      else if "orderItems" !in f || !f["orderItems"].JArr? || |f["orderItems"].items| < 1 then None
      else match ParseItems(f["orderItems"].items)
        case Some(lines) => Some(OrderRequest(f["shippingAddressId"].s, lines))
        case None => None
  }

  /** What every accepted request satisfies. */
  predicate WellFormed(req: OrderRequest)
  {
    && IsUuid(req.shippingAddressId)
    && |req.orderItems| >= 1
    && forall i | 0 <= i < |req.orderItems| ::
         IsUuid(req.orderItems[i].productId) && 1 <= req.orderItems[i].quantity <= MaxSafeInteger
  }

  /** The JSON body a client sends for a request (a missing variant travels as `null`). */
  function EncodeLine(line: RequestLine): Json
  {
    JObj(map[
      "productId" := JStr(line.productId),
      "variantId" := (if line.variantId.Some? then JStr(line.variantId.value) else JNull),
      "quantity" := JNum(Decimal(line.quantity, 0))])
  }

  function EncodeOrderRequest(req: OrderRequest): Json
  {
    JObj(map[
      "shippingAddressId" := JStr(req.shippingAddressId),
      "orderItems" := JArr(seq(|req.orderItems|, i requires 0 <= i < |req.orderItems| => EncodeLine(req.orderItems[i])))])
  }

  /** The schema accepts exactly the well-formed requests a client encodes, and gives them back. */
  lemma {:induction false} ParseEncodeRoundTrip(req: OrderRequest)
    requires WellFormed(req)
    ensures ParseOrderRequest(EncodeOrderRequest(req)) == Some(req)
  {
    var items := seq(|req.orderItems|, i requires 0 <= i < |req.orderItems| => EncodeLine(req.orderItems[i]));
    forall i | 0 <= i < |items|
      ensures ParseItem(items[i]) == Some(req.orderItems[i])
    {
      var line := req.orderItems[i];
      var f := items[i].fields;
      assert f["productId"] == JStr(line.productId);
      assert ParseVariant(f) == Some(line.variantId);
      assert IsWhole(Decimal(line.quantity, 0)) && WholeValue(Decimal(line.quantity, 0)) == line.quantity;
      assert ParseQuantity(f) == Some(line.quantity);
    }
    var parsed := ParseItems(items);
    assert parsed.value == req.orderItems;
  }

  /** A `variantId` that is neither absent, null nor a string (a number, say) is refused. */
  lemma NumericVariantRejected(body: Json, i: nat)
    requires body.JObj? && "orderItems" in body.fields && body.fields["orderItems"].JArr?
    requires i < |body.fields["orderItems"].items|
    requires body.fields["orderItems"].items[i].JObj?
    requires "variantId" in body.fields["orderItems"].items[i].fields
    requires body.fields["orderItems"].items[i].fields["variantId"].JNum?
    ensures ParseOrderRequest(body) == None
  {
    assert ParseItem(body.fields["orderItems"].items[i]) == None;
  }

  /** A fractional quantity such as 1.5 is refused. */
  lemma FractionalQuantityRejected()
    ensures ParseQuantity(map["quantity" := JNum(Decimal(15, 1))]) == None
  {
    assert Pow10(1) == 10;
  }
}
