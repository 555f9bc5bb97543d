/** The cart endpoints' input guards: each request is either answered with a
    400 before the service is reached, or forwarded to the cart service. */
module CartController {
  import opened Common
  import opened JavaStrings

  /** The body of POST /api/cart/items; a missing menuId is null. The id is
      a Long, so it may be negative: the controller passes it on and the
      service finds no menu for it. */
  datatype CartRequest = CartRequest(menuId: Option<int>, quantity: int)

  /** The cart service call a request is forwarded to. */
  datatype ServiceCall =
    | CallAddItem(menuId: int, quantity: int)
    | CallIncrement(menuId: int)
    | CallDecrement(menuId: int)
    | CallRemove(cartItemId: int)
    | CallGetCart
    | CallClearCart

  datatype Outcome =
    | Rejected(statusCode: int, message: string)
    | Forwarded(call: ServiceCall)

  /** addItemToCart: the menu id is checked before the quantity. */
  function AddItemToCart(request: CartRequest): (o: Outcome)
    ensures request.menuId.None? ==> o == Rejected(400, "menuId is required")
    ensures request.menuId.Some? && request.quantity <= 0 ==> o == Rejected(400, "quantity must be > 0")
    ensures o.Forwarded? <==> request.menuId.Some? && request.quantity > 0
    ensures o.Forwarded? ==> o.call == CallAddItem(request.menuId.value, request.quantity)
  {
    if request.menuId.None? then Rejected(400, "menuId is required")
    else if request.quantity <= 0 then Rejected(400, "quantity must be > 0")
    else Forwarded(CallAddItem(request.menuId.value, request.quantity))
  }

  /** The guard on a path segment: not null, not the text "null", and matching
      `\d+`; an accepted segment is read with Long.valueOf. */
  function PathId(segment: Option<string>): (id: Option<nat>)
    ensures id.Some? <==> segment.Some? && AllDigits(segment.value)
    ensures id.Some? ==> id.value == ParseDigits(segment.value)
  {
    NullIsNotDigits();
    if segment.None? || segment.value == "null" || !AllDigits(segment.value) then None
    else Some(ParseDigits(segment.value))
  }

  /** The text "null" never passes `\d+`, so that test on its own decides
      nothing the digit test does not. */
  lemma NullIsNotDigits()
    ensures !AllDigits("null")
  {
    assert !IsDigit("null"[0]);
  }

  /** The spelling of any id passes the guard and is read back as that id. */
  lemma PathIdRoundTrip(n: nat)
    ensures PathId(Some(NatToString(n))) == Some(n)
  {
    ParseNatToString(n);
  }

  /** Leading zeros are accepted and ignored: "007" is read as 7, and any
      digit string with a zero in front is read as the string itself. */
  lemma LeadingZerosIgnored(s: string)
    requires AllDigits(s)
    ensures PathId(Some("0" + s)) == PathId(Some(s))
    ensures PathId(Some("007")) == Some(7)
  {
    ParseLeadingZero(s);
    assert "007" == "0" + "07" && "07" == "0" + "7";
    ParseLeadingZero("07");
    ParseLeadingZero("7");
  }

  lemma {:induction false} ParseLeadingZero(s: string)
    requires forall i :: 0 <= i < |s| ==> IsDigit(s[i])
    ensures ParseDigits("0" + s) == ParseDigits(s)
    decreases |s|
  {
    if s != [] {
      var t := "0" + s;
      assert t[..|t| - 1] == "0" + s[..|s| - 1];
      assert t[|t| - 1] == s[|s| - 1];
      ParseLeadingZero(s[..|s| - 1]);
    }
  }

  function IncrementItem(menuId: Option<string>): (o: Outcome)
    ensures o.Forwarded? <==> PathId(menuId).Some?
    ensures o.Rejected? ==> o == Rejected(400, "menuId is required")
    ensures o.Forwarded? ==> o.call == CallIncrement(PathId(menuId).value)
  {
    match PathId(menuId)
    case None => Rejected(400, "menuId is required")
    case Some(id) => Forwarded(CallIncrement(id))
  }

  function DecrementItem(menuId: Option<string>): (o: Outcome)
    ensures o.Forwarded? <==> PathId(menuId).Some?
    ensures o.Rejected? ==> o == Rejected(400, "menuId is required")
    ensures o.Forwarded? ==> o.call == CallDecrement(PathId(menuId).value)
  {
    match PathId(menuId)
    case None => Rejected(400, "menuId is required")
    case Some(id) => Forwarded(CallDecrement(id))
  }

  function RemoveItem(cartItemId: Option<string>): (o: Outcome)
    ensures o.Forwarded? <==> PathId(cartItemId).Some?
    ensures o.Rejected? ==> o == Rejected(400, "cartItemId is required")
    ensures o.Forwarded? ==> o.call == CallRemove(PathId(cartItemId).value)
  {
    match PathId(cartItemId)
    case None => Rejected(400, "cartItemId is required")
    case Some(id) => Forwarded(CallRemove(id))
  }

  /** getShoppingCart and clearShoppingCart reach the service unconditionally. */
  function GetShoppingCart(): (o: Outcome)
    ensures o == Forwarded(CallGetCart)
  {
    Forwarded(CallGetCart)
  }

  function ClearShoppingCart(): (o: Outcome)
    ensures o == Forwarded(CallClearCart)
  {
    Forwarded(CallClearCart)
  }

  /** The three path endpoints accept exactly the same segments, forward
      the segment's numeric value, and would forward the same call for that
      value's own spelling. */
  lemma ForwardedIdsAreCanonical(segment: Option<string>)
    ensures IncrementItem(segment).Forwarded? <==> segment.Some? && AllDigits(segment.value)
    ensures DecrementItem(segment).Forwarded? <==> segment.Some? && AllDigits(segment.value)
    ensures RemoveItem(segment).Forwarded? <==> segment.Some? && AllDigits(segment.value)
    ensures segment.Some? && AllDigits(segment.value) ==>
      var n := ParseDigits(segment.value);
      && IncrementItem(segment).call == CallIncrement(n)
      && DecrementItem(segment).call == CallDecrement(n)
      && RemoveItem(segment).call == CallRemove(n)
      && IncrementItem(Some(NatToString(n))) == IncrementItem(segment)
      && DecrementItem(Some(NatToString(n))) == DecrementItem(segment)
      && RemoveItem(Some(NatToString(n))) == RemoveItem(segment)
  {
    if segment.Some? && AllDigits(segment.value) {
      PathIdRoundTrip(ParseDigits(segment.value));
    }
  }
}
