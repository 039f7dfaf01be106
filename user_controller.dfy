/**
 * The cart actions of `UserController` (BrewMaster/Controllers/UserController.cs)
 * over the store, and its image content-type sniffing.
 *
 * The session is passed in: `sessionUserId` and `sessionUserName` are the
 * strings stored under "UserId" and "UserName", `None` when absent. A JSON
 * reply is a datatype; the TempData toast is returned beside it.
 */
module UserController {
  import opened Wrappers
  import opened Text
  import opened Encoding
  import opened Mvc
  import opened CartView
  import opened Tables
  import opened UtilitiesDb

  // ----- GetImageContentType -----

  /** `GetImageContentType`: the MIME type from the first bytes of the image, JPEG when nothing matches. */
  function GetImageContentType(data: seq<Byte>): string {
    if |data| >= 2 then
      if data[0] == 0xFF && data[1] == 0xD8 then "image/jpeg"
      else if |data| >= 8 && data[0] == 0x89 && data[1] == 0x50 && data[2] == 0x4E && data[3] == 0x47 then "image/png"
      else if |data| >= 6 && data[0] == 0x47 && data[1] == 0x49 && data[2] == 0x46 then "image/gif"
      else if data[0] == 0x42 && data[1] == 0x4D then "image/bmp"
      else "image/jpeg"
    else "image/jpeg"
  }

  /** A leading byte pattern, the least length the check demands, and the type it announces. */
  datatype Signature = Signature(magic: seq<Byte>, minLength: nat, contentType: string)

  /** The signatures in the order they are tried. */
  const Signatures: seq<Signature> := [
    Signature([0xFF, 0xD8], 2, "image/jpeg"),
    Signature([0x89, 0x50, 0x4E, 0x47], 8, "image/png"),
    Signature([0x47, 0x49, 0x46], 6, "image/gif"),
    Signature([0x42, 0x4D], 2, "image/bmp")
  ]

  predicate Matches(data: seq<Byte>, s: Signature) {
    |data| >= s.minLength && |s.magic| <= |data| && data[..|s.magic|] == s.magic
  }

  /** The type of the first signature that matches, JPEG when none does. */
  function FirstMatch(data: seq<Byte>, sigs: seq<Signature>): string {
    if |sigs| == 0 then "image/jpeg"
    else if Matches(data, sigs[0]) then sigs[0].contentType
    else FirstMatch(data, sigs[1..])
  }

  /** The byte tests agree with the signature table on every input. */
  lemma ContentTypeBySignatureTable(data: seq<Byte>)
    ensures GetImageContentType(data) == FirstMatch(data, Signatures)
  {
    var s := Signatures;
    assert FirstMatch(data, s[4..]) == "image/jpeg";
    assert FirstMatch(data, s[3..]) == if Matches(data, s[3]) then s[3].contentType else "image/jpeg" by {
      assert s[3..][1..] == s[4..];
    }
    assert FirstMatch(data, s[2..]) == if Matches(data, s[2]) then s[2].contentType else FirstMatch(data, s[3..]) by {
      assert s[2..][1..] == s[3..];
    }
    assert FirstMatch(data, s[1..]) == if Matches(data, s[1]) then s[1].contentType else FirstMatch(data, s[2..]) by {
      assert s[1..][1..] == s[2..];
    }
    if |data| >= 2 {
      assert Matches(data, s[0]) <==> data[0] == 0xFF && data[1] == 0xD8 by {
        if data[0] == 0xFF && data[1] == 0xD8 {
          assert data[..2] == [data[0], data[1]];
        }
      }
      assert Matches(data, s[3]) <==> data[0] == 0x42 && data[1] == 0x4D by {
        if data[0] == 0x42 && data[1] == 0x4D {
          assert data[..2] == [data[0], data[1]];
        }
      }
      if |data| >= 8 {
        assert Matches(data, s[1]) <==> data[0] == 0x89 && data[1] == 0x50 && data[2] == 0x4E && data[3] == 0x47 by {
          if data[0] == 0x89 && data[1] == 0x50 && data[2] == 0x4E && data[3] == 0x47 {
            assert data[..4] == [data[0], data[1], data[2], data[3]];
          }
        }
      }
      if |data| >= 6 {
        assert Matches(data, s[2]) <==> data[0] == 0x47 && data[1] == 0x49 && data[2] == 0x46 by {
          if data[0] == 0x47 && data[1] == 0x49 && data[2] == 0x46 {
            assert data[..3] == [data[0], data[1], data[2]];
          }
        }
      }
    }
  }

  /** The reply is always one of the four image types. */
  lemma ContentTypeIsImage(data: seq<Byte>)
    ensures GetImageContentType(data) in {"image/jpeg", "image/png", "image/gif", "image/bmp"}
  {
  }

  /** The full 8-byte PNG signature of section 5.2 of the PNG specification (ISO/IEC 15948) is recognised. */
  lemma PngSignatureRecognised(data: seq<Byte>)
    requires |data| >= 8 && data[..8] == [137, 80, 78, 71, 13, 10, 26, 10]
    ensures GetImageContentType(data) == "image/png"
  {
    assert data[0] == 137 && data[1] == 80 && data[2] == 78 && data[3] == 71;
  }

  /** The GIF87a and GIF89a headers are recognised. */
  lemma GifHeadersRecognised(data: seq<Byte>)
    requires |data| >= 6
    requires data[..6] == [0x47, 0x49, 0x46, 0x38, 0x37, 0x61] || data[..6] == [0x47, 0x49, 0x46, 0x38, 0x39, 0x61]
    ensures GetImageContentType(data) == "image/gif"
  {
    assert data[0] == 0x47 && data[1] == 0x49 && data[2] == 0x46;
  }

  /** Data of 4 to 7 bytes opening with the PNG magic is too short for the PNG test and is served as JPEG. */
  lemma ShortPngServedAsJpeg(data: seq<Byte>)
    requires 4 <= |data| < 8 && data[..4] == [0x89, 0x50, 0x4E, 0x47]
    ensures GetImageContentType(data) == "image/jpeg"
  {
    assert data[0] == 0x89 && data[1] == 0x50;
  }

  // ----- The cart actions -----

  /** `int.Parse(HttpContext.Session.GetString(...)!)`: `None` when the key is missing or the text is not an Int32. */
  function ParseSessionInt(s: Option<string>): (r: Option<int>)
    ensures r.Some? ==> s.Some? && InInt32(r.value)
  {
    if s.None? then None else ParseInt32(s.value)
  }

  datatype JsonReply = JsonReply(success: bool, message: string)

  /** `TempData["ToastMessage"]` and `TempData["ToastType"]`. */
  datatype Toast = Toast(message: string, toastType: string)

  const UnexpectedError: string := "An unexpected error occurred. Please try again later."

  /** `AddToCart`: the store's reply as JSON, with a success toast; a missing or bad session id is caught as an error reply. */
  method AddToCart(db: DbHelper, sessionUserId: Option<string>, productId: int) returns (reply: JsonReply, toast: Option<Toast>)
    requires db.Valid()
    modifies db
    ensures db.Valid()
    ensures ParseSessionInt(sessionUserId).None? ==>
      reply == JsonReply(false, UnexpectedError) && toast.None? && db.cart == old(db.cart)
      && db.nextCartId == old(db.nextCartId) && db.clock == old(db.clock)
    ensures ParseSessionInt(sessionUserId).Some? ==>
      var userId := ParseSessionInt(sessionUserId).value;
      var o := DecideAdd(old(db.products), old(db.cart), userId, productId);
      && reply == JsonReply(AddReply(o).0, AddReply(o).1)
      && db.cart == CartAfterAdd(old(db.products), old(db.cart), userId, productId, old(db.nextCartId), old(db.clock))
    ensures toast.Some? <==> reply.success
    ensures toast.Some? ==> toast.value == Toast(reply.message, "success")
    ensures db.products == old(db.products)
  {
    var userId := ParseSessionInt(sessionUserId);
    if userId.None? {
      return JsonReply(false, UnexpectedError), None;
    }
    var success, message := db.AddToCart(userId.value, productId);
    toast := None;
    if success {
      toast := Some(Toast(message, "success"));
    }
    reply := JsonReply(success, message);
  }

  /** The cart table after `UpdateQuantity`: a quantity of 0 or less removes the line, any other is written as is. */
  function QuantityUpdateEffect(cart: seq<CartLine>, cartId: int, quantity: int): seq<CartLine> {
    if quantity <= 0 then Without(cart, WithCartId(cartId)) else SetQuantity(cart, cartId, quantity)
  }

  /** `RemoveItem`: delete the line; the reply is a success whether or not a row was deleted. */
  method RemoveItem(db: DbHelper, cartId: int) returns (success: bool)
    requires db.Valid()
    modifies db
    ensures db.Valid()
    ensures success
    ensures db.cart == Without(old(db.cart), WithCartId(cartId)) && db.products == old(db.products)
  {
    var _ := db.RemoveCartItem(cartId);
    success := true;
  }

  /** `UpdateQuantity`: a quantity of 0 or less is `RemoveItem`; otherwise the store's update, reported as a success whatever it returned. */
  method UpdateQuantity(db: DbHelper, cartId: int, quantity: int) returns (success: bool)
    requires db.Valid()
    modifies db
    ensures db.Valid()
    ensures success
    ensures db.cart == QuantityUpdateEffect(old(db.cart), cartId, quantity) && db.products == old(db.products)
  {
    if quantity <= 0 {
      success := RemoveItem(db, cartId);
      return;
    }
    var _ := db.UpdateCartQuantity(cartId, quantity);
    success := true;
  }

  predicate PositiveQuantities(cart: seq<CartLine>) {
    forall i :: 0 <= i < |cart| ==> cart[i].quantity > 0
  }

  /** Through `UpdateQuantity` no line is ever left with a quantity of 0 or less, whatever quantity is posted. */
  lemma UpdateQuantityKeepsQuantitiesPositive(cart: seq<CartLine>, cartId: int, quantity: int)
    requires PositiveQuantities(cart)
    ensures PositiveQuantities(QuantityUpdateEffect(cart, cartId, quantity))
  {
    var after := QuantityUpdateEffect(cart, cartId, quantity);
    if quantity <= 0 {
      forall i | 0 <= i < |after|
        ensures after[i].quantity > 0
      {
        assert after[i] in cart;
        var j :| 0 <= j < |cart| && cart[j] == after[i];
      }
    }
  }

  /** A non-positive quantity has the effect of `RemoveItem`: the line is gone and every other user's cart is as it was. */
  lemma NonPositiveQuantityRemoves(products: seq<ProductRow>, cart: seq<CartLine>, i: nat, quantity: int, other: int)
    requires CartOrdered(cart) && i < |cart| && quantity <= 0 && other != cart[i].userId
    ensures cart[i] !in QuantityUpdateEffect(cart, cart[i].cartId, quantity)
    ensures CartItemsOf(products, QuantityUpdateEffect(cart, cart[i].cartId, quantity), other) == CartItemsOf(products, cart, other)
  {
    RemoveCartItemEffect(products, cart, i, other);
  }

  /** `GetCartCount`: the store's count for the session user, 0 when the session id is missing or bad. */
  method GetCartCount(db: DbHelper, sessionUserId: Option<string>) returns (count: int)
    ensures InInt32(count)
    ensures ParseSessionInt(sessionUserId).None? ==> count == 0
    ensures ParseSessionInt(sessionUserId).Some? ==> count == db.GetCartItemCount(ParseSessionInt(sessionUserId).value)
  {
    var userId := ParseSessionInt(sessionUserId);
    if userId.None? {
      return 0;
    }
    count := db.GetCartItemCount(userId.value);
  }

  /**
   * How `Checkout` ends as far as the shown code determines: the parse of the
   * session id throws outside the `try`; a missing user name redirects to
   * login; otherwise `PlaceOrder` is called with the user and the cart.
   */
  datatype CheckoutOutcome =
    | Unhandled
    | Redirect(target: RedirectToAction)
    | PlaceOrderCall(userId: int, userName: string, cart: CartViewModel)

  const CheckoutLoginRedirect: RedirectToAction := RedirectToAction("Login", "Landing")

  /** `Checkout` up to the call of `PlaceOrder`. */
  method Checkout(db: DbHelper, sessionUserId: Option<string>, sessionUserName: Option<string>) returns (outcome: CheckoutOutcome)
    ensures outcome.Unhandled? <==> ParseSessionInt(sessionUserId).None?
    ensures outcome.Redirect? <==> ParseSessionInt(sessionUserId).Some? && IsNullOrEmpty(sessionUserName)
    ensures outcome.Redirect? ==> outcome.target == CheckoutLoginRedirect
    ensures outcome.PlaceOrderCall? ==>
      && outcome.userId == ParseSessionInt(sessionUserId).value
      && outcome.userName == sessionUserName.value && outcome.userName != ""
      && outcome.cart.items == CartItemsOf(db.products, db.cart, outcome.userId)
  {
    var userId := ParseSessionInt(sessionUserId);
    if userId.None? {
      return Unhandled;
    }
    if IsNullOrEmpty(sessionUserName) {
      return Redirect(CheckoutLoginRedirect);
    }
    var cart := db.GetCartItems(userId.value);
    outcome := PlaceOrderCall(userId.value, sessionUserName.value, cart);
  }
}
