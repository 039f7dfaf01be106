/**
 * `ProductViewModel` (Models/ProductViewModel.cs): a product as the pages and
 * the admin form see it, with the display rules computed from it.
 */
module ProductView {
  import opened Wrappers
  import opened Text
  import opened Encoding

  datatype ProductViewModel = ProductViewModel(
    productId: int,
    productName: string,
    productDescription: Option<string>,
    productImage: Option<seq<Byte>>,
    price: real,
    stock: int,
    createdDate: int)

  /** The three badge tiers the two `Stock switch` expressions distinguish. */
  datatype StockTier = OutOfStockTier | LowStockTier | InStockTier

  /** The `switch` arms in order: exactly 0, then anything below 10, then the rest. */
  function TierOf(stock: int): StockTier {
    if stock == 0 then OutOfStockTier else if stock < 10 then LowStockTier else InStockTier
  }

  /** `StockStatus`. */
  function StockStatus(stock: int): string {
    if stock == 0 then "Out of Stock"
    else if stock < 10 then IntToString(stock) + " Left"
    else "In Stock"
  }

  /** `StockClass`. */
  function StockClass(stock: int): string {
    if stock == 0 then "out-of-stock" else if stock < 10 then "low-stock" else "in-stock"
  }

  /** `IsAvailable`. */
  predicate IsAvailable(stock: int) {
    stock > 0
  }

  const ImageRoute: string := "/User/ProductImage/"

  /** `ImageUrl`. */
  function ImageUrl(productId: int): string {
    ImageRoute + IntToString(productId)
  }

  const NoDescription: string := "No description available"

  /** `TruncatedDescription(maxLength)`; `Substring` throws for a negative length, hence the precondition. */
  function TruncatedDescription(description: Option<string>, maxLength: int): string
    requires IsNullOrEmpty(description) || maxLength >= 0
  {
    if IsNullOrEmpty(description) then NoDescription
    else if |description.value| > maxLength then description.value[..maxLength] + "..."
    else description.value
  }

  /** Status text and CSS class pick the same tier: out of stock, a low count, or in stock. */
  lemma {:induction false} BadgesFollowTier(stock: int)
    ensures TierOf(stock) == OutOfStockTier <==> StockStatus(stock) == "Out of Stock" && StockClass(stock) == "out-of-stock"
    ensures TierOf(stock) == LowStockTier <==> StockStatus(stock) == IntToString(stock) + " Left" && StockClass(stock) == "low-stock"
    ensures TierOf(stock) == InStockTier <==> StockStatus(stock) == "In Stock" && StockClass(stock) == "in-stock"
  {
    var left := IntToString(stock) + " Left";
    assert left[|left| - 1] == 't';
    assert "Out of Stock"[11] == 'k' && "In Stock"[7] == 'k';
  }

  /** A low-stock badge shows the count itself: the text before " Left" reads back as the stock. */
  lemma LowStockShowsCount(stock: int)
    requires TierOf(stock) == LowStockTier && stock >= Int32Min
    ensures var s := StockStatus(stock); s[..|s| - 5] == IntToString(stock) && ParseInt32(s[..|s| - 5]) == Some(stock)
  {
    ParseIntToString(stock);
    var s := StockStatus(stock);
    assert s == IntToString(stock) + " Left";
  }

  /** For a non-negative stock the product is available exactly when its badge is not "out of stock"; a negative stock is unavailable yet badged as low stock. */
  lemma AvailabilityMatchesBadge(stock: int)
    ensures stock >= 0 ==> (IsAvailable(stock) <==> TierOf(stock) != OutOfStockTier)
    ensures stock < 0 ==> !IsAvailable(stock) && StockClass(stock) == "low-stock"
  {
  }

  /** The image URL is the fixed route followed by the id, which the route's integer binding reads back. */
  lemma ImageUrlRoundTrip(productId: int)
    requires InInt32(productId)
    ensures ImageUrl(productId)[..|ImageRoute|] == ImageRoute
    ensures ParseInt32(ImageUrl(productId)[|ImageRoute|..]) == Some(productId)
  {
    ParseIntToString(productId);
    assert ImageUrl(productId)[|ImageRoute|..] == IntToString(productId);
  }

  /**
   * A missing description shows the placeholder. Otherwise the shown text
   * keeps the description's first `min(|d|, maxLength)` characters, is at
   * most `maxLength + 3` long and never more than 2 longer than the
   * description; a description that fits is shown whole, and one that does
   * not ends in "..." right after the kept prefix.
   */
  lemma TruncationShape(description: Option<string>, maxLength: int)
    requires IsNullOrEmpty(description) || maxLength >= 0
    ensures IsNullOrEmpty(description) ==> TruncatedDescription(description, maxLength) == NoDescription
    ensures !IsNullOrEmpty(description) ==>
      var d, r := description.value, TruncatedDescription(description, maxLength);
      var kept := if |d| < maxLength then |d| else maxLength;
      && |r| <= maxLength + 3 && |r| <= |d| + 2
      && kept <= |r| && r[..kept] == d[..kept]
      && (|d| <= maxLength ==> r == d)
      && (|d| > maxLength ==> r[kept..] == "...")
  {
  }

  /**
   * The placeholder is itself cut by a length below its own 24 characters, so
   * truncating the text shown for a missing description again changes it.
   */
  lemma PlaceholderNotIdempotent(maxLength: int)
    requires 0 <= maxLength < |NoDescription|
    ensures TruncatedDescription(Some(TruncatedDescription(None, maxLength)), maxLength) != TruncatedDescription(None, maxLength)
  {
    var again := TruncatedDescription(Some(NoDescription), maxLength);
    assert again[maxLength] == '.';
    if maxLength == 21 {
      assert NoDescription[21] == 'b';
    } else {
      assert |again| != |NoDescription|;
    }
  }

  /** Truncating an already truncated description changes nothing. */
  lemma TruncationIdempotent(description: string, maxLength: int)
    requires description != "" && maxLength >= 0
    ensures TruncatedDescription(Some(TruncatedDescription(Some(description), maxLength)), maxLength)
         == TruncatedDescription(Some(description), maxLength)
  {
    var once := TruncatedDescription(Some(description), maxLength);
    if |description| > maxLength {
      assert once[..maxLength] == description[..maxLength];
    }
  }
}
