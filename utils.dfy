/** The pure helpers of frontend/lib/utils.ts: text truncation, stock status and discounted
    price. */
module Utils {

  /** The end index `slice(0, end)` uses for a string of length `len`: a negative `end` counts
      from the back, and the result is clipped to `[0, len]`. */
  function SliceEnd(len: nat, end: int): (e: nat)
    ensures e <= len
    ensures 0 <= end <= len ==> e == end
    ensures end > len ==> e == len
    ensures end < 0 ==> e == if len + end < 0 then 0 else len + end
  {
    if end < 0 then (if len + end < 0 then 0 else len + end)
    else if end > len then len
    else end
  }

  /** `truncateText`. */
  function TruncateText(text: string, maxLength: int): string
  {
    if |text| <= maxLength then text else text[..SliceEnd(|text|, maxLength)] + "..."
  }

  /** A text no longer than the limit is returned as it is; a longer one (with a non-negative
      limit) becomes its first `maxLength` characters followed by "...". */
  lemma TruncateTextSpec(text: string, maxLength: int)
    ensures |text| <= maxLength ==> TruncateText(text, maxLength) == text
    ensures 0 <= maxLength < |text| ==>
      var r := TruncateText(text, maxLength);
      |r| == maxLength + 3 && r[..maxLength] == text[..maxLength] && r[maxLength..] == "..."
    ensures maxLength < 0 ==>
      TruncateText(text, maxLength) == text[..SliceEnd(|text|, maxLength)] + "..."
  {
  }

  /** Truncating is idempotent for a non-negative limit: a truncated text keeps its first
      `maxLength` characters and "..." when truncated again. */
  lemma TruncateIdempotent(text: string, maxLength: nat)
    ensures TruncateText(TruncateText(text, maxLength), maxLength) == TruncateText(text, maxLength)
  {
    TruncateTextSpec(text, maxLength);
    var r := TruncateText(text, maxLength);
    if maxLength < |text| {
      TruncateTextSpec(r, maxLength);
      assert r[..maxLength] == text[..maxLength];
    }
  }

  datatype StockStatus = OutOfStock | LowStock | InStock

  /** `getStockStatus`. */
  function GetStockStatus(stock: int): (s: StockStatus)
    ensures s == OutOfStock <==> stock <= 0
    ensures s == LowStock <==> 0 < stock < 10
    ensures s == InStock <==> stock >= 10
  {
    if stock <= 0 then OutOfStock
    else if stock < 10 then LowStock
    else InStock
  }

  /** The text shown for a status. */
  function StatusLabel(s: StockStatus): string
  {
    match s
    case OutOfStock => "Out of Stock"
    case LowStock => "Low Stock"
    case InStock => "In Stock"
  }

  /** The string `getStockStatus` returns is the label of the modelled status: "Out of Stock"
      from 0 down, "Low Stock" below 10, "In Stock" from 10 up; the three labels differ, so the
      string and the status determine each other. */
  lemma StatusLabelSpec(stock: int)
    ensures StatusLabel(GetStockStatus(stock)) == "Out of Stock" <==> stock <= 0
    ensures StatusLabel(GetStockStatus(stock)) == "Low Stock" <==> 0 < stock < 10
    ensures StatusLabel(GetStockStatus(stock)) == "In Stock" <==> stock >= 10
    ensures forall a: StockStatus, b: StockStatus :: a != b ==> StatusLabel(a) != StatusLabel(b)
  {
  }

  /** `getStockStatusColor`. */
  function GetStockStatusColor(stock: int): string
  {
    if stock <= 0 then "text-red-500"
    else if stock < 10 then "text-amber-500"
    else "text-green-600"
  }

  /** The colour a status is shown in. */
  function StatusColor(s: StockStatus): string
  {
    match s
    case OutOfStock => "text-red-500"
    case LowStock => "text-amber-500"
    case InStock => "text-green-600"
  }

  /** The two functions use the same thresholds: the colour is always the colour of the
      status, and red exactly when out of stock. */
  lemma ColorMatchesStatus(stock: int)
    ensures GetStockStatusColor(stock) == StatusColor(GetStockStatus(stock))
    ensures GetStockStatusColor(stock) == "text-red-500" <==> GetStockStatus(stock) == OutOfStock
    ensures GetStockStatusColor(stock) == "text-amber-500" <==> GetStockStatus(stock) == LowStock
  {
  }

  /** More stock never gives a worse status. */
  lemma StatusMonotone(a: int, b: int)
    requires a <= b
    ensures GetStockStatus(a) == InStock ==> GetStockStatus(b) == InStock
    ensures GetStockStatus(b) == OutOfStock ==> GetStockStatus(a) == OutOfStock
  {
  }

  /** `calculateDiscountedPrice`, over exact reals. */
  function DiscountedPrice(price: real, discountPercentage: real): real
  {
    price * (1.0 - discountPercentage / 100.0)
  }

  /** No discount keeps the price, a full discount gives 0, and for a non-negative price a
      larger discount never gives a larger price. */
  lemma DiscountedPriceSpec(price: real, d1: real, d2: real)
    ensures DiscountedPrice(price, 0.0) == price
    ensures DiscountedPrice(price, 100.0) == 0.0
    ensures price >= 0.0 && d1 <= d2 ==> DiscountedPrice(price, d2) <= DiscountedPrice(price, d1)
    ensures price >= 0.0 && 0.0 <= d1 <= 100.0 ==> 0.0 <= DiscountedPrice(price, d1) <= price
  {
    if price >= 0.0 && d1 <= d2 {
      assert DiscountedPrice(price, d1) - DiscountedPrice(price, d2) == price * (d2 - d1) / 100.0;
    }
    if price >= 0.0 && 0.0 <= d1 <= 100.0 {
      assert DiscountedPrice(price, d1) == price * ((100.0 - d1) / 100.0);
    }
  }
}
