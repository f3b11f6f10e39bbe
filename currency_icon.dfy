/** Price conversion to Turkish lira. Products of the domestic category are
    priced in lira already; every other product (one without a category too)
    is priced in dollars and converted at a fixed rate of 40. */
module CurrencyIcon {
  import opened Wrappers

  /** The one category whose prices are already in lira. */
  const DomesticCategory: string := "Lazer Hastanesi"

  /** Lira per dollar. */
  const DollarRate: real := 40.0

  /** The currency glyph shown beside a price: always the lira sign, because
      every price is shown converted. */
  function GetCurrencySymbol(category: Option<string>): (r: string)
    ensures r == "\U{20BA}"
  {
    "\U{20BA}"
  }

  /** The price in lira. */
  function ConvertPrice(price: real, category: Option<string>): (r: real)
    ensures category == Some(DomesticCategory) ==> r == price
    ensures category != Some(DomesticCategory) ==> r == price * DollarRate
  {
    if category == Some(DomesticCategory) then price else price * 40.0
  }

  /** The displayed price text: the converted price rendered by `toFixed2`
      (the number formatting, which is not modelled). */
  function FormatPrice(price: real, category: Option<string>, toFixed2: real -> string): (r: string)
    ensures category == Some(DomesticCategory) ==> r == toFixed2(price)
    ensures category != Some(DomesticCategory) ==> r == toFixed2(price * DollarRate)
  {
    var convertedPrice := ConvertPrice(price, category);
    toFixed2(convertedPrice)
  }

  /** For a fixed category a higher price never converts to a lower one. */
  lemma ConvertPriceMonotone(p: real, q: real, category: Option<string>)
    requires p <= q
    ensures ConvertPrice(p, category) <= ConvertPrice(q, category)
  {
  }

  /** A non-negative price never shrinks when converted. */
  lemma ConvertPriceNeverShrinks(price: real, category: Option<string>)
    requires 0.0 <= price
    ensures price <= ConvertPrice(price, category)
  {
  }

  /** A converted price is already in lira: formatting it as a domestic price
      shows the same text as formatting the original. */
  lemma ConvertedPriceIsDomestic(price: real, category: Option<string>, toFixed2: real -> string)
    ensures FormatPrice(price, category, toFixed2)
         == FormatPrice(ConvertPrice(price, category), Some(DomesticCategory), toFixed2)
  {
  }
}
