/**
 * The money helpers of src/utils/calculations.ts: cart totals, the discount
 * percentage, the line subtotal and the two-decimal price text.
 *
 * Amounts are integer cents. `reduce` runs from the first item to the last,
 * so the totals are left folds: each is defined on the list without its
 * last item.
 */
module Calculations {
  import opened Types
  import opened Text

  /** `calculateSubtotal`: price times quantity. */
  function Subtotal(product: Product, quantity: int): (r: int)
    ensures quantity == 0 ==> r == 0
    ensures product.price >= 0 && quantity >= 0 ==> r >= 0
    ensures quantity > 0 ==> (r == 0 <==> product.price == 0)
  {
    product.price * quantity
  }

  /** Every item has a non-negative price and quantity. */
  predicate NonNegative(items: seq<CartItem>)
  {
    forall i | 0 <= i < |items| :: items[i].product.price >= 0 && items[i].quantity >= 0
  }

  /** `calculateTotalPrice`: the left fold of price times quantity, from 0. */
  function TotalPrice(items: seq<CartItem>): (r: int)
    ensures NonNegative(items) ==> r >= 0
  {
    if items == [] then 0
    else
      var last := items[|items| - 1];
      TotalPrice(items[..|items| - 1]) + Subtotal(last.product, last.quantity)
  }

  /** `calculateTotalItems`: the left fold of the quantities, from 0. */
  function TotalItems(items: seq<CartItem>): (r: int)
    ensures NonNegative(items) ==> r >= 0
    ensures (forall i | 0 <= i < |items| :: items[i].quantity >= 1) ==> r >= |items|
  {
    if items == [] then 0
    else TotalItems(items[..|items| - 1]) + items[|items| - 1].quantity
  }

  /** The subtotals summed from the first item: the total as the sum of its lines. */
  function SumOfSubtotals(items: seq<CartItem>): int
  {
    if items == [] then 0 else Subtotal(items[0].product, items[0].quantity) + SumOfSubtotals(items[1..])
  }

  function SumOfQuantities(items: seq<CartItem>): int
  {
    if items == [] then 0 else items[0].quantity + SumOfQuantities(items[1..])
  }

  /** The totals of two lists laid end to end add up. */
  lemma {:induction false} TotalsAppend(a: seq<CartItem>, b: seq<CartItem>)
    ensures TotalPrice(a + b) == TotalPrice(a) + TotalPrice(b)
    ensures TotalItems(a + b) == TotalItems(a) + TotalItems(b)
    decreases |b|
  {
    if b == [] {
      assert a + b == a;
    } else {
      var b' := b[..|b| - 1];
      assert (a + b)[..|a + b| - 1] == a + b';
      assert (a + b)[|a + b| - 1] == b[|b| - 1];
      TotalsAppend(a, b');
    }
  }

  /** The left folds equal the sums taken from the first item. */
  lemma {:induction false} TotalsAreSums(items: seq<CartItem>)
    ensures TotalPrice(items) == SumOfSubtotals(items)
    ensures TotalItems(items) == SumOfQuantities(items)
  {
    if items != [] {
      TotalsAreSums(items[1..]);
      TotalsAppend([items[0]], items[1..]);
      assert [items[0]] + items[1..] == items;
      assert [items[0]][..0] == [];
    }
  }

  /**
   * `calculateDiscount`: 0 when the original price is not positive or
   * nothing is saved; otherwise `Math.round((o - c) / o * 100)`, which is
   * floor((o - c) / o * 100 + 1/2), computed exactly.
   */
  function Discount(originalPrice: int, currentPrice: int): (r: int)
    ensures originalPrice <= 0 || currentPrice >= originalPrice ==> r == 0
    ensures originalPrice > 0 && currentPrice < originalPrice ==>
              2 * originalPrice * r <= 200 * (originalPrice - currentPrice) + originalPrice
              < 2 * originalPrice * (r + 1)
    ensures currentPrice >= 0 ==> 0 <= r <= 100
  {
    if originalPrice <= 0 || currentPrice >= originalPrice then 0
    else
      var o, c := originalPrice, currentPrice;
      var r := (200 * (o - c) + o) / (2 * o);
      DivBounds(200 * (o - c) + o, 2 * o, r);
      if c >= 0 then
        assert 200 * (o - c) + o <= 201 * o;
        assert 2 * o * r <= 201 * o;
        assert r < 101 by {
          if r >= 101 {
            MulGrows(2 * o, 101, r);
          }
        }
        r
      else r
  }

  lemma DivBounds(n: int, d: int, q: int)
    requires d > 0 && q == n / d
    ensures d * q <= n < d * (q + 1)
  {
  }

  lemma MulGrows(a: int, b: int, c: int)
    requires a > 0 && b <= c
    ensures a * b <= a * c
  {
    assert a * c - a * b == a * (c - b);
  }

  /** The source's examples: (150, 100) gives 33; no saving or no original price gives 0. */
  lemma DiscountExamples()
    ensures Discount(150, 100) == 33
    ensures Discount(15000, 10000) == 33
    ensures Discount(100, 100) == 0 && Discount(100, 150) == 0 && Discount(0, 100) == 0
  {
  }

  /** A percentage does not depend on the unit: prices in cents give the discount of prices in yuan. */
  lemma {:induction false} DiscountScaleInvariant(originalPrice: int, currentPrice: int, k: int)
    requires k > 0
    ensures Discount(k * originalPrice, k * currentPrice) == Discount(originalPrice, currentPrice)
  {
    var o, c := originalPrice, currentPrice;
    if o > 0 && c < o {
      assert k * o > 0 && k * c < k * o by {
        MulGrows(k, c, o);
        MulGrows(k, 1, o);
      }
      var n := 200 * (o - c) + o;
      var q := n / (2 * o);
      DivBounds(n, 2 * o, q);
      assert 200 * (k * o - k * c) + k * o == k * n;
      assert 2 * (k * o) == k * (2 * o);
      ScaledQuotient(n, 2 * o, q, k);
    } else if o > 0 {
      MulGrows(k, o, c);
    } else {
      MulGrows(k, o, 0);
    }
  }

  /** Scaling dividend and divisor by the same positive factor keeps the quotient. */
  lemma ScaledQuotient(n: int, d: int, q: int, k: int)
    requires d > 0 && k > 0 && d * q <= n < d * (q + 1)
    ensures (k * n) / (k * d) == q
  {
    MulGrows(k, d * q, n);
    MulGrows(k, n + 1, d * (q + 1));
    assert (k * d) * q == k * (d * q);
    assert (k * d) * (q + 1) == k * (d * (q + 1));
    assert k * d > 0 by { MulGrows(k, 1, d); }
    DivUnique(k * n, k * d, q);
  }

  lemma DivUnique(n: int, d: int, q: int)
    requires d > 0 && d * q <= n < d * (q + 1)
    ensures n / d == q
  {
    var q' := n / d;
    DivBounds(n, d, q');
    if q' < q {
      MulGrows(d, q' + 1, q);
    } else if q' > q {
      MulGrows(d, q + 1, q');
    }
  }

  const DefaultCurrency: string := "¥"

  /** Two decimal digits, with a leading zero below ten. */
  function TwoDigits(n: int): (r: string)
    requires 0 <= n < 100
    ensures |r| == 2 && IsDigit(r[0]) && IsDigit(r[1])
    ensures DigitValue(r[0]) * 10 + DigitValue(r[1]) == n
  {
    [DigitChar(n / 10), DigitChar(n % 10)]
  }

  function Abs(n: int): nat
  {
    if n < 0 then -n else n
  }

  /** `(cents / 100).toFixed(2)`: sign, whole units, a point and exactly two decimals. */
  function FormatAmount(cents: int): (r: string)
    ensures |r| >= 4 && r[|r| - 3] == '.'
    ensures IsDigit(r[|r| - 2]) && IsDigit(r[|r| - 1])
  {
    (if cents < 0 then "-" else "") + NatToString(Abs(cents) / 100) + "." + TwoDigits(Abs(cents) % 100)
  }

  /** `formatPrice`: the currency symbol, then the amount. */
  function FormatPrice(cents: int, currency: string): (r: string)
    ensures |r| >= |currency| + 4 && r[..|currency|] == currency
    ensures r[|r| - 3] == '.' && IsDigit(r[|r| - 2]) && IsDigit(r[|r| - 1])
  {
    currency + FormatAmount(cents)
  }

  /** Text of the form [-]digits.dd. */
  predicate IsAmountText(s: string)
  {
    |s| >= 4 && s[|s| - 3] == '.' && IsDigit(s[|s| - 2]) && IsDigit(s[|s| - 1])
    && var whole := s[..|s| - 3];
       (AllDigits(whole) && whole != []) || (whole[0] == '-' && |whole| >= 2 && AllDigits(whole[1..]))
  }

  /** The cents an amount text denotes. */
  function ParseAmount(s: string): int
    requires IsAmountText(s)
  {
    var whole := s[..|s| - 3];
    var fraction := DigitValue(s[|s| - 2]) * 10 + DigitValue(s[|s| - 1]);
    if whole[0] == '-' then -(ParseNat(whole[1..]) * 100 + fraction) else ParseNat(whole) * 100 + fraction
  }

  /** The price text reads back as the same number of cents, after the currency symbol. */
  lemma FormatPriceRoundTrip(cents: int, currency: string)
    ensures var r := FormatPrice(cents, currency);
            IsAmountText(r[|currency|..]) && ParseAmount(r[|currency|..]) == cents
  {
    var r := FormatPrice(cents, currency);
    assert r[|currency|..] == FormatAmount(cents);
    AmountRoundTrip(cents);
  }

  lemma AmountRoundTrip(cents: int)
    ensures IsAmountText(FormatAmount(cents)) && ParseAmount(FormatAmount(cents)) == cents
  {
    var a := Abs(cents);
    var sign: string := if cents < 0 then "-" else "";
    var units := NatToString(a / 100);
    var decimals := TwoDigits(a % 100);
    var amount := FormatAmount(cents);
    assert amount == sign + units + "." + decimals;
    AmountShape(sign, units, decimals);
    ParseNatToString(a / 100);
    var fraction := DigitValue(decimals[0]) * 10 + DigitValue(decimals[1]);
    assert fraction == a % 100;
    if cents < 0 {
      assert ParseAmount(amount) == -(ParseNat(units) * 100 + fraction);
    } else {
      assert ParseAmount(amount) == ParseNat(units) * 100 + fraction;
    }
  }

  /** The parts of an amount text: sign, whole units, point and two decimals. */
  lemma AmountShape(sign: string, units: string, decimals: string)
    requires sign == "" || sign == "-"
    requires units != [] && AllDigits(units)
    requires |decimals| == 2 && IsDigit(decimals[0]) && IsDigit(decimals[1])
    ensures var s := sign + units + "." + decimals;
            && IsAmountText(s)
            && s[|s| - 2] == decimals[0] && s[|s| - 1] == decimals[1]
            && (sign == "" ==> s[..|s| - 3] == units && s[0] != '-')
            && (sign == "-" ==> s[..|s| - 3][0] == '-' && s[..|s| - 3][1..] == units)
  {
    var s := sign + units + "." + decimals;
    assert s[..|s| - 3] == sign + units;
    assert IsDigit(units[0]);
  }

  /** The examples of the source: whole and fractional prices, default and custom symbol. */
  lemma FormatPriceExamples()
    ensures FormatPrice(10000, DefaultCurrency) == "¥100.00"
    ensures FormatPrice(10000, "$") == "$100.00"
    ensures FormatPrice(9999, DefaultCurrency) == "¥99.99"
  {
    AmountExamples();
    PriceIsSymbolThenAmount(10000, DefaultCurrency);
    PriceIsSymbolThenAmount(10000, "$");
    PriceIsSymbolThenAmount(9999, DefaultCurrency);
  }

  lemma PriceIsSymbolThenAmount(cents: int, currency: string)
    ensures FormatPrice(cents, currency) == currency + FormatAmount(cents)
  {
  }

  lemma AmountExamples()
    ensures FormatAmount(10000) == "100.00"
    ensures FormatAmount(9999) == "99.99"
  {
    NumeralExamples();
    assert TwoDigits(0) == "00" && TwoDigits(99) == "99";
    assert FormatAmount(10000) == "" + "100" + "." + "00";
    assert FormatAmount(9999) == "" + "99" + "." + "99";
  }

  lemma NumeralExamples()
    ensures NatToString(100) == "100" && NatToString(99) == "99"
  {
    assert NatToString(100) == "100" by {
      assert NatToString(1) == "1";
      assert NatToString(10) == "10";
    }
    assert NatToString(99) == "99" by {
      assert NatToString(9) == "9";
    }
  }
}
