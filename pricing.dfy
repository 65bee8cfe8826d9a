/**
  The price of one invoice line (`LineItem.net`, slip39/invoice/artifact.py
  lines 82-100). Amounts are exact reals, as the source's `Fraction` values
  are; an `int` or `float` price is taken at its exact value.
 */
module Pricing {
  import opened Options

  /** An invoice line: the fields of `Item` that pricing and the rows use. */
  datatype Item = Item(
    description: string,
    price: real,
    units: real,
    tax: Option<real>,       // None: no tax given
    decimals: Option<int>,   // None: a third of the token's decimals
    currency: Option<string> // None: the invoice's default currency
  )

  /**
    What the line says about its tax: the source formats the rate as
    "<percent>% added" or "<percent>% incl."; the model keeps the percentage
    and leaves the formatting out.
   */
  datatype TaxInfo = NoTax | Added(percent: real) | Included(percent: real)

  datatype Net = Net(amount: real, taxes: real, info: TaxInfo)

  /** Python truthiness of the `tax` field: None and zero are false. */
  predicate Taxed(tax: Option<real>)
  {
    tax.Some? && tax.value != 0.0
  }

  /**
    `LineItem.net`: units times price; a rate below 1 is added on top of it,
    a rate above 1 means the price already includes the tax, and no rate,
    a zero rate or a rate of exactly 1 charges nothing.
   */
  function LineNet(item: Item): (n: Net)
    ensures n.info.NoTax? <==> !Taxed(item.tax) || item.tax.value == 1.0
    ensures n.info.Added? <==> Taxed(item.tax) && item.tax.value < 1.0
    ensures n.info.Added? ==> n.info.percent == item.tax.value * 100.0
    ensures n.info.Included? ==> n.info.percent == (item.tax.value - 1.0) * 100.0
    ensures n.info.NoTax? ==> n.taxes == 0.0
  {
    var amount := item.units * item.price;
    if Taxed(item.tax) && item.tax.value < 1.0 then
      var taxes := amount * item.tax.value;
      Net(amount + taxes, taxes, Added(item.tax.value * 100.0))
    else if Taxed(item.tax) && item.tax.value > 1.0 then
      Net(amount, amount - amount / item.tax.value, Included((item.tax.value - 1.0) * 100.0))
    else
      Net(amount, 0.0, NoTax)
  }

  /**
    The amount before tax, `amount - taxes`, is what the buyer pays for the
    goods. An added rate gives back units times price and an amount of
    that base times (1 + rate); an included rate gives a base that, taken
    `tax` times, is the amount; without a rate the base is the amount.
   */
  lemma NetBase(item: Item)
    ensures var n := LineNet(item); var base := item.units * item.price;
      (Taxed(item.tax) && item.tax.value < 1.0 ==>
        n.amount - n.taxes == base && n.amount == base * (1.0 + item.tax.value)) &&
      (Taxed(item.tax) && item.tax.value > 1.0 ==>
        n.amount == base && (n.amount - n.taxes) * item.tax.value == n.amount) &&
      (!Taxed(item.tax) || item.tax.value == 1.0 ==> n.amount - n.taxes == base)
  {
    var n := LineNet(item);
    var base := item.units * item.price;
    if Taxed(item.tax) && item.tax.value > 1.0 {
      var t := item.tax.value;
      assert n.amount - n.taxes == base / t;
      assert base / t * t == base;
    }
  }

  /**
    With a non-negative base and a rate between 0 and 1 (added) or above 1
    (included), the tax is a non-negative part of the amount, never more
    than all of it.
   */
  lemma NetTaxBounded(item: Item)
    requires item.units * item.price >= 0.0
    requires item.tax.Some? && item.tax.value > 0.0
    ensures var n := LineNet(item); 0.0 <= n.taxes <= n.amount
  {
    var base := item.units * item.price;
    var t := item.tax.value;
    if t > 1.0 {
      var q := base / t;
      assert q * t == base;
      assert q >= 0.0;
      assert base - q == q * (t - 1.0);
      assert q * (t - 1.0) >= 0.0;
    } else if t < 1.0 {
      assert base * t >= 0.0;
    }
  }

  /** 198 units at 2.01 with 5% added tax: an amount of 417.879 with 19.899 taxes. */
  lemma AddedExample()
    ensures LineNet(Item("Widgets", 2.01, 198.0, Some(0.05), None, None)) == Net(417.879, 19.899, Added(5.0))
  {
  }

  /** 100 units at 201/100000 with a 105/100 rate included: 0.201, of which 67/7000 tax. */
  lemma IncludedExample()
    ensures LineNet(Item("Gas", 201.0 / 100000.0, 100.0, Some(105.0 / 100.0), None, None)) ==
      Net(0.201, 67.0 / 7000.0, Included(5.0))
  {
  }
}
