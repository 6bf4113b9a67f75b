/** The pricing rules and handlers of the Cart page: subtotal, the free
    shipping threshold (strictly above 500, otherwise a 29.90 fee), the
    one-code coupon table, the percentage discount and the page's own
    quantity and remove handlers. This page works on its own list of lines,
    not on the cart store. */
module CartPage {
  import opened Wrappers
  import Keyed

  /** One line of the page's list: numeric id, name, unit price, quantity. */
  datatype PageItem = PageItem(id: int, name: string, price: real, quantity: int)

  datatype CouponKind = Percentage

  /** An applied coupon: its code and the fraction of the subtotal it takes off. */
  datatype Coupon = Coupon(code: string, rate: real, kind: CouponKind)

  const FreeShippingAbove: real := 500.0
  const ShippingFee: real := 29.90
  const Gold10: Coupon := Coupon("GOLD10", 0.1, Percentage)

  /** What one line adds to the subtotal: nothing exactly when the price or
      the quantity is zero, never a negative amount for a priced line. */
  function LineAmount(item: PageItem): (r: real)
    ensures r == 0.0 <==> item.price == 0.0 || item.quantity == 0
    ensures item.price >= 0.0 && item.quantity >= 0 ==> r >= 0.0
  {
    item.price * item.quantity as real
  }

  /** `subtotal`: the sum of price times quantity over the page's lines; an
      empty page is 0 and a one-line page is that line's amount. */
  function Subtotal(items: seq<PageItem>): (r: real)
    ensures |items| == 0 ==> r == 0.0
    ensures |items| == 1 ==> r == LineAmount(items[0])
  {
    if |items| == 0 then 0.0 else LineAmount(items[0]) + Subtotal(items[1..])
  }

  /** `shipping`: free strictly above the threshold, the flat fee otherwise. */
  function Shipping(subtotal: real): (r: real)
    ensures r == 0.0 <==> subtotal > FreeShippingAbove
    ensures r != 0.0 ==> r == ShippingFee
  {
    if subtotal > FreeShippingAbove then 0.0 else ShippingFee
  }

  /** `discount`: the coupon's rate times the subtotal, or nothing. */
  function Discount(subtotal: real, coupon: Option<Coupon>): (r: real)
    ensures coupon.None? ==> r == 0.0
    ensures coupon.Some? ==> r == subtotal * coupon.value.rate
    ensures 0.0 <= subtotal && coupon.Some? && 0.0 <= coupon.value.rate <= 1.0 ==> 0.0 <= r <= subtotal
  {
    match coupon
    case None => 0.0
    case Some(c) => subtotal * c.rate
  }

  /** The four amounts the order summary shows. */
  datatype Summary = Summary(subtotal: real, shipping: real, discount: real, total: real)

  function Summarize(items: seq<PageItem>, coupon: Option<Coupon>): (r: Summary)
    ensures r.subtotal == Subtotal(items)
    ensures r.shipping == 0.0 <==> r.subtotal > FreeShippingAbove
    ensures r.shipping != 0.0 ==> r.shipping == ShippingFee
    ensures r.discount == Discount(r.subtotal, coupon)
    ensures coupon.Some? ==> r.discount == r.subtotal * coupon.value.rate
    ensures r.total == r.subtotal + r.shipping - r.discount
    ensures coupon.None? ==> r.discount == 0.0 && r.total == r.subtotal + r.shipping
  {
    var s := Subtotal(items);
    var sh := Shipping(s);
    var d := Discount(s, coupon);
    Summary(s, sh, d, s + sh - d)
  }

  /** The "add R$ x more for free shipping" hint: shown only while shipping
      is charged, so the amount is never negative. */
  function FreeShippingShortfall(subtotal: real): (r: Option<real>)
    ensures r.Some? <==> Shipping(subtotal) > 0.0
    ensures r.Some? ==> r.value >= 0.0 && subtotal + r.value == FreeShippingAbove
  {
    if Shipping(subtotal) > 0.0 then Some(FreeShippingAbove - subtotal) else None
  }

  /** Result of pressing "apply": the coupon now applied and whether the
      code was accepted (the page shows a success or an error message). */
  datatype CouponResult = CouponResult(applied: Option<Coupon>, accepted: bool)

  /** `applyCoupon`: only the exact, case-sensitive code GOLD10 is accepted;
      any other code leaves the applied coupon as it was. */
  function ApplyCoupon(code: string, current: Option<Coupon>): (r: CouponResult)
    ensures r.accepted <==> code == "GOLD10"
    ensures r.accepted ==> r.applied == Some(Coupon("GOLD10", 0.1, Percentage))
    ensures !r.accepted ==> r.applied == current
  {
    if code == Gold10.code then CouponResult(Some(Gold10), true) else CouponResult(current, false)
  }

  /** The "Remover" button next to an applied coupon. */
  function RemoveCoupon(current: Option<Coupon>): (r: Option<Coupon>)
    ensures r.None?
  {
    None
  }

  /** What the page's `updateQuantity` does: a new quantity of exactly zero
      opens the remove confirmation; any other value replaces the list. */
  datatype QuantityEffect = AskRemove(id: int) | Updated(items: seq<PageItem>)

  /** Sets the quantity of every line with the given id. */
  function SetQuantity(items: seq<PageItem>, id: int, q: int): (r: seq<PageItem>)
    ensures |r| == |items|
    ensures forall i :: 0 <= i < |items| ==>
      r[i] == (if items[i].id == id then items[i].(quantity := q) else items[i])
  {
    if |items| == 0 then []
    else [if items[0].id == id then items[0].(quantity := q) else items[0]] + SetQuantity(items[1..], id, q)
  }

  function UpdateQuantity(items: seq<PageItem>, id: int, q: int): (r: QuantityEffect)
    ensures r.AskRemove? <==> q == 0
    ensures r.AskRemove? ==> r.id == id
    ensures r.Updated? ==> |r.items| == |items| && forall i :: 0 <= i < |items| ==>
      && r.items[i].id == items[i].id && r.items[i].name == items[i].name && r.items[i].price == items[i].price
      && r.items[i].quantity == (if items[i].id == id then q else items[i].quantity)
  {
    if q == 0 then AskRemove(id) else Updated(SetQuantity(items, id, q))
  }

  function IdOf(item: PageItem): int { item.id }

  /** The confirmed branch of `removeItem`: drop every line with that id. */
  function ConfirmRemove(items: seq<PageItem>, id: int): (r: seq<PageItem>)
    ensures |r| <= |items|
    ensures forall x :: x in r <==> x in items && x.id != id
  {
    Keyed.Without(items, IdOf, id)
  }

  /** The lines a confirmed remove takes out. */
  function LinesWithId(items: seq<PageItem>, id: int): (r: seq<PageItem>)
    ensures forall x :: x in r <==> x in items && x.id == id
  {
    Keyed.With(items, IdOf, id)
  }

  /** A confirmed remove keeps the other lines in order: it acts on a
      concatenation piece by piece. */
  lemma ConfirmRemoveDistributes(a: seq<PageItem>, b: seq<PageItem>, id: int)
    ensures ConfirmRemove(a + b, id) == ConfirmRemove(a, id) + ConfirmRemove(b, id)
  {
    Keyed.WithoutDistributes(a, b, IdOf, id);
  }

  /** The subtotal drops by exactly the removed lines' amount. */
  lemma {:induction false} ConfirmRemoveSubtotal(items: seq<PageItem>, id: int)
    ensures Subtotal(items) == Subtotal(ConfirmRemove(items, id)) + Subtotal(LinesWithId(items, id))
    decreases |items|
  {
    if |items| > 0 {
      ConfirmRemoveSubtotal(items[1..], id);
    }
  }

  /** The subtotal of a list with non-negative prices and quantities is non-negative. */
  lemma {:induction false} SubtotalNonNegative(items: seq<PageItem>)
    requires forall i :: 0 <= i < |items| ==> items[i].price >= 0.0 && items[i].quantity >= 0
    ensures Subtotal(items) >= 0.0
    decreases |items|
  {
    if |items| > 0 {
      SubtotalNonNegative(items[1..]);
      assert LineAmount(items[0]) >= 0.0;
    }
  }

  /** With GOLD10 applied the customer pays 90% of the subtotal plus shipping. */
  lemma Gold10Total(items: seq<PageItem>)
    ensures var r := Summarize(items, Some(Gold10));
      r.discount == r.subtotal / 10.0 && r.total == r.subtotal * 0.9 + r.shipping
  {
  }

  /** Pressing "apply" with GOLD10 gives the GOLD10 figures whatever was
      applied before; any other code leaves every amount of the summary as
      it was. */
  lemma ApplyCouponSummary(items: seq<PageItem>, code: string, current: Option<Coupon>)
    ensures code == "GOLD10" ==> var r := Summarize(items, ApplyCoupon(code, current).applied);
      r.discount == r.subtotal / 10.0 && r.total == r.subtotal * 0.9 + r.shipping
    ensures code != "GOLD10" ==> Summarize(items, ApplyCoupon(code, current).applied) == Summarize(items, current)
  {
  }

  /** Replacing one line changes the subtotal by the difference of the two
      lines' amounts. */
  lemma {:induction false} ReplaceLineSubtotal(items: seq<PageItem>, k: nat, x: PageItem)
    requires k < |items|
    ensures Subtotal(items[k := x]) == Subtotal(items) - LineAmount(items[k]) + LineAmount(x)
    decreases k
  {
    if k > 0 {
      ReplaceLineSubtotal(items[1..], k - 1, x);
      assert items[k := x][1..] == items[1..][k - 1 := x];
    }
  }

  /** Changing the quantity of the one line with that id to a non-zero `q`
      changes the subtotal by `(q - old quantity) * price`. */
  lemma UpdateQuantitySubtotal(items: seq<PageItem>, k: nat, q: int)
    requires k < |items| && q != 0
    requires forall j :: 0 <= j < |items| && j != k ==> items[j].id != items[k].id
    ensures var r := UpdateQuantity(items, items[k].id, q);
      r.Updated? && Subtotal(r.items) == Subtotal(items) + items[k].price * (q - items[k].quantity) as real
  {
    UpdateOneLine(items, k, q);
    ReplaceQuantitySubtotal(items, k, q);
  }

  /** A non-zero quantity for the one line with that id replaces just that line. */
  lemma UpdateOneLine(items: seq<PageItem>, k: nat, q: int)
    requires k < |items| && q != 0
    requires forall j :: 0 <= j < |items| && j != k ==> items[j].id != items[k].id
    ensures UpdateQuantity(items, items[k].id, q) == Updated(items[k := items[k].(quantity := q)])
  {
    SetQuantityOneLine(items, k, q);
  }

  lemma ReplaceQuantitySubtotal(items: seq<PageItem>, k: nat, q: int)
    requires k < |items|
    ensures Subtotal(items[k := items[k].(quantity := q)]) == Subtotal(items) + items[k].price * (q - items[k].quantity) as real
  {
    var x := items[k].(quantity := q);
    var a, b := LineAmount(items[k]), LineAmount(x);
    var shift := items[k].price * (q - items[k].quantity) as real;
    assert Subtotal(items[k := x]) == Subtotal(items) - a + b by {
      ReplaceLineSubtotal(items, k, x);
    }
    assert b == a + shift by {
      LineAmountShift(items[k], q);
    }
    Rebalance(Subtotal(items[k := x]), Subtotal(items), a, b, shift);
  }

  lemma Rebalance(after: real, before: real, a: real, b: real, shift: real)
    requires after == before - a + b && b == a + shift
    ensures after == before + shift
  {
  }

  /** With one line of that id, setting its quantity replaces just that line. */
  lemma SetQuantityOneLine(items: seq<PageItem>, k: nat, q: int)
    requires k < |items|
    requires forall j :: 0 <= j < |items| && j != k ==> items[j].id != items[k].id
    ensures SetQuantity(items, items[k].id, q) == items[k := items[k].(quantity := q)]
  {
  }

  lemma LineAmountShift(item: PageItem, q: int)
    ensures LineAmount(item.(quantity := q)) == LineAmount(item) + item.price * (q - item.quantity) as real
  {
  }

  /** The worked examples: 600 ships free, 100 pays 29.90, and GOLD10 on
      1000 takes 100 off a 900 total. */
  lemma PricingExamples()
    ensures Shipping(600.0) == 0.0 && Shipping(100.0) == 29.90 && Shipping(500.0) == 29.90
    ensures Discount(1000.0, Some(Gold10)) == 100.0
    ensures Summarize([PageItem(1, "anel", 1000.0, 1)], Some(Gold10)).total == 900.0
  {
  }
}
