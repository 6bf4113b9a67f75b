/** The shopping-cart store of `CartContext`: an ordered sequence of cart
    lines with add, remove, update and clear, and the derived `total` and
    `itemCount`. The store keeps at most one line per product id; every
    operation below preserves that (see `PreservesDistinct`). */
module Cart {
  import opened Wrappers
  import Keyed

  /** The part of a catalogue product the cart reads: its id, name and
      numeric price (the catalogue type declares the price as a string;
      JavaScript's `*` converts it to a number). */
  datatype Product = Product(id: string, name: string, price: real)

  /** One cart line. `id` is the client-generated `temp_<clock>` id and
      `product` is the snapshot stored when the line was created; a line
      restored from storage may have none. */
  datatype CartItem = CartItem(id: string, productId: string, quantity: int, product: Option<Product>)

  type Items = seq<CartItem>

  function ProductIdOf(item: CartItem): string { item.productId }

  predicate HasProduct(items: Items, pid: string) {
    exists i :: 0 <= i < |items| && items[i].productId == pid
  }

  /** The store invariant: no two lines share a product id. */
  predicate DistinctProducts(items: Items) {
    forall i, j :: 0 <= i < j < |items| ==> items[i].productId != items[j].productId
  }

  /** `item.product?.price || 0`: a missing product (or a zero price) counts as 0. */
  function UnitPrice(item: CartItem): real {
    match item.product
    case Some(p) => p.price
    case None => 0.0
  }

  // ---------------------------------------------------------------- addItem

  /** Adds `n` to the quantity of every line of product `pid`; the other
      lines are kept as they are. */
  function Bump(items: Items, pid: string, n: int): (r: Items)
    ensures |r| == |items|
    ensures forall i :: 0 <= i < |items| ==>
      && r[i].id == items[i].id
      && r[i].productId == items[i].productId
      && r[i].product == items[i].product
      && r[i].quantity == (if items[i].productId == pid then items[i].quantity + n else items[i].quantity)
  {
    if |items| == 0 then []
    else
      var head := if items[0].productId == pid then items[0].(quantity := items[0].quantity + n) else items[0];
      [head] + Bump(items[1..], pid, n)
  }

  /** `addItem(product, quantity)`. When a line for the product exists its
      quantity grows by `quantity`; otherwise a new line, with the given
      temporary id and the product as snapshot, is appended at the end. */
  function AddItem(items: Items, product: Product, quantity: int, lineId: string): (r: Items)
    ensures HasProduct(items, product.id) ==>
      && |r| == |items|
      && forall i :: 0 <= i < |items| ==>
           if items[i].productId == product.id
           then r[i] == items[i].(quantity := items[i].quantity + quantity)
           else r[i] == items[i]
    ensures !HasProduct(items, product.id) ==>
      && |r| == |items| + 1
      && r[..|items|] == items
      && r[|items|] == CartItem(lineId, product.id, quantity, Some(product))
  {
    if HasProduct(items, product.id) then Bump(items, product.id, quantity)
    else items + [CartItem(lineId, product.id, quantity, Some(product))]
  }

  // ------------------------------------------------------------- removeItem

  /** `removeItem(productId)`: `filter(item => item.product_id !== productId)`. */
  function RemoveItem(items: Items, pid: string): (r: Items)
    ensures |r| <= |items|
    ensures !HasProduct(r, pid)
    ensures forall x :: x in r <==> x in items && x.productId != pid
    ensures !HasProduct(items, pid) ==> r == items
  {
    var r := Keyed.Without(items, ProductIdOf, pid);
    assert !HasProduct(r, pid) by {
      forall i | 0 <= i < |r| ensures r[i].productId != pid {
        assert r[i] in r;
      }
    }
    assert !HasProduct(items, pid) ==> r == items by {
      if !HasProduct(items, pid) {
        Keyed.WithoutAbsent(items, ProductIdOf, pid);
      }
    }
    r
  }

  /** The lines of product `pid`, in cart order (the complement of `RemoveItem`). */
  function LinesOf(items: Items, pid: string): (r: Items)
    ensures forall x :: x in r <==> x in items && x.productId == pid
  {
    Keyed.With(items, ProductIdOf, pid)
  }

  /** Removal keeps the order of the remaining lines: it acts on a
      concatenation piece by piece. */
  lemma RemoveDistributes(a: Items, b: Items, pid: string)
    ensures RemoveItem(a + b, pid) == RemoveItem(a, pid) + RemoveItem(b, pid)
  {
    Keyed.WithoutDistributes(a, b, ProductIdOf, pid);
  }

  // --------------------------------------------------------- updateQuantity

  /** Sets the quantity of every line of product `pid` to `q`. */
  function SetQuantity(items: Items, pid: string, q: int): (r: Items)
    ensures |r| == |items|
    ensures forall i :: 0 <= i < |items| ==>
      && r[i].id == items[i].id
      && r[i].productId == items[i].productId
      && r[i].product == items[i].product
      && r[i].quantity == (if items[i].productId == pid then q else items[i].quantity)
  {
    if |items| == 0 then []
    else
      var head := if items[0].productId == pid then items[0].(quantity := q) else items[0];
      [head] + SetQuantity(items[1..], pid, q)
  }

  /** `updateQuantity(productId, quantity)`: a non-positive quantity removes
      the product's line; a positive one sets the quantity of that line only. */
  function UpdateQuantity(items: Items, pid: string, q: int): (r: Items)
    ensures q > 0 ==> |r| == |items|
    ensures q > 0 ==> forall i :: 0 <= i < |items| ==>
      if items[i].productId == pid then r[i] == items[i].(quantity := q) else r[i] == items[i]
    ensures q <= 0 ==> !HasProduct(r, pid)
  {
    if q <= 0 then RemoveItem(items, pid) else SetQuantity(items, pid, q)
  }

  /** `clearCart()`. */
  function ClearCart(): (r: Items)
    ensures |r| == 0
  {
    []
  }

  // ---------------------------------------------------- total and itemCount

  /** Every line holds at least one unit. */
  predicate AllPositive(items: Items) {
    forall i :: 0 <= i < |items| ==> items[i].quantity >= 1
  }

  /** The amount one line contributes to `total`. */
  function LineValue(item: CartItem): real {
    UnitPrice(item) * item.quantity as real
  }

  /** `total`: the sum of unit price times quantity over the lines; the
      empty cart totals 0. */
  function Total(items: Items): (r: real)
    ensures |items| == 0 ==> r == 0.0
  {
    if |items| == 0 then 0.0 else LineValue(items[0]) + Total(items[1..])
  }

  /** `itemCount`: the sum of the quantities. When every line holds at least
      one unit, the badge shows at least as many units as there are lines. */
  function ItemCount(items: Items): (r: int)
    ensures |items| == 0 ==> r == 0
    ensures AllPositive(items) ==> r >= |items|
  {
    if |items| == 0 then 0 else items[0].quantity + ItemCount(items[1..])
  }

  lemma EmptyCartSums()
    ensures Total(ClearCart()) == 0.0 && ItemCount(ClearCart()) == 0
  {
  }

  /** Both sums are additive over concatenation. */
  lemma {:induction false} SumsAppend(a: Items, b: Items)
    ensures Total(a + b) == Total(a) + Total(b)
    ensures ItemCount(a + b) == ItemCount(a) + ItemCount(b)
    decreases |a|
  {
    if |a| == 0 {
      assert a + b == b;
    } else {
      assert (a + b)[1..] == a[1..] + b;
      SumsAppend(a[1..], b);
    }
  }

  /** Removing a product takes exactly that product's lines out of both sums. */
  lemma {:induction false} RemoveSplitsSums(items: Items, pid: string)
    ensures Total(items) == Total(RemoveItem(items, pid)) + Total(LinesOf(items, pid))
    ensures ItemCount(items) == ItemCount(RemoveItem(items, pid)) + ItemCount(LinesOf(items, pid))
    decreases |items|
  {
    if |items| > 0 {
      RemoveSplitsSums(items[1..], pid);
    }
  }

  /** In a cart with distinct product ids a product has at most one line. */
  lemma {:induction false} LinesOfDistinct(items: Items, pid: string)
    requires DistinctProducts(items)
    ensures |LinesOf(items, pid)| <= 1
    ensures HasProduct(items, pid) ==> exists i :: 0 <= i < |items| && LinesOf(items, pid) == [items[i]]
    ensures !HasProduct(items, pid) ==> LinesOf(items, pid) == []
    decreases |items|
  {
    if |items| > 0 {
      LinesOfDistinct(items[1..], pid);
      if items[0].productId == pid {
        assert !HasProduct(items[1..], pid);
        assert LinesOf(items, pid) == [items[0]];
      } else if HasProduct(items, pid) {
        var i :| 0 <= i < |items| && items[i].productId == pid;
        assert items[1..][i - 1].productId == pid;
        var j :| 0 <= j < |items[1..]| && LinesOf(items[1..], pid) == [items[1..][j]];
        assert LinesOf(items, pid) == [items[j + 1]];
      }
    }
  }

  /** Replacing one line changes both sums by the difference of that line. */
  lemma {:induction false} ReplaceLineSums(items: Items, i: nat, x: CartItem)
    requires i < |items|
    ensures Total(items[i := x]) == Total(items) - LineValue(items[i]) + LineValue(x)
    ensures ItemCount(items[i := x]) == ItemCount(items) - items[i].quantity + x.quantity
    decreases i
  {
    if i > 0 {
      assert items[i := x][1..] == items[1..][i - 1 := x];
      ReplaceLineSums(items[1..], i - 1, x);
    }
  }

  /** With distinct product ids, `addItem` of a product already in the cart
      bumps exactly the line holding it. */
  lemma AddExistingIsUpdate(items: Items, product: Product, n: int, lineId: string) returns (i: nat)
    requires DistinctProducts(items) && HasProduct(items, product.id)
    ensures i < |items| && items[i].productId == product.id
    ensures AddItem(items, product, n, lineId) == items[i := items[i].(quantity := items[i].quantity + n)]
  {
    var k :| 0 <= k < |items| && items[k].productId == product.id;
    i := k;
  }

  /** Adding `n` of a product grows `itemCount` by exactly `n` when the
      store invariant holds (the existing line is bumped once). */
  lemma AddItemCount(items: Items, product: Product, n: int, lineId: string)
    requires DistinctProducts(items)
    ensures ItemCount(AddItem(items, product, n, lineId)) == ItemCount(items) + n
  {
    if HasProduct(items, product.id) {
      var i := AddExistingIsUpdate(items, product, n, lineId);
      ReplaceLineSums(items, i, items[i].(quantity := items[i].quantity + n));
    } else {
      SumsAppend(items, [CartItem(lineId, product.id, n, Some(product))]);
    }
  }

  /** The quantity `addItem` uses when the caller gives none. */
  const DefaultQuantity: int := 1

  /** Adding a product without a quantity adds exactly one unit to the badge. */
  lemma AddDefaultIsOneUnit(items: Items, product: Product, lineId: string)
    requires DistinctProducts(items)
    ensures ItemCount(AddItem(items, product, DefaultQuantity, lineId)) == ItemCount(items) + 1
  {
    AddItemCount(items, product, DefaultQuantity, lineId);
  }

  /** A line's value is linear in its quantity. */
  lemma LineValueBump(x: CartItem, n: int)
    ensures LineValue(x.(quantity := x.quantity + n)) == LineValue(x) + UnitPrice(x) * n as real
  {
    var u := UnitPrice(x);
    assert u * (x.quantity + n) as real == u * x.quantity as real + u * n as real;
  }

  /** Adding `n` of a product the cart does not hold grows `total` by `n`
      times the product's price. */
  lemma AddNewTotal(items: Items, product: Product, n: int, lineId: string)
    requires !HasProduct(items, product.id)
    ensures Total(AddItem(items, product, n, lineId)) == Total(items) + product.price * n as real
  {
    var line := CartItem(lineId, product.id, n, Some(product));
    assert AddItem(items, product, n, lineId) == items + [line];
    assert Total([line]) == product.price * n as real by {
      assert [line][1..] == [];
      assert LineValue(line) == product.price * n as real;
    }
    SumsAppend(items, [line]);
  }

  /** Adding `n` of a product the cart already holds grows `total` by `n`
      times the price snapshot of the existing line, not the new price. */
  lemma AddExistingTotal(items: Items, product: Product, n: int, lineId: string) returns (i: nat)
    requires DistinctProducts(items) && HasProduct(items, product.id)
    ensures i < |items| && items[i].productId == product.id
    ensures Total(AddItem(items, product, n, lineId)) == Total(items) + UnitPrice(items[i]) * n as real
  {
    i := AddExistingIsUpdate(items, product, n, lineId);
    var x := items[i].(quantity := items[i].quantity + n);
    var a, b := LineValue(items[i]), LineValue(x);
    assert Total(items[i := x]) == Total(items) - a + b by {
      ReplaceLineSums(items, i, x);
    }
    assert b == a + UnitPrice(items[i]) * n as real by {
      LineValueBump(items[i], n);
    }
  }

  // ------------------------------------------------------ the store invariant

  lemma DistinctPrefix(items: Items, k: nat)
    requires k <= |items| && DistinctProducts(items)
    ensures DistinctProducts(items[..k]) && DistinctProducts(items[k..])
  {
  }

  /** `addItem` keeps product ids distinct. */
  lemma AddPreservesDistinct(items: Items, product: Product, n: int, lineId: string)
    requires DistinctProducts(items)
    ensures DistinctProducts(AddItem(items, product, n, lineId))
  {
    var r := AddItem(items, product, n, lineId);
    if !HasProduct(items, product.id) {
      forall i, j | 0 <= i < j < |r| ensures r[i].productId != r[j].productId {
        if j == |items| {
          assert r[i] == items[i];
        } else {
          assert r[i] == items[i] && r[j] == items[j];
        }
      }
    }
  }

  /** `removeItem` keeps product ids distinct. */
  lemma {:induction false} RemovePreservesDistinct(items: Items, pid: string)
    requires DistinctProducts(items)
    ensures DistinctProducts(RemoveItem(items, pid))
    decreases |items|
  {
    if |items| > 0 {
      DistinctPrefix(items, 1);
      RemovePreservesDistinct(items[1..], pid);
      if items[0].productId != pid {
        var rest := RemoveItem(items[1..], pid);
        forall x | x in rest ensures x.productId != items[0].productId {
          var k :| 0 <= k < |items[1..]| && items[1..][k] == x;
          assert items[k + 1] == x;
        }
      }
    }
  }

  /** `updateQuantity` keeps product ids distinct. */
  lemma UpdatePreservesDistinct(items: Items, pid: string, q: int)
    requires DistinctProducts(items)
    ensures DistinctProducts(UpdateQuantity(items, pid, q))
  {
    if q <= 0 {
      RemovePreservesDistinct(items, pid);
    }
  }

  /** The cart operations as events, for reasoning about sequences of calls. */
  datatype CartOp =
    | Add(product: Product, quantity: int, lineId: string)
    | Remove(productId: string)
    | Update(productId: string, quantity: int)
    | Clear

  function Apply(items: Items, op: CartOp): Items {
    match op
    case Add(p, n, t) => AddItem(items, p, n, t)
    case Remove(pid) => RemoveItem(items, pid)
    case Update(pid, q) => UpdateQuantity(items, pid, q)
    case Clear => ClearCart()
  }

  function ApplyAll(items: Items, ops: seq<CartOp>): Items
    decreases |ops|
  {
    if |ops| == 0 then items else ApplyAll(Apply(items, ops[0]), ops[1..])
  }

  /** Whatever sequence of operations runs on the store, starting from a
      cart with distinct product ids, no product ever gets two lines. */
  lemma {:induction false} PreservesDistinct(items: Items, ops: seq<CartOp>)
    requires DistinctProducts(items)
    ensures DistinctProducts(ApplyAll(items, ops))
    decreases |ops|
  {
    if |ops| > 0 {
      match ops[0] {
        case Add(p, n, t) => AddPreservesDistinct(items, p, n, t);
        case Remove(pid) => RemovePreservesDistinct(items, pid);
        case Update(pid, q) => UpdatePreservesDistinct(items, pid, q);
        case Clear =>
      }
      PreservesDistinct(Apply(items, ops[0]), ops[1..]);
    }
  }

  // ----------------------------------------------------- derived properties

  /** A non-positive quantity update is exactly a removal. */
  lemma UpdateNonPositiveIsRemove(items: Items, pid: string, q: int)
    requires q <= 0
    ensures UpdateQuantity(items, pid, q) == RemoveItem(items, pid)
  {
  }

  /** Adding a new product twice yields one line whose quantity is the sum. */
  lemma AddTwiceMerges(items: Items, p: Product, n: int, m: int, t1: string, t2: string)
    requires !HasProduct(items, p.id)
    ensures AddItem(AddItem(items, p, n, t1), p, m, t2) == items + [CartItem(t1, p.id, n + m, Some(p))]
  {
    var line := CartItem(t1, p.id, n, Some(p));
    var once := AddItem(items, p, n, t1);
    assert once == items + [line];
    assert once[|items|].productId == p.id;
    var twice := AddItem(once, p, m, t2);
    assert twice == Bump(once, p.id, m);
    assert twice[|items|] == line.(quantity := n + m);
    forall i | 0 <= i < |items| ensures twice[i] == items[i] {
      assert once[i] == items[i];
      assert items[i].productId != p.id;
    }
    assert twice == items + [line.(quantity := n + m)];
  }

  /** The end-to-end cart scenario: add two of p1 at 100, add one more,
      then remove it. */
  lemma Scenario(p: Product, t1: string, t2: string)
    requires p.id == "p1" && p.price == 100.0
    ensures var c1 := AddItem([], p, 2, t1);
      && Total(c1) == 200.0
      && var c2 := AddItem(c1, p, 1, t2);
      && c2 == [CartItem(t1, "p1", 3, Some(p))]
      && Total(c2) == 300.0
      && RemoveItem(c2, "p1") == []
      && Total(RemoveItem(c2, "p1")) == 0.0
  {
    AddTwiceMerges([], p, 2, 1, t1, t2);
    var c2 := AddItem(AddItem([], p, 2, t1), p, 1, t2);
    assert c2 == [CartItem(t1, "p1", 3, Some(p))];
  }
}
