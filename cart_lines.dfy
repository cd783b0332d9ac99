/** The cart's lines as values: the lookups the cart uses (`findInCart`,
    `findIndex`), its two aggregates (the total price and the item count
    shown on the cart badge), and the change each mutating operation makes
    to the sequence of lines. The mutable cart itself is `CartStore.Cart`. */
module CartLines {
  import opened Nullable

  /** The size a line gets when the product has no size. */
  const DefaultSize := "default"

  /** The product object passed to `addToCart`. `parsedPrice` is what
      `parseInt` makes of its price (None for NaN); `image` is None
      when the object lacks it or it is `null`; `size` is None only when
      the object lacks it (`undefined`, which the default parameter
      replaces), a `null` size not being modelled. */
  datatype Product = Product(id: string, name: string, parsedPrice: Option<int>,
                             image: Option<string>, size: Option<string>)

  /** One line of the cart: a product in one size, with its quantity. */
  datatype CartLine = CartLine(id: string, name: string, price: int, image: string,
                               size: string, quantity: int)

  /** A size argument that is left out means the default size. */
  function SizeOrDefault(size: Option<string>): string {
    size.GetOr(DefaultSize)
  }

  /** The line `addToCart` appends for a product that is not in the cart:
      price `parseInt(price) || 0`, image `image || ''`, quantity 1. */
  function NewLine(p: Product): CartLine {
    CartLine(p.id, p.name, p.parsedPrice.GetOr(0), p.image.GetOr(""), SizeOrDefault(p.size), 1)
  }

  predicate Matches(l: CartLine, id: string, size: string) {
    l.id == id && l.size == size
  }

  /** `cart.findIndex(...)`: the first line for (id, size), or -1. */
  function FindIndex(lines: seq<CartLine>, id: string, size: string): (k: int)
    ensures -1 <= k < |lines|
    ensures k == -1 <==> forall i :: 0 <= i < |lines| ==> !Matches(lines[i], id, size)
    ensures k >= 0 ==> Matches(lines[k], id, size)
    ensures k >= 0 ==> forall i :: 0 <= i < k ==> !Matches(lines[i], id, size)
  {
    if lines == [] then -1
    else if Matches(lines[0], id, size) then 0
    else
      var k := FindIndex(lines[1..], id, size);
      if k == -1 then -1 else k + 1
  }

  /** `findInCart`: the first line for (id, size), if there is one. */
  function FindInCart(lines: seq<CartLine>, id: string, size: string): (r: Option<CartLine>)
    ensures r.None? <==> forall i :: 0 <= i < |lines| ==> !Matches(lines[i], id, size)
    ensures r.Some? ==> exists k :: 0 <= k < |lines| && lines[k] == r.value && Matches(r.value, id, size)
                          && forall i :: 0 <= i < k ==> !Matches(lines[i], id, size)
  {
    var k := FindIndex(lines, id, size);
    if k == -1 then None else Some(lines[k])
  }

  /** The quantity the cart holds of (id, size): that of its first line for
      the pair, or 0. */
  function QuantityOf(lines: seq<CartLine>, id: string, size: string): int {
    var k := FindIndex(lines, id, size);
    if k == -1 then 0 else lines[k].quantity
  }

  function Subtotal(l: CartLine): int {
    l.price * l.quantity
  }

  /** `getTotalPrice`: `cart.reduce((total, item) => total + item.price * item.quantity, 0)`. */
  function TotalPrice(lines: seq<CartLine>): int {
    if lines == [] then 0 else TotalPrice(lines[..|lines| - 1]) + Subtotal(lines[|lines| - 1])
  }

  /** The badge count: `cart.reduce((sum, item) => sum + item.quantity, 0)`. */
  function ItemCount(lines: seq<CartLine>): int {
    if lines == [] then 0 else ItemCount(lines[..|lines| - 1]) + lines[|lines| - 1].quantity
  }

  /** At most one line per (id, size). */
  predicate UniqueKeys(lines: seq<CartLine>) {
    forall i, j :: 0 <= i < j < |lines| ==> !Matches(lines[j], lines[i].id, lines[i].size)
  }

  /** Every line holds at least one item. */
  predicate PositiveQuantities(lines: seq<CartLine>) {
    forall i :: 0 <= i < |lines| ==> lines[i].quantity >= 1
  }

  /** The invariant the cart's operations keep. */
  predicate WellFormed(lines: seq<CartLine>) {
    UniqueKeys(lines) && PositiveQuantities(lines)
  }

  // ---------------------------------------------------------------------
  // The change each operation makes to the lines

  /** `addToCart(product)`: one more of an existing (id, size) line, or a
      new line at the end. */
  function AddedTo(lines: seq<CartLine>, p: Product): seq<CartLine> {
    var k := FindIndex(lines, p.id, SizeOrDefault(p.size));
    if k >= 0 then lines[k := lines[k].(quantity := lines[k].quantity + 1)]
    else lines + [NewLine(p)]
  }

  /** `removeFromCart(id, size)`: the first line for the pair spliced out. */
  function Removed(lines: seq<CartLine>, id: string, size: string): seq<CartLine> {
    var k := FindIndex(lines, id, size);
    if k >= 0 then lines[..k] + lines[k + 1..] else lines
  }

  /** `updateQuantity(id, q, size)`: below 1 the line is removed, otherwise
      its quantity becomes q; a missing line changes nothing. */
  function WithQuantity(lines: seq<CartLine>, id: string, q: int, size: string): seq<CartLine> {
    var k := FindIndex(lines, id, size);
    if k == -1 then lines
    else if q < 1 then Removed(lines, id, size)
    else lines[k := lines[k].(quantity := q)]
  }

  // ---------------------------------------------------------------------
  // Aggregates

  lemma {:induction false} TotalAppend(a: seq<CartLine>, b: seq<CartLine>)
    ensures TotalPrice(a + b) == TotalPrice(a) + TotalPrice(b)
    ensures ItemCount(a + b) == ItemCount(a) + ItemCount(b)
  {
    if b != [] {
      var b' := b[..|b| - 1];
      assert (a + b)[..|a + b| - 1] == a + b';
      assert (a + b)[|a + b| - 1] == b[|b| - 1];
      TotalAppend(a, b');
      assert TotalPrice(a + b) == TotalPrice(a + b') + Subtotal(b[|b| - 1]);
      assert ItemCount(a + b) == ItemCount(a + b') + b[|b| - 1].quantity;
    } else {
      assert a + b == a;
    }
  }

  lemma TotalSingle(l: CartLine)
    ensures TotalPrice([l]) == Subtotal(l) && ItemCount([l]) == l.quantity
  {
    assert [l][..0] == [];
  }

  /** Replacing the line at k changes the aggregates by that line alone. */
  lemma TotalReplace(lines: seq<CartLine>, k: nat, l: CartLine)
    requires k < |lines|
    ensures TotalPrice(lines[k := l]) == TotalPrice(lines) - Subtotal(lines[k]) + Subtotal(l)
    ensures ItemCount(lines[k := l]) == ItemCount(lines) - lines[k].quantity + l.quantity
  {
    assert lines == lines[..k] + [lines[k]] + lines[k + 1..];
    assert lines[k := l] == lines[..k] + [l] + lines[k + 1..];
    TotalAppend(lines[..k] + [lines[k]], lines[k + 1..]);
    TotalAppend(lines[..k], [lines[k]]);
    TotalAppend(lines[..k] + [l], lines[k + 1..]);
    TotalAppend(lines[..k], [l]);
    TotalSingle(lines[k]);
    TotalSingle(l);
  }

  /** Splicing out the line at k takes that line's share off the aggregates. */
  lemma TotalSplice(lines: seq<CartLine>, k: nat)
    requires k < |lines|
    ensures TotalPrice(lines[..k] + lines[k + 1..]) == TotalPrice(lines) - Subtotal(lines[k])
    ensures ItemCount(lines[..k] + lines[k + 1..]) == ItemCount(lines) - lines[k].quantity
  {
    var front, upTo, back := lines[..k], lines[..k + 1], lines[k + 1..];
    assert upTo + back == lines;
    TotalAppend(upTo, back);
    assert upTo[..k] == front;
    assert TotalPrice(upTo) == TotalPrice(front) + Subtotal(lines[k]);
    assert ItemCount(upTo) == ItemCount(front) + lines[k].quantity;
    TotalAppend(front, back);
  }

  /** The total and the count are 0 on an empty cart and never negative when
      no price and no quantity is. */
  lemma {:induction false} TotalNonNegative(lines: seq<CartLine>)
    requires forall i :: 0 <= i < |lines| ==> lines[i].price >= 0 && lines[i].quantity >= 0
    ensures lines == [] ==> TotalPrice(lines) == 0 && ItemCount(lines) == 0
    ensures TotalPrice(lines) >= 0 && ItemCount(lines) >= 0
  {
    if lines != [] {
      TotalNonNegative(lines[..|lines| - 1]);
      var l := lines[|lines| - 1];
      assert l.price * l.quantity >= 0;
    }
  }

  /** With every quantity at least 1, the count is at least the number of
      lines; so the count is 0 exactly when the cart is empty. */
  lemma {:induction false} CountAtLeastLines(lines: seq<CartLine>)
    requires PositiveQuantities(lines)
    ensures ItemCount(lines) >= |lines|
    ensures ItemCount(lines) == 0 <==> lines == []
  {
    if lines != [] {
      CountAtLeastLines(lines[..|lines| - 1]);
    }
  }

  // ---------------------------------------------------------------------
  // Lookups

  /** The first match depends only on which lines match. */
  lemma FindIndexSamePattern(a: seq<CartLine>, b: seq<CartLine>, id: string, size: string)
    requires |a| == |b|
    requires forall i :: 0 <= i < |a| ==> (Matches(a[i], id, size) <==> Matches(b[i], id, size))
    ensures FindIndex(a, id, size) == FindIndex(b, id, size)
  {
  }

  /** With unique keys, the line found is the only line for its pair. */
  lemma UniqueFind(lines: seq<CartLine>, id: string, size: string, i: nat)
    requires UniqueKeys(lines) && i < |lines| && Matches(lines[i], id, size)
    ensures FindIndex(lines, id, size) == i
  {
  }

  // ---------------------------------------------------------------------
  // addToCart

  /** Adding a product whose (id, size) is in the cart adds one to that
      line's quantity and adds no line; every other line stays as it was. */
  lemma AddIncrementsExisting(lines: seq<CartLine>, p: Product)
    requires FindIndex(lines, p.id, SizeOrDefault(p.size)) >= 0
    ensures var r := AddedTo(lines, p);
      && |r| == |lines|
      && QuantityOf(r, p.id, SizeOrDefault(p.size)) == QuantityOf(lines, p.id, SizeOrDefault(p.size)) + 1
      && (var k := FindIndex(lines, p.id, SizeOrDefault(p.size));
          r[k] == lines[k].(quantity := lines[k].quantity + 1))
      && forall i :: 0 <= i < |lines| && i != FindIndex(lines, p.id, SizeOrDefault(p.size)) ==> r[i] == lines[i]
  {
    var size := SizeOrDefault(p.size);
    var k := FindIndex(lines, p.id, size);
    var r := AddedTo(lines, p);
    FindIndexSamePattern(lines, r, p.id, size);
  }

  /** Adding a product whose (id, size) is not in the cart appends exactly
      one line: quantity 1, price `parseInt(price) || 0`, image
      `image || ''`; earlier lines are unchanged. */
  lemma AddAppendsNew(lines: seq<CartLine>, p: Product)
    requires FindIndex(lines, p.id, SizeOrDefault(p.size)) == -1
    ensures var r := AddedTo(lines, p);
      && |r| == |lines| + 1
      && r[..|lines|] == lines
      && r[|lines|] == CartLine(p.id, p.name, p.parsedPrice.GetOr(0), p.image.GetOr(""), SizeOrDefault(p.size), 1)
      && QuantityOf(r, p.id, SizeOrDefault(p.size)) == 1
  {
  }

  /** Every add puts exactly one more item in the cart and adds the price of
      the line it touched to the total. */
  lemma AddCountsOne(lines: seq<CartLine>, p: Product)
    ensures ItemCount(AddedTo(lines, p)) == ItemCount(lines) + 1
    ensures var k := FindIndex(lines, p.id, SizeOrDefault(p.size));
      TotalPrice(AddedTo(lines, p)) == TotalPrice(lines) + (if k >= 0 then lines[k].price else NewLine(p).price)
  {
    var k := FindIndex(lines, p.id, SizeOrDefault(p.size));
    if k >= 0 {
      OneMoreAt(lines, k);
    } else {
      assert AddedTo(lines, p) == lines + [NewLine(p)];
      TotalAppend(lines, [NewLine(p)]);
      TotalSingle(NewLine(p));
    }
  }

  /** One more of the line at k adds one item and that line's price. */
  lemma OneMoreAt(lines: seq<CartLine>, k: nat)
    requires k < |lines|
    ensures var r := lines[k := lines[k].(quantity := lines[k].quantity + 1)];
      ItemCount(r) == ItemCount(lines) + 1 && TotalPrice(r) == TotalPrice(lines) + lines[k].price
  {
    var l := lines[k].(quantity := lines[k].quantity + 1);
    assert Subtotal(l) == Subtotal(lines[k]) + lines[k].price by {
      assert l.price * (lines[k].quantity + 1) == l.price * lines[k].quantity + l.price;
    }
    TotalReplace(lines, k, l);
  }

  /** Adding a product leaves the quantity of every other (id, size) alone. */
  lemma AddKeepsOtherPairs(lines: seq<CartLine>, p: Product, id: string, size: string)
    requires !(id == p.id && size == SizeOrDefault(p.size))
    ensures QuantityOf(AddedTo(lines, p), id, size) == QuantityOf(lines, id, size)
  {
    var k := FindIndex(lines, p.id, SizeOrDefault(p.size));
    var r := AddedTo(lines, p);
    if k >= 0 {
      FindIndexSamePattern(lines, r, id, size);
    } else {
      var j := FindIndex(lines, id, size);
      if j == -1 {
        assert !Matches(r[|lines|], id, size);
        assert FindIndex(r, id, size) == -1;
      } else {
        assert r[j] == lines[j];
        assert forall i :: 0 <= i < j ==> r[i] == lines[i];
        assert FindIndex(r, id, size) == j;
      }
    }
  }

  /** Adding keeps one line per (id, size) and every quantity positive. */
  lemma AddPreservesWellFormed(lines: seq<CartLine>, p: Product)
    requires WellFormed(lines)
    ensures WellFormed(AddedTo(lines, p))
  {
    var s := SizeOrDefault(p.size);
    var k := FindIndex(lines, p.id, s);
    var r := AddedTo(lines, p);
    if k == -1 {
      forall i, j | 0 <= i < j < |r|
        ensures !Matches(r[j], r[i].id, r[i].size)
      {
        if j == |lines| {
          assert !Matches(lines[i], p.id, s);
        }
      }
    }
  }

  /** The same product added n times to an empty cart: one line, quantity n. */
  function AddRepeatedly(lines: seq<CartLine>, p: Product, n: nat): seq<CartLine> {
    if n == 0 then lines else AddedTo(AddRepeatedly(lines, p, n - 1), p)
  }

  lemma {:induction false} RepeatedAddsCount(p: Product, n: nat)
    requires n >= 1
    ensures AddRepeatedly([], p, n) == [NewLine(p).(quantity := n)]
  {
    if n > 1 {
      RepeatedAddsCount(p, n - 1);
    }
  }

  // ---------------------------------------------------------------------
  // removeFromCart

  /** Removing a present (id, size) deletes exactly the first line for it
      and keeps the others in order, taking that line's items and price off
      the count and the total. An absent pair changes nothing. */
  lemma RemoveDeletesLine(lines: seq<CartLine>, id: string, size: string)
    ensures var k := FindIndex(lines, id, size);
      var r := Removed(lines, id, size);
      && (k == -1 ==> r == lines)
      && (k >= 0 ==> |r| == |lines| - 1 && r[..k] == lines[..k] && r[k..] == lines[k + 1..]
                     && ItemCount(r) == ItemCount(lines) - lines[k].quantity
                     && TotalPrice(r) == TotalPrice(lines) - Subtotal(lines[k]))
  {
    var k := FindIndex(lines, id, size);
    if k >= 0 {
      TotalSplice(lines, k);
      var r := Removed(lines, id, size);
      assert r[..k] == lines[..k];
      assert r[k..] == lines[k + 1..];
    }
  }

  /** With one line per pair, no line for the pair is left after removing it. */
  lemma RemoveLeavesNone(lines: seq<CartLine>, id: string, size: string)
    requires UniqueKeys(lines)
    ensures FindIndex(Removed(lines, id, size), id, size) == -1
  {
    var k := FindIndex(lines, id, size);
    if k >= 0 {
      var r := Removed(lines, id, size);
      forall i | 0 <= i < |r| ensures !Matches(r[i], id, size) {
        if i >= k {
          assert r[i] == lines[i + 1];
          assert !Matches(lines[i + 1], lines[k].id, lines[k].size);
        }
      }
    }
  }

  /** Removing keeps the invariant. */
  lemma RemovePreservesWellFormed(lines: seq<CartLine>, id: string, size: string)
    requires WellFormed(lines)
    ensures WellFormed(Removed(lines, id, size))
  {
    var k := FindIndex(lines, id, size);
    if k >= 0 {
      SpliceWellFormed(lines, k);
    }
  }

  /** Splicing out one line keeps the rest well formed. */
  lemma SpliceWellFormed(lines: seq<CartLine>, k: nat)
    requires WellFormed(lines) && k < |lines|
    ensures WellFormed(lines[..k] + lines[k + 1..])
  {
    var r := lines[..k] + lines[k + 1..];
    forall i | 0 <= i < |r|
      ensures r[i] == lines[if i < k then i else i + 1]
    {
    }
    forall i, j | 0 <= i < j < |r|
      ensures !Matches(r[j], r[i].id, r[i].size)
    {
      var i' := if i < k then i else i + 1;
      var j' := if j < k then j else j + 1;
      assert r[i] == lines[i'] && r[j] == lines[j'];
    }
  }

  // ---------------------------------------------------------------------
  // updateQuantity

  /** A quantity below 1 removes the line, exactly as `removeFromCart` does. */
  lemma SetBelowOneRemoves(lines: seq<CartLine>, id: string, q: int, size: string)
    requires q < 1
    ensures WithQuantity(lines, id, q, size) == Removed(lines, id, size)
  {
  }

  /** A quantity of at least 1 becomes the quantity of the pair's line and
      changes nothing else; a missing line changes nothing at all. */
  lemma SetQuantityOnly(lines: seq<CartLine>, id: string, q: int, size: string)
    requires q >= 1
    ensures var k := FindIndex(lines, id, size);
      var r := WithQuantity(lines, id, q, size);
      && (k == -1 ==> r == lines)
      && (k >= 0 ==> |r| == |lines| && QuantityOf(r, id, size) == q
                     && r[k] == lines[k].(quantity := q)
                     && (forall i :: 0 <= i < |lines| && i != k ==> r[i] == lines[i])
                     && ItemCount(r) == ItemCount(lines) - lines[k].quantity + q)
  {
    var k := FindIndex(lines, id, size);
    if k >= 0 {
      var r := WithQuantity(lines, id, q, size);
      FindIndexSamePattern(lines, r, id, size);
      TotalReplace(lines, k, lines[k].(quantity := q));
    }
  }

  /** Setting a quantity keeps the invariant, whatever the quantity. */
  lemma SetPreservesWellFormed(lines: seq<CartLine>, id: string, q: int, size: string)
    requires WellFormed(lines)
    ensures WellFormed(WithQuantity(lines, id, q, size))
  {
    if q < 1 {
      RemovePreservesWellFormed(lines, id, size);
    }
  }

  // ---------------------------------------------------------------------
  // Worked examples

  /** An empty cart, one hoodie in size M at 2000: one item costing 2000;
      the same again: still one line, quantity 2, total 4000. */
  lemma HoodieTwice()
    ensures var hoodie := Product("p1", "Hoodie", Some(2000), Some(""), Some("M"));
      var once := AddedTo([], hoodie);
      var twice := AddedTo(once, hoodie);
      && ItemCount(once) == 1 && TotalPrice(once) == 2000
      && |twice| == 1 && twice[0].quantity == 2 && TotalPrice(twice) == 4000
  {
    var hoodie := Product("p1", "Hoodie", Some(2000), Some(""), Some("M"));
    var once := AddedTo([], hoodie);
    TotalSingle(once[0]);
    var twice := AddedTo(once, hoodie);
    TotalSingle(twice[0]);
  }
}
