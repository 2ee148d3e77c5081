/**
 * The rows the cart and fulfilment handlers work on, and the pure functions
 * over them: a user's cart lines, their totals, the items an order copies from
 * them, and the stock they consume. Prices are integer cents; quantities are
 * unbounded integers, unchecked as in the handlers, so zero and negative values occur.
 */
module Records {
  import opened Common

  type UserId = int
  type ProductId = int
  type LineId = nat

  /** A catalogue product, as far as the handlers read or write it. */
  datatype Product = Product(price: int, stock: int, active: bool)

  /** A `CartItem` row. */
  datatype CartLine = CartLine(id: LineId, user: UserId, product: ProductId, quantity: int)

  /** An `OrderItem` or `BookingItem` row: the product, the quantity and the unit price copied at creation. */
  datatype Item = Item(product: ProductId, quantity: int, price: int)

  /** A pickup date that parsed as year, month and day. */
  datatype Date = Date(year: int, month: int, day: int)

  datatype Order = Order(
    number: string,
    total: int,
    paymentMethod: string,
    shippingAddress: string,
    user: UserId,
    status: string,
    items: seq<Item>)

  datatype Booking = Booking(number: string, total: int, pickupDate: Date, user: UserId, items: seq<Item>)

  /**
   * The status the model gives every new order. The handler sets none; the
   * order table's default supplies it, and that table is not part of this model.
   */
  const PendingStatus: string := "Pending"

  predicate SamePair(a: CartLine, b: CartLine) {
    a.user == b.user && a.product == b.product
  }

  /**
   * The cart table in row order: ids strictly increase, and no two lines
   * share a (user, product) pair.
   */
  predicate WellFormed(c: seq<CartLine>) {
    forall i, j :: 0 <= i < j < |c| ==> c[i].id < c[j].id && !SamePair(c[i], c[j])
  }

  /** No two lines of `lines` are for the same product. */
  predicate DistinctProducts(lines: seq<CartLine>) {
    forall i, j :: 0 <= i < j < |lines| ==> lines[i].product != lines[j].product
  }

  /** The user's lines, in row order. */
  function LinesOf(c: seq<CartLine>, u: UserId): (r: seq<CartLine>)
    ensures forall l :: l in r <==> l in c && l.user == u
    ensures |r| <= |c|
  {
    if c == [] then []
    else if c[0].user == u then [c[0]] + LinesOf(c[1..], u)
    else LinesOf(c[1..], u)
  }

  /** The rows that remain once every line of user `u` is deleted. */
  function LinesNotOf(c: seq<CartLine>, u: UserId): (r: seq<CartLine>)
    ensures forall l :: l in r <==> l in c && l.user != u
    ensures |r| <= |c|
  {
    if c == [] then []
    else if c[0].user != u then [c[0]] + LinesNotOf(c[1..], u)
    else LinesNotOf(c[1..], u)
  }

  /** The position of the line with the given primary key. */
  function IndexOfLine(c: seq<CartLine>, id: LineId): (r: Option<nat>)
    ensures r.Some? ==> r.value < |c| && c[r.value].id == id
    ensures r.Some? ==> forall j :: 0 <= j < r.value ==> c[j].id != id
    ensures r.None? ==> forall j :: 0 <= j < |c| ==> c[j].id != id
  {
    if c == [] then None
    else if c[0].id == id then Some(0)
    else match IndexOfLine(c[1..], id)
      case None => None
      case Some(k) => Some(k + 1)
  }

  /** The position of the first line for (u, p). */
  function FindLine(c: seq<CartLine>, u: UserId, p: ProductId): (r: Option<nat>)
    ensures r.Some? ==> r.value < |c| && c[r.value].user == u && c[r.value].product == p
    ensures r.Some? ==> forall j :: 0 <= j < r.value ==> !(c[j].user == u && c[j].product == p)
    ensures r.None? ==> forall j :: 0 <= j < |c| ==> !(c[j].user == u && c[j].product == p)
  {
    if c == [] then None
    else if c[0].user == u && c[0].product == p then Some(0)
    else match FindLine(c[1..], u, p)
      case None => None
      case Some(k) => Some(k + 1)
  }

  /** The line with the given id, if there is one. */
  function LineWithId(c: seq<CartLine>, id: LineId): Option<CartLine> {
    match IndexOfLine(c, id)
    case Some(k) => Some(c[k])
    case None => None
  }

  /** The line for (u, p), if there is one. */
  function LineFor(c: seq<CartLine>, u: UserId, p: ProductId): Option<CartLine> {
    match FindLine(c, u, p)
    case Some(k) => Some(c[k])
    case None => None
  }

  predicate AllKnown(lines: seq<CartLine>, products: map<ProductId, Product>) {
    forall l :: l in lines ==> l.product in products
  }

  /** What the lines cost at the products' current prices. */
  function LinesTotal(lines: seq<CartLine>, products: map<ProductId, Product>): int
    requires AllKnown(lines, products)
  {
    if lines == [] then 0
    else
      var last := lines[|lines| - 1];
      assert last in lines;
      LinesTotal(lines[..|lines| - 1], products) + products[last.product].price * last.quantity
  }

  /** The items an order copies from the lines: product, quantity and the current unit price, in order. */
  function ItemsFor(lines: seq<CartLine>, products: map<ProductId, Product>): (r: seq<Item>)
    requires AllKnown(lines, products)
    ensures |r| == |lines|
    ensures forall i :: 0 <= i < |lines| ==>
      r[i].product == lines[i].product && r[i].quantity == lines[i].quantity &&
      r[i].price == products[lines[i].product].price
  {
    if lines == [] then []
    else
      var last := lines[|lines| - 1];
      assert last in lines;
      ItemsFor(lines[..|lines| - 1], products) + [Item(last.product, last.quantity, products[last.product].price)]
  }

  /** What a record's items add up to, each at its copied unit price. */
  function ItemsTotal(items: seq<Item>): int {
    if items == [] then 0
    else ItemsTotal(items[..|items| - 1]) + items[|items| - 1].price * items[|items| - 1].quantity
  }

  /** The total quantity that `lines` ask of product `p`. */
  function QuantityFor(lines: seq<CartLine>, p: ProductId): int {
    if lines == [] then 0
    else QuantityFor(lines[..|lines| - 1], p) + (if lines[|lines| - 1].product == p then lines[|lines| - 1].quantity else 0)
  }

  /** The catalogue after one line has lowered its product's stock by its quantity. */
  function Take(products: map<ProductId, Product>, x: CartLine): (r: map<ProductId, Product>)
    requires x.product in products
    ensures r.Keys == products.Keys
    ensures forall p :: p in r ==> r[p].price == products[p].price
  {
    products[x.product := products[x.product].(stock := products[x.product].stock - x.quantity)]
  }

  /** The catalogue after each line, in order, has lowered its product's stock by its quantity. */
  function Reserve(products: map<ProductId, Product>, lines: seq<CartLine>): (r: map<ProductId, Product>)
    requires AllKnown(lines, products)
    ensures r.Keys == products.Keys
    ensures forall p :: p in r ==> r[p].price == products[p].price
  {
    if lines == [] then products
    else
      var last := lines[|lines| - 1];
      assert last in lines;
      Take(Reserve(products, lines[..|lines| - 1]), last)
  }

  /** A record whose total is what its items add up to. */
  predicate Reconciles(total: int, items: seq<Item>) {
    ItemsTotal(items) == total
  }

  // ---------------------------------------------------------------------------
  // Lemmas

  /**
   * Reserving changes nothing but stock, and lowers each product's stock by
   * exactly what the lines ask of that product.
   */
  lemma {:induction false} ReserveStock(products: map<ProductId, Product>, lines: seq<CartLine>)
    requires AllKnown(lines, products)
    ensures forall p :: p in products ==>
      Reserve(products, lines)[p] == products[p].(stock := products[p].stock - QuantityFor(lines, p))
  {
    if lines != [] {
      var init := lines[..|lines| - 1];
      assert AllKnown(init, products) by {
        forall l | l in init ensures l.product in products { assert l in lines; }
      }
      ReserveStock(products, init);
    }
  }

  /** Reserving and copying one line more extends what the earlier lines gave by that line. */
  lemma ExtendPrefix(products: map<ProductId, Product>, lines: seq<CartLine>, i: nat)
    requires AllKnown(lines, products) && i < |lines|
    ensures AllKnown(lines[..i], products) && AllKnown(lines[..i + 1], products)
    ensures Reserve(products, lines[..i + 1]) == Take(Reserve(products, lines[..i]), lines[i])
    ensures ItemsFor(lines[..i + 1], products) ==
      ItemsFor(lines[..i], products) + [Item(lines[i].product, lines[i].quantity, products[lines[i].product].price)]
  {
    assert lines[..i + 1][..i] == lines[..i];
    assert forall l :: l in lines[..i + 1] ==> l in lines;
  }

  /** The first line matching (u, p) is what FindLine returns. */
  lemma FindLineFirst(c: seq<CartLine>, u: UserId, p: ProductId, k: nat)
    requires k < |c| && c[k].user == u && c[k].product == p
    requires forall j :: 0 <= j < k ==> !(c[j].user == u && c[j].product == p)
    ensures FindLine(c, u, p) == Some(k)
  {
  }

  /** In a well-formed table, any line for (u, p) is the one FindLine returns. */
  lemma FindLineExact(c: seq<CartLine>, k: nat)
    requires WellFormed(c) && k < |c|
    ensures FindLine(c, c[k].user, c[k].product) == Some(k)
  {
    var r := FindLine(c, c[k].user, c[k].product);
    if r.Some? && r.value < k {
      assert SamePair(c[r.value], c[k]);
    }
  }

  /** FindLine depends only on the (user, product) pair of each position. */
  lemma FindLineDeterminedByPairs(c: seq<CartLine>, d: seq<CartLine>, u: UserId, p: ProductId)
    requires |c| == |d| && forall i :: 0 <= i < |c| ==> SamePair(c[i], d[i])
    ensures FindLine(c, u, p) == FindLine(d, u, p)
  {
    match FindLine(c, u, p)
    case Some(k) => FindLineFirst(d, u, p, k);
    case None =>
  }

  /** Appending a line: lookups of its own pair find it if nothing did before, other lookups are unchanged. */
  lemma FindLineAppend(c: seq<CartLine>, x: CartLine, u: UserId, p: ProductId)
    ensures FindLine(c + [x], u, p) ==
      if FindLine(c, u, p).Some? then FindLine(c, u, p)
      else if x.user == u && x.product == p then Some(|c|)
      else None
  {
    var d := c + [x];
    assert forall j :: 0 <= j < |c| ==> d[j] == c[j];
    match FindLine(c, u, p)
    case Some(k) => FindLineFirst(d, u, p, k);
    case None =>
      if x.user == u && x.product == p {
        FindLineFirst(d, u, p, |c|);
      }
  }

  /** The first line with the given id is what IndexOfLine returns. */
  lemma IndexOfLineFirst(c: seq<CartLine>, id: LineId, k: nat)
    requires k < |c| && c[k].id == id
    requires forall j :: 0 <= j < k ==> c[j].id != id
    ensures IndexOfLine(c, id) == Some(k)
  {
  }

  /** In a well-formed table, every line is found by its id. */
  lemma IndexOfLineExact(c: seq<CartLine>, k: nat)
    requires WellFormed(c) && k < |c|
    ensures IndexOfLine(c, c[k].id) == Some(k)
  {
    IndexOfLineFirst(c, c[k].id, k);
  }

  /** Lookup by id depends only on the id at each position. */
  lemma IndexOfLineDeterminedByIds(c: seq<CartLine>, d: seq<CartLine>, id: LineId)
    requires |c| == |d| && forall i :: 0 <= i < |c| ==> c[i].id == d[i].id
    ensures IndexOfLine(c, id) == IndexOfLine(d, id)
  {
    match IndexOfLine(c, id)
    case Some(k) => IndexOfLineFirst(d, id, k);
    case None =>
  }

  /** Deleting the line at position k removes its id from the table and leaves every other id's line as it was. */
  lemma LineWithIdAfterRemove(c: seq<CartLine>, k: nat, id: LineId)
    requires WellFormed(c) && k < |c|
    ensures LineWithId(c[..k] + c[k + 1..], id) == if id == c[k].id then None else LineWithId(c, id)
  {
    var d := c[..k] + c[k + 1..];
    WellFormedRemove(c, k);
    assert forall i :: 0 <= i < |d| ==> d[i] == c[if i < k then i else i + 1];
    match IndexOfLine(c, id)
    case Some(j) =>
      if j != k {
        var j' := if j < k then j else j - 1;
        assert d[j'] == c[j];
        IndexOfLineExact(d, j');
      }
    case None =>
  }

  /** The items copied from the lines add up to the total charged for the lines. */
  lemma {:induction false} ItemsTotalMatchesLines(lines: seq<CartLine>, products: map<ProductId, Product>)
    requires AllKnown(lines, products)
    ensures ItemsTotal(ItemsFor(lines, products)) == LinesTotal(lines, products)
  {
    if lines != [] {
      var init := lines[..|lines| - 1];
      assert AllKnown(init, products) by {
        forall l | l in init ensures l.product in products { assert l in lines; }
      }
      ItemsTotalMatchesLines(init, products);
      var items := ItemsFor(lines, products);
      assert items[..|items| - 1] == ItemsFor(init, products);
    }
  }

  /** A single line for `p` among lines of distinct products is all that is asked of `p`. */
  lemma {:induction false} QuantityForOneLine(lines: seq<CartLine>, k: nat)
    requires DistinctProducts(lines)
    requires k < |lines|
    ensures QuantityFor(lines, lines[k].product) == lines[k].quantity
  {
    var n := |lines| - 1;
    var init := lines[..n];
    if k < n {
      assert init[k] == lines[k];
      QuantityForOneLine(init, k);
      assert lines[n].product != lines[k].product;
    } else {
      QuantityForAbsent(init, lines[k].product);
    }
  }

  /** Lines that never name `p` ask nothing of it. */
  lemma {:induction false} QuantityForAbsent(lines: seq<CartLine>, p: ProductId)
    requires forall i :: 0 <= i < |lines| ==> lines[i].product != p
    ensures QuantityFor(lines, p) == 0
  {
    if lines != [] {
      var init := lines[..|lines| - 1];
      assert forall i :: 0 <= i < |init| ==> init[i] == lines[i];
      QuantityForAbsent(init, p);
    }
  }

  /** The lines after the first of a well-formed table are well formed and come after it. */
  lemma WellFormedTail(c: seq<CartLine>)
    requires WellFormed(c) && c != []
    ensures WellFormed(c[1..])
    ensures forall y :: y in c[1..] ==> c[0].id < y.id && !SamePair(c[0], y)
  {
    var rest := c[1..];
    forall i, j | 0 <= i < j < |rest| ensures rest[i].id < rest[j].id && !SamePair(rest[i], rest[j]) {
      assert rest[i] == c[i + 1] && rest[j] == c[j + 1];
    }
    forall y | y in rest ensures c[0].id < y.id && !SamePair(c[0], y) {
      var m :| 0 <= m < |rest| && rest[m] == y;
      assert c[m + 1] == y;
    }
  }

  /** A line before a well-formed table, preceding every line there and sharing no pair, keeps it well formed. */
  lemma WellFormedCons(x: CartLine, tail: seq<CartLine>)
    requires WellFormed(tail)
    requires forall y :: y in tail ==> x.id < y.id && !SamePair(x, y)
    ensures WellFormed([x] + tail)
  {
    var r := [x] + tail;
    forall i, j | 0 <= i < j < |r| ensures r[i].id < r[j].id && !SamePair(r[i], r[j]) {
      assert r[j] == tail[j - 1] && r[j] in tail;
      if i > 0 { assert r[i] == tail[i - 1]; }
    }
  }

  /** Appending a line with a larger id and a new pair keeps the table well formed. */
  lemma WellFormedSnoc(c: seq<CartLine>, x: CartLine)
    requires WellFormed(c)
    requires forall y :: y in c ==> y.id < x.id && !SamePair(y, x)
    ensures WellFormed(c + [x])
  {
    var r := c + [x];
    forall i, j | 0 <= i < j < |r| ensures r[i].id < r[j].id && !SamePair(r[i], r[j]) {
      assert r[i] == c[i] && c[i] in c;
      if j < |c| { assert r[j] == c[j]; }
    }
  }

  /** Changing one line's quantity keeps the table well formed. */
  lemma WellFormedSetQuantity(c: seq<CartLine>, k: nat, q: int)
    requires WellFormed(c) && k < |c|
    ensures WellFormed(c[k := c[k].(quantity := q)])
  {
    var r := c[k := c[k].(quantity := q)];
    forall i, j | 0 <= i < j < |r| ensures r[i].id < r[j].id && !SamePair(r[i], r[j]) {
      assert r[i].id == c[i].id && SamePair(r[i], c[i]);
      assert r[j].id == c[j].id && SamePair(r[j], c[j]);
    }
  }

  /** Deleting one line keeps the table well formed, and every remaining line was there before. */
  lemma WellFormedRemove(c: seq<CartLine>, k: nat)
    requires WellFormed(c) && k < |c|
    ensures WellFormed(c[..k] + c[k + 1..])
    ensures forall l :: l in c[..k] + c[k + 1..] ==> l in c
  {
    var r := c[..k] + c[k + 1..];
    assert forall i :: 0 <= i < |r| ==> r[i] == c[if i < k then i else i + 1];
    forall i, j | 0 <= i < j < |r| ensures r[i].id < r[j].id && !SamePair(r[i], r[j]) {
      var i', j' := (if i < k then i else i + 1), (if j < k then j else j + 1);
      assert r[i] == c[i'] && r[j] == c[j'] && i' < j';
    }
  }

  /** Keeping only one user's lines keeps the table well formed. */
  lemma {:induction false} LinesOfWellFormed(c: seq<CartLine>, u: UserId)
    requires WellFormed(c)
    ensures WellFormed(LinesOf(c, u))
  {
    if c != [] {
      WellFormedTail(c);
      LinesOfWellFormed(c[1..], u);
      if c[0].user == u {
        WellFormedCons(c[0], LinesOf(c[1..], u));
      }
    }
  }

  /** Dropping one user's lines keeps the table well formed. */
  lemma {:induction false} LinesNotOfWellFormed(c: seq<CartLine>, u: UserId)
    requires WellFormed(c)
    ensures WellFormed(LinesNotOf(c, u))
  {
    if c != [] {
      WellFormedTail(c);
      LinesNotOfWellFormed(c[1..], u);
      if c[0].user != u {
        WellFormedCons(c[0], LinesNotOf(c[1..], u));
      }
    }
  }

  /** In a well-formed table, one user's lines are for distinct products. */
  lemma UserLinesDistinctProducts(c: seq<CartLine>, u: UserId)
    requires WellFormed(c)
    ensures DistinctProducts(LinesOf(c, u))
  {
    LinesOfWellFormed(c, u);
    var lines := LinesOf(c, u);
    forall i, j | 0 <= i < j < |lines| ensures lines[i].product != lines[j].product {
      assert lines[i] in lines && lines[j] in lines;
      assert !SamePair(lines[i], lines[j]);
    }
  }

  /** Dropping user `u`'s lines leaves every other user's lines as they were, in the same order. */
  lemma {:induction false} OtherUsersKeepLines(c: seq<CartLine>, u: UserId, v: UserId)
    requires u != v
    ensures LinesOf(LinesNotOf(c, u), v) == LinesOf(c, v)
  {
    if c != [] {
      OtherUsersKeepLines(c[1..], u, v);
      if c[0].user != u {
        assert ([c[0]] + LinesNotOf(c[1..], u))[1..] == LinesNotOf(c[1..], u);
      }
    }
  }

  /** A user's lines keep the row order of the table: in a well-formed table their ids increase. */
  lemma {:induction false} LinesOfKeepsOrder(c: seq<CartLine>, u: UserId)
    requires WellFormed(c)
    ensures forall i, j :: 0 <= i < j < |LinesOf(c, u)| ==> LinesOf(c, u)[i].id < LinesOf(c, u)[j].id
  {
    if c != [] {
      var rest := LinesOf(c[1..], u);
      LinesOfKeepsOrder(c[1..], u);
      if c[0].user == u {
        forall l | l in rest ensures c[0].id < l.id {
          var j :| 0 <= j < |c[1..]| && c[1..][j] == l;
          assert c[j + 1] == l;
        }
      }
    }
  }

  /** After dropping user `u`'s lines, `u` has none left. */
  lemma NoLinesLeft(c: seq<CartLine>, u: UserId)
    ensures LinesOf(LinesNotOf(c, u), u) == []
  {
  }

  /** What a user's lines ask of a product is the quantity of the user's line for it, or nothing. */
  lemma QuantityForUser(c: seq<CartLine>, u: UserId, p: ProductId)
    requires WellFormed(c)
    ensures QuantityFor(LinesOf(c, u), p) == match LineFor(c, u, p) case Some(l) => l.quantity case None => 0
  {
    var lines := LinesOf(c, u);
    UserLinesDistinctProducts(c, u);
    match FindLine(c, u, p)
    case Some(k) =>
      assert c[k] in lines;
      var i :| 0 <= i < |lines| && lines[i] == c[k];
      QuantityForOneLine(lines, i);
    case None =>
      forall i | 0 <= i < |lines| ensures lines[i].product != p {
        assert lines[i] in lines;
      }
      QuantityForAbsent(lines, p);
  }

  /**
   * Stock after a checkout stays non-negative when every line of the user asks
   * no more than its product's stock and the lines are for distinct products.
   */
  lemma CheckoutStockNonNegative(lines: seq<CartLine>, products: map<ProductId, Product>)
    requires DistinctProducts(lines)
    requires forall l :: l in lines ==> l.product in products && l.quantity <= products[l.product].stock
    requires forall p :: p in products ==> products[p].stock >= 0
    ensures forall p :: p in products ==> products[p].stock - QuantityFor(lines, p) >= 0
  {
    forall p | p in products ensures products[p].stock - QuantityFor(lines, p) >= 0 {
      if k :| 0 <= k < |lines| && lines[k].product == p {
        QuantityForOneLine(lines, k);
        assert lines[k] in lines;
      } else {
        QuantityForAbsent(lines, p);
      }
    }
  }
}
