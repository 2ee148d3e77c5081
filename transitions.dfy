/**
 * The store's tables as one value, and each request handler as a function
 * from the tables before its commit to its reply and the tables after it.
 * The lemmas here state what each handler promises.
 */
module Transitions {
  import opened Common
  import opened Records
  import opened References

  /** What a handler reports back (the message it flashes, or success). */
  datatype Status =
    | Success
    | NotFound           // `get_or_404` found no row
    | InsufficientStock  // "Not enough stock available"
    | Unauthorized       // "Unauthorized action": another user's cart line
    | EmptyCart          // "Your cart is empty"
    | InvalidPickupDate  // `strptime` rejected the pickup date
    | AccessDenied       // the caller is not an administrator

  /** The product, cart, order and booking tables; an order's or booking's id is its position. */
  datatype Tables = Tables(
    products: map<ProductId, Product>,
    cart: seq<CartLine>,
    nextLineId: LineId,
    orders: seq<Order>,
    bookings: seq<Booking>)

  /** A handler's reply and the tables after its commit. */
  datatype Step = Step(status: Status, tables: Tables)

  predicate OrdersReconcile(orders: seq<Order>) {
    forall k :: 0 <= k < |orders| ==> Reconciles(orders[k].total, orders[k].items)
  }

  predicate BookingsReconcile(bookings: seq<Booking>) {
    forall k :: 0 <= k < |bookings| ==> Reconciles(bookings[k].total, bookings[k].items)
  }

  /**
   * The invariant every handler keeps: the cart table is well formed, every
   * line refers to a product and has an id below the next one handed out, and
   * every record's total is what its items add up to.
   */
  predicate Consistent(t: Tables) {
    WellFormed(t.cart) &&
    (forall l :: l in t.cart ==> l.id < t.nextLineId && l.product in t.products) &&
    OrdersReconcile(t.orders) && BookingsReconcile(t.bookings)
  }

  /** The running total the cart and checkout pages show: the user's lines at today's prices. */
  function CartTotal(t: Tables, user: UserId): int
    requires AllKnown(t.cart, t.products)
  {
    LinesTotal(LinesOf(t.cart, user), t.products)
  }

  // ---------------------------------------------------------------- add_to_cart

  function AddToCart(t: Tables, user: UserId, productId: ProductId, quantity: int): Step {
    if productId !in t.products then Step(NotFound, t)
    else if t.products[productId].stock < quantity then Step(InsufficientStock, t)
    else match FindLine(t.cart, user, productId)
      case Some(k) =>
        Step(Success, t.(cart := t.cart[k := t.cart[k].(quantity := t.cart[k].quantity + quantity)]))
      case None =>
        Step(Success, t.(cart := t.cart + [CartLine(t.nextLineId, user, productId, quantity)],
                         nextLineId := t.nextLineId + 1))
  }

  /** `add_to_cart` refuses an unknown product and a request above the stock, and then changes nothing. */
  lemma AddToCartRefusals(t: Tables, user: UserId, productId: ProductId, quantity: int)
    ensures var r := AddToCart(t, user, productId, quantity);
      (r.status == NotFound <==> productId !in t.products) &&
      (r.status == InsufficientStock <==> productId in t.products && t.products[productId].stock < quantity) &&
      (r.status != Success ==> r.tables == t) &&
      r.tables.products == t.products && r.tables.orders == t.orders && r.tables.bookings == t.bookings
  {
  }

  /**
   * An accepted `add_to_cart` adds the quantity to the user's line for the
   * product, or creates that line with the next id; every other (user,
   * product) pair keeps its line.
   */
  lemma AddToCartMerges(t: Tables, user: UserId, productId: ProductId, quantity: int)
    requires Consistent(t)
    requires productId in t.products && quantity <= t.products[productId].stock
    ensures var r := AddToCart(t, user, productId, quantity);
      r.status == Success &&
      LineFor(r.tables.cart, user, productId) ==
        (match LineFor(t.cart, user, productId)
         case Some(l) => Some(l.(quantity := l.quantity + quantity))
         case None => Some(CartLine(t.nextLineId, user, productId, quantity))) &&
      (forall u, p :: u != user || p != productId ==> LineFor(r.tables.cart, u, p) == LineFor(t.cart, u, p)) &&
      |r.tables.cart| == |t.cart| + (if LineFor(t.cart, user, productId).Some? then 0 else 1)
  {
    var c := AddToCart(t, user, productId, quantity).tables.cart;
    match FindLine(t.cart, user, productId) {
      case Some(k) =>
        forall u, p ensures FindLine(c, u, p) == FindLine(t.cart, u, p) {
          FindLineDeterminedByPairs(t.cart, c, u, p);
        }
      case None =>
        var x := CartLine(t.nextLineId, user, productId, quantity);
        assert c == t.cart + [x];
        forall u, p ensures FindLine(c, u, p) == if FindLine(t.cart, u, p).Some? then FindLine(t.cart, u, p)
          else if u == user && p == productId then Some(|t.cart|) else None {
          FindLineAppend(t.cart, x, u, p);
        }
        forall u, p | FindLine(t.cart, u, p).Some? ensures c[FindLine(t.cart, u, p).value] == t.cart[FindLine(t.cart, u, p).value] {
        }
    }
  }

  lemma AddToCartKeepsConsistent(t: Tables, user: UserId, productId: ProductId, quantity: int)
    requires Consistent(t)
    ensures Consistent(AddToCart(t, user, productId, quantity).tables)
  {
    if productId in t.products && quantity <= t.products[productId].stock {
      match FindLine(t.cart, user, productId) {
        case Some(k) =>
          WellFormedSetQuantity(t.cart, k, t.cart[k].quantity + quantity);
          var c := t.cart[k := t.cart[k].(quantity := t.cart[k].quantity + quantity)];
          forall l | l in c ensures l.id < t.nextLineId && l.product in t.products {
            var j :| 0 <= j < |c| && c[j] == l;
            assert t.cart[j] in t.cart;
          }
        case None =>
          var line := CartLine(t.nextLineId, user, productId, quantity);
          forall y | y in t.cart ensures y.id < line.id && !SamePair(y, line) {
            var j :| 0 <= j < |t.cart| && t.cart[j] == y;
          }
          WellFormedSnoc(t.cart, line);
      }
    }
  }

  // ---------------------------------------------------------------- update_cart

  function UpdateCart(t: Tables, user: UserId, lineId: LineId, action: string, quantity: int): Step {
    match IndexOfLine(t.cart, lineId)
    case None => Step(NotFound, t)
    case Some(k) =>
      if t.cart[k].user != user then Step(Unauthorized, t)
      else if action == "update" then
        if quantity <= 0 then Step(Success, t.(cart := t.cart[..k] + t.cart[k + 1..]))
        else Step(Success, t.(cart := t.cart[k := t.cart[k].(quantity := quantity)]))
      else if action == "remove" then Step(Success, t.(cart := t.cart[..k] + t.cart[k + 1..]))
      else Step(Success, t)
  }

  /** `update_cart` refuses a missing line and another user's line, and touches nothing but the cart. */
  lemma UpdateCartRefusals(t: Tables, user: UserId, lineId: LineId, action: string, quantity: int)
    ensures var r := UpdateCart(t, user, lineId, action, quantity);
      (r.status == NotFound <==> LineWithId(t.cart, lineId).None?) &&
      (r.status == Unauthorized <==>
        LineWithId(t.cart, lineId).Some? && LineWithId(t.cart, lineId).value.user != user) &&
      (r.status != Success ==> r.tables == t) &&
      r.tables == t.(cart := r.tables.cart)
  {
  }

  /**
   * On the caller's own line, "update" with a positive quantity sets it,
   * "update" with zero or less and "remove" delete the line, and any other
   * action leaves it; every other line stays as it was.
   */
  lemma UpdateCartEffect(t: Tables, user: UserId, lineId: LineId, action: string, quantity: int)
    requires Consistent(t)
    requires LineWithId(t.cart, lineId).Some? && LineWithId(t.cart, lineId).value.user == user
    ensures var r := UpdateCart(t, user, lineId, action, quantity);
      var line := LineWithId(t.cart, lineId).value;
      r.status == Success &&
      LineWithId(r.tables.cart, lineId) ==
        (if (action == "update" && quantity <= 0) || action == "remove" then None
         else if action == "update" then Some(line.(quantity := quantity))
         else Some(line)) &&
      forall id :: id != lineId ==> LineWithId(r.tables.cart, id) == LineWithId(t.cart, id)
  {
    var k := IndexOfLine(t.cart, lineId).value;
    var c := UpdateCart(t, user, lineId, action, quantity).tables.cart;
    if (action == "update" && quantity <= 0) || action == "remove" {
      forall id ensures LineWithId(c, id) == if id == t.cart[k].id then None else LineWithId(t.cart, id) {
        LineWithIdAfterRemove(t.cart, k, id);
      }
    } else if action == "update" {
      forall id ensures IndexOfLine(c, id) == IndexOfLine(t.cart, id) {
        IndexOfLineDeterminedByIds(t.cart, c, id);
      }
    }
  }

  lemma UpdateCartKeepsConsistent(t: Tables, user: UserId, lineId: LineId, action: string, quantity: int)
    requires Consistent(t)
    ensures Consistent(UpdateCart(t, user, lineId, action, quantity).tables)
  {
    match IndexOfLine(t.cart, lineId) {
      case None =>
      case Some(k) =>
        if t.cart[k].user == user {
          WellFormedRemove(t.cart, k);
          WellFormedSetQuantity(t.cart, k, quantity);
          var c := t.cart[k := t.cart[k].(quantity := quantity)];
          forall l | l in c ensures l.id < t.nextLineId && l.product in t.products {
            var j :| 0 <= j < |c| && c[j] == l;
            assert t.cart[j] in t.cart;
          }
        }
    }
  }

  // ---------------------------------------------------------------- checkout

  function Checkout(t: Tables, user: UserId, paymentMethod: string, shippingAddress: string, digits: string): Step
    requires AllKnown(t.cart, t.products) && IsDigitString(digits)
  {
    var lines := LinesOf(t.cart, user);
    if lines == [] then Step(EmptyCart, t)
    else
      var order := Order(OrderNumber(digits), LinesTotal(lines, t.products), paymentMethod, shippingAddress,
                         user, PendingStatus, ItemsFor(lines, t.products));
      Step(Success, t.(products := Reserve(t.products, lines),
                       cart := LinesNotOf(t.cart, user),
                       orders := t.orders + [order]))
  }

  /**
   * `checkout` refuses an empty cart and then changes nothing; otherwise it
   * appends one pending order that charges the total the checkout page showed
   * and holds one item per line of the user, in row order, at the current price.
   */
  lemma CheckoutRecordsOrder(t: Tables, user: UserId, paymentMethod: string, shippingAddress: string, digits: string)
    requires AllKnown(t.cart, t.products) && IsDigitString(digits)
    ensures var r := Checkout(t, user, paymentMethod, shippingAddress, digits);
      var lines := LinesOf(t.cart, user);
      (r.status == EmptyCart <==> lines == []) &&
      (lines == [] ==> r.tables == t) &&
      (lines != [] ==>
        r.status == Success &&
        |r.tables.orders| == |t.orders| + 1 && r.tables.orders[..|t.orders|] == t.orders &&
        var o := r.tables.orders[|t.orders|];
        o.number == OrderNumber(digits) && o.user == user && o.status == PendingStatus &&
        o.paymentMethod == paymentMethod && o.shippingAddress == shippingAddress &&
        o.total == CartTotal(t, user) && Reconciles(o.total, o.items) &&
        |o.items| == |lines| &&
        forall i :: 0 <= i < |lines| ==>
          o.items[i] == Item(lines[i].product, lines[i].quantity, t.products[lines[i].product].price))
  {
    var lines := LinesOf(t.cart, user);
    if lines != [] {
      ItemsTotalMatchesLines(lines, t.products);
    }
  }

  /**
   * A successful `checkout` lowers the stock of each product the user has a
   * line for by that line's quantity, with no check that so much is left,
   * and leaves every other product as it was.
   */
  lemma CheckoutTakesStock(t: Tables, user: UserId, paymentMethod: string, shippingAddress: string, digits: string)
    requires Consistent(t) && IsDigitString(digits)
    ensures var r := Checkout(t, user, paymentMethod, shippingAddress, digits);
      r.tables.products.Keys == t.products.Keys &&
      forall p :: p in t.products ==>
        r.tables.products[p] ==
          match LineFor(t.cart, user, p)
          case Some(l) => t.products[p].(stock := t.products[p].stock - l.quantity)
          case None => t.products[p]
  {
    var lines := LinesOf(t.cart, user);
    ReserveStock(t.products, lines);
    forall p | p in t.products ensures QuantityFor(lines, p) == match LineFor(t.cart, user, p) case Some(l) => l.quantity case None => 0 {
      QuantityForUser(t.cart, user, p);
    }
  }

  /** `checkout` empties the user's cart, leaves every other user's lines in order, and touches no booking. */
  lemma CheckoutClearsCart(t: Tables, user: UserId, paymentMethod: string, shippingAddress: string, digits: string)
    requires AllKnown(t.cart, t.products) && IsDigitString(digits)
    ensures var r := Checkout(t, user, paymentMethod, shippingAddress, digits);
      LinesOf(r.tables.cart, user) == [] &&
      (forall v :: v != user ==> LinesOf(r.tables.cart, v) == LinesOf(t.cart, v)) &&
      r.tables.nextLineId == t.nextLineId && r.tables.bookings == t.bookings
  {
    if LinesOf(t.cart, user) != [] {
      NoLinesLeft(t.cart, user);
      forall v | v != user ensures LinesOf(LinesNotOf(t.cart, user), v) == LinesOf(t.cart, v) {
        OtherUsersKeepLines(t.cart, user, v);
      }
    }
  }

  /**
   * Stock stays non-negative through `checkout` when it was, and each of the
   * user's lines asks no more than its product's stock; the handler itself
   * does not ensure the second condition.
   */
  lemma CheckoutKeepsStockWhenCovered(t: Tables, user: UserId, paymentMethod: string, shippingAddress: string, digits: string)
    requires Consistent(t) && IsDigitString(digits)
    requires forall p :: p in t.products ==> t.products[p].stock >= 0
    requires forall l :: l in t.cart && l.user == user ==> l.quantity <= t.products[l.product].stock
    ensures var r := Checkout(t, user, paymentMethod, shippingAddress, digits);
      forall p :: p in r.tables.products ==> r.tables.products[p].stock >= 0
  {
    var lines := LinesOf(t.cart, user);
    UserLinesDistinctProducts(t.cart, user);
    CheckoutStockNonNegative(lines, t.products);
    ReserveStock(t.products, lines);
  }

  /**
   * Two accepted `add_to_cart` requests for the last unit put a line for two
   * units in the cart, and `checkout` then takes the stock to -1.
   */
  lemma CheckoutCanOversell()
    ensures var t0 := Tables(map[1 := Product(2500, 1, true)], [], 1, [], []);
      var s1 := AddToCart(t0, 7, 1, 1);
      var s2 := AddToCart(s1.tables, 7, 1, 1);
      var s3 := Checkout(s2.tables, 7, "card", "1 Main St", "12345678");
      Consistent(t0) && s1.status == Success && s2.status == Success && s3.status == Success &&
      s3.tables.products[1].stock == -1
  {
    var t0 := Tables(map[1 := Product(2500, 1, true)], [], 1, [], []);
    var t1 := AddToCart(t0, 7, 1, 1).tables;
    assert t1.cart == [CartLine(1, 7, 1, 1)];
    var t2 := AddToCart(t1, 7, 1, 1).tables;
    assert FindLine(t1.cart, 7, 1) == Some(0);
    assert t2.cart == [CartLine(1, 7, 1, 2)];
    assert LinesOf(t2.cart, 7) == [CartLine(1, 7, 1, 2)];
    ReserveStock(t2.products, LinesOf(t2.cart, 7));
  }

  lemma CheckoutKeepsConsistent(t: Tables, user: UserId, paymentMethod: string, shippingAddress: string, digits: string)
    requires Consistent(t) && IsDigitString(digits)
    ensures Consistent(Checkout(t, user, paymentMethod, shippingAddress, digits).tables)
  {
    var lines := LinesOf(t.cart, user);
    if lines != [] {
      LinesNotOfWellFormed(t.cart, user);
      ItemsTotalMatchesLines(lines, t.products);
    }
  }

  // ---------------------------------------------------------------- book_product

  function BookProduct(t: Tables, user: UserId, productId: ProductId, quantity: int, pickup: Option<Date>, digits: string): Step
    requires IsDigitString(digits)
  {
    if productId !in t.products then Step(NotFound, t)
    else
      var p := t.products[productId];
      if p.stock < quantity then Step(InsufficientStock, t)
      else if pickup.None? then Step(InvalidPickupDate, t)
      else
        var booking := Booking(BookingNumber(digits), p.price * quantity, pickup.value, user,
                               [Item(productId, quantity, p.price)]);
        Step(Success, t.(bookings := t.bookings + [booking],
                         products := t.products[productId := p.(stock := p.stock - quantity)]))
  }

  /**
   * `book_product` checks, in this order, that the product exists, that the
   * stock covers the request and that the pickup date parsed; a refusal
   * changes nothing, and the cart and orders are never touched.
   */
  lemma BookProductRefusals(t: Tables, user: UserId, productId: ProductId, quantity: int, pickup: Option<Date>, digits: string)
    requires IsDigitString(digits)
    ensures var r := BookProduct(t, user, productId, quantity, pickup, digits);
      (r.status == NotFound <==> productId !in t.products) &&
      (r.status == InsufficientStock <==> productId in t.products && t.products[productId].stock < quantity) &&
      (r.status == InvalidPickupDate <==>
        productId in t.products && quantity <= t.products[productId].stock && pickup.None?) &&
      (r.status != Success ==> r.tables == t) &&
      r.tables.cart == t.cart && r.tables.nextLineId == t.nextLineId && r.tables.orders == t.orders
  {
  }

  /**
   * An accepted booking appends one booking for the product at its current
   * price, whose total is what its single item adds up to, and lowers only
   * that product's stock, which never goes below zero.
   */
  lemma BookProductRecords(t: Tables, user: UserId, productId: ProductId, quantity: int, pickup: Option<Date>, digits: string)
    requires IsDigitString(digits)
    requires productId in t.products && quantity <= t.products[productId].stock && pickup.Some?
    ensures var r := BookProduct(t, user, productId, quantity, pickup, digits);
      var p := t.products[productId];
      r.status == Success &&
      |r.tables.bookings| == |t.bookings| + 1 && r.tables.bookings[..|t.bookings|] == t.bookings &&
      var b := r.tables.bookings[|t.bookings|];
      b.number == BookingNumber(digits) && b.user == user && b.pickupDate == pickup.value &&
      b.items == [Item(productId, quantity, p.price)] && Reconciles(b.total, b.items) &&
      r.tables.products.Keys == t.products.Keys &&
      r.tables.products[productId] == p.(stock := p.stock - quantity) &&
      r.tables.products[productId].stock >= 0 &&
      forall q :: q in t.products && q != productId ==> r.tables.products[q] == t.products[q]
  {
  }

  lemma BookProductKeepsConsistent(t: Tables, user: UserId, productId: ProductId, quantity: int, pickup: Option<Date>, digits: string)
    requires Consistent(t) && IsDigitString(digits)
    ensures Consistent(BookProduct(t, user, productId, quantity, pickup, digits).tables)
  {
    if productId in t.products {
      var p := t.products[productId];
      assert ItemsTotal([Item(productId, quantity, p.price)]) == p.price * quantity;
    }
  }

  // ---------------------------------------------------------------- admin_update_order_status

  function UpdateOrderStatus(t: Tables, isAdmin: bool, orderId: int, newStatus: string): Step {
    if !isAdmin then Step(AccessDenied, t)
    else if !(0 <= orderId < |t.orders|) then Step(NotFound, t)
    else Step(Success, t.(orders := t.orders[orderId := t.orders[orderId].(status := newStatus)]))
  }

  /**
   * Only an administrator may change an order's status, to any value
   * submitted; the order keeps its number, total and items, and no other
   * order or table changes.
   */
  lemma UpdateOrderStatusEffect(t: Tables, isAdmin: bool, orderId: int, newStatus: string)
    ensures var r := UpdateOrderStatus(t, isAdmin, orderId, newStatus);
      (r.status == AccessDenied <==> !isAdmin) &&
      (r.status == NotFound <==> isAdmin && !(0 <= orderId < |t.orders|)) &&
      (r.status != Success ==> r.tables == t) &&
      r.tables == t.(orders := r.tables.orders) && |r.tables.orders| == |t.orders| &&
      (r.status == Success ==>
        var o, o' := t.orders[orderId], r.tables.orders[orderId];
        o' == o.(status := newStatus)) &&
      forall k :: 0 <= k < |t.orders| && k != orderId ==> r.tables.orders[k] == t.orders[k]
  {
  }

  lemma UpdateOrderStatusKeepsConsistent(t: Tables, isAdmin: bool, orderId: int, newStatus: string)
    requires Consistent(t)
    ensures Consistent(UpdateOrderStatus(t, isAdmin, orderId, newStatus).tables)
  {
  }
}
