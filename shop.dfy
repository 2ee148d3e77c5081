/**
 * The store state shared by the request handlers, and one method per handler.
 * Each handler ends in a single commit, so each method is one state
 * transition, proved equal to the matching function of `Transitions`.
 * The logged-in user, the random digits of a reference code, the parsed pickup
 * date and the admin flag are parameters.
 */
module Shop {
  import opened Common
  import opened Records
  import opened References
  import opened Transitions

  class Store {
    /** Products by id. */
    var products: map<ProductId, Product>
    /** The cart table, in row order. */
    var cart: seq<CartLine>
    /** The id the next new cart line receives. */
    var nextLineId: LineId
    /** Orders; an order's id is its position. */
    var orders: seq<Order>
    /** Bookings; a booking's id is its position. */
    var bookings: seq<Booking>

    /** The tables as one value. */
    ghost function State(): Tables
      reads this
    {
      Tables(products, cart, nextLineId, orders, bookings)
    }

    ghost predicate Valid()
      reads this
    {
      Consistent(State())
    }

    /** A store with the given catalogue and nothing else. */
    constructor (catalogue: map<ProductId, Product>)
      ensures Valid()
      ensures State() == Tables(catalogue, [], 1, [], [])
    {
      products := catalogue;
      cart := [];
      nextLineId := 1;
      orders := [];
      bookings := [];
    }

    /**
     * `add_to_cart`: refuses a request for more than the product's stock;
     * otherwise adds `quantity` to the user's line for the product, or creates
     * that line.
     */
    method AddToCart(user: UserId, productId: ProductId, quantity: int) returns (status: Status)
      requires Valid()
      modifies this
      ensures Valid()
      ensures Step(status, State()) == Transitions.AddToCart(old(State()), user, productId, quantity)
    {
      AddToCartKeepsConsistent(State(), user, productId, quantity);
      if productId !in products {
        return NotFound;
      }
      if products[productId].stock < quantity {
        return InsufficientStock;
      }
      match FindLine(cart, user, productId) {
        case Some(k) =>
          cart := cart[k := cart[k].(quantity := cart[k].quantity + quantity)];
        case None =>
          cart := cart + [CartLine(nextLineId, user, productId, quantity)];
          nextLineId := nextLineId + 1;
      }
      status := Success;
    }

    /**
     * `update_cart`: on the caller's own line, action "update" sets the
     * quantity (a quantity of zero or less deletes the line), action "remove"
     * deletes it, and any other action changes nothing.
     */
    method UpdateCart(user: UserId, lineId: LineId, action: string, quantity: int) returns (status: Status)
      requires Valid()
      modifies this
      ensures Valid()
      ensures Step(status, State()) == Transitions.UpdateCart(old(State()), user, lineId, action, quantity)
    {
      UpdateCartKeepsConsistent(State(), user, lineId, action, quantity);
      match IndexOfLine(cart, lineId) {
        case None =>
          return NotFound;
        case Some(k) =>
          if cart[k].user != user {
            return Unauthorized;
          }
          if action == "update" {
            if quantity <= 0 {
              cart := cart[..k] + cart[k + 1..];
            } else {
              cart := cart[k := cart[k].(quantity := quantity)];
            }
          } else if action == "remove" {
            cart := cart[..k] + cart[k + 1..];
          }
          status := Success;
      }
    }

    /**
     * `checkout` (the POST request): refuses an empty cart; otherwise records
     * one pending order with one item per cart line of the user, lowers the
     * stock the lines ask for, and deletes the user's lines.
     */
    method Checkout(user: UserId, paymentMethod: string, shippingAddress: string, digits: string)
      returns (status: Status)
      requires Valid() && IsDigitString(digits)
      modifies this
      ensures Valid()
      ensures Step(status, State()) == Transitions.Checkout(old(State()), user, paymentMethod, shippingAddress, digits)
    {
      CheckoutKeepsConsistent(State(), user, paymentMethod, shippingAddress, digits);
      var lines := LinesOf(cart, user);
      if lines == [] {
        return EmptyCart;
      }
      var number := OrderNumber(digits);
      var total := LinesTotal(lines, products);
      var items := ReserveLines(lines);
      orders := orders + [Order(number, total, paymentMethod, shippingAddress, user, PendingStatus, items)];
      cart := LinesNotOf(cart, user);
      status := Success;
    }

    /**
     * The loop of `checkout`: for each line, in order, copy an item at the
     * product's current price and lower that product's stock by the line's quantity.
     */
    method ReserveLines(lines: seq<CartLine>) returns (items: seq<Item>)
      requires AllKnown(lines, products)
      modifies this`products
      ensures items == ItemsFor(lines, old(products))
      ensures products == Reserve(old(products), lines)
    {
      ghost var catalogue := products;
      items := [];
      for i := 0 to |lines|
        invariant AllKnown(lines[..i], catalogue)
        invariant items == ItemsFor(lines[..i], catalogue)
        invariant products == Reserve(catalogue, lines[..i])
      {
        var line := lines[i];
        ExtendPrefix(catalogue, lines, i);
        var product := products[line.product];
        items := items + [Item(line.product, line.quantity, product.price)];
        products := products[line.product := product.(stock := product.stock - line.quantity)];
      }
      assert lines[..|lines|] == lines;
    }

    /**
     * `book_product`: refuses a request for more than the product's stock
     * and a pickup date that does not parse; otherwise records one booking
     * with one item at the current price and lowers the stock by `quantity`.
     */
    method BookProduct(user: UserId, productId: ProductId, quantity: int, pickup: Option<Date>, digits: string)
      returns (status: Status)
      requires Valid() && IsDigitString(digits)
      modifies this
      ensures Valid()
      ensures Step(status, State()) == Transitions.BookProduct(old(State()), user, productId, quantity, pickup, digits)
    {
      BookProductKeepsConsistent(State(), user, productId, quantity, pickup, digits);
      if productId !in products {
        return NotFound;
      }
      var product := products[productId];
      if product.stock < quantity {
        return InsufficientStock;
      }
      var number := BookingNumber(digits);
      var total := product.price * quantity;
      if pickup.None? {
        return InvalidPickupDate;
      }
      bookings := bookings + [Booking(number, total, pickup.value, user, [Item(productId, quantity, product.price)])];
      products := products[productId := product.(stock := product.stock - quantity)];
      status := Success;
    }

    /** `admin_update_order_status`: an administrator sets an order's status to any value submitted. */
    method UpdateOrderStatus(isAdmin: bool, orderId: int, newStatus: string) returns (status: Status)
      requires Valid()
      modifies this
      ensures Valid()
      ensures Step(status, State()) == Transitions.UpdateOrderStatus(old(State()), isAdmin, orderId, newStatus)
    {
      UpdateOrderStatusKeepsConsistent(State(), isAdmin, orderId, newStatus);
      if !isAdmin {
        return AccessDenied;
      }
      if !(0 <= orderId < |orders|) {
        return NotFound;
      }
      orders := orders[orderId := orders[orderId].(status := newStatus)];
      status := Success;
    }
  }
}
