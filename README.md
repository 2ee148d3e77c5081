# Sunglass store: cart, checkout and booking core

This project models the request handlers of a Flask sunglass store that add
to the store's tables. Each handler reads a few rows, checks the request,
changes some rows and commits once.

- `add_to_cart` merges a request into the user's cart line for the product.
- `update_cart` changes or deletes one cart line.
- `checkout` turns the user's cart into a pending order, lowers stock and empties the cart.
- `book_product` records an in-store pickup booking and lowers stock.
- `admin_update_order_status` lets an administrator set an order's status.

It also models:

- the reference codes `ORD…` and `BKG…` given to orders and bookings;
- the upload filename filter;
- the validation chain of the registration form.

Layout:

- `common.dfy` holds `Option`.
- `text.dfy` holds Python's `strip()` and `lower()`.
- `references.dfy` holds the reference codes.
- `uploads.dfy` holds the filename filter.
- `registration.dfy` holds the validation chain.
- `records.dfy` holds the rows and the pure functions over the cart table: a user's lines, their totals, the items copied from them and the stock they ask for.
- `transitions.dfy` describes every handler as a function from the tables before its commit to its reply and the tables after. Its lemmas state what each handler promises. The invariant every handler keeps is `Consistent`:
  - the cart table has increasing ids and at most one line per (user, product);
  - every line names a known product and has an id below the next one;
  - every order's and booking's total is what its items add up to.
- `shop.dfy` holds the class `Store`. Its fields are the tables, and it has one method per handler. Each method updates the fields in place, keeps `Valid()`, and is proved to produce exactly the reply and tables of the matching transition function. The loop of `checkout` is the method `ReserveLines`, proved against `ItemsFor` and `Reserve`.

Conventions of the model:

- Prices are integer cents.
- Quantities are unbounded integers. The handlers do not check them, so zero and negative quantities are modelled as they come.
- The cart table is a sequence in row order, and a new line goes to the end. An order's or booking's id is its position.
- The random digits of a reference code, the parsed pickup date (`None` when it does not parse) and the administrator flag are parameters.

Behaviour of the handlers worth knowing:

- `add_to_cart` compares the stock with the requested quantity only, not with the merged quantity of the line. So two accepted requests can put more in the cart than there is stock.
- `checkout` does not check stock at all. It lowers stock by what the cart asks for, even below zero. `Transitions.CheckoutCanOversell` shows the sequence: two accepted `add_to_cart` requests for the last unit, then a checkout that leaves the stock at -1.
- `book_product` checks the stock before it parses the pickup date. A date that does not parse aborts the request with nothing committed; the model reports this as `InvalidPickupDate` with the tables unchanged.
- The model gives a new order the status `"Pending"`. The handler sets no status; the order table, which sets the default, is not part of this model.

## Model

| member | source | states |
|---|---|---|
| References.OrderNumber | app.py:44-45 | an order reference is 11 characters: "ORD" followed by eight decimal digits |
| References.BookingNumber | app.py:47-48 | a booking reference is 11 characters: "BKG" followed by eight decimal digits |
| References.ParseReferenceRoundTrip | app.py:44-48 | splitting a generated reference at its prefix gives back exactly the digits drawn |
| References.ReferencesDistinct | app.py:44-48 | different digits give different order references and different booking references; no order reference equals a booking reference |
| Uploads.AllowedFile | app.py:27-29 | definition of the filter: the text after the last '.' of the name, lower-cased, is an allowed extension; `Uploads.AllowedFileMeaning` states it without the helper |
| Uploads.AllowedFileMeaning | app.py:27-29 | a filename is accepted exactly when it contains a '.' and the text after its last '.', lower-cased, is png, jpg, jpeg, gif or webp |
| Text.Lower | app.py:487 | each ASCII capital letter becomes its small letter and every other character is kept, with the length unchanged |
| Text.Strip | app.py:486-491 | the result has no surrounding whitespace and is the input with its leading and trailing whitespace runs removed |
| Registration.Register | app.py:486-531 | the account created holds the stripped username, the stripped and lower-cased e-mail, the password as submitted and the stripped first and last names; it is created only with trimmed, non-empty names, a username of at least 3 characters not yet taken, a lower-case e-mail not yet registered, and a password of at least 6 characters equal to its confirmation |
| Registration.RegisterReportsFirstFailure | app.py:495-522 | registration succeeds exactly when all seven checks pass; otherwise it reports the first check, in the handler's order, that fails |
| Registration.FirstFailure | app.py:495-522 | the index returned is the first failing check, and none means every check passed |
| Records.LinesTotal | app.py:178 | definition: what the lines cost at the products' current prices; `Records.ItemsTotalMatchesLines` relates it to the order's items |
| Records.LinesOf | app.py:170 | the user's lines are exactly the lines of the table with that user; `Records.LinesOfKeepsOrder` states they keep the row order |
| Records.LinesOfKeepsOrder | app.py:170 | in a well-formed table the user's lines come in row order: their ids increase |
| Records.IndexOfLine | app.py:146 | the position of the first line with that id, and none means no line has it; `LineWithId` is that line |
| Records.FindLine | app.py:117-120 | the result is the position of the first line of the user for the product, and none means the user has no line for it; `LineFor` is that line |
| Records.LinesNotOf | app.py:200 | the remaining rows are exactly the lines of other users, and the table does not grow |
| Records.Reserve | app.py:189-198 | the catalogue keeps its products and their prices; `Records.ReserveStock` states the stock each is left with; `Take` is one step of the loop |
| Records.ItemsFor | app.py:189-196 | one item per cart line, in order, with the line's product and quantity and the product's current price |
| Records.ItemsTotalMatchesLines | app.py:178-196 | the items copied at checkout add up to exactly the amount charged |
| Records.ReserveStock | app.py:189-198 | the stock loop lowers each product's stock by the total quantity the lines ask of it and changes nothing else |
| Records.QuantityForUser | app.py:189-198 | what a user's lines ask of a product is the quantity on the user's single line for it, or nothing |
| Records.UserLinesDistinctProducts | app.py:117-131 | because lines are merged, one user's lines are for distinct products |
| Records.OtherUsersKeepLines | app.py:200 | deleting one user's lines leaves every other user's lines, in order |
| Transitions.CartTotal | app.py:206 | definition: the total the cart and checkout pages show, the user's lines at current prices; `Transitions.CheckoutRecordsOrder` shows a new order charges it |
| Transitions.AddToCart | app.py:107-134 | definition of the handler's reply and tables after its commit; the lemmas `AddToCartRefusals`, `AddToCartMerges` and `AddToCartKeepsConsistent` state what it does |
| Transitions.UpdateCart | app.py:143-165 | definition of the handler's reply and tables after its commit; the lemmas `UpdateCartRefusals`, `UpdateCartEffect` and `UpdateCartKeepsConsistent` state what it does |
| Transitions.Checkout | app.py:167-207 | definition of the handler's reply and tables after its commit; the `Checkout…` lemmas below state what it does |
| Transitions.BookProduct | app.py:209-243 | definition of the handler's reply and tables after its commit; the `BookProduct…` lemmas below state what it does |
| Transitions.UpdateOrderStatus | app.py:424-435 | definition of the handler's reply and tables after its commit; the `UpdateOrderStatus…` lemmas below state what it does |
| Transitions.AddToCartRefusals | app.py:110-115 | an unknown product gives not found and a request above the stock is refused; both change nothing, and no call touches products, orders or bookings |
| Transitions.AddToCartMerges | app.py:117-131 | an accepted request adds its quantity to the user's line for the product, or creates that line with the next id; every other (user, product) pair keeps its line |
| Transitions.AddToCartKeepsConsistent | app.py:107-134 | adding to the cart keeps the tables consistent |
| Transitions.UpdateCartRefusals | app.py:146-150 | a missing line gives not found and another user's line is refused, both changing nothing; nothing outside the cart table ever changes |
| Transitions.UpdateCartEffect | app.py:152-161 | on the caller's line, "update" with a positive quantity sets the quantity, "update" with zero or less and "remove" delete the line, and any other action keeps it; every other line is unchanged |
| Transitions.UpdateCartKeepsConsistent | app.py:143-165 | updating the cart keeps the tables consistent |
| Transitions.CheckoutRecordsOrder | app.py:170-188 | an empty cart is refused with nothing changed; otherwise one pending order is appended with the ORD reference drawn, the payment and address given, the cart total shown to the user as its total, and one item per line at the current price |
| Transitions.CheckoutTakesStock | app.py:189-198 | checkout lowers the stock of each product the user has a line for by that line's quantity, and no other product changes |
| Transitions.CheckoutClearsCart | app.py:200 | after checkout the user has no cart lines, every other user's lines are unchanged, and no booking changes |
| Transitions.CheckoutKeepsStockWhenCovered | app.py:189-198 | stock stays non-negative through checkout if it was, provided each of the user's lines asks no more than its product's stock |
| Transitions.CheckoutCanOversell | app.py:113-198 | from stock 1, two accepted single-unit requests and a checkout leave the stock at -1 |
| Transitions.CheckoutKeepsConsistent | app.py:167-207 | checkout keeps the tables consistent |
| Transitions.BookProductRefusals | app.py:212-234 | the checks run in order (the product exists, the stock covers the request, the pickup date parses); a refusal changes nothing, and the cart and orders are never touched |
| Transitions.BookProductRecords | app.py:220-239 | an accepted booking appends one booking with the BKG reference drawn and one item at the current price, whose total is price times quantity; only that product's stock falls, by the quantity, stays non-negative, and nothing else about the product changes |
| Transitions.BookProductKeepsConsistent | app.py:209-243 | booking keeps the tables consistent |
| Transitions.UpdateOrderStatusEffect | app.py:424-435 | a non-administrator is denied and a missing order gives not found, both changing nothing; otherwise the order becomes the same order with its status replaced by the submitted value, and no other order changes |
| Transitions.UpdateOrderStatusKeepsConsistent | app.py:424-435 | changing a status keeps the tables consistent |
| Shop.Store.AddToCart | app.py:107-134 | the method's reply and new fields are exactly those of `Transitions.AddToCart`, and the store stays valid |
| Shop.Store.UpdateCart | app.py:143-165 | the method's reply and new fields are exactly those of `Transitions.UpdateCart`, and the store stays valid |
| Shop.Store.Checkout | app.py:167-207 | the method's reply and new fields are exactly those of `Transitions.Checkout`, and the store stays valid |
| Shop.Store.ReserveLines | app.py:189-198 | the loop returns `ItemsFor` of the lines and leaves the catalogue `Reserve` of the lines, both taken at the prices and stock on entry |
| Shop.Store.BookProduct | app.py:209-243 | the method's reply and new fields are exactly those of `Transitions.BookProduct`, and the store stays valid |
| Shop.Store.UpdateOrderStatus | app.py:424-435 | the method's reply and new fields are exactly those of `Transitions.UpdateOrderStatus`, and the store stays valid |

## Left out

- Flask routing, templates, flash messages, redirects and the HTTP status codes are not modelled. Each handler's outcome is a `Status` value.
- Login and sessions are not modelled: the logged-in user and the administrator flag are parameters.
- Password hashing is not modelled: the account records the password as submitted.
- The database session is not modelled; every handler commits once, so each is a single state transition. Concurrent requests are not modelled, so the read-then-write races between two requests on the same stock are not captured.
- The random digits of a reference code are a parameter. Nothing guarantees that two draws differ: `ReferencesDistinct` holds only for different digits, and the source does not retry on a collision.
- Prices are integer cents, not floating-point values.
- Parsing form values with `int()` is not modelled: a value that does not parse aborts the request before any change, and the model takes the parsed integer. An absent quantity defaults to 1 in the source; the model receives the value.
- Date parsing is not modelled: the parsed pickup date is a parameter, `None` for a date that does not parse.
- Creation timestamps are not modelled.
- New cart line ids come from a counter that never re-uses an id. The database assigns ids itself, and SQLite may hand the largest deleted id out again, so a stale `update_cart` for that id could reach a new line, where the model answers not found.
- Product lookups do not check whether the product is active, in the source or in the model.
- The GET request of the checkout page only displays the cart total, which the model gives as `Transitions.CartTotal`.
- The payment method and shipping address at checkout, and the new status in `admin_update_order_status`, can be absent form values (Python's `None`); the model takes them as strings, so an order whose status is set to `None` is not captured.
- Registration queries the user table: the sets of registered e-mails and usernames are parameters, and the insert is not modelled.
- Text.Lower: lower-cases ASCII letters only, while Python's `lower()` covers all of Unicode. The register handler's e-mail is therefore normalised only for ASCII.
- Uploads.AllowedFileMeaning: states the filter with ASCII lower-casing. Under Unicode `lower()` only two non-ASCII characters become ASCII letters: the Kelvin sign becomes 'k', and the dotted capital I becomes 'i' followed by a combining dot. Neither can produce one of the five extensions, so the verdict is the same.
- Image saving, the admin product forms, the seed data, and the page script `static/js/main.js` are outside this model.
