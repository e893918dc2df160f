# EcommerceShop: session cart, checkout and registration

EcommerceShop is a small Flask storefront. This project models its core in
Dafny:

- the **session cart**: a table from product id to quantity, kept in insertion
  order within a request.
  "Add to cart" adds `max(1, qty)` units. The cart page's "update" action sets
  the quantity, and a quantity of 0 or less removes the key. "clear" empties
  the cart. The cart-count badge is the sum of all quantities;
- **cart pricing** (`cart_items`): the cart is walked in order and joined
  against the product catalog. Ids the catalog does not know are skipped.
  Every other entry becomes a line with `line_total = price * qty`, and the
  grand total is the sum of the line totals;
- **checkout**: an empty pricing writes nothing and keeps the cart. Otherwise
  exactly one order is appended, holding a snapshot of
  (product id, title, qty, price) per line, the total and the buyer (or none
  for a guest). Only then is the cart emptied;
- **registration**: the e-mail is lower-cased and stripped, and a user is
  created only when no stored user has that address.

Modules:

- `Wrappers` holds `Option`.
- `Cart` gives the meaning of each table operation on the sequence of
  (key, quantity) pairs, in the order the table yields them. Class
  `SessionCart` implements the table in place, as a key order plus a map.
- `Pricing` covers pricing and the `PriceCart` loop.
- `Accounts` covers normalisation and the user table.
- `Store` holds the order snapshot and class `Shop`, with the product, order
  and user tables and the request handlers that change them.

Prices are exact (`real`). The password hash function is a parameter.

## Model

| member | source | states |
|---|---|---|
| Cart.Get | app.py:112 | lookup with default 0: 0 for an absent key; on a positive cart, at least 1 iff the key is present |
| Cart.Put | app.py:129 | `cart[k] = v`: a new key goes last, an existing key keeps the length; afterwards the key is present with value v |
| Cart.Pop | app.py:127 | `cart.pop(k, None)`: an absent key leaves the cart as it was (no error); a present one shortens it by one |
| Cart.PutOthers | app.py:129 | assignment leaves every other key's presence and quantity unchanged |
| Cart.PutWellFormed | app.py:129 | assignment keeps keys distinct, and keeps quantities positive for a positive value |
| Cart.PopOthers | app.py:127 | removal leaves every other key's presence and quantity unchanged |
| Cart.PopWellFormed | app.py:127 | removal keeps the invariant, and with distinct keys the key is gone afterwards |
| Cart.Added | app.py:112 | after "add to cart" the key is present with its old quantity + max(1, n); a well-formed cart stays well-formed and the quantity strictly grows |
| Cart.Updated | app.py:124-129 | update with n <= 0 removes the key; with n > 0 the key is present with quantity exactly n; the invariant is preserved |
| Cart.OnlyPidChanges | app.py:112-129 | add and update change the presence or quantity of no other key |
| Cart.QtySum | app.py:82-84 | the badge count is at least the number of keys when quantities are positive |
| Cart.PutAt | app.py:129 | assigning to a present key replaces its entry in place and keeps the order |
| Cart.PopAt | app.py:127 | popping a present key cuts out exactly its entry and keeps the others in order |
| Cart.PutSame | app.py:129 | assigning the value a key already has changes nothing |
| Cart.PopLast | app.py:127 | popping the key appended last gives back the earlier cart |
| Cart.AddThenRemoveRestores | app.py:112-129 | adding a product not in the cart, then updating it to 0, gives back the original cart exactly |
| Cart.UpdateIdempotent | app.py:124-129 | applying the same update twice equals applying it once |
| Cart.QtySumPut | app.py:82-84 | after an assignment the badge changes by the new value minus the old one |
| Cart.QtySumPop | app.py:82-84 | a removal lowers the badge by the removed quantity |
| Cart.AddRaisesCount | app.py:109-112 | "add to cart" raises the badge by max(1, n); for n <= 1 (e.g. -3) by exactly 1 |
| Cart.EntriesOf | app.py:72 | the table's pairs, one per key in key order, with the map's quantity |
| Cart.HasEntriesOf | app.py:72 | a key is in the pairs iff it is in the key order |
| Cart.EntriesOfWellFormed | app.py:62-63 | a key order without repeats gives distinct keys; positive quantities give a positive cart |
| Cart.TableAssign | app.py:129 | assigning to a present key keeps the table's invariant and replaces that pair in place |
| Cart.TableAppend | app.py:112 | assigning to a new key keeps the table's invariant and appends the pair |
| Cart.WithoutKeys | app.py:127 | taking a key out of the order keeps exactly the other keys, each once |
| Cart.EntriesOfCut | app.py:127 | cutting the key at one position out of the order and the map cuts exactly its pair out of the pairs |
| Cart.EntriesOfWithout | app.py:127 | removing a key from the order and the map is `Pop` on the pairs |
| Cart.SessionCart.Items | app.py:72 | the pairs of a valid table form a well-formed cart |
| Cart.SessionCart.constructor | app.py:62-63 | a new session's cart is valid and empty |
| Cart.SessionCart.Count | app.py:82-84 | the badge is at least the number of keys, and 0 iff the cart is empty |
| Cart.SessionCart.LookupMatchesGet | app.py:112 | the map lookup with default 0 agrees with `Get` on the pairs |
| Cart.SessionCart.Set | app.py:129 | the new pairs are `Put` of the old ones; the table stays valid |
| Cart.SessionCart.Remove | app.py:127 | the new pairs are `Pop` of the old ones; the table stays valid |
| Cart.SessionCart.Add | app.py:112 | the new pairs are `Added` of the old ones; the table stays valid |
| Cart.SessionCart.Update | app.py:124-129 | the new pairs are `Updated` of the old ones; the table stays valid |
| Cart.SessionCart.Clear | app.py:130-131 | the cart is valid and empty |
| Cart.SessionCart.Post | app.py:119-132 | "update" is `Updated`, "clear" empties, any other action leaves the cart unchanged |
| Pricing.Lines | app.py:65-79 | at most one line per entry, each with line total = price * qty |
| Pricing.LinesAppend | app.py:72-78 | pricing a concatenation concatenates the lines |
| Pricing.SumLineTotalsAppend | app.py:77 | the running total is additive over concatenation |
| Pricing.TotalIsSumOfLines | app.py:76-77 | the grand total equals price * qty summed over the entries the catalog knows |
| Pricing.NoLinesIffNoneKnown | app.py:72-75 | there is no line iff no entry names a known product (unknown ids are dropped) |
| Pricing.LineMatchesEntry | app.py:72-78 | each line is the catalog's product for a key of the cart, with that key's quantity |
| Pricing.LineQtyWithinCount | app.py:65-84 | the priced quantities never exceed the badge, and equal it when every id is known |
| Pricing.LinesSnoc | app.py:72-78 | one more entry adds its line, if any, at the end |
| Pricing.PriceCart | app.py:65-79 | the loop yields exactly `Lines` of the cart in order and the total `CartTotal`; an empty cart gives ([], 0); the cart is only read |
| Accounts.LowerChar | app.py:164 | an ASCII capital becomes its small letter; every other character is unchanged |
| Accounts.Lower | app.py:164 | same length, each character lower-cased |
| Accounts.SkipSpaces | app.py:164 | the first non-whitespace index, with only whitespace skipped |
| Accounts.SkipSpacesBack | app.py:164 | the end once trailing whitespace is cut, with only whitespace cut |
| Accounts.Strip | app.py:163-164 | no longer than the input; the result neither starts nor ends with whitespace |
| Accounts.StripSpec | app.py:163-164 | the result is a slice of the input with only whitespace cut off on either side |
| Accounts.StripKeepsNoUpper | app.py:164 | stripping introduces no capital letter |
| Accounts.NormalizeEmail | app.py:164 | the stored form has no ASCII capital, no surrounding whitespace and is no longer than the input |
| Accounts.NormalizedIsFixed | app.py:164 | a normalized address is its own normalization |
| Accounts.NormalizeIdempotent | app.py:164 | normalizing twice equals normalizing once |
| Accounts.CaseCollides | app.py:164-166 | "Test@x.com" and "test@x.com" normalize to the same stored address |
| Accounts.Registered | app.py:161-172 | an existing normalized address leaves the table as it was; otherwise exactly one user (stripped name, normalized address, digest) is appended; afterwards the address is taken |
| Accounts.RegisteredKeepsUnique | app.py:166-172 | registration keeps stored addresses unique |
| Accounts.RegisteredKeepsNormalized | app.py:164-172 | registration stores only normalized addresses |
| Accounts.SecondRegistrationRejected | app.py:164-168 | a second registration whose address normalizes to the same one creates nobody |
| Store.Snapshot | app.py:143-148 | one order item per line, in order, holding the product's id, title and price and the line's quantity |
| Store.SnapshotTotalIsLinesTotal | app.py:143-151 | the stored total equals the sum of qty * price over the stored items |
| Store.PlaceOrder | app.py:138-151 | no order iff no cart entry names a known product; otherwise the order has the buyer, at least one item and the cart's total, which equals its items' qty * price sum |
| Store.OrderItemMatchesCart | app.py:143-148 | each order item names a product in both the cart and the catalog, with the catalog's title and price and the cart's quantity |
| Store.Shop.AddToCart | app.py:107-112 | an unknown product is "not found" and leaves the cart unchanged; a known one gets max(1, n) more units |
| Store.Shop.Checkout | app.py:137-157 | no order: no write and the cart is kept; otherwise exactly one order is appended at the next position and the cart becomes empty |
| Store.Shop.Register | app.py:161-175 | a user is created iff the normalized address is not taken; the table becomes `Registered`, and addresses stay unique and normalized |

## Left out

- HTTP routing, templates, `flash` messages, redirects and session signing are not modelled. The handlers are methods, and their answers are return values.
- The database engine, transactions and commit atomicity are not modelled. The tables are in-memory sequences and maps.
- Product search and the category filter (`index`), product detail, login, logout, the user loader and the CLI commands are not modelled, because they are outside the cart, checkout and registration.
- Store.Shop.Register: the password digest comes from a hash function passed as a parameter, because bcrypt is a foreign call.
- Pricing.Amount: prices and totals are exact reals, not binary floating point, so rounding in `price * qty` and in the running sum is not modelled.
- Store.PlaceOrder: the order's generated id, its creation timestamp and the JSON encoding of the item list are not modelled.
- Cart.SessionCart.Update: cart keys are integer product ids. In the source, "add to cart" keys by `str(pid)`, while "update" keys by the raw form string, and pricing converts keys back with `int(pid)`. So aliases such as "05" next to "5" are not modelled, and neither are the missing-`pid` and non-numeric-`pid` cases that make pricing fail.
- Store.Shop.AddToCart: the quantity is an integer argument. Parsing it from the form (the default of 1, and the error on a non-numeric value) is not modelled, and neither is the flash message that shows the raw quantity.
- Accounts.Lower: only ASCII capitals are lower-cased. Python's full Unicode case mapping is not modelled. That restriction is what makes `Lower` keep the length and makes `Accounts.NormalizeEmail` no longer than its input; Python's `"İ".lower()` has two code points, so the stored address can be longer than the typed one.
- Pricing.PriceCart: key order across requests is not modelled. The cart lives in a cookie session that is written as JSON with sorted keys and read back on the next request, so each request starts from the string-sorted key order. The model keeps insertion order throughout. The order of cart lines and of order items can therefore differ: after adding product 5 and then product 10, the program lists "10" before "5", while the model lists 5 before 10.
- Store.Shop.Checkout: the GET request, which only renders the priced cart, is not modelled separately; it is `Pricing.PriceCart`.
