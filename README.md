# A verified model of the GA grocery storefront core

This project models, in Dafny, the core of a small Node.js grocery storefront:

- the PayNow QR payload: EMVCo merchant-presented TLV data objects, closed by a
  CRC-16/CCITT-FALSE check object;
- the second-factor helpers: Base32 (section 6 of RFC 4648), HOTP counter encoding
  and dynamic truncation (section 5.3 of RFC 4226), TOTP counters (section 4.2 of
  RFC 6238) and the verification window;
- the payment-method classifier;
- the session cart and its totals, and the per-user database cart;
- the NETS settlement (`completeOrder`) over the tables it drives: NETS ledger,
  orders and order items, stock, carts, transactions;
- refund requests, single-use backup codes, product availability and type
  normalisation;
- the admin route allow-list, the second-factor gates, image file naming and
  containment, the PayNow checkout confirmation;
- the report CSV export, the grouping of order items by order, the admin order
  status and refund handlers;
- registration, sign-in and sign-out.

Each source file is one module (`common.dfy` and `session.dfy` hold what they
share: `Option`, JavaScript truthiness, trimming, decimal text, the session). Pure
helpers are functions. Code that changes state in place is a class whose methods
state the whole new state (database tables are classes with a `map` or `seq` field).
Loops are methods with invariants, proved against a reference function.
Database failures, the clock, randomness, hashing, HMAC and `path.resolve` are
parameters of the operations that use them.

## Model

| member | source | states |
|---|---|---|
| PayNow.TwoDigitLength | utils/paynow.js:4 | a length below 100 is written as exactly two decimal digits that read back as the length |
| PayNow.FormatTLVShape | utils/paynow.js:3-6 | for a two-character id and a value under 100 characters, a data object is the id, a two-digit length equal to the value's length, then the value: 4 + length characters |
| PayNow.Crc16 | utils/paynow.js:8-18 | the nested loop leaves in the register exactly the CRC-16/CCITT-FALSE of the payload (initial value 0xFFFF, polynomial 0x1021, most significant bit first), a value of at most 0xFFFF |
| PayNow.CrcFoldBound | utils/paynow.js:8-18 | the register always holds a 16-bit value |
| PayNow.CrcCheckValue | utils/paynow.js:8-18 | the CRC of "123456789" is 0x29B1, the published check value of CRC-16/CCITT-FALSE |
| PayNow.HexString | utils/paynow.js:52 | `toString(16)` gives at least one digit |
| PayNow.UpperHexString | utils/paynow.js:52 | the upper-cased hexadecimal text of n is upper-case hexadecimal and denotes n |
| PayNow.CrcHexValue | utils/paynow.js:52 | the CRC text has exactly four upper-case hexadecimal characters that denote the CRC |
| PayNow.DigitsOnly | utils/paynow.js:22 | stripping non-digits leaves only digits and never lengthens the text |
| PayNow.BuildPayNowPayload | utils/paynow.js:20-23 | the build fails exactly when the proxy value is missing or empty ("proxyValue required") or has no digits ("invalid proxy value") |
| PayNow.BuildPayNowFields | utils/paynow.js:24-28 | the merchant name, city and reference are prefixes of the given text or its default, cut to 25, 15 and 25 characters; a missing or non-positive amount becomes "0.01" |
| PayNow.AmountTextValue | utils/paynow.js:24-25 | a positive amount is written as digits, a dot and two digits that read back as the amount in cents |
| PayNow.BuildPayNowPrefix | utils/paynow.js:31-32 | a built payload starts "000201010211" |
| PayNow.BuildPayNowCrc | utils/paynow.js:50-53 | a built payload ends with "6304" and four upper-case hexadecimal digits equal to the CRC of everything before those four digits |
| PayNow.PayloadAsObjects | utils/paynow.js:30-53 | a built payload is its ten data objects, written one after the other, followed by the CRC object |
| PayNow.PayloadWellFormed | utils/paynow.js:31-48 | with a short enough proxy and amount every object has a two-character id and a value under 100 characters, and none is the CRC object |
| PayNow.MerchantAccountLength | utils/paynow.js:34-39 | the merchant account holds four well-formed objects and is 26 characters longer than the proxy type and proxy together |
| PayNow.Substr | utils/paynow.js:60-62 | `substr` never returns more characters than asked for, and none for a negative length |
| PayNow.ParseIntDigits | utils/paynow.js:61 | `parseInt` of a digit string is its decimal value |
| PayNow.LengthFieldIsParseInt | utils/paynow.js:61 | the two-character length field is read exactly as `parseInt(…, 10)` reads it (signs, blanks, NaN) |
| PayNow.ParseTLV | utils/paynow.js:56-68 | the reading loop returns the entries of the reference reader `ParseFrom`, and whether it met a length of -4 or less and stopped there (`stalled`) |
| PayNow.ParseFromStops | utils/paynow.js:59-66 | a NaN length, or the object with id "63", ends the loop after recording that entry |
| PayNow.ParseFromMoves | utils/paynow.js:59-66 | otherwise the entry is recorded and reading goes on 4 + length characters further |
| PayNow.ParseFromEnd | utils/paynow.js:59 | at the end of the payload the loop returns what it has read |
| PayNow.ParseTLVSingle | utils/paynow.js:56-68 | one written object reads back as the single entry (id, length, value) |
| PayNow.ParseTLVConcat | utils/paynow.js:56-68 | written objects without a CRC object read back as their entries, in order |
| PayNow.ParseTLVStops63 | utils/paynow.js:65 | reading stops after the CRC object and ignores whatever follows it |
| PayNow.BuildPayNowParses | utils/paynow.js:56-68 | reading a built payload yields its data objects in order, then the CRC object, and ends there |
| PayNow.BuildPayNowIds | utils/paynow.js:31-53 | the top-level ids of a built payload are 00, 01, 26, 52, 53, 54, 58, 59, 60, 62, 63 in that order |
| PayNow.MerchantAccountParses | utils/paynow.js:34-39 | the merchant account reads back as its four objects |
| PayNow.LenText | utils/paynow.js:80 | a NaN length is printed as "NaN", a length under 100 as two digits |
| PayNow.SubObjects | utils/paynow.js:74-82 | the nested loop of the printer rebuilds each nested object from the reference reader's entries, without stopping at id "63", and reports whether it stopped at a length of -4 or less |
| PayNow.SubObjectsOfWritten | utils/paynow.js:74-82 | over written objects the printer rebuilds exactly their written forms and ends |
| PayNow.MerchantAccountPrinted | utils/paynow.js:80 | each rebuilt nested object of the merchant account reads back on its own as that one object |
| PayNow.NextCursorAsWritten | utils/paynow.js:64 | the cursor update as written does not advance for a length of -4 or less |
| PayNow.ParseTLVMinusFourAsWritten | utils/paynow.js:59-66 | on "00-4" the loop as written reads a length of -4 and leaves the cursor at 0, so it never returns |
| PayNow.ParseTLVMinusFourStalls | utils/paynow.js:59-66 | the model's reader ends on "00-4" and reports the stall |
| Base32.AlphabetIndexIsIndexOf | utils/mfa.js:4-10 | the value of a character is its first position in the RFC 4648 alphabet, and -1 exactly for characters outside it |
| Base32.SymbolIndex | utils/mfa.js:4-10 | each symbol's value is its position |
| Base32.BitTextValue | utils/mfa.js:12 | the padded binary text of a value below 2^w has w digits that read back as the value |
| Base32.ValueText | utils/mfa.js:16 | writing the value of some bits back with as many digits gives the bits themselves |
| Base32.StripTrailingPad | utils/mfa.js:7 | stripping trailing "=" keeps a prefix that does not end in "=" |
| Base32.StripTrailingPadDrops | utils/mfa.js:7 | only "=" characters are removed |
| Base32.CharBits | utils/mfa.js:9-13 | an alphabet character contributes five bits, any other character none |
| Base32.BytesOfBits | utils/mfa.js:15-17 | the byte loop reads one byte per complete group of eight bits |
| Base32.Base32Decode | utils/mfa.js:6-19 | the two loops of the decoder compute the reference decoding `Decode` of the cleaned input |
| Base32.ReadBytes | utils/mfa.js:14-17 | the byte loop returns the bytes of every complete group of eight bits, in order |
| Base32.DecodeLength | utils/mfa.js:9-17 | decoding k alphabet characters yields floor(5k/8) bytes, whatever else the input holds |
| Base32.CleanShape | utils/mfa.js:7 | what the decoder reads has no whitespace and no lower-case letter |
| Base32.DecodeIgnoresCase | utils/mfa.js:7 | a lower-cased secret decodes to the same bytes |
| Base32.ByteBits | utils/mfa.js:25 | the first encoder loop writes eight bits per byte |
| Base32.Chunk | utils/mfa.js:28-33 | each chunk is five bits, a short last chunk padded with zeros on the right |
| Base32.Symbols | utils/mfa.js:27-34 | one symbol per started group of five bits |
| Base32.GenerateBase32Secret | utils/mfa.js:21-37 | the encoder loops, over given bytes, compute the reference encoding `Encode` |
| Base32.WriteSymbols | utils/mfa.js:26-34 | the symbol loop writes one alphabet symbol per chunk |
| Base32.EncodeShape | utils/mfa.js:24-36 | a secret of n bytes is ceil(8n/5) alphabet symbols followed by "=" up to a multiple of eight characters |
| Base32.SymbolsBits | utils/mfa.js:9-13 | reading the symbols back rebuilds the encoder's bits with the zero padding of the last chunk |
| Base32.PaddedBytes | utils/mfa.js:15-17 | the decoder's byte loop over those bits gives back every byte |
| Base32.CleanPadded | utils/mfa.js:7 | symbols followed by "=" padding are read back as the symbols |
| Base32.RoundTrip | utils/mfa.js:6-36 | decoding a generated secret gives back its bytes, for every byte sequence |
| Otp.LowBytesStep | utils/mfa.js:43-46 | each turn of the counter loop writes the low byte of what is left and shifts it right by eight bits |
| Otp.CounterMessage | utils/mfa.js:41-46 | the loop fills the eight-byte message with the low eight bytes of the counter, most significant first |
| Otp.LowBytesValue | utils/mfa.js:43-46 | the bytes written are the counter modulo 256^n, big-endian |
| Otp.CounterMessageValue | utils/mfa.js:41-46 | a counter below 2^64 is written exactly as eight big-endian bytes |
| Otp.CodeShape | utils/mfa.js:48-49 | the offset is the low four bits of the last byte, below 16, and the code is the 31-bit big-endian number at that offset with the top bit masked |
| Otp.TruncateShape | utils/mfa.js:50 | the password has exactly `digits` decimal digits and stands for the code modulo 10^digits |
| Otp.Hotp | utils/mfa.js:39-52 | the HOTP value of the decoded secret and the counter message, through the given HMAC |
| Otp.TotpCounterFloor | utils/mfa.js:55 | the counter is the period that contains the instant |
| Otp.TotpCounterOfPeriod | utils/mfa.js:55 | instants in the same period give the same counter |
| Otp.Totp | utils/mfa.js:54-57 | the TOTP password is the HOTP value at the period counter of the instant |
| Otp.VerifyTotp | utils/mfa.js:59-74 | false for a missing or empty secret or token, or a trimmed token of the wrong length; otherwise true exactly when some step in [-window, window] matches |
| Otp.ScanWindow | utils/mfa.js:64-73 | the window loop finds a match exactly when some step in the window has a password equal to the token |
| Otp.StepOutcome | utils/mfa.js:65-68 | a step matches exactly when its password equals the token |
| Otp.NoneInWindow | utils/mfa.js:64-73 | when no step matched up to the end of the window, the token is not in the window |
| Otp.CurrentStepAccepted | utils/mfa.js:59-74 | a token matching the current step is accepted whenever the window is not negative |
| Otp.HasNonEmpty | utils/mfa.js:114-120 | null and undefined are empty; a buffer or view needs a byte, a string a non-whitespace character; anything else is non-empty |
| PaymentMethod.Normalize | utils/paymentMethod.js:1-4 | a missing, empty or blank value normalises to "" |
| PaymentMethod.NormalizeLadder | utils/paymentMethod.js:5-10 | priority order: NETS with QR gives "NETS QR", NETS "NETS", PAYNOW "PayNow", PAYPAL "PayPal", and text with no keyword stays as trimmed |
| PaymentMethod.NormalizeRange | utils/paymentMethod.js:1-11 | the result is "", one of the four labels, or the trimmed text when it holds no keyword |
| PaymentMethod.LabelFixed | utils/paymentMethod.js:5-10 | each label normalises to itself |
| PaymentMethod.NormalizeIdempotent | utils/paymentMethod.js:1-11 | normalising twice is normalising once |
| PaymentMethod.Resolve | utils/paymentMethod.js:13-15 | a recorded method that normalises to something non-empty wins |
| PaymentMethod.ResolveFallback | utils/paymentMethod.js:17-30 | otherwise a payer id naming NETS or PayNow decides; the result is "" exactly when there is no payer id, e-mail or capture id and the status is neither paid nor refunded |
| PaymentMethod.ResolveNormalized | utils/paymentMethod.js:13-31 | the resolved method is already normalised |
| CartController.EnsureCart | Controller/cartController.js:4-7 | an empty cart is installed only when the session has none; an existing cart is returned unchanged |
| CartController.Show | Controller/cartController.js:20-26 | the summing loop gives the subtotal Σ price·qty; the cashback is 5% of it for a member and 0 otherwise; the total is the difference |
| CartController.SubtotalConcat | Controller/cartController.js:24 | the subtotal of two carts one after the other is the sum of their subtotals |
| CartController.TotalBounds | Controller/cartController.js:23-26 | with non-negative prices and quantities, 0 ≤ total ≤ subtotal |
| CartController.Add | Controller/cartController.js:31-53 | the session cart becomes the reference `Added` of the ensured cart; the user rows then become `Persisted` (the new cart saved for a signed-in user), except after an unknown product, where nothing is saved; a rejected product read only creates the session cart and saves nothing |
| CartController.AddUnknownProduct | Controller/cartController.js:37-38 | adding an unknown product id leaves the cart unchanged |
| CartController.MergeFound | Controller/cartController.js:39-40 | with a matching line, only the first one changes, and only by adding the quantity |
| CartController.MergeFoundSubtotal | Controller/cartController.js:39-40 | that raises the subtotal by the value of the added quantity at that line's price |
| CartController.MergeAppended | Controller/cartController.js:41-43 | without a matching line exactly one new line is appended and its value added to the subtotal |
| CartController.AddWellFormed | Controller/cartController.js:36-48 | adding never creates two lines for the same product, or two id-less lines with the same name |
| CartController.ClampedQty | Controller/cartController.js:61 | the quantity set is at least 1 and equals the given quantity when that is at least 1 |
| CartController.Update | Controller/cartController.js:57-70 | the session cart becomes the reference `Updated` of the ensured cart, then is saved for a signed-in user as `Persisted` says |
| CartController.SetQtyEffect | Controller/cartController.js:62-67 | only the first matching line changes, and only its quantity; with no match the cart is unchanged |
| CartController.SetQtyWellFormed | Controller/cartController.js:62-67 | setting a quantity keeps the cart free of duplicate lines |
| CartController.Remove | Controller/cartController.js:72-79 | the session cart becomes the reference `Removed` of the ensured cart, then is saved for a signed-in user as `Persisted` says |
| CartController.SpliceEffect | Controller/cartController.js:75-76 | exactly the first matching line is removed and the rest keep their order; with no match the cart is unchanged |
| CartController.SpliceSubtotal | Controller/cartController.js:75-76 | removing a line takes its value off the subtotal |
| CartController.SpliceWellFormed | Controller/cartController.js:75-76 | removing a line keeps the cart free of duplicate lines |
| CartController.Clear | Controller/cartController.js:81-85 | the session cart becomes empty, and so does a signed-in user's saved cart unless the save fails |
| CartController.PersistCartForUser | Controller/cartController.js:11-18 | without a session user no row changes; otherwise the session cart (or an empty one) is written to the row under the user's `user_id` key, and a failed write changes nothing |
| CartController.PersistedRestored | Controller/cartController.js:11-18 | a cart saved after a change is restored unchanged at the next sign-in, and no other user's row changes |
| CartItems.AmountOrOne | models/cartitems.js:82 | a missing or zero amount counts as one, any other amount as given |
| CartItems.AddedTo | models/cartitems.js:43-53 | the (user, product) line gains the quantity, or is inserted with it; every other line is unchanged |
| CartItems.Decremented | models/cartitems.js:86-95 | a missing line stays missing; otherwise the line loses the amount and is deleted exactly when nothing positive would remain, so it never stores zero; other lines are unchanged |
| CartItems.QuantitySet | models/cartitems.js:103-108 | a quantity of zero or less deletes the line; otherwise an existing line gets exactly that quantity and a missing one is not created; other lines are unchanged |
| CartItems.BulkRemoved | models/cartitems.js:72-75 | exactly that user's lines for the listed products are deleted |
| CartItems.Cleared | models/cartitems.js:112-114 | exactly that user's lines are deleted; other users' lines are unchanged |
| CartItems.RemovalsKeepPositive | models/cartitems.js:63-114 | deleting, decrementing, setting quantities, bulk removal and clearing keep every stored quantity positive |
| CartItems.AddKeepsPositive | models/cartitems.js:43-53 | adding a positive quantity keeps every quantity positive |
| CartItems.AddZeroStoresZero | models/cartitems.js:43 | adding without a quantity inserts a line holding zero: adding does not guard the invariant |
| CartItems.DecrementAll | models/cartitems.js:89-92 | decrementing by the whole quantity or more deletes the line |
| CartItems.CartItemTable.GetByUserId | models/cartitems.js:5-18 | no user gives []; otherwise exactly the user's lines, each with its product's price when the product exists |
| CartItems.CartItemTable.GetItem | models/cartitems.js:21-37 | the line of that user and product with its quantity, or null when either key is missing or there is no such line |
| CartItems.CartItemTable.AddToCart | models/cartitems.js:40-55 | refused without a user or product, changing nothing; otherwise the table becomes `AddedTo` with `Number(quantity or 0)` |
| CartItems.CartItemTable.Remove | models/cartitems.js:63-67 | refused without a user or product; otherwise that one line is deleted |
| CartItems.CartItemTable.RemoveBulk | models/cartitems.js:70-76 | refused without a user; an empty list changes nothing; otherwise the table becomes `BulkRemoved` |
| CartItems.CartItemTable.Decrement | models/cartitems.js:79-97 | refused without a user or product; otherwise the table becomes `Decremented` by `Number(amount or 1)` |
| CartItems.CartItemTable.UpdateQuantity | models/cartitems.js:100-109 | refused without a user or product; otherwise the table becomes `QuantitySet` |
| CartItems.CartItemTable.Clear | models/cartitems.js:112-115 | refused without a user; otherwise the table becomes `Cleared` |
| Products.NormalizeType | models/product.js:143 | the stored type is null exactly when the given type is missing or empty, and is never longer than it |
| Products.NormalizeTypeShape | models/product.js:143 | a stored type has no upper-case letter and no surrounding whitespace |
| Products.NormalizeTypeBlank | models/product.js:143 | a type is stored as the empty string exactly when it is whitespace only |
| Products.NormalizeTypeAgain | models/product.js:171 | normalising a stored type again keeps it, except that the empty string becomes null |
| Products.Stored | models/product.js:169-178 | name, price and quantity are kept; the type is normalised; empty information and image become null |
| Products.Toggled | models/product.js:78-79 | the new quantity is 0 or 1, and it is positive exactly when the old one was not |
| Products.ToggleTwice | models/product.js:78-79 | toggling an in-stock product twice leaves 1 item, not the old quantity |
| Products.ProductTable.Lookup | models/product.js:88-96 | the row with that key when it exists, else null |
| Products.ProductTable.Create | models/product.js:141-151 | the normalised row is inserted under a key not used before, and no other row changes |
| Products.ProductTable.Update | models/product.js:169-178 | reports whether the product exists; if so exactly that row is overwritten with the normalised fields, else nothing changes |
| Products.ProductTable.ToggleAvailability | models/product.js:73-86 | a missing product gives false and changes nothing; otherwise true, and only that product's quantity is toggled |
| Products.PopularProducts | models/product.js:11-31 | never empty: the fallback list on a query error or an empty result, otherwise the rows as queried |
| Orders.ItemsFor | models/order.js:29-38 | one item row per cart line, in order, each with the line's product, quantity and unit price and a line total of quantity × price |
| Orders.ItemsOf | models/order.js:58-67 | the items of one order: exactly the rows with that order key |
| Orders.CreatedItemsReadBack | models/order.js:29-38 | reading back the items of a newly created order gives exactly the rows written for its lines |
| Orders.CreatedItemsKeepOthers | models/order.js:29-38 | creating an order leaves the items of every other order as they were |
| Orders.AppendKeepsGrouped | models/order.js:84-88 | the items of a new order, whose key is above every earlier one, keep the item table grouped by order key |
| Orders.ItemsForOrders | models/order.js:80-94 | no order ids gives []; a row is returned exactly when it is an item of a listed order whose product exists, named after that product |
| Orders.ItemsForOrdersGrouped | models/order.js:88 | on a table kept grouped by order key the rows come back in ascending order key, as the `ORDER BY` asks |
| Orders.OrdersBelow | models/order.js:69-78 | the reference listing: exactly the user's orders below a key, newest first; a missing user matches no order |
| Orders.OrderTable.CreateOrder | models/order.js:3-56 | success exactly when no step fails; then one new 'paid' order with the given amounts and method and one item per line; any failure rolls back both tables |
| Orders.OrderTable.GetItemsByOrderId | models/order.js:58-67 | every item of that order, and only those |
| Orders.OrderTable.GetOrdersByUser | models/order.js:69-78 | every order of that user and no other, newest first |
| Orders.OrderTable.UpdateStatus | models/order.js:142-149 | any status is written to that order alone, without a transition check; the result says whether the order exists |
| Orders.StatusOptions | models/order.js:96-151 | a fresh array holding the six statuses on each call |
| NetsTransactions.SerializePayload | models/netsTransaction.js:3-12 | null stays null, a text is kept unchanged, an object becomes its JSON text or null when that fails |
| NetsTransactions.Created | models/netsTransaction.js:23-34 | status 'pending' unless a non-empty status is given; every missing or empty optional field null; the reference, amount and payload as given or serialised |
| NetsTransactions.Apply | models/netsTransaction.js:56-93 | exactly the columns whose key is defined are written (an amount as `Number(x or 0)`, a network status as `Number(x)`, a payload serialised); every other column keeps its value; nothing defined changes nothing |
| NetsTransactions.UpdatedRows | models/netsTransaction.js:97-102 | only rows with the given reference are updated |
| NetsTransactions.FirstByRef | models/netsTransaction.js:43-51 | the first row with that reference, or null exactly when there is none |
| NetsTransactions.LookupAfterUpdate | models/netsTransaction.js:43-102 | after an update, looking the reference up gives the same first row with the update applied |
| NetsTransactions.EmptyUpdateChangesNothing | models/netsTransaction.js:95 | an update object that sets no column changes no row |
| NetsTransactions.NetsTable.Create | models/netsTransaction.js:15-41 | appends exactly the row with its defaults and returns its key |
| NetsTransactions.NetsTable.GetByTxnRetrievalRef | models/netsTransaction.js:43-51 | a row with that reference, or null exactly when there is none |
| NetsTransactions.NetsTable.UpdateByTxnRetrievalRef | models/netsTransaction.js:53-105 | a missing update object, or one that sets no column, returns 0 and changes nothing; otherwise every row with the reference gets the update and their number is returned |
| Transactions.CreatedTx | models/transaction.js:8-18 | an empty or missing capture id or refund reason is stored as null; every other field as given |
| Transactions.FirstByOrder | models/transaction.js:24-31 | the first row of that order, or null exactly when there is none |
| Transactions.StatusUpdated | models/transaction.js:33-36 | every row of the order gets the status and the reason; the other rows are unchanged |
| Transactions.LookupAfterStatusUpdate | models/transaction.js:24-36 | after a status update the row found for the order carries the new status and reason; lookups for other orders are unchanged |
| Transactions.TransactionTable.Create | models/transaction.js:5-22 | appends exactly one row unless the insert fails, and then changes nothing |
| Transactions.TransactionTable.GetByOrderId | models/transaction.js:24-31 | a row of that order, or null exactly when there is none |
| Transactions.TransactionTable.UpdateStatusByOrderId | models/transaction.js:33-36 | the table becomes `StatusUpdated` |
| RefundRequests.Upserted | models/refundRequest.js:9-17 | a new order gets a 'requested' row; an existing one keeps its user, takes the new reason, returns to 'requested' and loses the administrator's id, note and processing time; other rows are unchanged |
| RefundRequests.Approved | models/refundRequest.js:60-66 | only that order's row changes: 'approved', with the administrator and the note (null when missing or empty) and a processing time |
| RefundRequests.RenewAfterApproval | models/refundRequest.js:9-17 | renewing a request erases an earlier approval entirely |
| RefundRequests.RenewTwice | models/refundRequest.js:9-17 | renewing twice is renewing once with the last reason |
| RefundRequests.RefundTable.Upsert | models/refundRequest.js:8-27 | skipped without the table, failed on another error, and otherwise the table becomes `Upserted`; nothing changes unless it is done |
| RefundRequests.RefundTable.GetByOrderIds | models/refundRequest.js:29-43 | an empty list or a missing table gives no rows; another error is an error; otherwise exactly the requests of the listed orders |
| RefundRequests.RefundTable.GetByOrderId | models/refundRequest.js:45-56 | the order's request, or null when there is none or the table is missing; another error is an error |
| RefundRequests.RefundTable.MarkApproved | models/refundRequest.js:58-77 | skipped without the table, failed on another error, and otherwise the table becomes `Approved`; nothing changes unless it is done |
| BackupCodes.AlphabetShape | models/mfa.js:5 | the code alphabet has 32 distinct upper-case letters and digits, without I, O, 0 and 1 |
| BackupCodes.RandomCode | models/mfa.js:4-9 | a code has `len` symbols, the i-th being the alphabet symbol chosen by the i-th random draw |
| BackupCodes.GeneratePlainCodes | models/mfa.js:11-15 | the codes are distinct, drawn from the random codes in order, at most `count` of them, and fewer only when the draws run out |
| BackupCodes.MarkUsedCount | models/mfa.js:55 | marking one unused code as used lowers that user's count by one and leaves every other user's count alone |
| BackupCodes.Others | models/mfa.js:29 | deleting a user's codes keeps exactly the other users' rows |
| BackupCodes.Fresh | models/mfa.js:31-37 | one new unused row per hash, in order |
| BackupCodes.ReplacedCounts | models/mfa.js:27-43 | after the codes are replaced the user has exactly the new codes unused and every other user keeps their count |
| BackupCodes.FirstUsable | models/mfa.js:48-54 | the first unused code of the user that the text matches, or -1 when there is none |
| BackupCodes.ConsumeOnce | models/mfa.js:48-60 | single use: once the matching code is consumed the same text matches no unused code, and the count dropped by one |
| BackupCodes.BackupCodeTable.GetRemainingCount | models/mfa.js:17-25 | the user's unused codes, or 0 when the query fails |
| BackupCodes.BackupCodeTable.SetCodes | models/mfa.js:27-43 | the user's codes are replaced by one unused row per hash; a failed delete changes nothing; a failed insert, or an empty list of hashes (an SQL error for a bulk insert), leaves the user with no codes |
| BackupCodes.BackupCodeTable.ConsumeIfValid | models/mfa.js:45-63 | an empty code or a failed query gives false and changes nothing; otherwise true exactly when an unused code matches, and the first match is marked used |
| Nets.StockAfter | services/nets.js:35-36 | the stock left is never negative: the old stock less the quantity, or 0 when the quantity is larger |
| Nets.DecrementedStock | services/nets.js:29-41 | only that product changes, and its quantity becomes the reduced stock; the set of products is kept |
| Nets.DecrementKeepsProduct | services/nets.js:37-40 | writing the product back keeps its name, price and (normalised, non-empty) type |
| Nets.DecrementProductStock | services/nets.js:29-46 | fails exactly when the product is missing or a database call is rejected; the catalogue becomes the decremented one, and a rejected call leaves it as it was |
| Nets.StockAfterAllBounds | services/nets.js:253-263 | settling never leaves a negative stock and never touches a product unless one of its lines went through |
| Nets.FailedDecrements | services/nets.js:253-263 | the failed decrements are exactly the products of the cart lines that are not in the catalogue or whose decrement was rejected |
| Nets.OrderLines | services/nets.js:214-219 | one order line per cart line, with its product, quantity and price (0 when missing) |
| Nets.ProductIds | services/nets.js:265 | the product keys of the cart lines, in order |
| Nets.LedgerUpdate | services/nets.js:230-240 | the ledger entry gets the new order key, status "success" and the total, and keeps its user |
| Nets.SettledLookup | services/nets.js:230-240 | after a settlement the reference's first ledger entry names the new order |
| Nets.SettledItems | services/nets.js:214-228 | the new order's items read back as exactly the cart lines |
| Nets.DecrementAll | services/nets.js:253-263 | every line is decremented in turn, a rejected line keeping its stock, and the failed products are collected, without stopping |
| Nets.Record | services/nets.js:221-251 | the order insert, the ledger update and the capture, in order; a failed order insert writes nothing; after a failed ledger update only the order and its items are written, after a failed capture also the ledger update; on success the stores gain exactly the order, the ledger update and the capture |
| Nets.Finish | services/nets.js:253-269 | the stock is decremented line by line, except the lines whose call is rejected; the settled cart lines and the session cart are cleared when removing the lines succeeds, and both carts are kept when it fails |
| Nets.Settle | services/nets.js:214-277 | a failed order insert changes nothing; once the order is in, the stores are as `AfterWrites` says: every write before the first failure is kept, and a failure answers 500 and keeps the session cart; a success leaves the stores exactly as the settlement describes and empties the session cart |
| Nets.Prepare | services/nets.js:176-212 | the checks in order: 401 without a user, 400 without a reference, 404 for an unknown reference, the recorded order when already settled, 400 for an empty cart or a total of zero or less; only past all of them a settlement |
| Nets.CompleteOrder | services/nets.js:176-278 | an early reply writes nothing; once an order is written it has a new key and the stores are as `AfterWrites` says, a complete settlement when no write fails |
| Nets.CompleteOrderTwice | services/nets.js:190-196 | idempotence on the retrieval reference: once settled, a second call answers with the same order |
| Nets.LedgerFailureLeavesRefOpen | services/nets.js:221-240 | when the ledger update fails after the order insert, the order stays while the reference's ledger entry still names no order |
| Nets.CompleteOrderRetry | services/nets.js:190-240 | after a failed ledger update the call answers 500 with the order in place, and a retry with the same reference does not find it: it is never answered with the recorded order, and a new settlement gets another order key |
| Sessions.SessionUserId | services/nets.js:63-71 | the `user_id` key, else `userId`, else `id`, else null when there is no session user or none of them |
| App.AnyUnder | app.js:87 | true exactly when the path is one of the prefixes or lies below one of them |
| App.IsAdminRouteAllowed | app.js:82-88 | true exactly when the path is in the allowed set or equals or lies below an allowed prefix |
| App.AdminRoutes | app.js:82-88 | the allow-list in short: the listed paths, `/admin`, and anything below `/admin/` or `/account/` |
| App.AdminLookalikeRejected | app.js:87 | a look-alike such as `/adminx` is not allowed |
| App.AdminRedirect | app.js:90-96 | only an admin is ever redirected, and always to `/admin` |
| App.AdminRedirectSettles | app.js:90-96 | an admin is redirected exactly when the path is off the allow-list, and the target itself is never redirected |
| App.MfaGate | app.js:61-66 | passes exactly when the lookup fails or the user has the second factor enabled; otherwise sends the user to enable it |
| App.RequireAdmin | app.js:55-67 | no user goes to `/login`, a non-admin gets 403, an admin passes when the second factor is not enforced (on by default) or the gate passes |
| App.RequireAuth | app.js:69-80 | no user goes to `/login`, never 403, a user passes unless the second factor is enforced (off by default) and the gate fails |
| App.DefaultMfaPolicy | app.js:55-80 | with neither flag set an admin without a second factor is sent to enable it, other users pass, and a failed lookup lets the admin through |
| App.StripMarks | app.js:105 | no combining mark is left |
| App.SkipRun | app.js:106 | a suffix of the text that is empty or starts with a letter or digit |
| App.Dashify | app.js:106 | the result has only letters, digits and single dashes, and keeps a leading letter or digit |
| App.TrimDashes | app.js:107 | the result neither starts nor ends with a dash |
| App.Slugify | app.js:101-109 | a falsy value gives ""; every result is a slug: lower-case letters, digits and single inner dashes |
| App.SlugKeepsLettersAndDigits | app.js:101-109 | the slug keeps exactly the letters and digits of the text, in order and lower-cased |
| App.SlugifyIdempotent | app.js:101-109 | slugging a slug changes nothing |
| App.BaseName | app.js:117-119 | the base name holds no slash |
| App.LastDot | app.js:117 | the position of a dot, or -1 |
| App.ExtName | app.js:117 | the extension is empty or starts with a dot, holds no slash, and is a suffix of the base name |
| App.ImageExtension | app.js:117-118 | the extension starts with a dot and holds no slash (`.jpg` when there is none) |
| App.ImageStem | app.js:119-122 | the stem is a non-empty slug, the slug of the form's product name when that leaves one |
| App.ProductImageFilenameIsPlain | app.js:116-123 | the file name is non-empty, holds no slash and does not start with a dot |
| App.ProductImageFilenameParts | app.js:116-123 | the file name is a slug followed by the extension, the form's name slug when there is one |
| App.IsProductImageUpload | app.js:111-114 | true exactly when the original URL starts with `/admin/products` |
| App.SanitizeName | app.js:126 | same length; every character is safe, and safe characters are kept |
| App.FallbackFilename | app.js:125-128 | starts with a digit of the clock reading and holds no slash |
| App.UploadFilename | app.js:234-241 | product uploads get the slugged name, others the clock-stamped one; either way a plain file name |
| App.NaNAmountPassesAsWritten | app.js:200-203 | as written, an amount that is not a number never counts as a mismatch, while a number a unit off does |
| App.AcceptedAmountMatches | app.js:200-203 | the intended check: an amount is accepted exactly when it is a number within one cent of the total |
| App.MismatchChecksDifferOnNaN | app.js:200-203 | the check as written and the intended one disagree exactly on amounts that are not numbers |
| App.ConfirmCheckout | app.js:189-229 | user or guest cart; empty or unreadable cart goes back to `/checkout`; a number more than one cent from the total gives 400 and keeps the cart; anything else, an amount that is not a number included, empties the session cart and reports the total |
| App.Checkout | app.js:154-187 | user or guest cart; empty or unreadable cart goes back to `/cart`; otherwise the total is reported, the session cart emptied and a user's stored lines cleared unless that fails; never a mismatch |
| AdminProducts.ResolveImagePath | Controller/adminProductsController.js:7-14 | null for a missing value or one not under `/images/`; any result is the image directory or lies inside it, whatever `path.resolve` returns |
| AdminProducts.OutsidePathsRejected | Controller/adminProductsController.js:9 | two examples of the rule `ResolveImagePath` states for every path: the absolute file path "/etc/passwd" and "images/a.png", which lacks the leading slash, are never resolved |
| AdminProducts.ImageStore.DeleteImageIfExists | Controller/adminProductsController.js:16-26 | only the resolved file is removed, and only when the path resolves and the unlink succeeds; no file outside the image directory is ever removed |
| AdminProducts.ChooseImage | Controller/adminProductsController.js:52-57 | the uploaded file under `/images/` wins, else the current image, else null |
| AdminProducts.PostAdd | Controller/adminProductsController.js:46-64 | a missing required field gives 400 and creates nothing; otherwise exactly one product is created with the chosen image, unless the insert fails |
| AdminProducts.ReplacesOnlyOnUpload | Controller/adminProductsController.js:99 | without an upload the old image is never removed, nor when the upload has the current image's name |
| AdminProducts.PostEdit | Controller/adminProductsController.js:88-107 | the product gets the form's fields and the chosen image; the old image is deleted only when a new file replaced a different current image; a failed update gives 500 and changes nothing |
| AdminReports.FirstOccurrence | Controller/adminReportsController.js:11 | the first occurrence of a character is unique |
| AdminReports.ReplaceFirst | Controller/adminReportsController.js:11 | same length; unchanged when the character is absent; otherwise only its first occurrence is replaced |
| AdminReports.NormalizeDateTime | Controller/adminReportsController.js:3-15 | a missing or blank value gives the fallback; a plain date gets the start or end of day; a value with a `T` has its first `T` turned into a space and `:00` added at length 16; anything else is kept, trimmed |
| AdminReports.DateTimeLocalGetsSeconds | Controller/adminReportsController.js:10-13 | `YYYY-MM-DDTHH:MM` becomes `YYYY-MM-DD HH:MM:00` |
| AdminReports.NormalizedDateIsStable | Controller/adminReportsController.js:7-9 | a normalised plain date normalises to itself again, whatever the fallback |
| AdminReports.DayLines | Controller/adminReportsController.js:26-29 | one line per daily row, in input order |
| AdminReports.StatusLines | Controller/adminReportsController.js:32-34 | one line per status row, in input order |
| AdminReports.TopLines | Controller/adminReportsController.js:37-39 | one line per top product, in input order |
| AdminReports.PlanLines | Controller/adminReportsController.js:44-46 | one line per plan row, in input order |
| AdminReports.SeriesLines | Controller/adminReportsController.js:48-51 | one line per series row, in input order |
| AdminReports.Opening | Controller/adminReportsController.js:19-25 | seven lines precede the daily sales |
| AdminReports.CsvLayout | Controller/adminReportsController.js:17-51 | sixteen fixed lines; the range heading and `,from,to` open the export; each list's lines follow in input order at a fixed offset, a missing list giving none |
| AdminReports.SplitJoin | Controller/adminReportsController.js:52 | splitting the joined export at line breaks gives the lines back when no line holds a break |
| AdminReports.PushDayLines | Controller/adminReportsController.js:26-29 | the loop appends exactly the daily lines |
| AdminReports.PushStatusLines | Controller/adminReportsController.js:32-34 | the loop appends exactly the status lines |
| AdminReports.PushTopLines | Controller/adminReportsController.js:37-39 | the loop appends exactly the top product lines |
| AdminReports.PushPlanLines | Controller/adminReportsController.js:44-46 | the loop appends exactly the plan lines |
| AdminReports.PushSeriesLines | Controller/adminReportsController.js:48-51 | the loop appends exactly the series lines |
| AdminReports.BuildCsv | Controller/adminReportsController.js:17-53 | the export is the pushed lines joined with line breaks |
| OrdersController.BucketOf | Controller/ordersController.js:13-16 | the bucket of an order holds exactly the items of that order, never more items than there are |
| OrdersController.BucketOfAbsent | Controller/ordersController.js:13-16 | an order key that does not occur has no items |
| OrdersController.PushedGroups | Controller/ordersController.js:14-15 | pushing the next item onto its order's bucket keeps the buckets those of the items so far |
| OrdersController.PushedGroupsAt | Controller/ordersController.js:13-16 | the same step for the k-th item of the list |
| OrdersController.GroupItems | Controller/ordersController.js:12-16 | one bucket per order key that occurs, holding that order's items in input order |
| OrdersController.FirstSeen | Controller/ordersController.js:12-16 | the order keys that occur, each once |
| OrdersController.OccurrencesDistinct | Controller/ordersController.js:12-16 | a key occurs once in a list without repeats exactly when it is in it |
| OrdersController.SizeSumStep | Controller/ordersController.js:14-15 | one more item adds one to its order's bucket, once for every listing of that order |
| OrdersController.SizeSumAppend | Controller/ordersController.js:12-16 | listing one more order adds the size of its bucket |
| OrdersController.BucketSizesSum | Controller/ordersController.js:12-16 | the bucket sizes add up to the number of items: every item lands in exactly one bucket |
| OrdersController.OrderIds | Controller/ordersController.js:10 | one key per order, in order |
| OrdersController.GetMyOrders | Controller/ordersController.js:3-22 | no user or a failed query gives 500; no orders gives an empty page without an item query; otherwise the orders unchanged and the items of exactly those orders, grouped, all belonging to the user |
| AdminOrders.FilterStatuses | Controller/adminOrdersController.js:19 | "All" followed by the six statuses |
| AdminOrders.AllIsNoStatus | Controller/adminOrdersController.js:19 | "All" is not one of the statuses |
| AdminOrders.DashboardPage | Controller/adminOrdersController.js:5-29 | a failed list or item query gives 500; otherwise the listed orders, their items grouped by order, and the filters echoed with "" and "All" as defaults |
| AdminOrders.NewStatus | Controller/adminOrdersController.js:33 | the trimmed value, or "Pending" when it is missing or blank |
| AdminOrders.NewStatusTrimmed | Controller/adminOrdersController.js:33 | the written status is never blank and already trimmed |
| AdminOrders.NewStatusUnchecked | Controller/adminOrdersController.js:33-34 | any non-blank trimmed value is written as given, not checked against the six statuses |
| AdminOrders.PostStatus | Controller/adminOrdersController.js:31-39 | only that order's status changes, to the new status, unless the update fails; the answer is always the order list |
| AdminOrders.PostRefund | Controller/adminOrdersController.js:41-54 | the status becomes "Refunded" unless the update fails; success is reported only when restocking is skipped, since the restock call throws |
| Auth.NamedBelow | models/user.js:4-11 | the lowest key below the bound whose row has that name, or none when no such row exists |
| Auth.UserTable.FindByName | models/user.js:4-11 | a row with that name, the first by key, or null exactly when no row has that name |
| Auth.EmailOkMatchesPattern | Controller/authController.js:15 | the computed email check accepts exactly the addresses the regular expression matches |
| Auth.RegisterCheck | Controller/authController.js:13-17 | a missing field is reported first; the form passes exactly when all fields are present, the trimmed email is valid, the password has at least 6 characters and the confirmation matches |
| Auth.RegisterCheckOrder | Controller/authController.js:13-17 | each check is reached only when the ones before it pass |
| Auth.PostRegister | Controller/authController.js:10-32 | a failed check gives 400 with its message; a taken name 400; only when every check passes and the insert succeeds is exactly one new user (role "user", member, trimmed email, hashed password) added and signed in, and the visitor sent to `/2fa/setup`; otherwise nothing is written |
| Auth.VerifyPassword | models/user.js:219-236 | a password stored without the `$2` prefix matches exactly when it is equal |
| Auth.ExpiryReset | models/user.js:197-205 | an expired membership is cleared and nothing else changes |
| Auth.ExpiredMemberStaysMemberAsWritten | Controller/authController.js:42-55 | as written, an expired member who signs in gets a member session although the reset cleared the flag |
| Auth.SessionMember | Controller/authController.js:45-55 | the intended membership flag of the session: that of the row after the expiry reset |
| Auth.PostLogin | Controller/authController.js:38-62 | missing fields 400; unknown name 401; the expiry reset runs before the password check; a wrong password 401; with a second factor only the pending user is set and the visitor goes to `/2fa/verify`, otherwise the user, with the membership flag read before the reset, and the saved cart go into the session and the visitor to `/2fa/setup`; a matched plain-text password is replaced by its hash |
| Auth.SavedCartKey | Controller/authController.js:70 | a key exactly when there is a user, starting with `cart_saved_user_` |
| Auth.SavedCartKeyIdentifies | Controller/authController.js:70 | the user can be read back from the key, so different users get different keys |
| Auth.SavedCart | models/user.js:86-96 | null exactly for an empty cart |
| Auth.SavedCartRestored | models/user.js:68-96 | a cart saved at sign-out is the cart restored at the next sign-in |
| Auth.Logout | Controller/authController.js:64-71 | a signed-in user's session cart is saved to their row unless the save fails; the session is emptied; the key is that of the user |
| Auth.UserTable.SetSavedCart | models/user.js:86-96 | the user's saved cart becomes the cart, or null for an empty one; it succeeds exactly when the key names a row and the write does not fail, and otherwise no row changes |

## Left out

- HMAC-SHA1 in `hotp`, AES-GCM secret encryption, bcrypt, `crypto.randomBytes` and `Math.random`: the HMAC, the password hash and comparison, and the random draws are parameters; nothing is claimed about them.
- `JSON.parse` and `JSON.stringify`: a NETS payload arrives parsed, with the text it serialises to, and the saved cart column holds the cart value.
- Floating point: money is `real` without rounding. `toFixed(2)` in the report export is the parameter `fixed2`. `Number(...)` of form fields in the product handlers is the parameters `number` and `count`. The PayNow amount is an integer number of cents.
- CartController.Add / CartController.Update: the quantity field is taken as a number. A field that `Number(...)` turns into NaN is not modelled; the source keeps NaN (`Math.max(1, NaN)` is NaN), while `ClampedQty` is at least 1.
- Dates and clocks: `Date.now`, `formatMysqlDatetime`, `NOW()` and `CURDATE()` are parameters (`time`, `now`, `expired`). Creation times are left out, and "newest first" is read as descending key.
- Unicode: strings are sequences of characters, not UTF-16 code units. The NFKD decomposition in `slugifyForFilename` is left out; the slug function takes text already decomposed. Case mapping covers ASCII letters only.
- `computeCartTotals` is called by the checkout handlers and `completeOrder` but is not defined in any file of the source; it is a parameter (`rowsTotal`, `linesTotal`, `computeTotals`).
- `Order.restockItems` is not defined in models/order.js, so `postRefund` with restocking throws after the status update. The model reports the error redirect at that point and restocks nothing.
- Schema probing: `hasColumn`, the `saved_cart` column probe and the `ER_BAD_FIELD_ERROR` retry in models/transaction.js are left out; the model assumes a fixed schema with every column present.
- Columns and fields the core only copies: address, contact number, avatar URL, member dates. The session user carries only its keys, name, role and membership flag.
- Route parameters are order and product keys; a non-numeric `:id` is not modelled.
- `Order.adminList`, and in models/product.js `getAll`, `getSliderProducts`, `adminList`, `counts`, `setSlider`, `seedDemo` and `remove`: SQL listings outside the core. The admin order page takes the listed orders as input.
- `generateQrCode` in services/nets.js and services/paypal.js: HTTP calls and page rendering.
- Express itself: rendering, cookies and the session store. A reply is modelled by its status or redirect target and the fields the core computes. The sign-out page is modelled by its saved-cart key.
- PayNow.ParseTLV / PayNow.SubObjects: a length field below -4 ends the model's reading as `stalled`. The source moves its cursor before the start of the text, where `substr` counts from the end, and usually reads on: on "00-5" it returns three entries and stops. `Substr` covers only starts that are not negative.
- AdminProducts.PostEdit: a form without a name saves the empty text as the name. The source passes the missing name to the update as it is, which the database stores as NULL or refuses with a 500, depending on a schema that is not part of this model; product names are plain text throughout the model.
- Auth.PostLogin: the password upgrade in `verifyPassword` is a write the source does not wait for; the model applies it at once.
- RefundRequests.RefundTable.GetByOrderIds: the rows come back as a map from order key to request; the order in which the database returns them is not modelled.
- BackupCodes.GeneratePlainCodes: the loop that draws codes until it has enough distinct ones need not end; the model takes a finite list of draws and may return fewer codes when the draws run out.

## Findings

| source | as written | input that shows it | evidently intended | confidence | as-written member | corrected member |
|---|---|---|---|---|---|---|
| utils/paynow.js:59-66 | `parseTLV` moves the cursor by 4 + length, with the length read by `parseInt`; a length field of -4 or less leaves the cursor in place or moves it back | the payload "00-4": the length is -4, so the cursor stays at 0 and the loop never ends | a length of -4 or less ends the reading, reported as a stall, instead of reading the same object again or reading on from before the start of the text | not executed | PayNow.ParseTLVMinusFourAsWritten | PayNow.ParseTLVMinusFourStalls |
| app.js:200-203 | the amount check rejects only when `Math.abs(amount - total) > 0.01`; for a non-numeric amount `Number(...)` is NaN, the comparison is false, and the payment is accepted (the guest branch at lines 217-220 does the same) | amount "abc" with any cart total | only a number within one cent of the total is accepted | not executed | App.NaNAmountPassesAsWritten | App.AcceptedAmountMatches |
| Controller/authController.js:42-55 | `postLogin` resets an expired membership in the table but fills the session's `is_member` from the row read before the reset | a member whose membership has expired signs in without a second factor | the session reflects the membership after the reset | not executed | Auth.ExpiredMemberStaysMemberAsWritten | Auth.SessionMember |
