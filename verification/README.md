# hypnate-backend core, modelled in Dafny

hypnate-backend is a multi-tenant e-commerce backend. Sellers register, or sign in with Google. They keep customers and a product catalogue. They take orders that carry a status and payment timeline, and they export those orders as CSV.

Almost every handler is an ORM call wrapped in an Express handler. This project models the decision logic underneath that plumbing:

- **Configuration:** the token-expiry parser and the JWT and bcrypt settings derived from it.
- **Request guards:** the `Authorization` header check, the upload filter and the product schema.
- **Seller resolution:** the three ways the code resolves the seller a request acts for.
- **Account flows:**
  - registration, login and profile update;
  - both password-reset flows;
  - the Google find-or-create.
- **Seller data:**
  - category insert and listing;
  - the customer table operations;
  - order pricing and the order timeline state machine;
  - the CSV export.

## How the model is built

The database is one object. `Schema.Database` holds every table as a `map` from id to row, plus one id sequence per table that rows are inserted into.

`Schema.Consistent` states the invariants the rest of the model keeps:

- every row sits under its own id;
- the sequences are ahead of every id;
- emails and reset tokens are unique;
- category names are unique;
- the foreign keys `user.sellerId` and `passwordReset.userId` point at existing rows.

Handlers that write are methods. Each one modifies only the tables it touches. Each is proved against a pure function of the old tables that says what the reply and the new tables are, and each keeps `Valid()`.

Handlers that only read are functions. They return a `Reply`, which is one of:

- `Ok(code, body)`;
- `Fail(code, message)`;
- `Threw`, for an exception the handler does not answer itself.

JavaScript's value semantics are written out in module `Js`:

- `null` and `undefined` are `None`;
- `||` is `OrElse` and `??` is `Coalesce`;
- truthiness is `Truthy` and `TruthyInt`;
- `trim`, `toLowerCase`, `toUpperCase`, `Number`, `parseInt`, `split`, `join` and `includes` are modelled on `seq<char>`.

The following are parameters of the operations that use them:

- the clock (`now` in milliseconds, `nowIso` and `iso` for `toISOString`);
- bcrypt (`hash`, `matches`);
- JWT signing and verification (`sign`, `verify`);
- the random reset token.

The CSV export quotes fields the way the code does, without doubling embedded quotes. `OrderExport.QuoteIsRfc4180Iff` states when that agrees with section 2, rule 7 of RFC 4180. The bearer header is parsed as the code parses it, which differs from the `credentials` rule of section 2.1 of RFC 6750 in both directions. It is stricter in two ways. The scheme name is case-sensitive (`AuthMiddleware.LowerCaseSchemeRefused`). Exactly one space is read after it: the RFC's `1*SP` reads "Bearer  x" as the token "x", the code as the empty token (`AuthMiddleware.BearerTokenDoubleSpace`). It is looser in two ways. Any text without a space is taken as the token, not only the `b64token` characters. Text after a second space is ignored (`AuthMiddleware.BearerTokenUpToSpace`).

## Model

| member | source | states |
|---|---|---|
| JwtConfig.ToSeconds | src/utils/jwtConfig.ts:25-39 | the unit switch: s, m, h and d (either case) multiply the value by 1, 60, 3600 and 86400 |
| JwtConfig.MatchUnitFormShape | src/utils/jwtConfig.ts:22-23 | a match of `^(\d+)\s*(s\|m\|h\|d)$` decomposes the text into digits, spaces and one unit letter, and its value is the digits' value converted by the unit |
| JwtConfig.MatchUnitFormOf | src/utils/jwtConfig.ts:22-37 | conversely, digits followed by spaces and a unit letter always match, with the digits as the number |
| JwtConfig.ParseExpiry | src/utils/jwtConfig.ts:15-16 | undefined or empty input gives undefined |
| JwtConfig.ParseExpiryPlain | src/utils/jwtConfig.ts:17-20 | an all-digit string, with any white space around it, is read as that many seconds |
| JwtConfig.ParseExpiryUnit | src/utils/jwtConfig.ts:17-37 | `<digits><spaces><unit>`, with any white space around it, gives the digits times the unit's seconds |
| JwtConfig.ParseExpiryUnitBare | src/utils/jwtConfig.ts:22-37 | `<digits><unit>` gives the digits times the unit's seconds |
| JwtConfig.ParseExpiryShapes | src/utils/jwtConfig.ts:17-39 | every defined result comes from one of the two accepted shapes of the trimmed input; nothing else is accepted |
| JwtConfig.ParseExpiryRejects | src/utils/jwtConfig.ts:22-23 | "1.5h", "-5", "7w", "d" and a blank string give undefined |
| JwtConfig.ParseExpiryMonotone | src/utils/jwtConfig.ts:25-37 | for a fixed unit, a larger number never gives a shorter expiry |
| JwtConfig.JwtOptions | src/utils/jwtConfig.ts:45-48 | the signing options carry `expiresIn` exactly when the parsed expiry is defined and non-zero, and then carry that value |
| JwtConfig.JwtOptionsDefault | src/utils/jwtConfig.ts:8 | with TOKEN_EXPIRY unset, the default "7d" gives 604800 seconds |
| JwtConfig.JwtOptionsWithoutExpiry | src/utils/jwtConfig.ts:45-48 | "0", "" and an invalid value give options without an expiry |
| JwtConfig.SaltRounds | src/utils/jwtConfig.ts:9 | SALT_ROUNDS is 10 when the variable is missing, not a number or 0; otherwise it is the number |
| JwtConfig.SaltRoundsOf | src/utils/jwtConfig.ts:9 | a digit string is used as the round count, except that 0 and the empty string fall back to 10 |
| SellerId.StoredSellerId | src/utils/user.ts:24-29 | the lookup by user id finds the stored sellerId exactly when the row exists and has one |
| SellerId.GetSellerIdForReq | src/utils/user.ts:11-30 | a truthy token sellerId is returned as is; without a user id the answer is null; otherwise it is the stored sellerId or null, never undefined |
| SellerId.ZeroSellerIdIsAbsent | src/utils/user.ts:15 | a token sellerId of 0 gives the same answer as no sellerId |
| SellerId.TokenSellerIdNeedsNoLookup | src/utils/user.ts:15-17 | with a truthy token sellerId, the user table does not affect the answer |
| SellerId.LookedUpSellerExists | src/utils/user.ts:24-29 | in a consistent database a sellerId found by lookup names an existing seller |
| AuthMiddleware.BearerToken | src/middleware/authMiddleware.ts:15-20 | a token is extracted exactly when the header is present and starts with "Bearer " (case-sensitive); the token holds no space |
| AuthMiddleware.BearerTokenUpToSpace | src/middleware/authMiddleware.ts:20 | the token is the text after "Bearer " up to the next space |
| AuthMiddleware.BearerTokenOf | src/middleware/authMiddleware.ts:20 | a token without spaces after "Bearer " comes back unchanged |
| AuthMiddleware.BearerTokenDoubleSpace | src/middleware/authMiddleware.ts:20 | "Bearer  x" (two spaces) yields the empty token |
| AuthMiddleware.LowerCaseSchemeRefused | src/middleware/authMiddleware.ts:16 | "bearer " in lower case is refused |
| AuthMiddleware.Request.constructor | src/middleware/authMiddleware.ts:6-12 | a fresh request has no `user` and no call of `next` |
| AuthMiddleware.VerifyToken | src/middleware/authMiddleware.ts:14-30 | with no usable header: 401 "No token provided"; on verification failure: 401 "Invalid or expired token"; in both `next` is not called and `req.user` is untouched; on success: `req.user` is the decoded payload and `next` is called exactly once |
| Upload.ImageFileFilter | src/middleware/upload.middleware.ts:24-30 | the callback is invoked once: with `(null, true)` exactly for the four image types, and with the error otherwise |
| Upload.AcceptedTypes | src/middleware/upload.middleware.ts:25-29 | exactly image/jpeg, image/png, image/webp and image/gif are accepted |
| Upload.RefusedTypes | src/middleware/upload.middleware.ts:26-27 | "image/svg+xml" and "IMAGE/PNG" are refused: the list is exact and case-sensitive |
| Upload.MaxFileSize | src/middleware/upload.middleware.ts:21 | MAX_FILE_SIZE is 5242880 unless the variable is set to a non-empty value, which is then read with `Number` |
| Upload.MulterForMode | src/middleware/upload.middleware.ts:33-39 | disk storage exactly for mode "local", memory storage otherwise; the size limit is MAX_FILE_SIZE |
| Upload.DefaultLimit | src/middleware/upload.middleware.ts:21 | without the variable (or with it empty) uploads are limited to 5 MiB |
| Upload.ConfiguredLimit | src/middleware/upload.middleware.ts:21 | a decimal MAX_FILE_SIZE is used as the limit |
| Validation.EveryFieldListed | src/utils/validation.ts:3-9 | the schema's field list names all five fields |
| Validation.Failing | src/utils/validation.ts:3-9 | the fields reported are exactly the listed ones whose rule fails |
| Validation.ProductIssues | src/utils/validation.ts:3-9 | a field is reported exactly when its rule fails; at most five are reported |
| Validation.ValidIffNoIssues | src/utils/validation.ts:3-9 | a body passes `productSchema` exactly when no field is reported |
| Validation.Boundaries | src/utils/validation.ts:4-7 | price 0 is refused and 0.01 accepted; stock 0 is accepted and 1.5 and -1 refused; "" and a number are not a non-empty string |
| Categories.NameLeIsTotalPreorder | src/controllers/category.controller.ts:8-10 | ordering by name is total and transitive |
| Categories.GetCategories | src/controllers/category.controller.ts:6-16 | the listing is the table's rows, each as often as it occurs, in ascending name order |
| Categories.GetCategoriesListsTable | src/controllers/category.controller.ts:8-11 | every category is listed and nothing else is |
| Categories.GetCategoriesStrictlyAscending | src/controllers/category.controller.ts:8-10 | with unique names the listing is strictly ascending |
| Categories.NamesDiffer | src/controllers/category.controller.ts:8-10 | two positions of the listing hold different names |
| Categories.RowsDistinct | src/controllers/category.controller.ts:8-10 | two positions of the listing hold different rows |
| Categories.InsertKeepsConsistent | src/controllers/category.controller.ts:26-32 | inserting a not-yet-taken name under the next id keeps names unique and the database consistent |
| Categories.CreateCategory | src/controllers/category.controller.ts:19-37 | missing or non-string name: 400 and no insert; an existing name: 409 and no change; otherwise 201 with exactly one new category of that name |
| Passport.FirstEmail | src/auth/passport.ts:14 | only the first listed email is used, as given |
| Passport.GoogleUser | src/auth/passport.ts:25-32 | a new Google user has the display name, the email, provider GOOGLE, role SELLER, no password and no seller |
| Passport.SignInWith | src/auth/passport.ts:12-35 | no email: an error and no user; a known email: that user and no change; otherwise exactly one new user |
| Passport.SignInIdempotent | src/auth/passport.ts:20-33 | a second sign-in with the same profile writes nothing and returns the same user |
| Passport.FindOrCreate | src/auth/passport.ts:12-38 | the callback's answer and the user table afterwards are those of `SignInWith` |
| PasswordResets.AddReset | src/controllers/passwordReset.controller.ts:36-42 | a record with the user's id and expiry now + 1800000 ms is added under the next id, unless the token is already in use |
| PasswordResets.ResetByToken | src/controllers/passwordReset.controller.ts:61-64 | the lookup by token finds the record holding it, and none exactly when no record does |
| PasswordResets.UserByEmail | src/controllers/passwordReset.controller.ts:17-19 | the lookup by email finds a user with that email, and none exactly when no user has it |
| PasswordResets.UserByEmailFinds | src/controllers/passwordReset.controller.ts:17-19 | with unique emails the lookup finds the one account holding the address |
| PasswordResets.Account | src/controllers/passwordReset.controller.ts:17-19 | the account looked up is the one whose email is the lower-cased input |
| PasswordResets.Issue | src/controllers/passwordReset.controller.ts:10-50 | no email: 400 and no record; unknown email or an account without a password: a non-error answer and no record; otherwise exactly one 30-minute record for that user |
| PasswordResets.Consume | src/controllers/passwordReset.controller.ts:53-82 | password missing or shorter than 6: 400, nothing changes; unknown or expired token (expiry strictly before now): 400, nothing changes; with a usable token: 200 exactly when the token's user exists, and then only that user's password becomes the hash and the record is deleted; otherwise the update throws and nothing changes |
| PasswordResets.SingleUse | src/controllers/passwordReset.controller.ts:66-79 | after a successful reset the same token is refused |
| PasswordResets.IssueThenReset | src/controllers/passwordReset.controller.ts:33-82 | a token just issued can be used before it expires, and then sets the user's password |
| PasswordResets.IssueKeepsConsistent | src/controllers/passwordReset.controller.ts:36-42 | adding a record with a fresh token for an existing user keeps the database consistent |
| PasswordResets.ConsumeKeepsConsistent | src/controllers/passwordReset.controller.ts:70-79 | rewriting the password and deleting the record keeps the database consistent |
| PasswordResets.ForgotPassword | src/controllers/passwordReset.controller.ts:10-50 | the reply and the token table afterwards are those of `Issue` |
| PasswordResets.ResetPassword | src/controllers/passwordReset.controller.ts:53-82 | the reply and the user and token tables afterwards are those of `Consume` |
| Auth.Claims | src/controllers/auth.controller.ts:12-22 | the signed payload carries the user's id, role and sellerId |
| Auth.RoleOf | src/controllers/auth.controller.ts:39 | the role defaults to "SELLER" and is upper-cased |
| Auth.Register | src/controllers/auth.controller.ts:27-80 | missing name, email or password: 400; a SELLER without businessName or phone: 400; a taken lower-cased email: 409 and nothing written; otherwise a seller is created only for role SELLER, and the user with the lower-cased email, the hashed password and that seller's id (or none), and 201 with the signed token; a body that passes every check with a free address is always registered |
| Auth.RegisterKeepsConsistent | src/controllers/auth.controller.ts:47-71 | registration keeps emails unique and the new user's seller link valid |
| Auth.RegisterIgnoresCase | src/controllers/auth.controller.ts:47-53 | registering "Ann@X.com" when "ann@x.com" exists is refused with 409 (case folding of ASCII letters only) |
| Auth.Login | src/controllers/auth.controller.ts:85-136 | failures in order: missing field 400, unknown email 404, social account 400, wrong password 400; otherwise 200 with the token and the user |
| Auth.RegisterThenLogin | src/controllers/auth.controller.ts:27-136 | after a registration, logging in with the same email in any ASCII letter case and the same password succeeds for the new user |
| Auth.RequestReset | src/controllers/auth.controller.ts:142-172 | no email or unknown email: the neutral answer and no record; otherwise a 30-minute record for the user, even for a social account |
| Auth.RequestResetIsNeutral | src/controllers/auth.controller.ts:145-166 | the answer never reveals whether the address exists |
| Auth.SocialAccountsDiffer | src/controllers/auth.controller.ts:149-166 | for a social account this handler issues a record where the other forgot-password handler issues none |
| Auth.ProfileUpdate | src/controllers/auth.controller.ts:209-218 | only the given fields change: the name, and the password as its hash |
| Auth.RegisterUser | src/controllers/auth.controller.ts:27-80 | the reply and the tables afterwards are those of `Register`, and the database stays consistent |
| Auth.CreateAccount | src/controllers/auth.controller.ts:55-76 | once the checks pass, the writes are those of `Register` |
| Auth.ForgotPassword | src/controllers/auth.controller.ts:142-172 | the reply and the token table afterwards are those of `RequestReset` |
| Auth.UpdateProfile | src/controllers/auth.controller.ts:199-224 | without a user id: 401 and no change; for an id with no row the update throws and nothing changes; otherwise only the caller's row is rewritten, as `ProfileUpdate` says |
| Orders.ResolveSellerId | src/controllers/order.controller.ts:9-26 | without a user it throws; a truthy token sellerId is returned; otherwise a stored sellerId wins, else the token's falsy value |
| Orders.Acting | src/controllers/order.controller.ts:48 | a resolution lets a handler act exactly when it yields a truthy seller id |
| Orders.Line | src/controllers/order.controller.ts:62-71 | a line item keeps the product id, takes quantity 1 for a missing or 0 quantity, and snapshots the stored price, or 0 for an unknown product |
| Orders.Lines | src/controllers/order.controller.ts:61-72 | one line item per input item, in input order |
| Orders.SubtotalConcat | src/controllers/order.controller.ts:61-66 | the subtotal of two runs of lines is the sum of their subtotals |
| Orders.SubtotalNonNegative | src/controllers/order.controller.ts:61-66 | non-negative prices and quantities give a non-negative subtotal |
| Orders.UnknownProductsCostNothing | src/controllers/order.controller.ts:63-66 | items whose products are all unknown cost nothing |
| Orders.PriceItems | src/controllers/order.controller.ts:61-72 | the loop builds exactly `Lines` and accumulates their subtotal |
| Orders.Placed | src/controllers/order.controller.ts:74-108 | a new order has status PENDING, payment UNPAID, a one-entry "Order placed" timeline, tax as given or 0, total = subtotal + tax, and the body's customer fields |
| Orders.AddOrderKeepsConsistent | src/controllers/order.controller.ts:87-108 | inserting under the next id keeps the database consistent |
| Orders.CreateOrder | src/controllers/order.controller.ts:42-114 | without a user it throws; no seller or no products: 400 and nothing written; otherwise exactly one new order as `Placed` says, and 201 |
| Orders.InsertOrder | src/controllers/order.controller.ts:87-110 | the row written is `Placed` under the next id, and nothing else changes |
| Orders.GetOrderById | src/controllers/order.controller.ts:149-169 | bad id: 400; no user: throws; no seller: 400; the order only when the seller owns it, else 404 |
| Orders.Locate | src/controllers/order.controller.ts:178-187 | the guards of the three update handlers: bad id or missing field 400, no user throws, no seller 400, not owned 404, else the order's id |
| Orders.LookupsAgree | src/controllers/order.controller.ts:151-164 | `getOrderById` finds an order exactly when the update guards grant it |
| Orders.History | src/controllers/order.controller.ts:189 | a stored timeline that is not an array counts as empty |
| Orders.Prepend | src/controllers/order.controller.ts:189-191 | the timeline grows by exactly one entry, in front; the rest of the order is unchanged |
| Orders.WithStatus | src/controllers/order.controller.ts:189-197 | only status and timeline change; the note defaults to "Status updated to <status>" |
| Orders.WithPayment | src/controllers/order.controller.ts:227-236 | only paymentStatus, paymentMethod (given one, else the existing one) and timeline change; the entry's status is "PAYMENT_<status>" |
| Orders.WithTracking | src/controllers/order.controller.ts:266-275 | only trackingNumber, status SHIPPED and timeline change, with one SHIPPED entry in front |
| Orders.EmptyNoteIsKept | src/controllers/order.controller.ts:190 | an empty note is kept, since `??` only replaces null and undefined |
| Orders.NonArrayTimelineRestarts | src/controllers/order.controller.ts:189-191 | a non-array timeline is replaced by the one new entry |
| Orders.UpdatesKeepHistory | src/controllers/order.controller.ts:189-197 | two status updates leave both entries, newest first, in front of the old history |
| Orders.RewriteKeepsConsistent | src/controllers/order.controller.ts:194-198 | rewriting an order under its own id keeps the database consistent |
| Orders.UpdateOrderStatus | src/controllers/order.controller.ts:176-208 | refused by the guards: the reply and no change; otherwise only that order becomes `WithStatus` and is returned |
| Orders.UpdatePaymentStatus | src/controllers/order.controller.ts:215-247 | refused by the guards: the reply and no change; otherwise only that order becomes `WithPayment` and is returned |
| Orders.AddTracking | src/controllers/order.controller.ts:254-286 | refused by the guards: the reply and no change; otherwise only that order becomes `WithTracking` and is returned |
| OrderExport.NewerFirstIsTotalPreorder | src/controllers/orderExport.controller.ts:20 | ordering by createdAt descending is total and transitive |
| OrderExport.OfSeller | src/controllers/orderExport.controller.ts:14 | the rows kept are exactly those of the seller, each as many times as it occurs in the input and no more |
| OrderExport.SellerOrders | src/controllers/orderExport.controller.ts:13-21 | exactly the seller's orders, newest first |
| OrderExport.SellerOrdersCounts | src/controllers/orderExport.controller.ts:13-21 | each of the seller's orders is listed as often as the table holds it (once), and no other order is listed |
| OrderExport.SellerOrdersDistinct | src/controllers/orderExport.controller.ts:13-21 | when rows carry their own ids, no order is listed twice: two positions of the listing hold different rows |
| OrderExport.ItemLabels | src/controllers/orderExport.controller.ts:27-29 | one `<name> (x<qty>)` label per line item, in order; none when a line's product row is missing |
| OrderExport.Quote | src/controllers/orderExport.controller.ts:34 | the text between two double quotes, unchanged |
| OrderExport.Columns | src/controllers/orderExport.controller.ts:31-41 | the nine columns in header order; a missing phone or email is an empty column |
| OrderExport.ExportOrders | src/controllers/orderExport.controller.ts:5-53 | the handler's reply equals `Export`: 401 without a seller, 500 when a record fails, otherwise the header followed by one record per order of the query, in query order |
| OrderExport.AppendRecords | src/controllers/orderExport.controller.ts:26-42 | the `csv +=` loop: the starting text followed by every record in order, or a failure exactly when some record cannot be written |
| OrderExport.RecordsSomeIff | src/controllers/orderExport.controller.ts:26-42 | all records are written exactly when each one can be |
| OrderExport.ExportOutcomes | src/controllers/orderExport.controller.ts:7-52 | no sellerId in the token: 401; otherwise 500 exactly when an exported order has a line without its product row, and else 200 with the header and the records |
| OrderExport.ExportShape | src/controllers/orderExport.controller.ts:24-42 | the output begins with the header and has one line per exported order |
| OrderExport.RecordsLines | src/controllers/orderExport.controller.ts:26-42 | the records of n orders are n lines |
| OrderExport.RecordIsOneLine | src/controllers/orderExport.controller.ts:31-41 | a record is one line, ended by its line break |
| OrderExport.HeaderIsOneLine | src/controllers/orderExport.controller.ts:24 | the header is one line, ended by its line break |
| OrderExport.RecordColumns | src/controllers/orderExport.controller.ts:31-41 | when no column holds a comma, splitting a record's text on commas gives back the nine columns |
| OrderExport.DoubleQuotes | src/controllers/orderExport.controller.ts:34 | the reference quote-doubling never shortens the text |
| OrderExport.DoubleQuotesIdentityIff | src/controllers/orderExport.controller.ts:34 | doubling quotes leaves the text unchanged exactly when it has no quote |
| OrderExport.QuoteIsRfc4180Iff | src/controllers/orderExport.controller.ts:34 | the code's quoting agrees with section 2, rule 7 of RFC 4180 exactly when the text holds no double quote |
| Customers.ResolveSellerId | src/controllers/customer.controller.ts:8-22 | a truthy token sellerId is returned; otherwise, with a truthy user id, the stored sellerId; otherwise a falsy value |
| Customers.Effective | src/controllers/customer.controller.ts:34-37 | the seller a resolution lets a handler act for: its value exactly when truthy |
| Customers.SellerResolutionsAgree | src/controllers/customer.controller.ts:8-22 | when user id 0 holds no row, `getSellerIdForReq` and the order and customer controllers' `resolveSellerId` let a request act for the same seller |
| Customers.SellerResolutionsAgreeInDatabase | src/controllers/customer.controller.ts:8-22 | the three agree in every consistent database |
| Customers.SellerResolutionsDifferOnUserZero | src/controllers/order.controller.ts:14-22 | for user id 0 with a stored seller, the order controller acts for that seller and `getSellerIdForReq` gives null |
| Customers.Select | src/controllers/customer.controller.ts:41-53 | the rows kept are exactly the seller's, and with a truthy search term only those whose name, email or phone contains it ignoring case; each kept row as many times as it occurs in the input and no more |
| Customers.NewerFirstIsTotalPreorder | src/controllers/customer.controller.ts:54 | ordering by createdAt descending is total and transitive |
| Customers.GetCustomers | src/controllers/customer.controller.ts:34-55 | no seller: 401; otherwise exactly the seller's selected customers, each as often as the table holds it, newest first |
| Customers.CustomersDistinct | src/controllers/customer.controller.ts:41-55 | when rows carry their own ids, no customer is listed twice: two positions of the listing hold different rows |
| Customers.NoSearchListsAll | src/controllers/customer.controller.ts:44-52 | without a search term, or with an empty one, every customer of the seller is listed |
| Customers.Locate | src/controllers/customer.controller.ts:73-95 | no seller: 401; non-numeric id: 400; found exactly when the seller owns it, else 404 |
| Customers.GetCustomerById | src/controllers/customer.controller.ts:73-99 | the guards' error, or the owned customer, which belongs to the acting seller |
| Customers.Merge | src/controllers/customer.controller.ts:134-141 | a given name, email or phone replaces the old value, an absent one (null or undefined) keeps it; nothing else of the row changes |
| Customers.EmptyUpdateChangesNothing | src/controllers/customer.controller.ts:137-139 | an update that gives no field leaves the customer as it is |
| Customers.MergeIdempotent | src/controllers/customer.controller.ts:137-139 | repeating the same update changes nothing more |
| Customers.CustomerChangeKeepsConsistent | src/controllers/customer.controller.ts:134-177 | rewriting a customer under its own id, or deleting it, keeps the database consistent |
| Customers.UpdateCustomer | src/controllers/customer.controller.ts:114-141 | refused by the guards: the error and no change; otherwise only that customer becomes `Merge` of the body and is returned |
| Customers.DeleteCustomer | src/controllers/customer.controller.ts:159-179 | refused by the guards: the error and no change; otherwise exactly that customer is removed |
| Customers.DeleteRemovesOne | src/controllers/customer.controller.ts:177 | a delete removes exactly one key; every other row, of any seller, stays |
| Schema.UpdateUserKeeps | src/controllers/passwordReset.controller.ts:70-75 | rewriting a user row that keeps its id, email and seller link keeps the user-table invariants |
| Schema.AddUserKeeps | src/controllers/auth.controller.ts:64-71 | adding a user with a new email and a valid seller link keeps the user-table invariants |
| Schema.AddResetKeeps | src/controllers/passwordReset.controller.ts:36-42 | adding a record with an unused token for an existing user keeps the reset-table invariants |
| Schema.RemoveResetKeeps | src/controllers/passwordReset.controller.ts:77-79 | deleting a record keeps the reset-table invariants |
| Schema.Find | src/auth/passport.ts:20-22 | `findUnique`/`findFirst`: a matching row when there is one, the least id among them, and none exactly when no row matches |
| Schema.FindUnique | src/auth/passport.ts:20-22 | on a unique column, the lookup finds the one row holding the value |
| Schema.Rows | src/controllers/category.controller.ts:8-10 | the rows of a table, one per key |
| Schema.RowsOccurOnce | src/controllers/category.controller.ts:8-10 | when no two ids hold the same row (as when rows carry their own ids), no row occurs twice among the rows of the table; shared by the category, customer and order listings |
| Sorting.Insert | src/controllers/category.controller.ts:8-10 | inserting into a sorted sequence keeps it sorted and adds exactly that element |
| Sorting.SortBy | src/controllers/category.controller.ts:8-10 | the `orderBy` of a query: sorted, and a permutation of the rows |
| Sorting.LexLeTotal | src/controllers/category.controller.ts:9 | name order compares any two names |
| Sorting.LexLeTransitive | src/controllers/category.controller.ts:9 | name order is transitive |
| Sorting.LexLeAntisymmetric | src/controllers/category.controller.ts:9 | two names each at most the other are equal |
| Js.OrElse | src/controllers/orderExport.controller.ts:35-36 | `a \|\| b` on a nullable string: a when non-empty, else b |
| Js.Coalesce | src/controllers/customer.controller.ts:137-139 | `a ?? b`: a when present, b for null or undefined |
| Js.TrimStartSpec | src/utils/jwtConfig.ts:17 | removing leading white space leaves the longest suffix that does not start with white space |
| Js.TrimEndSpec | src/utils/jwtConfig.ts:17 | removing trailing white space leaves the longest prefix that does not end with white space |
| Js.TrimPadded | src/utils/jwtConfig.ts:17 | `trim()` removes exactly the white space around the text |
| Js.ToLower | src/controllers/auth.controller.ts:48 | lower-casing maps each character, ASCII letters only, and keeps the length |
| Js.ToUpper | src/controllers/auth.controller.ts:39 | upper-casing maps each character, ASCII letters only, and keeps the length |
| Js.ToLowerIdempotent | src/controllers/auth.controller.ts:47-67 | lower-casing a lower-cased address changes nothing, so lookup and storage agree |
| Js.NatToString | src/controllers/orderExport.controller.ts:32-39 | a number prints as its decimal digits, without leading zeros |
| Js.IntToString | src/controllers/orderExport.controller.ts:32-39 | `String(i)`: for a non-negative value its decimal digits without leading zeros; for a negative one a minus sign followed by `NatToString` of the magnitude |
| Js.IntToStringNegative | src/controllers/orderExport.controller.ts:39 | a negative total prints as a minus sign followed by the decimal digits of its magnitude, without leading zeros |
| Js.NumberOfDigits | src/controllers/customer.controller.ts:78 | `Number` reads a decimal numeral with white space around it as its value |
| Js.ParseIntDigits | src/controllers/order.controller.ts:151 | `parseInt` reads the leading digits and ignores what follows |
| Js.Split | src/middleware/authMiddleware.ts:20 | `split` gives at least one piece, and no piece holds the separator |
| Js.SplitJoin | src/middleware/authMiddleware.ts:20 | joining the pieces of a split gives back the text |
| Js.JoinSplit | src/controllers/orderExport.controller.ts:31-41 | splitting a join of separator-free pieces gives back the pieces |
| Js.NotInJoin | src/controllers/orderExport.controller.ts:24 | a character in neither the pieces nor the separator is not in their join |
| Js.SplitAtFirst | src/middleware/authMiddleware.ts:20 | the first piece of a split ends at the first separator |
| Js.ContainsIff | src/controllers/customer.controller.ts:47-49 | `contains` holds exactly when the term occurs at some position |

## Left out

- Prisma relations and `include`s are not followed. The order lines, the customer's orders and the login answer's seller are returned as rows. `findMany` plus `find` over the product prices is modelled as a lookup by key.
- Queries without `orderBy` return rows in id order. Ties in the createdAt sort keep the insertion sort's order, where the database's order is unspecified.
- `mode: "insensitive"` is ASCII case folding, and name order is code-unit order. The database's collation is not modelled.
- `Number` and `parseInt` are modelled on decimal integers. `Number` reads signed or unsigned decimals; hexadecimal, exponent and fractional forms are `None`. IEEE-754 rounding and overflow on huge digit strings are not modelled.
- Money is in integer minor units. A body field that is not an integer is out of scope: `quantity` and `tax` are `Option<int>`, so `typeof tax === "number"` is "present".
- Bcrypt, JWT signing and verification, `crypto.randomBytes`, `Date.now` and `toISOString` are parameters. The reset link's `console.log`, the CSV `Content-Type` and `Content-Disposition` headers, and Express response plumbing are not modelled.
- `getOrders` and `getOrderStatus` are not modelled. Neither are `getProfile` and `logout`, the PDF invoice, analytics, product CRUD, Cloudinary uploads, disk file naming and the `uploads` directory creation. The same goes for routing, rate limiting, CORS and the error-handler middleware.
- The foreign keys from line items to products and from orders and customers to sellers are not part of `Consistent`. The handlers do not check them. A database foreign key on a line item's product, which the model does not capture, would make `createOrder` with an unknown product id throw instead of answering 201 with price 0 for that line (`Orders.Line`, `Orders.UnknownProductsCostNothing`, `Orders.CreateOrder`).
- Role values are not validated, which matches the source: any upper-cased string is stored.
- Concurrency is not modelled. Handlers run one at a time, so the check-then-insert races of register, category, find-or-create and the read-then-write of timelines do not arise.
- A missing product row in the export is modelled as the 500 reply of the handler's own `catch`, which is where the TypeError of reading `Product.name` of it goes.
- `createOrder` writes only the order: it upserts no customer row and updates no customer totals.
- Js.ToLower: maps ASCII letters only and keeps the length. JavaScript's `toLowerCase` maps every Unicode letter and can lengthen the text ("İ" becomes two code units). So "ÄNN@X.COM" does not match a stored "änn@x.com" in the model (registration, login and both forgot-password lookups), where the source finds it. `Auth.RegisterIgnoresCase` and `Auth.RegisterThenLogin` hold for ASCII letters only.
- Js.ToUpper: maps ASCII letters only. JavaScript's `toUpperCase` maps every Unicode letter ("ſeller" becomes "SELLER"), so a role such as "ſeller" takes the seller branch of `register` in the source and not in `Auth.RoleOf`.
- PasswordResets.AcceptablePassword: counts characters as code points. JavaScript's `.length` counts UTF-16 code units, so a password of three emoji (length 6 in the source) is accepted by the source and refused by the model.
