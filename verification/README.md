# Promotional order intake, modelled in Dafny

This project models the server core of a Next.js storefront used by
a Lao beverage promotion. The core covers these pieces:

- **Create order.** The public `POST /api/v1/orders/create-order` route does four things:
  - It rate-limits the caller.
  - It validates the JSON body against a zod schema and reports the first issue as `"<path>: <message>"`.
  - It creates or updates the customer, keyed by phone number.
  - Inside one database transaction, it writes an order with crate-fee, subtotal and total amounts, plus one detail row per line. Each detail row snapshots the product's prices.
- **Helpers.** These are the pure helpers of `lib/utils.ts`: `slugFormat`, `handlePrismaError`, `formatDate`, the stock classifiers `getStatus`/`getText` with the `REORDER_POINT` environment setting, and the province-code table.
- **Middleware.** The CORS middleware, which runs on every request.
- **Sign-in.** The credentials `authorize` ladder and the `jwt`/`session` callbacks.
- **Sign-up.** The admin sign-up route.
- **Rate limiting.** The rate-limit gate shared by public routes.

The database is an immutable value `OrderDb.Db` (customers, a product map
keyed by id, orders, order details). A transaction is a pure function from one
`Db` to `Committed(db', order)` or `RolledBack(error)`. A rollback returns the
original value unchanged, so "nothing persists" holds by construction. Ids
that the database would assign come from `Rows.FreshId`: one more than the
largest id in use.

Anything the code calls but does not define becomes a function parameter:
- `Date.parse` succeeding is the predicate `dateParses`.
- zod's e-mail check is `isEmail`.
- `bcrypt.compare` and `bcrypt.hashSync` are `compare` and `hash`.
- The Upstash limiter is `limiter`.
- A Prisma write failure is the optional `fault`.

The single `user` table appears as two views that are not connected.
`OrderDb.Customer` is the order flow's view: phone number and profile.
`Auth.Account` is the view read by `authorize` and by the sign-up duplicate
check: email, password hash, status and role. Keeping them apart is sound as
long as no account row shares its phone number with an order's customer. A
customer row created by an order carries no email, so `authorize` cannot find
it, and sign-up only reads `user`; it never writes to it. But the order flow
looks a customer up by phone number alone, so an order placed with an account
holder's phone number overwrites that account's profile (see "## Left out").

Request bodies are `JsonValue.Json` trees. Validation failures carry zod v3's
default messages and its issue paths. A path prints comma-joined, exactly as
the source's template string prints an array.

Modules:
- `Wrappers`, `Text`, `Decimal` (JavaScript `parseInt` and integer printing).
- `JsonValue`, `Schema` (the zod checks used), `Http`, `Rows`.
- `Utils`, `Cors`, `RateLimit`, `Auth`, `Signup`.
- `OrderDb` (upsert, totals, details, transaction, integrity).
- `OrderSchema` (the order body schema).
- `OrderRoute` (the `POST` handler).

Where the code's behaviour is easy to misread, the model follows the code:
- A line quantity is any JSON number. It need not be positive.
- An empty `order_details` array is accepted: it creates an order with zero amounts and no details.
- The sign-up duplicate check reads the `user` table, while the insert goes to `adminUser`.
- In `getStatus`/`getText`, the low band is bounded by the literal `10`, not by the configured reorder point.

## Model

| member | source | states |
|---|---|---|
| Utils.LowerAll | lib/utils.ts:13 | lower-casing keeps the length, maps each character through lower-casing, and leaves no upper-case letter |
| Utils.HyphenateWhitespace | lib/utils.ts:15 | after replacing whitespace runs with `-` no whitespace remains, and a string without upper case stays without |
| Utils.KeepWordChars | lib/utils.ts:16 | dropping non-word characters never lengthens the string and leaves only word characters and `-` |
| Utils.SlugFormat | lib/utils.ts:11-17 | every result is a slug: only lower-case word characters and `-`, with no whitespace |
| Utils.KeepWordCharsOfChar | lib/utils.ts:16 | a single character is kept exactly when it is a word character or `-` |
| Utils.KeepWordCharsConcat | lib/utils.ts:16 | the filter works piece by piece, so the kept characters keep their order |
| Utils.HyphenateAfterWord | lib/utils.ts:15 | text without whitespace passes through the hyphenation unchanged, ahead of whatever follows |
| Utils.HyphenateLeadingRun | lib/utils.ts:15 | a whitespace run at the front, however long, becomes one `-` and the rest is hyphenated on its own |
| Utils.HyphenateRun | lib/utils.ts:15 | a whole whitespace run between two words becomes exactly one `-` |
| Utils.SlugFormatJoinsWords | lib/utils.ts:11-17 | two slug words separated by any run of whitespace come out as the first word, `-`, the second word |
| Utils.SlugFormatFixesSlugs | lib/utils.ts:11-17 | a string that is already a slug is returned unchanged |
| Utils.SlugFormatIdempotent | lib/utils.ts:11-17 | formatting a slug a second time changes nothing |
| Utils.HandlePrismaError | lib/utils.ts:43-59 | the reply is 409 exactly for P2002, 404 exactly for P2025, 400 exactly for P2014 or P2003, and 500 otherwise; each known code has its own message (`Unique constraint error`, `Invalid ID provided`, `Foreign key constraint failed`, `Record not found`), an unknown code is named in the message, and a missing code gives the generic message |
| Utils.UnexpectedReplyNamesCode | lib/utils.ts:54-55 | two different unknown error codes never produce the same reply |
| Utils.ReplaceTZ | lib/utils.ts:77 | after the T/Z rewrite no `T` or `Z` is left, and the string is no longer than before |
| Utils.StripMillis | lib/utils.ts:77 | a trailing `.ddd` is removed and nothing else is; a string without one is unchanged |
| Utils.FormatDate | lib/utils.ts:75-78 | a missing or empty date gives `No Date`; any other date comes back with no `T` or `Z` and no longer than it was |
| Utils.FormatDateOfTimestamp | lib/utils.ts:75-78 | an ISO timestamp `dateTtime.dddZ` is shown as `date time` |
| Utils.FormatDateKeepsPlainText | lib/utils.ts:75-78 | non-empty text with no `T`, no `Z` and no millisecond suffix is shown as is |
| Utils.ReorderPoint | lib/utils.ts:98 | the reorder point is never 0; an unset variable, or text that `parseInt` reads as NaN or 0, gives 10; any other parsed value is used as is |
| Utils.ReorderPointOfDecimal | lib/utils.ts:98 | a variable holding the decimal text of a non-zero integer yields that integer |
| Utils.ReorderPointFallback | lib/utils.ts:98 | a setting whose first character is not a space, sign or digit, so that `parseInt` gives NaN, falls back to 10 |
| Utils.ReorderPointOfZero | lib/utils.ts:98 | the setting `0` falls back to 10, because 0 is falsy |
| Utils.GetStatus | lib/utils.ts:100-110 | `success` exactly above the reorder point; `warning` exactly for 1..10 at or below it; `error` otherwise, which includes the quantities between 10 and a larger reorder point |
| Utils.GetText | lib/utils.ts:113-123 | `Normal`, `Low` and `Out of Stock` are characterised exactly like the statuses, and `Unknown` fills the rest |
| Utils.StatusAgreesWithText | lib/utils.ts:100-123 | status and text always agree: success/Normal, warning/Low, error/Out of Stock or Unknown |
| Utils.UnknownTextBand | lib/utils.ts:113-123 | `Unknown` occurs exactly when the reorder point exceeds 10 and the quantity lies in (10, reorder point]; with the default point it never occurs |
| Utils.StatusGapExample | lib/utils.ts:103 | with reorder point 20, quantity 15 is classified `error`/`Unknown` |
| Utils.GetStatusIntended | lib/utils.ts:100-110 | the classification with the low band bounded by the reorder point: `warning` exactly for 1..reorder point |
| Utils.GetTextIntended | lib/utils.ts:113-123 | the corresponding text never yields `Unknown` |
| Utils.IntendedClassification | lib/utils.ts:100-123 | the corrected status and text agree one to one and coincide with the code as written whenever the reorder point is at most 10 |
| Utils.GetProvinceFullName | lib/utils.ts:146-148 | a known code maps to its Lao name; anything else is returned as given |
| Utils.ProvinceMappingCodes | lib/utils.ts:125-144 | the table holds exactly the eighteen province codes |
| Utils.ProvinceNameChangesExactlyCodes | lib/utils.ts:125-148 | the lookup changes its argument exactly when the argument is one of the province codes |
| Utils.ProvinceNamesDistinct | lib/utils.ts:125-144 | different province codes have different names |
| Decimal.ParseIntOfIntToString | lib/utils.ts:98 | `parseInt` of an integer's decimal text gives back that integer |
| Decimal.ParseIntWithoutDigits | lib/utils.ts:98 | text whose first character is not whitespace, a sign or a digit parses to NaN |
| Decimal.IntToStringInjective | lib/auth.ts:36 | distinct account ids render as distinct user-id strings |
| Cors.IsOriginAllowed | middleware.ts:6-7 | with `*` in the allow-list, every origin is allowed |
| Cors.SetCorsHeaders | middleware.ts:8-14 | the four CORS headers are added with their fixed values and the request origin; status, body and all other headers are kept |
| Cors.RequestOrigin | middleware.ts:31 | the origin is the non-empty `origin` header, else `*` |
| Cors.HandleCors | middleware.ts:16-28 | a preflight gets a fresh 200 `{}` with the CORS headers and the JSON content type; any other request keeps its response's status, body and headers and gains the CORS headers |
| Cors.Middleware | middleware.ts:30-55 | every answer echoes the request origin and never redirects; a non-OPTIONS request is passed on with exactly the CORS headers |
| Cors.PreflightAnswersFreshResponse | middleware.ts:17-22 | an OPTIONS request gets a fresh 200 `{}` whose headers are exactly the four CORS headers plus the JSON content type, whatever response was passed in |
| Cors.OtherMethodsKeepResponse | middleware.ts:24-27 | for other methods the response keeps its status, body and headers and gains the CORS headers |
| Cors.MiddlewareIgnoresSession | middleware.ts:30-55 | the middleware never redirects, its result does not depend on the session token, it echoes the request origin, and it passes non-OPTIONS requests through |
| RateLimit.ClientKey | lib/rateLimitHandler.ts:11 | the key is the first non-empty value of `x-real-ip`, `x-forwarded-for` and the request ip, else `127.0.0.1`; it is never empty |
| RateLimit.Resolve | lib/rateLimitHandler.ts:12-17 | analytics default to on unless explicitly off; the timeout defaults to 1000 |
| RateLimit.HandleRateLimit | lib/rateLimitHandler.ts:10-34 | the gate lets the request through exactly when the limiter succeeds; otherwise it answers 429 and echoes the limiter's limit, reset and remaining |
| RateLimit.GateDependsOnlyOnKey | lib/rateLimitHandler.ts:11-18 | at one limiter state, the verdict depends on the request only through its client key |
| Auth.FindByEmail | lib/auth.ts:27-29 | the lookup returns an account with the given email, or reports that none has it |
| Auth.Authorize | lib/auth.ts:25-44 | no credentials gives no user; a rejection carries one of the two messages; an authorised user comes from an existing, non-INACTIVE account with that email whose password matches |
| Auth.UnknownEmailLikeWrongPassword | lib/auth.ts:31-42 | an unknown email is rejected with the same message as a wrong password |
| Auth.WrongPasswordRejected | lib/auth.ts:31-42 | a wrong password for an existing email is rejected as invalid credentials |
| Auth.InactiveAccountRejected | lib/auth.ts:31-34 | a correct password on an INACTIVE account is rejected as `inactive` |
| Auth.ActiveAccountAuthorized | lib/auth.ts:35-40 | a correct password on any other account yields that account's id string, name, email and role |
| Auth.UniqueEmailFound | lib/auth.ts:27-29 | when an email is unique, the lookup finds exactly its account |
| Auth.Jwt | lib/auth.ts:48-54 | on sign-in the token gains the user's id and role; otherwise it is unchanged; other claims are always kept |
| Auth.SessionCallback | lib/auth.ts:55-61 | a session with a user gets the token's id and role and keeps name, email and expiry; a session without one is unchanged |
| Auth.SignInIdentifiesAccount | lib/auth.ts:35-61 | after sign-in, the session's user id parses back to the authorised account's id and carries its role |
| Signup.ValidateSignup | app/api/auth/signup/route.ts:6-23 | accepted data comes from the body's string fields; the email passes the e-mail check, the password has at least 6 characters, the full name at least 1, the phone number exactly 10 |
| Signup.ValidateEncodedSignup | app/api/auth/signup/route.ts:6-12 | every record meeting the schema's limits validates back to itself |
| Signup.Post | app/api/auth/signup/route.ts:14-54 | the status is 201, 400 or 500; a non-201 reply leaves both tables unchanged; 201 appends exactly one INACTIVE `adminUser` row and leaves `user` unchanged |
| Signup.ShortPasswordRejected | app/api/auth/signup/route.ts:8-23 | a password shorter than 6 characters is answered with 400 and changes nothing |
| Signup.PhoneLengthRejected | app/api/auth/signup/route.ts:10-23 | a phone number not exactly 10 characters long is answered with 400 and changes nothing |
| Signup.EmptyFullNameReported | app/api/auth/signup/route.ts:9-22 | an empty full name is reported as `fullName: String must contain at least 1 character(s)` |
| Signup.ExistingUserRejected | app/api/auth/signup/route.ts:27-35 | an email present in the `user` table is answered with 400 `User already exists` |
| Signup.SignupCreatesInactiveAdmin | app/api/auth/signup/route.ts:27-49 | a valid new email gives 201 and one INACTIVE admin row with a fresh id, the hashed password and the submitted fields |
| Signup.RepeatedSignupDuplicatesAdmin | app/api/auth/signup/route.ts:27-38 | signing up twice with an email not in `user` succeeds both times and leaves two admin rows with that email |
| Signup.PostChecked | app/api/auth/signup/route.ts:14-54 | the corrected route changes nothing on any non-201 reply |
| Signup.PostCheckedKeepsEmailsUnique | app/api/auth/signup/route.ts:27-47 | with the duplicate check on `adminUser`, sign-ups keep admin emails unique |
| OrderDb.FindByPhone | app/api/v1/orders/create-order/route.ts:50-54 | the lookup finds the first customer with the phone number, or reports that none has it |
| OrderDb.FindOrCreateUser | app/api/v1/orders/create-order/route.ts:49-88 | the customer ends with the submitted profile; an existing match is updated in place with its id kept and everything else unchanged; otherwise one row with an unused id is appended |
| OrderDb.ComputeTotals | app/api/v1/orders/create-order/route.ts:90-117 | the loop's crate-fee and subtotal equal the per-line sums over known products, and the total is their sum |
| OrderDb.TotalsSkipMissing | app/api/v1/orders/create-order/route.ts:95-114 | lines whose product is missing contribute nothing to the amounts |
| OrderDb.EventIdOf | app/api/v1/orders/create-order/route.ts:126 | a submitted event id of 0 becomes 1, and a non-zero one is kept |
| OrderDb.NewOrder | app/api/v1/orders/create-order/route.ts:119-129 | the order row references the customer and the submitted shop, has event 1 when 0 was submitted and the submitted event otherwise, carries the amounts of the lines whose product exists, and its total is subtotal plus crate fee |
| OrderDb.CreateOrderDetails | app/api/v1/orders/create-order/route.ts:133-162 | details are created exactly when every product exists, one snapshot of its product per line in order; otherwise a missing product id from the lines is reported |
| OrderDb.DetailsReproduceTotals | app/api/v1/orders/create-order/route.ts:102-154 | the detail rows' line totals add up to the order subtotal and their crate fees add up to the order crate fee |
| OrderDb.CreateOrderTransaction | app/api/v1/orders/create-order/route.ts:186-197 | it rolls back exactly on a store fault or a missing product; a commit keeps products and earlier rows, appends one order and one detail per line, and the total is subtotal plus crate fee |
| OrderDb.CommittedOrderFields | app/api/v1/orders/create-order/route.ts:119-129 | the committed order references the upserted customer, the submitted shop, the event (0 becomes 1) and the computed amounts |
| OrderDb.CommittedDetails | app/api/v1/orders/create-order/route.ts:145-158 | the committed details snapshot each line's product for the new order and reproduce the order's amounts |
| OrderDb.MissingProductRollsBack | app/api/v1/orders/create-order/route.ts:141-142 | one unknown product id rolls the whole transaction back with a product-not-found error |
| OrderDb.RepeatCustomerKeepsIdentity | app/api/v1/orders/create-order/route.ts:49-88 | a second order from the same phone number reuses the customer id, adds no customer row, and updates the profile |
| OrderDb.UpsertKeepsIds | app/api/v1/orders/create-order/route.ts:56-87 | the upsert keeps existing ids in place and keeps customer ids unique |
| OrderDb.CommitKeepsOrdersOwned | app/api/v1/orders/create-order/route.ts:186-191 | after a commit, customer and order ids stay unique and every order belongs to an existing customer |
| OrderDb.CommitKeepsDetailsReferenced | app/api/v1/orders/create-order/route.ts:191-194 | after a commit, detail ids stay unique and every detail points at an existing order and product |
| OrderDb.CommitPreservesWellFormed | app/api/v1/orders/create-order/route.ts:186-197 | a commit keeps ids unique and every order and detail pointing at existing rows |
| OrderSchema.ValidateUser | app/api/v1/orders/create-order/route.ts:10-23 | an accepted user has every field as submitted and a parseable date of birth; every issue lies under `user` |
| OrderSchema.ValidateLine | app/api/v1/orders/create-order/route.ts:25-28 | an accepted line carries the submitted product id and quantity; an issue lies under `order_details,<index>` |
| OrderSchema.ValidateLines | app/api/v1/orders/create-order/route.ts:24-29 | accepted lines correspond one to one with the submitted items |
| OrderSchema.ValidateOrder | app/api/v1/orders/create-order/route.ts:9-30 | an accepted order matches the body's user object, and each of its lines carries the product id and quantity of the submitted item at the same position |
| OrderSchema.ValidateEncodedUser | app/api/v1/orders/create-order/route.ts:10-23 | every customer with a parseable birth date validates back to itself |
| OrderSchema.ValidateEncodedOrder | app/api/v1/orders/create-order/route.ts:9-30 | every order payload with a parseable birth date validates back to itself |
| OrderSchema.UnparsableDobUser | app/api/v1/orders/create-order/route.ts:15-17 | an unparseable birth date is reported at `user,dob` as `Invalid date format` |
| OrderSchema.UnparsableDobRejected | app/api/v1/orders/create-order/route.ts:15-17 | the same issue is reported when the whole order is validated |
| OrderSchema.UnknownGenderUser | app/api/v1/orders/create-order/route.ts:18 | a gender outside the three names is reported at `user,gender` with zod's enum message |
| OrderSchema.UnknownGenderRejected | app/api/v1/orders/create-order/route.ts:18 | the same enum issue is reported when the whole order is validated |
| OrderRoute.Post | app/api/v1/orders/create-order/route.ts:164-218 | the reply is 201, 400, 404, 409, 429 or 500; only 201 changes the database, adding exactly one order and keeping the products |
| OrderRoute.RateLimitedRequestUntouched | app/api/v1/orders/create-order/route.ts:166-169 | a rate-limited request gets the gate's 429 and leaves the database alone |
| OrderRoute.RouteLimiterSettings | app/api/v1/orders/create-order/route.ts:166 | the route limits to 10 requests per minute sliding window, with analytics on and a 3000 ms timeout |
| OrderRoute.InvalidBodyRejected | app/api/v1/orders/create-order/route.ts:175-180 | an invalid body is answered with 400 and its first issue, and nothing is written |
| OrderRoute.MissingProductLeavesNoTrace | app/api/v1/orders/create-order/route.ts:186-216 | an order naming an unknown product gets 500 `Failed to create order`, and no customer, order or detail persists |
| OrderRoute.StoreErrorClassified | app/api/v1/orders/create-order/route.ts:211-214 | a store error is answered with the status and message from the Prisma error mapping, and nothing persists |
| OrderRoute.ValidOrderCommitted | app/api/v1/orders/create-order/route.ts:186-206 | a valid order over known products commits and is answered with 201 and the created order |
| OrderRoute.WorkedExample | app/api/v1/orders/create-order/route.ts:102-117 | two units at price 10000 with one crate at 500 give crate fee 1000, subtotal 20000 and total 21000 |

## Findings

| source | as written | input that shows it | evidently intended | confidence | as-written member | corrected member |
|---|---|---|---|---|---|---|
| lib/utils.ts:103 | the low band is `quantity <= 10 && quantity > 0` while the high band is `quantity > REORDER_POINT` | `NEXT_PUBLIC_REORDER_POINT=20`, quantity 15: status `error`, text `Unknown` | low stock is `0 < quantity <= REORDER_POINT` | medium, not executed | Utils.StatusGapExample | Utils.IntendedClassification |
| app/api/auth/signup/route.ts:27 | the duplicate check queries `user`, but the row is created in `adminUser` | the same valid sign-up body posted twice, with an email absent from `user`: both get 201 | the duplicate check reads `adminUser`, keeping admin emails unique | medium, not executed | Signup.RepeatedSignupDuplicatesAdmin | Signup.PostCheckedKeepsEmailsUnique |

The route models (`Utils.GetStatus`, `Utils.GetText`, `Signup.Post`) keep the
behaviour as written. The corrected definitions stand beside them.

## Left out

- `logError` and `console.error`: diagnostics only. They write an error-log row outside the transaction, which no reply depends on.
- Timestamps: `getLocalDateTime`, `createdAt`/`updatedAt`, and the Bangkok-time rewrite of the date of birth. These are clock and time-zone arithmetic. The stored birth date is the submitted text.
- Decimal and floating-point amounts: `Number(product.cratePrice)` and JSON numbers are modelled as unbounded integers. Fractional prices, quantities and rounding are not modelled.
- Concurrency: two requests racing on the same phone number, and the order in which `Promise.all` runs detail writes. When several products are missing, the model reports the first one in line order.
- Store faults: a Prisma failure is a single optional `fault` that makes the transaction roll back. Which write fails, and the database constraints behind it, are not modelled.
- RateLimit.HandleRateLimit: the limiter's state (how many requests each key has made in the window) is not modelled. `limiter` is one fixed state, so lemmas relate requests at that state only.
- Library behaviour behind parameters: the zod e-mail regular expression (`isEmail`), `Date.parse` (`dateParses`), bcrypt (`compare`, `hash`), Upstash's sliding-window algorithm and Redis (`limiter`), and NextAuth's `getToken`.
- Character handling: whitespace, digits and lower-casing are ASCII only. JavaScript's `\s` and `trim()` also match non-ASCII spaces such as U+00A0, U+FEFF and U+2028. The model treats those as ordinary characters, so `slugFormat("a\u00A0b")` gives `a-b` in the source but `ab` here.
- zod measures string length in UTF-16 code units; the model counts characters.
- `parseInt`: the model reads `0x` hex prefixes and decimal digits. It does not model precision loss beyond 2^53.
- Header names are map keys matched exactly as written, in the case the source writes them. The case-insensitive lookup of `Headers` is not modelled.
- Object keys such as `__proto__`, and JSON bodies with duplicate keys, are not modelled.
- `middleware.ts` leaves the `roles` list, the `config.matcher` paths and its commented-out redirects unused. The model reads the token and pathname only to show that they do not matter.
- Of the headers `NextResponse.json` sets, only `content-type: application/json` is modelled.
- `NextResponse.next()` is the response `Http.PassThrough`. Its internal `x-middleware-next` header is not modelled.
- `getSession`, the NextAuth adapter and page options are configuration, not logic.
- Signup.Post: a failing `adminUser` insert (a 500 from a database constraint) is not modelled, because the schema of that table is not part of this model. The only 500 modelled is a body that is not JSON.
- Ids the database assigns are modelled as one more than the largest id in use.
- The shared `user` table: `findOrCreateUser` finds the first row by phone number alone and overwrites its profile, including `fullName`. If that row is also an account with an email and password, a later `authorize` returns the new `fullName` as the signed-in name. The model keeps `OrderDb.Customer` and `Auth.Account` as unconnected views, so it does not show this effect.
- The other helpers in `lib/utils.ts` (`cn`, `parseStringify`, `convertFileToUrl`, `formatRelativeTime`, `encryptKey`, `decryptKey`, `formatPrice`, the notification helpers, `getCurrentDateInLaos`) are browser, formatting-library or clock wrappers, outside this model.
- Lookup routes, order approval and summary, and the UI pages are outside this model.
