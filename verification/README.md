# Product API core, modelled in Dafny

This project models the decision logic of a small Express product API. The
API keeps products in memory and serves list, search, stats and get routes
over them. Create, update and delete routes change the store. Three
middleware pieces guard and finish the requests:
- an API-key gate (`authMiddleware`);
- two payload validators (`validateProduct` and `validateProductUpdate`);
- a central error handler (`errorHandler`).

Modules, one file each:

- `JsValues`, `JsStrings`, `JsArrays`: the JavaScript semantics the handlers rely on. They cover:
  - ToBoolean;
  - `trim` with the ECMAScript white-space set;
  - ASCII `toLowerCase`;
  - `includes`;
  - `join`;
  - `parseInt` without a radix (leading white space, sign, `0x`, longest digit prefix);
  - `filter`;
  - `slice` with negative and out-of-range indices clamped as ECMAScript does.
- `Errors`: the application error kinds. NotFound is 404, Validation 400 and Authentication 401. A general `AppError(message, statusCode)` carries its own status. There is also a route/middleware result type.
- `Auth`: `authMiddleware` as pure functions of the two headers and the `API_KEY` setting.
- `Validation`: both validators as methods that push messages one check at a time. Each is proved equal to a specification: filter a fixed rule order by the violated rules, map to messages, then pass or fail. Further lemmas state each rule's meaning.
- `ErrorHandler`: `errorHandler` as a method that reassigns a working copy of the error through the chain of independent checks. It is proved equal to a "last matching check decides" function.
- `Products`: the product record, request bodies (the five schema fields as JavaScript values plus a count of unrecognised keys), the create/merge record builders, `findIndex`, and the seed data.
- `Queries`: the list route (search, category and stock filters, then page/limit slicing and pagination metadata), the `q` search and the get-by-id route, as pure functions.
- `Stats`: the stats route: the counts, the category map and the rounded average. The method's loop builds the category map the `forEach` is meant to build. It reads only the map's own entries, so it computes the corrected tally `Tally`. The `forEach` as written is `TallyAsWritten`, and the two differ exactly on categories named like `Object.prototype` members (see Findings). `TallyAsWrittenOrdinary` proves them equal for every other store.
- `Store`: class `ProductStore` holding the `products` sequence. `Create`, `Update` and `Delete` change it in place.
- `Routes`: create, update and delete as the server chains them: gate, then validator, then store.

Three behaviours of the code worth noting:
- The update validator's "at least one field" check counts every key of the body, so a body holding only unrecognised keys passes.
- A malformed JSON body becomes a general 400 error, not a Validation error.
- The 500 fallback applies only when `statusCode` is missing or 0; any other status, however unusual, is sent as it is.

## Model

| member | source | states |
|---|---|---|
| Auth.Authenticate | middleware/auth.js:5-25 | The gate: the first usable header value, with one leading `Bearer ` removed, must equal the secret; a missing key and a wrong key give the two Authentication failures (stated by the Auth lemmas below) |
| Auth.ExpectedKeyChoice | middleware/auth.js:13 | The secret is `API_KEY` when that is set and non-empty, otherwise `'your-secret-api-key-123'`; it is never empty |
| Auth.HeaderPrecedence | middleware/auth.js:6 | A non-empty `x-api-key` hides `authorization`; a missing or empty one defers to `authorization` |
| Auth.MissingKeyRejected | middleware/auth.js:8-10 | With neither header usable (and only then) the gate fails with the message that starts "API key is required." |
| Auth.PassIffKeyMatches | middleware/auth.js:16-24 | The gate passes iff a key was presented and, after removing one leading `Bearer `, equals the secret; otherwise it fails with 'Invalid API key provided.' |
| Auth.AcceptedForms | middleware/auth.js:16 | `Bearer <secret>` is accepted in either header; the bare secret is accepted iff the secret does not itself start with `Bearer ` |
| Auth.RejectionsAre401 | middleware/auth.js:8-20 | Every rejection is an Authentication error, answered 401 |
| Validation.ViolatedOnCreate | middleware/validation.js:10-49 | Each create check's condition as written, one per rule; true means the rule's message is pushed |
| Validation.ViolatedOnUpdate | middleware/validation.js:63-102 | Each update check's condition as written; a field's second check is guarded by the field's presence and by the first check passing |
| Validation.CreateValid | middleware/validation.js:10-49 | The field-by-field statement of a body `validateProduct` accepts, written independently of the checks; `CreatePassIffValid` ties the two |
| Validation.UpdateValid | middleware/validation.js:63-102 | The field-by-field statement of a body `validateProductUpdate` accepts, at least one key included; `UpdatePassIffValid` ties the two |
| Validation.ValidateProduct | middleware/validation.js:5-56 | The pushes, in source order, yield exactly the messages of the violated create rules in check order; the result fails with "Validation failed: " and those messages joined by ", ", or passes when there are none |
| Validation.ValidateProductUpdate | middleware/validation.js:58-109 | The same for the update rules, each field's second check reached only when the field is present and passed the first |
| Validation.VerdictOfViolations | middleware/validation.js:51-55 | A verdict passes iff no rule is violated; otherwise it is one Validation error whose message contains every violated rule's message |
| Validation.CreatePassIffValid | middleware/validation.js:10-49 | `validateProduct` passes iff name, description and category are non-blank strings of at most 100/500/50 characters, price is a number in [0, 999999.99] and inStock is absent or boolean; such a body has the types a stored product needs |
| Validation.UpdatePassIffValid | middleware/validation.js:63-102 | `validateProductUpdate` passes iff every present field is acceptable and the body has at least one key; such a body only carries fields of the stored types |
| Validation.CreateViolationsEmpty | middleware/validation.js:10-49 | No create message is pushed iff each of the ten checks passes |
| Validation.UpdateViolationsEmpty | middleware/validation.js:63-102 | No update message is pushed iff each of the ten checks passes |
| Validation.InCreateViolations | middleware/validation.js:10-49 | A rule is reported on create iff its check fails |
| Validation.InUpdateViolations | middleware/validation.js:63-102 | A rule is reported on update iff its check fails |
| Validation.CreateRequiredTexts | middleware/validation.js:10-26 | A name, description or category that is missing, not a string or blank gets its own "is required" message, and nothing else does |
| Validation.CreatePriceRules | middleware/validation.js:18-49 | An undefined or null price is "required"; any other non-number or negative one is "non-negative"; never both. A number above 999999.99 is rejected, and price 0 passes all three checks |
| Validation.CreateLengthCaps | middleware/validation.js:34-44 | For a string the length caps are strict: more than 100/500/50 characters is rejected, exactly that many is accepted |
| Validation.InStockRule | middleware/validation.js:29-31 | Both validators (here and at lines 95-97) reject exactly a present non-boolean `inStock` |
| Validation.UpdateTextRules | middleware/validation.js:63-93 | On update, a text field adds no message when absent, the emptiness message when present but not a non-blank string, otherwise the length message when over its cap |
| Validation.UpdateTextRule | middleware/validation.js:63-69 | One text field's two update messages, as above |
| Validation.UpdatePriceRules | middleware/validation.js:79-85 | On update, a present price that is not a non-negative number gets the first message; only a non-negative number above the cap gets the second |
| Validation.UpdateNoFieldsRule | middleware/validation.js:100-102 | The "at least one field" message is pushed iff the body has no keys |
| Validation.BlankLongName | middleware/validation.js:10-68 | A name of 101 spaces gets both messages on create, but only the emptiness message on update |
| Validation.EmptyUpdateBody | middleware/validation.js:100-106 | An update body with no keys fails with exactly "Validation failed: At least one field must be provided for update" |
| Validation.UnknownKeysOnlyPass | middleware/validation.js:100 | An update body holding only unrecognised keys passes |
| Validation.RequiredTextCheck | middleware/validation.js:10 | The create-time text check fails exactly for a value that is not a non-blank string |
| Validation.CreateMessagesAsChecked | middleware/validation.js:10-49 | The ten conditional pushes, evaluated as written, build exactly the messages of the violated create rules |
| Validation.UpdateMessagesAsChecked | middleware/validation.js:63-102 | The update pushes, evaluated as written with their `else if`s, build exactly the messages of the violated update rules |
| Validation.Respond | middleware/validation.js:51-55 | The end of both validators passes iff no message was pushed; otherwise it fails with a 400 Validation error whose message starts with "Validation failed: " and contains every pushed message |
| ErrorHandler.ErrorResponse | middleware/errorHandler.js:5-53 | The handler's answer with the last matching check deciding: it throws for a ValidationError-named error whose `errors` is undefined or null; otherwise it answers with the matched status and message, or the error's own; 500 'Internal Server Error' when that status is missing or 0; the stack only in development |
| ErrorHandler.HandleError | middleware/errorHandler.js:5-53 | The check-by-check reassignment yields the response in which the last matching check decides, with the 500 fallback, and the stack only in development |
| ErrorHandler.ResponseShape | middleware/errorHandler.js:31-53 | Every answer has `success: false` and a non-zero status; the stack is present only in development, and there it is the error's own; the handler itself throws iff a ValidationError-named error has an `errors` that is undefined or null |
| ErrorHandler.PlainErrorResponse | middleware/errorHandler.js:6-50 | An error of none of the special shapes keeps its status and message when its `statusCode` is truthy; otherwise it is answered 500 'Internal Server Error' and its message is hidden |
| ErrorHandler.ShapeResponses | middleware/errorHandler.js:19-39 | JSON syntax errors give 400 'Invalid JSON format in request body'; a ValidationError gives 400 and its errors' messages joined by ', '; code 11000 gives 400 'Duplicate field value entered'; a CastError gives 404 'Resource not found' |
| ErrorHandler.LastMatchWins | middleware/errorHandler.js:19-28 | A CastError that also carries code 11000 is answered as a duplicate (400), not as 404 |
| ErrorHandler.AppErrorResponse | middleware/errorHandler.js:6-53 | An application error thrown by a route, whatever its name (other than the two special ones), is answered with its own status and message, or 500 when its status is 0 |
| Products.NewProduct | server.js:162-169 | The created record has the given id, the body's fields, and `inStock` true when the body omits it |
| Products.Merge | server.js:183-187 | The updated record takes each field from the body when present, else from the old record, and has the requested id |
| Products.MergeNothing | server.js:183-187 | A body without schema fields leaves the record as it was |
| Products.IndexOf | server.js:177 | `findIndex` gives the first index holding the id, or -1 (None) exactly when no record has it |
| Products.IdsMembership | server.js:177-180 | An id is stored iff `findIndex` finds it |
| Products.IndexOfFindsEach | server.js:177 | With unique ids, looking up a record's id finds that record's index |
| Products.IndexOfAfterAppend | server.js:171 | After a push with a fresh id, the new id is found at the end, every other look-up is as before, and ids stay unique |
| Products.IndexOfAfterReplace | server.js:189 | Replacing a record by one with the same id changes no look-up and keeps ids unique |
| Products.IndexOfAfterRemove | server.js:201 | After the splice the removed id is gone and ids stay unique |
| Products.SeedIdsUnique | server.js:25-50 | The three seed records have distinct ids |
| Queries.Filtered | server.js:59-83 | The list's three optional filter steps in order: search when `search` is non-empty, category when `category` is non-empty, stock when `inStock` is given |
| Queries.Paginate | server.js:88-101 | The slice from `(page-1)*limit` to `(page-1)*limit + limit` of the filtered list, with its five pagination fields |
| Queries.ListProducts | server.js:58-103 | The list response: the filtered products paginated by the page and limit parameters as `PageParam` reads them, with defaults 1 and 10 |
| Queries.SearchProducts | server.js:106-123 | A 400 Validation error when `q` is missing or empty; otherwise the case-insensitive name/description matches, the echoed query and their count |
| Queries.GetProduct | server.js:150-158 | The first product with the id, or NotFound 'Product not found' |
| Queries.FilteredIsOneFilter | server.js:59-83 | The three optional filter steps together equal one filter by "matches every supplied filter" |
| Queries.ListKeepsExactlyMatches | server.js:59-83 | Before pagination the list holds the store's products matching the case-insensitive search on name or description, the case-insensitive category and `inStock === (param === 'true')`, each as often as stored, in store order |
| Queries.OptionalFilter | server.js:62-83 | A filter step applied only when its parameter is given equals a filter by "parameter absent or condition holds" |
| Queries.PageParam | server.js:86-87 | A page or limit parameter that is missing, or parses to NaN or 0, gives the default; any other parse gives its own value; so the result is never 0 when the default is not 0 |
| Queries.UnusablePageTexts | server.js:86 | `parseInt("abc")` is NaN and `parseInt("0")` is 0 |
| Queries.FallbackFirstPage | server.js:86-100 | A page parameter that is missing, or parses to NaN or 0, gives page 1 with no previous page, and the same products as no page parameter, whatever the limit |
| Queries.CeilDiv | server.js:97 | `Math.ceil(n / limit)` for positive `limit` is the least r with n <= r * limit |
| Queries.PageWindow | server.js:88-101 | For page, limit >= 1 the page is `filtered[(page-1)*limit .. min(page*limit, n))`, at most `limit` long; currentPage is the page, totalProducts is n, totalPages is ceil(n/limit), hasNext iff page*limit < n, hasPrev iff page > 1 |
| Queries.SecondOfTwoPages | server.js:86-101 | limit "2", page "2" over three matches returns the third alone, with totalPages 2, hasNext false and hasPrev true |
| Queries.DefaultFirstPage | server.js:86-91 | Without page and limit the first ten matches are returned as page 1 with no previous page |
| Queries.ParseTwo | server.js:86-87 | `parseInt("2")` is 2 |
| Queries.SearchAgreesWithList | server.js:107-122 | Search fails with the Validation error 'Search query parameter "q" is required' (400) iff `q` is missing or empty; otherwise its results are what the list's search filter keeps (exactly the name/description matches), the query is echoed and `count` is the number of results |
| Queries.SearchIgnoresCase | server.js:113-116 | A search term and its lower-cased form find the same products |
| Queries.GetFindsFirst | server.js:151-157 | Get returns the first product with the requested id, and fails with NotFound 'Product not found' (404) iff there is none |
| Stats.Tally | server.js:136-138 | The corrected category map: each product adds one to its category's own entry, which starts at 0 |
| Stats.TallyAsWritten | server.js:136-138 | The map the `forEach` builds as written, where a look-up can find an inherited `Object.prototype` member |
| Stats.AveragePrice | server.js:140-144 | The sum of the prices divided by their number, rounded to cents; 0 for an empty store |
| Stats.ComputeStats | server.js:127-146 | totalProducts is the store size; the in-stock and out-of-stock counts add up to it; the category map holds exactly the categories that occur, each with its number of products, and its counts sum to the total; the average is the mean rounded to cents, 0 for an empty store. The map is the corrected `Tally`, not the `forEach` as written (`TallyAsWritten`); they agree whenever no category is named like an `Object.prototype` member (`TallyAsWrittenOrdinary`) |
| Stats.TallyCounts | server.js:136-138 | The corrected map `Tally` holds exactly the occurring categories, each with the number of its products |
| Stats.TallyCount | server.js:136-138 | One category: it has an entry iff some product has it, and the entry is its count |
| Stats.CategoryOccurs | server.js:136-138 | A category has a non-zero count iff some stored product has it |
| Stats.CategoryCountStep | server.js:137 | Each product adds one to its own category's count and nothing to any other |
| Stats.TallySum | server.js:136-138 | The category counts add up to the number of products |
| Stats.SumCountsRemove | server.js:136-138 | The sum of a category map's counts does not depend on the order its keys are taken in |
| Stats.AveragePriceNearMean | server.js:132-144 | The reported average is 0 for an empty store, and otherwise within half a cent of the exact mean |
| Stats.SeedStats | server.js:127-144 | On the seed data: two in stock, one out, {electronics: 2, kitchen: 1}, average 683.33 |
| Stats.TallyAsWrittenOrdinary | server.js:136-138 | As written, the map holds the true counts whenever no category is named like a member of `Object.prototype` |
| Stats.ToStringCategoryMiscounted | server.js:137 | As written, a product in category `toString` leaves a string, not the count 1, in the map |
| Stats.ProtoCategoryDropped | server.js:137 | As written, a product in category `__proto__` leaves no entry in the map |
| Store.ProductStore.constructor | server.js:25-50 | The store starts with the seed records, ids unique |
| Store.ProductStore.Create | server.js:162-171 | Exactly one record, built from the body under the fresh id, is appended; earlier records are unchanged; get finds the new record, and every other look-up is as before |
| Store.ProductStore.Update | server.js:177-190 | An unknown id fails with NotFound and changes nothing; otherwise only the record at the id's index is replaced by the merge, the id and length are kept, and no other look-up changes |
| Store.ProductStore.Delete | server.js:195-202 | An unknown id fails with NotFound and changes nothing; otherwise exactly that record is removed and returned, the others keep their order, and the id is no longer found |
| Routes.CreateRoute | server.js:161-173 | A rejected key or body passes on that error and leaves the store unchanged; an accepted one appends the new record |
| Routes.UpdateRoute | server.js:176-191 | A rejected key or body, or an unknown id, passes on the error and leaves the store unchanged; otherwise the record at the id's index is merged |
| Routes.DeleteRoute | server.js:194-203 | A rejected key or an unknown id leaves the store unchanged; otherwise the record at the id's index is spliced out |
| JsStrings.Trim | middleware/validation.js:10 | `trim`: leading, then trailing, ECMAScript white space removed |
| JsStrings.Lower | server.js:63-73 | `toLowerCase`, on ASCII letters |
| JsStrings.Includes | server.js:65-66 | `includes`: the term is a prefix of some suffix of the string |
| JsStrings.Join | middleware/validation.js:52 | `join(sep)`: the elements with `sep` between neighbours |
| JsStrings.ParseInt | server.js:86-87 | `parseInt` without a radix: leading white space skipped, one sign, `0x` for hexadecimal, then the longest digit prefix; NaN (None) when there are no digits |
| JsStrings.BlankIffAllWhiteSpace | middleware/validation.js:10 | `s.trim().length === 0` iff every character of `s` is white space |
| JsStrings.TrimStartRemovesLeadingSpace | middleware/validation.js:10 | Trimming the front removes exactly the leading run of white space |
| JsStrings.TrimEndRemovesTrailingSpace | middleware/validation.js:10 | Trimming the back removes exactly the trailing run of white space |
| JsStrings.LowerProperties | server.js:63-73 | Lower-casing keeps the length, leaves no upper-case ASCII letter, and is idempotent |
| JsStrings.IncludesIffOccurs | server.js:65-66 | `includes` holds iff the term occurs at some index |
| JsStrings.IncludesWithin | server.js:65-66 | What a string includes, any string containing it includes too |
| JsStrings.JoinIncludes | middleware/validation.js:52 | Every joined message can be found in the joined text |
| JsStrings.ParseIntDecimal | server.js:86-87 | `parseInt` reads back the decimal rendering of a natural number followed by any non-digit text, except that a 0 followed by `x` or `X` starts a hexadecimal number |
| JsStrings.ParseIntPlainDigits | server.js:86-87 | Text starting with a decimal digit (not `0x`) is read as its leading decimal digits |
| JsStrings.DecimalValue | server.js:86-87 | The decimal rendering of n denotes n |
| JsStrings.DigitPrefix | server.js:86-87 | The digit prefix `parseInt` reads is the longest run of digits at the start |
| JsArrays.Filter | server.js:64-82 | `filter`: the elements satisfying the condition, in order |
| JsArrays.Slice | server.js:91 | `slice(start, end)` with both indices clamped as ECMAScript does; empty when they cross |
| JsArrays.FilterExactly | server.js:64-82 | `filter` keeps each element satisfying the condition as often as it occurs, nothing else, in order |
| JsArrays.FilterContains | server.js:113-116 | An element is in the filtered array iff it is in the array and satisfies the condition |
| JsArrays.FilterEmpty | middleware/validation.js:51 | Filtering yields nothing iff no element satisfies the condition |
| JsArrays.FilterFilter | server.js:64-82 | Two filters in a row equal one filter by the conjunction |
| JsArrays.FilterComplement | server.js:129-130 | A condition and its negation split the array between them |
| JsArrays.FilterAll | server.js:59 | A filter every element passes keeps the whole array |
| JsArrays.FilterSame | server.js:64-82 | Filtering depends only on which elements the condition accepts |
| JsArrays.SliceWindow | server.js:91 | `slice(start, start + len)` from a non-negative start is the window of the array clipped to its end, at most `len` long |
| JsArrays.Resolve | server.js:91 | A relative `slice` index is clamped into the array's bounds |

## Left out

- Express wiring is not modelled: `body-parser`, `app.listen`, `res.status(...).json(...)`, the root route, the catch-all 404 route (server.js:206-208), and the route order that lets `/search` and `/stats` shadow `/:id`. Handlers return a result value instead of writing a response, and the 201 status of create is not represented.
- middleware/logger.js and utils/asyncWrapper.js are not part of this model (console output, wall-clock latency, Promise adaptation).
- utils/errors.js is not part of this model. The error kinds carry the statuses their uses imply. Whether the application's own errors are named `'ValidationError'` is left open: `ErrorHandler.AppErrorResponse` takes the name as a parameter.
- Configuration is not read from the environment. `process.env.API_KEY` and `NODE_ENV === 'development'` are parameters, and `console.error` in the error handler is omitted.
- Fresh ids are not generated. `uuidv4()` is a parameter, and `Store.ProductStore.Create` requires that id to be unused.
- Numbers are not IEEE doubles. Prices are exact reals, and `Math.round(x * 100) / 100` is `floor(100x + 0.5) / 100` on reals, so floating-point rounding is not modelled. Very large `page`/`limit` values lose no precision in the model.
- Only ASCII letters are lower-cased. String length counts code points, not UTF-16 units. White space outside the Basic Multilingual Plane is not considered.
- Query parameters are strings or absent. Repeated parameters, which arrive as arrays, and nested objects are not modelled.
- `Products.Merge`: the update spread `{...old, ...req.body, id}` copies keys outside the schema into the stored record. The model only counts such keys and does not store them.
- `Validation.ViolatedOnCreate`, `Validation.ValidateProduct`, `Validation.CreateMessagesAsChecked`: `price > 999999.99` on a truthy non-number price (a numeric string, say) coerces in JavaScript. The model never reports PriceTooHigh for a non-number. Such a price already fails the non-negative-number check, so only the message list can differ: a price of `"2000000"` gets both the non-negative-number and the too-high message from the source, and only the first in the model.
- `LengthOver`: a plain object's own `length` property is not modelled; objects count as having no length.
- `ErrorHandler.HandleError`: `err.code` and `err.status` are modelled as numbers or absent. An `err.errors` value whose members lack `message` is not modelled. A non-Error value thrown (a string, say) is not modelled.
- `Stats.ComputeStats`: its category map is the intended per-category count. It does not reproduce the `forEach` as written for categories named like `Object.prototype` members (`toString`, `__proto__`, ...); that behaviour is `Stats.TallyAsWritten` (see Findings).
- The read-only routes (list, search, stats, get) are functions over the stored sequence. They therefore cannot change it.

## Findings

| source | as written | input that shows it | evidently intended | confidence | as-written member | corrected member |
|---|---|---|---|---|---|---|
| server.js:136-138 | `stats.categories` is a plain `{}`, so the look-up `stats.categories[c]` reads an inherited `Object.prototype` member when `c` names one, and assigning to `__proto__` is ignored | one product with category `toString` (or `__proto__`), which both validators accept | each category maps to its number of products | not executed; high (standard JavaScript property look-up) | Stats.TallyAsWritten, Stats.ToStringCategoryMiscounted, Stats.ProtoCategoryDropped | Stats.Tally, Stats.TallyCounts, Stats.TallySum |
